/** What the asynchronous facade of src/capi/uvcpp_c_db.cpp does for its users:
    which posts become jobs, and which jobs reach their callback.  Theorems about
    the runs of the machine in AsyncFacade. */
module AsyncDelivery {
  import opened Base
  import opened AsyncFacade

  // ------------------------------------------------- results are not thrown away

  /** A result is thrown away only once the facade is closed. */
  predicate Honest(s: State) {
    && (forall j :: j in s.jobs && s.jobs[j].Discarded? ==> s.closed)
    && (s.loop.FinishCount? && !s.loop.ran ==> s.closed)
  }

  /** What a step can do to the jobs of the engine, to the test and to the callbacks:
      an accepted job is taken up, delivered or thrown away; it is thrown away only if
      the test has said so, which it does only when closed; and a callback begins only
      for a job past the test, which a closed facade lets nobody pass. */
  ghost predicate Fair(s: State, t: State) {
    && (s.closed ==> t.closed)
    && (forall j :: Pending(s, j) ==> Pending(t, j) || (j in t.jobs && (t.jobs[j].Delivered? || t.jobs[j].Discarded?)))
    && (forall j :: j in t.jobs && t.jobs[j].Discarded? ==> (j in s.jobs && s.jobs[j].Discarded?) || s.loop == FinishCount(j, false))
    && (t.loop.FinishCount? && !t.loop.ran ==> s.loop == t.loop || s.closed)
    && (t.loop.EnterCallback? ==> s.loop == t.loop || !s.closed)
    && (forall j :: j in t.log ==> j in s.log || s.loop == EnterCallback(j))
  }

  /** The engine has it, and it is not settled. */
  predicate Pending(s: State, j: JobId) { j in s.jobs && (s.jobs[j].Queued? || s.jobs[j].Running?) }

  ghost predicate Counts(s: State) { Accounts(s.jobs, s.inFlight, s.posters, s.loop) }

  lemma SameFair(s: State, t: State)
    requires (s.closed ==> t.closed) && t.jobs == s.jobs && t.log == s.log
    requires t.loop == s.loop || (!t.loop.FinishCount? && !t.loop.EnterCallback?)
    ensures Fair(s, t)
  {
  }

  /** A job that was not the engine's is counted, or changes its phase. */
  lemma OtherJobFair(s: State, t: State, j: JobId, ph: Phase)
    requires t.closed == s.closed && t.jobs == s.jobs[j := ph] && t.log == s.log && t.loop == s.loop
    requires !Pending(s, j) && !ph.Discarded?
    ensures Fair(s, t)
  {
  }

  lemma NotifySame(s: State)
    ensures var t := Notify(s); t.closed == s.closed && t.jobs == s.jobs && t.log == s.log && t.loop == s.loop
  {
  }

  lemma ReadyFair(s: State, ok: bool, posters: map<Poster, PostPc>)
    ensures Fair(s, s.(joinable := true, started := true, startOk := ok, startMu := None, posters := posters))
  {
    hide Fair;
    SameFair(s, s.(joinable := true, started := true, startOk := ok, startMu := None, posters := posters));
  }

  lemma BeginFair(s: State, p: Poster)
    requires Counts(s) && PostEnabled(s, p, Begin)
    ensures Fair(s, ApplyPost(s, p, Begin))
  {
    hide Fair, Accounts;
    SameFair(s, ApplyPost(s, p, Begin));
  }

  lemma TakeMuFair(s: State, p: Poster, spawnOk: bool)
    requires Counts(s) && PostEnabled(s, p, TakeMu(spawnOk))
    ensures Fair(s, ApplyPost(s, p, TakeMu(spawnOk)))
  {
    hide Fair, Accounts;
    if s.started && s.startOk {
      SameFair(s, MoveTo(s, p, ReadLoop));
    } else if s.started || !spawnOk {
      SameFair(s, Leave(s, p));
    } else {
      SameFair(s, MoveTo(s, p, AwaitReady).(startMu := Some(p), loop := Booting));
    }
  }

  lemma ReadyUpFair(s: State, p: Poster)
    requires PostEnabled(s, p, GotReady) && s.ready.value
    ensures Fair(s, ApplyPost(s, p, GotReady))
  {
    hide Fair;
    ReadyFair(s, true, s.posters[p := ReadLoop]);
  }

  lemma ReadyDownFair(s: State, p: Poster)
    requires PostEnabled(s, p, GotReady) && !s.ready.value
    ensures Fair(s, ApplyPost(s, p, GotReady))
  {
    hide Fair;
    ReadyFair(s, false, s.posters - {p});
  }

  lemma GotReadyFair(s: State, p: Poster)
    requires Counts(s) && PostEnabled(s, p, GotReady)
    ensures Fair(s, ApplyPost(s, p, GotReady))
  {
    hide Fair, Accounts, ApplyPost;
    if s.ready.value { ReadyUpFair(s, p); } else { ReadyDownFair(s, p); }
  }

  lemma SeeLoopFair(s: State, p: Poster)
    requires Counts(s) && PostEnabled(s, p, SeeLoop)
    ensures Fair(s, ApplyPost(s, p, SeeLoop))
  {
    hide Fair, Accounts;
    if s.loopPtr { SameFair(s, MoveTo(s, p, Gate)); } else { SameFair(s, Leave(s, p)); }
  }

  lemma PassGateFair(s: State, p: Poster)
    requires Counts(s) && PostEnabled(s, p, PassGate)
    ensures Fair(s, ApplyPost(s, p, PassGate))
  {
    hide Fair;
    if s.closed {
      SameFair(s, ApplyPost(s, p, PassGate));
    } else {
      OtherJobFair(s, ApplyPost(s, p, PassGate), |s.jobs|, Counted(p));
    }
  }

  lemma HandAcceptFair(s: State, p: Poster)
    requires Counts(s) && PostEnabled(s, p, Hand(Accept))
    ensures Fair(s, ApplyPost(s, p, Hand(Accept)))
  {
  }

  lemma HandRefuseFair(s: State, p: Poster)
    requires Counts(s) && PostEnabled(s, p, Hand(Refuse))
    ensures Fair(s, ApplyPost(s, p, Hand(Refuse)))
  {
  }

  lemma HandThrowFair(s: State, p: Poster)
    requires Counts(s) && PostEnabled(s, p, Hand(Throw))
    ensures Fair(s, ApplyPost(s, p, Hand(Throw)))
  {
  }

  lemma UndoCountFair(s: State, p: Poster)
    requires Counts(s) && PostEnabled(s, p, UndoCount)
    ensures Fair(s, ApplyPost(s, p, UndoCount))
  {
  }

  lemma UndoNotifyFair(s: State, p: Poster)
    requires Counts(s) && PostEnabled(s, p, UndoNotify)
    ensures Fair(s, ApplyPost(s, p, UndoNotify))
  {
    hide Fair, Accounts, Notify;
    NotifySame(Leave(s, p));
    SameFair(s, Notify(Leave(s, p)));
  }

  lemma BootFair(s: State, ok: bool)
    requires Counts(s) && LoopEnabled(s, Boot(ok))
    ensures Fair(s, ApplyLoop(s, Boot(ok)))
  {
  }

  lemma ExitFailedFair(s: State)
    requires Counts(s) && LoopEnabled(s, ExitFailed)
    ensures Fair(s, ApplyLoop(s, ExitFailed))
  {
  }

  lemma EnterRunFair(s: State)
    requires Counts(s) && LoopEnabled(s, EnterRun)
    ensures Fair(s, ApplyLoop(s, EnterRun))
  {
  }

  lemma DeliverFair(s: State, j: JobId)
    requires Counts(s) && LoopEnabled(s, Deliver(j))
    ensures Fair(s, ApplyLoop(s, Deliver(j)))
  {
  }

  lemma LookOpenFair(s: State)
    requires Counts(s) && LoopEnabled(s, LookOpen)
    ensures Fair(s, ApplyLoop(s, LookOpen))
  {
  }

  lemma StartCallbackFair(s: State)
    requires Counts(s) && LoopEnabled(s, StartCallback)
    ensures Fair(s, ApplyLoop(s, StartCallback))
  {
  }

  lemma LeaveCallbackFair(s: State)
    requires Counts(s) && LoopEnabled(s, LeaveCallback)
    ensures Fair(s, ApplyLoop(s, LeaveCallback))
  {
  }

  lemma CountDownFair(s: State)
    requires Counts(s) && LoopEnabled(s, CountDown)
    ensures Fair(s, ApplyLoop(s, CountDown))
  {
  }

  lemma NotifyDoneFair(s: State)
    requires Counts(s) && LoopEnabled(s, NotifyDone)
    ensures Fair(s, ApplyLoop(s, NotifyDone))
  {
    hide Fair, Accounts, Notify;
    NotifySame(s.(loop := Idle));
    SameFair(s, Notify(s.(loop := Idle)));
  }

  lemma HandleWakeFair(s: State)
    requires Counts(s) && LoopEnabled(s, HandleWake)
    ensures Fair(s, ApplyLoop(s, HandleWake))
  {
  }

  lemma ClearPointersFair(s: State)
    requires Counts(s) && LoopEnabled(s, ClearPointers)
    ensures Fair(s, ApplyLoop(s, ClearPointers))
  {
  }

  ghost predicate FreeTouches(s: State, t: State) {
    (s.closed ==> t.closed) && t.jobs == s.jobs && t.log == s.log && t.loop == s.loop
  }

  predicate Waits(x: FreeStep) { x.BeginFree? || x.PassSelfCheck? || x.CloseAndTest? || x.Spurious? || x.TestAgain? }

  predicate Joins(x: FreeStep) { x.DoTakeThread? || x.DoSetStopping? || x.DoLoadWake? || x.DoSendWake? || x.DoJoin? }

  lemma WaitTouches(s: State, x: FreeStep)
    requires FreeEnabled(s, x) && Waits(x)
    ensures FreeTouches(s, ApplyFree(s, x))
  {
  }

  lemma JoinTouches(s: State, x: FreeStep)
    requires FreeEnabled(s, x) && Joins(x)
    ensures FreeTouches(s, ApplyFree(s, x))
  {
    match x
    case DoTakeThread =>
      if s.joinable { assert ApplyFree(s, x) == s.(joinable := false, free := SetStopping); }
    case DoLoadWake =>
    case _ =>
  }

  lemma EndTouches(s: State, x: FreeStep)
    requires FreeEnabled(s, x) && !Waits(x) && !Joins(x)
    ensures FreeTouches(s, ApplyFree(s, x))
  {
  }

  lemma FreeFair(s: State, x: FreeStep)
    requires FreeEnabled(s, x)
    ensures Fair(s, ApplyFree(s, x))
  {
    hide Fair, FreeEnabled, ApplyFree, Waits, Joins;
    if Waits(x) {
      WaitTouches(s, x);
    } else if Joins(x) {
      JoinTouches(s, x);
    } else {
      EndTouches(s, x);
    }
    SameFair(s, ApplyFree(s, x));
  }

  lemma PostFair(s: State, p: Poster, x: PostStep)
    requires Counts(s) && PostEnabled(s, p, x)
    ensures Fair(s, ApplyPost(s, p, x))
  {
    hide *;
    match x {
      case Begin => BeginFair(s, p);
      case TakeMu(spawnOk) => TakeMuFair(s, p, spawnOk);
      case GotReady => GotReadyFair(s, p);
      case SeeLoop => SeeLoopFair(s, p);
      case PassGate => PassGateFair(s, p);
      case Hand(answer) =>
        match answer {
          case Accept => HandAcceptFair(s, p);
          case Refuse => HandRefuseFair(s, p);
          case Throw => HandThrowFair(s, p);
        }
      case UndoCount => UndoCountFair(s, p);
      case UndoNotify => UndoNotifyFair(s, p);
    }
  }

  lemma LoopFair(s: State, x: LoopStep)
    requires Counts(s) && LoopEnabled(s, x)
    ensures Fair(s, ApplyLoop(s, x))
  {
    hide *;
    match x {
      case Boot(ok) => BootFair(s, ok);
      case ExitFailed => ExitFailedFair(s);
      case EnterRun => EnterRunFair(s);
      case Deliver(j) => DeliverFair(s, j);
      case LookOpen => LookOpenFair(s);
      case StartCallback => StartCallbackFair(s);
      case LeaveCallback => LeaveCallbackFair(s);
      case CountDown => CountDownFair(s);
      case NotifyDone => NotifyDoneFair(s);
      case HandleWake => HandleWakeFair(s);
      case ClearPointers => ClearPointersFair(s);
    }
  }

  lemma StepFair(s: State, a: Action)
    requires Inv(s) && Enabled(s, a)
    ensures Fair(s, Apply(s, a))
  {
    hide Fair, Accounts, History, Queueing, StartUp, Stop, FreeOrder, SleepJustified,
         PostEnabled, LoopEnabled, FreeEnabled, ApplyPost, ApplyLoop, ApplyFree;
    match a
    case Posting(p, x) => PostFair(s, p, x);
    case Looping(x) => LoopFair(s, x);
    case Freeing(x) => FreeFair(s, x);
  }

  lemma StepHonest(s: State, a: Action)
    requires Inv(s) && Honest(s) && Enabled(s, a)
    ensures Honest(Apply(s, a)) && (s.closed ==> Apply(s, a).closed)
  {
    hide Inv, Enabled, Apply;
    StepFair(s, a);
  }

  lemma {:induction false} RunHonest(s: State, run: seq<Action>)
    requires Inv(s) && Honest(s) && Runs(s, run)
    ensures Honest(After(s, run)) && (s.closed ==> After(s, run).closed)
    decreases run
  {
    hide Inv, Honest, Enabled, Apply;
    if run != [] {
      StepKeepsInv(s, run[0]);
      StepHonest(s, run[0]);
      RunHonest(Apply(s, run[0]), run[1..]);
    }
  }

  /** While the facade is open no result is thrown away. */
  lemma NothingDiscardedWhileOpen(s: State, j: JobId)
    requires Reachable(s) && !s.closed && j in s.jobs
    ensures !s.jobs[j].Discarded?
  {
    InitialInv();
    var run :| Runs(INITIAL, run) && After(INITIAL, run) == s;
    RunHonest(INITIAL, run);
  }

  lemma ReachableHonest(s: State)
    requires Reachable(s)
    ensures Honest(s)
  {
    InitialInv();
    var run :| Runs(INITIAL, run) && After(INITIAL, run) == s;
    RunHonest(INITIAL, run);
  }

  lemma ReachableAfter(s: State, run: seq<Action>)
    requires Reachable(s) && Runs(s, run)
    ensures Reachable(After(s, run))
  {
    hide Runs, After;
    var start :| Runs(INITIAL, start) && After(INITIAL, start) == s;
    Compose(INITIAL, start, run);
  }

  // ------------------------------------------------------ what becomes of a job

  /** It is on its way, or has been delivered, or thrown away after the closing. */
  predicate Followed(t: State, j: JobId) {
    Pending(t, j) || (j in t.jobs && (t.jobs[j].Delivered? || (t.jobs[j].Discarded? && t.closed)))
  }

  lemma FairFollows(s: State, t: State, j: JobId)
    requires Fair(s, t) && Honest(t) && Pending(s, j)
    ensures Followed(t, j)
  {
  }

  /** Over every run, a post that the engine accepted is on its way or delivered; it
      is thrown away only if the facade has been closed. */
  lemma {:induction false} AcceptedIsNotLost(s: State, run: seq<Action>, j: JobId)
    requires Inv(s) && Honest(s) && Runs(s, run) && Pending(s, j)
    ensures Followed(After(s, run), j)
    decreases run
  {
    hide Inv, Honest, Pending, Enabled, Apply;
    if run != [] {
      var t, rest := Apply(s, run[0]), run[1..];
      StepKeepsInv(s, run[0]);
      StepHonest(s, run[0]);
      StepFair(s, run[0]);
      FairFollows(s, t, j);
      if Pending(t, j) {
        AcceptedIsNotLost(t, rest, j);
      } else {
        SettledIsFinal(t, rest, j);
        RunHonest(t, rest);
      }
    }
  }

  // ------------------------------------------------------- an accepted job is served

  /** The next step of the callback's own post. */
  function InnerStep(pc: PostPc): PostStep {
    match pc
    case WantMu => TakeMu(true)
    case AwaitReady => GotReady
    case ReadLoop => SeeLoop
    case Gate => PassGate
    case HandOver(_) => Hand(Accept)
    case Undo(_) => UndoCount
    case UndoWake => UndoNotify
  }

  /** The next step towards the callback of j. */
  function Towards(s: State, j: JobId): Action {
    if Inner in s.posters then Posting(Inner, InnerStep(s.posters[Inner]))
    else
      Looping(
        match s.loop
        case PreRun => EnterRun
        case Idle => Deliver(j)
        case TestOpen(_) => LookOpen
        case EnterCallback(_) => StartCallback
        case InCallback(_) => LeaveCallback
        case FinishCount(_, _) => CountDown
        case FinishWake => NotifyDone
        case _ => ClearPointers)
  }

  function LoopFar(pc: LoopPc): nat {
    match pc
    case TestOpen(_) => 5
    case EnterCallback(_) => 4
    case InCallback(_) => 3
    case FinishCount(_, _) => 2
    case FinishWake => 1
    case PreRun => 1
    case _ => 0
  }

  function InnerFar(posters: map<Poster, PostPc>): nat {
    if Inner !in posters then 0
    else
      match posters[Inner]
      case WantMu => 6
      case AwaitReady => 6
      case ReadLoop => 5
      case Gate => 4
      case HandOver(_) => 3
      case Undo(_) => 2
      case UndoWake => 1
  }

  function Far(s: State, j: JobId): nat {
    (if j in s.jobs && s.jobs[j].Running? then 0 else 100) + 10 * LoopFar(s.loop) + InnerFar(s.posters)
  }

  /** The loop thread is up, for a facade that is open and has jobs. */
  lemma LoopIsUp(s: State, j: JobId)
    requires Inv(s) && !s.closed && j in s.jobs
    ensures Published(s.loop) && !s.loop.Cleanup? && s.loopPtr && s.started && s.startOk && s.startMu.None?
    ensures !s.free.Asleep?
  {
    hide Accounts, History;
  }

  lemma InnerTurn(s: State, j: JobId)
    requires Inv(s) && !s.closed && Pending(s, j) && Inner in s.posters
    ensures Enabled(s, Towards(s, j))
    ensures var t := Apply(s, Towards(s, j));
            !t.closed && t.loop == s.loop && Pending(t, j) && t.jobs[j] == s.jobs[j] && InnerFar(t.posters) < InnerFar(s.posters)
  {
    LoopIsUp(s, j);
    hide History, StartUp, Stop, SleepJustified;
  }

  lemma LoopTurn(s: State, j: JobId)
    requires Inv(s) && Honest(s) && !s.closed && Pending(s, j) && Inner !in s.posters
    ensures Enabled(s, Towards(s, j))
    ensures var t := Apply(s, Towards(s, j));
            && !t.closed && Inner !in t.posters && j in t.jobs
            && (t.jobs[j].Delivered? || (Pending(t, j) && Far(t, j) < Far(s, j)))
  {
    LoopIsUp(s, j);
    hide History, Queueing, StartUp, Stop, SleepJustified;
  }

  lemma TowardsTurn(s: State, j: JobId)
    requires Inv(s) && Honest(s) && !s.closed && Pending(s, j)
    ensures Enabled(s, Towards(s, j))
    ensures var t := Apply(s, Towards(s, j));
            && !t.closed && j in t.jobs
            && (t.jobs[j].Delivered? || (Pending(t, j) && Far(t, j) < Far(s, j)))
  {
    hide Inv, Enabled, Apply, Towards;
    if Inner in s.posters {
      InnerTurn(s, j);
    } else {
      LoopTurn(s, j);
    }
  }

  /** A step of the loop thread, or of the post that its callback is making. */
  predicate OnLoopThread(a: Action) { a.Looping? || (a.Posting? && a.p.Inner? && !a.post.Begin?) }

  lemma TowardsIsOnLoop(s: State, j: JobId)
    ensures OnLoopThread(Towards(s, j))
  {
  }

  lemma {:induction false} Serve(s: State, j: JobId) returns (run: seq<Action>)
    requires Inv(s) && Honest(s) && !s.closed && Pending(s, j)
    ensures Runs(s, run) && !After(s, run).closed && Inv(After(s, run))
    ensures j in After(s, run).jobs && After(s, run).jobs[j].Delivered?
    ensures forall a :: a in run ==> OnLoopThread(a)
    decreases Far(s, j)
  {
    hide Inv, Honest, Pending, Enabled, Apply, Towards, Far, OnLoopThread;
    var a := Towards(s, j);
    var t := Apply(s, a) by { TowardsTurn(s, j); }
    TowardsTurn(s, j);
    TowardsIsOnLoop(s, j);
    StepKeepsInv(s, a);
    StepHonest(s, a);
    if t.jobs[j].Delivered? {
      run := [a];
      assert run[1..] == [];
      assert Runs(t, []) && After(t, []) == t;
    } else {
      var rest := Serve(t, j);
      run := [a] + rest;
      assert run[1..] == rest;
    }
  }

  /** On an open facade every job that the engine has accepted can be delivered, by
      steps of the loop thread alone: its callback begins, and it ends. */
  lemma AcceptedIsServed(s: State, j: JobId) returns (run: seq<Action>)
    requires Reachable(s) && !s.closed && Pending(s, j)
    ensures Runs(s, run) && forall a :: a in run ==> OnLoopThread(a)
    ensures var t := After(s, run); !t.closed && j in t.jobs && t.jobs[j].Delivered? && j in t.log
  {
    hide Pending, OnLoopThread;
    ReachableInv(s);
    ReachableHonest(s);
    run := Serve(s, j);
    ReachableAfter(s, run);
    DeliveredExactlyOnce(After(s, run), j);
    hide Inv, Reachable;
  }

  // ------------------------------------------------------------- after the closing

  /** Once the facade is closed, only a job that is past the test already can still
      reach its callback. */
  lemma {:induction false} OnlyPastTheTest(s: State, run: seq<Action>)
    requires Inv(s) && s.closed && Runs(s, run)
    ensures forall j :: j in After(s, run).log ==> j in s.log || s.loop == EnterCallback(j)
    decreases run
  {
    hide Inv, Enabled, Apply;
    if run != [] {
      StepKeepsInv(s, run[0]);
      StepFair(s, run[0]);
      OnlyPastTheTest(Apply(s, run[0]), run[1..]);
    }
  }

  // ----------------------------------------------------------- what becomes of a post

  lemma {:induction false} Snoc(s: State, run: seq<Action>, a: Action)
    requires Runs(s, run) && Enabled(After(s, run), a)
    ensures Runs(s, run + [a]) && After(s, run + [a]) == Apply(After(s, run), a)
    decreases run
  {
    hide Enabled, Apply;
    if run == [] {
      assert run + [a] == [a] && [a][1..] == [];
      assert Runs(Apply(s, a), []) && After(Apply(s, a), []) == Apply(s, a);
    } else {
      assert (run + [a])[1..] == run[1..] + [a];
      Snoc(Apply(s, run[0]), run[1..], a);
    }
  }

  /** The facade can take posts: it is open, and its loop is up or can be started. */
  predicate Taking(s: State) { !s.closed && s.startMu.None? && (s.started ==> s.startOk) }

  /** A post up to the engine: it has been counted. */
  lemma Counting(s: State, p: Poster) returns (run: seq<Action>)
    requires Inv(s) && Taking(s) && PostEnabled(s, p, Begin)
    ensures Runs(s, run) && |s.jobs| !in s.jobs
    ensures var t := After(s, run); var j := |s.jobs|;
            && t.jobs == s.jobs[j := Counted(p)] && t.posters == s.posters[p := HandOver(j)]
            && t.inFlight == s.inFlight + 1 && t.free == s.free && t.log == s.log && t.closed == s.closed
  {
    hide Runs, After, Inv;
    run := Arrive(s, p);
    FreshJob(s);
    hide PostEnabled;
    PassBoth(After(s, run), p);
    hide Enabled, Apply;
    run := Append(s, run, Posting(p, SeeLoop));
    run := Append(s, run, Posting(p, PassGate));
    assert s.posters[p := ReadLoop][p := HandOver(|s.jobs|)] == s.posters[p := HandOver(|s.jobs|)];
  }

  lemma PassBoth(s: State, p: Poster)
    requires At(s, p, ReadLoop) && s.loopPtr && !s.closed
    ensures var a, b, j := Posting(p, SeeLoop), Posting(p, PassGate), |s.jobs|;
            && Enabled(s, a) && Enabled(Apply(s, a), b)
            && Apply(Apply(s, a), b) == s.(posters := s.posters[p := HandOver(j)], jobs := s.jobs[j := Counted(p)], inFlight := s.inFlight + 1)
  {
    assert s.posters[p := Gate][p := HandOver(|s.jobs|)] == s.posters[p := HandOver(|s.jobs|)];
  }

  lemma EmptyRun(s: State)
    ensures Runs(s, []) && After(s, []) == s
  {
  }

  lemma FreshJob(s: State)
    requires Inv(s)
    ensures |s.jobs| !in s.jobs
  {
  }

  lemma Append(s: State, run: seq<Action>, a: Action) returns (longer: seq<Action>)
    requires Runs(s, run) && Enabled(After(s, run), a)
    ensures longer == run + [a] && Runs(s, longer) && After(s, longer) == Apply(After(s, run), a)
  {
    hide Runs, After, Enabled, Apply;
    longer := run + [a];
    Snoc(s, run, a);
  }

  /** A post up to the test of the loop: the first one starts it (1404-1416). */
  lemma Arrive(s: State, p: Poster) returns (run: seq<Action>)
    requires Inv(s) && Taking(s) && PostEnabled(s, p, Begin)
    ensures Runs(s, run)
    ensures var t := After(s, run);
            && t.jobs == s.jobs && t.posters == s.posters[p := ReadLoop] && t.loopPtr && !t.closed
            && t.inFlight == s.inFlight && t.free == s.free && t.log == s.log
  {
    hide Runs, After, Accounts, History, SleepJustified;
    EmptyRun(s);
    run := Append(s, [], Posting(p, Begin));
    run := Append(s, run, Posting(p, TakeMu(true)));
    if !s.started {
      run := Append(s, run, Looping(Boot(true)));
      run := Append(s, run, Posting(p, GotReady));
      assert s.posters[p := WantMu][p := AwaitReady][p := ReadLoop] == s.posters[p := ReadLoop];
    } else {
      assert s.posters[p := WantMu][p := ReadLoop] == s.posters[p := ReadLoop];
    }
  }

  /** A post that the engine accepts ends as one more job on its way; nothing else
      about jobs, posters or callbacks is changed by it. */
  lemma AcceptedPostIsQueued(s: State, p: Poster) returns (run: seq<Action>)
    requires Reachable(s) && Taking(s) && PostEnabled(s, p, Begin)
    ensures Runs(s, run) && |s.jobs| !in s.jobs
    ensures var t := After(s, run);
            && t.jobs == s.jobs[|s.jobs| := Queued] && t.posters == s.posters && t.inFlight == s.inFlight + 1
            && t.log == s.log && !t.closed && t.free == s.free
  {
    hide Runs, After, Inv, Reachable;
    ReachableInv(s);
    run := Counting(s, p);
    run := Append(s, run, Posting(p, Hand(Accept)));
    var j := |s.jobs|;
    assert s.posters[p := HandOver(j)] - {p} == s.posters;
    assert s.jobs[j := Counted(p)][j := Queued] == s.jobs[j := Queued];
  }

  /** One that the engine refuses leaves the count as it was, and is never delivered. */
  lemma RefusedPostIsUndone(s: State, p: Poster) returns (run: seq<Action>)
    requires Reachable(s) && Taking(s) && PostEnabled(s, p, Begin)
    ensures Runs(s, run) && |s.jobs| !in s.jobs
    ensures var t := After(s, run);
            && t.jobs == s.jobs[|s.jobs| := Refused] && t.posters == s.posters && t.inFlight == s.inFlight
            && t.log == s.log && !t.closed && t.free == s.free
  {
    hide Runs, After, Inv, Reachable;
    ReachableInv(s);
    NotAsleep(s);
    run := Counting(s, p);
    hide PostEnabled, Taking;
    run := UndoRun(s, run, p);
    var j := |s.jobs|;
    assert s.posters[p := HandOver(j)] - {p} == s.posters;
    assert s.jobs[j := Counted(p)][j := Refused] == s.jobs[j := Refused];
  }

  lemma UndoRun(s: State, run: seq<Action>, p: Poster) returns (longer: seq<Action>)
    requires Runs(s, run) && p in After(s, run).posters && After(s, run).posters[p].HandOver?
    requires !After(s, run).free.Asleep? && After(s, run).inFlight > 0
    ensures Runs(s, longer)
    ensures var t := After(s, run);
            After(s, longer) == t.(posters := t.posters - {p}, jobs := t.jobs[t.posters[p].j := Refused], inFlight := t.inFlight - 1)
  {
    hide Runs, After, Enabled, Apply;
    Undoing(After(s, run), p);
    longer := Append(s, run, Posting(p, Hand(Refuse)));
    longer := Append(s, longer, Posting(p, UndoCount));
    longer := Append(s, longer, Posting(p, UndoNotify));
  }

  lemma Undoing(s: State, p: Poster)
    requires p in s.posters && s.posters[p].HandOver? && !s.free.Asleep? && s.inFlight > 0
    ensures var a, b, c, j := Posting(p, Hand(Refuse)), Posting(p, UndoCount), Posting(p, UndoNotify), s.posters[p].j;
            && Enabled(s, a) && Enabled(Apply(s, a), b) && Enabled(Apply(Apply(s, a), b), c)
            && Apply(Apply(Apply(s, a), b), c) == s.(posters := s.posters - {p}, jobs := s.jobs[j := Refused], inFlight := s.inFlight - 1)
  {
    var j := s.posters[p].j;
    assert s.posters[p := Undo(j)][p := UndoWake] - {p} == s.posters - {p};
    assert s.jobs[j := Refusing(p)][j := Refused] == s.jobs[j := Refused];
  }

  lemma NotAsleep(s: State)
    requires Inv(s) && !s.closed
    ensures !s.free.Asleep?
  {
  }

  /** If the loop could not be started, every later post is turned away and changes
      nothing. */
  lemma FailedStartRefuses(s: State, p: Poster, spawnOk: bool)
    requires Reachable(s) && s.started && !s.startOk && !s.closed && PostEnabled(s, p, Begin)
    ensures var run := [Posting(p, Begin), Posting(p, TakeMu(spawnOk))]; Runs(s, run) && After(s, run) == s
  {
    ReachableInv(s);
    hide Accounts, History, SleepJustified, Reachable;
    var t := Apply(s, Posting(p, Begin));
    assert s.posters[p := WantMu] - {p} == s.posters;
    assert Enabled(t, Posting(p, TakeMu(spawnOk))) && Apply(t, Posting(p, TakeMu(spawnOk))) == s;
    var a, b := Posting(p, Begin), Posting(p, TakeMu(spawnOk));
    hide Enabled, Apply;
    EmptyRun(s);
    EmptyRun(t);
    Snoc(s, [], a);
    Snoc(s, [a], b);
    assert [] + [a] == [a] && [a] + [b] == [a, b];
  }

  /** So on an open facade whoever posts, outside or inside a callback, is served: there
      is a run in which the engine accepts the post and its callback begins and ends. */
  lemma PostIsServed(s: State, p: Poster) returns (run: seq<Action>)
    requires Reachable(s) && Taking(s) && PostEnabled(s, p, Begin)
    ensures Runs(s, run) && |s.jobs| !in s.jobs
    ensures var t := After(s, run); var j := |s.jobs|; j in t.jobs && t.jobs[j].Delivered? && j in t.log && j !in s.log
  {
    hide Runs, After, Inv, Taking, PostEnabled, Reachable;
    var first := AcceptedPostIsQueued(s, p);
    ReachableAfter(s, first);
    var second := AcceptedIsServed(After(s, first), |s.jobs|);
    Compose(s, first, second);
    run := first + second;
    DeliveredExactlyOnce(s, |s.jobs|);
  }

  /** And a free can be called whenever no other thread posts, and returns. */
  lemma CalledFreeReturns(s: State) returns (run: seq<Action>)
    requires Reachable(s) && s.free.NotCalled? && LeakedJobs(s.jobs) == {} && forall p :: p in s.posters ==> p.Inner?
    ensures Runs(s, run) && After(s, run).free.Returned?
  {
    hide Inv, Runs, After, Reachable, LeakedJobs;
    ReachableInv(s);
    var a := Freeing(BeginFree);
    StepKeepsInv(s, a);
    var rest := FreeReturns(Apply(s, a));
    EmptyRun(s);
    Snoc(s, [], a);
    Compose(s, [] + [a], rest);
    run := [] + [a] + rest;
  }
}
