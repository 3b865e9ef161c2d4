/** The asynchronous database facade of src/capi/uvcpp_c_db.cpp as a
    small-step machine.  Three kinds of thread take steps in any order: the
    threads that post work, the private loop thread that delivers it, and the
    one thread that frees the facade.  A step is one atomic action of the code:
    one section under a lock, one access to an atomic, one hand-over. */
module AsyncFacade {
  import opened Base

  type JobId = nat

  /** Who posts: a thread of the user, or the user's code inside the callback
      that the loop thread is running. */
  datatype Poster = Outside(thread: nat) | Inner

  /** What the engine does with a counted job that is handed to it. */
  datatype Answer = Accept | Refuse | Throw

  /** Where a posting call stands (lines 1526-1566). */
  datatype PostPc =
    | WantMu             // about to lock start_mu (1404)
    | AwaitReady         // loop thread spawned, waits with start_mu held (1410)
    | ReadLoop           // about to load loop_ (1534)
    | Gate               // about to test `closed` and count, in one section (1541)
    | HandOver(j: JobId) // counted, about to call the engine (1549)
    | Undo(j: JobId)     // engine refused, about to take the count back (1565)
    | UndoWake           // count taken back, about to notify (1269)

  /** Where the loop thread stands (1349-1400 and 1264-1310). */
  datatype LoopPc =
    | Unborn
    | Booting
    | BootFailed
    | PreRun                          // published, not yet inside run()
    | Idle                            // inside run(), no handler running
    | TestOpen(j: JobId)              // still_open (1282)
    | EnterCallback(j: JobId)         // CbDepth and the call (1283-1289)
    | InCallback(j: JobId)            // user code is running
    | FinishCount(j: JobId, ran: bool) // finish_one, locked part (1265)
    | FinishWake                      // finish_one, notify (1269)
    | Cleanup                         // run() returned (1392)
    | Exited

  /** Where the freeing call stands (1476-1510 and 1418-1429). */
  datatype FreePc =
    | NotCalled
    | CheckSelf
    | Closing
    | Asleep             // blocked on the condition variable
    | Recheck            // notified, about to test the predicate again
    | Unbind
    | Unregister
    | TakeThread
    | SetStopping
    | LoadWake
    | SendWake           // holds a non-null wake pointer
    | Join
    | ResetFacade
    | DeleteHandle
    | Returned

  /** The life of one counted job. */
  datatype Phase =
    | Counted(holder: Poster)
    | Refusing(holder: Poster)
    | Queued
    | Running
    | Leaked             // the engine call threw after the job was counted
    | Delivered
    | Discarded
    | Refused
  {
    predicate Open() { Counted? || Refusing? || Queued? || Running? || Leaked? }
  }

  datatype State = State(
    // db_c_async_state
    closed: bool, inFlight: nat, cbDepth: nat, loopStarted: bool,
    // uvcpp_c_db_async: start-up and stop
    startMu: Option<Poster>, started: bool, startOk: bool, joinable: bool,
    ready: Option<bool>, loopPtr: bool, wakePtr: bool, stopping: bool,
    wakePending: bool,
    // life of the handle, of its bind count, of the C++ facade
    registered: bool, bound: bool, facade: bool, handle: bool,
    // program counters
    loop: LoopPc, posters: map<Poster, PostPc>, free: FreePc,
    // history: phase of every counted job, order in which callbacks began
    jobs: map<JobId, Phase>, log: seq<JobId>)

  /** After `_async_new` (1433-1454). */
  const INITIAL := State(false, 0, 0, false, None, false, false, false, None,
                         false, false, false, false, true, true, true, true,
                         Unborn, map[], NotCalled, map[], [])

  datatype PostStep =
    | Begin
    | TakeMu(spawnOk: bool)
    | GotReady
    | SeeLoop
    | PassGate
    | Hand(answer: Answer)
    | UndoCount
    | UndoNotify

  datatype LoopStep =
    | Boot(ok: bool)
    | ExitFailed
    | EnterRun
    | Deliver(j: JobId)
    | LookOpen
    | StartCallback
    | LeaveCallback
    | CountDown
    | NotifyDone
    | HandleWake
    | ClearPointers

  datatype FreeStep =
    | BeginFree
    | PassSelfCheck
    | CloseAndTest
    | Spurious
    | TestAgain
    | DoUnbind
    | DoUnregister
    | DoTakeThread
    | DoSetStopping
    | DoLoadWake
    | DoSendWake
    | DoJoin
    | DoResetFacade
    | DoDeleteHandle

  /** Whose step it is. */
  datatype Action = Posting(p: Poster, post: PostStep) | Looping(loop: LoopStep) | Freeing(free: FreeStep)

  predicate Holds(posters: map<Poster, PostPc>, p: Poster, pc: PostPc) {
    p in posters && posters[p] == pc
  }

  predicate At(s: State, p: Poster, pc: PostPc) { Holds(s.posters, p, pc) }

  /** The contract of the callers is here: a thread outside a callback does
      not post while a free is going on, and a free is not called while one
      posts.  A callback may post at any moment, and anyone after the free. */
  predicate PostEnabled(s: State, p: Poster, a: PostStep) {
    match a
    case Begin =>
      p !in s.posters && if p.Inner? then s.loop.InCallback? else s.free.NotCalled? || s.free.Returned?
    case TakeMu(_) => At(s, p, WantMu) && s.startMu.None?
    case GotReady => At(s, p, AwaitReady) && s.ready.Some?
    case SeeLoop => At(s, p, ReadLoop)
    case PassGate => At(s, p, Gate)
    case Hand(_) => p in s.posters && s.posters[p].HandOver?
    case UndoCount => p in s.posters && s.posters[p].Undo?
    case UndoNotify => At(s, p, UndoWake)
  }

  predicate LoopEnabled(s: State, a: LoopStep) {
    match a
    case Boot(_) => s.loop.Booting?
    case ExitFailed => s.loop.BootFailed?
    case EnterRun => s.loop.PreRun?
    case Deliver(j) => s.loop.Idle? && j in s.jobs && s.jobs[j].Queued?
    case LookOpen => s.loop.TestOpen?
    case StartCallback => s.loop.EnterCallback?
    case LeaveCallback => s.loop.InCallback? && Inner !in s.posters
    case CountDown => s.loop.FinishCount?
    case NotifyDone => s.loop.FinishWake?
    case HandleWake => s.loop.Idle? && s.wakePending
    case ClearPointers => s.loop.Cleanup?
  }

  predicate FreeEnabled(s: State, a: FreeStep) {
    match a
    case BeginFree => s.free.NotCalled? && forall p :: p in s.posters ==> p.Inner?
    case PassSelfCheck => s.free.CheckSelf?
    case CloseAndTest => s.free.Closing?
    case Spurious => s.free.Asleep?
    case TestAgain => s.free.Recheck?
    case DoUnbind => s.free.Unbind?
    case DoUnregister => s.free.Unregister?
    case DoTakeThread => s.free.TakeThread? && s.startMu.None?
    case DoSetStopping => s.free.SetStopping?
    case DoLoadWake => s.free.LoadWake?
    case DoSendWake => s.free.SendWake?
    case DoJoin => s.free.Join? && s.loop.Exited?
    case DoResetFacade => s.free.ResetFacade?
    case DoDeleteHandle => s.free.DeleteHandle?
  }

  predicate Enabled(s: State, a: Action) {
    match a
    case Posting(p, x) => PostEnabled(s, p, x)
    case Looping(x) => LoopEnabled(s, x)
    case Freeing(x) => FreeEnabled(s, x)
  }

  function MoveTo(s: State, p: Poster, pc: PostPc): State { s.(posters := s.posters[p := pc]) }

  function Leave(s: State, p: Poster): State { s.(posters := s.posters - {p}) }

  function Mark(s: State, j: JobId, ph: Phase): State { s.(jobs := s.jobs[j := ph]) }

  /** `cv.notify_all()` wakes the freeing thread if it sleeps there. */
  function Notify(s: State): State {
    if s.free.Asleep? then s.(free := Recheck) else s
  }

  /** `if (s->in_flight > 0) --s->in_flight;` */
  function Decrement(n: nat): nat { if n > 0 then n - 1 else n }

  function ApplyPost(s: State, p: Poster, a: PostStep): State
    requires PostEnabled(s, p, a)
  {
    match a
    // A handle that is not registered is rejected without being read (1526).
    case Begin => if s.registered then MoveTo(s, p, WantMu) else s
    case TakeMu(spawnOk) =>
      if s.started then (if s.startOk then MoveTo(s, p, ReadLoop) else Leave(s, p))
      else if !spawnOk then Leave(s, p)
      else MoveTo(s, p, AwaitReady).(startMu := Some(p), loop := Booting)
    case GotReady =>
      var t := s.(joinable := true, started := true, startOk := s.ready.value, startMu := None);
      if s.ready.value then MoveTo(t, p, ReadLoop) else Leave(t, p)
    case SeeLoop => if s.loopPtr then MoveTo(s, p, Gate) else Leave(s, p)
    case PassGate =>
      if s.closed then Leave(s, p)
      else
        var j := |s.jobs|;
        Mark(MoveTo(s, p, HandOver(j)), j, Counted(p)).(inFlight := s.inFlight + 1)
    case Hand(answer) =>
      var j := s.posters[p].j;
      match answer {
        case Accept => Mark(Leave(s, p), j, Queued)
        case Refuse => Mark(MoveTo(s, p, Undo(j)), j, Refusing(p))
        case Throw => Mark(Leave(s, p), j, Leaked)
      }
    case UndoCount =>
      Mark(MoveTo(s, p, UndoWake), s.posters[p].j, Refused).(inFlight := Decrement(s.inFlight))
    case UndoNotify => Notify(Leave(s, p))
  }

  function ApplyLoop(s: State, a: LoopStep): State
    requires LoopEnabled(s, a)
  {
    match a
    case Boot(ok) =>
      if ok then s.(wakePtr := true, loopPtr := true, loopStarted := true, ready := Some(true), loop := PreRun)
      else s.(ready := Some(false), loop := BootFailed)
    case ExitFailed => s.(loop := Exited)
    case EnterRun => s.(loop := Idle)
    case Deliver(j) => Mark(s, j, Running).(loop := TestOpen(j))
    case LookOpen =>
      s.(loop := if s.closed then FinishCount(s.loop.j, false) else EnterCallback(s.loop.j))
    case StartCallback =>
      s.(cbDepth := s.cbDepth + 1, log := s.log + [s.loop.j], loop := InCallback(s.loop.j))
    case LeaveCallback =>
      s.(cbDepth := Decrement(s.cbDepth), loop := FinishCount(s.loop.j, true))
    case CountDown =>
      Mark(s, s.loop.j, if s.loop.ran then Delivered else Discarded)
        .(inFlight := Decrement(s.inFlight), loop := FinishWake)
    case NotifyDone => Notify(s.(loop := Idle))
    case HandleWake =>
      // The callback of the wake handle stops the loop only when asked to (1364).
      s.(wakePending := false, loop := if s.stopping && s.loopPtr then Cleanup else Idle)
    case ClearPointers => s.(wakePtr := false, loopPtr := false, loop := Exited)
  }

  function ApplyFree(s: State, a: FreeStep): State
    requires FreeEnabled(s, a)
  {
    match a
    case BeginFree => s.(free := CheckSelf)
    case PassSelfCheck => s.(free := Closing)
    case CloseAndTest => s.(closed := true, free := if s.inFlight == 0 then Unbind else Asleep)
    case Spurious => s.(free := Recheck)
    case TestAgain => s.(free := if s.inFlight == 0 then Unbind else Asleep)
    case DoUnbind => s.(bound := false, free := Unregister)
    case DoUnregister => s.(registered := false, free := TakeThread)
    case DoTakeThread =>
      if s.joinable then s.(joinable := false, free := SetStopping) else s.(free := ResetFacade)
    case DoSetStopping => s.(stopping := true, free := LoadWake)
    case DoLoadWake => s.(free := if s.wakePtr then SendWake else Join)
    case DoSendWake => s.(wakePending := true, free := Join)
    case DoJoin => s.(free := ResetFacade)
    case DoResetFacade => s.(facade := false, free := DeleteHandle)
    case DoDeleteHandle => s.(handle := false, free := Returned)
  }

  function Apply(s: State, a: Action): State
    requires Enabled(s, a)
  {
    match a
    case Posting(p, x) => ApplyPost(s, p, x)
    case Looping(x) => ApplyLoop(s, x)
    case Freeing(x) => ApplyFree(s, x)
  }

  // ---------------------------------------------------------------- runs

  predicate Runs(s: State, run: seq<Action>)
    decreases run
  {
    run == [] || (Enabled(s, run[0]) && Runs(Apply(s, run[0]), run[1..]))
  }

  function After(s: State, run: seq<Action>): State
    requires Runs(s, run)
    decreases run
  {
    if run == [] then s else After(Apply(s, run[0]), run[1..])
  }

  // ----------------------------------------------------------- invariant

  ghost function OpenJobs(jobs: map<JobId, Phase>): set<JobId> {
    set j | j in jobs && jobs[j].Open()
  }

  ghost function QueuedJobs(jobs: map<JobId, Phase>): set<JobId> {
    set j | j in jobs && jobs[j].Queued?
  }

  /** The job the loop thread is busy with. */
  function LoopJob(pc: LoopPc): Option<JobId> {
    match pc
    case TestOpen(j) => Some(j)
    case EnterCallback(j) => Some(j)
    case InCallback(j) => Some(j)
    case FinishCount(j, _) => Some(j)
    case _ => None
  }

  /** How far the freeing call has come. */
  function Rank(pc: FreePc): nat {
    match pc
    case NotCalled => 0
    case CheckSelf => 1
    case Closing => 2
    case Asleep => 3
    case Recheck => 3
    case Unbind => 4
    case Unregister => 5
    case TakeThread => 6
    case SetStopping => 7
    case LoadWake => 8
    case SendWake => 9
    case Join => 10
    case ResetFacade => 11
    case DeleteHandle => 12
    case Returned => 13
  }

  /** The accounting: every counted job is in exactly one phase, the open ones
      are what `in_flight` counts, and each has exactly one holder. */
  ghost predicate Accounts(jobs: map<JobId, Phase>, inFlight: nat, posters: map<Poster, PostPc>, loop: LoopPc) {
    && (forall j :: j in jobs ==> j < |jobs|)
    && inFlight == |OpenJobs(jobs)|
    && (forall p :: p in posters && posters[p].HandOver? ==>
          posters[p].j in jobs && jobs[posters[p].j] == Counted(p))
    && (forall p :: p in posters && posters[p].Undo? ==>
          posters[p].j in jobs && jobs[posters[p].j] == Refusing(p))
    && (forall j :: j in jobs && jobs[j].Counted? ==> Holds(posters, jobs[j].holder, HandOver(j)))
    && (forall j :: j in jobs && jobs[j].Refusing? ==> Holds(posters, jobs[j].holder, Undo(j)))
    && (forall j :: j in jobs && jobs[j].Running? ==> LoopJob(loop) == Some(j))
    && (LoopJob(loop).Some? ==> LoopJob(loop).value in jobs && jobs[LoopJob(loop).value].Running?)
  }

  /** A callback began for exactly the delivered jobs and the one in progress. */
  ghost predicate Began(jobs: map<JobId, Phase>, loop: LoopPc, j: JobId) {
    (j in jobs && jobs[j].Delivered?) || loop == InCallback(j) || loop == FinishCount(j, true)
  }

  ghost predicate History(jobs: map<JobId, Phase>, log: seq<JobId>, cbDepth: nat, loop: LoopPc) {
    && NoDup(log)
    && (forall j :: j in log <==> Began(jobs, loop, j))
    && cbDepth == (if loop.InCallback? then 1 else 0)
  }

  /** The loop thread is past start-up and has not left `run()`. */
  predicate Published(pc: LoopPc) {
    pc.PreRun? || pc.Idle? || LoopJob(pc).Some? || pc.FinishWake? || pc.Cleanup?
  }

  /** Who may be posting: start_mu is held across the start-up hand-shake only,
      nobody is past it before the loop runs, only a callback posts while a free
      is going on, and its posts end before it does. */
  ghost predicate Queueing(posters: map<Poster, PostPc>, startMu: Option<Poster>, up: bool, quiet: bool, inCb: bool) {
    && (startMu.Some? ==> Holds(posters, startMu.value, AwaitReady))
    && (forall p :: p in posters && posters[p].AwaitReady? ==> startMu == Some(p))
    && (forall p :: p in posters && !posters[p].WantMu? && !posters[p].AwaitReady? ==> up)
    && (forall p :: p in posters ==> if p.Inner? then inCb && up else quiet)
  }

  /** The lazy start. */
  predicate StartUp(s: State) {
    && (s.startMu.Some? ==> !s.started && !s.loop.Unborn? && s.free.NotCalled?)
    && (!s.started && !s.loop.Unborn? ==> s.startMu.Some?)
    && (s.loop.Unborn? || s.loop.Booting? ==> s.ready.None?)
    && (s.ready.None? ==> !s.started && (s.loop.Unborn? || s.loop.Booting?))
    && (s.started ==> s.ready == Some(s.startOk))
    && (s.ready == Some(false) ==> s.loop.BootFailed? || s.loop.Exited?)
    && (s.ready == Some(true) ==> Published(s.loop) || s.loop.Exited?)
    && s.wakePtr == s.loopPtr == Published(s.loop)
    && (s.loopStarted <==> s.ready == Some(true))
    && (s.ready == Some(true) && s.loop.Exited? ==> Rank(s.free) >= 10)
    && (s.jobs != map[] || s.loop.FinishWake? ==> s.started && s.startOk)
  }

  /** The stop hand-shake. */
  predicate Stop(s: State) {
    && s.joinable == (s.started && Rank(s.free) <= 6)
    && (s.stopping <==> 8 <= Rank(s.free) && s.started)
    && (7 <= Rank(s.free) <= 10 ==> s.started)
    && (s.free.SendWake? ==> s.wakePtr)
    && (s.wakePending ==> Rank(s.free) >= 10 && s.stopping)
    && (s.loop.Cleanup? ==> Rank(s.free) >= 10)
    && (s.free.Join? && Published(s.loop) ==> s.wakePending || s.loop.Cleanup?)
    && (Rank(s.free) >= 11 ==> s.loop.Unborn? || s.loop.Exited?)
  }

  /** Order of the freeing call. */
  predicate FreeOrder(s: State) {
    && (s.closed <==> Rank(s.free) >= 3)
    && (Rank(s.free) >= 4 ==> s.inFlight == 0)
    && (s.bound <==> Rank(s.free) < 5)
    && (s.registered <==> Rank(s.free) < 6)
    && (s.facade <==> Rank(s.free) < 12)
    && (s.handle <==> Rank(s.free) < 13)
  }

  /** No wake-up is lost: who sleeps has something to wait for. */
  ghost predicate SleepJustified(s: State) {
    s.free.Asleep? ==>
      s.inFlight > 0 || s.loop.FinishWake? || exists p :: At(s, p, UndoWake)
  }

  ghost predicate Inv(s: State) {
    && Accounts(s.jobs, s.inFlight, s.posters, s.loop)
    && History(s.jobs, s.log, s.cbDepth, s.loop)
    && Queueing(s.posters, s.startMu, s.started && s.startOk, s.free.NotCalled?, s.loop.InCallback?)
    && StartUp(s) && Stop(s) && FreeOrder(s) && SleepJustified(s)
  }

  // ------------------------------------------------------------- measure

  function FreeWeight(pc: FreePc): nat {
    match pc
    case NotCalled => 0
    case CheckSelf => 61
    case Closing => 56
    case Asleep => 50
    case Recheck => 51
    case Unbind => 45
    case Unregister => 40
    case TakeThread => 35
    case SetStopping => 30
    case LoadWake => 25
    case SendWake => 20
    case Join => 15
    case ResetFacade => 10
    case DeleteHandle => 5
    case Returned => 0
  }

  function LoopWeight(pc: LoopPc): nat {
    match pc
    case Unborn => 0
    case Booting => 2
    case BootFailed => 1
    case PreRun => 1
    case Idle => 0
    case TestOpen(_) => 7
    case EnterCallback(_) => 6
    case InCallback(_) => 5
    case FinishCount(_, _) => 4
    case FinishWake => 3
    case Cleanup => 2
    case Exited => 0
  }

  function PostWeight(pc: PostPc): nat {
    match pc
    case WantMu => 3
    case AwaitReady => 3
    case ReadLoop => 2
    case Gate => 1
    case HandOver(_) => 14
    case Undo(_) => 5
    case UndoWake => 3
  }

  function InnerWeight(posters: map<Poster, PostPc>): nat {
    if Inner in posters then PostWeight(posters[Inner]) else 0
  }

  /** What is still to be done before free returns. */
  ghost function Measure(s: State): nat {
    FreeWeight(s.free) + LoopWeight(s.loop) + 8 * |QueuedJobs(s.jobs)|
    + InnerWeight(s.posters) + (if s.wakePending then 3 else 0)
  }

  /** Steps chosen by the environment: the callback posts once more, or the
      condition variable wakes up for no reason. */
  predicate External(a: Action) { a == Freeing(Spurious) || (a.Posting? && a.post.Begin?) }

  /** The jobs whose count nobody will take back. */
  ghost function LeakedJobs(jobs: map<JobId, Phase>): set<JobId> {
    set j | j in jobs && jobs[j].Leaked?
  }

  /** What is settled stays settled, in the same way. */
  ghost predicate Settled(jobs: map<JobId, Phase>, after: map<JobId, Phase>) {
    forall j :: j in jobs && !jobs[j].Open() ==> j in after && after[j] == jobs[j]
  }

  /** A step never takes the freeing call back; it settles no leaked job, and
      leaks one only if the engine throws; and once closed, a step of the protocol
      brings the return closer, a step the environment chooses puts it off by at
      most three. */
  ghost predicate Descends(s: State, t: State, external: bool, throws: bool) {
    && Rank(s.free) <= Rank(t.free) && Settled(s.jobs, t.jobs)
    && (if throws then LeakedJobs(s.jobs) <= LeakedJobs(t.jobs) else LeakedJobs(s.jobs) == LeakedJobs(t.jobs))
    && (s.closed ==>
          t.closed && if external then Measure(t) <= Measure(s) + 3 else Measure(t) < Measure(s))
  }

  // ------------------------------------------- every step keeps the invariant

  lemma SizeWithout<T>(x: set<T>, e: T)
    ensures |x| == |x - {e}| + if e in x then 1 else 0
  {
    assert x - {e} == if e in x then x - {e} else x;
  }

  lemma OpenElsewhere(jobs: map<JobId, Phase>, j: JobId, ph: Phase)
    ensures OpenJobs(jobs[j := ph]) - {j} == OpenJobs(jobs) - {j}
    ensures j in OpenJobs(jobs) <==> j in jobs && jobs[j].Open()
    ensures j in OpenJobs(jobs[j := ph]) <==> ph.Open()
  {
  }

  lemma Resize(jobs: map<JobId, Phase>, j: JobId, ph: Phase)
    ensures |jobs[j := ph]| == |jobs| + if j in jobs then 0 else 1
  {
  }

  /** Moving one job to another phase moves the counts accordingly. */
  lemma Recount(jobs: map<JobId, Phase>, j: JobId, ph: Phase)
    ensures |OpenJobs(jobs[j := ph])| ==
            |OpenJobs(jobs)| + (if ph.Open() then 1 else 0) - (if j in jobs && jobs[j].Open() then 1 else 0)
    ensures |jobs[j := ph]| == |jobs| + if j in jobs then 0 else 1
  {
    hide OpenJobs;
    Resize(jobs, j, ph);
    OpenElsewhere(jobs, j, ph);
    SizeWithout(OpenJobs(jobs), j);
    SizeWithout(OpenJobs(jobs[j := ph]), j);
  }

  lemma RecountQueued(jobs: map<JobId, Phase>, j: JobId, ph: Phase)
    ensures |QueuedJobs(jobs[j := ph])| ==
            |QueuedJobs(jobs)| + (if ph.Queued? then 1 else 0) - (if j in jobs && jobs[j].Queued? then 1 else 0)
  {
    var others := QueuedJobs(jobs) - {j};
    assert QueuedJobs(jobs[j := ph]) == if ph.Queued? then others + {j} else others;
    assert QueuedJobs(jobs) == if j in jobs && jobs[j].Queued? then others + {j} else others;
  }

  predicate Holder(pc: PostPc) { pc.HandOver? || pc.Undo? }

  /** A poster that holds no job moves freely, and leaves. */
  lemma MovePoster(jobs: map<JobId, Phase>, n: nat, posters: map<Poster, PostPc>, loop: LoopPc, p: Poster, pc: PostPc)
    requires Accounts(jobs, n, posters, loop) && !Holder(pc) && (p in posters ==> !Holder(posters[p]))
    ensures Accounts(jobs, n, posters[p := pc], loop)
  {
    forall j | j in jobs && (jobs[j].Counted? || jobs[j].Refusing?) ensures jobs[j].holder != p {
    }
  }

  lemma DropPoster(jobs: map<JobId, Phase>, n: nat, posters: map<Poster, PostPc>, loop: LoopPc, p: Poster)
    requires Accounts(jobs, n, posters, loop) && p in posters && !Holder(posters[p])
    ensures Accounts(jobs, n, posters - {p}, loop)
  {
    forall j | j in jobs && (jobs[j].Counted? || jobs[j].Refusing?) ensures jobs[j].holder != p {
    }
  }

  /** Counting a job under the lock (1543). */
  lemma CountJob(jobs: map<JobId, Phase>, n: nat, posters: map<Poster, PostPc>, loop: LoopPc, p: Poster)
    requires Accounts(jobs, n, posters, loop) && p in posters && !Holder(posters[p])
    ensures var j := |jobs|; Accounts(jobs[j := Counted(p)], n + 1, posters[p := HandOver(j)], loop)
  {
    var j := |jobs|;
    Recount(jobs, j, Counted(p));
    assert j !in jobs;
    forall i | i in jobs && (jobs[i].Counted? || jobs[i].Refusing?) ensures jobs[i].holder != p {
    }
  }

  /** The engine's answer settles who holds the job from then on. */
  lemma SettleJob(jobs: map<JobId, Phase>, n: nat, posters: map<Poster, PostPc>, loop: LoopPc, p: Poster, ph: Phase)
    requires Accounts(jobs, n, posters, loop) && p in posters && posters[p].HandOver? && (ph.Queued? || ph.Leaked?)
    ensures Accounts(jobs[posters[p].j := ph], n, posters - {p}, loop)
  {
    Recount(jobs, posters[p].j, ph);
  }

  lemma RefuseJob(jobs: map<JobId, Phase>, n: nat, posters: map<Poster, PostPc>, loop: LoopPc, p: Poster)
    requires Accounts(jobs, n, posters, loop) && p in posters && posters[p].HandOver?
    ensures var j := posters[p].j; Accounts(jobs[j := Refusing(p)], n, posters[p := Undo(j)], loop)
  {
    Recount(jobs, posters[p].j, Refusing(p));
  }

  /** Taking the count of a refused job back (1565, 1265-1267). */
  lemma UndoJob(jobs: map<JobId, Phase>, n: nat, posters: map<Poster, PostPc>, loop: LoopPc, p: Poster)
    requires Accounts(jobs, n, posters, loop) && p in posters && posters[p].Undo?
    ensures n > 0 && Accounts(jobs[posters[p].j := Refused], n - 1, posters[p := UndoWake], loop)
  {
    assert posters[p].j in OpenJobs(jobs);
    Recount(jobs, posters[p].j, Refused);
  }

  /** The loop thread takes a queued job, and later closes its account. */
  lemma TakeJob(jobs: map<JobId, Phase>, n: nat, posters: map<Poster, PostPc>, loop: LoopPc, j: JobId)
    requires Accounts(jobs, n, posters, loop) && LoopJob(loop).None? && j in jobs && jobs[j].Queued?
    ensures Accounts(jobs[j := Running], n, posters, TestOpen(j))
  {
    Recount(jobs, j, Running);
  }

  lemma EndJob(jobs: map<JobId, Phase>, n: nat, posters: map<Poster, PostPc>, loop: LoopPc, ph: Phase)
    requires Accounts(jobs, n, posters, loop) && LoopJob(loop).Some? && (ph.Delivered? || ph.Discarded?)
    ensures n > 0 && Accounts(jobs[LoopJob(loop).value := ph], n - 1, posters, FinishWake)
  {
    assert LoopJob(loop).value in OpenJobs(jobs);
    Recount(jobs, LoopJob(loop).value, ph);
  }

  /** A job that is not delivered, before or after, is not in the log. */
  lemma MarkJob(jobs: map<JobId, Phase>, log: seq<JobId>, cbDepth: nat, loop: LoopPc, j: JobId, ph: Phase)
    requires History(jobs, log, cbDepth, loop)
    requires !ph.Delivered? && (j in jobs ==> !jobs[j].Delivered?)
    ensures History(jobs[j := ph], log, cbDepth, loop)
    ensures |QueuedJobs(jobs[j := ph])| ==
            |QueuedJobs(jobs)| + (if ph.Queued? then 1 else 0) - (if j in jobs && jobs[j].Queued? then 1 else 0)
    ensures j !in LeakedJobs(jobs) ==>
              LeakedJobs(jobs[j := ph]) == LeakedJobs(jobs) + if ph.Leaked? then {j} else {}
  {
    RecountQueued(jobs, j, ph);
    forall i ensures Began(jobs[j := ph], loop, i) <==> Began(jobs, loop, i) {
    }
  }

  lemma BeginKeeps(s: State, p: Poster)
    requires Inv(s) && PostEnabled(s, p, Begin)
    ensures Inv(ApplyPost(s, p, Begin)) && Descends(s, ApplyPost(s, p, Begin), true, false)
  {
    MovePoster(s.jobs, s.inFlight, s.posters, s.loop, p, WantMu);
  }

  lemma TakeMuKeeps(s: State, p: Poster, spawnOk: bool)
    requires Inv(s) && PostEnabled(s, p, TakeMu(spawnOk))
    ensures Inv(ApplyPost(s, p, TakeMu(spawnOk))) && Descends(s, ApplyPost(s, p, TakeMu(spawnOk)), false, false)
  {
    MovePoster(s.jobs, s.inFlight, s.posters, s.loop, p, ReadLoop);
    MovePoster(s.jobs, s.inFlight, s.posters, s.loop, p, AwaitReady);
    DropPoster(s.jobs, s.inFlight, s.posters, s.loop, p);
  }

  lemma GotReadyKeeps(s: State, p: Poster)
    requires Inv(s) && PostEnabled(s, p, GotReady)
    ensures Inv(ApplyPost(s, p, GotReady)) && Descends(s, ApplyPost(s, p, GotReady), false, false)
  {
    MovePoster(s.jobs, s.inFlight, s.posters, s.loop, p, ReadLoop);
    DropPoster(s.jobs, s.inFlight, s.posters, s.loop, p);
  }

  lemma SeeLoopKeeps(s: State, p: Poster)
    requires Inv(s) && PostEnabled(s, p, SeeLoop)
    ensures Inv(ApplyPost(s, p, SeeLoop)) && Descends(s, ApplyPost(s, p, SeeLoop), false, false)
  {
    MovePoster(s.jobs, s.inFlight, s.posters, s.loop, p, Gate);
    DropPoster(s.jobs, s.inFlight, s.posters, s.loop, p);
  }

  lemma PassGateKeeps(s: State, p: Poster)
    requires Inv(s) && PostEnabled(s, p, PassGate)
    ensures Inv(ApplyPost(s, p, PassGate)) && Descends(s, ApplyPost(s, p, PassGate), false, false)
  {
    DropPoster(s.jobs, s.inFlight, s.posters, s.loop, p);
    CountJob(s.jobs, s.inFlight, s.posters, s.loop, p);
    MarkJob(s.jobs, s.log, s.cbDepth, s.loop, |s.jobs|, Counted(p));
  }

  lemma HandAcceptedKeeps(s: State, p: Poster)
    requires Inv(s) && PostEnabled(s, p, Hand(Accept))
    ensures Inv(ApplyPost(s, p, Hand(Accept))) && Descends(s, ApplyPost(s, p, Hand(Accept)), false, false)
  {
    SettleJob(s.jobs, s.inFlight, s.posters, s.loop, p, Queued);
    MarkJob(s.jobs, s.log, s.cbDepth, s.loop, s.posters[p].j, Queued);
  }

  lemma HandThrownKeeps(s: State, p: Poster)
    requires Inv(s) && PostEnabled(s, p, Hand(Throw))
    ensures Inv(ApplyPost(s, p, Hand(Throw))) && Descends(s, ApplyPost(s, p, Hand(Throw)), false, true)
  {
    SettleJob(s.jobs, s.inFlight, s.posters, s.loop, p, Leaked);
    MarkJob(s.jobs, s.log, s.cbDepth, s.loop, s.posters[p].j, Leaked);
  }

  lemma HandRefusedKeeps(s: State, p: Poster)
    requires Inv(s) && PostEnabled(s, p, Hand(Refuse))
    ensures Inv(ApplyPost(s, p, Hand(Refuse))) && Descends(s, ApplyPost(s, p, Hand(Refuse)), false, false)
  {
    RefuseJob(s.jobs, s.inFlight, s.posters, s.loop, p);
    MarkJob(s.jobs, s.log, s.cbDepth, s.loop, s.posters[p].j, Refusing(p));
  }

  lemma UndoCountKeeps(s: State, p: Poster)
    requires Inv(s) && PostEnabled(s, p, UndoCount)
    ensures Inv(ApplyPost(s, p, UndoCount)) && Descends(s, ApplyPost(s, p, UndoCount), false, false)
  {
    UndoJob(s.jobs, s.inFlight, s.posters, s.loop, p);
    MarkJob(s.jobs, s.log, s.cbDepth, s.loop, s.posters[p].j, Refused);
    assert At(ApplyPost(s, p, UndoCount), p, UndoWake);
  }

  lemma UndoNotifyKeeps(s: State, p: Poster)
    requires Inv(s) && PostEnabled(s, p, UndoNotify)
    ensures Inv(ApplyPost(s, p, UndoNotify)) && Descends(s, ApplyPost(s, p, UndoNotify), false, false)
  {
    DropPoster(s.jobs, s.inFlight, s.posters, s.loop, p);
  }

  lemma BootKeeps(s: State, ok: bool)
    requires Inv(s) && LoopEnabled(s, Boot(ok))
    ensures Inv(ApplyLoop(s, Boot(ok))) && Descends(s, ApplyLoop(s, Boot(ok)), false, false)
  {
  }

  lemma ExitFailedKeeps(s: State)
    requires Inv(s) && LoopEnabled(s, ExitFailed)
    ensures Inv(ApplyLoop(s, ExitFailed)) && Descends(s, ApplyLoop(s, ExitFailed), false, false)
  {
  }

  lemma EnterRunKeeps(s: State)
    requires Inv(s) && LoopEnabled(s, EnterRun)
    ensures Inv(ApplyLoop(s, EnterRun)) && Descends(s, ApplyLoop(s, EnterRun), false, false)
  {
  }

  lemma DeliverKeeps(s: State, j: JobId)
    requires Inv(s) && LoopEnabled(s, Deliver(j))
    ensures Inv(ApplyLoop(s, Deliver(j))) && Descends(s, ApplyLoop(s, Deliver(j)), false, false)
  {
    TakeJob(s.jobs, s.inFlight, s.posters, s.loop, j);
    MarkJob(s.jobs, s.log, s.cbDepth, s.loop, j, Running);
  }

  lemma LookOpenKeeps(s: State)
    requires Inv(s) && LoopEnabled(s, LookOpen)
    ensures Inv(ApplyLoop(s, LookOpen)) && Descends(s, ApplyLoop(s, LookOpen), false, false)
  {
  }

  lemma StartCallbackKeeps(s: State)
    requires Inv(s) && LoopEnabled(s, StartCallback)
    ensures Inv(ApplyLoop(s, StartCallback)) && Descends(s, ApplyLoop(s, StartCallback), false, false)
  {
    var j := s.loop.j;
    assert !Began(s.jobs, s.loop, j);
    forall i ensures i in s.log + [j] <==> i in s.log || i == j {
    }
  }

  lemma LeaveCallbackKeeps(s: State)
    requires Inv(s) && LoopEnabled(s, LeaveCallback)
    ensures Inv(ApplyLoop(s, LeaveCallback)) && Descends(s, ApplyLoop(s, LeaveCallback), false, false)
  {
  }

  lemma CountDownKeeps(s: State)
    requires Inv(s) && LoopEnabled(s, CountDown)
    ensures Inv(ApplyLoop(s, CountDown)) && Descends(s, ApplyLoop(s, CountDown), false, false)
  {
    var ph := if s.loop.ran then Delivered else Discarded;
    EndJob(s.jobs, s.inFlight, s.posters, s.loop, ph);
    RecountQueued(s.jobs, s.loop.j, ph);
    assert LeakedJobs(s.jobs[s.loop.j := ph]) == LeakedJobs(s.jobs);
  }

  lemma NotifyDoneKeeps(s: State)
    requires Inv(s) && LoopEnabled(s, NotifyDone)
    ensures Inv(ApplyLoop(s, NotifyDone)) && Descends(s, ApplyLoop(s, NotifyDone), false, false)
  {
  }

  lemma HandleWakeKeeps(s: State)
    requires Inv(s) && LoopEnabled(s, HandleWake)
    ensures Inv(ApplyLoop(s, HandleWake)) && Descends(s, ApplyLoop(s, HandleWake), false, false)
  {
  }

  lemma ClearPointersKeeps(s: State)
    requires Inv(s) && LoopEnabled(s, ClearPointers)
    ensures Inv(ApplyLoop(s, ClearPointers)) && Descends(s, ApplyLoop(s, ClearPointers), false, false)
  {
  }

  lemma BeginFreeKeeps(s: State)
    requires Inv(s) && FreeEnabled(s, BeginFree)
    ensures Inv(ApplyFree(s, BeginFree)) && Descends(s, ApplyFree(s, BeginFree), false, false)
  {
  }

  lemma PassSelfCheckKeeps(s: State)
    requires Inv(s) && FreeEnabled(s, PassSelfCheck)
    ensures Inv(ApplyFree(s, PassSelfCheck)) && Descends(s, ApplyFree(s, PassSelfCheck), false, false)
  {
  }

  lemma CloseAndTestKeeps(s: State)
    requires Inv(s) && FreeEnabled(s, CloseAndTest)
    ensures Inv(ApplyFree(s, CloseAndTest)) && Descends(s, ApplyFree(s, CloseAndTest), false, false)
  {
  }

  lemma SpuriousKeeps(s: State)
    requires Inv(s) && FreeEnabled(s, Spurious)
    ensures Inv(ApplyFree(s, Spurious)) && Descends(s, ApplyFree(s, Spurious), true, false)
  {
  }

  lemma TestAgainKeeps(s: State)
    requires Inv(s) && FreeEnabled(s, TestAgain)
    ensures Inv(ApplyFree(s, TestAgain)) && Descends(s, ApplyFree(s, TestAgain), false, false)
  {
  }

  lemma DoUnbindKeeps(s: State)
    requires Inv(s) && FreeEnabled(s, DoUnbind)
    ensures Inv(ApplyFree(s, DoUnbind)) && Descends(s, ApplyFree(s, DoUnbind), false, false)
  {
  }

  lemma DoUnregisterKeeps(s: State)
    requires Inv(s) && FreeEnabled(s, DoUnregister)
    ensures Inv(ApplyFree(s, DoUnregister)) && Descends(s, ApplyFree(s, DoUnregister), false, false)
  {
  }

  lemma DoTakeThreadKeeps(s: State)
    requires Inv(s) && FreeEnabled(s, DoTakeThread)
    ensures Inv(ApplyFree(s, DoTakeThread)) && Descends(s, ApplyFree(s, DoTakeThread), false, false)
  {
  }

  lemma DoSetStoppingKeeps(s: State)
    requires Inv(s) && FreeEnabled(s, DoSetStopping)
    ensures Inv(ApplyFree(s, DoSetStopping)) && Descends(s, ApplyFree(s, DoSetStopping), false, false)
  {
  }

  lemma DoLoadWakeKeeps(s: State)
    requires Inv(s) && FreeEnabled(s, DoLoadWake)
    ensures Inv(ApplyFree(s, DoLoadWake)) && Descends(s, ApplyFree(s, DoLoadWake), false, false)
  {
  }

  lemma DoSendWakeKeeps(s: State)
    requires Inv(s) && FreeEnabled(s, DoSendWake)
    ensures Inv(ApplyFree(s, DoSendWake)) && Descends(s, ApplyFree(s, DoSendWake), false, false)
  {
  }

  lemma DoJoinKeeps(s: State)
    requires Inv(s) && FreeEnabled(s, DoJoin)
    ensures Inv(ApplyFree(s, DoJoin)) && Descends(s, ApplyFree(s, DoJoin), false, false)
  {
  }

  lemma DoResetFacadeKeeps(s: State)
    requires Inv(s) && FreeEnabled(s, DoResetFacade)
    ensures Inv(ApplyFree(s, DoResetFacade)) && Descends(s, ApplyFree(s, DoResetFacade), false, false)
  {
  }

  lemma DoDeleteHandleKeeps(s: State)
    requires Inv(s) && FreeEnabled(s, DoDeleteHandle)
    ensures Inv(ApplyFree(s, DoDeleteHandle)) && Descends(s, ApplyFree(s, DoDeleteHandle), false, false)
  {
  }

  lemma PostKeeps(s: State, p: Poster, a: PostStep)
    requires Inv(s) && PostEnabled(s, p, a)
    ensures Inv(ApplyPost(s, p, a)) && Descends(s, ApplyPost(s, p, a), a.Begin?, a == Hand(Throw))
  {
    hide *;
    match a {
      case Begin => BeginKeeps(s, p);
      case TakeMu(spawnOk) => TakeMuKeeps(s, p, spawnOk);
      case GotReady => GotReadyKeeps(s, p);
      case SeeLoop => SeeLoopKeeps(s, p);
      case PassGate => PassGateKeeps(s, p);
      case Hand(answer) =>
        match answer {
          case Accept => HandAcceptedKeeps(s, p);
          case Refuse => HandRefusedKeeps(s, p);
          case Throw => HandThrownKeeps(s, p);
        }
      case UndoCount => UndoCountKeeps(s, p);
      case UndoNotify => UndoNotifyKeeps(s, p);
    }
  }

  lemma LoopKeeps(s: State, a: LoopStep)
    requires Inv(s) && LoopEnabled(s, a)
    ensures Inv(ApplyLoop(s, a)) && Descends(s, ApplyLoop(s, a), false, false)
  {
    hide *;
    match a {
      case Boot(ok) => BootKeeps(s, ok);
      case ExitFailed => ExitFailedKeeps(s);
      case EnterRun => EnterRunKeeps(s);
      case Deliver(j) => DeliverKeeps(s, j);
      case LookOpen => LookOpenKeeps(s);
      case StartCallback => StartCallbackKeeps(s);
      case LeaveCallback => LeaveCallbackKeeps(s);
      case CountDown => CountDownKeeps(s);
      case NotifyDone => NotifyDoneKeeps(s);
      case HandleWake => HandleWakeKeeps(s);
      case ClearPointers => ClearPointersKeeps(s);
    }
  }

  lemma FreeKeeps(s: State, a: FreeStep)
    requires Inv(s) && FreeEnabled(s, a)
    ensures Inv(ApplyFree(s, a)) && Descends(s, ApplyFree(s, a), a.Spurious?, false)
  {
    hide *;
    match a {
      case BeginFree => BeginFreeKeeps(s);
      case PassSelfCheck => PassSelfCheckKeeps(s);
      case CloseAndTest => CloseAndTestKeeps(s);
      case Spurious => SpuriousKeeps(s);
      case TestAgain => TestAgainKeeps(s);
      case DoUnbind => DoUnbindKeeps(s);
      case DoUnregister => DoUnregisterKeeps(s);
      case DoTakeThread => DoTakeThreadKeeps(s);
      case DoSetStopping => DoSetStoppingKeeps(s);
      case DoLoadWake => DoLoadWakeKeeps(s);
      case DoSendWake => DoSendWakeKeeps(s);
      case DoJoin => DoJoinKeeps(s);
      case DoResetFacade => DoResetFacadeKeeps(s);
      case DoDeleteHandle => DoDeleteHandleKeeps(s);
    }
  }

  lemma StepKeepsInv(s: State, a: Action)
    requires Inv(s) && Enabled(s, a)
    ensures Inv(Apply(s, a)) && Descends(s, Apply(s, a), External(a), a.Posting? && a.post == Hand(Throw))
  {
    hide Inv, Descends, PostEnabled, LoopEnabled, FreeEnabled, ApplyPost, ApplyLoop, ApplyFree;
    match a {
      case Posting(p, x) => PostKeeps(s, p, x);
      case Looping(x) => LoopKeeps(s, x);
      case Freeing(x) => FreeKeeps(s, x);
    }
  }

  lemma {:induction false} RunKeepsInv(s: State, run: seq<Action>)
    requires Inv(s) && Runs(s, run)
    ensures Inv(After(s, run))
    decreases run
  {
    if run != [] {
      StepKeepsInv(s, run[0]);
      RunKeepsInv(Apply(s, run[0]), run[1..]);
    }
  }

  lemma InitialInv()
    ensures Inv(INITIAL)
  {
  }

  /** Every state that some interleaving of the threads can reach. */
  ghost predicate Reachable(s: State) {
    exists run :: Runs(INITIAL, run) && After(INITIAL, run) == s
  }

  lemma ReachableInv(s: State)
    requires Reachable(s)
    ensures Inv(s)
  {
    hide Inv, Apply, Enabled;
    var run :| Runs(INITIAL, run) && After(INITIAL, run) == s;
    InitialInv();
    RunKeepsInv(INITIAL, run);
  }

  // -------------------------------------------------------- safety theorems

  ghost function EndedJobs(jobs: map<JobId, Phase>): set<JobId> {
    set j | j in jobs && !jobs[j].Open()
  }

  /** `in_flight` is the number of posts counted minus the number finished,
      the callback depth never exceeds it, and the guard `> 0` in `finish_one`
      is true at both places where it is evaluated. */
  lemma InFlightIsExact(s: State)
    requires Reachable(s)
    ensures s.inFlight == |s.jobs| - |EndedJobs(s.jobs)|
    ensures s.cbDepth <= s.inFlight
    ensures s.loop.FinishCount? ==> s.inFlight > 0
    ensures forall p :: p in s.posters && s.posters[p].Undo? ==> s.inFlight > 0
  {
    ReachableInv(s);
    assert s.jobs.Keys == OpenJobs(s.jobs) + EndedJobs(s.jobs);
    assert OpenJobs(s.jobs) * EndedJobs(s.jobs) == {};
    if LoopJob(s.loop).Some? {
      assert LoopJob(s.loop).value in OpenJobs(s.jobs);
    }
    forall p | p in s.posters && s.posters[p].Undo? ensures s.inFlight > 0 {
      assert s.posters[p].j in OpenJobs(s.jobs);
    }
  }

  /** No job's callback begins twice, and it begins exactly for the jobs that
      count as delivered (or are being delivered). */
  lemma DeliveredExactlyOnce(s: State, j: JobId)
    requires Reachable(s)
    ensures NoDup(s.log)
    ensures j in s.jobs && !s.jobs[j].Open() ==> (j in s.log <==> s.jobs[j].Delivered?)
    ensures j in s.jobs && (s.jobs[j].Queued? || s.jobs[j].Counted? || s.jobs[j].Refusing? || s.jobs[j].Leaked?) ==> j !in s.log
    ensures j !in s.jobs ==> j !in s.log
  {
    ReachableInv(s);
    if LoopJob(s.loop).Some? {
      assert s.jobs[LoopJob(s.loop).value].Running?;
    }
  }

  /** Over every run a settled job stays as it is: delivered, discarded or refused
      once is for ever. */
  lemma {:induction false} SettledIsFinal(s: State, run: seq<Action>, j: JobId)
    requires Inv(s) && Runs(s, run) && j in s.jobs && !s.jobs[j].Open()
    ensures j in After(s, run).jobs && After(s, run).jobs[j] == s.jobs[j]
    decreases run
  {
    hide Inv, Enabled, Apply;
    if run != [] {
      StepKeepsInv(s, run[0]);
      SettledIsFinal(Apply(s, run[0]), run[1..], j);
    }
  }

  /** When free has returned, no callback is running, every counted job was
      delivered, discarded or refused, and the loop thread is gone. */
  lemma FreeLeavesNothing(s: State)
    requires Reachable(s) && s.free.Returned?
    ensures !s.loop.InCallback? && s.cbDepth == 0
    ensures s.loop.Unborn? || s.loop.Exited?
    ensures s.posters == map[] && OpenJobs(s.jobs) == {}
    ensures forall j :: j in s.jobs ==> (s.jobs[j].Delivered? || s.jobs[j].Discarded? || s.jobs[j].Refused?)
    ensures forall j :: j in s.log <==> j in s.jobs && s.jobs[j].Delivered?
  {
    ReachableInv(s);
    assert OpenJobs(s.jobs) == {};
    forall j | j in s.jobs ensures !s.jobs[j].Open() {
      assert j !in OpenJobs(s.jobs);
    }
    assert Inner !in s.posters;
  }

  /** ... and whatever is called afterwards, no callback ever begins: late
      posts are turned away without a byte of the handle being read. */
  lemma {:induction false} NothingAfterFree(s: State, more: seq<Action>)
    requires Reachable(s) && s.free.Returned? && Runs(s, more)
    ensures After(s, more) == s
    decreases more
  {
    if more != [] {
      ReachableInv(s);
      FreeLeavesNothing(s);
      assert Apply(s, more[0]) == s;
      NothingAfterFree(s, more[1..]);
    }
  }

  /** The facade is destroyed only after the loop thread was joined (or was
      never born), when no job is left that could use it. */
  lemma FacadeOutlivesTheLoop(s: State)
    requires Reachable(s) && !s.facade
    ensures s.loop.Unborn? || s.loop.Exited?
    ensures OpenJobs(s.jobs) == {}
  {
    ReachableInv(s);
  }

  /** The steps that read or write the handle's memory. */
  predicate TouchesHandle(a: Action) {
    match a
    case Posting(_, x) => x.TakeMu? || x.GotReady? || x.SeeLoop? || x.PassGate? || x.Hand?
    case Looping(x) => x.Boot? || x.HandleWake? || x.ClearPointers?
    case Freeing(x) => !x.Spurious? && !x.TestAgain?
  }

  /** The steps that run inside the C++ facade or pool, or use the owner. */
  predicate TouchesFacade(a: Action) {
    match a
    case Posting(_, x) => x.Hand?
    case Looping(x) => x.Deliver? || x.LookOpen? || x.StartCallback? || x.LeaveCallback? || x.CountDown?
    case Freeing(_) => false
  }

  /** Whoever holds a job is counted. */
  lemma HolderIsCounted(jobs: map<JobId, Phase>, n: nat, posters: map<Poster, PostPc>, loop: LoopPc)
    requires Accounts(jobs, n, posters, loop)
    ensures LoopJob(loop).Some? ==> n > 0
    ensures forall p :: p in posters && Holder(posters[p]) ==> n > 0
    ensures forall j :: j in jobs && jobs[j].Open() ==> n > 0
  {
    if j :| j in jobs && jobs[j].Open() {
      assert j in OpenJobs(jobs);
    }
    forall p | p in posters && Holder(posters[p]) ensures n > 0 {
      assert posters[p].j in OpenJobs(jobs);
    }
  }

  /** No step touches the facade or the owner after its end ... */
  lemma NoFacadeUseAfterFree(s: State, a: Action)
    requires Reachable(s) && Enabled(s, a) && TouchesFacade(a)
    ensures s.facade && s.bound
  {
    ReachableInv(s);
    HolderIsCounted(s.jobs, s.inFlight, s.posters, s.loop);
  }

  /** ... nor the handle, and the one wake-up is sent once, while the wake
      handle still exists. */
  lemma NoHandleUseAfterFree(s: State, a: Action)
    requires Reachable(s) && Enabled(s, a)
    ensures TouchesHandle(a) ==> s.handle
    ensures a == Freeing(DoSendWake) ==> s.wakePtr && !s.wakePending
  {
    ReachableInv(s);
    hide Accounts, History, Reachable;
  }

  /** A post from inside a callback meets a registered handle at every step; it
      is counted before closing, or turned away leaving all else as it was. */
  lemma PostInsideCallback(s: State)
    requires Reachable(s) && s.loop.InCallback?
    ensures s.registered && s.handle && s.facade && s.bound && s.inFlight > 0
    ensures At(s, Inner, Gate) ==>
              var t := Apply(s, Posting(Inner, PassGate));
              if s.closed then t == s.(posters := s.posters - {Inner})
              else t.inFlight == s.inFlight + 1 && At(t, Inner, HandOver(|s.jobs|))
  {
    ReachableInv(s);
    HolderIsCounted(s.jobs, s.inFlight, s.posters, s.loop);
  }

  /** The self-check at 1486: is the call turned away with E_STATE? */
  predicate SelfCheckRejects(s: State, onLoopThread: bool) {
    s.cbDepth > 0 && s.loopStarted && onLoopThread
  }

  /** A free from inside a callback is always turned away, any other never. */
  lemma FreeFromCallbackRejected(s: State)
    requires Reachable(s)
    ensures s.loop.InCallback? <==> SelfCheckRejects(s, true)
    ensures !SelfCheckRejects(s, false)
  {
    ReachableInv(s);
  }

  // ------------------------------------------------------ liveness theorems

  function Externals(run: seq<Action>): nat {
    if run == [] then 0 else (if External(run[0]) then 1 else 0) + Externals(run[1..])
  }

  /** Termination: once closed, a run contains only as many steps as the
      measure and the environment's choices allow. */
  lemma {:induction false} FreeTerminates(s: State, run: seq<Action>)
    requires Inv(s) && s.closed && Runs(s, run)
    ensures |run| <= Measure(s) + 4 * Externals(run)
    decreases run
  {
    hide Inv, Enabled, Apply, Measure;
    if run != [] {
      StepKeepsInv(s, run[0]);
      FreeTerminates(Apply(s, run[0]), run[1..]);
    }
  }

  /** Steps of the protocol with a well-behaved engine: it does not throw. */
  predicate Orderly(a: Action) { !External(a) && !(a.Posting? && a.post == Hand(Throw)) }

  /** The loop thread can always take a step while it has work or a wake-up. */
  lemma LoopMoves(s: State) returns (a: LoopStep)
    requires LoopJob(s.loop).Some? || s.loop.FinishWake? || s.loop.PreRun? || s.loop.BootFailed? || s.loop.Cleanup?
    requires Inner !in s.posters
    ensures LoopEnabled(s, a)
  {
    match s.loop {
      case PreRun => a := EnterRun;
      case BootFailed => a := ExitFailed;
      case TestOpen(_) => a := LookOpen;
      case EnterCallback(_) => a := StartCallback;
      case InCallback(_) => a := LeaveCallback;
      case FinishCount(_, _) => a := CountDown;
      case FinishWake => a := NotifyDone;
      case Cleanup => a := ClearPointers;
    }
  }

  /** So can a post that is under way inside a callback. */
  lemma InnerMoves(s: State) returns (a: PostStep)
    requires Inv(s) && Inner in s.posters
    ensures PostEnabled(s, Inner, a) && !a.Begin? && a != Hand(Throw)
  {
    match s.posters[Inner] {
      case WantMu => a := TakeMu(true);
      case AwaitReady => assert false;
      case ReadLoop => a := SeeLoop;
      case Gate => a := PassGate;
      case HandOver(_) => a := Hand(Accept);
      case Undo(_) => a := UndoCount;
      case UndoWake => a := UndoNotify;
    }
  }

  lemma HolderPosts(jobs: map<JobId, Phase>, n: nat, posters: map<Poster, PostPc>, loop: LoopPc, j: JobId)
    requires Accounts(jobs, n, posters, loop) && j in jobs
    ensures jobs[j].Counted? || jobs[j].Refusing? ==> jobs[j].holder in posters
  {
  }

  /** The freeing call sleeps only while another thread can take a step. */
  lemma SleepMoves(s: State) returns (a: Action)
    requires Inv(s) && LeakedJobs(s.jobs) == {} && s.free.Asleep?
    ensures Enabled(s, a) && Orderly(a)
  {
    if Inner in s.posters {
      var x := InnerMoves(s);
      a := Posting(Inner, x);
    } else if LoopJob(s.loop).Some? || s.loop.FinishWake? || s.loop.PreRun? {
      var x := LoopMoves(s);
      a := Looping(x);
    } else {
      var j :| j in OpenJobs(s.jobs);
      assert j !in LeakedJobs(s.jobs);
      HolderPosts(s.jobs, s.inFlight, s.posters, s.loop, j);
      a := Looping(Deliver(j));
    }
  }

  /** The join waits only while the loop thread can take a step. */
  lemma JoinMoves(s: State) returns (a: Action)
    requires Inv(s) && s.free.Join?
    ensures Enabled(s, a) && Orderly(a)
  {
    HolderIsCounted(s.jobs, s.inFlight, s.posters, s.loop);
    match s.loop {
      case Exited => a := Freeing(DoJoin);
      case Idle => a := Looping(HandleWake);
      case _ =>
        var x := LoopMoves(s);
        a := Looping(x);
    }
  }

  /** No deadlock: while free has not returned, and no counted post was lost to
      an exception, some thread can take a step of the protocol. */
  lemma NoDeadlock(s: State) returns (a: Action)
    requires Inv(s) && LeakedJobs(s.jobs) == {} && !s.free.NotCalled? && !s.free.Returned?
    ensures Enabled(s, a) && Orderly(a)
    ensures !s.closed ==> Rank(s.free) < Rank(Apply(s, a).free)
  {
    match s.free {
      case CheckSelf => a := Freeing(PassSelfCheck);
      case Closing => a := Freeing(CloseAndTest);
      case Asleep => a := SleepMoves(s);
      case Recheck => a := Freeing(TestAgain);
      case Unbind => a := Freeing(DoUnbind);
      case Unregister => a := Freeing(DoUnregister);
      case TakeThread => a := Freeing(DoTakeThread);
      case SetStopping => a := Freeing(DoSetStopping);
      case LoadWake => a := Freeing(DoLoadWake);
      case SendWake => a := Freeing(DoSendWake);
      case Join => a := JoinMoves(s);
      case ResetFacade => a := Freeing(DoResetFacade);
      case DeleteHandle => a := Freeing(DoDeleteHandle);
    }
  }

  /** From there on the call does return. */
  lemma {:induction false} FreeReturns(s: State) returns (run: seq<Action>)
    requires Inv(s) && LeakedJobs(s.jobs) == {} && !s.free.NotCalled?
    ensures Runs(s, run) && After(s, run).free.Returned?
    ensures forall a :: a in run ==> Orderly(a)
    decreases if s.closed then 0 else 3 - Rank(s.free), Measure(s)
  {
    hide Accounts, History, Queueing, StartUp, Stop, SleepJustified, Measure, LeakedJobs,
         PostEnabled, LoopEnabled, FreeEnabled, ApplyPost, ApplyLoop, ApplyFree;
    if s.free.Returned? {
      run := [];
    } else {
      var a := NoDeadlock(s);
      StepKeepsInv(s, a);
      var rest := FreeReturns(Apply(s, a));
      run := [a] + rest;
      assert run[1..] == rest;
    }
  }

  /** A leaked job keeps its count for ever, so a free that has not passed the
      wait never does. */
  lemma {:induction false} LeakBlocksFree(s: State, run: seq<Action>)
    requires Inv(s) && LeakedJobs(s.jobs) != {} && Runs(s, run)
    ensures Rank(After(s, run).free) <= 3
    decreases run
  {
    if run == [] {
      HolderIsCounted(s.jobs, s.inFlight, s.posters, s.loop);
      var j :| j in LeakedJobs(s.jobs);
      assert s.jobs[j].Open();
    } else {
      hide Inv, Enabled, Apply;
      StepKeepsInv(s, run[0]);
      LeakBlocksFree(Apply(s, run[0]), run[1..]);
    }
  }

  ghost predicate CanReturn(s: State) {
    exists run :: Runs(s, run) && After(s, run).free.Returned?
  }

  /** Exactly when the free of a reachable facade can return: when no post was
      lost between being counted (1543) and being handed to the engine, that is
      when no engine call threw. */
  lemma FreeReturnsIffNothingLeaked(s: State)
    requires Reachable(s) && !s.free.NotCalled?
    ensures CanReturn(s) <==> LeakedJobs(s.jobs) == {}
  {
    ReachableInv(s);
    hide Inv;
    if LeakedJobs(s.jobs) == {} {
      var run := FreeReturns(s);
    } else {
      forall run | Runs(s, run) ensures !After(s, run).free.Returned? {
        LeakBlocksFree(s, run);
      }
    }
  }

  lemma {:induction false} Compose(s: State, first: seq<Action>, second: seq<Action>)
    requires Runs(s, first) && Runs(After(s, first), second)
    ensures Runs(s, first + second) && After(s, first + second) == After(After(s, first), second)
    decreases first
  {
    if first == [] {
      assert first + second == second;
    } else {
      assert (first + second)[1..] == first[1..] + second;
      Compose(Apply(s, first[0]), first[1..], second);
    }
  }

  lemma Steps3(s: State, a: Action, b: Action, c: Action)
    requires Enabled(s, a) && Enabled(Apply(s, a), b) && Enabled(Apply(Apply(s, a), b), c)
    ensures Runs(s, [a, b, c]) && After(s, [a, b, c]) == Apply(Apply(Apply(s, a), b), c)
  {
    hide Enabled, Apply;
    var t := Apply(Apply(s, a), b);
    assert Runs(t, [c]) && After(t, [c]) == Apply(t, c);
    assert [b, c][1..] == [c] && [a, b, c][1..] == [b, c];
    assert Runs(Apply(s, a), [b, c]);
  }

  lemma Steps4(s: State, a: Action, b: Action, c: Action, d: Action)
    requires Enabled(s, a) && Enabled(Apply(s, a), b) && Enabled(Apply(Apply(s, a), b), c)
    requires Enabled(Apply(Apply(Apply(s, a), b), c), d)
    ensures Runs(s, [a, b, c, d]) && After(s, [a, b, c, d]) == Apply(Apply(Apply(Apply(s, a), b), c), d)
  {
    hide Enabled, Apply;
    Steps3(Apply(s, a), b, c, d);
    assert [a, b, c, d][1..] == [b, c, d];
  }

  /** The first post has brought the loop up and is about to read `loop_`. */
  const UP := INITIAL.(loopStarted := true, started := true, startOk := true, joinable := true, ready := Some(true),
                       loopPtr := true, wakePtr := true, loop := PreRun, posters := map[Outside(0) := ReadLoop])

  lemma UpIsReachable()
    ensures Reachable(UP)
  {
    var p := Outside(0);
    var run := [Posting(p, Begin), Posting(p, TakeMu(true)), Looping(Boot(true)), Posting(p, GotReady)];
    Steps4(INITIAL, run[0], run[1], run[2], run[3]);
    assert After(INITIAL, run) == UP;
  }

  /** Such a loss is possible: its engine call throws ... */
  const LOST := UP.(inFlight := 1, posters := map[], jobs := map[0 := Leaked])

  lemma LostFromUp()
    ensures var run := [Posting(Outside(0), SeeLoop), Posting(Outside(0), PassGate), Posting(Outside(0), Hand(Throw))];
            Runs(UP, run) && After(UP, run) == LOST
  {
    var a, b, c := Posting(Outside(0), SeeLoop), Posting(Outside(0), PassGate), Posting(Outside(0), Hand(Throw));
    Steps3(UP, a, b, c);
  }

  lemma LostIsReachable()
    ensures Reachable(LOST)
  {
    hide Runs, After;
    UpIsReachable();
    LostFromUp();
    var start :| Runs(INITIAL, start) && After(INITIAL, start) == UP;
    Compose(INITIAL, start, [Posting(Outside(0), SeeLoop), Posting(Outside(0), PassGate), Posting(Outside(0), Hand(Throw))]);
  }

  /** ... and a free that follows it sleeps for ever, with nobody else about. */
  lemma ThrowBlocksFree()
    ensures exists s :: Reachable(s) && s.free.Asleep? && s.posters == map[] && !CanReturn(s)
  {
    LostIsReachable();
    var run :| Runs(INITIAL, run) && After(INITIAL, run) == LOST;
    var free := [Freeing(BeginFree), Freeing(PassSelfCheck), Freeing(CloseAndTest)];
    Steps3(LOST, free[0], free[1], free[2]);
    Compose(INITIAL, run, free);
    var s := After(LOST, free);
    assert Reachable(s);
    assert 0 in LeakedJobs(s.jobs);
    FreeReturnsIffNothingLeaked(s);
  }
}
