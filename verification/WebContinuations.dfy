/** Continuations of route callbacks in src/capi/uvcpp_c_webapp.cpp: handles that
    live on the stack for one callback, and deferred replies that outlive it.  User
    code and the rest of a request's chain are trees of acts, as in TcpReaper, so
    that callbacks nest in every way.  A continuation is known by a number. */
module WebContinuations {
  import opened Base

  /** What is stored at a handle's address.  A callback's frame and a deferred
      reply each come with a request and a response handle of their own. */
  datatype Cell =
    | Req(owner: Addr)
    | Resp(owner: Addr)
    | Next(k: nat, used: bool, req: Addr, resp: Addr)
    | Deferred(k: nat, resumed: bool, req: Addr, resp: Addr)

  datatype Place = Place(owner: Addr, req: Addr, resp: Addr)

  datatype Act =
    | Route(place: Place, code: seq<Act>)         // a request reaches a route
    | RunNext(h: Addr, chain: seq<Act>)           // uvcpp_c_next_run
    | DeferNext(h: Addr, room: Option<Place>)     // uvcpp_c_defer
    | Resume(d: Addr, chain: seq<Act>)            // uvcpp_c_deferred_resume
    | FreeDeferred(d: Addr)                       // uvcpp_c_deferred_free

  datatype State = State(
    memory: map<Addr, Cell>, registry: set<Addr>, cbDepth: nat,
    // history: frames on the callback stack, continuations made, those invoked
    frames: seq<Addr>, made: nat, calls: seq<nat>)

  const FRESH := State(map[], {}, 0, [], 0, [])

  predicate IsNext(s: State, h: Addr) { h in s.registry && h in s.memory && s.memory[h].Next? }
  predicate IsDeferred(s: State, d: Addr) { d in s.registry && d in s.memory && s.memory[d].Deferred? }

  /** Room for three handles, on the stack or on the heap. */
  predicate Fits(s: State, p: Place) {
    && p.owner !in s.memory && p.req !in s.memory && p.resp !in s.memory
    && p.owner != p.req && p.owner != p.resp && p.req != p.resp
  }

  function With(m: map<Addr, Cell>, p: Place, cell: Cell): map<Addr, Cell> {
    m[p.owner := cell][p.req := Req(p.owner)][p.resp := Resp(p.owner)]
  }

  function Store(s: State, p: Place, cell: Cell): State {
    s.(memory := With(s.memory, p, cell),
       registry := s.registry + {p.owner, p.req, p.resp})
  }

  function Erase(s: State, owner: Addr): State {
    if owner !in s.memory || s.memory[owner].Req? || s.memory[owner].Resp? then s
    else
      var gone := {owner, s.memory[owner].req, s.memory[owner].resp};
      s.(memory := s.memory - gone, registry := s.registry - gone)
  }

  /** route_trampoline up to the user's callback (310-333). */
  function Enter(s: State, p: Place): State {
    Store(s, p, Next(s.made, false, p.req, p.resp)).(
      cbDepth := s.cbDepth + 1, frames := s.frames + [p.owner], made := s.made + 1)
  }

  /** And after it: the depth, then the three handles (334-335). */
  function Leave(s: State, n: Addr): State {
    if s.cbDepth == 0 || s.frames == [] then s
    else Erase(s.(cbDepth := s.cbDepth - 1, frames := s.frames[..|s.frames| - 1]), n)
  }

  /** The continuation is invoked: the rest of the chain runs. */
  function Invoke(s: State, k: nat): State {
    s.(calls := s.calls + [k])
  }

  /** uvcpp_c_next_run (1615-1625), before the chain goes on. */
  function UseNext(s: State, h: Addr): (State, Code) {
    if !IsNext(s, h) then (s, Stale)
    else if s.memory[h].used then (s, WrongState)
    else (Invoke(s.(memory := s.memory[h := s.memory[h].(used := true)]), s.memory[h].k), Ok)
  }

  /** uvcpp_c_defer (1631-1667); the continuation is spent even without room. */
  function Defer(s: State, h: Addr, room: Option<Place>): (State, Option<Addr>) {
    if !IsNext(s, h) || s.memory[h].used then (s, None)
    else
      var t := s.(memory := s.memory[h := s.memory[h].(used := true)]);
      if room.None? then (t, None)
      else (Store(t, room.value, Deferred(s.memory[h].k, false, room.value.req, room.value.resp)), Some(room.value.owner))
  }

  /** uvcpp_c_deferred_resume (1711-1724), before the chain goes on. */
  function UseDeferred(s: State, d: Addr): (State, Code) {
    if !IsDeferred(s, d) then (s, Stale)
    else if s.memory[d].resumed then (s, WrongState)
    else (Invoke(s.(memory := s.memory[d := s.memory[d].(resumed := true)]), s.memory[d].k), Ok)
  }

  /** uvcpp_c_deferred_free (1726-1738). */
  function Free(s: State, d: Addr): (State, Code) {
    if !IsDeferred(s, d) then (s, Stale) else (Erase(s, d), Ok)
  }

  function Perform(s: State, a: Act): State
    decreases a, 0
  {
    match a
    case Route(p, code) => if !Fits(s, p) then s else Leave(RunAll(Enter(s, p), code), p.owner)
    case RunNext(h, chain) => if UseNext(s, h).1 == Ok then RunAll(UseNext(s, h).0, chain) else s
    case DeferNext(h, room) => if room.Some? && !Fits(s, room.value) then s else Defer(s, h, room).0
    case Resume(d, chain) => if UseDeferred(s, d).1 == Ok then RunAll(UseDeferred(s, d).0, chain) else s
    case FreeDeferred(d) => Free(s, d).0
  }

  function RunAll(s: State, acts: seq<Act>): State
    decreases acts, 0
  {
    if acts == [] then s else RunAll(Perform(s, acts[0]), acts[1..])
  }

  // ----------------------------------------------------------------- invariants

  ghost predicate Owner(m: map<Addr, Cell>, h: Addr) {
    h in m && (m[h].Next? || m[h].Deferred?)
  }

  /** Every frame and every deferred reply has its two handles, and no others
      exist. */
  ghost predicate Owned(m: map<Addr, Cell>) {
    && (forall h :: Owner(m, h) ==> m[h].req in m && m[m[h].req] == Req(h) && m[h].resp in m && m[m[h].resp] == Resp(h))
    && (forall a :: a in m && m[a].Req? ==> Owner(m, m[a].owner) && m[m[a].owner].req == a)
    && (forall a :: a in m && m[a].Resp? ==> Owner(m, m[a].owner) && m[m[a].owner].resp == a)
  }

  /** The frames' handles are exactly those of the callbacks in progress. */
  ghost predicate Framed(m: map<Addr, Cell>, frames: seq<Addr>) {
    && NoDup(frames)
    && (forall n :: n in frames <==> n in m && m[n].Next?)
  }

  /** Who may still invoke a continuation. */
  ghost predicate Holds(m: map<Addr, Cell>, h: Addr) {
    h in m && ((m[h].Next? && !m[h].used) || (m[h].Deferred? && !m[h].resumed))
  }

  /** A continuation has one holder or none; once invoked, none. */
  ghost predicate Once(m: map<Addr, Cell>, made: nat, calls: seq<nat>) {
    && NoDup(calls)
    && (forall k :: k in calls ==> k < made)
    && (forall h :: Holds(m, h) ==> m[h].k < made && m[h].k !in calls)
    && (forall g, h :: Holds(m, g) && Holds(m, h) && m[g].k == m[h].k ==> g == h)
  }

  ghost predicate Valid(s: State) {
    && s.registry == s.memory.Keys
    && s.cbDepth == |s.frames|
    && Owned(s.memory) && Framed(s.memory, s.frames) && Once(s.memory, s.made, s.calls)
  }

  /** What nested code leaves alone: the frames below it, and the past. */
  ghost predicate Kept(s: State, t: State) {
    && t.frames == s.frames && t.cbDepth == s.cbDepth
    && s.made <= t.made && s.calls <= t.calls
    && (forall n :: n in s.frames && n in s.memory && s.memory[n].Next? ==>
          n in t.memory && t.memory[n].Next? && t.memory[n] == s.memory[n].(used := t.memory[n].used)
          && (s.memory[n].used ==> t.memory[n].used))
  }

  lemma KeptTrans(s: State, t: State, u: State)
    requires Kept(s, t) && Kept(t, u)
    ensures Kept(s, u)
  {
  }

  lemma KeptRefl(s: State)
    ensures Kept(s, s)
  {
  }

  // ------------------------------------------------ what each operation keeps, by part

  ghost predicate Room(m: map<Addr, Cell>, p: Place) {
    && p.owner !in m && p.req !in m && p.resp !in m
    && p.owner != p.req && p.owner != p.resp && p.req != p.resp
  }

  lemma StoreOwned(m: map<Addr, Cell>, p: Place, cell: Cell)
    requires Owned(m) && Room(m, p) && (cell.Next? || cell.Deferred?) && cell.req == p.req && cell.resp == p.resp
    ensures Owned(With(m, p, cell))
    ensures With(m, p, cell).Keys == m.Keys + {p.owner, p.req, p.resp}
  {
    var n := With(m, p, cell);
    forall h ensures Owner(n, h) <==> Owner(m, h) || h == p.owner { }
    forall h | Owner(m, h) ensures m[h].req != p.owner && m[h].resp != p.owner && n[h] == m[h] { }
    forall a | a in n && n[a].Req? && a != p.req ensures a in m && m[a] == n[a] { }
    forall a | a in n && n[a].Resp? && a != p.resp ensures a in m && m[a] == n[a] { }
    hide Owner;
  }

  lemma EraseOwned(m: map<Addr, Cell>, h: Addr)
    requires Owned(m) && Owner(m, h)
    ensures var n := m - {h, m[h].req, m[h].resp};
            && Owned(n)
            && (forall a :: Owner(m, a) && a != h ==> a in n && m[a].req in n && m[a].resp in n)
  {
    var n := m - {h, m[h].req, m[h].resp};
    forall a | Owner(m, a) && a != h ensures a in n && m[a].req in n && m[a].resp in n {
      assert m[m[a].req] == Req(a) && m[m[h].req] == Req(h);
    }
  }

  lemma UseOwned(m: map<Addr, Cell>, h: Addr, cell: Cell)
    requires Owned(m) && Owner(m, h) && (m[h].Next? ==> cell.Next?) && (m[h].Deferred? ==> cell.Deferred?)
    requires cell.req == m[h].req && cell.resp == m[h].resp
    ensures Owned(m[h := cell]) && m[h := cell].Keys == m.Keys
  {
    forall a ensures Owner(m[h := cell], a) <==> Owner(m, a) { }
  }

  /** A new holder, for a continuation that has none. */
  lemma StoreOnce(m: map<Addr, Cell>, made: nat, calls: seq<nat>, p: Place, cell: Cell, made2: nat)
    requires Once(m, made, calls) && Room(m, p) && made <= made2
    requires (cell.Next? || cell.Deferred?) && cell.k < made2 && cell.k !in calls
    requires forall h :: Holds(m, h) ==> m[h].k != cell.k
    ensures Once(With(m, p, cell), made2, calls)
  {
    var n := With(m, p, cell);
    forall h | Holds(n, h) ensures h == p.owner || (Holds(m, h) && n[h] == m[h]) { }
  }

  lemma SpendOnce(m: map<Addr, Cell>, made: nat, calls: seq<nat>, h: Addr, cell: Cell)
    requires (cell.Next? && cell.used) || (cell.Deferred? && cell.resumed)
    requires Once(m, made, calls) && Holds(m, h) && cell.k == m[h].k
    ensures Once(m[h := cell], made, calls) && Once(m[h := cell], made, calls + [cell.k])
    ensures var n := m[h := cell]; forall g {:trigger Holds(n, g)} :: Holds(n, g) ==> n[g].k != cell.k
  {
    var n := m[h := cell];
    forall g | Holds(n, g) ensures g != h && Holds(m, g) && n[g] == m[g] && n[g].k != cell.k { }
    forall k | k in calls + [cell.k] ensures k in calls || k == cell.k { }
  }

  lemma FewerOnce(m: map<Addr, Cell>, n: map<Addr, Cell>, made: nat, calls: seq<nat>)
    requires Once(m, made, calls) && forall a :: a in n ==> a in m && n[a] == m[a]
    ensures Once(n, made, calls)
  {
    forall h | Holds(n, h) ensures Holds(m, h) { }
  }

  lemma FreshIsFree(m: map<Addr, Cell>, made: nat, calls: seq<nat>)
    requires Once(m, made, calls)
    ensures made !in calls && forall h :: Holds(m, h) ==> m[h].k != made
  {
  }

  // ------------------------------------------------------------------ operations

  lemma EnterValid(s: State, p: Place)
    requires Valid(s) && Fits(s, p)
    ensures Valid(Enter(s, p)) && IsNext(Enter(s, p), p.owner)
  {
    var cell := Next(s.made, false, p.req, p.resp);
    FreshIsFree(s.memory, s.made, s.calls);
    StoreOwned(s.memory, p, cell);
    StoreOnce(s.memory, s.made, s.calls, p, cell, s.made + 1);
    EnterFramed(s.memory, s.frames, p, cell);
    hide Owned, Framed, Once;
  }

  lemma EnterFramed(m: map<Addr, Cell>, frames: seq<Addr>, p: Place, cell: Cell)
    requires Framed(m, frames) && Room(m, p) && cell.Next?
    ensures Framed(With(m, p, cell), frames + [p.owner])
  {
    forall n ensures n in frames + [p.owner] <==> n in frames || n == p.owner { }
  }

  lemma AsideFramed(m: map<Addr, Cell>, frames: seq<Addr>, p: Place, cell: Cell)
    requires Framed(m, frames) && Room(m, p) && !cell.Next?
    ensures Framed(With(m, p, cell), frames)
  {
  }

  lemma LeaveFramed(m: map<Addr, Cell>, frames: seq<Addr>)
    requires Framed(m, frames) && Owned(m) && frames != []
    ensures var h := frames[|frames| - 1];
            Owner(m, h) && m[h].Next? && Framed(m - {h, m[h].req, m[h].resp}, frames[..|frames| - 1])
  {
    var h := frames[|frames| - 1];
    var below := frames[..|frames| - 1];
    assert h in frames && frames == below + [h];
    assert h !in below;
    assert Owner(m, h);
    forall n ensures n in below <==> n in frames && n != h { }
  }

  /** Leaving a callback poisons its three handles and nothing else: a deferred
      reply keeps its own. */
  lemma LeaveValid(s: State, n: Addr)
    requires Valid(s) && s.frames != [] && s.frames[|s.frames| - 1] == n
    ensures var t := Leave(s, n); var gone := {n, s.memory[n].req, s.memory[n].resp};
            && n in s.memory && s.memory[n].Next? && Valid(t)
            && t == s.(memory := s.memory - gone, registry := s.registry - gone, cbDepth := t.cbDepth, frames := t.frames)
            && t.frames == s.frames[..|s.frames| - 1]
            && (forall a :: Owner(s.memory, a) && a != n ==>
                  a in t.memory && s.memory[a].req in t.registry && s.memory[a].resp in t.registry)
  {
    LeaveFramed(s.memory, s.frames);
    EraseOwned(s.memory, n);
    FewerOnce(s.memory, s.memory - {n, s.memory[n].req, s.memory[n].resp}, s.made, s.calls);
    hide Owned, Framed, Once;
  }

  lemma UsedFramed(m: map<Addr, Cell>, frames: seq<Addr>, h: Addr, cell: Cell)
    requires Framed(m, frames) && h in m && (m[h].Next? <==> cell.Next?)
    ensures Framed(m[h := cell], frames)
  {
  }

  /** Running spends the frame's continuation: it has not been invoked before, and
      nobody can invoke it again. */
  lemma UseNextValid(s: State, h: Addr)
    requires Valid(s)
    ensures var (t, code) := UseNext(s, h);
            && Valid(t) && Kept(s, t)
            && (code != Ok ==> t == s)
            && (code == Ok ==> IsNext(s, h) && s.memory[h].k !in s.calls && t.calls == s.calls + [s.memory[h].k])
  {
    if IsNext(s, h) && !s.memory[h].used {
      Spend(s, h, s.memory[h].(used := true));
    }
    hide Owned, Framed, Once;
  }

  lemma UseDeferredValid(s: State, d: Addr)
    requires Valid(s)
    ensures var (t, code) := UseDeferred(s, d);
            && Valid(t) && Kept(s, t)
            && (code != Ok ==> t == s)
            && (code == Ok ==> IsDeferred(s, d) && s.memory[d].k !in s.calls && t.calls == s.calls + [s.memory[d].k])
  {
    if IsDeferred(s, d) && !s.memory[d].resumed {
      Spend(s, d, s.memory[d].(resumed := true));
    }
    hide Owned, Framed, Once;
  }

  lemma Spend(s: State, h: Addr, cell: Cell)
    requires Valid(s) && Holds(s.memory, h)
    requires cell == if s.memory[h].Next? then s.memory[h].(used := true) else s.memory[h].(resumed := true)
    ensures var t := s.(memory := s.memory[h := cell]);
            Valid(t) && Valid(Invoke(t, cell.k)) && Kept(s, t) && Kept(s, Invoke(t, cell.k)) && cell.k !in s.calls
  {
    hide Owned, Framed, Once;
    SpendFacts(s.memory, h);
    UseOwned(s.memory, h, cell);
    UsedFramed(s.memory, s.frames, h, cell);
    SpendOnce(s.memory, s.made, s.calls, h, cell);
    HolderFresh(s.memory, s.made, s.calls, h);
    hide Holds, Owner;
  }

  lemma SpendFacts(m: map<Addr, Cell>, h: Addr)
    requires Holds(m, h)
    ensures h in m && Owner(m, h)
  {
  }

  lemma HolderFresh(m: map<Addr, Cell>, made: nat, calls: seq<nat>, h: Addr)
    requires Once(m, made, calls) && Holds(m, h)
    ensures m[h].k !in calls
  {
  }

  /** Deferring spends the frame's continuation too and, given room, hands it to a
      reply with handles of its own. */
  lemma DeferValid(s: State, h: Addr, room: Option<Place>)
    requires Valid(s) && (room.Some? ==> Fits(s, room.value))
    ensures var (t, d) := Defer(s, h, room);
            && Valid(t) && Kept(s, t) && t.calls == s.calls
            && (d.Some? <==> IsNext(s, h) && !s.memory[h].used && room.Some?)
            && (d.Some? ==> IsDeferred(t, d.value) && !t.memory[d.value].resumed && t.memory[d.value].k == s.memory[h].k)
  {
    KeptRefl(s);
    if IsNext(s, h) && !s.memory[h].used {
      var spent := s.memory[h].(used := true);
      Spend(s, h, spent);
      SpentFree(s, h, spent);
      if room.Some? {
        DeferNew(s.(memory := s.memory[h := spent]), s.memory[h].k, room.value);
        KeptTrans(s, s.(memory := s.memory[h := spent]), Defer(s, h, room).0);
      }
    }
    hide Valid, Kept;
  }

  lemma SpentFree(s: State, h: Addr, spent: Cell)
    requires Valid(s) && IsNext(s, h) && !s.memory[h].used && spent == s.memory[h].(used := true)
    ensures var n := s.memory[h := spent]; forall g {:trigger Holds(n, g)} :: Holds(n, g) ==> n[g].k != spent.k
    ensures spent.k < s.made && spent.k !in s.calls
  {
    SpendOnce(s.memory, s.made, s.calls, h, spent);
    assert Holds(s.memory, h);
  }

  lemma DeferNew(s: State, k: nat, p: Place)
    requires Valid(s) && Fits(s, p) && k < s.made && k !in s.calls
    requires forall g {:trigger Holds(s.memory, g)} :: Holds(s.memory, g) ==> s.memory[g].k != k
    ensures var t := Store(s, p, Deferred(k, false, p.req, p.resp));
            && Valid(t) && Kept(s, t) && IsDeferred(t, p.owner)
            && t.memory[p.owner] == Deferred(k, false, p.req, p.resp)
  {
    hide Owned, Framed, Once, With, Holds;
    var cell := Deferred(k, false, p.req, p.resp);
    StoreOwned(s.memory, p, cell);
    StoreOnce(s.memory, s.made, s.calls, p, cell, s.made);
    AsideFramed(s.memory, s.frames, p, cell);
    WithSpares(s.memory, p, cell);
  }

  /** New handles disturb no others. */
  lemma WithSpares(m: map<Addr, Cell>, p: Place, cell: Cell)
    requires Room(m, p)
    ensures var n := With(m, p, cell); n[p.owner] == cell && forall a :: a in m ==> a in n && n[a] == m[a]
  {
  }

  lemma FreeValid(s: State, d: Addr)
    requires Valid(s)
    ensures Valid(Free(s, d).0) && Kept(s, Free(s, d).0)
  {
    KeptRefl(s);
    if IsDeferred(s, d) {
      var gone := {d, s.memory[d].req, s.memory[d].resp};
      EraseOwned(s.memory, d);
      FewerOnce(s.memory, s.memory - gone, s.made, s.calls);
      NotFrames(s.memory, d);
      assert (s.memory - gone).Keys == s.memory.Keys - gone;
    }
    hide Owned, Once;
  }

  lemma NotFrames(m: map<Addr, Cell>, d: Addr)
    requires Owned(m) && d in m && m[d].Deferred?
    ensures m[d].req in m && m[m[d].req].Req? && m[d].resp in m && m[m[d].resp].Resp?
  {
    assert Owner(m, d);
  }

  // ------------------------------------------------------------------------ runs

  /** After the user's code the frame is still there to be taken down. */
  lemma FrameLasts(s: State, p: Place, t: State)
    requires Valid(s) && Fits(s, p) && Valid(t) && Kept(Enter(s, p), t)
    ensures t.frames == s.frames + [p.owner] && Valid(Leave(t, p.owner)) && Kept(s, Leave(t, p.owner))
  {
    EnterValid(s, p);
    LeaveValid(t, p.owner);
    LeaveKept(s, p, t);
    hide Valid, Kept;
  }

  lemma LeaveKept(s: State, p: Place, t: State)
    requires Valid(s) && Fits(s, p) && Valid(t) && Kept(Enter(s, p), t)
    requires p.owner in t.memory && t.memory[p.owner].Next?
    requires var u := Leave(t, p.owner); var gone := {p.owner, t.memory[p.owner].req, t.memory[p.owner].resp};
             && u == t.(memory := t.memory - gone, registry := t.registry - gone, cbDepth := u.cbDepth, frames := u.frames)
             && u.frames == t.frames[..|t.frames| - 1]
             && Valid(u)
             && (forall a :: Owner(t.memory, a) && a != p.owner ==>
                   a in u.memory && t.memory[a].req in u.registry && t.memory[a].resp in u.registry)
    ensures t.frames == s.frames + [p.owner] && Kept(s, Leave(t, p.owner))
  {
    hide Owned, Framed, Once;
    var e := Enter(s, p);
    var u := Leave(t, p.owner);
    assert u.frames == s.frames;
    forall n | n in s.frames && n in s.memory && s.memory[n].Next?
      ensures n in u.memory && u.memory[n].Next? && u.memory[n] == s.memory[n].(used := u.memory[n].used)
              && (s.memory[n].used ==> u.memory[n].used) {
      assert n in e.frames && e.memory[n] == s.memory[n];
      assert Owner(t.memory, n) && n != p.owner;
    }
    hide Leave;
  }

  lemma {:induction false} RouteSafe(s: State, p: Place, code: seq<Act>)
    requires Valid(s) && Fits(s, p)
    ensures var t := Perform(s, Route(p, code)); Valid(t) && Kept(s, t)
    decreases code, 1
  {
    hide Valid, Kept, Enter, Leave, RunAll;
    EnterValid(s, p);
    RunSafe(Enter(s, p), code);
    FrameLasts(s, p, RunAll(Enter(s, p), code));
  }

  lemma {:induction false} PerformSafe(s: State, a: Act)
    requires Valid(s)
    ensures Valid(Perform(s, a)) && Kept(s, Perform(s, a))
    decreases a, 0
  {
    hide Valid, Kept, UseNext, UseDeferred, Defer, Free;
    KeptRefl(s);
    match a
    case Route(p, code) => if Fits(s, p) { RouteSafe(s, p, code); }
    case RunNext(h, chain) =>
      UseNextValid(s, h);
      RunSafe(UseNext(s, h).0, chain);
      KeptTrans(s, UseNext(s, h).0, RunAll(UseNext(s, h).0, chain));
    case DeferNext(h, room) => if room.Some? ==> Fits(s, room.value) { DeferValid(s, h, room); }
    case Resume(d, chain) =>
      UseDeferredValid(s, d);
      RunSafe(UseDeferred(s, d).0, chain);
      KeptTrans(s, UseDeferred(s, d).0, RunAll(UseDeferred(s, d).0, chain));
    case FreeDeferred(d) => FreeValid(s, d);
  }

  lemma {:induction false} RunSafe(s: State, acts: seq<Act>)
    requires Valid(s)
    ensures Valid(RunAll(s, acts)) && Kept(s, RunAll(s, acts))
    decreases acts, 0
  {
    hide Valid, Kept, Perform;
    KeptRefl(s);
    if acts != [] {
      PerformSafe(s, acts[0]);
      RunSafe(Perform(s, acts[0]), acts[1..]);
      KeptTrans(s, Perform(s, acts[0]), RunAll(s, acts));
    }
  }

  lemma FreshValid()
    ensures Valid(FRESH)
  {
  }

  /** In every run no continuation is invoked twice, and every handle that is
      registered is one that is stored; between callbacks these are the deferred
      replies and their handles alone. */
  lemma AtMostOnce(acts: seq<Act>)
    ensures var s := RunAll(FRESH, acts);
            && NoDup(s.calls) && s.registry == s.memory.Keys
            && (forall a :: a in s.registry ==> !s.memory[a].Next?)
            && (forall a :: a in s.registry && (s.memory[a].Req? || s.memory[a].Resp?) ==> IsDeferred(s, s.memory[a].owner))
  {
    FreshValid();
    RunSafe(FRESH, acts);
    assert RunAll(FRESH, acts).frames == [];
    hide RunAll;
  }

  lemma CountOnce(calls: seq<nat>, i: nat)
    requires NoDup(calls) && i < |calls|
    ensures multiset(calls)[calls[i]] == 1
  {
    var a, b := calls[..i], calls[i + 1..];
    assert calls == a + [calls[i]] + b;
    assert multiset(calls) == multiset(a) + multiset{calls[i]} + multiset(b);
    assert calls[i] !in a && calls[i] !in b;
  }

  /** A successful run invokes the continuation, which was never invoked before and
      never will be again, whatever happens afterwards; a refused one invokes
      nothing.  Likewise for resuming a deferred reply. */
  lemma ExactlyOnce(s: State, h: Addr, later: seq<Act>)
    requires Valid(s)
    ensures var (t, code) := UseNext(s, h);
            code == Ok ==> multiset(s.calls)[s.memory[h].k] == 0 && multiset(RunAll(t, later).calls)[s.memory[h].k] == 1
    ensures var (t, code) := UseDeferred(s, h);
            code == Ok ==> multiset(s.calls)[s.memory[h].k] == 0 && multiset(RunAll(t, later).calls)[s.memory[h].k] == 1
  {
    if UseNext(s, h).1 == Ok {
      UseNextValid(s, h);
      InvokedFor(UseNext(s, h).0, |s.calls|, later);
    }
    if UseDeferred(s, h).1 == Ok {
      UseDeferredValid(s, h);
      InvokedFor(UseDeferred(s, h).0, |s.calls|, later);
    }
    hide Valid, Kept, RunAll;
  }

  lemma InvokedFor(t: State, i: nat, later: seq<Act>)
    requires Valid(t) && i < |t.calls|
    ensures multiset(RunAll(t, later).calls)[t.calls[i]] == 1
  {
    RunSafe(t, later);
    CountOnce(RunAll(t, later).calls, i);
  }

  /** Whatever a callback does, when it is left its own three handles are gone,
      and every deferred reply there is, made in it or before, is still there with
      its handles and may still be resumed if it could before. */
  lemma DeferredOutlivesFrame(s: State, p: Place, code: seq<Act>)
    requires Valid(s) && Fits(s, p)
    ensures var t := RunAll(Enter(s, p), code); var u := Perform(s, Route(p, code));
            && p.owner !in u.registry && p.req !in u.registry && p.resp !in u.registry
            && (forall d :: IsDeferred(t, d) ==>
                  && IsDeferred(u, d) && u.memory[d] == t.memory[d]
                  && t.memory[d].req in u.registry && t.memory[d].resp in u.registry)
  {
    hide Owned, Framed, Once, RunAll;
    EnterValid(s, p);
    RunSafe(Enter(s, p), code);
    var t := RunAll(Enter(s, p), code);
    FrameLasts(s, p, t);
    FrameSame(s, p, t);
    LeaveValid(t, p.owner);
    hide Valid, Kept, Enter, Leave;
  }

  lemma FrameSame(s: State, p: Place, t: State)
    requires Fits(s, p) && Kept(Enter(s, p), t)
    ensures p.owner in t.memory && t.memory[p.owner].Next?
    ensures t.memory[p.owner].req == p.req && t.memory[p.owner].resp == p.resp
  {
    assert p.owner in Enter(s, p).frames;
  }
}
