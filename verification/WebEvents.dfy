/** When the operations on continuations of src/capi/uvcpp_c_webapp.cpp succeed, and
    what they then do.  WebContinuations says what all of them keep. */
module WebEvents {
  import opened Base
  import opened WebContinuations

  /** Running (1615-1625) succeeds exactly on a registered frame whose continuation has
      not been spent; it then invokes that continuation, and spends it. */
  lemma RunNextIff(s: State, h: Addr)
    ensures var (t, code) := UseNext(s, h);
            && (code == Stale <==> !IsNext(s, h))
            && (code == WrongState <==> IsNext(s, h) && s.memory[h].used)
            && (code == Ok <==> IsNext(s, h) && !s.memory[h].used)
            && (code == Ok ==> t.calls == s.calls + [s.memory[h].k] && IsNext(t, h) && UseNext(t, h) == (t, WrongState)
                               && (forall room :: Defer(t, h, room) == (t, None))
                               && t.registry == s.registry && forall a :: a in s.memory && a != h ==> a in t.memory && t.memory[a] == s.memory[a])
            && (code != Ok ==> t == s)
            && Perform(s, RunNext(h, [])) == t
  {
    EmptyRun(UseNext(s, h).0);
  }

  /** Resuming (1711-1724) succeeds exactly on a registered reply that has not been
      resumed. */
  lemma ResumeIff(s: State, d: Addr)
    ensures var (t, code) := UseDeferred(s, d);
            && (code == Stale <==> !IsDeferred(s, d))
            && (code == WrongState <==> IsDeferred(s, d) && s.memory[d].resumed)
            && (code == Ok <==> IsDeferred(s, d) && !s.memory[d].resumed)
            && (code == Ok ==> t.calls == s.calls + [s.memory[d].k] && IsDeferred(t, d) && UseDeferred(t, d) == (t, WrongState)
                               && t.registry == s.registry && forall a :: a in s.memory && a != d ==> a in t.memory && t.memory[a] == s.memory[a])
            && (code != Ok ==> t == s)
            && Perform(s, Resume(d, [])) == t
  {
    EmptyRun(UseDeferred(s, d).0);
  }

  /** Deferring (1631-1667) gives a reply exactly if the frame's continuation has not
      been spent and there is room; whether there is room or not, it is spent then. */
  lemma DeferIff(s: State, h: Addr, room: Option<Place>)
    requires Valid(s) && (room.Some? ==> Fits(s, room.value))
    ensures var (t, d) := Defer(s, h, room);
            && (d.Some? <==> IsNext(s, h) && !s.memory[h].used && room.Some?)
            && (d.Some? ==> d.value == room.value.owner && UseDeferred(t, d.value).1 == Ok && t.memory[d.value].k == s.memory[h].k
                            && room.value.req in t.registry && room.value.resp in t.registry)
            && (IsNext(s, h) ==> UseNext(t, h).1 == WrongState)
            && (!IsNext(s, h) || s.memory[h].used ==> t == s)
            && t.calls == s.calls && Perform(s, DeferNext(h, room)) == t
  {
    DeferValid(s, h, room);
    hide Owned, Framed, Once, Kept;
  }

  /** Freeing a reply (1726-1738) succeeds exactly if it is registered; it is then gone,
      with its two handles, and nothing else is. */
  lemma FreeIff(s: State, d: Addr)
    requires Valid(s)
    ensures var (t, code) := Free(s, d);
            && (code == Ok <==> IsDeferred(s, d)) && (code != Ok ==> t == s && code == Stale) && Perform(s, FreeDeferred(d)) == t
            && (code == Ok ==>
                  var gone := {d, s.memory[d].req, s.memory[d].resp};
                  && s.memory[d].req in s.registry && s.memory[d].resp in s.registry
                  && t.memory == s.memory - gone && t.registry == s.registry - gone && t.calls == s.calls
                  && t.frames == s.frames && t.cbDepth == s.cbDepth && t.made == s.made
                  && UseDeferred(t, d) == (t, Stale) && Free(t, d) == (t, Stale))
  {
    if IsDeferred(s, d) { NotFrames(s.memory, d); }
    hide Framed, Once;
  }

  // -------------------------------------------------------------------- end to end

  lemma RunFirst(s: State, a: Act, rest: seq<Act>)
    ensures RunAll(s, [a] + rest) == RunAll(Perform(s, a), rest)
  {
    hide Perform;
    assert ([a] + rest)[1..] == rest;
  }

  lemma EmptyRun(s: State)
    ensures RunAll(s, []) == s
  {
  }

  /** In a fresh route callback the frame's handle has a continuation of its own. */
  lemma FreshFrame(s: State, p: Place)
    requires Fits(s, p)
    ensures var b := Enter(s, p);
            && IsNext(b, p.owner) && !b.memory[p.owner].used && b.memory[p.owner].k == s.made && b.calls == s.calls
            && b.made == s.made + 1 && forall a :: a in s.memory ==> a in b.memory && b.memory[a] == s.memory[a]
  {
  }

  lemma LeaveCalls(s: State, n: Addr)
    ensures Leave(s, n).calls == s.calls
  {
  }

  /** A route's callback that runs the chain invokes its continuation, once however
      often it tries. */
  lemma RouteRuns(s: State, p: Place)
    requires Valid(s) && Fits(s, p)
    ensures Perform(s, Route(p, [])).calls == s.calls
    ensures Perform(s, Route(p, [RunNext(p.owner, [])])).calls == s.calls + [s.made]
    ensures Perform(s, Route(p, [RunNext(p.owner, [])] + [RunNext(p.owner, [])])).calls == s.calls + [s.made]
  {
    var b, run := Enter(s, p), RunNext(p.owner, []);
    FreshFrame(s, p);
    RunNextIff(b, p.owner);
    var t := UseNext(b, p.owner).0;
    hide UseNext, Leave, Enter;
    EmptyRun(b);
    EmptyRun(t);
    RunFirst(b, run, []);
    RunFirst(b, run, [run]);
    RunFirst(t, run, []);
    assert [run] + [] == [run];
    LeaveCalls(b, p.owner);
    LeaveCalls(t, p.owner);
  }

  /** The rest of the chain runs within: a route that it reaches is called back, and
      runs its own continuation. */
  lemma ChainReachesNextRoute(s: State, h: Addr, q: Place)
    requires Valid(s) && UseNext(s, h).1 == Ok && Fits(s, q)
    ensures Perform(s, RunNext(h, [Route(q, [RunNext(q.owner, [])])])).calls == s.calls + [s.memory[h].k] + [s.made]
  {
    UseNextValid(s, h);
    RunNextIff(s, h);
    var t, a := UseNext(s, h).0, Route(q, [RunNext(q.owner, [])]);
    SpentFits(s, h, q);
    RouteRuns(t, q);
    hide UseNext, Valid, Kept;
    RunFirst(t, a, []);
    EmptyRun(Perform(t, a));
    assert [a] + [] == [a];
  }

  /** So it does when a deferred reply is resumed. */
  lemma ResumedChainReachesNextRoute(s: State, d: Addr, q: Place)
    requires Valid(s) && UseDeferred(s, d).1 == Ok && Fits(s, q)
    ensures Perform(s, Resume(d, [Route(q, [RunNext(q.owner, [])])])).calls == s.calls + [s.memory[d].k] + [s.made]
  {
    UseDeferredValid(s, d);
    ResumeIff(s, d);
    var t, a := UseDeferred(s, d).0, Route(q, [RunNext(q.owner, [])]);
    ResumedFits(s, d, q);
    RouteRuns(t, q);
    hide UseDeferred, Valid, Kept;
    RunFirst(t, a, []);
    EmptyRun(Perform(t, a));
    assert [a] + [] == [a];
  }

  lemma ResumedFits(s: State, d: Addr, q: Place)
    requires UseDeferred(s, d).1 == Ok && Fits(s, q)
    ensures var t := UseDeferred(s, d).0; Fits(t, q) && t.made == s.made
  {
  }

  lemma SpentFits(s: State, h: Addr, q: Place)
    requires UseNext(s, h).1 == Ok && Fits(s, q)
    ensures var t := UseNext(s, h).0; Fits(t, q) && t.made == s.made
  {
  }

  /** Once a frame's continuation is spent, by running the chain or by deferring, every
      later attempt in that callback is refused, whatever runs between. */
  lemma SecondAttemptRefused(s: State, h: Addr, acts: seq<Act>, room: Option<Place>)
    requires Valid(s) && h in s.frames && IsNext(s, h) && s.memory[h].used
    ensures var t := RunAll(s, acts); UseNext(t, h) == (t, WrongState) && Defer(t, h, room) == (t, None)
  {
    RunSafe(s, acts);
    hide RunAll, Owned, Framed, Once;
  }

  lemma CallsOfRoute(s: State, p: Place, code: seq<Act>)
    requires Fits(s, p)
    ensures Perform(s, Route(p, code)).calls == RunAll(Enter(s, p), code).calls
  {
    hide RunAll, Enter, Leave;
    LeaveCalls(RunAll(Enter(s, p), code), p.owner);
  }

  /** A reply that was deferred in a route's callback can be resumed in it, or after it:
      the frame's continuation is invoked then, once; and to run it besides is refused. */
  lemma DeferredIsResumed(s: State, p: Place, q: Place)
    requires Valid(s) && Fits(s, p) && Fits(Enter(s, p), q)
    ensures var defer, resume := DeferNext(p.owner, Some(q)), Resume(q.owner, []);
            && Perform(s, Route(p, [defer])).calls == s.calls
            && Perform(Perform(s, Route(p, [defer])), resume).calls == s.calls + [s.made]
            && Perform(s, Route(p, [defer] + [resume])).calls == s.calls + [s.made]
            && Perform(s, Route(p, [defer] + ([resume] + [RunNext(p.owner, [])]))).calls == s.calls + [s.made]
  {
    hide Valid, Kept, Defer, UseDeferred, UseNext, Enter, Leave, Fits, RunAll;
    var defer, resume, run := DeferNext(p.owner, Some(q)), Resume(q.owner, []), RunNext(p.owner, []);
    var b := Enter(s, p);
    FreshFrame(s, p);
    EnterValid(s, p);
    DeferIff(b, p.owner, Some(q));
    DeferValid(b, p.owner, Some(q));
    var t := Defer(b, p.owner, Some(q)).0;
    ResumeIff(t, q.owner);
    RunNextIff(t, p.owner);
    RunFirst(b, defer, []);
    RunFirst(b, defer, [resume]);
    RunFirst(b, defer, [resume] + [run]);
    EmptyRun(t);
    assert [defer] + [] == [defer];
    CallsOfRoute(s, p, [defer]);
    CallsOfRoute(s, p, [defer] + [resume]);
    CallsOfRoute(s, p, [defer] + ([resume] + [run]));
    ResumeInside(t, p, q);
    ResumeAfter(s, p, t, q.owner);
  }

  lemma ResumeInside(t: State, p: Place, q: Place)
    requires IsDeferred(t, q.owner) && UseDeferred(t, q.owner).1 == Ok && UseNext(t, p.owner).1 == WrongState && IsNext(t, p.owner)
    ensures var resume, run := Resume(q.owner, []), RunNext(p.owner, []); var k := t.memory[q.owner].k;
            RunAll(t, [resume]).calls == t.calls + [k] && RunAll(t, [resume] + [run]).calls == t.calls + [k]
  {
    hide UseDeferred, UseNext, RunAll;
    var resume, run := Resume(q.owner, []), RunNext(p.owner, []);
    ResumeIff(t, q.owner);
    RunNextIff(t, p.owner);
    var u := UseDeferred(t, q.owner).0;
    RunNextIff(u, p.owner);
    EmptyRun(u);
    RunFirst(t, resume, []);
    RunFirst(t, resume, [run]);
    RunFirst(u, run, []);
    assert [resume] + [] == [resume] && [run] + [] == [run];
  }

  /** A reply outlasts the frame it was deferred in. */
  lemma ResumeAfter(s: State, p: Place, t: State, d: Addr)
    requires Valid(s) && Fits(s, p) && Valid(t) && Kept(Enter(s, p), t) && IsDeferred(t, d) && !t.memory[d].resumed
    ensures Perform(Leave(t, p.owner), Resume(d, [])).calls == t.calls + [t.memory[d].k]
  {
    hide Valid, Kept, Enter, Leave, UseDeferred, RunAll;
    FrameLasts(s, p, t);
    FrameSame(s, p, t);
    TopFrame(s, p, t);
    LeaveValid(t, p.owner);
    var u := Leave(t, p.owner);
    ResumeIff(u, d);
    EmptyRun(UseDeferred(u, d).0);
    LeaveCalls(t, p.owner);
  }

  lemma TopFrame(s: State, p: Place, t: State)
    requires Kept(Enter(s, p), t)
    ensures t.frames != [] && t.frames[|t.frames| - 1] == p.owner
  {
  }
}
