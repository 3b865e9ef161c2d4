/** The route callbacks and deferred replies of src/capi/uvcpp_c_webapp.cpp with
    their handles in place; each method is proved to do what its specification
    function in WebContinuations says. */
module WebApp {
  import opened Base
  import opened WebContinuations
  import HandleRegistry

  class App {
    var memory: map<Addr, Cell>
    var registry: set<Addr>
    var cbDepth: nat
    var made: nat
    // history
    ghost var frames: seq<Addr>
    ghost var calls: seq<nat>

    ghost function S(): State
      reads this
    {
      State(memory, registry, cbDepth, frames, made, calls)
    }

    constructor ()
      ensures S() == FRESH && Valid(S())
    {
      memory, registry, cbDepth, made, frames, calls := map[], {}, 0, 0, [], [];
      new;
      FreshValid();
    }

    /** route_trampoline (310-338): three handles on the stack, registered through a
        scope with room for five while the user's callback runs. */
    method RouteTrampoline(p: Place, code: seq<Act>)
      requires Valid(S()) && Fits(S(), p)
      modifies this
      ensures S() == Perform(old(S()), Route(p, code))
      decreases code, 1
    {
      hide Valid, Kept, RunAll, Enter, Leave;
      EnterValid(S(), p);
      ghost var s := S();
      var scope := new HandleRegistry.FrameScope(HandleRegistry.ROUTE.room);
      EnterFrame(scope, p);
      RunSafe(S(), code);
      RunCode(code);
      StillFramed(s, p, S());
      LeaveFrame(scope, p);
    }

    method EnterFrame(scope: HandleRegistry.FrameScope, p: Place)
      requires scope.Sound() && scope.n == 0 && scope.slots.Length == HandleRegistry.ROUTE.room
      modifies this, scope`n, scope.slots
      ensures S() == Enter(old(S()), p) && scope.Sound() && scope.Contents() == [p.req, p.resp, p.owner]
    {
      memory := With(memory, p, Next(made, false, p.req, p.resp));
      AddHandle(scope, p.req);
      AddHandle(scope, p.resp);
      AddHandle(scope, p.owner);
      assert registry == old(registry) + {p.owner, p.req, p.resp};
      cbDepth, made, frames := cbDepth + 1, made + 1, frames + [p.owner];
    }

    method LeaveFrame(scope: HandleRegistry.FrameScope, p: Place)
      requires scope.Sound() && scope.Contents() == [p.req, p.resp, p.owner]
      requires frames != [] && cbDepth > 0 && p.owner in memory && memory[p.owner].Next?
      requires memory[p.owner].req == p.req && memory[p.owner].resp == p.resp
      modifies this
      ensures S() == Leave(old(S()), p.owner)
    {
      cbDepth, frames := cbDepth - 1, frames[..|frames| - 1];
      CloseScope(scope);
      assert HandleRegistry.Elements([p.req, p.resp, p.owner]) == {p.owner, p.req, p.resp};
      memory := memory - {p.owner, p.req, p.resp};
    }

    /** FrameScope's add (240-246). */
    method AddHandle(scope: HandleRegistry.FrameScope, h: Addr)
      requires scope.Sound()
      modifies this`registry, scope`n, scope.slots
      ensures registry == old(registry) + {h} && scope.Sound()
      ensures scope.Contents() == if old(scope.n) < scope.slots.Length then old(scope.Contents()) + [h] else old(scope.Contents())
    {
      registry := registry + {h};
      scope.Note(h);
    }

    /** And its end (235-237). */
    method CloseScope(scope: HandleRegistry.FrameScope)
      requires scope.Sound()
      modifies this`registry
      ensures registry == old(registry) - HandleRegistry.Elements(scope.Contents())
    {
      ghost var noted := scope.Contents();
      var i := scope.n;
      while i > 0
        invariant 0 <= i <= scope.n && scope.Sound() && noted == scope.Contents()
        invariant registry == old(registry) - HandleRegistry.Elements(noted[i..])
      {
        i := i - 1;
        assert noted[i..] == [noted[i]] + noted[i + 1..];
        registry := registry - {scope.slots[i]};
      }
      assert noted[0..] == noted;
    }

    /** uvcpp_c_next_run (1615-1625). */
    method NextRun(h: Addr, chain: seq<Act>) returns (code: Code)
      requires Valid(S())
      modifies this
      ensures code == UseNext(old(S()), h).1 && S() == Perform(old(S()), RunNext(h, chain))
      decreases chain, 1
    {
      ghost var s := S();
      UseNextValid(s, h);
      hide Valid, Kept, RunAll;
      if !(h in registry && h in memory && memory[h].Next?) { return Stale; }
      if memory[h].used { return WrongState; }
      memory := memory[h := memory[h].(used := true)];
      calls := calls + [memory[h].k];
      code := Ok;
      assert UseNext(s, h) == (S(), Ok);
      hide UseNext;
      RunCode(chain);
    }

    /** uvcpp_c_defer (1631-1667). */
    method DeferReply(h: Addr, room: Option<Place>) returns (d: Option<Addr>)
      requires Valid(S()) && (room.Some? ==> Fits(S(), room.value))
      modifies this
      ensures (S(), d) == Defer(old(S()), h, room)
    {
      hide Valid;
      if !(h in registry && h in memory && memory[h].Next?) || memory[h].used { return None; }
      memory := memory[h := memory[h].(used := true)];
      if room.None? { return None; }
      var p := room.value;
      memory := With(memory, p, Deferred(memory[h].k, false, p.req, p.resp));
      registry := registry + {p.owner, p.req, p.resp};
      return Some(p.owner);
    }

    /** uvcpp_c_deferred_resume (1711-1724). */
    method DeferredResume(d: Addr, chain: seq<Act>) returns (code: Code)
      requires Valid(S())
      modifies this
      ensures code == UseDeferred(old(S()), d).1 && S() == Perform(old(S()), Resume(d, chain))
      decreases chain, 1
    {
      ghost var s := S();
      UseDeferredValid(s, d);
      hide Valid, Kept, RunAll;
      if !(d in registry && d in memory && memory[d].Deferred?) { return Stale; }
      if memory[d].resumed { return WrongState; }
      memory := memory[d := memory[d].(resumed := true)];
      calls := calls + [memory[d].k];
      code := Ok;
      assert UseDeferred(s, d) == (S(), Ok);
      hide UseDeferred;
      RunCode(chain);
    }

    /** uvcpp_c_deferred_free (1726-1738). */
    method DeferredFree(d: Addr) returns (code: Code)
      modifies this
      ensures (S(), code) == Free(old(S()), d)
    {
      if !(d in registry && d in memory && memory[d].Deferred?) { return Stale; }
      var gone := {d, memory[d].req, memory[d].resp};
      registry := registry - gone;
      memory := memory - gone;
      return Ok;
    }

    method PerformAct(a: Act)
      requires Valid(S())
      modifies this
      ensures S() == Perform(old(S()), a) && Valid(S())
      decreases a, 0
    {
      PerformSafe(S(), a);
      hide Valid, Defer, Free, UseNext, UseDeferred;
      match a
      case Route(p, code) =>
        if p.owner !in memory && p.req !in memory && p.resp !in memory
           && p.owner != p.req && p.owner != p.resp && p.req != p.resp {
          RouteTrampoline(p, code);
        }
      case RunNext(h, chain) => var _ := NextRun(h, chain);
      case DeferNext(h, room) =>
        if room.Some? {
          var p := room.value;
          if !(p.owner !in memory && p.req !in memory && p.resp !in memory
               && p.owner != p.req && p.owner != p.resp && p.req != p.resp) { return; }
        }
        var _ := DeferReply(h, room);
      case Resume(d, chain) => var _ := DeferredResume(d, chain);
      case FreeDeferred(d) => var _ := DeferredFree(d);
    }

    method RunCode(acts: seq<Act>)
      requires Valid(S())
      modifies this
      ensures S() == RunAll(old(S()), acts) && Valid(S())
      decreases acts, 0
    {
      hide Valid, Perform;
      var i := 0;
      while i < |acts|
        invariant 0 <= i <= |acts| && Valid(S())
        invariant RunAll(S(), acts[i..]) == RunAll(old(S()), acts)
      {
        assert acts[i..][1..] == acts[i + 1..];
        PerformAct(acts[i]);
        i := i + 1;
      }
    }
  }

  /** The trampoline finds its handles where it left them. */
  lemma StillFramed(s: State, p: Place, t: State)
    requires Valid(s) && Fits(s, p) && Valid(t) && Kept(Enter(s, p), t)
    ensures t.frames != [] && t.cbDepth > 0 && p.owner in t.memory && t.memory[p.owner].Next?
    ensures t.memory[p.owner].req == p.req && t.memory[p.owner].resp == p.resp
  {
    FrameLasts(s, p, t);
    FrameSame(s, p, t);
  }
}
