/** The server object of src/capi/uvcpp_c_net.cpp with its fields updated in
    place.  Each method is proved to do what its specification function in
    TcpReaper says, so every theorem there holds of the object; and each read of
    a wrapper's record is proved to meet one that is still allocated. */
module TcpServer {
  import opened Base
  import opened Ledger
  import opened TcpReaper

  class Server {
    // uvcpp_c_tcp_server
    var cbDepth: nat
    var live: map<Conn, Addr>
    var graveyard: seq<Addr>
    var onConnection: bool
    var onRead: bool
    // storage of the handles, and the registry's entries for them
    var memory: map<Addr, Wrapper>
    var registry: set<Addr>
    // the framework
    var open: set<Conn>
    var closing: set<Conn>
    var observers: map<Conn, Addr>
    var readSlots: map<Conn, Addr>
    var closeSlots: map<Conn, Addr>
    // history
    ghost var stack: seq<Addr>
    ghost var book: Book
    ghost var closes: seq<Conn>
    ghost var entered: seq<Addr>

    ghost function S(): State
      reads this
    {
      State(cbDepth, live, graveyard, onConnection, onRead, memory, registry, open, closing,
            observers, readSlots, closeSlots, stack, book, closes, entered)
    }

    constructor ()
      ensures S() == FRESH && Valid(S())
    {
      cbDepth, live, graveyard, onConnection, onRead := 0, map[], [], false, false;
      memory, registry, open, closing := map[], {}, {}, {};
      observers, readSlots, closeSlots := map[], map[], map[];
      stack, book, closes, entered := [], EMPTY, [], [];
      new;
      FreshValid();
    }

    /** CallbackScope::drain (147-158). */
    method Drain()
      requires Sound(S())
      modifies this`graveyard, this`memory, this`book
      ensures S() == DrainFrom(old(S()), 0)
    {
      hide Frames, Paired, Armed, Captured, Exact, Delete;
      var i := 0;
      while i < |graveyard|
        invariant 0 <= i && Sound(S()) && DrainFrom(S(), i) == DrainFrom(old(S()), 0)
        decreases |graveyard| - i
      {
        var w := graveyard[i];
        if memory[w].cbDepth != 0 {
          i := i + 1;
        } else {
          BurySound(S(), i);
          graveyard := graveyard[..i] + graveyard[i + 1..];
          memory, book := memory - {w}, Delete(book, w);
        }
      }
    }

    /** reap_client (181-199), run by the close observer. */
    method ReapClient(w: Addr)
      requires w in memory
      modifies this`live, this`graveyard, this`memory, this`registry, this`book
      ensures S() == Reap(old(S()), w)
    {
      if memory[w].reaped { return; }
      var cli := memory[w].cli;
      memory := memory[w := memory[w].(reaped := true, cli := None)];
      registry := registry - {w};
      if cli.Some? { live := live - {cli.value}; }
      if cbDepth > 0 || memory[w].cbDepth > 0 {
        graveyard := graveyard + [w];
        return;
      }
      memory, book := memory - {w}, Delete(book, w);
    }

    /** wrap_client (202-225). */
    method WrapClient(c: Conn, place: Option<Addr>) returns (w: Option<Addr>)
      modifies this`live, this`memory, this`registry, this`observers, this`book
      ensures (S(), w) == Wrap(old(S()), c, place)
    {
      if c in live { return Some(live[c]); }
      if place.None? { return None; }
      var a := place.value;
      memory, book := memory[a := Fresh(c)], Make(book, a);
      registry := registry + {a};
      live := live[c := a];
      observers := observers[c := a];
      return Some(a);
    }

    /** A trampoline's body: the callback scope (122-143) around the user's code. */
    method CallBack(w: Addr, code: seq<Act>)
      requires Valid(S()) && w in memory
      modifies this
      ensures S() == Scope(old(S()), w, code)
      decreases code, 1
    {
      hide Valid, Sound, Kept, RunAll, DrainFrom, Enter, Pop;
      ghost var s := S();
      EnterValid(s, w);
      EnterScope(w);
      RunSafe(S(), code);
      RunCode(code);
      ScopeValid(s, w, S());
      StackTop(s, w, S());
      PopSound(S(), w);
      PopScope(w);
      Drain();
    }

    method EnterScope(w: Addr)
      requires w in memory
      modifies this`memory, this`cbDepth, this`stack, this`entered
      ensures S() == Enter(old(S()), w)
    {
      memory := memory[w := memory[w].(cbDepth := memory[w].cbDepth + 1)];
      cbDepth := cbDepth + 1;
      stack, entered := stack + [w], entered + [w];
    }

    method PopScope(w: Addr)
      requires w in memory && memory[w].cbDepth > 0 && cbDepth > 0 && stack != []
      modifies this`memory, this`cbDepth, this`stack
      ensures S() == Pop(old(S()), w)
    {
      memory := memory[w := memory[w].(cbDepth := memory[w].cbDepth - 1)];
      cbDepth := cbDepth - 1;
      stack := stack[..|stack| - 1];
    }

    /** A connection closes. */
    method CloseConnection(c: Conn, code: seq<Act>)
      requires Valid(S())
      modifies this
      ensures S() == Close(old(S()), c, code)
      decreases code, 2
    {
      if c !in open || c in closing { return; }
      hide Sound, Kept, Scope, Finish;
      ClosingValid(S(), c);
      closing := closing + {c};
      SlotsAllocated(S());
      if c in closeSlots && memory[closeSlots[c]].onClose {
        ScopeSafe(S(), closeSlots[c], code);
        CallBack(closeSlots[c], code);
      }
      SlotsAllocated(S());
      Finalize(c);
    }

    /** The framework lets go of a connection and runs its close observer. */
    method Finalize(c: Conn)
      requires c in observers ==> observers[c] in memory
      modifies this
      ensures S() == Finish(old(S()), c)
    {
      hide Reap, Forget;
      var observer := if c in observers then Some(observers[c]) else None;
      LetGo(c);
      if observer.Some? { ReapClient(observer.value); }
    }

    method LetGo(c: Conn)
      modifies this`open, this`closing, this`closes, this`observers, this`readSlots, this`closeSlots
      ensures S() == Forget(old(S()), c)
    {
      LetGoCaptured(c);
      open, closing, closes := open - {c}, closing - {c}, closes + [c];
    }

    method LetGoCaptured(c: Conn)
      modifies this`observers, this`readSlots, this`closeSlots
      ensures S() == old(S()).(observers := old(observers) - {c}, readSlots := old(readSlots) - {c}, closeSlots := old(closeSlots) - {c})
    {
      observers, readSlots, closeSlots := observers - {c}, readSlots - {c}, closeSlots - {c};
    }

    /** maybe_arm_read (233-251). */
    method MaybeArmRead(h: Addr, connected: bool, rc: int) returns (code: Code)
      requires h in memory
      modifies this`memory, this`readSlots
      ensures (S(), code) == ArmRead(old(S()), h, connected, rc)
    {
      if memory[h].cli.None? { return Stale; }
      if memory[h].readArmed { return Ok; }
      if !memory[h].onRead && !memory[h].onClose { return Ok; }
      if !connected { return Ok; }
      if rc != 0 { return Engine(rc); }
      readSlots := readSlots[memory[h].cli.value := h];
      memory := memory[h := memory[h].(readArmed := true)];
      return Ok;
    }

    /** uvcpp_c_tcp_client_set_events (316-371). */
    method SetClientEvents(h: Addr, sizeOk: bool, onReadCb: bool, onCloseCb: bool, connected: bool, rc: int)
        returns (code: Code)
      requires Valid(S())
      modifies this`memory, this`readSlots, this`closeSlots
      ensures (S(), code) == SetTable(old(S()), h, sizeOk, onReadCb, onCloseCb, connected, rc)
    {
      hide Sound, ArmRead;
      if h !in registry { return Stale; }
      RegisteredFacts(S(), h);
      var c := memory[h].cli.value;
      memory := memory[h := memory[h].(onRead := sizeOk && onReadCb, onClose := sizeOk && onCloseCb)];
      if !sizeOk { return InvalidArg; }
      if onCloseCb { closeSlots := closeSlots[c := h]; } else { closeSlots := closeSlots - {c}; }
      code := MaybeArmRead(h, connected, rc);
    }

    /** uvcpp_c_tcp_client_read_stop (471-482). */
    method StopClientReading(h: Addr) returns (code: Code)
      requires Valid(S())
      modifies this`memory, this`readSlots
      ensures S() == StopReading(old(S()), h) && (code == Stale <==> h !in registry)
    {
      if h !in registry { return Stale; }
      RegisteredFacts(S(), h);
      readSlots := readSlots - {memory[h].cli.value};
      memory := memory[h := memory[h].(readArmed := false)];
      return Ok;
    }

    /** The listen callback (740-751). */
    method AcceptConnection(c: Conn, place: Option<Addr>, code: seq<Act>)
      requires Valid(S())
      modifies this
      ensures S() == Perform(old(S()), Accept(c, place, code))
      decreases code, 2
    {
      hide Valid, Wrap, Scope;
      if c in open || (place.Some? && place.value in memory) { return; }
      OpenValid(S(), c);
      open := open + {c};
      WrapValid(S(), c, place);
      var w := WrapClient(c, place);
      if !onConnection || w.None? { return; }
      CallBack(w.value, code);
    }

    /** The server's read callback (669-682). */
    method ReadConnection(c: Conn, place: Option<Addr>, code: seq<Act>)
      requires Valid(S())
      modifies this
      ensures S() == Perform(old(S()), Read(c, place, code))
      decreases code, 2
    {
      hide Valid, Wrap, Scope;
      if c !in open || c in closing || (place.Some? && place.value in memory) { return; }
      if !onRead { return; }
      WrapValid(S(), c, place);
      var w := WrapClient(c, place);
      if w.None? { return; }
      CallBack(w.value, code);
    }

    /** The connection's own read callback (239-248). */
    method ReadArmed(c: Conn, code: seq<Act>)
      requires Valid(S())
      modifies this
      ensures S() == Perform(old(S()), ArmedRead(c, code))
      decreases code, 2
    {
      SlotsAllocated(S());
      hide Valid, Scope;
      if c !in readSlots || c in closing { return; }
      var w := readSlots[c];
      if !memory[w].onRead { return; }
      CallBack(w, code);
    }

    /** uvcpp_c_tcp_client_close (484-490). */
    method CloseByHandle(h: Addr, code: seq<Act>) returns (rc: Code)
      requires Valid(S())
      modifies this
      ensures S() == Perform(old(S()), CloseHandle(h, code)) && rc == if h in old(registry) then Ok else Stale
      decreases code, 3
    {
      if h !in registry { return Stale; }
      RegisteredFacts(S(), h);
      hide Valid, Close;
      CloseConnection(memory[h].cli.value, code);
      return Ok;
    }

    /** One act of the framework or of the user's code. */
    method PerformAct(a: Act)
      requires Valid(S())
      modifies this
      ensures S() == Perform(old(S()), a) && Valid(S())
      decreases a, 0
    {
      PerformSafe(S(), a);
      hide Valid, Kept, RunAll, Close, SetTable, StopReading, Scope, Wrap, Fits;
      match a
      case Accept(c, place, code) => AcceptConnection(c, place, code);
      case Read(c, place, code) => ReadConnection(c, place, code);
      case ArmedRead(c, code) => ReadArmed(c, code);
      case Drop(c, code) => CloseConnection(c, code);
      case CloseHandle(h, code) => var _ := CloseByHandle(h, code);
      case SetEvents(h, sizeOk, onReadCb, onCloseCb, connected, rc) =>
        var _ := SetClientEvents(h, sizeOk, onReadCb, onCloseCb, connected, rc);
      case ReadStop(h) => var _ := StopClientReading(h);
      case SetServerEvents(sizeOk, onConnectionCb, onReadCb) =>
        SetServerTable(sizeOk, onConnectionCb, onReadCb);
    }

    /** uvcpp_c_tcp_server_set_events (627-688). */
    method SetServerTable(sizeOk: bool, onConnectionCb: bool, onReadCb: bool)
      modifies this`onConnection, this`onRead
      ensures S() == Perform(old(S()), SetServerEvents(sizeOk, onConnectionCb, onReadCb))
    {
      onConnection, onRead := false, false;
      if !sizeOk { return; }
      onConnection, onRead := onConnectionCb, onReadCb;
    }

    method RunCode(acts: seq<Act>)
      requires Valid(S())
      modifies this
      ensures S() == RunAll(old(S()), acts) && Valid(S())
      decreases acts, 0
    {
      hide Valid, Perform;
      var i := 0;
      while i < |acts|
        invariant 0 <= i <= |acts| && Valid(S())
        invariant RunAll(S(), acts[i..]) == RunAll(old(S()), acts)
      {
        assert acts[i..][1..] == acts[i + 1..];
        PerformAct(acts[i]);
        i := i + 1;
      }
    }

    /** uvcpp_c_tcp_server_free (600-625); `order` is the order in which the live
        table happens to be walked. */
    method Free(script: seq<Act>) returns (code: Code, ghost order: seq<Conn>)
      requires Valid(S())
      modifies this
      ensures (S(), code) == ServerFree(old(S()), script, order)
      ensures code == Ok ==> NoDup(order) && forall c :: c in order <==> c in RunAll(old(S()), script).live
    {
      hide Valid, RunAll, Sweep, Exhume, Walked, NoDup;
      if cbDepth > 0 { return WrongState, []; }
      code := Ok;
      RunCode(script);
      order := SweepLiveTable();
      live := map[];
      EmptyGraveyard();
    }

    /** The fallback over the graveyard (620-621). */
    method EmptyGraveyard()
      modifies this`memory, this`book, this`graveyard
      ensures S() == Exhume(old(S()), old(graveyard)).(graveyard := [])
    {
      var i := 0;
      while i < |graveyard|
        invariant 0 <= i <= |graveyard| && graveyard == old(graveyard)
        invariant Exhume(S(), graveyard[i..]) == Exhume(old(S()), graveyard)
      {
        ghost var s := S();
        memory, book := memory - {graveyard[i]}, Delete(book, graveyard[i]);
        assert graveyard[i..][1..] == graveyard[i + 1..];
        assert S() == Destroy(s, graveyard[i]);
        i := i + 1;
      }
      graveyard := [];
    }

    method DestroyLive(w: Addr)
      modifies this`memory, this`registry, this`book
      ensures S() == Destroy(old(S()).(registry := old(S()).registry - {w}), w)
    {
      registry := registry - {w};
      memory, book := memory - {w}, Delete(book, w);
    }

    /** The fallback over the live table (615-619). */
    method SweepLiveTable() returns (ghost order: seq<Conn>)
      modifies this`memory, this`registry, this`book
      ensures S() == Sweep(old(S()), Walked(live, order))
      ensures NoDup(order) && forall c :: c in order <==> c in live
    {
      order := [];
      var todo := live.Keys;
      assert S() == Sweep(S(), Walked(live, []));
      hide Sweep, Walked, Destroy;
      while todo != {}
        invariant forall c :: c in live <==> c in todo || c in order
        invariant NoDup(order) && forall c :: c in order ==> c !in todo
        invariant S() == Sweep(old(S()), Walked(live, order))
        decreases todo
      {
        var c :| c in todo;
        WalkedSnoc(live, order, c);
        SweepSnoc(old(S()), Walked(live, order), live[c]);
        DestroyLive(live[c]);
        todo := todo - {c};
        order := order + [c];
      }
    }
  }

  lemma {:induction false} WalkedSnoc(live: map<Conn, Addr>, order: seq<Conn>, c: Conn)
    requires c in live
    ensures Walked(live, order + [c]) == Walked(live, order) + [live[c]]
    decreases |order|
  {
    if order == [] {
      assert [c][1..] == [];
    } else {
      assert (order + [c])[1..] == order[1..] + [c];
      WalkedSnoc(live, order[1..], c);
    }
  }

  lemma {:induction false} SweepSnoc(s: State, victims: seq<Addr>, w: Addr)
    ensures Sweep(s, victims + [w]) == Sweep(Sweep(s, victims), [w])
    ensures var t := Sweep(s, victims); Sweep(t, [w]) == Destroy(t.(registry := t.registry - {w}), w)
    decreases |victims|
  {
    var t := Sweep(s, victims);
    assert Sweep(t, [w]) == Sweep(Destroy(t.(registry := t.registry - {w}), w), []);
    if victims == [] {
      assert victims + [w] == [w];
    } else {
      assert (victims + [w])[1..] == victims[1..] + [w];
      SweepSnoc(Destroy(s.(registry := s.registry - {victims[0]}), victims[0]), victims[1..], w);
    }
  }

  lemma StackTop(s: State, w: Addr, t: State)
    requires w in s.memory && Kept(Enter(s, w), t) && Valid(t)
    ensures Sound(t) && t.stack != [] && t.stack[|t.stack| - 1] == w
    ensures w in t.memory && t.memory[w].cbDepth > 0 && t.cbDepth > 0
  {
    PopFrames(t.cbDepth, t.stack, t.memory, w);
  }

  /** Whatever the framework captured is allocated. */
  lemma SlotsAllocated(s: State)
    requires Valid(s)
    ensures forall c :: c in s.closeSlots ==> s.closeSlots[c] in s.memory
    ensures forall c :: c in s.readSlots ==> s.readSlots[c] in s.memory
    ensures forall c :: c in s.observers ==> s.observers[c] in s.memory
  {
  }
}
