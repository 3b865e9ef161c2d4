/** The h2 connection handle of src/capi/uvcpp_c_http2.cpp with its slots in place,
    and the queues of the C++ connection under it; each method is proved to do what
    its specification function in H2Completions says. */
module H2Connection {
  import opened Base
  import opened Ledger
  import opened H2Completions

  class Connection {
    var registered: bool
    var heap: map<Addr, nat>
    // the C++ side
    var queued: seq<Chunk>
    var completed: seq<Chunk>
    var inDones: bool
    // local to run_completed and to conn_free
    var batch: seq<Chunk>
    var cancelled: seq<Chunk>
    // history
    var made: nat
    ghost var running: seq<Addr>
    ghost var accepted: set<nat>
    ghost var bound: map<nat, int>
    ghost var runs: seq<Ran>
    ghost var lost: set<Addr>
    ghost var dropped: set<Addr>
    ghost var book: Book

    ghost function S(): State
      reads this
    {
      State(registered, heap, queued, completed, batch, cancelled, inDones, running, made, accepted, bound, runs, lost, dropped, book)
    }

    constructor ()
      ensures S() == FRESH && Valid(S())
    {
      registered, heap, queued, completed, inDones, batch, cancelled, made := true, map[], [], [], false, [], [], 0;
      running, accepted, bound, runs, lost, dropped, book := [], {}, map[], [], {}, {}, EMPTY;
      new;
      FreshValid();
    }

    /** uvcpp_c_h2_conn_send_data (465-497).  A throw leaves by the catch at its end,
        past the line that would free the slot. */
    method Send(stream: nat, done: bool, place: Option<Addr>, answer: Answer) returns (code: Code)
      modifies this
      ensures (S(), code) == SendData(old(S()), stream, done, place, answer)
    {
      hide NewSlot, DeleteSlot, Enqueue;
      if !registered { return Stale; }
      if done {
        if place.None? { return NoMemory; }
        AllocateSlot(place.value);
      }
      match answer
      case Throw =>
        if done { lost := lost + {place.value}; }
        return Exception;
      case Keep(throws) =>
        KeepChunk(Chunk(stream, if done then Some(place.value) else None, None));
        return if throws then Exception else Ok;
      case Refuse(rc) =>
        if done { FreeSlot(place.value); }
        return Engine(rc);
    }

    method AllocateSlot(slot: Addr)
      modifies this`heap, this`made, this`book
      ensures S() == NewSlot(old(S()), slot) && made == old(made) + 1
    {
      heap, made, book := heap[slot := made], made + 1, Make(book, slot);
    }

    method FreeSlot(slot: Addr)
      modifies this`heap, this`book
      ensures S() == DeleteSlot(old(S()), slot)
    {
      heap, book := heap - {slot}, Delete(book, slot);
    }

    method KeepChunk(c: Chunk)
      requires c.slot.Some? ==> made > 0
      modifies this`queued, this`accepted
      ensures S() == old(S()).(queued := Enqueue(old(queued), c),
                               accepted := if c.slot.Some? then old(accepted) + {made - 1} else old(accepted))
    {
      EnqueueChunk(c);
      if c.slot.Some? { accepted := accepted + {made - 1}; }
    }

    /** The chunk goes to the end of its stream's queue. */
    method EnqueueChunk(c: Chunk)
      modifies this`queued
      ensures queued == Enqueue(old(queued), c)
    {
      var p := 0;
      while p < |queued| && queued[p].stream <= c.stream
        invariant 0 <= p <= |queued|
        invariant PlaceFor(queued, c.stream) == p + PlaceFor(queued[p..], c.stream)
      {
        assert queued[p..][1..] == queued[p + 1..];
        p := p + 1;
      }
      queued := queued[..p] + [c] + queued[p..];
    }

    /** retire_chunk (280-289 of uvcpp_h2_session.cpp). */
    method RetireOne(i: nat, status: int)
      modifies this`queued, this`completed, this`bound
      ensures S() == RetireChunk(old(S()), i, status)
    {
      if i >= |queued| { return; }
      var c := queued[i];
      bound := if Holds(S(), c) then bound[heap[c.slot.value] := status] else bound;
      queued := queued[..i] + queued[i + 1..];
      completed := completed + [c.(status := Some(status))];
    }

    /** The lambda of send_data (483-487): the user's `done`, then the slot is deleted. */
    method Run(c: Chunk, codes: seq<Body>)
      requires Ready(S(), c)
      modifies this
      ensures S() == Finish(old(S()), c, codes)
      decreases codes, 1
    {
      hide Ready, Valid, RunAll, Kept, Left, Started, Settle;
      if c.slot.None? { return; }
      StartValid(S(), c);
      ghost var s := S();
      Begin(c);
      InsideSafe(s, c, codes);
      if codes != [] { RunCode(codes[0].acts); }
      StillRunning(Started(s, c), S());
      End(c.slot.value);
    }

    method Begin(c: Chunk)
      requires Holds(S(), c)
      modifies this`runs, this`running
      ensures S() == Started(old(S()), c) && running == old(running) + [c.slot.value]
    {
      runs := runs + [Ran(heap[c.slot.value], Status(c), registered)];
      running := running + [c.slot.value];
    }

    method End(slot: Addr)
      requires running != []
      modifies this`running, this`heap, this`book
      ensures S() == Settle(old(S()), slot)
    {
      hide DeleteSlot;
      running := running[..|running| - 1];
      FreeSlot(slot);
    }

    /** run_completed (402-425 of uvcpp_h2_connection.cpp): once the connection is gone
        the rest of the batch goes with the loop's local variable. */
    method RunBatchOfDones(codes: seq<Body>)
      requires Valid(S())
      modifies this
      ensures S() == RunCompleted(old(S()), codes)
      decreases codes, 3
    {
      hide Valid, Ready, Finish, Past, Left;
      if !registered || inDones { return; }
      TakeBatch(S());
      batch, completed, inDones := completed, [], true;
      ghost var s := S();
      var rest := codes;
      while batch != []
        invariant Valid(S()) && (registered ==> inDones)
        invariant |rest| <= |codes| && rest == codes[|codes| - |rest|..]
        invariant Drain(S(), batch, rest) == Drain(s, s.batch, codes)
        decreases |batch|
      {
        if !registered { break; }
        TakeFirst(S());
        var first := batch[0];
        batch := batch[1..];
        FinishSafe(S(), first, rest);
        ghost var b := S();
        assert codes[0..] == codes;
        Run(first, rest);
        LeftParts(b, S());
        rest := Tail(rest);
      }
      if registered {
        inDones := false;
      } else {
        dropped := dropped + Addrs(batch);
        batch := [];
      }
    }

    /** uvcpp_c_h2_conn_free (287-319): unregister first, take everything out, then run
        it. */
    method Close(codes: seq<Body>) returns (rc: Code)
      requires Valid(S())
      modifies this
      ensures S() == FreeConn(old(S()), codes) && (rc == Ok <==> old(registered))
      decreases codes, 3
    {
      hide Valid, Ready, Finish, Past, Left;
      if !registered { return Stale; }
      TakeAll(S());
      registered := false;
      queued, completed, cancelled := [], [], completed + queued;
      ghost var s := S();
      var rest := codes;
      while cancelled != []
        invariant Valid(S()) && !registered
        invariant |rest| <= |codes| && rest == codes[|codes| - |rest|..]
        invariant FinishAll(S(), cancelled, rest) == FinishAll(s, s.cancelled, codes)
        decreases |cancelled|
      {
        TakeNext(S());
        var first := cancelled[0];
        cancelled := cancelled[1..];
        FinishSafe(S(), first, rest);
        ghost var b := S();
        assert codes[0..] == codes;
        Run(first, rest);
        LeftParts(b, S());
        rest := Tail(rest);
      }
      return Ok;
    }

    method PerformAct(a: Act)
      requires Valid(S())
      modifies this
      ensures S() == Perform(old(S()), a) && Valid(S())
      decreases a, 0
    {
      PerformSafe(S(), a);
      hide Valid, SendData, FreeConn, RunCompleted, RetireChunk;
      match a
      case Send(stream, done, place, answer) =>
        if place.Some? && place.value in heap { return; }
        var _ := Send(stream, done, place, answer);
      case Retire(i, status) => RetireOne(i, status);
      case RunBatch(codes) => RunBatchOfDones(codes);
      case Free(codes) => var _ := Close(codes);
    }

    method RunCode(acts: seq<Act>)
      requires Valid(S())
      modifies this
      ensures S() == RunAll(old(S()), acts) && Valid(S())
      decreases acts, 0
    {
      hide Valid, Perform;
      var i := 0;
      while i < |acts|
        invariant 0 <= i <= |acts| && Valid(S())
        invariant RunAll(S(), acts[i..]) == RunAll(old(S()), acts)
      {
        assert acts[i..][1..] == acts[i + 1..];
        PerformAct(acts[i]);
        i := i + 1;
      }
    }
  }

  lemma StillRunning(s: State, t: State)
    requires Kept(s, t)
    ensures t.running == s.running
  {
  }
}
