/** Completion slots of src/capi/uvcpp_c_http2.cpp: send_data keeps the user's `done`
    on the heap and promises that it runs exactly once if the chunk was taken.
    Sends are numbered; user code is a tree of acts, as in TcpReaper.  Of the C++
    connection and session (src/http2) the model has what decides about a `done`:
    the queues it passes through and the loop that runs it. */
module H2Completions {
  import opened Base
  import opened Ledger

  /** What becomes of a chunk in uvcpp_h2_connection::send_data (379-400 of
      uvcpp_h2_connection.cpp): refused, with a code that is not 0; lost to an
      exception before the session has it; or kept, after which the flush may still
      throw. */
  datatype Answer = Refuse(rc: int) | Throw | Keep(throws: bool)

  datatype Act =
    | Send(stream: nat, done: bool, place: Option<Addr>, answer: Answer)  // uvcpp_c_h2_conn_send_data
    | Retire(i: nat, status: int)   // the session is done with a chunk (280-289 of uvcpp_h2_session.cpp)
    | RunBatch(codes: seq<Body>)    // one round of run_completed (402-425 of uvcpp_h2_connection.cpp)
    | Free(codes: seq<Body>)        // uvcpp_c_h2_conn_free

  /** The code in one `done`. */
  datatype Body = Body(acts: seq<Act>)

  /** A chunk with its `done`'s slot, if it has one, and the status bound to it, once
      the session has bound one. */
  datatype Chunk = Chunk(stream: nat, slot: Option<Addr>, status: Option<int>)

  /** A run of a user's `done`: of which send, with what status, and whether the
      connection's handle was registered then. */
  datatype Ran = Ran(n: nat, status: int, registered: bool)

  const UV_ECANCELED: int := -125

  datatype State = State(
    registered: bool,
    heap: map<Addr, nat>,      // DoneSlots: the send each is for
    queued: seq<Chunk>,        // what the session has yet to send, stream by stream
    completed: seq<Chunk>,     // what it is done with
    batch: seq<Chunk>,         // what run_completed has taken and not yet run
    cancelled: seq<Chunk>,     // what conn_free has taken and not yet run
    inDones: bool,
    running: seq<Addr>,        // slots whose `done` is running
    // history: sends, those kept, the statuses that the session bound, the runs, and
    // the slots left behind by a throw or by a batch
    made: nat, accepted: set<nat>, bound: map<nat, int>, runs: seq<Ran>, lost: set<Addr>, dropped: set<Addr>, book: Book)

  const FRESH := State(true, map[], [], [], [], [], false, [], 0, {}, map[], [], {}, {}, EMPTY)

  // ------------------------------------------------------------------- the acts

  /** Chunks leave stream by stream (1478-1490 of uvcpp_h2_session.cpp), and within
      a stream in the order in which they came. */
  function PlaceFor(queued: seq<Chunk>, stream: nat): (p: nat)
    ensures p <= |queued|
  {
    if queued == [] || queued[0].stream > stream then 0 else 1 + PlaceFor(queued[1..], stream)
  }

  function Enqueue(queued: seq<Chunk>, c: Chunk): seq<Chunk> {
    var p := PlaceFor(queued, c.stream);
    queued[..p] + [c] + queued[p..]
  }

  /** uvcpp_c_h2_conn_send_data (465-497), past its checks on arguments.  An exception
      leaves by the catch at its end, past the line that would free the slot. */
  function SendData(s: State, stream: nat, done: bool, place: Option<Addr>, answer: Answer): (State, Code) {
    if !s.registered then (s, Stale)
    else if done && place.None? then (s, NoMemory)
    else
      var t := if done then NewSlot(s, place.value) else s;
      match answer
      case Throw => (if done then t.(lost := t.lost + {place.value}) else t, Exception)
      case Refuse(rc) => (if done then DeleteSlot(t, place.value) else t, Engine(rc))
      case Keep(throws) =>
        (t.(queued := Enqueue(t.queued, Chunk(stream, if done then Some(place.value) else None, None)),
            accepted := if done then t.accepted + {s.made} else t.accepted),
         if throws then Exception else Ok)
  }

  function NewSlot(s: State, slot: Addr): State {
    s.(heap := s.heap[slot := s.made], made := s.made + 1, book := Make(s.book, slot))
  }

  function DeleteSlot(s: State, slot: Addr): State {
    s.(heap := s.heap - {slot}, book := Delete(s.book, slot))
  }

  predicate Holds(s: State, c: Chunk) { c.slot.Some? && c.slot.value in s.heap }

  /** A chunk that the session has not bound a status to is cancelled
      (uvcpp_h2_session.cpp 1478-1490). */
  function Status(c: Chunk): int { if c.status.Some? then c.status.value else UV_ECANCELED }

  /** retire_chunk (280-289): the status is bound, the `done` still to run. */
  function RetireChunk(s: State, i: nat, status: int): State {
    if i >= |s.queued| then s
    else
      var c := s.queued[i];
      s.(queued := s.queued[..i] + s.queued[i + 1..], completed := s.completed + [c.(status := Some(status))],
         bound := if Holds(s, c) then s.bound[s.heap[c.slot.value] := status] else s.bound)
  }

  function Tail(codes: seq<Body>): seq<Body> { if codes == [] then [] else codes[1..] }

  /** The lambda of send_data (483-487): the user's `done`, whose code is the first,
      then the slot goes. */
  function Finish(s: State, c: Chunk, codes: seq<Body>): State
    decreases codes, 1
  {
    if !Holds(s, c) then s
    else Settle(if codes == [] then Started(s, c) else RunAll(Started(s, c), codes[0].acts), c.slot.value)
  }

  function Started(s: State, c: Chunk): State
    requires Holds(s, c)
  {
    s.(runs := s.runs + [Ran(s.heap[c.slot.value], Status(c), s.registered)], running := s.running + [c.slot.value])
  }

  function Settle(s: State, slot: Addr): State {
    if s.running == [] then s else DeleteSlot(s.(running := s.running[..|s.running| - 1]), slot)
  }

  /** The loop of run_completed.  After each `done` it asks whether the connection is
      still there (419); if not, it returns with the rest of its batch not run. */
  function Drain(s: State, dones: seq<Chunk>, codes: seq<Body>): State
    decreases codes, 2, |dones|
  {
    if !s.registered then s.(batch := [], dropped := s.dropped + Addrs(dones))
    else if dones == [] then s.(batch := [], inDones := false)
    else Drain(Finish(s.(batch := dones[1..]), dones[0], codes), dones[1..], Tail(codes))
  }

  function RunCompleted(s: State, codes: seq<Body>): State
    decreases codes, 3
  {
    if !s.registered || s.inDones then s
    else Drain(s.(completed := [], batch := s.completed, inDones := true), s.completed, codes)
  }

  /** The ones taken out, one after the other (315). */
  function FinishAll(s: State, chunks: seq<Chunk>, codes: seq<Body>): State
    decreases codes, 2, |chunks|
  {
    if chunks == [] then s
    else FinishAll(Finish(s.(cancelled := chunks[1..]), chunks[0], codes), chunks[1..], Tail(codes))
  }

  /** uvcpp_c_h2_conn_free (287-319) with take_cancelled_dones (467-477 of
      uvcpp_h2_connection.cpp): those completed come first. */
  function FreeConn(s: State, codes: seq<Body>): State
    decreases codes, 3
  {
    if !s.registered then s else FinishAll(Taken(s), s.completed + s.queued, codes)
  }

  function Taken(s: State): State {
    s.(registered := false, queued := [], completed := [], cancelled := s.completed + s.queued)
  }

  function Perform(s: State, a: Act): State
    decreases a, 0
  {
    match a
    case Send(stream, done, place, answer) =>
      if place.Some? && place.value in s.heap then s else SendData(s, stream, done, place, answer).0
    case Retire(i, status) => RetireChunk(s, i, status)
    case RunBatch(codes) => RunCompleted(s, codes)
    case Free(codes) => FreeConn(s, codes)
  }

  function RunAll(s: State, acts: seq<Act>): State
    decreases acts, 0
  {
    if acts == [] then s else RunAll(Perform(s, acts[0]), acts[1..])
  }

  // ----------------------------------------------------------------- invariants

  function One(c: Chunk): multiset<Addr> { if c.slot.Some? then multiset{c.slot.value} else multiset{} }

  /** The slots of some chunks. */
  function Held(chunks: seq<Chunk>): multiset<Addr> {
    if chunks == [] then multiset{} else One(chunks[0]) + Held(chunks[1..])
  }

  function Addrs(chunks: seq<Chunk>): set<Addr> { set a | a in Held(chunks) }

  /** Slots that still wait for their `done` to run. */
  ghost function Owned(s: State): multiset<Addr> {
    Held(s.queued) + Held(s.completed) + Held(s.batch) + Held(s.cancelled)
  }

  /** Each slot on the heap waits in one queue, once, or its `done` is running, or it
      was left behind; and no two are for the same send. */
  ghost predicate Parts(heap: map<Addr, nat>, owned: multiset<Addr>, running: seq<Addr>, lost: set<Addr>, dropped: set<Addr>) {
    && multiset(heap.Keys) == owned + multiset(running) + multiset(lost) + multiset(dropped)
    && (forall a, b :: a in heap && b in heap && heap[a] == heap[b] ==> a == b)
  }

  ghost predicate HasRun(runs: seq<Ran>, n: nat) {
    exists i :: 0 <= i < |runs| && runs[i].n == n
  }

  ghost predicate Waits(heap: map<Addr, nat>, due: multiset<Addr>, n: nat) {
    exists a :: a in due && a in heap && heap[a] == n
  }

  /** A send that was kept has run or is due, one of the two; no other runs; none
      runs twice. */
  ghost predicate Ledgered(heap: map<Addr, nat>, due: multiset<Addr>, made: nat, accepted: set<nat>, runs: seq<Ran>) {
    && (forall i, j :: 0 <= i < j < |runs| ==> runs[i].n != runs[j].n)
    && (forall n :: n in accepted <==> HasRun(runs, n) || Waits(heap, due, n))
    && (forall n :: Waits(heap, due, n) ==> !HasRun(runs, n))
    && (forall n :: n in accepted ==> n < made)
    && (forall a :: a in heap ==> heap[a] < made)
  }

  ghost predicate Core(s: State, owned: multiset<Addr>) {
    && Parts(s.heap, owned, s.running, s.lost, s.dropped)
    && Ledgered(s.heap, owned + multiset(s.dropped), s.made, s.accepted, s.runs)
    && Exact(s.book, s.heap.Keys)
  }

  /** The status a `done` is told: what the session bound, or else that it was
      cancelled. */
  function Told(bound: map<nat, int>, n: nat): int { if n in bound then bound[n] else UV_ECANCELED }

  ghost predicate Open(chunks: seq<Chunk>, heap: map<Addr, nat>, bound: map<nat, int>) {
    forall c :: c in chunks && c.slot.Some? ==> c.status.None? && c.slot.value in heap && heap[c.slot.value] !in bound
  }

  ghost predicate Bound(chunks: seq<Chunk>, heap: map<Addr, nat>, bound: map<nat, int>) {
    forall c :: c in chunks && c.slot.Some? ==>
      c.slot.value in heap && heap[c.slot.value] in bound && c.status == Some(bound[heap[c.slot.value]])
  }

  ghost predicate WillTell(chunks: seq<Chunk>, heap: map<Addr, nat>, bound: map<nat, int>) {
    forall c :: c in chunks && c.slot.Some? ==> c.slot.value in heap && Status(c) == Told(bound, heap[c.slot.value])
  }

  ghost predicate Truthful(runs: seq<Ran>, bound: map<nat, int>) {
    forall i :: 0 <= i < |runs| ==> runs[i].status == Told(bound, runs[i].n) && (runs[i].n !in bound ==> !runs[i].registered)
  }

  ghost predicate Statuses(s: State) {
    && Open(s.queued, s.heap, s.bound)
    && Bound(s.completed, s.heap, s.bound) && Bound(s.batch, s.heap, s.bound)
    && WillTell(s.cancelled, s.heap, s.bound)
    && Truthful(s.runs, s.bound)
    && (forall n :: n in s.bound ==> n < s.made)
  }

  /** Stream by stream, and each stream's chunks as they came. */
  ghost predicate InOrder(queued: seq<Chunk>, heap: map<Addr, nat>) {
    forall i, j :: 0 <= i < j < |queued| ==> Before(queued[i], queued[j], heap)
  }

  ghost predicate Before(c: Chunk, d: Chunk, heap: map<Addr, nat>) {
    && c.stream <= d.stream
    && (c.stream == d.stream && c.slot.Some? && d.slot.Some? ==>
          c.slot.value in heap && d.slot.value in heap && heap[c.slot.value] < heap[d.slot.value])
  }

  ghost predicate Shape(s: State) {
    && (!s.registered ==> s.queued == [] && s.completed == [])
    && (s.registered ==> s.cancelled == [])
    && (!s.inDones ==> s.batch == [])
  }

  ghost predicate Valid(s: State) {
    Core(s, Owned(s)) && Statuses(s) && InOrder(s.queued, s.heap) && Shape(s)
  }

  /** Nothing that happened is undone, and the slots under way stay under way. */
  ghost predicate Past(s: State, t: State) {
    && t.running == s.running && (t.registered ==> s.registered)
    && s.runs <= t.runs && s.accepted <= t.accepted && s.made <= t.made && s.lost <= t.lost && s.dropped <= t.dropped
    && (forall n :: n in s.bound ==> n in t.bound && t.bound[n] == s.bound[n])
    && Follows(t.book, s.book)
  }

  ghost predicate Left(s: State, t: State) {
    Past(s, t) && t.cancelled == s.cancelled && t.batch == s.batch && (t.registered ==> t.inDones == s.inDones)
  }

  /** What user code leaves alone; with a freed connection it can do nothing. */
  ghost predicate Kept(s: State, t: State) {
    Left(s, t) && (!s.registered ==> t == s)
  }

  lemma KeptTrans(s: State, t: State, u: State)
    requires Kept(s, t) && Kept(t, u)
    ensures Kept(s, u)
  {
  }

  lemma KeptRefl(s: State)
    ensures Kept(s, s)
  {
  }

  lemma PastTrans(s: State, t: State, u: State)
    requires Past(s, t) && Past(t, u)
    ensures Past(s, u)
  {
  }

  // --------------------------------------------------------------- the slots held

  lemma {:induction false} HeldConcat(x: seq<Chunk>, y: seq<Chunk>)
    ensures Held(x + y) == Held(x) + Held(y)
  {
    hide One;
    if x == [] {
      assert x + y == y;
    } else {
      var rest := x[1..];
      HeldConcat(rest, y);
      assert (x + y)[1..] == rest + y;
      assert Held(x + y) == One(x[0]) + Held(rest + y);
      Associates(One(x[0]), Held(rest), Held(y));
    }
  }

  lemma Associates<T>(a: multiset<T>, b: multiset<T>, c: multiset<T>)
    ensures a + (b + c) == a + b + c
  {
  }

  lemma HeldOne(c: Chunk)
    ensures Held([c]) == One(c)
  {
    assert [c][1..] == [];
  }

  lemma HeldMid(x: seq<Chunk>, c: Chunk, y: seq<Chunk>)
    ensures Held(x + [c] + y) == Held(x + y) + One(c)
  {
    HeldConcat(x + [c], y);
    HeldConcat(x, [c]);
    HeldConcat(x, y);
    HeldOne(c);
  }

  lemma HeldCons(chunks: seq<Chunk>)
    requires chunks != []
    ensures Held(chunks) == One(chunks[0]) + Held(chunks[1..])
  {
  }

  lemma {:induction false} HeldIn(chunks: seq<Chunk>, c: Chunk)
    requires c in chunks && c.slot.Some?
    ensures c.slot.value in Held(chunks)
  {
    if chunks[0] != c {
      assert c in chunks[1..];
      HeldIn(chunks[1..], c);
    }
  }

  /** The slots of these chunks stand for the same sends in both heaps. */
  ghost predicate Framed(chunks: seq<Chunk>, heap: map<Addr, nat>, after: map<Addr, nat>) {
    forall c :: c in chunks && c.slot.Some? && c.slot.value in heap ==>
      c.slot.value in after && after[c.slot.value] == heap[c.slot.value]
  }

  lemma FramedBySlots(chunks: seq<Chunk>, heap: map<Addr, nat>, slot: Addr, n: nat)
    requires slot !in Held(chunks)
    ensures Framed(chunks, heap, heap - {slot}) && Framed(chunks, heap, heap[slot := n])
  {
    forall c | c in chunks && c.slot.Some? ensures c.slot.value != slot { HeldIn(chunks, c); }
  }

  lemma StatusesFramed(s: State, t: State)
    requires Statuses(s) && InOrder(s.queued, s.heap)
    requires t.queued == s.queued && t.completed == s.completed && t.batch == s.batch && t.cancelled == s.cancelled
    requires t.runs == s.runs && t.bound == s.bound && s.made <= t.made
    requires Framed(s.queued, s.heap, t.heap) && Framed(s.completed, s.heap, t.heap)
    requires Framed(s.batch, s.heap, t.heap) && Framed(s.cancelled, s.heap, t.heap)
    ensures Statuses(t) && InOrder(t.queued, t.heap)
  {
    assert Statuses(t);
    hide Statuses;
    forall i, j | 0 <= i < j < |s.queued| ensures Before(s.queued[i], s.queued[j], t.heap) {
      assert s.queued[i] in s.queued && s.queued[j] in s.queued && Before(s.queued[i], s.queued[j], s.heap);
    }
  }

  /** A slot that no queue holds may come or go. */
  lemma StatusesAside(s: State, t: State, slot: Addr, n: nat)
    requires Statuses(s) && InOrder(s.queued, s.heap) && slot !in Owned(s)
    requires t.queued == s.queued && t.completed == s.completed && t.batch == s.batch && t.cancelled == s.cancelled
    requires t.runs == s.runs && t.bound == s.bound && s.made <= t.made
    requires t.heap == s.heap - {slot} || t.heap == s.heap[slot := n]
    ensures Statuses(t) && InOrder(t.queued, t.heap)
  {
    FramedBySlots(s.queued, s.heap, slot, n);
    FramedBySlots(s.completed, s.heap, slot, n);
    FramedBySlots(s.batch, s.heap, slot, n);
    FramedBySlots(s.cancelled, s.heap, slot, n);
    StatusesFramed(s, t);
  }

  // ------------------------------------------------ what each operation keeps, by part

  lemma PartsNew(heap: map<Addr, nat>, owned: multiset<Addr>, running: seq<Addr>, lost: set<Addr>, dropped: set<Addr>, slot: Addr, n: nat)
    requires Parts(heap, owned, running, lost, dropped) && slot !in heap && forall a :: a in heap ==> heap[a] != n
    ensures var h := heap[slot := n];
            Parts(h, owned + multiset{slot}, running, lost, dropped) && Parts(h, owned, running, lost + {slot}, dropped)
    ensures slot !in owned && slot !in dropped && slot !in lost
  {
    assert slot !in multiset(heap.Keys);
    assert heap[slot := n].Keys == heap.Keys + {slot};
    assert multiset(heap.Keys + {slot}) == multiset(heap.Keys) + multiset{slot};
    assert multiset(lost + {slot}) == multiset(lost) + multiset{slot};
  }

  lemma PartsStart(heap: map<Addr, nat>, owned: multiset<Addr>, running: seq<Addr>, lost: set<Addr>, dropped: set<Addr>, slot: Addr)
    requires Parts(heap, owned + multiset{slot}, running, lost, dropped)
    ensures slot in heap && Parts(heap, owned, running + [slot], lost, dropped)
  {
    assert slot in multiset(heap.Keys);
    assert multiset(running + [slot]) == multiset(running) + multiset{slot};
  }

  lemma PartsSettle(heap: map<Addr, nat>, owned: multiset<Addr>, running: seq<Addr>, lost: set<Addr>, dropped: set<Addr>)
    requires Parts(heap, owned, running, lost, dropped) && running != []
    ensures var slot := running[|running| - 1];
            slot in heap && slot !in owned && slot !in dropped && Parts(heap - {slot}, owned, running[..|running| - 1], lost, dropped)
  {
    var slot, below := running[|running| - 1], running[..|running| - 1];
    assert running == below + [slot];
    assert multiset(running) == multiset(below) + multiset{slot};
    var rest := owned + multiset(below) + multiset(lost) + multiset(dropped);
    assert multiset(heap.Keys) == rest + multiset{slot};
    assert multiset(heap.Keys)[slot] <= 1;
    assert rest[slot] == 0 && slot in multiset(heap.Keys);
    assert (heap - {slot}).Keys == heap.Keys - {slot};
    forall a ensures multiset(heap.Keys - {slot})[a] == rest[a] {
      assert multiset(heap.Keys)[a] == (rest + multiset{slot})[a];
    }
    assert multiset(heap.Keys - {slot}) == rest;
  }

  lemma PartsDrop(heap: map<Addr, nat>, owned: multiset<Addr>, running: seq<Addr>, lost: set<Addr>, dropped: set<Addr>, h: multiset<Addr>)
    requires Parts(heap, owned + h, running, lost, dropped)
    ensures var more := set a | a in h;
            && Parts(heap, owned, running, lost, dropped + more)
            && multiset(dropped + more) == multiset(dropped) + h
            && multiset(more) == h && dropped !! more
  {
    var more := set a | a in h;
    forall a ensures h[a] + multiset(dropped)[a] <= 1 {
      assert multiset(heap.Keys)[a] <= 1;
    }
    assert multiset(more) == h;
    assert dropped !! more;
    assert multiset(dropped + more) == multiset(dropped) + h;
    assert owned + multiset(running) + multiset(lost) + multiset(dropped + more) == owned + h + multiset(running) + multiset(lost) + multiset(dropped);
  }

  lemma LedgeredNew(heap: map<Addr, nat>, due: multiset<Addr>, made: nat, accepted: set<nat>, runs: seq<Ran>, slot: Addr)
    requires Ledgered(heap, due, made, accepted, runs) && slot !in heap && slot !in due
    ensures var h := heap[slot := made];
            && Ledgered(h, due + multiset{slot}, made + 1, accepted + {made}, runs)
            && Ledgered(h, due, made + 1, accepted, runs)
            && Ledgered(heap, due, made + 1, accepted, runs)
  {
    var h := heap[slot := made];
    assert made !in accepted;
    forall n ensures Waits(h, due, n) <==> Waits(heap, due, n) {
      if Waits(heap, due, n) { var a :| a in due && a in heap && heap[a] == n; assert h[a] == n; }
    }
    forall n ensures Waits(h, due + multiset{slot}, n) <==> Waits(heap, due, n) || n == made {
      if Waits(heap, due, n) { var a :| a in due && a in heap && heap[a] == n; assert a in due + multiset{slot} && h[a] == n; }
      if n == made { assert slot in due + multiset{slot} && h[slot] == made; }
    }
  }

  lemma LedgeredStart(heap: map<Addr, nat>, due: multiset<Addr>, made: nat, accepted: set<nat>, runs: seq<Ran>, slot: Addr, r: Ran)
    requires Ledgered(heap, due + multiset{slot}, made, accepted, runs) && slot !in due
    requires forall a, b :: a in heap && b in heap && heap[a] == heap[b] ==> a == b
    requires slot in heap && r.n == heap[slot]
    ensures Ledgered(heap, due, made, accepted, runs + [r])
    ensures !HasRun(runs, r.n)
  {
    var before, after := due + multiset{slot}, runs + [r];
    assert slot in before && Waits(heap, before, r.n);
    forall n ensures HasRun(after, n) <==> HasRun(runs, n) || n == r.n {
      if HasRun(runs, n) { var i :| 0 <= i < |runs| && runs[i].n == n; assert after[i].n == n; }
      if n == r.n { assert after[|runs|].n == n; }
    }
    forall n ensures Waits(heap, due, n) <==> Waits(heap, before, n) && n != r.n {
      if Waits(heap, before, n) && n != r.n {
        var a :| a in before && a in heap && heap[a] == n;
        assert a in due;
      }
      if Waits(heap, due, n) {
        var a :| a in due && a in heap && heap[a] == n;
        assert a in before;
      }
    }
    forall i | 0 <= i < |runs| ensures runs[i].n != r.n {
      assert HasRun(runs, runs[i].n);
    }
  }

  lemma LedgeredSettle(heap: map<Addr, nat>, due: multiset<Addr>, made: nat, accepted: set<nat>, runs: seq<Ran>, slot: Addr)
    requires Ledgered(heap, due, made, accepted, runs) && slot !in due
    ensures Ledgered(heap - {slot}, due, made, accepted, runs)
  {
    forall n ensures Waits(heap - {slot}, due, n) <==> Waits(heap, due, n) {
      if Waits(heap, due, n) {
        var a :| a in due && a in heap && heap[a] == n;
        assert a in heap - {slot};
      }
    }
  }

  // ------------------------------------------------------------------ operations

  lemma {:induction false} PlaceForSplits(queued: seq<Chunk>, heap: map<Addr, nat>, stream: nat)
    requires InOrder(queued, heap)
    ensures forall i :: 0 <= i < |queued| ==> (i < PlaceFor(queued, stream) <==> queued[i].stream <= stream)
  {
    if queued != [] {
      var rest := queued[1..];
      forall i, j | 0 <= i < j < |rest| ensures rest[i] == queued[i + 1] && rest[j] == queued[j + 1] { }
      PlaceForSplits(rest, heap, stream);
      forall i | 0 < i < |queued| ensures queued[i] == rest[i - 1] && queued[0].stream <= queued[i].stream { }
    }
  }

  lemma EnqueueParts(queued: seq<Chunk>, c: Chunk)
    ensures Held(Enqueue(queued, c)) == Held(queued) + One(c)
    ensures forall d :: d in Enqueue(queued, c) <==> d in queued || d == c
  {
    var p := PlaceFor(queued, c.stream);
    HeldMid(queued[..p], c, queued[p..]);
    assert queued == queued[..p] + queued[p..];
    forall d ensures d in queued <==> d in queued[..p] || d in queued[p..] { assert queued == queued[..p] + queued[p..]; }
  }

  lemma EnqueueSize(queued: seq<Chunk>, c: Chunk)
    ensures |Enqueue(queued, c)| == |queued| + 1
  {
  }

  /** A new chunk goes behind those of its stream, all of which are older. */
  lemma EnqueueInOrder(queued: seq<Chunk>, heap: map<Addr, nat>, c: Chunk)
    requires InOrder(queued, heap) && (c.slot.Some? ==> c.slot.value in heap)
    requires forall d :: d in queued && d.slot.Some? ==>
               d.slot.value in heap && (c.slot.Some? ==> heap[d.slot.value] < heap[c.slot.value])
    ensures InOrder(Enqueue(queued, c), heap)
  {
    var p, q := PlaceFor(queued, c.stream), Enqueue(queued, c);
    PlaceForSplits(queued, heap, c.stream);
    hide PlaceFor;
    forall i | 0 <= i < |q| ensures q[i] == if i < p then queued[i] else if i == p then c else queued[i - 1] { }
    hide Enqueue;
    forall i | 0 <= i < |queued| ensures if i < p then Before(queued[i], c, heap) else Before(c, queued[i], heap) {
      assert queued[i] in queued;
    }
    hide Before;
    forall i, j | 0 <= i < j < |q| ensures Before(q[i], q[j], heap) {
      if i == p { assert q[j] == queued[j - 1]; }
    }
  }

  lemma RemoveInOrder(queued: seq<Chunk>, heap: map<Addr, nat>, i: nat)
    requires InOrder(queued, heap) && i < |queued|
    ensures InOrder(queued[..i] + queued[i + 1..], heap)
  {
    var rest := queued[..i] + queued[i + 1..];
    forall j | 0 <= j < |rest| ensures rest[j] == queued[if j < i then j else j + 1] { }
  }

  lemma SendParts(s: State, stream: nat, place: Addr, answer: Answer)
    requires s.registered
    ensures var t := SendData(s, stream, true, Some(place), answer).0; var h := s.heap[place := s.made];
            t == match answer
                 case Throw => s.(heap := h, made := s.made + 1, book := Make(s.book, place), lost := s.lost + {place})
                 case Refuse(_) => s.(heap := h - {place}, made := s.made + 1, book := Delete(Make(s.book, place), place))
                 case Keep(_) => s.(heap := h, made := s.made + 1, book := Make(s.book, place),
                                    queued := Enqueue(s.queued, Chunk(stream, Some(place), None)), accepted := s.accepted + {s.made})
  {
  }

  lemma NewBook(b: Book, heap: map<Addr, nat>, place: Addr, n: nat)
    requires Exact(b, heap.Keys) && place !in heap
    ensures Exact(Make(b, place), heap[place := n].Keys)
    ensures Exact(Delete(Make(b, place), place), heap.Keys)
    ensures heap[place := n] - {place} == heap
    ensures Follows(Make(b, place), b) && Follows(Delete(Make(b, place), place), b)
  {
    MakeExact(b, heap.Keys, place);
    DeleteExact(Make(b, place), heap.Keys + {place}, place);
    assert heap[place := n].Keys == heap.Keys + {place};
    assert heap.Keys + {place} - {place} == heap.Keys;
  }

  lemma AllBelow(s: State, owned: multiset<Addr>)
    requires Core(s, owned)
    ensures forall a :: a in s.heap ==> s.heap[a] < s.made
  {
    hide Parts, Exact;
  }

  /** Only a send that is kept changes what waits; a refused one leaves everything as
      it was but for the number used; one that throws before leaves its slot behind. */
  lemma NewCore(s: State, place: Addr)
    requires Core(s, Owned(s)) && place !in s.heap
    ensures var h := s.heap[place := s.made]; var t := s.(heap := h, made := s.made + 1, book := Make(s.book, place));
            && Core(t.(accepted := s.accepted + {s.made}), Owned(s) + multiset{place})
            && Core(t.(lost := s.lost + {place}), Owned(s))
            && Core(s.(made := s.made + 1, book := Delete(Make(s.book, place), place)), Owned(s))
            && place !in Owned(s)
  {
    hide Exact, Make, Delete, Owned, Parts, Ledgered;
    AllBelow(s, Owned(s));
    PartsNew(s.heap, Owned(s), s.running, s.lost, s.dropped, place, s.made);
    var due := Owned(s) + multiset(s.dropped);
    LedgeredNew(s.heap, due, s.made, s.accepted, s.runs, place);
    assert Owned(s) + multiset{place} + multiset(s.dropped) == due + multiset{place};
    NewBook(s.book, s.heap, place, s.made);
  }

  lemma KeepStatuses(s: State, stream: nat, place: Addr)
    requires Valid(s) && s.registered && place !in s.heap && place !in Owned(s)
    ensures var t := SendData(s, stream, true, Some(place), Keep(false)).0; Statuses(t) && InOrder(t.queued, t.heap)
  {
    hide Core, Exact, Make, Enqueue, SendData, Held;
    var c := Chunk(stream, Some(place), None);
    SendParts(s, stream, place, Keep(false));
    EnqueueParts(s.queued, c);
    var u := s.(heap := s.heap[place := s.made], made := s.made + 1);
    StatusesAside(s, u, place, s.made);
    Older(s);
    EnqueueInOrder(s.queued, u.heap, c);
  }

  lemma Older(s: State)
    requires Valid(s)
    ensures forall a :: a in s.heap ==> s.heap[a] < s.made
  {
  }

  lemma SendDone(s: State, stream: nat, place: Addr, answer: Answer)
    requires Valid(s) && s.registered && place !in s.heap
    ensures var t := SendData(s, stream, true, Some(place), answer).0; Valid(t) && Kept(s, t)
  {
    hide Parts, Ledgered, Exact, Make, Delete, SendData, Enqueue, Held, Statuses, InOrder, Follows;
    SendParts(s, stream, place, answer);
    NewCore(s, place);
    NewBook(s.book, s.heap, place, s.made);
    match answer
    case Keep(throws) =>
      KeepStatuses(s, stream, place);
      SendParts(s, stream, place, Keep(false));
      EnqueueParts(s.queued, Chunk(stream, Some(place), None));
      var t := SendData(s, stream, true, Some(place), answer).0;
      assert Owned(t) == Owned(s) + multiset{place};
    case Refuse(_) =>
      StatusesStay(s, s.(made := s.made + 1, book := Delete(Make(s.book, place), place)));
    case Throw =>
      StatusesAside(s, s.(heap := s.heap[place := s.made], made := s.made + 1, book := Make(s.book, place), lost := s.lost + {place}), place, s.made);
  }

  lemma StatusesStay(s: State, t: State)
    requires Statuses(s) && t == s.(made := t.made, book := t.book) && s.made <= t.made
    ensures Statuses(t)
  {
  }

  lemma SendSafe(s: State, stream: nat, done: bool, place: Option<Addr>, answer: Answer)
    requires Valid(s) && (place.Some? ==> place.value !in s.heap)
    ensures var t := SendData(s, stream, done, place, answer).0; Valid(t) && Kept(s, t)
  {
    KeptRefl(s);
    if s.registered && done && place.Some? {
      hide Valid, Kept, SendData;
      SendDone(s, stream, place.value, answer);
    } else if s.registered && !done && answer.Keep? {
      SendBare(s, stream);
      hide Valid, Kept;
    }
  }

  lemma SendBare(s: State, stream: nat)
    requires Valid(s) && s.registered
    ensures var t := s.(queued := Enqueue(s.queued, Chunk(stream, None, None))); Valid(t) && Kept(s, t)
  {
    hide Parts, Ledgered, Exact, Enqueue, Held, Follows, Truthful;
    var c := Chunk(stream, None, None);
    EnqueueParts(s.queued, c);
    EnqueueInOrder(s.queued, s.heap, c);
    hide InOrder;
    FollowsRefl(s.book);
    assert Owned(s.(queued := Enqueue(s.queued, c))) == Owned(s);
  }

  lemma FollowsRefl(b: Book)
    ensures Follows(b, b)
  {
  }

  // ------------------------------------------------------------- what was retired

  lemma QueueParts(s: State, i: nat)
    requires Valid(s) && i < |s.queued|
    ensures var rest := s.queued[..i] + s.queued[i + 1..]; var c := s.queued[i];
            && Held(s.queued) == Held(rest) + One(c)
            && (forall d :: d in rest ==> d in s.queued)
            && (forall d :: d in rest && d.slot.Some? ==> d.slot != c.slot)
  {
    hide Ledgered, Exact, Statuses, InOrder;
    var x, c, y := s.queued[..i], s.queued[i], s.queued[i + 1..];
    assert s.queued == x + [c] + y;
    HeldMid(x, c, y);
    forall d: Chunk | d in x + y && d.slot.Some? ensures d.slot != c.slot {
      HeldIn(x + y, d);
      assert multiset(s.heap.Keys)[d.slot.value] <= 1;
    }
  }

  lemma RetireHeld(s: State, i: nat, status: int)
    requires Valid(s) && i < |s.queued|
    ensures Owned(RetireChunk(s, i, status)) == Owned(s)
  {
    hide Core, Statuses, InOrder, Shape, Valid;
    QueueParts(s, i);
    var c := s.queued[i].(status := Some(status));
    HeldConcat(s.completed, [c]);
    HeldOne(c);
    hide Held;
  }

  lemma BindOne(chunks: seq<Chunk>, heap: map<Addr, nat>, bound: map<nat, int>, n: nat, status: int)
    requires n !in bound
    ensures Bound(chunks, heap, bound) ==> Bound(chunks, heap, bound[n := status])
    ensures (Open(chunks, heap, bound) && forall c :: c in chunks && c.slot.Some? && c.slot.value in heap ==> heap[c.slot.value] != n)
            ==> Open(chunks, heap, bound[n := status])
  {
  }

  lemma BindTruthful(runs: seq<Ran>, bound: map<nat, int>, n: nat, status: int)
    requires Truthful(runs, bound) && forall i :: 0 <= i < |runs| ==> runs[i].n != n
    ensures Truthful(runs, bound[n := status])
  {
  }

  lemma BoundSnoc(chunks: seq<Chunk>, heap: map<Addr, nat>, bound: map<nat, int>, c: Chunk)
    requires Bound(chunks, heap, bound) && Bound([c], heap, bound)
    ensures Bound(chunks + [c], heap, bound)
  {
    assert c in [c];
  }

  lemma RetireStatuses(s: State, i: nat, status: int)
    requires Valid(s) && i < |s.queued|
    ensures var t := RetireChunk(s, i, status); Statuses(t) && InOrder(t.queued, t.heap)
    ensures forall n :: n in s.bound ==> n in RetireChunk(s, i, status).bound && RetireChunk(s, i, status).bound[n] == s.bound[n]
  {
    hide Core, Held, InOrder, Open, Bound, Truthful;
    var c := s.queued[i];
    var done := c.(status := Some(status));
    QueueParts(s, i);
    RemoveInOrder(s.queued, s.heap, i);
    assert c in s.queued;
    var rest, n := s.queued[..i] + s.queued[i + 1..], if Holds(s, c) then s.heap[c.slot.value] else 0;
    OpenPart(s.queued, s.heap, s.bound, rest, c);
    if c.slot.Some? {
      HeldIn(s.queued, c);
      NotYetRun(s, c);
      BindOne(rest, s.heap, s.bound, n, status);
      BindOne(s.completed, s.heap, s.bound, n, status);
      BindOne(s.batch, s.heap, s.bound, n, status);
      BindTruthful(s.runs, s.bound, n, status);
    }
    BoundOne(done, s.heap, RetireChunk(s, i, status).bound);
    BoundSnoc(s.completed, s.heap, RetireChunk(s, i, status).bound, done);
  }

  lemma OpenPart(chunks: seq<Chunk>, heap: map<Addr, nat>, bound: map<nat, int>, some: seq<Chunk>, c: Chunk)
    requires Open(chunks, heap, bound) && c in chunks && forall d :: d in some ==> d in chunks
    ensures Open(some, heap, bound) && (c.slot.Some? ==> c.slot.value in heap && heap[c.slot.value] !in bound)
  {
  }

  lemma BoundOne(c: Chunk, heap: map<Addr, nat>, bound: map<nat, int>)
    requires c.slot.Some? ==> c.slot.value in heap && heap[c.slot.value] in bound && c.status == Some(bound[heap[c.slot.value]])
    ensures Bound([c], heap, bound)
  {
  }

  lemma NotYetRun(s: State, c: Chunk)
    requires Valid(s) && c in s.queued && c.slot.Some? && c.slot.value in Held(s.queued)
    ensures c.slot.value in s.heap && s.heap[c.slot.value] < s.made
    ensures forall i :: 0 <= i < |s.runs| ==> s.runs[i].n != s.heap[c.slot.value]
    ensures forall a :: a in s.heap && s.heap[a] == s.heap[c.slot.value] ==> a == c.slot.value
  {
    hide Exact, InOrder, Held;
    var a, n := c.slot.value, s.heap[c.slot.value];
    assert a in Owned(s) + multiset(s.dropped) && Waits(s.heap, Owned(s) + multiset(s.dropped), n);
    forall i | 0 <= i < |s.runs| ensures s.runs[i].n != n { assert HasRun(s.runs, s.runs[i].n); }
  }

  lemma RetireSafe(s: State, i: nat, status: int)
    requires Valid(s)
    ensures var t := RetireChunk(s, i, status); Valid(t) && Kept(s, t)
  {
    if i < |s.queued| {
      RetireHeld(s, i, status);
      RetireStatuses(s, i, status);
      FollowsRefl(s.book);
      hide Parts, Ledgered, Exact, Statuses, InOrder, Owned, Follows;
    } else {
      KeptRefl(s);
    }
  }

  // ------------------------------------------------------------------------ runs

  /** Everything is in order but that one chunk, taken out of a queue, has not yet
      been run. */
  ghost predicate Ready(s: State, c: Chunk) {
    && Core(s, Owned(s) + One(c)) && Statuses(s) && InOrder(s.queued, s.heap) && Shape(s)
    && (c.slot.Some? ==> Holds(s, c) && Status(c) == Told(s.bound, s.heap[c.slot.value])
                         && (s.heap[c.slot.value] !in s.bound ==> !s.registered))
  }

  lemma StartCore(s: State, c: Chunk, owned: multiset<Addr>)
    requires Core(s, owned + One(c)) && Holds(s, c)
    ensures Core(Started(s, c), owned)
  {
    var slot := c.slot.value;
    var due := owned + multiset(s.dropped);
    PartsStart(s.heap, owned, s.running, s.lost, s.dropped, slot);
    assert multiset(s.heap.Keys)[slot] <= 1;
    assert slot !in due;
    assert owned + multiset{slot} + multiset(s.dropped) == due + multiset{slot};
    LedgeredStart(s.heap, due, s.made, s.accepted, s.runs, slot, Ran(s.heap[slot], Status(c), s.registered));
    hide Ledgered, Exact;
  }

  lemma StartValid(s: State, c: Chunk)
    requires Ready(s, c) && c.slot.Some?
    ensures Holds(s, c) && Valid(Started(s, c)) && Left(s.(running := s.running + [c.slot.value]), Started(s, c))
  {
    hide Core, InOrder, Held, Follows, Open, Bound, WillTell, Truthful, Told, Status;
    StartCore(s, c, Owned(s));
    TruthfulSnoc(s.runs, s.bound, Ran(s.heap[c.slot.value], Status(c), s.registered));
    FollowsRefl(s.book);
  }

  lemma TruthfulSnoc(runs: seq<Ran>, bound: map<nat, int>, r: Ran)
    requires Truthful(runs, bound) && r.status == Told(bound, r.n) && (r.n !in bound ==> !r.registered)
    ensures Truthful(runs + [r], bound)
  {
  }

  lemma SettleCore(s: State, owned: multiset<Addr>)
    requires Core(s, owned) && s.running != []
    ensures var slot := s.running[|s.running| - 1]; slot !in owned && Core(Settle(s, slot), owned) && Follows(Settle(s, slot).book, s.book)
  {
    hide Ledgered, Exact, Delete;
    var slot := s.running[|s.running| - 1];
    PartsSettle(s.heap, owned, s.running, s.lost, s.dropped);
    LedgeredSettle(s.heap, owned + multiset(s.dropped), s.made, s.accepted, s.runs, slot);
    DeleteExact(s.book, s.heap.Keys, slot);
    DeleteSame(s.book, s.heap.Keys, slot);
    assert (s.heap - {slot}).Keys == s.heap.Keys - {slot};
  }

  lemma SettleValid(s: State, slot: Addr)
    requires Valid(s) && s.running != [] && s.running[|s.running| - 1] == slot
    ensures var t := Settle(s, slot); Valid(t) && Left(s, t.(running := s.running))
  {
    SettleCore(s, Owned(s));
    StatusesAside(s, Settle(s, slot), slot, 0);
    hide Core, Statuses, InOrder, Held, Delete, Follows;
  }

  lemma SettleLeft(s: State, c: Chunk, t: State)
    requires Holds(s, c) && Left(Started(s, c), t) && Left(s.(running := s.running + [c.slot.value]), Started(s, c))
    requires Left(t, Settle(t, c.slot.value).(running := t.running))
    ensures t.running == s.running + [c.slot.value] && Left(s, Settle(t, c.slot.value))
    ensures HasRun(Settle(t, c.slot.value).runs, s.heap[c.slot.value])
  {
    var u := Settle(t, c.slot.value);
    assert u.running == s.running;
    assert u.runs[|s.runs|].n == s.heap[c.slot.value];
    hide Delete;
  }

  function Inside(s: State, c: Chunk, codes: seq<Body>): State
    requires Holds(s, c)
  {
    if codes == [] then Started(s, c) else RunAll(Started(s, c), codes[0].acts)
  }

  lemma {:induction false} InsideSafe(s: State, c: Chunk, codes: seq<Body>)
    requires Holds(s, c) && Valid(Started(s, c))
    ensures Valid(Inside(s, c, codes)) && Kept(Started(s, c), Inside(s, c, codes))
    decreases codes, 0
  {
    hide Valid, Kept, RunAll, Started;
    KeptRefl(Started(s, c));
    if codes != [] { RunSafe(Started(s, c), codes[0].acts); }
  }

  lemma {:induction false} FinishSafe(s: State, c: Chunk, codes: seq<Body>)
    requires Ready(s, c)
    ensures var t := Finish(s, c, codes);
            && Valid(t) && Left(s, t)
            && (c.slot.Some? ==> Holds(s, c) && HasRun(t.runs, s.heap[c.slot.value]))
            && (!s.registered ==> c.slot.Some? ==> t == Settle(Started(s, c), c.slot.value))
    decreases codes, 1, 0
  {
    hide Valid, Left, RunAll, Settle, HasRun, Started, Kept;
    if c.slot.Some? {
      StartValid(s, c);
      hide Ready;
      InsideSafe(s, c, codes);
      var t := Inside(s, c, codes);
      KeptLeft(Started(s, c), t);
      StartedRunning(s, c, t);
      SettleValid(t, c.slot.value);
      SettleLeft(s, c, t);
    } else {
      BareFinish(s, c);
    }
  }

  lemma StartedRunning(s: State, c: Chunk, t: State)
    requires Holds(s, c) && Left(Started(s, c), t)
    ensures t.running == s.running + [c.slot.value]
    ensures Started(s, c).registered == s.registered
  {
  }

  lemma KeptLeft(s: State, t: State)
    requires Kept(s, t)
    ensures Left(s, t) && (!s.registered ==> t == s)
  {
  }

  lemma BareFinish(s: State, c: Chunk)
    requires Ready(s, c) && c.slot.None?
    ensures Valid(s) && Left(s, s)
  {
    KeptRefl(s);
    assert Owned(s) + multiset{} == Owned(s);
    hide Core, Statuses, InOrder, Held, Follows;
  }

  // ---------------------------------------------------------- a batch, and the free

  lemma FirstOf(chunks: seq<Chunk>, heap: map<Addr, nat>, bound: map<nat, int>)
    requires chunks != []
    ensures Bound(chunks, heap, bound) ==> Bound(chunks[1..], heap, bound) && WillTell([chunks[0]], heap, bound)
                                           && (chunks[0].slot.Some? ==> heap[chunks[0].slot.value] in bound)
    ensures WillTell(chunks, heap, bound) ==> WillTell(chunks[1..], heap, bound) && WillTell([chunks[0]], heap, bound)
  {
    assert chunks[0] in chunks && forall d :: d in chunks[1..] ==> d in chunks;
  }

  lemma TellsOne(s: State, c: Chunk)
    requires WillTell([c], s.heap, s.bound) && c.slot.Some?
    ensures Holds(s, c) && Status(c) == Told(s.bound, s.heap[c.slot.value])
  {
    assert c in [c];
  }

  lemma TakeFirst(s: State)
    requires Valid(s) && s.batch != []
    ensures Ready(s.(batch := s.batch[1..]), s.batch[0])
  {
    hide Core, InOrder, Held, Truthful, Open, Bound, WillTell, Status, Told;
    var c := s.batch[0];
    HeldCons(s.batch);
    FirstOf(s.batch, s.heap, s.bound);
    if c.slot.Some? { TellsOne(s, c); }
    assert Owned(s.(batch := s.batch[1..])) + One(c) == Owned(s);
    CoreStays(s, s.(batch := s.batch[1..]), Owned(s));
  }

  lemma CoreStays(s: State, t: State, owned: multiset<Addr>)
    requires Core(s, owned)
    requires t.heap == s.heap && t.running == s.running && t.lost == s.lost && t.dropped == s.dropped
    requires t.made == s.made && t.accepted == s.accepted && t.runs == s.runs && t.book == s.book
    ensures Core(t, owned)
  {
  }

  lemma TakeNext(s: State)
    requires Valid(s) && s.cancelled != []
    ensures Ready(s.(cancelled := s.cancelled[1..]), s.cancelled[0])
  {
    hide Core, InOrder, Held, Truthful, Open, Bound, WillTell, Status, Told;
    var c := s.cancelled[0];
    HeldCons(s.cancelled);
    FirstOf(s.cancelled, s.heap, s.bound);
    if c.slot.Some? { TellsOne(s, c); }
    assert Owned(s.(cancelled := s.cancelled[1..])) + One(c) == Owned(s);
    CoreStays(s, s.(cancelled := s.cancelled[1..]), Owned(s));
  }

  lemma AbandonValid(s: State)
    requires Valid(s) && !s.registered
    ensures var t := s.(batch := [], dropped := s.dropped + Addrs(s.batch)); Valid(t) && Past(s, t)
    ensures s.dropped !! Addrs(s.batch) && |Addrs(s.batch)| == |Held(s.batch)|
  {
    hide Ledgered, Exact, InOrder, Held, Truthful, Follows;
    FollowsRefl(s.book);
    var t := s.(batch := [], dropped := s.dropped + Addrs(s.batch));
    HeldConcat([], []);
    assert Held([]) == multiset{} by { HeldNone(); }
    assert Owned(t) + Held(s.batch) == Owned(s);
    PartsDrop(s.heap, Owned(t), s.running, s.lost, s.dropped, Held(s.batch));
    assert Owned(t) + multiset(t.dropped) == Owned(s) + multiset(s.dropped);
    assert |multiset(Addrs(s.batch))| == |Addrs(s.batch)|;
  }

  lemma HeldNone()
    ensures Held([]) == multiset{}
  {
  }

  lemma {:induction false} DrainSafe(s: State, dones: seq<Chunk>, codes: seq<Body>)
    requires Valid(s) && s.batch == dones && (s.registered ==> s.inDones)
    ensures var t := Drain(s, dones, codes);
            Valid(t) && Past(s, t) && t.batch == [] && t.cancelled == s.cancelled && (t.registered ==> !t.inDones)
    decreases codes, 2, |dones|
  {
    hide Valid, Past, Finish, Ready, Left, Addrs;
    if !s.registered {
      AbandonValid(s);
    } else if dones == [] {
      DoneValid(s);
    } else {
      var b := s.(batch := dones[1..]);
      var t := Finish(b, dones[0], codes);
      TakeFirst(s);
      FinishSafe(b, dones[0], codes);
      LeftParts(b, t);
      DrainSafe(t, dones[1..], Tail(codes));
      PastFrom(s, b, t);
      PastTrans(s, t, Drain(t, dones[1..], Tail(codes)));
    }
  }

  lemma DoneValid(s: State)
    requires Valid(s) && s.batch == []
    ensures var t := s.(batch := [], inDones := false); Valid(t) && Past(s, t)
  {
    FollowsRefl(s.book);
    assert Owned(s.(batch := [], inDones := false)) == Owned(s);
    hide Core, Statuses, InOrder, Held, Follows;
  }

  lemma LeftParts(s: State, t: State)
    requires Left(s, t)
    ensures Past(s, t) && t.batch == s.batch && t.cancelled == s.cancelled && t.running == s.running
    ensures t.registered ==> s.registered && t.inDones == s.inDones
  {
  }

  lemma PastFrom(s: State, b: State, t: State)
    requires Past(b, t) && (b.registered ==> s.registered)
    requires b == s.(cancelled := b.cancelled, batch := b.batch, queued := b.queued, completed := b.completed,
                     registered := b.registered, inDones := b.inDones)
    ensures Past(s, t)
  {
  }

  lemma TakeBatch(s: State)
    requires Valid(s) && s.registered && !s.inDones
    ensures Valid(s.(completed := [], batch := s.completed, inDones := true)) && s.batch == []
  {
    var b := s.(completed := [], batch := s.completed, inDones := true);
    HeldNone();
    assert Owned(b) == Owned(s);
    hide Core, InOrder, Held, Truthful;
  }

  lemma {:induction false} RunCompletedSafe(s: State, codes: seq<Body>)
    requires Valid(s)
    ensures var t := RunCompleted(s, codes); Valid(t) && Kept(s, t)
    decreases codes, 3
  {
    hide Valid, Past, Drain;
    if s.registered && !s.inDones {
      var b := s.(completed := [], batch := s.completed, inDones := true);
      TakeBatch(s);
      DrainSafe(b, s.completed, codes);
      PastFrom(s, b, Drain(b, s.completed, codes));
    } else {
      KeptRefl(s);
    }
  }

  lemma TellAll(done: seq<Chunk>, queued: seq<Chunk>, heap: map<Addr, nat>, bound: map<nat, int>)
    requires Bound(done, heap, bound) && Open(queued, heap, bound)
    ensures WillTell(done + queued, heap, bound) && Open([], heap, bound) && Bound([], heap, bound) && InOrder([], heap)
  {
    assert forall d :: d in done + queued ==> d in done || d in queued;
  }

  lemma TakeAll(s: State)
    requires Valid(s) && s.registered
    ensures Valid(Taken(s)) && s.cancelled == []
  {
    hide Core, Held, Truthful, Open, Bound, WillTell, InOrder;
    HeldNone();
    HeldConcat(s.completed, s.queued);
    assert Owned(Taken(s)) == Owned(s);
    TellAll(s.completed, s.queued, s.heap, s.bound);
    CoreStays(s, Taken(s), Owned(s));
  }

  /** Every chunk that conn_free has taken out runs, and then none is left. */
  lemma {:induction false} FinishAllSafe(s: State, chunks: seq<Chunk>, codes: seq<Body>)
    requires Valid(s) && !s.registered && s.cancelled == chunks
    ensures var t := FinishAll(s, chunks, codes);
            && Valid(t) && Past(s, t) && t.cancelled == [] && t.batch == s.batch
            && t.accepted == s.accepted && t.lost == s.lost && t.dropped == s.dropped && t.bound == s.bound
    decreases codes, 2, |chunks|
  {
    hide Valid, Past, Finish, Ready, Left;
    if chunks == [] {
      KeptRefl(s);
      hide Kept;
      LeftParts(s, s);
    } else {
      var b := s.(cancelled := chunks[1..]);
      var t := Finish(b, chunks[0], codes);
      TakeNext(s);
      FinishSafe(b, chunks[0], codes);
      LeftParts(b, t);
      FinishLate(b, chunks[0], codes);
      FinishAllSafe(t, chunks[1..], Tail(codes));
      PastFrom(s, b, t);
      PastTrans(s, t, FinishAll(s, chunks, codes));
    }
  }

  /** With the handle gone user code can do nothing to the connection. */
  lemma {:induction false} FinishLate(s: State, c: Chunk, codes: seq<Body>)
    requires Ready(s, c) && !s.registered
    ensures var t := Finish(s, c, codes);
            && (c.slot.None? ==> t == s)
            && (c.slot.Some? ==> Holds(s, c) && t.runs == s.runs + [Ran(s.heap[c.slot.value], Status(c), false)]
                                 && t.heap == s.heap - {c.slot.value})
            && t.accepted == s.accepted && t.lost == s.lost && t.dropped == s.dropped && t.bound == s.bound
    decreases codes, 1, 1
  {
    hide Ready, Valid, Left, Finish, Delete;
    FinishSafe(s, c, codes);
    if c.slot.None? { BareFinishIs(s, c, codes); }
  }

  lemma BareFinishIs(s: State, c: Chunk, codes: seq<Body>)
    requires c.slot.None?
    ensures Finish(s, c, codes) == s
  {
  }

  lemma {:induction false} FreeSafe(s: State, codes: seq<Body>)
    requires Valid(s)
    ensures var t := FreeConn(s, codes);
            && Valid(t) && Kept(s, t) && !t.registered && t.queued == [] && t.completed == []
            && t.accepted == s.accepted && t.lost == s.lost && t.dropped == s.dropped && t.bound == s.bound
    decreases codes, 3
  {
    hide Core, Statuses, InOrder, FinishAll, Past, Held;
    if s.registered {
      TakeAll(s);
      FinishAllSafe(Taken(s), s.completed + s.queued, codes);
      PastFrom(s, Taken(s), FinishAll(Taken(s), s.completed + s.queued, codes));
      StaysFreed(Taken(s), FinishAll(Taken(s), s.completed + s.queued, codes));
    } else {
      KeptRefl(s);
    }
  }

  lemma StaysFreed(s: State, t: State)
    requires Past(s, t) && !s.registered
    ensures !t.registered
  {
  }

  lemma {:induction false} PerformSafe(s: State, a: Act)
    requires Valid(s)
    ensures Valid(Perform(s, a)) && Kept(s, Perform(s, a))
    decreases a, 0
  {
    hide Valid, Kept, SendData, RetireChunk, RunCompleted, FreeConn;
    KeptRefl(s);
    match a
    case Send(stream, done, place, answer) =>
      if place.Some? ==> place.value !in s.heap { SendSafe(s, stream, done, place, answer); }
    case Retire(i, status) => RetireSafe(s, i, status);
    case RunBatch(codes) => RunCompletedSafe(s, codes);
    case Free(codes) => FreeSafe(s, codes);
  }

  lemma {:induction false} RunSafe(s: State, acts: seq<Act>)
    requires Valid(s)
    ensures Valid(RunAll(s, acts)) && Kept(s, RunAll(s, acts))
    decreases acts, 0
  {
    hide Valid, Kept, Perform;
    KeptRefl(s);
    if acts != [] {
      PerformSafe(s, acts[0]);
      RunSafe(Perform(s, acts[0]), acts[1..]);
      KeptTrans(s, Perform(s, acts[0]), RunAll(s, acts));
    }
  }

  lemma FreshValid()
    ensures Valid(FRESH)
  {
    HeldNone();
    assert multiset(FRESH.heap.Keys) == multiset{};
  }

  // ------------------------------------------------------------- every run of a `done`

  /** The slot of a send that a batch left behind is still on the heap. */
  ghost predicate Dropped(s: State, n: nat) { Waits(s.heap, multiset(s.dropped), n) }

  /** Over a connection's whole life, whatever is sent, retired or done in the
      callbacks: once the connection is freed every send that was kept has run its
      `done` exactly once or was dropped by a batch, one of the two, and no other ever
      does; each was told the status that the session bound or, if it bound none, that
      the chunk was cancelled, and then only with the handle gone; the slots left are
      those of sends that threw before they were kept, and the dropped ones; all
      others were freed exactly once; and nothing changes any more. */
  lemma EveryDoneRunsOnce(acts: seq<Act>, codes: seq<Body>)
    ensures var s := FreeConn(RunAll(FRESH, acts), codes);
            && !s.registered
            && (forall n :: n in s.accepted <==> HasRun(s.runs, n) || Dropped(s, n))
            && (forall n :: !(HasRun(s.runs, n) && Dropped(s, n)))
            && (forall i, j :: 0 <= i < j < |s.runs| ==> s.runs[i].n != s.runs[j].n)
            && Truthful(s.runs, s.bound)
            && s.heap.Keys == s.lost + s.dropped && s.lost !! s.dropped && Exact(s.book, s.heap.Keys)
            && (forall later :: RunAll(s, later) == s)
  {
    hide Core, Statuses, Held, RunAll, FreeConn, InOrder, Past;
    var s := FreeConn(RunAll(FRESH, acts), codes);
    AtTheEnd(acts, codes);
    Settled(s);
    forall later ensures RunAll(s, later) == s { RunSafe(s, later); }
  }

  lemma AtTheEnd(acts: seq<Act>, codes: seq<Body>)
    ensures var u := RunAll(FRESH, acts); var s := FreeConn(u, codes);
            && Valid(u) && Valid(s) && !s.registered && s.queued == [] && s.completed == []
            && s.batch == [] && s.cancelled == [] && s.running == []
            && s.lost == u.lost && s.dropped == u.dropped
  {
    hide Core, Statuses, InOrder, RunAll, FreeConn;
    FreshValid();
    RunSafe(FRESH, acts);
    FreeSafe(RunAll(FRESH, acts), codes);
  }

  lemma Settled(s: State)
    requires Valid(s) && s.queued == [] && s.completed == [] && s.batch == [] && s.cancelled == [] && s.running == []
    ensures forall n :: n in s.accepted <==> HasRun(s.runs, n) || Dropped(s, n)
    ensures forall n :: !(HasRun(s.runs, n) && Dropped(s, n))
    ensures forall i, j :: 0 <= i < j < |s.runs| ==> s.runs[i].n != s.runs[j].n
    ensures Truthful(s.runs, s.bound)
    ensures s.heap.Keys == s.lost + s.dropped && s.lost !! s.dropped && Exact(s.book, s.heap.Keys)
  {
    hide InOrder, Exact, Truthful;
    HeldNone();
    assert Owned(s) == multiset{};
    var all := multiset(s.lost) + multiset(s.dropped);
    assert multiset(s.heap.Keys) == all;
    forall a ensures a in s.heap.Keys <==> a in s.lost || a in s.dropped { assert a in multiset(s.heap.Keys) <==> a in all; }
    forall a ensures !(a in s.lost && a in s.dropped) { assert multiset(s.heap.Keys)[a] == all[a]; }
    assert Owned(s) + multiset(s.dropped) == multiset(s.dropped);
  }

  // ------------------------------------------- what leaks, counted from what was done

  /** Sends that threw before they were kept, and `done`s that a batch dropped. */
  datatype Tally = Tally(thrown: nat, dropped: nat)

  const NONE := Tally(0, 0)

  function Plus(x: Tally, y: Tally): Tally { Tally(x.thrown + y.thrown, x.dropped + y.dropped) }

  function TallyOf(s: State, acts: seq<Act>): Tally
    decreases acts, 0
  {
    if acts == [] then NONE else Plus(TallyAct(s, acts[0]), TallyOf(Perform(s, acts[0]), acts[1..]))
  }

  function TallyAct(s: State, a: Act): Tally
    decreases a, 0
  {
    match a
    case Send(_, done, place, answer) =>
      if s.registered && done && place.Some? && place.value !in s.heap && answer.Throw? then Tally(1, 0) else NONE
    case Retire(_, _) => NONE
    case RunBatch(codes) =>
      if !s.registered || s.inDones then NONE
      else TallyBatch(s.(completed := [], batch := s.completed, inDones := true), s.completed, codes)
    case Free(_) => NONE  // with the handle gone nothing is sent, and no batch begins
  }

  /** A batch drops what is left of it when a `done` has freed the connection. */
  function TallyBatch(s: State, dones: seq<Chunk>, codes: seq<Body>): Tally
    decreases codes, 2, |dones|
  {
    if !s.registered then Tally(0, |Held(dones)|)
    else if dones == [] then NONE
    else
      var b := s.(batch := dones[1..]);
      Plus(TallyDone(b, dones[0], codes), TallyBatch(Finish(b, dones[0], codes), dones[1..], Tail(codes)))
  }

  function TallyDone(s: State, c: Chunk, codes: seq<Body>): Tally
    decreases codes, 1
  {
    if !Holds(s, c) || codes == [] then NONE else TallyOf(Started(s, c), codes[0].acts)
  }

  /** What became of the slots between two states, in numbers. */
  ghost predicate Leaked(s: State, t: State, x: Tally) {
    |t.lost| == |s.lost| + x.thrown && |t.dropped| == |s.dropped| + x.dropped
  }

  lemma {:induction false} TallyExact(s: State, acts: seq<Act>)
    requires Valid(s)
    ensures Leaked(s, RunAll(s, acts), TallyOf(s, acts))
    decreases acts, 0
  {
    hide Valid, Kept, Perform, TallyAct;
    if acts != [] {
      PerformSafe(s, acts[0]);
      TallyActExact(s, acts[0]);
      TallyExact(Perform(s, acts[0]), acts[1..]);
    }
  }

  lemma {:induction false} TallyActExact(s: State, a: Act)
    requires Valid(s)
    ensures Leaked(s, Perform(s, a), TallyAct(s, a))
    decreases a, 0
  {
    hide Valid, SendData, FreeConn, Drain, TallyBatch;
    match a
    case Send(stream, done, place, answer) => SendLeaks(s, stream, done, place, answer);
    case Retire(i, status) =>
    case RunBatch(codes) =>
      if s.registered && !s.inDones {
        TakeBatch(s);
        TallyBatchExact(s.(completed := [], batch := s.completed, inDones := true), s.completed, codes);
      }
    case Free(codes) =>
      FreeSafe(s, codes);
      hide Kept;
  }

  lemma SendLeaks(s: State, stream: nat, done: bool, place: Option<Addr>, answer: Answer)
    requires Valid(s)
    ensures Leaked(s, Perform(s, Send(stream, done, place, answer)), TallyAct(s, Send(stream, done, place, answer)))
  {
    hide Enqueue, Make, Delete, Ledgered, Exact, Statuses, InOrder, Held;
    if place.Some? && place.value !in s.heap {
      PartsNew(s.heap, Owned(s), s.running, s.lost, s.dropped, place.value, s.made) by { Older(s); }
      assert |s.lost + {place.value}| == |s.lost| + 1;
    }
  }

  lemma {:induction false} TallyBatchExact(s: State, dones: seq<Chunk>, codes: seq<Body>)
    requires Valid(s) && s.batch == dones && (s.registered ==> s.inDones)
    ensures Leaked(s, Drain(s, dones, codes), TallyBatch(s, dones, codes))
    decreases codes, 2, |dones|
  {
    hide Valid, Left, Finish, Ready, Held, TallyDone, Addrs;
    if !s.registered {
      AbandonValid(s);
      assert |s.dropped + Addrs(dones)| == |s.dropped| + |Addrs(dones)|;
      hide Past;
    } else if dones != [] {
      var b := s.(batch := dones[1..]);
      var t := Finish(b, dones[0], codes);
      TakeFirst(s);
      FinishSafe(b, dones[0], codes);
      LeftParts(b, t);
      hide Past;
      TallyDoneExact(b, dones[0], codes);
      TallyBatchExact(t, dones[1..], Tail(codes));
    }
  }

  lemma {:induction false} TallyDoneExact(s: State, c: Chunk, codes: seq<Body>)
    requires Ready(s, c)
    ensures Leaked(s, Finish(s, c, codes), TallyDone(s, c, codes))
    decreases codes, 1
  {
    hide Valid, Left, Delete, TallyOf, RunAll;
    if c.slot.Some? {
      StartValid(s, c);
      hide Ready;
      if codes != [] { TallyExact(Started(s, c), codes[0].acts); }
    }
  }

  /** So the slots that leak are as many as the sends that threw before they were kept
      and the `done`s that a batch dropped; and all other kept sends have run. */
  lemma LeaksCounted(acts: seq<Act>, codes: seq<Body>)
    ensures var s := FreeConn(RunAll(FRESH, acts), codes); var x := TallyOf(FRESH, acts);
            |s.heap| == x.thrown + x.dropped && |s.accepted| == |s.runs| + x.dropped
  {
    hide RunAll, FreeConn, TallyOf, Valid;
    var s := FreeConn(RunAll(FRESH, acts), codes);
    AtTheEnd(acts, codes);
    FreshValid();
    TallyExact(FRESH, acts);
    EndSizes(s);
  }

  ghost function LeftNumbers(s: State): set<nat> { set a | a in s.dropped && a in s.heap :: s.heap[a] }

  lemma LeftAreDropped(s: State)
    ensures forall n :: n in LeftNumbers(s) <==> Dropped(s, n)
  {
    forall n ensures n in LeftNumbers(s) <==> Dropped(s, n) {
      if Dropped(s, n) { var a :| a in multiset(s.dropped) && a in s.heap && s.heap[a] == n; }
      if n in LeftNumbers(s) { var a :| a in s.dropped && a in s.heap && s.heap[a] == n; assert a in multiset(s.dropped); }
    }
  }

  lemma Injective(s: State)
    requires Valid(s)
    ensures forall a, b :: a in s.heap && b in s.heap && s.heap[a] == s.heap[b] ==> a == b
  {
  }

  lemma EndSizes(s: State)
    requires Valid(s) && s.queued == [] && s.completed == [] && s.batch == [] && s.cancelled == [] && s.running == []
    ensures |s.heap| == |s.lost| + |s.dropped| && |s.accepted| == |s.runs| + |s.dropped|
  {
    hide Valid, Exact, Truthful, Dropped, HasRun, Numbers, LeftNumbers;
    Settled(s);
    Injective(s);
    assert |s.heap| == |s.heap.Keys|;
    NumbersSize(s.runs);
    DroppedSize(s);
    LeftAreDropped(s);
    assert s.accepted == Numbers(s.runs) + LeftNumbers(s);
    assert Numbers(s.runs) !! LeftNumbers(s);
  }

  lemma DroppedSize(s: State)
    requires s.dropped <= s.heap.Keys && forall a, b :: a in s.heap && b in s.heap && s.heap[a] == s.heap[b] ==> a == b
    ensures |LeftNumbers(s)| == |s.dropped|
  {
    ImageSize(s.heap, s.dropped);
  }

  ghost function Numbers(runs: seq<Ran>): set<nat> { set r | r in runs :: r.n }

  lemma {:induction false} NumbersSize(runs: seq<Ran>)
    requires forall i, j :: 0 <= i < j < |runs| ==> runs[i].n != runs[j].n
    ensures |Numbers(runs)| == |runs| && forall n :: n in Numbers(runs) <==> HasRun(runs, n)
  {
    if runs != [] {
      var init, last := runs[..|runs| - 1], runs[|runs| - 1];
      NumbersSize(init);
      assert runs == init + [last];
      forall n ensures n in Numbers(runs) <==> n in Numbers(init) || n == last.n {
        if n in Numbers(init) { var r :| r in init && r.n == n; assert r in runs; }
        if n == last.n { assert last in runs; }
      }
      assert Numbers(runs) == Numbers(init) + {last.n};
    }
    forall n | HasRun(runs, n) ensures n in Numbers(runs) {
      var i :| 0 <= i < |runs| && runs[i].n == n;
      assert runs[i] in runs;
    }
  }

  lemma {:induction false} ImageSize(heap: map<Addr, nat>, some: set<Addr>)
    requires some <= heap.Keys && forall a, b :: a in heap && b in heap && heap[a] == heap[b] ==> a == b
    ensures |set a | a in some && a in heap :: heap[a]| == |some|
  {
    var image := set a | a in some && a in heap :: heap[a];
    if some != {} {
      var b :| b in some;
      var rest := set a | a in some - {b} && a in heap :: heap[a];
      ImageSize(heap, some - {b});
      assert image == rest + {heap[b]};
    }
  }

  /** No slot leaks if and only if no send threw before it was kept and no batch was
      cut short by a free. */
  lemma NoLeakIff(acts: seq<Act>, codes: seq<Body>)
    ensures var s := FreeConn(RunAll(FRESH, acts), codes); s.heap == map[] <==> TallyOf(FRESH, acts) == NONE
  {
    LeaksCounted(acts, codes);
    hide RunAll, FreeConn, TallyOf;
    var s := FreeConn(RunAll(FRESH, acts), codes);
    assert |s.heap| == 0 <==> s.heap == map[];
  }

  /** And every kept send runs its `done` exactly once if and only if no batch was cut
      short. */
  lemma ExactlyOnceIff(acts: seq<Act>, codes: seq<Body>)
    ensures var s := FreeConn(RunAll(FRESH, acts), codes);
            (forall n :: n in s.accepted <==> HasRun(s.runs, n)) <==> TallyOf(FRESH, acts).dropped == 0
  {
    hide RunAll, FreeConn, TallyOf, Valid;
    var s := FreeConn(RunAll(FRESH, acts), codes);
    AtTheEnd(acts, codes);
    FreshValid();
    TallyExact(FRESH, acts);
    Settled(s);
    DroppedSome(s);
  }

  lemma DroppedSome(s: State)
    requires s.dropped <= s.heap.Keys
    ensures |s.dropped| == 0 <==> forall n :: !Dropped(s, n)
  {
    if s.dropped != {} {
      var a :| a in s.dropped;
      assert a in multiset(s.dropped) && Dropped(s, s.heap[a]);
    }
  }

  // ------------------------------------------------ the caller's rule, and its breach

  /** No code frees the connection. */
  predicate NoFree(acts: seq<Act>)
    decreases acts, 0
  {
    acts != [] ==> NoFreeAct(acts[0]) && NoFree(acts[1..])
  }

  predicate NoFreeAct(a: Act)
    decreases a, 0
  {
    match a
    case Free(_) => false
    case RunBatch(codes) => NoFreeBodies(codes)
    case _ => true
  }

  predicate NoFreeBodies(codes: seq<Body>)
    decreases codes, 0
  {
    codes != [] ==> NoFree(codes[0].acts) && NoFreeBodies(codes[1..])
  }

  /** No `done` of a batch frees the connection; other code may. */
  predicate Patient(acts: seq<Act>) {
    forall a :: a in acts && a.RunBatch? ==> NoFreeBodies(a.codes)
  }

  lemma {:induction false} NoFreeStays(s: State, acts: seq<Act>)
    requires Valid(s) && s.registered && NoFree(acts)
    ensures RunAll(s, acts).registered && TallyOf(s, acts).dropped == 0
    decreases acts, 0
  {
    hide Valid, Kept, Perform, TallyAct, NoFreeAct;
    if acts != [] {
      NoFreeActStays(s, acts[0]);
      PerformSafe(s, acts[0]);
      NoFreeStays(Perform(s, acts[0]), acts[1..]);
    }
  }

  lemma {:induction false} NoFreeActStays(s: State, a: Act)
    requires Valid(s) && s.registered && NoFreeAct(a)
    ensures Perform(s, a).registered && TallyAct(s, a).dropped == 0
    decreases a, 0
  {
    hide Valid, Drain, TallyBatch, Enqueue, Make, Delete;
    if a.RunBatch? && !s.inDones {
      TakeBatch(s);
      NoFreeBatch(s.(completed := [], batch := s.completed, inDones := true), s.completed, a.codes);
    }
  }

  lemma {:induction false} NoFreeBatch(s: State, dones: seq<Chunk>, codes: seq<Body>)
    requires Valid(s) && s.registered && s.batch == dones && s.inDones && NoFreeBodies(codes)
    ensures Drain(s, dones, codes).registered && TallyBatch(s, dones, codes).dropped == 0
    decreases codes, 2, |dones|
  {
    hide Valid, Left, Finish, Ready, Held, TallyDone, NoFree;
    if dones != [] {
      var b := s.(batch := dones[1..]);
      var t := Finish(b, dones[0], codes);
      TakeFirst(s);
      FinishSafe(b, dones[0], codes);
      LeftParts(b, t);
      hide Past;
      NoFreeDone(b, dones[0], codes);
      NoFreeBatch(t, dones[1..], Tail(codes));
    }
  }

  lemma {:induction false} NoFreeDone(s: State, c: Chunk, codes: seq<Body>)
    requires Ready(s, c) && s.registered && NoFreeBodies(codes)
    ensures Finish(s, c, codes).registered && TallyDone(s, c, codes).dropped == 0
    decreases codes, 1
  {
    hide Valid, Left, Delete, TallyOf, RunAll, NoFree;
    if c.slot.Some? {
      StartValid(s, c);
      hide Ready;
      if codes != [] { NoFreeStays(Started(s, c), codes[0].acts); }
    }
  }

  /** So a caller who never frees the connection in a `done` gets what the header
      promises. */
  lemma {:induction false} PatientDropsNone(s: State, acts: seq<Act>)
    requires Valid(s) && Patient(acts)
    ensures TallyOf(s, acts).dropped == 0
    decreases |acts|
  {
    hide Valid, Kept, Perform, TallyAct;
    if acts != [] {
      assert acts[0] in acts && forall a :: a in acts[1..] ==> a in acts;
      PatientAct(s, acts[0]);
      PerformSafe(s, acts[0]);
      PatientDropsNone(Perform(s, acts[0]), acts[1..]);
    }
  }

  lemma PatientAct(s: State, a: Act)
    requires Valid(s) && (a.RunBatch? ==> NoFreeBodies(a.codes))
    ensures TallyAct(s, a).dropped == 0
  {
    hide Valid;
    if a.RunBatch? && s.registered { NoFreeActStays(s, a); }
  }

  /** Two chunks are on their way and both sent; the first's `done` frees the
      connection, and the second's never runs. */
  const CUT_SHORT := [Send(1, true, Some(1), Keep(false)), Send(1, true, Some(2), Keep(false)), Retire(0, 0), Retire(0, 0),
                      RunBatch([Body([Free([])])])]

  lemma BatchCutShort()
    ensures var s := RunAll(FRESH, CUT_SHORT);
            !s.registered && s.accepted == {0, 1} && s.runs == [Ran(0, 0, true)] && s.dropped == {2}
  {
    var s := BothSent();
    CutShortSends();
    CutShortRetires();
    CutShortRuns();
    hide Perform;
    RunFirst(FRESH, CUT_SHORT[0], CUT_SHORT[1..]);
    RunFirst(Perform(FRESH, CUT_SHORT[0]), CUT_SHORT[1], CUT_SHORT[2..]);
    RunFirst(s, CUT_SHORT[2], CUT_SHORT[3..]);
    RunFirst(Perform(s, CUT_SHORT[2]), CUT_SHORT[3], CUT_SHORT[4..]);
    RunFirst(BothRetired(), CUT_SHORT[4], []);
    EmptyRun(Perform(BothRetired(), CUT_SHORT[4]));
    hide RunAll;
  }

  function BothSent(): State {
    FRESH.(heap := map[1 := 0, 2 := 1], made := 2, accepted := {0, 1}, book := Make(Make(EMPTY, 1), 2),
           queued := [Chunk(1, Some(1), None), Chunk(1, Some(2), None)])
  }

  function BothRetired(): State {
    BothSent().(queued := [], completed := [Chunk(1, Some(1), Some(0)), Chunk(1, Some(2), Some(0))], bound := map[0 := 0, 1 := 0])
  }

  lemma RunFirst(s: State, a: Act, rest: seq<Act>)
    ensures RunAll(s, [a] + rest) == RunAll(Perform(s, a), rest)
  {
    hide Perform;
    assert ([a] + rest)[1..] == rest;
  }

  lemma EmptyRun(s: State)
    ensures RunAll(s, []) == s
  {
  }

  lemma CutShortSends()
    ensures Perform(Perform(FRESH, CUT_SHORT[0]), CUT_SHORT[1]) == BothSent()
  {
    hide Make;
    var c, d := Chunk(1, Some(1), None), Chunk(1, Some(2), None);
    assert Enqueue([], c) == [c];
    assert PlaceFor([c], 1) == 1 by { assert [c][1..] == []; }
    assert Enqueue([c], d) == [c, d];
    assert map[1 := 0][2 := 1] == map[1 := 0, 2 := 1];
    assert {0} + {1} == {0, 1};
  }

  lemma CutShortRetires()
    ensures Perform(Perform(BothSent(), CUT_SHORT[2]), CUT_SHORT[3]) == BothRetired()
  {
    var c, d := Chunk(1, Some(1), None), Chunk(1, Some(2), None);
    assert [c, d][..0] + [c, d][1..] == [d];
    assert [d][..0] + [d][1..] == [];
  }

  lemma CutShortRuns()
    ensures var t := Perform(BothRetired(), CUT_SHORT[4]);
            !t.registered && t.accepted == {0, 1} && t.runs == [Ran(0, 0, true)] && t.dropped == {2}
  {
    var s, c, d, codes := BothRetired(), Chunk(1, Some(1), Some(0)), Chunk(1, Some(2), Some(0)), [Body([Free([])])];
    var b := s.(completed := [], batch := [d], inDones := true);
    var u := Started(b, c);
    assert [c, d][1..] == [d] && codes[1..] == [];
    assert FreeConn(u, []) == u.(registered := false, queued := [], completed := [], cancelled := []);
    RunFirst(u, Free([]), []);
    EmptyRun(FreeConn(u, []));
    assert Inside(b, c, codes) == FreeConn(u, []);
    HeldOne(d);
    assert Addrs([d]) == {2};
    hide RunAll, FreeConn, Held, Addrs, Delete;
    assert Finish(b, c, codes) == Settle(FreeConn(u, []), 1);
    assert Drain(s.(completed := [], batch := [c, d], inDones := true), [c, d], codes) == Drain(Settle(FreeConn(u, []), 1), [d], []);
  }

  /** An exception tells the caller nothing: this send threw after it was kept, and its
      `done` runs all the same. */
  lemma KeptThoughItThrew()
    ensures var (s, code) := SendData(FRESH, 1, true, Some(1), Keep(true));
            code == Exception && FreeConn(s, []).runs == [Ran(0, UV_ECANCELED, false)] && FreeConn(s, []).heap == map[]
  {
    KeptSend();
    var s := SendData(FRESH, 1, true, Some(1), Keep(true)).0;
    assert s == OneKept();
    KeptFreed();
    hide SendData, FinishAll, OneKept;
  }

  function OneKept(): State {
    FRESH.(heap := map[1 := 0], made := 1, accepted := {0}, book := Make(EMPTY, 1), queued := [Chunk(1, Some(1), None)])
  }

  lemma KeptSend()
    ensures SendData(FRESH, 1, true, Some(1), Keep(true)) == (OneKept(), Exception)
  {
    assert Enqueue([], Chunk(1, Some(1), None)) == [Chunk(1, Some(1), None)];
    hide Make, Enqueue;
    assert FRESH.heap[1 := 0] == map[1 := 0] && FRESH.accepted + {0} == {0};
  }

  lemma KeptFreed()
    ensures FreeConn(OneKept(), []).runs == [Ran(0, UV_ECANCELED, false)] && FreeConn(OneKept(), []).heap == map[]
  {
    hide Make, Delete, Finish, FinishAll;
    var c, s := Chunk(1, Some(1), None), OneKept();
    assert s.completed + s.queued == [c];
    var b := Taken(s).(cancelled := []);
    FinishOne(Taken(s), c);
    FinishQuietly(b, c);
    var u := Started(b, c);
    assert u.running == [1] && u.runs == [Ran(0, UV_ECANCELED, false)] && u.heap - {1} == map[];
    assert FreeConn(s, []) == FinishAll(Taken(s), [c], []) == Settle(u, 1);
  }

  lemma FinishOne(s: State, c: Chunk)
    ensures FinishAll(s, [c], []) == Finish(s.(cancelled := []), c, [])
  {
    hide Finish;
    assert [c][1..] == [];
  }

  /** A `done` without any code in it. */
  lemma FinishQuietly(s: State, c: Chunk)
    requires Holds(s, c)
    ensures Finish(s, c, []) == Settle(Started(s, c), c.slot.value)
  {
    hide Settle, Started;
  }

  // -------------------------------------------------------- what ran, and how

  /** Only a send that is kept counts, whether the call then throws or not; one that is
      refused leaves neither slot nor trace; one that throws before leaves its slot
      behind; with the connection freed nothing is sent at all. */
  lemma SendOutcome(s: State, stream: nat, place: Addr, answer: Answer)
    requires Valid(s) && place !in s.heap
    ensures var (t, code) := SendData(s, stream, true, Some(place), answer);
            && (code == Stale <==> !s.registered) && (code == Stale ==> t == s)
            && (s.registered ==> (t.accepted != s.accepted <==> answer.Keep?))
            && (s.registered ==> (t.lost != s.lost <==> answer.Throw?))
            && (s.registered ==> (code == Exception <==> answer.Throw? || answer == Keep(true)))
            && (s.registered && answer.Keep? ==> Owned(t) == Owned(s) + multiset{place} && t.heap[place] == s.made && t.accepted == s.accepted + {s.made})
            && (s.registered && answer.Refuse? ==> t.heap == s.heap && Owned(t) == Owned(s) && code == Engine(answer.rc))
            && (s.registered && answer.Throw? ==> t.heap == s.heap[place := s.made] && Owned(t) == Owned(s))
            && t.runs == s.runs && t.bound == s.bound && Perform(s, Send(stream, true, Some(place), answer)) == t
    ensures SendData(s, stream, true, None, answer) == (s, if s.registered then NoMemory else Stale)
    ensures var (t, code) := SendData(s, stream, false, None, answer);
            && t == s.(queued := t.queued) && Owned(t) == Owned(s)
            && |t.queued| == |s.queued| + (if s.registered && answer.Keep? then 1 else 0)
            && (s.registered && answer.Keep? ==> code == if answer.throws then Exception else Ok)
  {
    hide Enqueue, Held, Make, Delete, Valid;
    EnqueueSize(s.queued, Chunk(stream, None, None));
    EnqueueParts(s.queued, Chunk(stream, None, None));
    NotLost(s, place);
    assert s.heap[place := s.made] - {place} == s.heap;
    EnqueueParts(s.queued, Chunk(stream, Some(place), None));
  }

  lemma NotLost(s: State, place: Addr)
    requires Valid(s) && place !in s.heap
    ensures place !in s.lost && s.made !in s.accepted
  {
    Older(s);
    PartsNew(s.heap, Owned(s), s.running, s.lost, s.dropped, place, s.made);
  }

  /** A batch begins with the chunk that was retired first, and tells it the status it
      was retired with, while the handle is registered. */
  lemma BatchRunsItsFirst(s: State, codes: seq<Body>)
    requires Valid(s) && s.registered && !s.inDones && s.completed != [] && s.completed[0].slot.Some?
    ensures var t := RunCompleted(s, codes); var a := s.completed[0].slot.value;
            && a in s.heap && s.heap[a] in s.bound
            && |t.runs| > |s.runs| && t.runs[|s.runs|] == Ran(s.heap[a], s.bound[s.heap[a]], true)
  {
    var c, rest := s.completed[0], s.completed[1..];
    var b0 := s.(completed := [], batch := s.completed, inDones := true);
    var b := b0.(batch := rest);
    assert c in s.completed;
    hide Valid, Ready, Drain, RunAll, Settle, Left, Statuses, Core, InOrder;
    TakeBatch(s);
    TakeFirst(b0);
    StartValid(b, c);
    BoundFirst(s);
    InsideSafe(b, c, codes);
    FinishSafe(b, c, codes);
    var u := Finish(b, c, codes);
    LeftParts(b, u);
    DrainSafe(u, rest, Tail(codes));
    FirstRan(b, c, codes);
    DrainFirst(s, codes);
  }

  lemma BoundFirst(s: State)
    requires Valid(s) && s.completed != [] && s.completed[0].slot.Some?
    ensures var c := s.completed[0];
            Holds(s, c) && s.heap[c.slot.value] in s.bound && Status(c) == s.bound[s.heap[c.slot.value]]
  {
    assert s.completed[0] in s.completed;
    hide Core, InOrder;
  }

  lemma FirstRan(s: State, c: Chunk, codes: seq<Body>)
    requires Holds(s, c) && Kept(Started(s, c), Inside(s, c, codes))
    ensures var t := Finish(s, c, codes);
            |t.runs| > |s.runs| && t.runs[|s.runs|] == Ran(s.heap[c.slot.value], Status(c), s.registered)
  {
    assert Started(s, c).runs <= Inside(s, c, codes).runs;
    hide RunAll, Delete;
  }

  lemma DrainFirst(s: State, codes: seq<Body>)
    requires s.registered && !s.inDones && s.completed != []
    ensures var b := s.(completed := [], batch := s.completed[1..], inDones := true);
            RunCompleted(s, codes) == Drain(Finish(b, s.completed[0], codes), s.completed[1..], Tail(codes))
  {
  }

  /** While a `done` of a batch runs no other starts, whatever it does, unless it frees
      the connection (the flag of 402-404). */
  lemma {:induction false} NoDoneInsideDone(s: State, acts: seq<Act>)
    requires Valid(s) && s.inDones && RunAll(s, acts).registered
    ensures RunAll(s, acts).runs == s.runs
    decreases |acts|
  {
    hide Valid, Perform;
    if acts != [] {
      var t := Perform(s, acts[0]);
      PerformSafe(s, acts[0]);
      RunSafe(t, acts[1..]);
      QuietAct(s, acts[0]);
      NoDoneInsideDone(t, acts[1..]);
    }
  }

  lemma QuietAct(s: State, a: Act)
    requires Valid(s) && s.inDones
    ensures Perform(s, a).registered ==> Perform(s, a).runs == s.runs
  {
    hide Valid, Kept, FreeConn, Enqueue, Make, Delete, Drain;
    if a.Free? { FreeSafe(s, a.codes); }
  }

  /** What runs when chunks are finished off in their order, with the handle there or gone. */
  ghost function AsTold(chunks: seq<Chunk>, heap: map<Addr, nat>, registered: bool): seq<Ran> {
    if chunks == [] then []
    else
      (if chunks[0].slot.Some? && chunks[0].slot.value in heap then [Ran(heap[chunks[0].slot.value], Status(chunks[0]), registered)] else [])
      + AsTold(chunks[1..], heap, registered)
  }

  /** Freeing the connection runs the `done` of every chunk that is still with the
      session, and nothing else, after the handle is gone: first those the session is
      done with, each told the status bound to it, then those not yet sent, stream by
      stream and each stream's in the order of their sends, told that they were
      cancelled.  The code in them can do nothing with the connection any more. */
  lemma FreeRunsPendingInOrder(s: State, codes: seq<Body>)
    requires Valid(s) && s.registered
    ensures Perform(s, Free(codes)) == FreeConn(s, codes) && !FreeConn(s, codes).registered
    ensures FreeConn(s, codes).runs == s.runs + AsTold(s.completed + s.queued, s.heap, false)
    ensures forall c :: c in s.completed && c.slot.Some? ==>
              c.slot.value in s.heap && s.heap[c.slot.value] in s.bound && Status(c) == s.bound[s.heap[c.slot.value]]
    ensures forall c :: c in s.queued && c.slot.Some? ==> c.slot.value in s.heap && Status(c) == UV_ECANCELED
    ensures InOrder(s.queued, s.heap)
  {
    hide Core, InOrder, Held, FinishAll, AsTold;
    TakeAll(s);
    FinishAllRuns(Taken(s), s.completed + s.queued, codes);
  }

  lemma {:induction false} FinishAllRuns(s: State, chunks: seq<Chunk>, codes: seq<Body>)
    requires Valid(s) && !s.registered && s.cancelled == chunks
    ensures FinishAll(s, chunks, codes).runs == s.runs + AsTold(chunks, s.heap, false) && !FinishAll(s, chunks, codes).registered
    decreases |chunks|
  {
    hide Valid, Past, Ready, Core, Finish, Left;
    if chunks == [] {
      assert s.runs + AsTold(chunks, s.heap, false) == s.runs;
    } else {
      var b := s.(cancelled := chunks[1..]);
      var t := Finish(b, chunks[0], codes);
      TakeNext(s);
      FinishSafe(b, chunks[0], codes);
      LeftParts(b, t);
      StaysFreed(b, t);
      FinishLate(b, chunks[0], codes);
      OthersStay(s, t.heap);
      FinishAllRuns(t, chunks[1..], Tail(codes));
      LateAsTold(s, chunks);
    }
  }

  lemma LateAsTold(s: State, chunks: seq<Chunk>)
    requires chunks != [] && (chunks[0].slot.Some? ==> chunks[0].slot.value in s.heap)
    ensures var c := chunks[0];
            s.runs + AsTold(chunks, s.heap, false) ==
              (if c.slot.Some? then s.runs + [Ran(s.heap[c.slot.value], Status(c), false)] else s.runs) + AsTold(chunks[1..], s.heap, false)
  {
    var c, rest := chunks[0], AsTold(chunks[1..], s.heap, false);
    hide Status;
    if c.slot.Some? {
      var ran := [Ran(s.heap[c.slot.value], Status(c), false)];
      assert AsTold(chunks, s.heap, false) == ran + rest;
      hide AsTold;
      assert s.runs + (ran + rest) == s.runs + ran + rest;
    } else {
      assert AsTold(chunks, s.heap, false) == [] + rest;
      hide AsTold;
      assert [] + rest == rest;
    }
  }

  /** Deleting one slot does not touch what the others stand for. */
  lemma OthersStay(s: State, heap: map<Addr, nat>)
    requires Valid(s) && s.cancelled != []
    requires heap == if s.cancelled[0].slot.Some? then s.heap - {s.cancelled[0].slot.value} else s.heap
    ensures AsTold(s.cancelled[1..], heap, false) == AsTold(s.cancelled[1..], s.heap, false)
  {
    var c, rest := s.cancelled[0], s.cancelled[1..];
    if c.slot.Some? {
      HeldCons(s.cancelled);
      assert multiset(s.heap.Keys)[c.slot.value] <= 1;
      assert c.slot.value !in Held(rest);
      SameTold(rest, s.heap, c.slot.value);
    }
    hide Ledgered, Exact, Statuses, InOrder, Held;
  }

  lemma {:induction false} SameTold(chunks: seq<Chunk>, heap: map<Addr, nat>, a: Addr)
    requires a !in Held(chunks)
    ensures AsTold(chunks, heap - {a}, false) == AsTold(chunks, heap, false)
  {
    if chunks != [] {
      SameTold(chunks[1..], heap, a);
    }
  }

  // ----------------------------------------------------------------- a whole batch

  /** While a `done` of a batch runs, what waits in the batch keeps its slots. */
  lemma {:induction false} BatchKeepsSlots(s: State, acts: seq<Act>)
    requires Valid(s) && s.inDones && RunAll(s, acts).registered
    ensures Framed(s.batch, s.heap, RunAll(s, acts).heap)
    decreases |acts|
  {
    hide Valid, Perform, Framed;
    if acts == [] {
      FramedRefl(s.batch, s.heap);
    } else {
      var t := Perform(s, acts[0]);
      PerformSafe(s, acts[0]);
      RunSafe(t, acts[1..]);
      QuietSlots(s, acts[0]);
      BatchKeepsSlots(t, acts[1..]);
      FramedTrans(s.batch, s.heap, t.heap, RunAll(s, acts).heap);
    }
  }

  lemma FramedRefl(chunks: seq<Chunk>, heap: map<Addr, nat>)
    ensures Framed(chunks, heap, heap)
  {
  }

  lemma FramedTrans(chunks: seq<Chunk>, heap: map<Addr, nat>, mid: map<Addr, nat>, after: map<Addr, nat>)
    requires Framed(chunks, heap, mid) && Framed(chunks, mid, after)
    ensures Framed(chunks, heap, after)
  {
  }

  lemma QuietSlots(s: State, a: Act)
    requires Valid(s) && s.inDones
    ensures Perform(s, a).registered ==> Framed(s.batch, s.heap, Perform(s, a).heap)
  {
    hide Valid, Kept, FreeConn, Enqueue, Make, Delete, Drain;
    if a.Free? { FreeSafe(s, a.codes); }
  }

  lemma {:induction false} SameWhenFramed(chunks: seq<Chunk>, heap: map<Addr, nat>, after: map<Addr, nat>, registered: bool)
    requires Framed(chunks, heap, after) && forall c :: c in chunks && c.slot.Some? ==> c.slot.value in heap
    ensures AsTold(chunks, heap, registered) == AsTold(chunks, after, registered)
  {
    if chunks != [] {
      assert chunks[0] in chunks && forall c :: c in chunks[1..] ==> c in chunks;
      SameWhenFramed(chunks[1..], heap, after, registered);
    }
  }

  /** The first of a batch runs, and the rest of the batch is as before, unless its
      `done` has freed the connection. */
  lemma FinishInBatch(s: State, codes: seq<Body>)
    requires Valid(s) && s.registered && s.inDones && s.batch != []
    ensures var c, rest := s.batch[0], s.batch[1..]; var t := Finish(s.(batch := rest), c, codes);
            t.registered ==>
              && t.runs == s.runs + (if c.slot.Some? && c.slot.value in s.heap then [Ran(s.heap[c.slot.value], Status(c), true)] else [])
              && AsTold(rest, t.heap, true) == AsTold(rest, s.heap, true)
  {
    hide Valid, Ready, RunAll, Left, Settle, Framed, AsTold;
    var c, rest := s.batch[0], s.batch[1..];
    var b := s.(batch := rest);
    TakeFirst(s);
    BatchSlots(s);
    if c.slot.Some? {
      StartValid(b, c);
      InsideSafe(b, c, codes);
      var u := Inside(b, c, codes);
      KeptLeft(Started(b, c), u);
      StartedRunning(b, c, u);
      SettleRest(u, c.slot.value);
      if u.registered {
        InsideQuiet(b, c, codes);
        BatchLeft(Started(b, c), u);
        FramedTrans(rest, s.heap, u.heap, Settle(u, c.slot.value).heap);
        SameWhenFramed(rest, s.heap, Settle(u, c.slot.value).heap, true);
      }
    } else {
      BareFinishIs(b, c, codes);
    }
  }

  lemma BatchLeft(s: State, t: State)
    requires Left(s, t)
    ensures t.batch == s.batch
  {
  }

  lemma BatchSlots(s: State)
    requires Valid(s) && s.batch != []
    ensures forall c :: c in s.batch[1..] && c.slot.Some? ==> c.slot.value in s.heap
  {
    assert forall c :: c in s.batch[1..] ==> c in s.batch;
    hide Core, InOrder;
  }

  lemma InsideQuiet(s: State, c: Chunk, codes: seq<Body>)
    requires Holds(s, c) && Valid(Started(s, c)) && s.inDones && Inside(s, c, codes).registered
    ensures Inside(s, c, codes).runs == Started(s, c).runs && Framed(s.batch, s.heap, Inside(s, c, codes).heap)
  {
    hide Valid, RunAll, Framed;
    if codes == [] {
      FramedRefl(s.batch, s.heap);
    } else {
      NoDoneInsideDone(Started(s, c), codes[0].acts);
      BatchKeepsSlots(Started(s, c), codes[0].acts);
    }
  }

  lemma SettleRest(s: State, slot: Addr)
    requires Valid(s) && s.running != [] && s.running[|s.running| - 1] == slot
    ensures var t := Settle(s, slot); t.runs == s.runs && t.registered == s.registered && Framed(s.batch, s.heap, t.heap)
  {
    SettleCore(s, Owned(s));
    FramedBySlots(s.batch, s.heap, slot, 0);
    hide Core, Statuses, InOrder, Held, Delete;
  }

  lemma {:induction false} DrainRunsAll(s: State, dones: seq<Chunk>, codes: seq<Body>)
    requires Valid(s) && s.registered && s.batch == dones && s.inDones
    ensures var t := Drain(s, dones, codes); t.registered ==> t.runs == s.runs + AsTold(dones, s.heap, true)
    decreases |dones|
  {
    hide Valid, Ready, Finish, Left, Past;
    if dones == [] {
      assert s.runs + AsTold(dones, s.heap, true) == s.runs;
    } else {
      var b := s.(batch := dones[1..]);
      var t := Finish(b, dones[0], codes);
      TakeFirst(s);
      FinishSafe(b, dones[0], codes);
      LeftParts(b, t);
      FinishInBatch(s, codes);
      if t.registered { DrainRunsAll(t, dones[1..], Tail(codes)); }
    }
  }

  /** A batch runs the `done` of every chunk that the session is done with, in the order
      in which it was, each with its status and with the handle there, and no other,
      unless one of them frees the connection. */
  lemma BatchRunsAllInOrder(s: State, codes: seq<Body>)
    requires Valid(s) && s.registered && !s.inDones && RunCompleted(s, codes).registered
    ensures RunCompleted(s, codes).runs == s.runs + AsTold(s.completed, s.heap, true)
  {
    TakeBatch(s);
    DrainRunsAll(s.(completed := [], batch := s.completed, inDones := true), s.completed, codes);
    hide Valid, Drain, AsTold;
  }

  lemma RetireParts(s: State, i: nat, status: int)
    requires i < |s.queued|
    ensures var u := RetireChunk(s, i, status);
            && u.completed == s.completed + [s.queued[i].(status := Some(status))]
            && u.runs == s.runs && u.heap == s.heap && u.registered == s.registered && u.inDones == s.inDones
  {
  }

  /** So a chunk that is retired runs in the next batch, told the status it was retired
      with. */
  lemma RetiredIsTold(s: State, i: nat, status: int, codes: seq<Body>)
    requires Valid(s) && s.registered && !s.inDones && i < |s.queued| && s.queued[i].slot.Some?
    requires RunCompleted(Perform(s, Retire(i, status)), codes).registered
    ensures var a := s.queued[i].slot.value;
            && a in s.heap
            && Perform(Perform(s, Retire(i, status)), RunBatch(codes)).runs ==
                 s.runs + AsTold(s.completed, s.heap, true) + [Ran(s.heap[a], status, true)]
  {
    hide Valid, RunCompleted, RetireChunk, AsTold, Kept, Held, InOrder;
    var c, u := s.queued[i], RetireChunk(s, i, status);
    var d := c.(status := Some(status));
    assert c in s.queued;
    HeldIn(s.queued, c);
    NotYetRun(s, c);
    RetireSafe(s, i, status);
    RetireParts(s, i, status);
    BatchRunsAllInOrder(u, codes);
    AsToldSnoc(s.completed, d, s.heap);
    assert s.runs + (AsTold(s.completed, s.heap, true) + [Ran(s.heap[c.slot.value], status, true)])
        == s.runs + AsTold(s.completed, s.heap, true) + [Ran(s.heap[c.slot.value], status, true)];
  }

  lemma {:induction false} AsToldSnoc(chunks: seq<Chunk>, c: Chunk, heap: map<Addr, nat>)
    requires c.slot.Some? && c.slot.value in heap
    ensures AsTold(chunks + [c], heap, true) == AsTold(chunks, heap, true) + [Ran(heap[c.slot.value], Status(c), true)]
    decreases |chunks|
  {
    if chunks == [] {
      assert [c][1..] == [];
    } else {
      assert (chunks + [c])[1..] == chunks[1..] + [c];
      AsToldSnoc(chunks[1..], c, heap);
    }
  }
}
