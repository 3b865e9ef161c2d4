/** Wrappers of server connections in src/capi/uvcpp_c_net.cpp: the live table,
    the callback scopes, the graveyard and its in-place drain.  User code is a
    finite tree of acts, performed inside the callback that runs it, so the
    contracts below hold for every nesting of callbacks.  Memory is explicit and
    the allocator may reuse addresses: every read of `memory[w]` is proved to
    meet an allocated wrapper. */
module TcpReaper {
  import opened Base
  import opened Ledger

  /** The address of a C++ connection object. */
  type Conn = nat

  datatype Wrapper = Wrapper(
    cli: Option<Conn>, reaped: bool, cbDepth: nat, readArmed: bool, onRead: bool, onClose: bool)

  /** What the framework or the user's code does next; `code` is what the user's
      callback does while it runs.  An act that does not apply (reading from a
      connection that is not open, say) is one the framework does not perform. */
  datatype Act =
    | Accept(c: Conn, place: Option<Addr>, code: seq<Act>)  // a connection comes in
    | Read(c: Conn, place: Option<Addr>, code: seq<Act>)    // event for the server's read callback
    | ArmedRead(c: Conn, code: seq<Act>)                    // event for the connection's own
    | Drop(c: Conn, code: seq<Act>)                         // the connection closes
    | CloseHandle(h: Addr, code: seq<Act>)                  // uvcpp_c_tcp_client_close
    | SetEvents(h: Addr, sizeOk: bool, onRead: bool, onClose: bool, connected: bool, rc: int)
    | ReadStop(h: Addr)
    | SetServerEvents(sizeOk: bool, onConnection: bool, onRead: bool)

  /** Sum of the wrappers' own callback depths. */
  ghost function SumDepths(m: map<Addr, Wrapper>): nat {
    if m == map[] then 0 else var w :| w in m; m[w].cbDepth + SumDepths(m - {w})
  }

  lemma {:induction false} SumIsCount(m: map<Addr, Wrapper>, frames: multiset<Addr>)
    requires forall w :: w in m ==> m[w].cbDepth == frames[w]
    requires forall w :: w in frames ==> w in m
    ensures SumDepths(m) == |frames|
  {
    if m == map[] {
      assert frames == multiset{};
    } else {
      var w :| w in m && SumDepths(m) == m[w].cbDepth + SumDepths(m - {w});
      SumIsCount(m - {w}, frames[w := 0]);
    }
  }

  lemma RemoveAt(g: seq<Addr>, i: nat)
    requires NoDup(g) && i < |g|
    ensures var h := g[..i] + g[i + 1..]; NoDup(h) && forall w :: w in h <==> w in g && w != g[i]
  {
    var h := g[..i] + g[i + 1..];
    forall w ensures w in h <==> w in g && w != g[i] {
      if w in g && w != g[i] {
        var k :| 0 <= k < |g| && g[k] == w;
        assert h[if k < i then k else k - 1] == w;
      }
    }
  }

  // ------------------------------------------------ the state of a server

  datatype State = State(
    // uvcpp_c_tcp_server
    cbDepth: nat, live: map<Conn, Addr>, graveyard: seq<Addr>, onConnection: bool, onRead: bool,
    // the handles of this server's connections: storage and registry entries
    memory: map<Addr, Wrapper>, registry: set<Addr>,
    // the framework: open connections, those being closed, and what it captured
    open: set<Conn>, closing: set<Conn>,
    observers: map<Conn, Addr>, readSlots: map<Conn, Addr>, closeSlots: map<Conn, Addr>,
    // history: frames on the callback stack, wrappers made and deleted, closings,
    // handles with which the user's callbacks were entered
    stack: seq<Addr>, book: Book, closes: seq<Conn>, entered: seq<Addr>)

  const FRESH := State(0, map[], [], false, false, map[], {}, {}, {}, map[], map[], map[], [], EMPTY, [], [])

  /** A wrapper's depth is its number of frames on the callback stack; the
      server's depth is the number of all frames. */
  ghost predicate Frames(cbDepth: nat, stack: seq<Addr>, memory: map<Addr, Wrapper>) {
    && cbDepth == |stack|
    && (forall w :: w in multiset(stack) ==> w in memory)
    && (forall w :: w in memory ==> memory[w].cbDepth == multiset(stack)[w])
  }

  /** `live` is a bijection between the wrapped connections and the registered,
      unreaped wrappers. */
  ghost predicate Paired(memory: map<Addr, Wrapper>, registry: set<Addr>, live: map<Conn, Addr>) {
    && (forall w :: w in registry <==> w in memory && !memory[w].reaped)
    && (forall c :: c in live ==> live[c] in registry && memory[live[c]].cli == Some(c))
    && (forall w :: w in registry ==> memory[w].cli.Some? && memory[w].cli.value in live && live[memory[w].cli.value] == w)
  }

  /** A callback the framework holds captured the connection's live wrapper. */
  ghost predicate Captured(slots: map<Conn, Addr>, live: map<Conn, Addr>) {
    forall c :: c in slots ==> c in live && slots[c] == live[c]
  }

  /** `read_armed` says whether the read slot is installed. */
  ghost predicate Armed(memory: map<Addr, Wrapper>, live: map<Conn, Addr>, readSlots: map<Conn, Addr>) {
    forall c :: c in live && live[c] in memory ==> (memory[live[c]].readArmed <==> c in readSlots)
  }

  /** The graveyard holds the reaped wrappers that are still allocated, once. */
  ghost predicate Graves(graveyard: seq<Addr>, memory: map<Addr, Wrapper>) {
    && NoDup(graveyard)
    && (forall w :: w in graveyard <==> w in memory && memory[w].reaped)
  }

  ghost predicate Sound(s: State) {
    && Frames(s.cbDepth, s.stack, s.memory)
    && Paired(s.memory, s.registry, s.live)
    && Armed(s.memory, s.live, s.readSlots)
    && s.observers == s.live && s.live.Keys <= s.open && s.closing <= s.open
    && Captured(s.closeSlots, s.live) && Captured(s.readSlots, s.live)
    && Graves(s.graveyard, s.memory)
    && Exact(s.book, s.memory.Keys)
  }

  /** What holds whenever user code or the framework has control. */
  ghost predicate Valid(s: State) {
    Sound(s) && (s.graveyard != [] ==> s.cbDepth > 0)
  }

  /** What every nested piece of code leaves alone: the frames below it with
      their wrappers, the past, and the wrapper of every connection that it did
      not close. */
  ghost predicate Kept(s: State, t: State) {
    && t.stack == s.stack
    && (forall w :: w in s.stack ==> Same(t.book, s.book, w))
    && Follows(t.book, s.book)
    && t.closing == s.closing
    && s.closes <= t.closes && s.entered <= t.entered
    && (forall c :: c in s.closing ==> c !in t.closes[|s.closes|..])
    && (forall c :: c in s.live && c !in t.closes[|s.closes|..] ==>
          c in t.live && t.live[c] == s.live[c] && Same(t.book, s.book, s.live[c]))
  }

  /** What is on the stack or in the live table is allocated. */
  lemma Allocated(s: State)
    requires Sound(s)
    ensures forall w :: w in s.stack ==> w in s.memory && s.memory[w].cbDepth > 0
    ensures s.live.Values <= s.memory.Keys
    ensures forall w :: w in s.memory ==> Same(s.book, s.book, w)
  {
    forall w | w in s.stack ensures w in s.memory && s.memory[w].cbDepth > 0 {
      assert w in multiset(s.stack);
    }
  }

  lemma KeptTrans(s: State, t: State, u: State)
    requires Kept(s, t) && Kept(t, u)
    ensures Kept(s, u)
  {
    var n := |s.closes|;
    assert u.closes[n..] == t.closes[n..] + u.closes[|t.closes|..];
  }

  // ------------------------------------------------------ graveyard and drain

  /** The depth of the i-th grave; nought where there is none to look at. */
  function GraveDepth(s: State, i: nat): nat {
    if i < |s.graveyard| && s.graveyard[i] in s.memory then s.memory[s.graveyard[i]].cbDepth else 0
  }

  /** Erasing one entry and deleting its wrapper (155-156). */
  function Bury(s: State, i: nat): State
    requires i < |s.graveyard|
  {
    var w := s.graveyard[i];
    s.(graveyard := s.graveyard[..i] + s.graveyard[i + 1..], memory := s.memory - {w}, book := Delete(s.book, w))
  }

  lemma FreedKeepsTables(s: State, w: Addr)
    requires Sound(s) && w in s.memory && s.memory[w].cbDepth == 0 && s.memory[w].reaped
    ensures Frames(s.cbDepth, s.stack, s.memory - {w}) && Paired(s.memory - {w}, s.registry, s.live)
    ensures Armed(s.memory - {w}, s.live, s.readSlots)
  {
  }

  lemma BurySound(s: State, i: nat)
    requires Sound(s) && i < |s.graveyard| && GraveDepth(s, i) == 0
    ensures Sound(Bury(s, i)) && s.graveyard[i] in s.memory && s.memory[s.graveyard[i]].reaped
  {
    var w := s.graveyard[i];
    FreedKeepsTables(s, w);
    RemoveAt(s.graveyard, i);
    DeleteExact(s.book, s.memory.Keys, w);
    assert (s.memory - {w}).Keys == s.memory.Keys - {w};
  }

  lemma BuryKept(s: State, i: nat)
    requires Sound(s) && i < |s.graveyard| && GraveDepth(s, i) == 0
    ensures Kept(s, Bury(s, i))
  {
    var w := s.graveyard[i];
    assert w !in multiset(s.stack);
    assert w !in s.stack;
  }

  /** CallbackScope::drain (147-158) from index i on. */
  function DrainFrom(s: State, i: nat): State
    decreases |s.graveyard| - i
  {
    if i >= |s.graveyard| then s
    else if GraveDepth(s, i) != 0 then DrainFrom(s, i + 1)
    else DrainFrom(Bury(s, i), i)
  }

  /** Only reaped wrappers without a frame on the stack are gone. */
  ghost predicate Trimmed(s: State, t: State) {
    && t == s.(graveyard := t.graveyard, memory := t.memory, book := t.book)
    && (forall w :: w in t.memory ==> w in s.memory && t.memory[w] == s.memory[w])
    && (forall w :: w in s.memory && w !in t.memory ==> s.memory[w].reaped && s.memory[w].cbDepth == 0)
  }

  lemma {:induction false} DrainSound(s: State, i: nat)
    requires Sound(s)
    ensures var t := DrainFrom(s, i); Sound(t) && Kept(s, t) && Trimmed(s, t)
    decreases |s.graveyard| - i
  {
    hide Sound, Kept;
    if i < |s.graveyard| && GraveDepth(s, i) != 0 {
      DrainSound(s, i + 1);
    } else if i < |s.graveyard| {
      BurySound(s, i);
      BuryKept(s, i);
      DrainSound(Bury(s, i), i);
      KeptTrans(s, Bury(s, i), DrainFrom(s, i));
    } else {
      KeptRefl(s);
    }
  }

  lemma KeptRefl(s: State)
    requires Sound(s)
    ensures Kept(s, s)
  {
    forall w | w in s.stack ensures w in s.memory {
      assert w in multiset(s.stack);
    }
  }

  ghost predicate Skipped(s: State, i: nat) {
    forall k :: 0 <= k < i && k < |s.graveyard| ==> GraveDepth(s, k) != 0
  }

  lemma {:induction false} DrainComplete(s: State, i: nat)
    requires Sound(s) && Skipped(s, i)
    ensures var t := DrainFrom(s, i); Skipped(t, |t.graveyard|)
    decreases |s.graveyard| - i
  {
    if i < |s.graveyard| && GraveDepth(s, i) != 0 {
      DrainComplete(s, i + 1);
    } else if i < |s.graveyard| {
      BurySound(s, i);
      BurySkips(s, i);
      hide Sound, Skipped, GraveDepth;
      DrainComplete(Bury(s, i), i);
    }
  }

  lemma BurySkips(s: State, i: nat)
    requires Sound(s) && i < |s.graveyard| && Skipped(s, i)
    ensures Skipped(Bury(s, i), i)
  {
    forall k | 0 <= k < i ensures GraveDepth(Bury(s, i), k) == GraveDepth(s, k) {
      assert s.graveyard[k] != s.graveyard[i];
    }
  }

  /** A wrapper with a frame on the stack makes the server's depth positive. */
  lemma NoFrameNoGrave(s: State)
    requires Sound(s) && Skipped(s, |s.graveyard|)
    ensures Valid(s)
  {
    if s.graveyard != [] {
      assert GraveDepth(s, 0) != 0;
      assert s.graveyard[0] in multiset(s.stack);
    }
  }

  /** Draining deletes exactly the reaped wrappers without a frame on the stack,
      and disturbs nothing else. */
  lemma DrainExact(s: State)
    requires Sound(s)
    ensures var t := DrainFrom(s, 0);
            && Valid(t) && Kept(s, t) && Trimmed(s, t)
            && (forall w :: w in t.memory <==> w in s.memory && !(s.memory[w].reaped && s.memory[w].cbDepth == 0))
  {
    var t := DrainFrom(s, 0);
    DrainSound(s, 0);
    DrainComplete(s, 0);
    NoFrameNoGrave(t);
    forall w | w in t.memory && t.memory[w].reaped ensures t.memory[w].cbDepth != 0 {
      var k :| 0 <= k < |t.graveyard| && t.graveyard[k] == w;
      assert GraveDepth(t, k) != 0;
    }
  }

  // ------------------------------------------------------ the wrappers' life

  /** wrap_client (202-225); `place` is what the allocator returns. */
  function Wrap(s: State, c: Conn, place: Option<Addr>): (State, Option<Addr>) {
    if c in s.live then (s, Some(s.live[c]))
    else if place.None? then (s, None)
    else
      var w := place.value;
      (s.(memory := s.memory[w := Fresh(c)], registry := s.registry + {w},
          live := s.live[c := w], observers := s.observers[c := w], book := Make(s.book, w)), Some(w))
  }

  /** The allocator never hands out an address that is in use. */
  predicate Fits(s: State, place: Option<Addr>) {
    place.Some? ==> place.value !in s.memory
  }

  function Fresh(c: Conn): Wrapper {
    Wrapper(Some(c), false, 0, false, false, false)
  }

  lemma NewPaired(m: map<Addr, Wrapper>, registry: set<Addr>, live: map<Conn, Addr>, c: Conn, w: Addr)
    requires Paired(m, registry, live) && c !in live && w !in m
    ensures Paired(m[w := Fresh(c)], registry + {w}, live[c := w])
  {
  }

  lemma NewFrames(cbDepth: nat, stack: seq<Addr>, m: map<Addr, Wrapper>, c: Conn, w: Addr)
    requires Frames(cbDepth, stack, m) && w !in m
    ensures Frames(cbDepth, stack, m[w := Fresh(c)])
  {
    assert w !in multiset(stack);
  }

  lemma NewGraves(graveyard: seq<Addr>, m: map<Addr, Wrapper>, c: Conn, w: Addr)
    requires Graves(graveyard, m) && w !in m
    ensures Graves(graveyard, m[w := Fresh(c)])
  {
  }

  lemma NewSlots(s: State, c: Conn, w: Addr)
    requires Captured(s.readSlots, s.live) && Captured(s.closeSlots, s.live) && Armed(s.memory, s.live, s.readSlots)
    requires c !in s.live && w !in s.memory && s.live.Values <= s.memory.Keys
    ensures var live := s.live[c := w];
            Captured(s.readSlots, live) && Captured(s.closeSlots, live) && Armed(s.memory[w := Fresh(c)], live, s.readSlots)
  {
  }

  lemma WrapNew(s: State, c: Conn, w: Addr)
    requires Valid(s) && Kept(s, s) && c in s.open && c !in s.live && w !in s.memory
    requires s.live.Values <= s.memory.Keys
    ensures var t := Wrap(s, c, Some(w)).0;
            Valid(t) && Kept(s, t) && w in t.memory && c in t.live && t.live[c] == w
  {
    hide Frames, Paired, Armed, Captured, Graves, Exact, Make, Kept, Fresh;
    NewFrames(s.cbDepth, s.stack, s.memory, c, w);
    NewPaired(s.memory, s.registry, s.live, c, w);
    NewGraves(s.graveyard, s.memory, c, w);
    NewSlots(s, c, w);
    MakeExact(s.book, s.memory.Keys, w);
    assert s.memory[w := Fresh(c)].Keys == s.memory.Keys + {w};
    WrapKept(s, c, w);
  }

  /** The wrapper handed out is the connection's live one, the same as before if
      there was one. */
  lemma WrapValid(s: State, c: Conn, place: Option<Addr>)
    requires Valid(s) && c in s.open && Fits(s, place)
    ensures var (t, w) := Wrap(s, c, place);
            Valid(t) && Kept(s, t) && (w.Some? ==> c in t.live && t.live[c] == w.value && w.value in t.memory)
  {
    KeptRefl(s);
    assert s.live.Values <= s.memory.Keys;
    if c !in s.live && place.Some? {
      WrapNew(s, c, place.value);
    }
    hide Sound, Kept;
  }

  lemma WrapKept(s: State, c: Conn, w: Addr)
    requires Sound(s) && Kept(s, s) && c !in s.live && w !in s.memory
    ensures Kept(s, Wrap(s, c, Some(w)).0)
  {
    hide Frames, Paired, Armed, Captured, Graves, Exact;
    Allocated(s);
    MakeSame(s.book, s.memory.Keys, w);
    forall d | d in s.live ensures s.live[d] in s.memory {
      assert s.live[d] in s.live.Values;
    }
  }

  // ---------------------------------------------------------- callback scopes

  /** CallbackScope's constructor (124-127). */
  function Enter(s: State, w: Addr): State {
    if w !in s.memory then s
    else s.(memory := s.memory[w := s.memory[w].(cbDepth := s.memory[w].cbDepth + 1)],
            cbDepth := s.cbDepth + 1, stack := s.stack + [w], entered := s.entered + [w])
  }

  /** Its destructor before the drain (128-131). */
  function Pop(s: State, w: Addr): State {
    if w !in s.memory || s.memory[w].cbDepth == 0 || s.cbDepth == 0 || s.stack == [] then s
    else s.(memory := s.memory[w := s.memory[w].(cbDepth := s.memory[w].cbDepth - 1)],
            cbDepth := s.cbDepth - 1, stack := s.stack[..|s.stack| - 1])
  }

  function Leave(s: State, w: Addr): State {
    DrainFrom(Pop(s, w), 0)
  }

  function Deepen(m: map<Addr, Wrapper>, w: Addr, d: nat): map<Addr, Wrapper>
    requires w in m
  {
    m[w := m[w].(cbDepth := d)]
  }

  /** A wrapper's depth has no part in the tables. */
  lemma DepthPaired(m: map<Addr, Wrapper>, registry: set<Addr>, live: map<Conn, Addr>, w: Addr, d: nat)
    requires Paired(m, registry, live) && w in m
    ensures Paired(Deepen(m, w, d), registry, live)
  {
  }

  lemma DepthRest(s: State, w: Addr, d: nat)
    requires Graves(s.graveyard, s.memory) && Armed(s.memory, s.live, s.readSlots) && w in s.memory
    ensures Graves(s.graveyard, Deepen(s.memory, w, d)) && Armed(Deepen(s.memory, w, d), s.live, s.readSlots)
    ensures Deepen(s.memory, w, d).Keys == s.memory.Keys
  {
  }

  lemma EnterFrames(cbDepth: nat, stack: seq<Addr>, m: map<Addr, Wrapper>, w: Addr)
    requires Frames(cbDepth, stack, m) && w in m
    ensures Frames(cbDepth + 1, stack + [w], Deepen(m, w, m[w].cbDepth + 1))
  {
    assert multiset(stack + [w]) == multiset(stack) + multiset{w};
  }

  lemma PopFrames(cbDepth: nat, stack: seq<Addr>, m: map<Addr, Wrapper>, w: Addr)
    requires Frames(cbDepth, stack, m) && stack != [] && stack[|stack| - 1] == w
    ensures w in m && m[w].cbDepth > 0 && cbDepth > 0
    ensures Frames(cbDepth - 1, stack[..|stack| - 1], Deepen(m, w, m[w].cbDepth - 1))
  {
    var below := stack[..|stack| - 1];
    assert stack == below + [w];
    assert multiset(stack) == multiset(below) + multiset{w};
    assert w in multiset(stack);
  }

  lemma EnterValid(s: State, w: Addr)
    requires Valid(s) && w in s.memory
    ensures Valid(Enter(s, w)) && Enter(s, w).stack == s.stack + [w] && Enter(s, w).closes == s.closes
  {
    hide Frames, Paired, Armed, Captured, Graves, Exact;
    EnterFrames(s.cbDepth, s.stack, s.memory, w);
    DepthPaired(s.memory, s.registry, s.live, w, s.memory[w].cbDepth + 1);
    DepthRest(s, w, s.memory[w].cbDepth + 1);
  }

  lemma PopSound(s: State, w: Addr)
    requires Sound(s) && s.stack != [] && s.stack[|s.stack| - 1] == w
    ensures Sound(Pop(s, w))
  {
    hide Frames, Paired, Armed, Captured, Graves, Exact;
    PopFrames(s.cbDepth, s.stack, s.memory, w);
    DepthPaired(s.memory, s.registry, s.live, w, s.memory[w].cbDepth - 1);
    DepthRest(s, w, s.memory[w].cbDepth - 1);
  }

  /** Whatever the user's code did in a callback, leaving its scope finds the
      wrapper it entered with still there, and disturbs no frame below. */
  lemma ScopeValid(s: State, w: Addr, t: State)
    requires Valid(s) && w in s.memory && Valid(t) && Kept(Enter(s, w), t)
    ensures w in t.memory && Same(t.book, s.book, w) && Valid(Leave(t, w)) && Kept(s, Leave(t, w))
  {
    assert t.stack == s.stack + [w];
    assert w in Enter(s, w).stack;
    PopFrames(t.cbDepth, t.stack, t.memory, w);
    PopSound(t, w);
    PopKept(s, w, t);
    hide Sound, Kept, Enter;
    DrainExact(Pop(t, w));
    KeptTrans(s, Pop(t, w), Leave(t, w));
  }

  lemma PopKept(s: State, w: Addr, t: State)
    requires w in s.memory && Kept(Enter(s, w), t) && w in t.memory && t.memory[w].cbDepth > 0 && t.cbDepth > 0
    ensures Kept(s, Pop(t, w))
  {
    var e := Enter(s, w);
    assert forall v :: v in s.stack ==> v in e.stack;
    assert Pop(t, w).stack == s.stack;
  }

  // ------------------------------------------------------------- reap, close

  /** reap_client (181-199). */
  function Reap(s: State, w: Addr): State {
    if w !in s.memory || s.memory[w].reaped then s
    else
      var cli := s.memory[w].cli;
      var t := s.(memory := s.memory[w := s.memory[w].(reaped := true, cli := None)], registry := s.registry - {w},
                  live := if cli.Some? then s.live - {cli.value} else s.live);
      if s.cbDepth > 0 || s.memory[w].cbDepth > 0 then t.(graveyard := s.graveyard + [w])
      else t.(memory := t.memory - {w}, book := Delete(s.book, w))
  }

  /** The framework is done with a connection: nothing it holds for it can fire
      any more, except that its close observer runs once. */
  function Forget(s: State, c: Conn): State {
    s.(open := s.open - {c}, closing := s.closing - {c}, observers := s.observers - {c},
       readSlots := s.readSlots - {c}, closeSlots := s.closeSlots - {c}, closes := s.closes + [c])
  }

  function Finish(s: State, c: Conn): State {
    if c in s.observers then Reap(Forget(s, c), s.observers[c]) else Forget(s, c)
  }

  function Corpse(m: map<Addr, Wrapper>, w: Addr): map<Addr, Wrapper>
    requires w in m
  {
    m[w := m[w].(reaped := true, cli := None)]
  }

  lemma ReapPaired(m: map<Addr, Wrapper>, registry: set<Addr>, live: map<Conn, Addr>, c: Conn)
    requires Paired(m, registry, live) && c in live
    ensures var w := live[c]; w in m && !m[w].reaped && m[w].cli == Some(c)
    ensures var w := live[c]; Paired(Corpse(m, w), registry - {w}, live - {c}) && Paired(m - {w}, registry - {w}, live - {c})
  {
  }

  lemma ReapFrames(s: State, w: Addr)
    requires Frames(s.cbDepth, s.stack, s.memory) && w in s.memory
    ensures Frames(s.cbDepth, s.stack, Corpse(s.memory, w))
    ensures s.memory[w].cbDepth == 0 ==> Frames(s.cbDepth, s.stack, s.memory - {w})
  {
  }

  lemma ReapSlots(s: State, c: Conn)
    requires Captured(s.readSlots, s.live) && Captured(s.closeSlots, s.live) && Armed(s.memory, s.live, s.readSlots)
    requires c in s.live && s.live[c] in s.memory
    requires forall d :: d in s.live && s.live[d] == s.live[c] ==> d == c
    ensures var live := s.live - {c}; var w := s.live[c];
            && Captured(s.readSlots - {c}, live) && Captured(s.closeSlots - {c}, live)
            && Armed(Corpse(s.memory, w), live, s.readSlots - {c}) && Armed(s.memory - {w}, live, s.readSlots - {c})
  {
  }

  lemma ReapGraves(graveyard: seq<Addr>, m: map<Addr, Wrapper>, w: Addr)
    requires Graves(graveyard, m) && w in m && !m[w].reaped
    ensures Graves(graveyard + [w], Corpse(m, w)) && Graves(graveyard, m - {w})
  {
    forall v ensures v in graveyard + [w] <==> v in graveyard || v == w {
    }
  }

  lemma FinishSound(s: State, c: Conn)
    requires Sound(s) && c in s.live
    ensures Sound(Finish(s, c))
  {
    hide Frames, Paired, Armed, Captured, Graves, Exact, Delete, Reap, Corpse;
    var w := s.live[c];
    FinishParts(s, c);
    LiveTable(s, c);
    ReapPaired(s.memory, s.registry, s.live, c);
    ReapFrames(s, w);
    ReapSlots(s, c);
    ReapGraves(s.graveyard, s.memory, w);
    DeleteExact(s.book, s.memory.Keys, w);
    CorpseKeys(s.memory, w);
  }

  lemma CorpseKeys(m: map<Addr, Wrapper>, w: Addr)
    requires w in m
    ensures Corpse(m, w).Keys == m.Keys && (m - {w}).Keys == m.Keys - {w}
  {
  }

  lemma LiveTable(s: State, c: Conn)
    requires Sound(s) && c in s.live
    ensures forall d :: d in s.live && s.live[d] == s.live[c] ==> d == c
    ensures (s.live - {c}).Keys == s.live.Keys - {c}
  {
  }

  /** What a close does to the wrapper of a connection that has one. */
  lemma FinishParts(s: State, c: Conn)
    requires Sound(s) && c in s.live
    ensures var t := Finish(s, c); var w := s.live[c];
            && w in s.memory
            && t == Forget(s, c).(registry := s.registry - {w}, live := s.live - {c},
                                  memory := t.memory, graveyard := t.graveyard, book := t.book)
            && if s.cbDepth > 0 || s.memory[w].cbDepth > 0
               then t.memory == Corpse(s.memory, w) && t.graveyard == s.graveyard + [w] && t.book == s.book
               else t.memory == s.memory - {w} && t.graveyard == s.graveyard && t.book == Delete(s.book, w)
  {
    ReapPaired(s.memory, s.registry, s.live, c);
    var w := s.live[c];
    assert Corpse(s.memory, w) - {w} == s.memory - {w};
    hide Frames, Paired, Armed, Captured, Graves, Exact, Delete;
  }

  lemma FinishIdle(s: State, c: Conn)
    requires Sound(s) && c !in s.live
    ensures Sound(Finish(s, c))
  {
    assert s.readSlots - {c} == s.readSlots && s.closeSlots - {c} == s.closeSlots && s.observers - {c} == s.observers;
    hide Frames, Paired, Armed, Captured, Graves, Exact;
  }

  /** After a connection's close: its wrapper is no longer registered, and it is
      deleted at once or buried, as the callbacks in progress demand. */
  lemma FinishValid(s: State, c: Conn)
    requires Valid(s)
    ensures var t := Finish(s, c); Valid(t) && c !in t.live && c !in t.open
    ensures c in s.live ==> s.live[c] !in Finish(s, c).registry
  {
    if c in s.live {
      FinishSound(s, c);
    } else {
      FinishIdle(s, c);
    }
  }

  lemma FinishSame(s: State, c: Conn)
    requires Sound(s)
    ensures var t := Finish(s, c);
            && Follows(t.book, s.book) && t.live == s.live - {c}
            && t.stack == s.stack && t.closing == s.closing - {c} && t.closes == s.closes + [c] && t.entered == s.entered
            && (forall w :: w in s.stack || (w in s.live.Values && !(c in s.live && s.live[c] == w)) ==> Same(t.book, s.book, w))
  {
    hide Frames, Paired, Armed, Captured, Graves, Exact, Delete, Reap;
    Allocated(s);
    if c in s.live {
      FinishParts(s, c);
      DeleteSame(s.book, s.memory.Keys, s.live[c]);
    } else {
      assert s.live - {c} == s.live;
    }
  }

  lemma FinishKept(s: State, s1: State, c: Conn)
    requires Valid(s1) && c in s.open && c !in s.closing
    requires Kept(s.(closing := s.closing + {c}), s1)
    ensures Kept(s, Finish(s1, c))
  {
    var t := Finish(s1, c);
    hide Sound, Finish;
    FinishSame(s1, c);
    ReapDistinct(s1, c);
    var n := |s.closes|;
    assert t.closes[n..] == s1.closes[n..] + [c];
    forall d | d in s.live && d !in t.closes[n..]
      ensures d in t.live && t.live[d] == s.live[d] && Same(t.book, s.book, s.live[d])
    {
      assert d in s1.live && d != c && s1.live[d] in s1.live.Values;
      assert Same(t.book, s1.book, s1.live[d]);
    }
  }

  lemma ReapDistinct(s: State, c: Conn)
    requires Sound(s)
    ensures forall d :: d in s.live && d != c ==> !(c in s.live && s.live[c] == s.live[d])
  {
  }

  // --------------------------------------------------- a connection's own table

  /** maybe_arm_read (233-251); the framework answers `connected`, and `rc` if it
      is asked to start reading. */
  function ArmRead(s: State, h: Addr, connected: bool, rc: int): (State, Code) {
    if h !in s.memory || s.memory[h].cli.None? then (s, Stale)
    else
      var w := s.memory[h];
      if w.readArmed || (!w.onRead && !w.onClose) || !connected then (s, Ok)
      else if rc != 0 then (s, Engine(rc))
      else (s.(memory := s.memory[h := w.(readArmed := true)], readSlots := s.readSlots[w.cli.value := h]), Ok)
  }

  /** uvcpp_c_tcp_client_set_events (316-371). */
  function SetTable(s: State, h: Addr, sizeOk: bool, onRead: bool, onClose: bool, connected: bool, rc: int): (State, Code) {
    if h !in s.registry || h !in s.memory || s.memory[h].cli.None? then (s, Stale)
    else
      var c := s.memory[h].cli.value;
      var t := s.(memory := s.memory[h := s.memory[h].(onRead := sizeOk && onRead, onClose := sizeOk && onClose)]);
      if !sizeOk then (t, InvalidArg)
      else ArmRead(t.(closeSlots := if onClose then s.closeSlots[c := h] else s.closeSlots - {c}), h, connected, rc)
  }

  /** uvcpp_c_tcp_client_read_stop (471-482). */
  function StopReading(s: State, h: Addr): State {
    if h !in s.registry || h !in s.memory || s.memory[h].cli.None? then s
    else s.(memory := s.memory[h := s.memory[h].(readArmed := false)], readSlots := s.readSlots - {s.memory[h].cli.value})
  }

  /** `w` differs from the record at h in its flags only. */
  ghost predicate Reflagged(m: map<Addr, Wrapper>, h: Addr, w: Wrapper) {
    h in m && w.cli == m[h].cli && w.reaped == m[h].reaped && w.cbDepth == m[h].cbDepth
  }

  lemma FlagsFrames(cbDepth: nat, stack: seq<Addr>, m: map<Addr, Wrapper>, h: Addr, w: Wrapper)
    requires Frames(cbDepth, stack, m) && Reflagged(m, h, w)
    ensures Frames(cbDepth, stack, m[h := w])
  {
  }

  lemma FlagsGraves(graveyard: seq<Addr>, m: map<Addr, Wrapper>, h: Addr, w: Wrapper)
    requires Graves(graveyard, m) && Reflagged(m, h, w)
    ensures Graves(graveyard, m[h := w])
  {
  }

  lemma FlagsPaired(m: map<Addr, Wrapper>, registry: set<Addr>, live: map<Conn, Addr>, h: Addr, w: Wrapper)
    requires Paired(m, registry, live) && h in registry && Reflagged(m, h, w)
    ensures Paired(m[h := w], registry, live) && w.cli.Some? && w.cli.value in live && live[w.cli.value] == h
    ensures forall c :: c in live && live[c] == h ==> c == w.cli.value
  {
  }

  /** A table change touches the handle's flags and its connection's two slots,
      and the armed flag follows the read slot. */
  ghost predicate Adjusted(s: State, t: State, h: Addr, w: Wrapper, c: Conn) {
    && Reflagged(s.memory, h, w) && w.cli == Some(c)
    && t == s.(memory := s.memory[h := w], closeSlots := t.closeSlots, readSlots := t.readSlots)
    && (t.closeSlots == s.closeSlots || t.closeSlots == s.closeSlots - {c} || t.closeSlots == s.closeSlots[c := h])
    && (if w.readArmed == s.memory[h].readArmed then t.readSlots == s.readSlots
        else t.readSlots == if w.readArmed then s.readSlots[c := h] else s.readSlots - {c})
  }

  lemma AdjustedSlots(s: State, t: State, h: Addr, w: Wrapper, c: Conn)
    requires Adjusted(s, t, h, w, c) && c in s.live && s.live[c] == h
    requires forall d :: d in s.live && s.live[d] == h ==> d == c
    requires Armed(s.memory, s.live, s.readSlots) && Captured(s.readSlots, s.live) && Captured(s.closeSlots, s.live)
    ensures Armed(t.memory, t.live, t.readSlots) && Captured(t.readSlots, t.live) && Captured(t.closeSlots, t.live)
  {
  }

  lemma AdjustedValid(s: State, t: State, h: Addr, w: Wrapper, c: Conn)
    requires Valid(s) && h in s.registry && Adjusted(s, t, h, w, c)
    ensures Valid(t)
  {
    hide Frames, Paired, Graves, Exact, Armed, Captured, Reflagged;
    FlagsFrames(s.cbDepth, s.stack, s.memory, h, w);
    FlagsGraves(s.graveyard, s.memory, h, w);
    FlagsPaired(s.memory, s.registry, s.live, h, w);
    AdjustedSlots(s, t, h, w, c);
    SameKeys(s.memory, h, w);
    hide Adjusted;
  }

  lemma SameKeys(m: map<Addr, Wrapper>, h: Addr, w: Wrapper)
    requires Reflagged(m, h, w)
    ensures m[h := w].Keys == m.Keys
  {
  }

  lemma AdjustedKept(s: State, t: State, h: Addr, w: Wrapper, c: Conn)
    requires Adjusted(s, t, h, w, c) && Kept(s, s)
    ensures Kept(s, t)
  {
  }

  lemma SetTableAdjusts(s: State, h: Addr, sizeOk: bool, onRead: bool, onClose: bool, connected: bool, rc: int)
    requires h in s.registry && h in s.memory && s.memory[h].cli.Some?
    ensures var t := SetTable(s, h, sizeOk, onRead, onClose, connected, rc).0;
            h in t.memory && Adjusted(s, t, h, t.memory[h], s.memory[h].cli.value)
  {
    var t := SetTable(s, h, sizeOk, onRead, onClose, connected, rc).0;
    assert t.memory == s.memory[h := t.memory[h]];
  }

  lemma StopAdjusts(s: State, h: Addr)
    requires h in s.registry && h in s.memory && s.memory[h].cli.Some?
    requires s.memory[h].readArmed <==> s.memory[h].cli.value in s.readSlots
    ensures var t := StopReading(s, h); h in t.memory && Adjusted(s, t, h, t.memory[h], s.memory[h].cli.value)
  {
    var c := s.memory[h].cli.value;
    assert !s.memory[h].readArmed ==> s.readSlots - {c} == s.readSlots;
  }

  lemma RegisteredFacts(s: State, h: Addr)
    requires Sound(s) && h in s.registry
    ensures h in s.memory && s.memory[h].cli.Some? && (s.memory[h].readArmed <==> s.memory[h].cli.value in s.readSlots)
  {
  }

  /** Reading starts at most once, as soon as there is a callback to serve and a
      connection to read from. */
  lemma ArmEffect(s: State, h: Addr, connected: bool, rc: int)
    requires h in s.memory && s.memory[h].cli.Some? && (s.memory[h].readArmed <==> s.memory[h].cli.value in s.readSlots)
    ensures var (t, code) := ArmRead(s, h, connected, rc); var c := s.memory[h].cli.value; var w := s.memory[h];
            && t == s.(memory := t.memory, readSlots := t.readSlots)
            && h in t.memory && t.memory[h] == w.(readArmed := t.memory[h].readArmed)
            && (c in t.readSlots <==> c in s.readSlots || ((w.onRead || w.onClose) && connected && rc == 0))
            && (t.memory[h].readArmed <==> c in t.readSlots)
            && (c in s.readSlots ==> t == s && code == Ok)
            && (forall d :: d != c ==> (d in t.readSlots <==> d in s.readSlots))
            && code != InvalidArg && code != Stale
  {
  }

  /** What a table means for the connection: both callbacks are as given, the close
      callback is installed exactly if given, and no other connection is touched. */
  lemma SetTableEffect(s: State, h: Addr, onRead: bool, onClose: bool, connected: bool, rc: int)
    requires Valid(s) && h in s.registry
    ensures h in s.memory && s.memory[h].cli.Some?
    ensures var (t, code) := SetTable(s, h, true, onRead, onClose, connected, rc); var c := s.memory[h].cli.value;
            && code != InvalidArg && h in t.memory && t.memory[h].onRead == onRead && t.memory[h].onClose == onClose
            && (c in t.closeSlots <==> onClose)
            && (c in t.readSlots <==> c in s.readSlots || ((onRead || onClose) && connected && rc == 0))
            && (forall d :: d != c ==> (d in t.readSlots <==> d in s.readSlots) && (d in t.closeSlots <==> d in s.closeSlots))
  {
    hide Sound, ArmRead, SetTable;
    RegisteredFacts(s, h);
    var b := WithTable(s, h, onRead, onClose);
    SetTableArms(s, h, onRead, onClose, connected, rc);
    ArmEffect(b, h, connected, rc);
  }

  /** The table is stored before reading starts. */
  function WithTable(s: State, h: Addr, onRead: bool, onClose: bool): State
    requires h in s.memory && s.memory[h].cli.Some?
  {
    var c := s.memory[h].cli.value;
    s.(memory := s.memory[h := s.memory[h].(onRead := onRead, onClose := onClose)],
       closeSlots := if onClose then s.closeSlots[c := h] else s.closeSlots - {c})
  }

  lemma SetTableArms(s: State, h: Addr, onRead: bool, onClose: bool, connected: bool, rc: int)
    requires h in s.registry && h in s.memory && s.memory[h].cli.Some?
    ensures SetTable(s, h, true, onRead, onClose, connected, rc) == ArmRead(WithTable(s, h, onRead, onClose), h, connected, rc)
  {
    hide ArmRead;
  }

  /** One that is too short takes both callbacks away and touches nothing else. */
  lemma ShortTableEffect(s: State, h: Addr, onRead: bool, onClose: bool, connected: bool, rc: int)
    requires Valid(s) && h in s.registry
    ensures h in s.memory
    ensures var (t, code) := SetTable(s, h, false, onRead, onClose, connected, rc);
            && code == InvalidArg && t == s.(memory := t.memory) && t.memory.Keys == s.memory.Keys
            && (forall w :: w in s.memory && w != h ==> t.memory[w] == s.memory[w])
            && !t.memory[h].onRead && !t.memory[h].onClose && t.memory[h].readArmed == s.memory[h].readArmed
  {
    hide Sound, ArmRead;
    RegisteredFacts(s, h);
  }

  lemma SetTableValid(s: State, h: Addr, sizeOk: bool, onRead: bool, onClose: bool, connected: bool, rc: int)
    requires Valid(s)
    ensures var t := SetTable(s, h, sizeOk, onRead, onClose, connected, rc).0; Valid(t) && Kept(s, t)
  {
    hide Sound, Kept, Adjusted;
    KeptRefl(s);
    if h in s.registry {
      var t := SetTable(s, h, sizeOk, onRead, onClose, connected, rc).0;
      RegisteredFacts(s, h);
      SetTableAdjusts(s, h, sizeOk, onRead, onClose, connected, rc);
      hide SetTable;
      AdjustedValid(s, t, h, t.memory[h], s.memory[h].cli.value);
      AdjustedKept(s, t, h, t.memory[h], s.memory[h].cli.value);
    }
  }

  lemma StopReadingValid(s: State, h: Addr)
    requires Valid(s)
    ensures var t := StopReading(s, h); Valid(t) && Kept(s, t)
  {
    hide Sound, Kept, Adjusted;
    KeptRefl(s);
    if h in s.registry {
      var t := StopReading(s, h);
      RegisteredFacts(s, h);
      StopAdjusts(s, h);
      AdjustedValid(s, t, h, t.memory[h], s.memory[h].cli.value);
      AdjustedKept(s, t, h, t.memory[h], s.memory[h].cli.value);
    }
  }

  // ------------------------------------------------------------------- runs

  /** A trampoline's body: the scope, and in it what the user's callback does. */
  function Scope(s: State, w: Addr, code: seq<Act>): State
    decreases code, 1
  {
    Leave(RunAll(Enter(s, w), code), w)
  }

  /** A connection closes: its close callback (355-361), then its observer. */
  function Close(s: State, c: Conn, code: seq<Act>): State
    decreases code, 2
  {
    if c !in s.open || c in s.closing then s
    else
      var t := s.(closing := s.closing + {c});
      Finish(if c in s.closeSlots && s.closeSlots[c] in s.memory && s.memory[s.closeSlots[c]].onClose
             then Scope(t, s.closeSlots[c], code) else t, c)
  }

  function Perform(s: State, a: Act): State
    decreases a, 0
  {
    match a
    case Accept(c, place, code) =>  // 740-751
      if c in s.open || !Fits(s, place) then s
      else
        var (t, w) := Wrap(s.(open := s.open + {c}), c, place);
        if !t.onConnection || w.None? then t else Scope(t, w.value, code)
    case Read(c, place, code) =>  // 669-682
      if c !in s.open || c in s.closing || !Fits(s, place) || !s.onRead then s
      else
        var (t, w) := Wrap(s, c, place);
        if w.None? then t else Scope(t, w.value, code)
    case ArmedRead(c, code) =>  // 239-248
      if c !in s.readSlots || c in s.closing || s.readSlots[c] !in s.memory || !s.memory[s.readSlots[c]].onRead then s
      else Scope(s, s.readSlots[c], code)
    case Drop(c, code) => Close(s, c, code)
    case CloseHandle(h, code) =>  // 484-490
      if h !in s.registry || h !in s.memory || s.memory[h].cli.None? then s
      else Close(s, s.memory[h].cli.value, code)
    case SetEvents(h, sizeOk, onRead, onClose, connected, rc) => SetTable(s, h, sizeOk, onRead, onClose, connected, rc).0
    case ReadStop(h) => StopReading(s, h)
    case SetServerEvents(sizeOk, onConnection, onRead) =>  // 628-688
      s.(onConnection := sizeOk && onConnection, onRead := sizeOk && onRead)
  }

  function RunAll(s: State, acts: seq<Act>): State
    decreases acts, 0
  {
    if acts == [] then s else RunAll(Perform(s, acts[0]), acts[1..])
  }

  lemma OpenValid(s: State, c: Conn)
    requires Valid(s)
    ensures var t := s.(open := s.open + {c}); Valid(t) && Kept(s, t)
  {
    KeptRefl(s);
    hide Frames, Paired, Graves, Exact, Armed, Captured;
  }

  lemma ClosingValid(s: State, c: Conn)
    requires Valid(s) && c in s.open
    ensures var t := s.(closing := s.closing + {c}); Valid(t) && Kept(t, t)
  {
    hide Frames, Paired, Graves, Exact, Armed, Captured;
    KeptRefl(s.(closing := s.closing + {c}));
  }

  lemma ServerEventsValid(s: State, onConnection: bool, onRead: bool)
    requires Valid(s)
    ensures var t := s.(onConnection := onConnection, onRead := onRead); Valid(t) && Kept(s, t)
  {
    KeptRefl(s);
    hide Frames, Paired, Graves, Exact, Armed, Captured;
  }

  /** Whatever a callback's code does, the scope around it is safe. */
  lemma {:induction false} ScopeSafe(s: State, w: Addr, code: seq<Act>)
    requires Valid(s) && w in s.memory
    ensures Valid(Scope(s, w, code)) && Kept(s, Scope(s, w, code))
    decreases code, 1
  {
    hide Valid, Kept, Enter, Leave, RunAll;
    EnterValid(s, w);
    RunSafe(Enter(s, w), code);
    ScopeValid(s, w, RunAll(Enter(s, w), code));
  }

  lemma {:induction false} CloseSafe(s: State, c: Conn, code: seq<Act>)
    requires Valid(s)
    ensures Valid(Close(s, c, code)) && Kept(s, Close(s, c, code))
    ensures c in s.open && c !in s.closing ==> Closed(s, Close(s, c, code), c)
    decreases code, 2
  {
    KeptRefl(s);
    if c in s.open && c !in s.closing {
      ClosingValid(s, c);
      var t := s.(closing := s.closing + {c});
      var u := if c in s.closeSlots && s.closeSlots[c] in s.memory && s.memory[s.closeSlots[c]].onClose
               then Scope(t, s.closeSlots[c], code) else t;
      hide Sound, Kept, Scope, Finish;
      if c in s.closeSlots && s.closeSlots[c] in s.memory && s.memory[s.closeSlots[c]].onClose {
        ScopeSafe(t, s.closeSlots[c], code);
      }
      FinishValid(u, c);
      FinishKept(s, u, c);
      StillMine(s, u, c);
    }
  }

  /** The connection is gone, and so is the handle that stood for it. */
  ghost predicate Closed(s: State, t: State, c: Conn) {
    c !in t.live && c !in t.open && (c in s.live ==> s.live[c] !in t.registry)
  }

  /** A connection being closed keeps its wrapper to the end. */
  lemma StillMine(s: State, u: State, c: Conn)
    requires c !in s.closing && Kept(s.(closing := s.closing + {c}), u)
    ensures c in s.live ==> c in u.live && u.live[c] == s.live[c]
  {
    assert c in s.closing + {c};
  }

  lemma {:induction false} PerformSafe(s: State, a: Act)
    requires Valid(s)
    ensures Valid(Perform(s, a)) && Kept(s, Perform(s, a))
    decreases a, 0
  {
    KeptRefl(s);
    hide Sound, Kept, Scope, Close, Wrap, SetTable, StopReading;
    match a
    case Accept(c, place, code) => AcceptSafe(s, c, place, code);
    case Read(c, place, code) => ReadSafe(s, c, place, code);
    case ArmedRead(c, code) =>
      if c in s.readSlots && s.readSlots[c] in s.memory {
        ScopeSafe(s, s.readSlots[c], code);
      }
    case Drop(c, code) => CloseSafe(s, c, code);
    case CloseHandle(h, code) =>
      if h in s.memory && s.memory[h].cli.Some? {
        CloseSafe(s, s.memory[h].cli.value, code);
      }
    case SetEvents(h, sizeOk, onRead, onClose, connected, rc) => SetTableValid(s, h, sizeOk, onRead, onClose, connected, rc);
    case ReadStop(h) => StopReadingValid(s, h);
    case SetServerEvents(sizeOk, onConnection, onRead) => ServerEventsValid(s, sizeOk && onConnection, sizeOk && onRead);
  }

  lemma {:induction false} AcceptSafe(s: State, c: Conn, place: Option<Addr>, code: seq<Act>)
    requires Valid(s)
    ensures var t := Perform(s, Accept(c, place, code)); Valid(t) && Kept(s, t)
    decreases code, 2
  {
    hide Sound, Kept, Scope, Wrap;
    KeptRefl(s);
    if c !in s.open && Fits(s, place) {
      OpenValid(s, c);
      var u := s.(open := s.open + {c});
      WrapValid(u, c, place);
      var (t, w) := Wrap(u, c, place);
      KeptTrans(s, u, t);
      if w.Some? {
        ScopeSafe(t, w.value, code);
        KeptTrans(s, t, Scope(t, w.value, code));
      }
    }
  }

  lemma {:induction false} ReadSafe(s: State, c: Conn, place: Option<Addr>, code: seq<Act>)
    requires Valid(s)
    ensures var t := Perform(s, Read(c, place, code)); Valid(t) && Kept(s, t)
    decreases code, 2
  {
    hide Sound, Kept, Scope, Wrap;
    KeptRefl(s);
    if c in s.open && Fits(s, place) {
      WrapValid(s, c, place);
      var (t, w) := Wrap(s, c, place);
      if w.Some? {
        ScopeSafe(t, w.value, code);
        KeptTrans(s, t, Scope(t, w.value, code));
      }
    }
  }

  /** The main result: any tree of callbacks, with any connections closed in any
      of them, keeps the tables in step, deletes no wrapper that is still on the
      callback stack, and leaves no grave when the outermost callback is left. */
  lemma {:induction false} RunSafe(s: State, acts: seq<Act>)
    requires Valid(s)
    ensures Valid(RunAll(s, acts)) && Kept(s, RunAll(s, acts))
    decreases acts, 0
  {
    hide Valid, Kept, Perform;
    if acts == [] {
      KeptReflV(s);
    } else {
      PerformSafe(s, acts[0]);
      RunSafe(Perform(s, acts[0]), acts[1..]);
      KeptTrans(s, Perform(s, acts[0]), RunAll(s, acts));
    }
  }

  lemma KeptReflV(s: State)
    requires Valid(s)
    ensures Kept(s, s)
  {
    KeptRefl(s);
  }

  /** The server's depth is the sum of its wrappers' depths. */
  lemma DepthIsSum(s: State)
    requires Valid(s)
    ensures s.cbDepth == SumDepths(s.memory) == |s.stack|
  {
    SumIsCount(s.memory, multiset(s.stack));
  }

  /** Between callbacks nothing is buried: what is allocated is exactly what is
      registered, one wrapper for each wrapped connection, and every other wrapper
      ever made was deleted, once; so the live count is made minus deleted. */
  lemma Quiescent(acts: seq<Act>)
    ensures var t := RunAll(FRESH, acts);
            && Valid(t) && t.cbDepth == 0 && t.graveyard == []
            && t.registry == t.memory.Keys == t.live.Values
            && Exact(t.book, t.live.Values)
            && |t.registry| + |t.book.deletions| == t.book.made
  {
    hide Paired, Armed, Captured, Graves, Exact;
    FreshValid();
    RunSafe(FRESH, acts);
    NoGraves(RunAll(FRESH, acts));
    Counted(RunAll(FRESH, acts));
    hide Frames;
  }

  lemma Counted(s: State)
    requires Sound(s)
    ensures |s.memory.Keys| + |s.book.deletions| == s.book.made
  {
    Conservation(s.book, s.memory.Keys);
    assert |s.book.serial| == |s.book.serial.Keys|;
  }

  lemma FreshValid()
    ensures Valid(FRESH)
  {
  }

  /** A connection keeps the wrapper it was given first until it closes, however
      many callbacks run meanwhile and wherever the allocator puts others. */
  lemma SameWrapperForLife(s: State, acts: seq<Act>, c: Conn)
    requires Valid(s) && c in s.live
    ensures var t := RunAll(s, acts);
            |s.closes| <= |t.closes| && (c !in t.closes[|s.closes|..] ==>
              && c in t.live && t.live[c] == s.live[c] && Same(t.book, s.book, s.live[c])
              && (forall place :: Wrap(t, c, place) == (t, Some(s.live[c]))))
  {
    RunSafe(s, acts);
  }

  // ---------------------------------------------------------- freeing the server

  /** Deleting a wrapper whatever its state. */
  function Destroy(s: State, w: Addr): State {
    s.(memory := s.memory - {w}, book := Delete(s.book, w))
  }

  /** The wrappers met when the live table is walked in a given order. */
  function Walked(live: map<Conn, Addr>, order: seq<Conn>): seq<Addr> {
    if order == [] then []
    else if order[0] !in live then Walked(live, order[1..])
    else [live[order[0]]] + Walked(live, order[1..])
  }

  /** The fallback over the live table (615-619). */
  function Sweep(s: State, victims: seq<Addr>): State
    decreases |victims|
  {
    if victims == [] then s
    else Sweep(Destroy(s.(registry := s.registry - {victims[0]}), victims[0]), victims[1..])
  }

  /** The fallback over the graveyard (620-621). */
  function Exhume(s: State, graves: seq<Addr>): State
    decreases |graves|
  {
    if graves == [] then s else Exhume(Destroy(s, graves[0]), graves[1..])
  }

  /** uvcpp_c_tcp_server_free (600-625).  `script` is whatever happens while the
      C++ server is being destroyed: any of its connections close, in any order,
      with whatever their callbacks do. */
  function ServerFree(s: State, script: seq<Act>, order: seq<Conn>): (State, Code) {
    if s.cbDepth > 0 then (s, WrongState)
    else
      var t := RunAll(s, script);
      var u := Sweep(t, Walked(t.live, order)).(live := map[]);
      (Exhume(u, u.graveyard).(graveyard := []), Ok)
  }

  lemma {:induction false} SweepEmpties(s: State, victims: seq<Addr>)
    requires Exact(s.book, s.memory.Keys) && s.registry == s.memory.Keys
    requires NoDup(victims) && forall w :: w in victims <==> w in s.memory
    ensures var t := Sweep(s, victims);
            && t.memory == map[] && t.registry == {} && Exact(t.book, {})
            && t == s.(memory := t.memory, registry := t.registry, book := t.book)
    decreases |victims|
  {
    hide Exact, Delete;
    if victims == [] {
      assert s.memory.Keys == {};
    } else {
      var w := victims[0];
      var t := Destroy(s.(registry := s.registry - {w}), w);
      assert w in victims;
      DeleteExact(s.book, s.memory.Keys, w);
      assert t.memory.Keys == s.memory.Keys - {w};
      assert victims == [w] + victims[1..];
      SweepEmpties(t, victims[1..]);
    }
  }

  lemma {:induction false} WalkedAll(m: map<Addr, Wrapper>, registry: set<Addr>, live: map<Conn, Addr>, order: seq<Conn>)
    requires Paired(m, registry, live) && NoDup(order) && forall c :: c in order ==> c in live
    ensures NoDup(Walked(live, order))
    ensures forall w :: w in Walked(live, order) <==> w in registry && m[w].cli.value in order
  {
    if order != [] {
      assert order == [order[0]] + order[1..];
      WalkedAll(m, registry, live, order[1..]);
      assert m[live[order[0]]].cli == Some(order[0]);
    }
  }

  /** Freeing the server is refused inside a callback and changes nothing then.
      Outside, whichever connections close while it is destroyed, no wrapper is
      left allocated or registered, and every one ever made was deleted once. */
  lemma FreeLeavesNothing(s: State, script: seq<Act>, order: seq<Conn>)
    requires Valid(s)
    requires NoDup(order) && forall c :: c in order <==> c in RunAll(s, script).live
    ensures var (t, code) := ServerFree(s, script, order);
            && (code == Ok <==> s.cbDepth == 0)
            && (code != Ok ==> t == s && code == WrongState)
            && (code == Ok ==>
                  && t.memory == map[] && t.registry == {} && t.live == map[] && t.graveyard == []
                  && forall n: nat :: t.book.deletions[n] == if n < t.book.made then 1 else 0)
  {
    if s.cbDepth == 0 {
      var u := RunAll(s, script);
      RunSafe(s, script);
      NoGraves(u);
      WalkedAll(u.memory, u.registry, u.live, order);
      hide Frames, Paired, Armed, Captured, Graves, Exact, NoDup, RunAll;
      SweepEmpties(u, Walked(u.live, order));
      AllDeletedOnce(Sweep(u, Walked(u.live, order)).book);
    }
  }

  lemma NoGraves(s: State)
    requires Valid(s) && s.cbDepth == 0
    ensures s.graveyard == [] && s.registry == s.memory.Keys == s.live.Values
    ensures forall w :: w in s.memory ==> s.memory[w].cli.Some? && s.memory[w].cli.value in s.live
  {
    forall w ensures w in s.registry <==> w in s.memory.Keys {
      assert w in s.graveyard <==> w in s.memory && s.memory[w].reaped;
    }
  }

  /** The connection's event reaches the user's callback: it is entered first of all,
      with the handle w. */
  ghost predicate Reaches(s: State, t: State, w: Addr) {
    |t.entered| > |s.entered| && t.entered[|s.entered|] == w
  }

  lemma ScopeReaches(s: State, w: Addr, code: seq<Act>)
    requires Valid(s) && w in s.memory
    ensures Reaches(s, Scope(s, w, code), w)
  {
    hide Sound, RunAll;
    EnterValid(s, w);
    RunSafe(Enter(s, w), code);
    ScopeValid(s, w, RunAll(Enter(s, w), code));
    LeaveEntered(RunAll(Enter(s, w), code), w);
  }

  lemma LeaveEntered(s: State, w: Addr)
    ensures Leave(s, w).entered == s.entered
  {
    DrainEntered(Pop(s, w), 0);
  }

  lemma {:induction false} DrainEntered(s: State, i: nat)
    ensures DrainFrom(s, i).entered == s.entered
    decreases |s.graveyard| - i
  {
    if i < |s.graveyard| {
      if GraveDepth(s, i) != 0 { DrainEntered(s, i + 1); } else { DrainEntered(Bury(s, i), i); }
    }
  }

  /** A read event on an open connection reaches the read callback that is installed:
      the server's, or the connection's own, and in either case with the one handle
      that the connection has, if it has one. */
  lemma ReadReaches(s: State, c: Conn, place: Option<Addr>, code: seq<Act>)
    requires Valid(s) && c in s.open && c !in s.closing && c in s.live && Fits(s, place)
    ensures s.onRead ==> Reaches(s, Perform(s, Read(c, place, code)), s.live[c])
    ensures c in s.readSlots && s.live[c] in s.memory && s.memory[s.live[c]].onRead ==>
              Reaches(s, Perform(s, ArmedRead(c, code)), s.live[c])
    ensures !s.onRead ==> Perform(s, Read(c, place, code)) == s
  {
    Allocated(s);
    assert s.live[c] in s.live.Values;
    SlotIsLive(s, c);
    ScopeReaches(s, s.live[c], code);
    hide Sound, Scope, Reaches;
  }

  lemma SlotIsLive(s: State, c: Conn)
    requires Sound(s) && c in s.live
    ensures c in s.readSlots ==> s.readSlots[c] == s.live[c]
    ensures c in s.closeSlots ==> s.closeSlots[c] == s.live[c]
  {
  }

  /** A new connection reaches the connection callback, if there is one and a handle
      could be made; and the handle is then the connection's. */
  lemma AcceptReaches(s: State, c: Conn, w: Addr, code: seq<Act>)
    requires Valid(s) && c !in s.open && c !in s.live && w !in s.memory
    ensures s.onConnection ==> Reaches(s, Perform(s, Accept(c, Some(w), code)), w)
    ensures !s.onConnection ==>
              var t := Perform(s, Accept(c, Some(w), code)); t.entered == s.entered && c in t.live && t.live[c] == w && w in t.registry
  {
    hide Sound, Scope;
    OpenValid(s, c);
    var b := s.(open := s.open + {c});
    WrapValid(b, c, Some(w));
    ScopeReaches(Wrap(b, c, Some(w)).0, w, code);
    hide Valid, Kept, Fresh;
  }

  /** A connection that closes reaches its close callback, if it has one, before its
      handle is taken away. */
  lemma CloseReaches(s: State, c: Conn, code: seq<Act>)
    requires Valid(s) && c in s.open && c !in s.closing && c in s.live
    requires c in s.closeSlots && s.live[c] in s.memory && s.memory[s.live[c]].onClose
    ensures Reaches(s, Close(s, c, code), s.live[c])
  {
    SlotIsLive(s, c);
    ClosingValid(s, c);
    var t := s.(closing := s.closing + {c});
    ScopeReaches(t, s.live[c], code);
    FinishEntered(Scope(t, s.live[c], code), c);
    hide Sound, Scope, Finish;
  }

  lemma FinishEntered(s: State, c: Conn)
    ensures Finish(s, c).entered == s.entered
  {
  }
}
