/** The registry of live handles (src/capi/uvcpp_c_common.cpp 43-71), the test of a
    handle by address and type (src/capi/uvcpp_c_internal.h 209-241), and the scopes
    that register a callback's handles for its duration (uvcpp_c_webapp.cpp 232-254,
    uvcpp_c_http2.cpp 137-157, uvcpp_c_http3.cpp 194-213).  Callbacks are a tree of
    acts, as in TcpReaper, with any code in them. */
module HandleRegistry {
  import opened Base
  import opened Ledger

  /** Null. */
  const NULL: Addr := 0

  /** A 32-bit word, by its bytes. */
  datatype Word = Word(a: char, b: char, c: char, d: char)

  const ZERO := Word('\0', '\0', '\0', '\0')

  /** The types of handles. */
  datatype Kind =
    | TcpClient | TcpServer
    | H2Conn | H2Stream | H2Request | H2Response
    | QuicClient | QuicServer | QuicTls | QuicConn
    | H3Conn | H3Request | H3Response | H3ReqView
    | App | Req | Resp | Next | DeferredReply | WsReq | WsConn
    | HttpClient | HttpResp | WsClient
    | DbClient | DbParams | DbTable | DbPool | DbAsync

  /** The word that marks a type's handles (internal.h 162-192, uvcpp_c_webapp.cpp
      84-90, uvcpp_c_web.cpp 56-58, uvcpp_c_db.cpp 80-84). */
  function Magic(k: Kind): Word {
    match k
    case TcpClient => Word('e', 'h', 'c', '1')
    case TcpServer => Word('e', 'h', 's', '1')
    case H2Conn => Word('e', 'h', '2', 'c')
    case H2Stream => Word('e', 'h', '2', 's')
    case H2Request => Word('e', 'h', '2', 'q')
    case H2Response => Word('e', 'h', '2', 'r')
    case QuicClient => Word('e', 'q', 'c', '1')
    case QuicServer => Word('e', 'q', 's', '1')
    case QuicTls => Word('e', 'q', 't', '1')
    case QuicConn => Word('e', 'q', 'n', '1')
    case H3Conn => Word('e', 'h', '3', 'c')
    case H3Request => Word('e', 'h', '3', 'q')
    case H3Response => Word('e', 'h', '3', 'r')
    case H3ReqView => Word('e', 'h', '3', 'v')
    case App => Word('e', 'a', 'p', '1')
    case Req => Word('e', 'q', 's', '1')
    case Resp => Word('e', 'p', 's', '1')
    case Next => Word('e', 'n', 'x', '1')
    case DeferredReply => Word('e', 'd', 'f', '1')
    case WsReq => Word('e', 'w', 'q', '1')
    case WsConn => Word('e', 'w', 'c', '1')
    case HttpClient => Word('e', 'h', 'p', '1')
    case HttpResp => Word('e', 'h', 'r', '1')
    case WsClient => Word('e', 'w', 's', '1')
    case DbClient => Word('e', 'd', 'c', '1')
    case DbParams => Word('e', 'd', 'm', '1')
    case DbTable => Word('e', 'd', 't', '1')
    case DbPool => Word('e', 'd', 'p', '1')
    case DbAsync => Word('e', 'd', 'a', '1')
  }

  /** What is stored at an address: a handle of some type that has not been poisoned,
      or anything else, of which only the first word matters. */
  datatype Cell = Head(kind: Kind) | Plain(word: Word)

  function FirstWord(c: Cell): Word { if c.Head? then Magic(c.kind) else c.word }

  /** A trampoline: how many handles its scope can note, and which it registers. */
  datatype Scope = Scope(room: nat, kinds: seq<Kind>)

  /** The scopes of the source: a route, a WebSocket's upgrade with and without a
      connection, a WebSocket's events, an h2 stream's callbacks, an h3 request. */
  const ROUTE := Scope(5, [Req, Resp, Next])
  const WS_UPGRADE := Scope(5, [WsReq, WsConn])
  const WS_REFUSED := Scope(5, [WsReq])
  const WS_EVENT := Scope(1, [WsConn])
  const H2_STREAM := Scope(1, [H2Stream])
  const H3_REQUEST := Scope(1, [H3ReqView])

  predicate OfSource(f: Scope) {
    f == ROUTE || f == WS_UPGRADE || f == WS_REFUSED || f == WS_EVENT || f == H2_STREAM || f == H3_REQUEST
  }

  datatype Act =
    | Obtain(h: Addr, garbage: Word)                   // some code obtains storage
    | Scribble(h: Addr, garbage: Word)                 // or writes to it
    | Return(h: Addr)                                  // or gives it back
    | Create(h: Addr, kind: Kind)                      // register_head
    | Destroy(h: Addr)                                 // unregister_head
    | Frame(f: Scope, hs: seq<Addr>, code: seq<Act>)   // a trampoline around user code

  datatype State = State(
    registry: set<Addr>, storage: map<Addr, Cell>,
    // the handles of the callbacks in progress, and the history of registrations
    framed: set<Addr>, book: Book)

  const FRESH := State({}, map[], {}, EMPTY)

  // ------------------------------------------------------------------- the acts

  /** register_head (230-234). */
  function Register(s: State, h: Addr, k: Kind): State {
    s.(registry := s.registry + {h}, storage := s.storage[h := Head(k)],
       book := if h in s.registry then s.book else Make(s.book, h))
  }

  /** unregister_head (237-241). */
  function Unregister(s: State, h: Addr): State {
    s.(registry := s.registry - {h}, storage := if h in s.storage then s.storage[h := Plain(ZERO)] else s.storage,
       book := Delete(s.book, h))
  }

  function RegisterAll(s: State, hs: seq<Addr>, kinds: seq<Kind>): State
    requires |hs| == |kinds|
    decreases |hs|
  {
    if hs == [] then s
    else Register(RegisterAll(s, hs[..|hs| - 1], kinds[..|hs| - 1]), hs[|hs| - 1], kinds[|hs| - 1])
  }

  /** The last first. */
  function UnregisterAll(s: State, hs: seq<Addr>): State
    decreases |hs|
  {
    if hs == [] then s else UnregisterAll(Unregister(s, hs[|hs| - 1]), hs[..|hs| - 1])
  }

  function Elements(hs: seq<Addr>): set<Addr> { set h | h in hs }

  /** What a scope notes of the handles it is given (243). */
  function Noted(room: nat, hs: seq<Addr>): seq<Addr> { hs[..if |hs| <= room then |hs| else room] }

  function Unnoted(room: nat, hs: seq<Addr>): seq<Addr> { hs[if |hs| <= room then |hs| else room..] }

  /** Places on the stack for a trampoline's handles. */
  predicate Fits(s: State, f: Scope, hs: seq<Addr>) { Free(s.storage, f, hs) }

  predicate Free(storage: map<Addr, Cell>, f: Scope, hs: seq<Addr>) {
    |hs| == |f.kinds| && NULL !in hs && (forall h :: h in hs ==> h !in storage) && Different(hs)
  }

  predicate Different(hs: seq<Addr>) { hs != [] ==> hs[0] !in hs[1..] && Different(hs[1..]) }

  function Enter(s: State, f: Scope, hs: seq<Addr>): State
    requires |hs| == |f.kinds|
  {
    RegisterAll(s, hs, f.kinds).(framed := s.framed + Elements(hs))
  }

  /** The scope ends, and then the storage of its handles. */
  function Leave(s: State, f: Scope, hs: seq<Addr>): State {
    var t := UnregisterAll(s, Noted(f.room, hs));
    t.(storage := t.storage - Elements(hs), framed := t.framed - Elements(hs))
  }

  /** Storage of a registered handle is neither given back nor used for anything
      else, and no function frees a callback's handle. */
  function Perform(s: State, a: Act): State
    decreases a, 0
  {
    match a
    case Obtain(h, garbage) =>
      if h == NULL || h in s.storage then s else s.(storage := s.storage[h := Plain(garbage)])
    case Scribble(h, garbage) =>
      if h !in s.storage || h in s.registry then s else s.(storage := s.storage[h := Plain(garbage)])
    case Return(h) => if h in s.registry then s else s.(storage := s.storage - {h})
    case Create(h, k) => if h !in s.storage || h in s.registry then s else Register(s, h, k)
    case Destroy(h) => if h !in s.registry || h in s.framed then s else Unregister(s, h)
    case Frame(f, hs, code) => if !Fits(s, f, hs) then s else Leave(RunAll(Enter(s, f, hs), code), f, hs)
  }

  function RunAll(s: State, acts: seq<Act>): State
    decreases acts, 0
  {
    if acts == [] then s else RunAll(Perform(s, acts[0]), acts[1..])
  }

  /** No scope is given more handles than it has room for. */
  predicate Roomy(acts: seq<Act>)
    decreases acts, 0
  {
    acts != [] ==> RoomyAct(acts[0]) && Roomy(acts[1..])
  }

  predicate RoomyAct(a: Act)
    decreases a, 0
  {
    a.Frame? ==> |a.f.kinds| <= a.f.room && Roomy(a.code)
  }

  /** Every trampoline is one of the source's. */
  predicate FromSource(acts: seq<Act>)
    decreases acts, 0
  {
    acts != [] ==> FromSourceAct(acts[0]) && FromSource(acts[1..])
  }

  predicate FromSourceAct(a: Act)
    decreases a, 0
  {
    a.Frame? ==> OfSource(a.f) && FromSource(a.code)
  }

  lemma {:induction false} SourceIsRoomy(acts: seq<Act>)
    requires FromSource(acts)
    ensures Roomy(acts)
    decreases acts, 0
  {
    if acts != [] {
      if acts[0].Frame? { SourceIsRoomy(acts[0].code); }
      SourceIsRoomy(acts[1..]);
    }
  }

  // ----------------------------------------------------------------- invariants

  /** The registry holds exactly the handles that exist and are not poisoned. */
  ghost predicate Exactly(registry: set<Addr>, storage: map<Addr, Cell>) {
    && NULL !in storage
    && (forall h :: h in registry <==> h in storage && storage[h].Head?)
  }

  ghost predicate Valid(s: State) {
    Exactly(s.registry, s.storage) && s.framed <= s.registry && Exact(s.book, s.registry)
  }

  /** What nested code leaves alone: the handles of the callbacks it runs in. */
  ghost predicate Kept(s: State, t: State) {
    && t.framed == s.framed && Follows(t.book, s.book)
    && (forall h :: h in s.framed && h in s.registry && h in s.storage ==>
          h in t.registry && h in t.storage && t.storage[h] == s.storage[h] && (h in s.book.serial ==> Same(t.book, s.book, h)))
  }

  lemma KeptTrans(s: State, t: State, u: State)
    requires Kept(s, t) && Kept(t, u)
    ensures Kept(s, u)
  {
  }

  lemma KeptRefl(s: State)
    ensures Kept(s, s)
  {
  }

  // ------------------------------------------------------- one handle, and several

  lemma RegisterValid(s: State, h: Addr, k: Kind)
    requires Valid(s) && h !in s.registry && h != NULL
    ensures Valid(Register(s, h, k)) && Kept(s, Register(s, h, k))
  {
    MakeExact(s.book, s.registry, h);
    MakeSame(s.book, s.registry, h);
    hide Make, Exact;
  }

  lemma UnregisterExactly(s: State, h: Addr)
    requires Exactly(s.registry, s.storage) && h in s.registry
    ensures Exactly(Unregister(s, h).registry, Unregister(s, h).storage)
  {
    hide Delete;
  }

  lemma UnregisterValid(s: State, h: Addr)
    requires Valid(s) && h in s.registry
    ensures Valid(Unregister(s, h).(framed := s.framed - {h}))
    ensures h !in s.framed ==> Kept(s, Unregister(s, h)) && s.framed - {h} == s.framed
  {
    DeleteExact(s.book, s.registry, h);
    UnregisterExactly(s, h);
    if h !in s.framed { UnregisterKept(s, h); }
    hide Delete, Exact, Exactly, Kept;
  }

  lemma UnregisterKept(s: State, h: Addr)
    requires Valid(s) && h in s.registry && h !in s.framed
    ensures Kept(s, Unregister(s, h)) && s.framed - {h} == s.framed
  {
    UnregisterParts(s, h);
    hide Unregister, Exact, Exactly, Follows, Same;
  }

  lemma ElementsSnoc(hs: seq<Addr>)
    requires hs != []
    ensures Elements(hs) == Elements(hs[..|hs| - 1]) + {hs[|hs| - 1]}
  {
    assert hs == hs[..|hs| - 1] + [hs[|hs| - 1]];
  }

  lemma {:induction false} DifferentNoDup(hs: seq<Addr>)
    ensures Different(hs) <==> NoDup(hs)
  {
    if hs != [] {
      DifferentNoDup(hs[1..]);
      assert hs == [hs[0]] + hs[1..];
      if NoDup(hs) {
        forall i, j | 0 <= i < j < |hs| - 1 ensures hs[1..][i] != hs[1..][j] { assert hs[i + 1] != hs[j + 1]; }
      }
      if Different(hs) {
        forall i, j | 0 <= i < j < |hs| ensures hs[i] != hs[j] {
          assert hs[1..][j - 1] == hs[j] && (i > 0 ==> hs[1..][i - 1] == hs[i]);
        }
      }
    }
  }

  lemma LastIsNew(hs: seq<Addr>)
    requires NoDup(hs) && hs != []
    ensures NoDup(hs[..|hs| - 1]) && hs[|hs| - 1] !in hs[..|hs| - 1]
  {
  }

  /** Entering registers each of the trampoline's handles, and nothing else. */
  lemma {:induction false} RegisterAllValid(s: State, hs: seq<Addr>, kinds: seq<Kind>)
    requires Valid(s) && |hs| == |kinds| && NoDup(hs) && NULL !in hs && forall h :: h in hs ==> h !in s.storage
    ensures var t := RegisterAll(s, hs, kinds);
            && Valid(t) && Kept(s, t) && t.registry == s.registry + Elements(hs)
            && t.storage.Keys == s.storage.Keys + Elements(hs)
            && (forall h :: h in s.storage ==> t.storage[h] == s.storage[h])
            && (forall i :: 0 <= i < |hs| ==> hs[i] in t.storage && t.storage[hs[i]] == Head(kinds[i]))
    decreases |hs|
  {
    hide Exact, Exactly, Make, Valid, Kept, Elements;
    if hs == [] {
      KeptRefl(s);
      NoElements();
    } else {
      var init, last := hs[..|hs| - 1], hs[|hs| - 1];
      assert forall h :: h in init ==> h in hs;
      LastIsNew(hs);
      ElementsSnoc(hs);
      InElements(init, last);
      RegisterAllValid(s, init, kinds[..|hs| - 1]);
      var t := RegisterAll(s, init, kinds[..|hs| - 1]);
      NotStored(s, last);
      assert last !in s.registry && last !in t.registry;
      RegisterValid(t, last, kinds[|hs| - 1]);
      KeptTrans(s, t, RegisterAll(s, hs, kinds));
    }
  }

  lemma NoElements()
    ensures Elements([]) == {}
  {
  }

  lemma InElements(hs: seq<Addr>, h: Addr)
    ensures h in Elements(hs) <==> h in hs
  {
  }

  lemma NotStored(s: State, h: Addr)
    requires Valid(s) && h !in s.storage
    ensures h !in s.registry && h !in s.framed
  {
  }

  /** What unregistering some of a frame's handles does. */
  lemma {:induction false} UnregisterAllValid(s: State, hs: seq<Addr>)
    requires Valid(s) && NoDup(hs) && forall h :: h in hs ==> h in s.registry
    ensures var t := UnregisterAll(s, hs);
            && Valid(t.(framed := s.framed - Elements(hs))) && t.framed == s.framed && Follows(t.book, s.book)
            && t.registry == s.registry - Elements(hs) && t.storage.Keys == s.storage.Keys
            && (forall h :: h in s.storage && h !in Elements(hs) ==> t.storage[h] == s.storage[h])
            && (forall h :: h in s.book.serial && h !in Elements(hs) ==> Same(t.book, s.book, h))
    decreases |hs|
  {
    hide Exact, Exactly, Delete, Elements, Valid;
    if hs == [] {
      NoElements();
      assert s.framed - {} == s.framed;
      assert s == s.(framed := s.framed - {});
    } else {
      var init, last := hs[..|hs| - 1], hs[|hs| - 1];
      assert last in hs && forall h :: h in init ==> h in hs;
      LastIsNew(hs);
      ElementsSnoc(hs);
      InElements(init, last);
      var u := Unregister(s, last).(framed := s.framed - {last});
      UnregisterValid(s, last);
      UnregisterParts(s, last);
      UnregisterAllValid(u, init);
      Unframed(Unregister(s, last), u.framed, init);
      assert u.framed - Elements(init) == s.framed - Elements(hs);
    }
  }

  lemma UnregisterParts(s: State, h: Addr)
    requires Valid(s) && h in s.registry
    ensures var t := Unregister(s, h);
            && t.registry == s.registry - {h} && t.storage.Keys == s.storage.Keys && Follows(t.book, s.book) && t.framed == s.framed
            && (forall g :: g in s.storage && g != h ==> t.storage[g] == s.storage[g])
            && (forall g :: g in s.book.serial && g != h ==> Same(t.book, s.book, g))
  {
    DeleteSame(s.book, s.registry, h);
    hide Delete;
  }

  /** The mark of a frame's handles has no influence on unregistering. */
  lemma {:induction false} Unframed(s: State, framed: set<Addr>, hs: seq<Addr>)
    ensures UnregisterAll(s.(framed := framed), hs) == UnregisterAll(s, hs).(framed := framed)
    ensures UnregisterAll(s, hs).framed == s.framed
    decreases |hs|
  {
    hide Delete;
    if hs != [] {
      Unframed(Unregister(s, hs[|hs| - 1]), framed, hs[..|hs| - 1]);
    }
  }

  // ------------------------------------------------------------------ trampolines

  ghost function Heads(storage: map<Addr, Cell>): set<Addr> { set h | h in storage && storage[h].Head? }

  lemma FitsParts(s: State, f: Scope, hs: seq<Addr>)
    requires Fits(s, f, hs)
    ensures |hs| == |f.kinds| && forall h :: h in hs ==> h !in s.storage
  {
  }

  lemma EnterValid(s: State, f: Scope, hs: seq<Addr>)
    requires Valid(s) && Fits(s, f, hs)
    ensures var t := Enter(s, f, hs); Valid(t) && Kept(s, t.(framed := s.framed)) && NoDup(hs)
    ensures var t := Enter(s, f, hs);
            && t.registry == s.registry + Elements(hs) && t.framed == s.framed + Elements(hs)
            && t.storage.Keys == s.storage.Keys + Elements(hs) && s.framed !! Elements(hs)
            && (forall h :: h in s.storage ==> t.storage[h] == s.storage[h])
            && (forall i :: 0 <= i < |hs| ==> hs[i] in t.storage && t.storage[hs[i]] == Head(f.kinds[i]))
  {
    DifferentNoDup(hs);
    RegisterAllValid(s, hs, f.kinds);
    forall h | h in Elements(hs) ensures h !in s.framed { NotStored(s, h); }
    var t := RegisterAll(s, hs, f.kinds);
    FramedFree(s, t);
    hide RegisterAll, Exact, Exactly, Kept, Different;
  }

  lemma FramedFree(s: State, t: State)
    requires Kept(s, t)
    ensures t.framed == s.framed && t.(framed := s.framed) == t
  {
  }

  lemma NotedNone(room: nat, none: seq<Addr>)
    requires none == []
    ensures Noted(room, none) == []
  {
  }

  /** A handle is noted while there is room. */
  lemma NotedSnoc(room: nat, hs: seq<Addr>, h: Addr)
    ensures Noted(room, hs + [h]) == if |Noted(room, hs)| < room then Noted(room, hs) + [h] else Noted(room, hs)
  {
    if |hs| < room {
      assert Noted(room, hs) == hs && Noted(room, hs + [h]) == hs + [h];
    } else {
      assert (hs + [h])[..room] == hs[..room];
    }
  }

  lemma NotedIsPart(room: nat, hs: seq<Addr>)
    requires NoDup(hs)
    ensures var noted := Noted(room, hs); var rest := Unnoted(room, hs);
            && NoDup(noted) && Elements(hs) == Elements(noted) + Elements(rest) && Elements(noted) !! Elements(rest)
            && (forall h :: h in noted ==> h in hs) && (Elements(rest) == {} <==> |hs| <= room)
  {
    var noted := Noted(room, hs);
    var rest := Unnoted(room, hs);
    assert hs == noted + rest;
    if |hs| > room { assert hs[room] in Elements(rest); }
  }

  /** What the end of a scope leaves: the handles it has noted are unregistered, and
      any others stay registered although their storage is gone. */
  lemma LeaveParts(s: State, f: Scope, hs: seq<Addr>)
    requires Valid(s) && NoDup(hs) && Elements(hs) <= s.framed
    ensures var t := Leave(s, f, hs); var rest := Elements(Unnoted(f.room, hs));
            && t.registry == Heads(t.storage) + rest && rest !! t.storage.Keys
            && t.registry == s.registry - (Elements(hs) - rest)
            && t.storage == s.storage - Elements(hs) && t.framed == s.framed - Elements(hs)
            && Exact(t.book, t.registry) && Follows(t.book, s.book)
            && (rest == {} ==> Valid(t))
            && (forall h :: h in s.book.serial && h !in Elements(hs) ==> Same(t.book, s.book, h))
  {
    hide Exact, Same, Follows, Elements, Noted, Unnoted;
    var noted := Noted(f.room, hs);
    var rest := Elements(Unnoted(f.room, hs));
    NotedIsPart(f.room, hs);
    FramedIn(s, hs);
    InAll(noted, hs);
    UnregisterAllValid(s, noted);
    var u, t := UnregisterAll(s, noted), Leave(s, f, hs);
    assert t.storage == s.storage - Elements(hs);
    assert s.framed - Elements(noted) - rest == s.framed - Elements(hs);
    hide UnregisterAll;
    forall h ensures h in t.registry <==> h in Heads(t.storage) || h in rest { }
  }

  lemma FramedIn(s: State, hs: seq<Addr>)
    requires Valid(s) && Elements(hs) <= s.framed
    ensures forall h :: h in hs ==> h in s.registry && h in s.storage
  {
    forall h | h in hs ensures h in s.registry && h in s.storage { InElements(hs, h); }
    hide Exact;
  }

  lemma InAll(some: seq<Addr>, all: seq<Addr>)
    requires forall h :: h in some ==> h in all
    ensures forall h :: h in Elements(some) ==> h in Elements(all)
    ensures forall h :: h in Elements(some) <==> h in some
  {
  }

  /** A trampoline around any roomy code keeps the registry exact if and only if its
      own scope has the room; otherwise exactly the handles that the scope did not
      note stay registered, although they do not exist. */
  lemma {:induction false} FrameExactIff(s: State, f: Scope, hs: seq<Addr>, code: seq<Act>)
    requires Valid(s) && Fits(s, f, hs) && Roomy(code)
    ensures var t := Perform(s, Frame(f, hs, code));
            && (Exactly(t.registry, t.storage) <==> |f.kinds| <= f.room)
            && t.registry == Heads(t.storage) + Elements(Unnoted(f.room, hs))
            && Elements(Unnoted(f.room, hs)) !! t.storage.Keys
            && (forall h :: h in hs ==> h !in t.storage)
            && Kept(s, t) && (|f.kinds| <= f.room ==> Valid(t))
    decreases code, 1
  {
    hide Valid, Kept, Exact, Elements, Noted, Unnoted, Enter, Leave, RunAll;
    var b := Enter(s, f, hs);
    EnterValid(s, f, hs);
    RunSafe(b, code);
    var u := RunAll(b, code);
    KeptFramed(b, u);
    NotedIsPart(f.room, hs);
    LeaveParts(u, f, hs);
    var t := Leave(u, f, hs);
    assert u.framed == s.framed + Elements(hs);
    FrameKept(s, b, u, t, hs);
    ExactlyIff(t, Elements(Unnoted(f.room, hs)), u);
    forall h | h in hs ensures h !in t.storage { InElements(hs, h); }
  }

  lemma KeptFramed(s: State, t: State)
    requires Kept(s, t)
    ensures t.framed == s.framed
  {
  }

  lemma ExactlyIff(t: State, rest: set<Addr>, u: State)
    requires Valid(u) && t.storage.Keys <= u.storage.Keys
    requires t.registry == Heads(t.storage) + rest && rest !! t.storage.Keys
    ensures Exactly(t.registry, t.storage) <==> rest == {}
  {
    if rest != {} {
      var h :| h in rest;
      assert h in t.registry && h !in t.storage;
    }
    hide Exact;
  }

  /** The handles of the callbacks around it are as they were. */
  lemma FrameKept(s: State, b: State, u: State, t: State, hs: seq<Addr>)
    requires Valid(s) && Kept(s, b.(framed := s.framed)) && Kept(b, u) && b.framed == s.framed + Elements(hs) && s.framed !! Elements(hs)
    requires t.storage == u.storage - Elements(hs) && t.framed == u.framed - Elements(hs) && Follows(t.book, u.book)
    requires exists rest :: rest <= Elements(hs) && t.registry == u.registry - (Elements(hs) - rest)
    requires forall h :: h in u.book.serial && h !in Elements(hs) ==> Same(t.book, u.book, h)
    ensures Kept(s, t)
  {
    hide Elements;
    var rest :| rest <= Elements(hs) && t.registry == u.registry - (Elements(hs) - rest);
    forall h | h in s.framed && h in s.registry && h in s.storage
      ensures h in t.registry && h in t.storage && t.storage[h] == s.storage[h] && (h in s.book.serial ==> Same(t.book, s.book, h))
    {
      assert h in b.framed && h !in Elements(hs);
      assert h in b.registry && h in b.storage && h in u.registry;
    }
  }

  lemma OtherValid(s: State, a: Act)
    requires Valid(s) && !a.Frame?
    ensures var t := Perform(s, a); Valid(t) && Kept(s, t)
  {
    KeptRefl(s);
    match a
    case Create(h, k) =>
      if h in s.storage && h !in s.registry { RegisterValid(s, h, k) by { assert h != NULL; } }
      hide Valid, Kept, Register;
    case Destroy(h) =>
      if h in s.registry && h !in s.framed { UnregisterValid(s, h); }
      hide Valid, Kept, Unregister;
    case _ => PlainValid(s, a);
  }

  /** Other uses of memory. */
  lemma PlainValid(s: State, a: Act)
    requires Valid(s) && (a.Obtain? || a.Scribble? || a.Return?)
    ensures var t := Perform(s, a); Valid(t) && Kept(s, t)
  {
    hide Exact;
    if a.Return? && a.h !in s.registry { assert forall h :: h in s.registry ==> h in (s.storage - {a.h}); }
    assert forall h :: h in s.book.serial ==> Same(s.book, s.book, h);
  }

  lemma {:induction false} RunSafe(s: State, acts: seq<Act>)
    requires Valid(s) && Roomy(acts)
    ensures Valid(RunAll(s, acts)) && Kept(s, RunAll(s, acts))
    decreases acts, 0
  {
    hide Valid, Kept, Perform, Exactly, Fits;
    if acts == [] {
      KeptRefl(s);
    } else {
      var a := acts[0];
      if !a.Frame? {
        OtherValid(s, a);
      } else if Fits(s, a.f, a.hs) {
        FrameExactIff(s, a.f, a.hs, a.code);
      } else {
        NoRoom(s, a);
      }
      RunSafe(Perform(s, a), acts[1..]);
      KeptTrans(s, Perform(s, a), RunAll(s, acts));
    }
  }

  lemma NoRoom(s: State, a: Act)
    requires a.Frame? && !Fits(s, a.f, a.hs)
    ensures Perform(s, a) == s && Kept(s, s)
  {
  }

  // ------------------------------------------------------------- the registry's promise

  /** alive (222-227): the storage is read only once the address is known to be
      registered. */
  predicate IsAlive(s: State, h: Addr, asked: Kind)
    requires h in s.registry ==> h in s.storage
  {
    h != NULL && h in s.registry && FirstWord(s.storage[h]) == Magic(asked)
  }

  /** Each type is meant to have a mark of its own (167-169, 181-182).  All have but
      one pair: a request of a route callback is marked as a QUIC server is. */
  lemma MarksAgreeIff(k: Kind, l: Kind)
    ensures Magic(k) == Magic(l) <==> k == l || (k == Req && l == QuicServer) || (k == QuicServer && l == Req)
  {
  }

  /** In every tree of callbacks that the source's trampolines make, whatever the code
      in them does with memory and handles: the registry holds exactly the handles
      that exist and are not poisoned; between callbacks none of theirs is left; and
      the live count is the handles made minus those destroyed. */
  lemma RegistryIsExact(acts: seq<Act>)
    requires FromSource(acts)
    ensures var s := RunAll(FRESH, acts);
            && Exactly(s.registry, s.storage) && s.framed == {}
            && |s.registry| == s.book.made - |s.book.deletions|
  {
    var s := RunAll(FRESH, acts);
    SourceIsRoomy(acts);
    RunSafe(FRESH, acts);
    Conservation(s.book, s.registry);
    assert |s.book.serial| == |s.book.serial.Keys|;
    hide RunAll, Roomy, FromSource;
  }

  /** So of no pointer, however stale, is storage read that does not exist, and the test
      is passed exactly by the handles that exist and are of the type asked for, but
      for the one pair of types that share a mark. */
  lemma AliveIff(s: State, h: Addr, asked: Kind)
    requires Valid(s)
    ensures h in s.registry ==> h in s.storage
    ensures IsAlive(s, h, asked) <==>
              h in s.storage && s.storage[h].Head?
              && (s.storage[h].kind == asked || {s.storage[h].kind, asked} == {Req, QuicServer})
  {
    hide Exact;
    if h in s.storage && s.storage[h].Head? {
      var k := s.storage[h].kind;
      MarksAgreeIff(k, asked);
      hide Magic;
      if {k, asked} == {Req, QuicServer} {
        assert k in {Req, QuicServer} && asked in {Req, QuicServer} && Req in {k, asked} && QuicServer in {k, asked};
      }
    }
  }

  /** The live count is what was made minus what was destroyed in every tree of
      callbacks, also when a scope drops a handle. */
  lemma {:induction false} LiveCount(s: State, acts: seq<Act>)
    requires Exact(s.book, s.registry)
    ensures var t := RunAll(s, acts); Exact(t.book, t.registry) && |t.registry| == t.book.made - |t.book.deletions|
    decreases acts, 0
  {
    hide Exact, Perform;
    if acts == [] {
      Conservation(s.book, s.registry);
      SerialSize(s);
    } else {
      PerformCounts(s, acts[0]);
      LiveCount(Perform(s, acts[0]), acts[1..]);
    }
  }

  lemma SerialSize(s: State)
    requires Exact(s.book, s.registry)
    ensures |s.book.serial| == |s.registry|
  {
    assert |s.book.serial| == |s.book.serial.Keys|;
  }

  lemma {:induction false} PerformCounts(s: State, a: Act)
    requires Exact(s.book, s.registry)
    ensures Exact(Perform(s, a).book, Perform(s, a).registry)
    decreases a, 0
  {
    hide Exact, Make, Delete, RunAll, Fits, RegisterAll, UnregisterAll, Elements;
    match a
    case Create(h, k) => if h !in s.registry { MakeExact(s.book, s.registry, h); }
    case Destroy(h) => if h in s.registry { DeleteExact(s.book, s.registry, h); }
    case Frame(f, hs, code) =>
      if Fits(s, f, hs) {
        FitsParts(s, f, hs);
        RegisterAllCounts(s, hs, f.kinds);
        LiveCount(Enter(s, f, hs), code);
        UnregisterAllCounts(RunAll(Enter(s, f, hs), code), Noted(f.room, hs));
      }
    case _ =>
  }

  lemma {:induction false} RegisterAllCounts(s: State, hs: seq<Addr>, kinds: seq<Kind>)
    requires Exact(s.book, s.registry) && |hs| == |kinds|
    ensures Exact(RegisterAll(s, hs, kinds).book, RegisterAll(s, hs, kinds).registry)
    decreases |hs|
  {
    hide Exact, Make;
    if hs != [] {
      var h, t := hs[|hs| - 1], RegisterAll(s, hs[..|hs| - 1], kinds[..|hs| - 1]);
      RegisterAllCounts(s, hs[..|hs| - 1], kinds[..|hs| - 1]);
      if h !in t.registry { MakeExact(t.book, t.registry, h); }
      if h in t.registry { assert t.registry + {h} == t.registry; }
    }
  }

  lemma {:induction false} UnregisterAllCounts(s: State, hs: seq<Addr>)
    requires Exact(s.book, s.registry)
    ensures Exact(UnregisterAll(s, hs).book, UnregisterAll(s, hs).registry)
    decreases |hs|
  {
    if hs != [] {
      var h := hs[|hs| - 1];
      if h in s.registry { DeleteExact(s.book, s.registry, h); }
      if h !in s.registry { assert s.registry - {h} == s.registry; }
      UnregisterAllCounts(Unregister(s, h), hs[..|hs| - 1]);
    }
  }

  /** Callbacks in which nothing is done but to nest further ones. */
  predicate OnlyFrames(acts: seq<Act>)
    decreases acts, 0
  {
    acts != [] ==> OnlyFramesAct(acts[0]) && OnlyFrames(acts[1..])
  }

  predicate OnlyFramesAct(a: Act)
    decreases a, 0
  {
    a.Frame? && OnlyFrames(a.code)
  }

  /** Trampolines by themselves leave no trace: registry and memory are what they were
      before, whatever the nesting. */
  lemma {:induction false} FramesLeaveNoTrace(s: State, acts: seq<Act>)
    requires Valid(s) && Roomy(acts) && OnlyFrames(acts)
    ensures var t := RunAll(s, acts); t.registry == s.registry && t.storage == s.storage
    decreases acts, 0
  {
    hide Valid, Exact, Enter, Leave, Fits, Elements, Noted, Unnoted;
    if acts != [] {
      var Frame(f, hs, code) := acts[0];
      if Fits(s, f, hs) {
        FitsParts(s, f, hs);
        var b := Enter(s, f, hs);
        EnterValid(s, f, hs);
        FramesLeaveNoTrace(b, code);
        var u := RunAll(b, code);
        RunSafe(b, code);
        KeptFramed(b, u);
        NotedIsPart(f.room, hs);
        LeaveParts(u, f, hs);
        NoTrace(s, b, hs);
        var t := Leave(u, f, hs);
        assert t.registry == s.registry && t.storage == s.storage;
        FramesLeaveNoTrace(t, acts[1..]);
      } else {
        FramesLeaveNoTrace(s, acts[1..]);
      }
    }
  }

  lemma NoTrace(s: State, b: State, hs: seq<Addr>)
    requires Valid(s) && forall h :: h in hs ==> h !in s.storage
    requires b.registry == s.registry + Elements(hs) && b.storage.Keys == s.storage.Keys + Elements(hs)
    requires forall h :: h in s.storage ==> b.storage[h] == s.storage[h]
    ensures b.registry - Elements(hs) == s.registry && b.storage - Elements(hs) == s.storage
  {
    hide Exact;
  }

  // ------------------------------------------------------------- what each act does

  /** All storage other than these places is as it was. */
  ghost predicate OthersSame(s: State, t: State, some: set<Addr>) {
    forall h :: h !in some ==> (h in s.storage <==> h in t.storage) && (h in s.storage ==> t.storage[h] == s.storage[h])
                               && (h in s.registry <==> h in t.registry)
  }

  lemma AliveSafe(s: State)
    requires Valid(s)
    ensures forall h :: h in s.registry ==> h in s.storage
  {
    hide Exact;
  }

  /** A handle that is created passes the test for its type; one that is destroyed
      passes none.  A registered handle cannot be created again, and a callback's cannot
      be destroyed by the user. */
  lemma CreateAndDestroy(s: State, h: Addr, k: Kind, asked: Kind)
    requires Valid(s)
    ensures var t := Perform(s, Create(h, k));
            if h in s.storage && h !in s.registry
            then h in t.registry && h in t.storage && OthersSame(s, t, {h})
                 && (IsAlive(t, h, asked) <==> k == asked || {k, asked} == {Req, QuicServer})
            else t == s
    ensures var t := Perform(s, Destroy(h));
            if h in s.registry && h !in s.framed
            then h !in t.registry && h in t.storage && FirstWord(t.storage[h]) == ZERO && OthersSame(s, t, {h}) && !IsAlive(t, h, asked)
            else t == s
  {
    hide Exact, Make, Delete, Magic;
    if h in s.storage && h !in s.registry {
      RegisterValid(s, h, k) by { assert h != NULL; }
      AliveIff(Register(s, h, k), h, asked);
    }
    hide Kept;
  }

  /** What other code does with memory makes no handle and ends none; storage of a
      registered handle it can neither give back nor write to. */
  lemma MemoryActs(s: State, h: Addr, word: Word, asked: Kind)
    requires Valid(s)
    ensures var t := Perform(s, Obtain(h, word));
            if h != NULL && h !in s.storage then h in t.storage && t.storage[h] == Plain(word) && OthersSame(s, t, {h}) && !IsAlive(t, h, asked)
            else t == s
    ensures var t := Perform(s, Scribble(h, word));
            if h in s.storage && h !in s.registry then t.storage == s.storage[h := Plain(word)] && t.registry == s.registry && !IsAlive(t, h, asked)
            else t == s
    ensures var t := Perform(s, Return(h));
            if h !in s.registry then t.storage == s.storage - {h} && t.registry == s.registry && !IsAlive(t, h, asked)
            else t == s
  {
    hide Exact, Magic;
  }

  /** While a trampoline's code runs each of its handles passes the test for its type. */
  lemma InsideFrameAlive(s: State, f: Scope, hs: seq<Addr>, i: nat)
    requires Valid(s) && Fits(s, f, hs) && i < |hs|
    ensures var t := Enter(s, f, hs); hs[i] in t.storage && i < |f.kinds| && IsAlive(t, hs[i], f.kinds[i])
  {
    hide Exact, Magic;
    EnterValid(s, f, hs);
    AliveIff(Enter(s, f, hs), hs[i], f.kinds[i]);
    hide Enter, Kept;
  }

  /** And the code does run: a handle that it creates is there when the trampoline has
      ended. */
  lemma FrameRunsCode(s: State, f: Scope, hs: seq<Addr>, h: Addr, k: Kind)
    requires Valid(s) && Fits(s, f, hs) && |f.kinds| <= f.room && h in s.storage && h !in s.registry
    ensures var t := Perform(s, Frame(f, hs, [Create(h, k)])); h in t.storage && IsAlive(t, h, k)
  {
    hide Exact, Magic, Enter, Leave, Elements, Noted, Unnoted, Kept, RegisterAll, Fits, Valid;
    FitsParts(s, f, hs);
    var b, a := Enter(s, f, hs), Create(h, k);
    EnterValid(s, f, hs);
    InElements(hs, h);
    var u := Perform(b, a);
    CreateAndDestroy(b, h, k, k);
    assert [a][1..] == [] && RunAll(u, []) == u;
    assert RunAll(b, [a]) == u;
    RunSafe(b, [a]);
    KeptFramed(b, u);
    NotedIsPart(f.room, hs);
    LeaveParts(u, f, hs);
    StillAlive(u, Leave(u, f, hs), h, k);
  }

  lemma StillAlive(u: State, t: State, h: Addr, k: Kind)
    requires h in u.storage && h in u.registry && IsAlive(u, h, k)
    requires h in t.storage && t.storage[h] == u.storage[h] && h in t.registry
    ensures IsAlive(t, h, k)
  {
  }

  // --------------------------------------------------------------------- in place

  /** FrameScope (uvcpp_c_webapp.cpp 232-254): what it has noted, and how much. */
  class FrameScope {
    const slots: array<Addr>
    var n: nat

    ghost predicate Sound()
      reads this
    {
      n <= slots.Length
    }

    ghost function Contents(): seq<Addr>
      requires Sound()
      reads this, slots
    {
      slots[..n]
    }

    constructor (room: nat)
      ensures Sound() && fresh(slots) && slots.Length == room && Contents() == []
    {
      slots := new Addr[room];
      n := 0;
    }

    /** The second half of add (243). */
    method Note(h: Addr)
      requires Sound()
      modifies this`n, slots
      ensures Sound()
      ensures Contents() == if old(n) < slots.Length then old(Contents()) + [h] else old(Contents())
    {
      if n < slots.Length {
        slots[n] := h;
        n := n + 1;
      }
    }
  }

  class Registry {
    var registry: set<Addr>
    var storage: map<Addr, Cell>
    var framed: set<Addr>
    ghost var book: Book

    ghost function S(): State
      reads this
    {
      State(registry, storage, framed, book)
    }

    constructor ()
      ensures S() == FRESH && Valid(S())
    {
      registry, storage, framed, book := {}, map[], {}, EMPTY;
    }

    /** register_head (230-234). */
    method RegisterHead(h: Addr, k: Kind)
      modifies this`registry, this`storage, this`book
      ensures S() == Register(old(S()), h, k)
    {
      book := if h in registry then book else Make(book, h);
      storage := storage[h := Head(k)];
      registry := registry + {h};
    }

    /** unregister_head (237-241). */
    method UnregisterHead(h: Addr)
      requires h in storage
      modifies this`registry, this`storage, this`book
      ensures S() == Unregister(old(S()), h)
    {
      registry := registry - {h};
      storage := storage[h := Plain(ZERO)];
      book := Delete(book, h);
    }

    /** alive (222-227). */
    method Alive(h: Addr, asked: Kind) returns (r: bool)
      requires Valid(S())
      ensures r <==> h in storage && storage[h].Head?
                     && (storage[h].kind == asked || {storage[h].kind, asked} == {Req, QuicServer})
    {
      AliveIff(S(), h, asked);
      if h == NULL { return false; }
      if h !in registry { return false; }
      return FirstWord(storage[h]) == Magic(asked);
    }

    /** A trampoline: its handles are registered one by one through the scope, the
        user's code runs, and the scope ends, before the handles' storage does. */
    method Trampoline(f: Scope, hs: seq<Addr>, code: seq<Act>)
      requires Valid(S()) && Fits(S(), f, hs) && Roomy(code)
      modifies this
      ensures S() == Perform(old(S()), Frame(f, hs, code))
      decreases code, 1
    {
      hide Valid, Kept, RunAll, RegisterAll, UnregisterAll, Elements, Noted, Different;
      ghost var s := S();
      FitsParts(s, f, hs);
      EnterValid(s, f, hs);
      hide Fits;
      var scope := new FrameScope(f.room);
      AddAll(scope, f, hs);
      framed := framed + Elements(hs);
      assert S() == Enter(s, f, hs);
      RunSafe(S(), code);
      RunCode(code);
      NotedStored(s, S(), f, hs, code);
      CloseScope(scope);
      EraseFrame(hs);
    }

    method EraseFrame(hs: seq<Addr>)
      modifies this`storage, this`framed
      ensures S() == old(S()).(storage := old(storage) - Elements(hs), framed := old(framed) - Elements(hs))
    {
      storage, framed := storage - Elements(hs), framed - Elements(hs);
    }

    /** add (240-246), once for each handle. */
    method AddAll(scope: FrameScope, f: Scope, hs: seq<Addr>)
      requires |hs| == |f.kinds| && scope.Sound() && scope.n == 0 && scope.slots.Length == f.room
      modifies this`registry, this`storage, this`book, scope`n, scope.slots
      ensures S() == RegisterAll(old(S()), hs, f.kinds)
      ensures scope.Sound() && scope.Contents() == Noted(f.room, hs)
    {
      hide Register, Noted;
      NotedNone(f.room, hs[..0]);
      var i := 0;
      while i < |hs|
        invariant 0 <= i <= |hs| && scope.Sound()
        invariant S() == RegisterAll(old(S()), hs[..i], f.kinds[..i])
        invariant scope.Contents() == Noted(f.room, hs[..i])
      {
        assert hs[..i + 1][..i] == hs[..i] && f.kinds[..i + 1][..i] == f.kinds[..i];
        assert hs[..i + 1] == hs[..i] + [hs[i]];
        RegisterHead(hs[i], f.kinds[i]);
        NotedSnoc(f.room, hs[..i], hs[i]);
        scope.Note(hs[i]);
        i := i + 1;
      }
      assert hs[..i] == hs && f.kinds[..i] == f.kinds;
    }

    /** The destructor (235-237): the last first. */
    method CloseScope(scope: FrameScope)
      requires scope.Sound() && forall h :: h in scope.Contents() ==> h in storage
      modifies this`registry, this`storage, this`book
      ensures S() == UnregisterAll(old(S()), scope.Contents())
    {
      ghost var noted := scope.Contents();
      var i := scope.n;
      assert noted[..i] == noted;
      while i > 0
        invariant 0 <= i <= scope.n && scope.Sound() && noted == scope.Contents()
        invariant storage.Keys == old(storage.Keys)
        invariant UnregisterAll(S(), noted[..i]) == UnregisterAll(old(S()), noted)
      {
        i := i - 1;
        assert noted[..i + 1][..i] == noted[..i] && noted[i] in noted;
        UnregisterHead(scope.slots[i]);
      }
    }

    method PerformAct(a: Act)
      requires Valid(S()) && RoomyAct(a)
      modifies this
      ensures S() == Perform(old(S()), a) && Valid(S())
      decreases a, 0
    {
      RunOne(S(), a);
      hide Valid;
      match a
      case Obtain(h, garbage) => if h != NULL && h !in storage { storage := storage[h := Plain(garbage)]; }
      case Scribble(h, garbage) => if h in storage && h !in registry { storage := storage[h := Plain(garbage)]; }
      case Return(h) => if h !in registry { storage := storage - {h}; }
      case Create(h, k) => if h in storage && h !in registry { RegisterHead(h, k); }
      case Destroy(h) => if h in registry && h !in framed { UnregisterHead(h); }
      case Frame(f, hs, code) => if Free(storage, f, hs) { Trampoline(f, hs, code); }
    }

    method RunCode(acts: seq<Act>)
      requires Valid(S()) && Roomy(acts)
      modifies this
      ensures S() == RunAll(old(S()), acts) && Valid(S())
      decreases acts, 0
    {
      hide Valid, Perform, RoomyAct;
      var i := 0;
      while i < |acts|
        invariant 0 <= i <= |acts| && Valid(S()) && Roomy(acts[i..])
        invariant RunAll(S(), acts[i..]) == RunAll(old(S()), acts)
      {
        assert acts[i..][1..] == acts[i + 1..];
        PerformAct(acts[i]);
        i := i + 1;
      }
    }
  }

  lemma RunOne(s: State, a: Act)
    requires Valid(s) && RoomyAct(a)
    ensures Valid(Perform(s, a)) && (a.Destroy? && a.h in s.registry ==> a.h in s.storage)
  {
    RunSafe(s, [a]);
    assert [a][1..] == [];
    assert RunAll(Perform(s, a), []) == Perform(s, a);
    hide Perform, RunAll, Exact;
  }

  /** The scope finds the handles that it has noted. */
  lemma NotedStored(s: State, u: State, f: Scope, hs: seq<Addr>, code: seq<Act>)
    requires |hs| == |f.kinds| && Valid(Enter(s, f, hs)) && Roomy(code) && u == RunAll(Enter(s, f, hs), code)
    requires Elements(hs) <= Enter(s, f, hs).framed
    ensures forall h :: h in Noted(f.room, hs) ==> h in u.storage
  {
    hide Valid, Enter, RunAll, Roomy;
    RunSafe(Enter(s, f, hs), code);
    KeptFramed(Enter(s, f, hs), u);
    FramedIn(u, hs);
  }
}
