/** Borrowed QUIC connection handles, whose death is shared by two files:
    src/capi/uvcpp_c_quic.cpp hands them out and takes them back when a connection
    closes, and src/capi/uvcpp_c_http3.cpp does so in its place once HTTP/3 has
    taken over the connection's callbacks.  User code is a tree of acts, as in
    TcpReaper.  One server endpoint, any number of client endpoints. */
module QuicHandles {
  import opened Base
  import opened Ledger

  /** The address of a C++ connection object; it may be reused. */
  type Conn = nat

  datatype Handle =
    | Quic(conn: Option<Conn>, live: bool, server: bool, installed: bool, onClose: bool)
    | H3(quic: Addr, target: Conn, onDisconnect: bool, started: bool, token: nat)

  /** Whose callbacks a C++ connection runs when it closes.  Those of HTTP/3 go by
      the life token of the object that installed them (uvcpp_h3_connection.cpp
      120-144), which no later object at its address shares. */
  datatype Slot = QuicSlot(w: Addr) | H3Slot(h: Addr, token: nat)

  datatype Act =
    | Accept(c: Conn, place: Option<Addr>, code: seq<Act>)  // the listen callback
    | Close(c: Conn, code: seq<Act>)                        // a connection ends
    | SetCallbacks(w: Addr, onClose: bool)
    | H3New(w: Addr, place: Option<Addr>)
    | H3Start(h: Addr, onDisconnect: bool)
    | H3Free(h: Addr)
    | ClientNew(place: Option<Addr>)
    | ClientConnect(k: Addr, c: Conn)
    | ClientFree(k: Addr)
    | ServerFree(order: seq<Conn>)

  datatype State = State(
    // storage and registry
    memory: map<Addr, Handle>, registry: set<Addr>,
    // uvcpp_c_quic_server
    up: bool, conns: map<Conn, Addr>, retired: seq<Addr>, cbDepth: nat,
    // the C++ side: connections of the server and of the clients, those whose last
    // callback is running, and who is called when a connection ends
    served: set<Conn>, peers: map<Conn, Addr>, closing: set<Conn>, slots: map<Conn, Slot>,
    // the life tokens given to HTTP/3 objects so far
    tokens: nat,
    // history of the server's connection handles
    book: Book,
    // whether the user keeps an HTTP/3 handle until its connection is over, as
    // src/capi/uvcpp_c_http3.h (42-44, 195) tells
    polite: bool)

  function Fresh(polite: bool): State {
    State(map[], {}, true, map[], [], 0, {}, map[], {}, map[], 0, EMPTY, polite)
  }

  predicate IsQuic(s: State, w: Addr) { w in s.registry && w in s.memory && s.memory[w].Quic? }
  predicate IsH3(s: State, h: Addr) { h in s.registry && h in s.memory && s.memory[h].H3? }
  predicate HasToken(s: State, h: Addr, token: nat) { IsH3(s, h) && s.memory[h].token == token }
  predicate Usable(s: State, w: Addr) { IsQuic(s, w) && s.memory[w].conn.Some? }
  predicate IsOpen(s: State, c: Conn) { c in s.served || c in s.peers }

  // ------------------------------------------------------- handing out, taking back

  /** install_conn_callbacks (237-288): once only. */
  function Install(s: State, w: Addr): State {
    if w !in s.memory || !s.memory[w].Quic? || s.memory[w].installed || s.memory[w].conn.None? then s
    else s.(slots := s.slots[s.memory[w].conn.value := QuicSlot(w)], memory := s.memory[w := s.memory[w].(installed := true)])
  }

  /** attach_conn (291-302). */
  function Attach(s: State, w: Addr, c: Conn): State {
    if w !in s.memory || !s.memory[w].Quic? then s
    else
      Install(s.(memory := s.memory[w := s.memory[w].(conn := Some(c), installed := false, live := true)],
                 registry := s.registry + {w}), w)
  }

  function Without(conns: map<Conn, Addr>, w: Addr): map<Conn, Addr> {
    map c | c in conns && conns[c] != w :: conns[c]
  }

  /** detach_conn (311-331). */
  function Detach(s: State, w: Addr): State {
    if w !in s.memory || !s.memory[w].Quic? || !s.memory[w].live then s
    else
      var t := s.(memory := s.memory[w := s.memory[w].(live := false, conn := None, installed := false)],
                  registry := s.registry - {w});
      if !s.memory[w].server then t
      else t.(conns := Without(s.conns, w), retired := s.retired + [w])
  }

  /** quic_conn_detach (423-428). */
  function QuicDetach(s: State, w: Addr): State {
    if IsQuic(s, w) then Detach(s, w) else s
  }

  /** server_conn_of (389-411), without the branch for a dead entry (395), which
      LiveEntries proves unreachable. */
  function ServerConnOf(s: State, c: Conn, place: Option<Addr>): (State, Option<Addr>) {
    if c in s.conns then (s, Some(s.conns[c]))
    else if place.None? then (s, None)
    else
      var w := place.value;
      (Install(s.(memory := s.memory[w := Quic(Some(c), true, true, false, false)], registry := s.registry + {w},
                  book := Make(s.book, w)), w).(conns := s.conns[c := w]), Some(w))
  }

  predicate Fits(s: State, place: Option<Addr>) { place.Some? ==> place.value !in s.memory }

  // ------------------------------------------------------------------- the acts

  function H3Create(s: State, w: Addr, place: Option<Addr>): State {
    if !Usable(s, w) || place.None? || !Fits(s, place) then s
    else
      s.(memory := s.memory[place.value := H3(w, s.memory[w].conn.value, false, false, s.tokens)],
         registry := s.registry + {place.value}, tokens := s.tokens + 1)
  }

  /** The borrowed handle still stands for the connection the object was built on. */
  predicate Reaches(s: State, h: Addr)
    requires IsH3(s, h)
  {
    var w := s.memory[h].quic;
    Usable(s, w) && s.memory[w].conn == Some(s.memory[h].target) && IsOpen(s, s.memory[h].target)
  }

  /** uvcpp_c_h3_conn_start (373-409).  The table is taken each time; only the first
      start (148-150 of uvcpp_h3_connection.cpp) replaces the callbacks of the
      connection that the object was built on, as long as that is still the
      borrowed handle's. */
  function H3TakesOver(s: State, h: Addr, onDisconnect: bool): State {
    if !IsH3(s, h) then s
    else
      var t := s.(memory := s.memory[h := s.memory[h].(onDisconnect := onDisconnect, started := true)]);
      if s.memory[h].started || !Reaches(s, h) then t
      else t.(slots := s.slots[s.memory[h].target := H3Slot(h, s.memory[h].token)])
  }

  /** The handle's connection is still to end, and would tell this handle. */
  predicate Owns(s: State, h: Addr)
    requires IsH3(s, h)
  {
    exists c :: c in s.slots && c !in s.closing && s.slots[c] == H3Slot(h, s.memory[h].token)
  }

  /** uvcpp_c_h3_connection_free (355-371). */
  function H3Drop(s: State, h: Addr): State {
    if !IsH3(s, h) || (s.polite && Owns(s, h)) then s
    else s.(registry := s.registry - {h}, memory := s.memory - {h})
  }

  function Connect(s: State, k: Addr, c: Conn): State {
    if k !in s.memory || !s.memory[k].Quic? || s.memory[k].server || IsOpen(s, c) then s
    else Attach(s.(peers := s.peers[c := k]), k, c)
  }

  /** uvcpp_c_quic_client_free (625-649), outside of any connection's callback. */
  function FreeClient(s: State, k: Addr): State {
    if s.closing != {} || k !in s.memory || !s.memory[k].Quic? || s.memory[k].server then s
    else
      var t := Detach(s, k);
      var mine := set c | c in s.peers && s.peers[c] == k;
      t.(memory := t.memory - {k}, peers := t.peers - mine, slots := t.slots - mine)
  }

  function DetachAll(s: State, handles: seq<Addr>): State
    decreases |handles|
  {
    if handles == [] then s else DetachAll(Detach(s, handles[0]), handles[1..])
  }

  /** The snapshot of the table that is taken before it is changed (847-854). */
  function Snapshot(conns: map<Conn, Addr>, order: seq<Conn>): seq<Addr>
    requires forall c :: c in order ==> c in conns
  {
    seq(|order|, i requires 0 <= i < |order| => conns[order[i]])
  }

  function Members<T>(s: seq<T>): set<T> { set x | x in s }

  /** uvcpp_c_quic_server_free (824-869), outside of any connection's callback;
      `order` is the order in which the table is walked. */
  function FreeServer(s: State, order: seq<Conn>): State {
    if !s.up || s.closing != {} || s.cbDepth > 0 || multiset(order) != multiset(s.conns.Keys) then s
    else
      assert forall c :: c in order ==> c in multiset(order);
      var t := DetachAll(s, Snapshot(s.conns, order));
      t.(conns := map[], memory := t.memory - Members(t.retired), book := DeleteAll(t.book, Members(t.retired)),
         retired := [], up := false, slots := t.slots - t.served, served := {})
  }

  /** The framework is done with a connection. */
  function Gone(s: State, c: Conn): State {
    s.(served := s.served - {c}, peers := s.peers - {c}, closing := s.closing - {c}, slots := s.slots - {c})
  }

  function Within(s: State, c: Conn): State {
    s.(closing := s.closing + {c})
  }

  /** The user's callback in a connection's last moments, if there is one. */
  function Ending(s: State, c: Conn, called: bool, code: seq<Act>): State
    decreases code, 1
  {
    if called then RunAll(Within(s, c), code) else Within(s, c)
  }

  /** A connection ends: on_close (278-284), or, once HTTP/3 has taken over,
      on_disconnect (400-406 and 266-278 of uvcpp_c_http3.cpp). */
  function End(s: State, c: Conn, code: seq<Act>): State
    decreases code, 2
  {
    if !IsOpen(s, c) || c in s.closing then s
    else if c !in s.slots then Gone(s, c)
    else
      match s.slots[c]
      case QuicSlot(w) =>
        if !Usable(s, w) then Gone(s, c)
        else Gone(Detach(Ending(s, c, s.memory[w].onClose, code), w), c)
      case H3Slot(h, n) =>
        if !HasToken(s, h, n) then Gone(s, c)
        else
          var q := s.memory[h].quic;
          Gone(QuicDetach(Ending(s, c, s.memory[h].onDisconnect, code), q), c)
  }

  function Perform(s: State, a: Act): State
    decreases a, 0
  {
    match a
    case Accept(c, place, code) =>  // 950-961
      if !s.up || IsOpen(s, c) || !Fits(s, place) then s
      else
        var (t, w) := ServerConnOf(s.(served := s.served + {c}), c, place);
        if w.None? then t
        else
          var u := RunAll(t.(cbDepth := t.cbDepth + 1), code);
          if u.cbDepth == 0 then u else u.(cbDepth := u.cbDepth - 1)
    case Close(c, code) => End(s, c, code)
    case SetCallbacks(w, onClose) =>
      if IsQuic(s, w) then s.(memory := s.memory[w := s.memory[w].(onClose := onClose)]) else s
    case H3New(w, place) => H3Create(s, w, place)
    case H3Start(h, onDisconnect) => H3TakesOver(s, h, onDisconnect)
    case H3Free(h) => H3Drop(s, h)
    case ClientNew(place) =>  // 594-626
      if place.None? || !Fits(s, place) then s
      else s.(memory := s.memory[place.value := Quic(None, true, false, false, false)], registry := s.registry + {place.value})
    case ClientConnect(k, c) => Connect(s, k, c)
    case ClientFree(k) => FreeClient(s, k)
    case ServerFree(order) => FreeServer(s, order)
  }

  function RunAll(s: State, acts: seq<Act>): State
    decreases acts, 0
  {
    if acts == [] then s else RunAll(Perform(s, acts[0]), acts[1..])
  }

  // ----------------------------------------------------------------- invariants

  /** What is registered is what is stored, but for the detached handles. */
  ghost predicate Registered(memory: map<Addr, Handle>, registry: set<Addr>) {
    && (forall a :: a in registry <==> a in memory && (memory[a].Quic? ==> memory[a].live))
    && (forall a :: a in memory && memory[a].Quic? && memory[a].conn.Some? ==> memory[a].live)
  }

  ghost predicate Served(memory: map<Addr, Handle>, w: Addr) {
    w in memory && memory[w].Quic? && memory[w].server
  }

  /** A server's handle is in the table exactly while it is live. */
  ghost predicate LiveEntries(memory: map<Addr, Handle>, conns: map<Conn, Addr>) {
    && (forall c :: c in conns ==> Served(memory, conns[c]) && memory[conns[c]].live && memory[conns[c]].conn == Some(c))
    && (forall w :: Served(memory, w) && memory[w].live ==> memory[w].conn.Some? && memory[w].conn.value in conns && conns[memory[w].conn.value] == w)
  }

  /** And retired, once, when it no longer is. */
  ghost predicate Retired(memory: map<Addr, Handle>, retired: seq<Addr>) {
    && NoDup(retired)
    && (forall w :: w in retired <==> Served(memory, w) && !memory[w].live)
  }

  ghost function Handles(memory: map<Addr, Handle>): set<Addr> {
    set w | w in memory && memory[w].Quic? && memory[w].server
  }

  /** Life tokens are told apart: no two objects share one, and none is to come. */
  ghost predicate Numbered(memory: map<Addr, Handle>, slots: map<Conn, Slot>, tokens: nat) {
    && (forall h :: h in memory && memory[h].H3? ==> memory[h].token < tokens)
    && (forall g, h :: g in memory && h in memory && memory[g].H3? && memory[h].H3? && memory[g].token == memory[h].token ==> g == h)
    && (forall c :: c in slots && slots[c].H3Slot? ==> slots[c].token < tokens)
  }

  ghost predicate Valid(s: State) {
    && Numbered(s.memory, s.slots, s.tokens)
    && Registered(s.memory, s.registry)
    && LiveEntries(s.memory, s.conns)
    && Retired(s.memory, s.retired)
    && Exact(s.book, Handles(s.memory))
    && (!s.up ==> s.conns == map[] && s.retired == [])
    && s.served !! s.peers.Keys
    && (forall c :: c in s.closing || c in s.slots ==> IsOpen(s, c))
  }

  /** What every nested piece of code leaves alone. */
  ghost predicate Kept(s: State, t: State) {
    && t.cbDepth == s.cbDepth && t.closing == s.closing && t.polite == s.polite
    && Follows(t.book, s.book)
    && NoneRevived(s.memory, s.tokens, t.memory, t.tokens)
    && (s.closing != {} || s.cbDepth > 0 ==> t.up == s.up)
    && (s.closing != {} ==> forall w :: w in s.memory && s.memory[w].Quic? ==> Stays(s, t, w))
    && (forall c :: c in s.closing ==> (c in s.served <==> c in t.served) && (IsOpen(s, c) ==> IsOpen(t, c)))
    && (forall w :: Holds(t, w) && t.memory[w].conn.value in s.closing ==> Holds(s, w) && t.memory[w].conn == s.memory[w].conn)
  }

  /** An HTTP/3 object that is there and was there, or is new, has a token of its own. */
  ghost predicate NoneRevived(m: map<Addr, Handle>, tokens: nat, n: map<Addr, Handle>, next: nat) {
    && tokens <= next
    && (forall h :: h in n && n[h].H3? && n[h].token < tokens ==>
          h in m && m[h].H3? && m[h].token == n[h].token && m[h].quic == n[h].quic)
  }

  /** A handle that stands for a connection. */
  ghost predicate Holds(s: State, w: Addr) {
    w in s.memory && s.memory[w].Quic? && s.memory[w].conn.Some?
  }

  /** A handle that is there, and the same one. */
  ghost predicate Stays(s: State, t: State, w: Addr) {
    && w in s.memory && w in t.memory && s.memory[w].Quic? && t.memory[w].Quic?
    && t.memory[w].server == s.memory[w].server
    && (t.memory[w].server ==> Same(t.book, s.book, w))
  }

  lemma KeptTrans(s: State, t: State, u: State)
    requires Kept(s, t) && Kept(t, u)
    ensures Kept(s, u)
  {
  }

  /** Once detached, a handle is not registered; and detaching it once more, by
      either file, changes nothing. */
  lemma DetachedOnce(s: State, w: Addr)
    requires Valid(s)
    ensures var t := QuicDetach(s, w);
            !IsQuic(t, w) && QuicDetach(t, w) == t && Detach(t, w) == t
  {
  }

  // ------------------------------------------- what each operation keeps, by part

  function Dead(m: map<Addr, Handle>, w: Addr): map<Addr, Handle>
    requires w in m && m[w].Quic?
  {
    m[w := m[w].(live := false, conn := None, installed := false)]
  }

  lemma DeadTables(m: map<Addr, Handle>, registry: set<Addr>, w: Addr)
    requires Registered(m, registry) && w in m && m[w].Quic? && m[w].live
    ensures Registered(Dead(m, w), registry - {w}) && Handles(Dead(m, w)) == Handles(m)
  {
  }

  lemma DeadEntries(m: map<Addr, Handle>, conns: map<Conn, Addr>, w: Addr)
    requires LiveEntries(m, conns) && w in m && m[w].Quic? && m[w].live
    ensures LiveEntries(Dead(m, w), Without(conns, w))
    ensures !m[w].server ==> Without(conns, w) == conns
  {
  }

  lemma DeadRetired(m: map<Addr, Handle>, retired: seq<Addr>, w: Addr)
    requires Retired(m, retired) && w in m && m[w].Quic? && m[w].live
    ensures Retired(Dead(m, w), if m[w].server then retired + [w] else retired)
  {
    forall v ensures v in retired + [w] <==> v in retired || v == w { }
  }

  /** QUIC handles have no token; those of HTTP/3 keep theirs until they are gone. */
  lemma QuicNumbered(s: State, w: Addr, h: Handle, slots: map<Conn, Slot>)
    requires Numbered(s.memory, s.slots, s.tokens) && h.Quic? && (w in s.memory ==> s.memory[w].Quic?)
    requires forall c :: c in slots && slots[c].H3Slot? ==> c in s.slots && s.slots[c] == slots[c]
    ensures Numbered(s.memory[w := h], slots, s.tokens) && NoneRevived(s.memory, s.tokens, s.memory[w := h], s.tokens)
  {
  }

  lemma FewerNumbered(s: State, gone: set<Addr>, slots: map<Conn, Slot>)
    requires Numbered(s.memory, s.slots, s.tokens)
    requires forall c :: c in slots ==> c in s.slots && s.slots[c] == slots[c]
    ensures Numbered(s.memory - gone, slots, s.tokens) && NoneRevived(s.memory, s.tokens, s.memory - gone, s.tokens)
  {
  }

  lemma H3Numbered(s: State, a: Addr, h: Handle)
    requires Numbered(s.memory, s.slots, s.tokens) && h.H3?
    requires if a in s.memory then s.memory[a].H3? && h.token == s.memory[a].token && h.quic == s.memory[a].quic else h.token == s.tokens
    ensures var next := if a in s.memory then s.tokens else s.tokens + 1;
            Numbered(s.memory[a := h], s.slots, next) && NoneRevived(s.memory, s.tokens, s.memory[a := h], next)
  {
  }

  lemma SlotNumbered(m: map<Addr, Handle>, slots: map<Conn, Slot>, tokens: nat, c: Conn, slot: Slot)
    requires Numbered(m, slots, tokens) && (slot.H3Slot? ==> slot.token < tokens)
    ensures Numbered(m, slots[c := slot], tokens)
  {
  }

  lemma SameNumbered(s: State, slots: map<Conn, Slot>)
    requires Numbered(s.memory, s.slots, s.tokens) && forall c :: c in slots ==> c in s.slots && s.slots[c] == slots[c]
    ensures Numbered(s.memory, slots, s.tokens) && NoneRevived(s.memory, s.tokens, s.memory, s.tokens)
  {
  }

  lemma DetachNumbered(s: State, w: Addr)
    requires Numbered(s.memory, s.slots, s.tokens)
    ensures var t := Detach(s, w); Numbered(t.memory, t.slots, t.tokens) && NoneRevived(s.memory, s.tokens, t.memory, t.tokens)
  {
    hide Numbered, NoneRevived, Without;
    SameNumbered(s, s.slots);
    if w in s.memory && s.memory[w].Quic? {
      QuicNumbered(s, w, s.memory[w].(live := false, conn := None, installed := false), s.slots);
    }
  }

  lemma DetachValid(s: State, w: Addr)
    requires Valid(s) && (!s.up ==> !Served(s.memory, w))
    ensures Valid(Detach(s, w))
  {
    if w in s.memory && s.memory[w].Quic? && s.memory[w].live {
      DeadTables(s.memory, s.registry, w);
      DeadEntries(s.memory, s.conns, w);
      DeadRetired(s.memory, s.retired, w);
    }
    DetachNumbered(s, w);
    hide Numbered, NoneRevived, Registered, LiveEntries, Retired, Exact, Handles, Without, Served;
  }

  /** Without a server there are no handles of it. */
  lemma DownMeansNone(s: State)
    requires Valid(s) && !s.up
    ensures forall w :: !Served(s.memory, w)
  {
    forall w ensures !Served(s.memory, w) {
      assert w !in s.retired;
    }
  }

  /** Handles keep their place and, unless they lose it, their connection. */
  ghost predicate Mild(s: State, t: State) {
    && t == s.(memory := t.memory, registry := t.registry, conns := t.conns, retired := t.retired, slots := t.slots, tokens := t.tokens)
    && NoneRevived(s.memory, s.tokens, t.memory, t.tokens)
    && (forall w :: w in s.memory && s.memory[w].Quic? ==> w in t.memory && t.memory[w].Quic? && t.memory[w].server == s.memory[w].server)
    && (forall w :: Holds(t, w) ==> Holds(s, w) && t.memory[w].conn == s.memory[w].conn)
  }

  lemma MildKept(s: State, t: State)
    requires Valid(s) && Mild(s, t)
    ensures Kept(s, t)
  {
    StaysRefl(s);
    hide Valid;
  }

  lemma ValidNumbered(s: State)
    requires Valid(s)
    ensures Numbered(s.memory, s.slots, s.tokens)
  {
  }

  lemma DetachKept(s: State, w: Addr)
    requires Valid(s)
    ensures Kept(s, Detach(s, w))
  {
    hide Valid, Kept, Without, Numbered, NoneRevived;
    ValidNumbered(s);
    DetachNumbered(s, w);
    WithoutKeeps(s.conns, w);
    MildKept(s, Detach(s, w));
  }

  lemma WithoutKeeps(conns: map<Conn, Addr>, w: Addr)
    ensures forall c :: c in Without(conns, w) ==> c in conns && Without(conns, w)[c] == conns[c]
  {
  }

  lemma StaysRefl(s: State)
    requires Valid(s)
    ensures forall w :: w in s.memory && s.memory[w].Quic? ==> Stays(s, s, w)
  {
    forall w | w in s.memory && s.memory[w].Quic? ensures Stays(s, s, w) {
      assert w in Handles(s.memory) <==> s.memory[w].server;
    }
  }

  lemma KeptRefl(s: State)
    requires Valid(s)
    ensures Kept(s, s)
  {
    StaysRefl(s);
    SameNumbered(s, s.slots);
    hide Registered, LiveEntries, Retired, Exact, Numbered, NoneRevived;
  }

  /** A new handle of the server. */
  lemma NewTables(m: map<Addr, Handle>, registry: set<Addr>, w: Addr, h: Handle)
    requires Registered(m, registry) && w !in m && (h.Quic? ==> h.live)
    ensures Registered(m[w := h], registry + {w})
    ensures Handles(m[w := h]) == if h.Quic? && h.server then Handles(m) + {w} else Handles(m)
  {
  }

  lemma NewEntries(m: map<Addr, Handle>, conns: map<Conn, Addr>, c: Conn, w: Addr, h: Handle)
    requires LiveEntries(m, conns) && w !in m && c !in conns
    requires h.Quic? && h.server && h.live && h.conn == Some(c)
    ensures LiveEntries(m[w := h], conns[c := w])
  {
  }

  /** A new handle that is not the server's. */
  lemma AsideEntries(m: map<Addr, Handle>, conns: map<Conn, Addr>, w: Addr, h: Handle)
    requires LiveEntries(m, conns) && w !in m && !(h.Quic? && h.server)
    ensures LiveEntries(m[w := h], conns)
  {
  }

  lemma NewRetired(m: map<Addr, Handle>, retired: seq<Addr>, w: Addr, h: Handle)
    requires Retired(m, retired) && w !in m && (h.Quic? ==> h.live)
    ensures Retired(m[w := h], retired)
  {
  }

  lemma ConnOfParts(s: State, c: Conn, w: Addr)
    requires c !in s.conns
    ensures ServerConnOf(s, c, Some(w)).0 ==
              s.(memory := s.memory[w := Quic(Some(c), true, true, true, false)], registry := s.registry + {w},
                 slots := s.slots[c := QuicSlot(w)], conns := s.conns[c := w], book := Make(s.book, w))
  {
    var t := ServerConnOf(s, c, Some(w)).0;
    assert t.memory == s.memory[w := Quic(Some(c), true, true, true, false)];
  }

  lemma NotHandle(m: map<Addr, Handle>, w: Addr)
    requires w !in m
    ensures w !in Handles(m)
  {
  }

  lemma ServerConnOfNew(s: State, c: Conn, w: Addr)
    requires Valid(s) && s.up && c in s.served && c !in s.conns && w !in s.memory
    ensures Valid(ServerConnOf(s, c, Some(w)).0)
  {
    hide Registered, LiveEntries, Retired, Exact, Handles, Make, ServerConnOf;
    var h := Quic(Some(c), true, true, true, false);
    ConnOfParts(s, c, w);
    NotHandle(s.memory, w);
    NewTables(s.memory, s.registry, w, h);
    NewEntries(s.memory, s.conns, c, w, h);
    NewRetired(s.memory, s.retired, w, h);
    MakeExact(s.book, Handles(s.memory), w);
    QuicNumbered(s, w, h, s.slots[c := QuicSlot(w)]);
    hide Numbered, NoneRevived;
  }

  lemma FollowsMake(s: State, w: Addr)
    requires Valid(s)
    ensures Follows(Make(s.book, w), s.book)
  {
    hide Registered, LiveEntries, Retired, Numbered;
  }

  lemma ServerConnOfKept(s: State, c: Conn, w: Addr)
    requires Valid(s) && c !in s.conns && w !in s.memory && c !in s.closing
    ensures Kept(s, ServerConnOf(s, c, Some(w)).0)
  {
    hide Valid, Exact, Numbered, NoneRevived, ServerConnOf;
    ConnOfParts(s, c, w);
    StaysRefl(s);
    ValidNumbered(s);
    QuicNumbered(s, w, Quic(Some(c), true, true, true, false), s.slots[c := QuicSlot(w)]);
    FollowsMake(s, w);
  }

  lemma ConnOfValid(s: State, c: Conn, place: Option<Addr>)
    requires Valid(s) && s.up && c in s.served && c !in s.closing && Fits(s, place)
    ensures var t := ServerConnOf(s, c, place).0; Valid(t) && Kept(s, t)
  {
    KeptRefl(s);
    if c !in s.conns && place.Some? {
      ServerConnOfNew(s, c, place.value);
      ServerConnOfKept(s, c, place.value);
    }
    hide Valid, Kept;
  }

  // ------------------------------------------------------------- the other acts

  lemma ReflaggedTables(s: State, a: Addr, h: Handle)
    requires Valid(s) && (if a in s.memory then s.memory[a].H3? && h.H3? else h.H3?)
    ensures var m := s.memory[a := h];
            Registered(m, s.registry + {a}) && LiveEntries(m, s.conns) && Retired(m, s.retired) && Handles(m) == Handles(s.memory)
    ensures a in s.memory ==> s.registry + {a} == s.registry
  {
  }

  lemma FlagTables(s: State, w: Addr, onClose: bool)
    requires Valid(s) && w in s.memory && s.memory[w].Quic?
    ensures var m := s.memory[w := s.memory[w].(onClose := onClose)];
            Registered(m, s.registry) && LiveEntries(m, s.conns) && Retired(m, s.retired) && Handles(m) == Handles(s.memory)
  {
  }

  lemma SetCallbacksMild(s: State, w: Addr, onClose: bool)
    requires Valid(s) && IsQuic(s, w)
    ensures Mild(s, s.(memory := s.memory[w := s.memory[w].(onClose := onClose)]))
  {
    hide Valid, Numbered, NoneRevived;
    ValidNumbered(s);
    QuicNumbered(s, w, s.memory[w].(onClose := onClose), s.slots);
  }

  lemma SetCallbacksValid(s: State, w: Addr, onClose: bool)
    requires Valid(s)
    ensures var t := Perform(s, SetCallbacks(w, onClose)); Valid(t) && Kept(s, t)
  {
    hide Registered, LiveEntries, Retired, Exact, Handles, Kept, Numbered, NoneRevived, Mild;
    KeptRefl(s);
    if IsQuic(s, w) {
      FlagTables(s, w, onClose);
      QuicNumbered(s, w, s.memory[w].(onClose := onClose), s.slots);
      SetCallbacksMild(s, w, onClose);
      MildKept(s, Perform(s, SetCallbacks(w, onClose)));
    }
  }

  lemma H3CreateParts(s: State, w: Addr, place: Option<Addr>)
    requires Valid(s) && Usable(s, w) && place.Some? && Fits(s, place)
    ensures var t := H3Create(s, w, place); Mild(s, t) && Numbered(t.memory, t.slots, t.tokens)
  {
    hide Valid, Numbered, NoneRevived;
    ValidNumbered(s);
    H3Numbered(s, place.value, H3(w, s.memory[w].conn.value, false, false, s.tokens));
  }

  lemma H3CreateValid(s: State, w: Addr, place: Option<Addr>)
    requires Valid(s)
    ensures var t := H3Create(s, w, place); Valid(t) && Kept(s, t)
  {
    hide Registered, LiveEntries, Retired, Exact, Handles, Kept, Numbered, NoneRevived, Mild;
    KeptRefl(s);
    if Usable(s, w) && place.Some? && Fits(s, place) {
      ReflaggedTables(s, place.value, H3(w, s.memory[w].conn.value, false, false, s.tokens));
      H3CreateParts(s, w, place);
      MildKept(s, H3Create(s, w, place));
    }
  }

  lemma H3TakesOverParts(s: State, h: Addr, onDisconnect: bool)
    requires IsH3(s, h) && Numbered(s.memory, s.slots, s.tokens)
    ensures var t := H3TakesOver(s, h, onDisconnect);
            && t == s.(memory := s.memory[h := s.memory[h].(onDisconnect := onDisconnect, started := true)], slots := t.slots)
            && (forall c :: c in t.slots ==> c in s.slots || IsOpen(s, c))
            && Numbered(t.memory, t.slots, t.tokens) && Mild(s, t)
  {
    var g := s.memory[h].(onDisconnect := onDisconnect, started := true);
    HasTokens(s, h);
    H3Numbered(s, h, g);
    SlotNumbered(s.memory[h := g], s.slots, s.tokens, g.target, H3Slot(h, g.token));
    hide Numbered, NoneRevived;
  }

  lemma HasTokens(s: State, h: Addr)
    requires IsH3(s, h) && Numbered(s.memory, s.slots, s.tokens)
    ensures s.memory[h].token < s.tokens
  {
  }

  lemma H3TakesOverValid(s: State, h: Addr, onDisconnect: bool)
    requires Valid(s)
    ensures var t := H3TakesOver(s, h, onDisconnect); Valid(t) && Kept(s, t)
  {
    KeptRefl(s);
    if IsH3(s, h) {
      ReflaggedTables(s, h, s.memory[h].(onDisconnect := onDisconnect, started := true));
      H3TakesOverParts(s, h, onDisconnect);
      MildKept(s, H3TakesOver(s, h, onDisconnect));
    }
    hide Registered, LiveEntries, Retired, Exact, Handles, Kept, H3TakesOver, Mild, Numbered, NoneRevived;
  }

  lemma H3DropTables(s: State, h: Addr)
    requires Valid(s) && h in s.memory && s.memory[h].H3?
    ensures var m := s.memory - {h};
            Registered(m, s.registry - {h}) && LiveEntries(m, s.conns) && Retired(m, s.retired) && Handles(m) == Handles(s.memory)
  {
  }

  lemma H3DropValid(s: State, h: Addr)
    requires Valid(s)
    ensures var t := H3Drop(s, h); Valid(t) && Kept(s, t)
  {
    var t := H3Drop(s, h);
    hide Owns;
    if IsH3(s, h) { H3DropTables(s, h); }
    SameNumbered(s, s.slots);
    FewerNumbered(s, {h}, s.slots);
    hide Numbered, NoneRevived;
    MildKept(s, t);
    hide Registered, LiveEntries, Retired, Exact, Handles, Kept;
  }

  lemma ClientNewValid(s: State, place: Option<Addr>)
    requires Valid(s)
    ensures var t := Perform(s, ClientNew(place)); Valid(t) && Kept(s, t)
  {
    var t := Perform(s, ClientNew(place));
    if place.Some? && Fits(s, place) {
      var h := Quic(None, true, false, false, false);
      NewTables(s.memory, s.registry, place.value, h);
      AsideEntries(s.memory, s.conns, place.value, h);
      NewRetired(s.memory, s.retired, place.value, h);
      QuicNumbered(s, place.value, h, s.slots);
    }
    SameNumbered(s, s.slots);
    hide Numbered, NoneRevived;
    MildKept(s, t);
    hide Registered, LiveEntries, Retired, Exact, Handles, Kept;
  }

  lemma AttachParts(s: State, k: Addr, c: Conn)
    requires k in s.memory && s.memory[k].Quic?
    ensures Attach(s, k, c) ==
              s.(memory := s.memory[k := s.memory[k].(conn := Some(c), live := true, installed := true)],
                 registry := s.registry + {k}, slots := s.slots[c := QuicSlot(k)])
  {
    var m := s.memory[k := s.memory[k].(conn := Some(c), installed := false, live := true)];
    assert m[k := m[k].(installed := true)] == s.memory[k := s.memory[k].(conn := Some(c), live := true, installed := true)];
  }

  lemma ClientTables(s: State, k: Addr, h: Handle)
    requires Valid(s) && k in s.memory && s.memory[k].Quic? && !s.memory[k].server && h.Quic? && !h.server && h.live
    ensures var m := s.memory[k := h];
            && Registered(m, s.registry + {k}) && LiveEntries(m, s.conns)
            && Retired(m, s.retired) && Handles(m) == Handles(s.memory)
  {
  }

  lemma ConnectValid(s: State, k: Addr, c: Conn)
    requires Valid(s)
    ensures var t := Connect(s, k, c); Valid(t) && Kept(s, t)
  {
    KeptRefl(s);
    if k in s.memory && s.memory[k].Quic? && !s.memory[k].server && !IsOpen(s, c) {
      var u := s.(peers := s.peers[c := k]);
      AttachParts(u, k, c);
      ClientTables(s, k, s.memory[k].(conn := Some(c), live := true, installed := true));
      QuicNumbered(s, k, s.memory[k].(conn := Some(c), live := true, installed := true), s.slots[c := QuicSlot(k)]);
      ConnectKept(s, k, c);
    }
    hide Numbered, NoneRevived, Registered, LiveEntries, Retired, Exact, Handles, Kept, Attach;
  }

  lemma NotClosing(s: State, c: Conn)
    requires Valid(s) && !IsOpen(s, c)
    ensures c !in s.closing
  {
  }

  lemma ConnectKept(s: State, k: Addr, c: Conn)
    requires Valid(s) && k in s.memory && s.memory[k].Quic? && !s.memory[k].server && !IsOpen(s, c)
    ensures Kept(s, Connect(s, k, c))
  {
    hide Valid, Numbered, NoneRevived, Attach, Follows;
    AttachParts(s.(peers := s.peers[c := k]), k, c);
    StaysRefl(s);
    FollowsRefl(s);
    ValidNumbered(s);
    NotClosing(s, c);
    QuicNumbered(s, k, s.memory[k].(conn := Some(c), live := true, installed := true), s.slots[c := QuicSlot(k)]);
  }

  lemma ClientGone(s: State, k: Addr)
    requires Valid(s) && k in s.memory && s.memory[k].Quic? && !s.memory[k].server && !s.memory[k].live
    ensures var m := s.memory - {k};
            && Registered(m, s.registry) && LiveEntries(m, s.conns)
            && Retired(m, s.retired) && Handles(m) == Handles(s.memory)
  {
  }

  lemma DetachClient(s: State, k: Addr)
    requires Valid(s) && k in s.memory && s.memory[k].Quic? && !s.memory[k].server
    ensures var t := Detach(s, k);
            && t == s.(memory := t.memory, registry := t.registry) && Valid(t)
            && k in t.memory && t.memory[k].Quic? && !t.memory[k].server && !t.memory[k].live
  {
    DetachValid(s, k);
    hide Valid;
  }

  lemma DropClientKept(t: State, k: Addr, mine: set<Conn>)
    requires Valid(t) && t.closing == {}
    ensures Kept(t, t.(memory := t.memory - {k}, peers := t.peers - mine, slots := t.slots - mine))
  {
    FewerNumbered(t, {k}, t.slots - mine);
    FollowsRefl(t);
    hide Valid, Numbered, NoneRevived, Follows;
  }

  lemma FollowsRefl(t: State)
    requires Valid(t)
    ensures Follows(t.book, t.book)
  {
  }

  lemma FreeClientValid(s: State, k: Addr)
    requires Valid(s)
    ensures var t := FreeClient(s, k); Valid(t) && Kept(s, t)
  {
    hide Registered, LiveEntries, Retired, Exact, Handles, Detach, Numbered, NoneRevived, Kept;
    KeptRefl(s);
    if s.closing == {} && k in s.memory && s.memory[k].Quic? && !s.memory[k].server {
      var t := Detach(s, k);
      var mine := set c | c in s.peers && s.peers[c] == k;
      DetachClient(s, k);
      DetachKept(s, k);
      ClientGone(t, k);
      ValidNumbered(t);
      FewerNumbered(t, {k}, t.slots - mine);
      DropClientKept(t, k, mine);
      KeptTrans(s, t, FreeClient(s, k));
    }

  }

  // ---------------------------------------------------------- freeing the server

  ghost predicate AllLive(m: map<Addr, Handle>, handles: seq<Addr>) {
    NoDup(handles) && forall w :: w in handles ==> Served(m, w) && m[w].live
  }

  lemma DetachParts(s: State, w: Addr)
    requires Served(s.memory, w) && s.memory[w].live
    ensures Detach(s, w) == s.(memory := Dead(s.memory, w), registry := s.registry - {w},
                               conns := Without(s.conns, w), retired := s.retired + [w])
  {
  }

  lemma RestLive(m: map<Addr, Handle>, handles: seq<Addr>)
    requires handles != [] && AllLive(m, handles)
    ensures Served(m, handles[0]) && AllLive(Dead(m, handles[0]), handles[1..])
  {
    assert handles[0] in handles;
    assert handles == [handles[0]] + handles[1..];
  }

  /** Walking a snapshot detaches each handle in it once, in its order. */
  lemma {:induction false} DetachAllParts(s: State, handles: seq<Addr>)
    requires Valid(s) && s.up && AllLive(s.memory, handles)
    ensures var t := DetachAll(s, handles);
            && Valid(t) && t.retired == s.retired + handles
            && t == s.(memory := t.memory, registry := t.registry, conns := t.conns, retired := t.retired)
            && (forall c :: c in t.conns ==> c in s.conns && s.conns[c] !in handles)
            && (forall w :: w in s.memory && !Served(s.memory, w) ==> w in t.memory && t.memory[w] == s.memory[w])
            && t.memory.Keys == s.memory.Keys
    decreases |handles|
  {
    hide Valid, AllLive, Detach;
    if handles != [] {
      var w := handles[0];
      assert w in handles;
      FirstLive(s.memory, handles);
      DetachParts(s, w);
      DetachValid(s, w);
      RestLive(s.memory, handles);
      DetachAllParts(Detach(s, w), handles[1..]);
      assert s.retired + [w] + handles[1..] == s.retired + handles;
      assert handles == [w] + handles[1..];
    }
  }

  lemma FirstLive(m: map<Addr, Handle>, handles: seq<Addr>)
    requires handles != [] && AllLive(m, handles)
    ensures Served(m, handles[0]) && m[handles[0]].live
  {
  }

  lemma SnapshotLive(s: State, order: seq<Conn>)
    requires Valid(s) && multiset(order) == multiset(s.conns.Keys)
    requires forall c :: c in order ==> c in s.conns
    ensures AllLive(s.memory, Snapshot(s.conns, order))
    ensures forall c :: c in s.conns ==> s.conns[c] in Snapshot(s.conns, order)
  {
    var handles := Snapshot(s.conns, order);
    OnceEach(order, s.conns.Keys);
    forall c | c in s.conns ensures s.conns[c] in handles {
      assert c in multiset(order);
      var i :| 0 <= i < |order| && order[i] == c;
      assert handles[i] == s.conns[c];
    }
    forall i, j | 0 <= i < j < |handles| ensures handles[i] != handles[j] {
      assert order[i] in order && order[j] in order;
    }
    forall w | w in handles ensures Served(s.memory, w) && s.memory[w].live {
      var i :| 0 <= i < |handles| && handles[i] == w;
      assert order[i] in order;
    }
  }

  lemma OnceEach<T>(s: seq<T>, elements: set<T>)
    requires multiset(s) == multiset(elements)
    ensures NoDup(s)
  {
    forall i, j | 0 <= i < j < |s| ensures s[i] != s[j] {
      var a, b := s[..j], s[j..];
      assert s == a + b && multiset(s) == multiset(a) + multiset(b);
      assert a[i] in multiset(a) && b[0] in multiset(b);
      assert multiset(s)[s[j]] <= 1;
    }
  }

  lemma AllRetired(m: map<Addr, Handle>, retired: seq<Addr>)
    requires LiveEntries(m, map[]) && Retired(m, retired)
    ensures Members(retired) == Handles(m)
  {
    forall w ensures w in Members(retired) <==> w in Handles(m) {
      assert w in Handles(m) <==> Served(m, w);
    }
  }

  lemma BuriedTables(m: map<Addr, Handle>, registry: set<Addr>)
    requires Registered(m, registry) && LiveEntries(m, map[])
    ensures var n := m - Handles(m);
            Registered(n, registry) && LiveEntries(n, map[]) && Retired(n, []) && Handles(n) == {} && forall w :: !Served(n, w)
  {
    var n := m - Handles(m);
    forall w ensures !Served(n, w) {
      assert Served(n, w) ==> w in Handles(m);
    }
  }

  ghost predicate MayFree(s: State, order: seq<Conn>) {
    s.up && s.closing == {} && s.cbDepth == 0 && multiset(order) == multiset(s.conns.Keys)
  }

  lemma FreeServerParts(s: State, order: seq<Conn>)
    requires Valid(s) && MayFree(s, order)
    ensures var t := FreeServer(s, order); var n := t.memory;
            && Registered(n, t.registry) && LiveEntries(n, map[]) && Retired(n, []) && Handles(n) == {}
            && (forall w :: !Served(n, w)) && Exact(t.book, {})
            && t == s.(memory := n, registry := t.registry, conns := map[], retired := [], up := false,
                       slots := s.slots - s.served, served := {}, book := t.book)
            && t.book == DeleteAll(s.book, Handles(s.memory))
            && (forall w :: w in n <==> w in s.memory && !Served(s.memory, w))
            && (forall w :: w in n ==> n[w] == s.memory[w])
  {
    hide Registered, Retired, Exact, DeleteAll;
    assert forall c :: c in order ==> c in multiset(order);
    var handles := Snapshot(s.conns, order);
    SnapshotLive(s, order);
    DetachAllParts(s, handles);
    var t := DetachAll(s, handles);
    assert t.conns == map[];
    AllRetired(t.memory, t.retired);
    BuriedTables(t.memory, t.registry);
    DeleteAllExact(t.book, Handles(t.memory), Handles(t.memory));
    assert Handles(t.memory) - Handles(t.memory) == {};
    SameHandles(s, t);
    forall w ensures w in Handles(t.memory) <==> Served(s.memory, w) {
      assert w in Handles(s.memory) <==> Served(s.memory, w);
    }
  }

  lemma SameHandles(s: State, t: State)
    requires Valid(s) && Valid(t) && s.book == t.book
    ensures Handles(s.memory) == Handles(t.memory)
  {
  }

  lemma FreeServerKept(s: State, order: seq<Conn>)
    requires Valid(s) && MayFree(s, order)
    ensures Kept(s, FreeServer(s, order))
  {
    hide Registered, LiveEntries, Retired, Exact, Handles, FreeServer, DeleteAll, Numbered;
    FreeServerParts(s, order);
    DeleteAllFollows(s.book, Handles(s.memory));
  }

  lemma FreeServerValid(s: State, order: seq<Conn>)
    requires Valid(s)
    ensures var t := FreeServer(s, order); Valid(t) && Kept(s, t)
  {
    hide Registered, LiveEntries, Retired, Exact, Handles, Kept, DeleteAll, Snapshot;
    if MayFree(s, order) {
      FreeServerParts(s, order);
      FreeServerKept(s, order);
    } else {
      KeptRefl(s);
    }
  }

  /** Freeing the server leaves none of its handles stored or registered, and of
      all it ever made each was deleted once. */
  lemma ServerFreeLeavesNothing(s: State, order: seq<Conn>)
    requires Valid(s) && MayFree(s, order)
    ensures var t := FreeServer(s, order);
            && !t.up && t.conns == map[] && t.retired == []
            && (forall w :: !Served(t.memory, w))
            && (forall w :: w in t.registry ==> w in t.memory)
            && (forall n: nat :: t.book.deletions[n] == if n < t.book.made then 1 else 0)
  {
    hide LiveEntries, Retired, Exact, Handles, FreeServer, Valid;
    FreeServerParts(s, order);
    AllDeletedOnce(FreeServer(s, order).book);
  }

  // ------------------------------------------------------------------------ runs

  lemma WithinValid(s: State, c: Conn)
    requires Valid(s) && IsOpen(s, c)
    ensures Valid(Within(s, c)) && Kept(Within(s, c), Within(s, c))
  {
    KeptRefl(s);
    hide Registered, LiveEntries, Retired, Exact, Handles;
  }

  lemma GoneValid(s: State, c: Conn)
    requires Valid(s)
    ensures Valid(Gone(s, c))
  {
    hide Registered, LiveEntries, Retired, Exact, Handles;
  }

  lemma GoneKept(s: State, t: State, c: Conn)
    requires Kept(Within(s, c), t) && c !in s.closing
    ensures Kept(s, Gone(t, c))
  {
    assert c in Within(s, c).closing;
    assert t.closing - {c} == s.closing;
  }

  /** After the connection's last callback its handle is detached and the
      connection is gone. */
  lemma EndedSafe(s: State, t: State, c: Conn, w: Addr)
    requires Valid(t) && Kept(Within(s, c), t) && c !in s.closing
    ensures var u := Gone(Detach(t, w), c); Valid(u) && Kept(s, u) && !IsOpen(u, c)
    ensures !IsQuic(Gone(Detach(t, w), c), w)
  {
    hide Valid, Kept, Detach, Within;
    DetachSafe(t, w);
    GoneValid(Detach(t, w), c);
    KeptTrans(Within(s, c), t, Detach(t, w));
    GoneKept(s, Detach(t, w), c);
  }

  lemma DetachSafe(s: State, w: Addr)
    requires Valid(s)
    ensures Valid(Detach(s, w)) && Kept(s, Detach(s, w)) && !IsQuic(Detach(s, w), w)
  {
    if !s.up { DownMeansNone(s); }
    DetachValid(s, w);
    DetachKept(s, w);
    hide LiveEntries, Retired, Exact, Handles, Kept, Without;
  }

  lemma QuicDetachIsDetach(s: State, w: Addr)
    requires Valid(s)
    ensures QuicDetach(s, w) == Detach(s, w)
  {
    hide LiveEntries, Retired, Exact, Handles;
  }

  lemma {:induction false} EndingSafe(s: State, c: Conn, called: bool, code: seq<Act>)
    requires Valid(s) && IsOpen(s, c) && c !in s.closing
    ensures var t := Ending(s, c, called, code); Valid(t) && Kept(Within(s, c), t)
    decreases code, 1
  {
    hide Valid, Kept, RunAll, Within;
    WithinValid(s, c);
    if called {
      RunSafe(Within(s, c), code);
    }
  }

  /** The handle that the connection's callbacks will detach, if any: once HTTP/3
      has taken over, the one its handle borrowed, if that handle is still there. */
  function Target(s: State, c: Conn): Option<Addr> {
    if c !in s.slots then None
    else match s.slots[c]
      case QuicSlot(w) => if Usable(s, w) then Some(w) else None
      case H3Slot(h, n) => if HasToken(s, h, n) then Some(s.memory[h].quic) else None
  }

  predicate Called(s: State, c: Conn) {
    c in s.slots &&
    match s.slots[c]
    case QuicSlot(w) => Usable(s, w) && s.memory[w].onClose
    case H3Slot(h, n) => HasToken(s, h, n) && s.memory[h].onDisconnect
  }

  lemma EndParts(s: State, c: Conn, code: seq<Act>)
    requires Valid(s) && IsOpen(s, c) && c !in s.closing && Valid(Ending(s, c, Called(s, c), code))
    ensures End(s, c, code) ==
              if Target(s, c).None? then Gone(s, c)
              else Gone(Detach(Ending(s, c, Called(s, c), code), Target(s, c).value), c)
  {
    hide Valid, Ending, Detach, Gone;
    if Target(s, c).Some? {
      QuicDetachIsDetach(Ending(s, c, Called(s, c), code), Target(s, c).value);
    }
  }

  /** Whatever the user's on_close or on_disconnect does (free the HTTP/3 handle,
      reconnect, end other connections), afterwards the borrowed handle is no
      longer registered; if the callbacks have no handle to detach, nothing
      happens but the connection's end. */
  lemma {:induction false} EndSafe(s: State, c: Conn, code: seq<Act>)
    requires Valid(s)
    ensures var t := End(s, c, code); Valid(t) && Kept(s, t)
    ensures IsOpen(s, c) && c !in s.closing ==>
              var t := End(s, c, code);
              && !IsOpen(t, c)
              && (Target(s, c).Some? ==> !IsQuic(t, Target(s, c).value))
              && (Target(s, c).None? ==> t == Gone(s, c))
    decreases code, 2
  {
    hide Valid, Kept, End, Ending, Detach, Target, Within;
    if IsOpen(s, c) && c !in s.closing {
      EndingSafe(s, c, Called(s, c), code);
      EndParts(s, c, code);
      if Target(s, c).Some? {
        EndedSafe(s, Ending(s, c, Called(s, c), code), c, Target(s, c).value);
      } else {
        GoneValid(s, c);
        WithinGone(s, c);
        GoneKept(s, Within(s, c), c);
      }
    } else {
      KeptRefl(s);
      EndNot(s, c, code);
    }
  }

  /** So the promise of uvcpp_c_http3.cpp, that a disconnect takes the borrowed
      handle back whatever on_disconnect does, holds exactly if the HTTP/3 handle that
      was started on the connection is still there; another one at its address does
      not do. */
  lemma DisconnectDetachesIff(s: State, c: Conn, h: Addr, n: nat, w: Addr, code: seq<Act>)
    requires Valid(s) && IsOpen(s, c) && c !in s.closing && c in s.slots && s.slots[c] == H3Slot(h, n)
    requires IsQuic(s, w) && (HasToken(s, h, n) ==> s.memory[h].quic == w)
    ensures !IsQuic(End(s, c, code), w) <==> HasToken(s, h, n)
  {
    hide Valid, End;
    EndSafe(s, c, code);
  }

  /** And a handle that was freed stays freed: whatever runs between, the callbacks
      that it left on a connection take no handle back. */
  lemma FreedIsNeverTold(s: State, h: Addr, n: nat, acts: seq<Act>, c: Conn, w: Addr, code: seq<Act>)
    requires Valid(s) && n < s.tokens && forall g :: g in s.memory && s.memory[g].H3? ==> s.memory[g].token != n
    requires var t := RunAll(s, acts); IsOpen(t, c) && c !in t.closing && c in t.slots && t.slots[c] == H3Slot(h, n) && IsQuic(t, w)
    ensures var t := RunAll(s, acts); End(t, c, code) == Gone(t, c) && IsQuic(End(t, c, code), w)
  {
    hide Valid, End, RunAll;
    var t := RunAll(s, acts);
    RunSafe(s, acts);
    NoneComesBack(s, t, h, n);
    EndSafe(t, c, code);
    hide Kept;
  }

  lemma NoneComesBack(s: State, t: State, h: Addr, n: nat)
    requires Kept(s, t) && n < s.tokens && forall g :: g in s.memory && s.memory[g].H3? ==> s.memory[g].token != n
    ensures !HasToken(t, h, n)
  {
  }

  lemma WithinGone(s: State, c: Conn)
    requires Valid(s) && IsOpen(s, c) && c !in s.closing
    ensures Kept(Within(s, c), Within(s, c)) && Gone(Within(s, c), c) == Gone(s, c)
  {
    WithinValid(s, c);
    assert s.closing + {c} - {c} == s.closing - {c};
    hide Valid, Kept;
  }

  lemma EndNot(s: State, c: Conn, code: seq<Act>)
    requires !IsOpen(s, c) || c in s.closing
    ensures End(s, c, code) == s
  {
  }

  lemma {:induction false} AcceptSafe(s: State, c: Conn, place: Option<Addr>, code: seq<Act>)
    requires Valid(s)
    ensures var t := Perform(s, Accept(c, place, code)); Valid(t) && Kept(s, t)
    decreases code, 2
  {
    hide Valid, Kept, ServerConnOf;
    KeptRefl(s);
    if s.up && !IsOpen(s, c) && Fits(s, place) {
      ServedValid(s, c);
      var b := s.(served := s.served + {c});
      ConnOfValid(b, c, place);
      var (t, w) := ServerConnOf(b, c, place);
      KeptTrans(s, b, t);
      if w.Some? {
        DeeperValid(t);
        RunSafe(t.(cbDepth := t.cbDepth + 1), code);
        var u := RunAll(t.(cbDepth := t.cbDepth + 1), code);
        ShallowerValid(t, u);
        KeptTrans(s, t, u.(cbDepth := u.cbDepth - 1));
      }
    }
  }

  lemma ServedValid(s: State, c: Conn)
    requires Valid(s) && s.up && !IsOpen(s, c)
    ensures var t := s.(served := s.served + {c}); Valid(t) && Kept(s, t) && c !in s.closing
  {
    KeptRefl(s);
    hide Registered, LiveEntries, Retired, Exact, Handles;
  }

  lemma DeeperValid(s: State)
    requires Valid(s)
    ensures Valid(s.(cbDepth := s.cbDepth + 1))
  {
    hide Registered, LiveEntries, Retired, Exact, Handles;
  }

  lemma ShallowerValid(s: State, t: State)
    requires Valid(t) && Kept(s.(cbDepth := s.cbDepth + 1), t)
    ensures t.cbDepth > 0 && Valid(t.(cbDepth := t.cbDepth - 1)) && Kept(s, t.(cbDepth := t.cbDepth - 1))
    ensures t.up == s.up
  {
    hide Registered, LiveEntries, Retired, Exact, Handles;
  }

  lemma {:induction false} PerformSafe(s: State, a: Act)
    requires Valid(s)
    ensures Valid(Perform(s, a)) && Kept(s, Perform(s, a))
    decreases a, 0
  {
    hide Valid, Kept, End, H3Create, H3TakesOver, H3Drop, Connect, FreeClient, FreeServer;
    match a
    case Accept(c, place, code) => AcceptSafe(s, c, place, code);
    case Close(c, code) => EndSafe(s, c, code);
    case SetCallbacks(w, onClose) => SetCallbacksValid(s, w, onClose);
    case H3New(w, place) => H3CreateValid(s, w, place);
    case H3Start(h, onDisconnect) => H3TakesOverValid(s, h, onDisconnect);
    case H3Free(h) => H3DropValid(s, h);
    case ClientNew(place) => ClientNewValid(s, place);
    case ClientConnect(k, c) => ConnectValid(s, k, c);
    case ClientFree(k) => FreeClientValid(s, k);
    case ServerFree(order) => FreeServerValid(s, order);
  }

  /** In every run, with whatever the callbacks do: a server's handle is in the
      table, live and registered, or none of these; the detached ones wait once
      each to be deleted; and no handle is deleted under a callback. */
  lemma {:induction false} RunSafe(s: State, acts: seq<Act>)
    requires Valid(s)
    ensures Valid(RunAll(s, acts)) && Kept(s, RunAll(s, acts))
    decreases acts, 0
  {
    hide Valid, Kept, Perform;
    if acts == [] {
      KeptRefl(s);
    } else {
      PerformSafe(s, acts[0]);
      RunSafe(Perform(s, acts[0]), acts[1..]);
      KeptTrans(s, Perform(s, acts[0]), RunAll(s, acts));
    }
  }

  // ------------------------------------ a polite user: no handle outlives its connection

  /** When c closes, its callbacks will detach w. */
  ghost predicate WiredTo(s: State, c: Conn, w: Addr) {
    && c in s.slots
    && match s.slots[c]
       case QuicSlot(v) => v == w
       case H3Slot(h, n) => HasToken(s, h, n) && s.memory[h].quic == w
  }

  /** The handle's connection is open on its side. */
  ghost predicate Seated(s: State, w: Addr)
    requires Holds(s, w)
  {
    var c := s.memory[w].conn.value;
    if s.memory[w].server then c in s.served else c in s.peers && s.peers[c] == w
  }

  /** Every handle's connection is open, and will detach it when it closes. */
  ghost predicate Wired(s: State) {
    forall w :: Holds(s, w) ==>
      Seated(s, w) && (s.memory[w].conn.value !in s.closing ==> WiredTo(s, s.memory[w].conn.value, w))
  }

  lemma DetachWired(s: State, w: Addr)
    requires Valid(s) && Wired(s)
    ensures Wired(Detach(s, w))
  {
    hide Registered, LiveEntries, Retired, Exact;
  }

  /** The table has no entry for a connection that is not open, so that an address
      used again gets a new handle. */
  lemma NotListed(s: State, c: Conn)
    requires Valid(s) && Wired(s) && c !in s.served
    ensures c !in s.conns
  {
    assert c in s.conns ==> Holds(s, s.conns[c]);
  }

  lemma NewHandleWired(s: State, c: Conn, w: Addr)
    requires Wired(s) && w !in s.memory && !IsOpen(s, c)
    ensures Wired(s.(memory := s.memory[w := Quic(Some(c), true, true, true, false)], registry := s.registry + {w},
                     served := s.served + {c}, slots := s.slots[c := QuicSlot(w)], conns := s.conns[c := w], book := Make(s.book, w)))
  {
  }

  lemma ConnOfWired(s: State, c: Conn, place: Option<Addr>)
    requires Valid(s) && Wired(s) && Fits(s, place) && !IsOpen(s, c)
    ensures Wired(ServerConnOf(s.(served := s.served + {c}), c, place).0)
  {
    NotListed(s, c);
    NotClosing(s, c);
    if place.Some? {
      ConnOfParts(s.(served := s.served + {c}), c, place.value);
      hide ServerConnOf;
      NewHandleWired(s, c, place.value);
    }
    hide Valid, Wired;
  }

  lemma H3CreateWired(s: State, w: Addr, place: Option<Addr>)
    requires Wired(s)
    ensures Wired(H3Create(s, w, place))
  {
  }

  lemma SetCallbacksWired(s: State, w: Addr, onClose: bool)
    requires Wired(s)
    ensures Wired(Perform(s, SetCallbacks(w, onClose)))
  {
  }

  lemma H3FlagWired(s: State, h: Addr, onDisconnect: bool)
    requires Wired(s) && IsH3(s, h)
    ensures Wired(s.(memory := s.memory[h := s.memory[h].(onDisconnect := onDisconnect, started := true)]))
  {
  }

  lemma H3SlotWired(s: State, h: Addr)
    requires Wired(s) && IsH3(s, h)
    requires var w := s.memory[h].quic; Holds(s, w) && s.memory[w].conn == Some(s.memory[h].target)
    ensures Wired(s.(slots := s.slots[s.memory[h].target := H3Slot(h, s.memory[h].token)]))
  {
  }

  lemma H3TakesOverWired(s: State, h: Addr, onDisconnect: bool)
    requires Wired(s)
    ensures Wired(H3TakesOver(s, h, onDisconnect))
  {
    if IsH3(s, h) {
      var t := s.(memory := s.memory[h := s.memory[h].(onDisconnect := onDisconnect, started := true)]);
      H3FlagWired(s, h, onDisconnect);
      if !s.memory[h].started && Reaches(s, h) {
        H3SlotWired(t, h);
      }
    }
    hide Wired;
  }

  lemma H3DropWired(s: State, h: Addr)
    requires Wired(s) && s.polite
    ensures Wired(H3Drop(s, h))
  {
  }

  lemma ClientNewWired(s: State, place: Option<Addr>)
    requires Wired(s)
    ensures Wired(Perform(s, ClientNew(place)))
  {
  }

  lemma ConnectWired(s: State, k: Addr, c: Conn)
    requires Valid(s) && Wired(s)
    ensures Wired(Connect(s, k, c))
  {
    hide Attach, Wired, Registered, Retired, Exact, Numbered;
    if k in s.memory && s.memory[k].Quic? && !s.memory[k].server && !IsOpen(s, c) {
      AttachParts(s.(peers := s.peers[c := k]), k, c);
      NewPeerWired(s, k, c);
    }
  }

  lemma NewPeerWired(s: State, k: Addr, c: Conn)
    requires Wired(s) && k in s.memory && s.memory[k].Quic? && !s.memory[k].server && !IsOpen(s, c)
    ensures Wired(s.(memory := s.memory[k := s.memory[k].(conn := Some(c), live := true, installed := true)],
                     registry := s.registry + {k}, peers := s.peers[c := k], slots := s.slots[c := QuicSlot(k)]))
  {
  }

  lemma FreeClientWired(s: State, k: Addr)
    requires Valid(s) && Wired(s)
    ensures Wired(FreeClient(s, k))
  {
    hide Valid, Detach, Wired;
    DetachWired(s, k);
    if s.closing == {} && k in s.memory && s.memory[k].Quic? && !s.memory[k].server {
      DetachClient(s, k);
      NoConnLeft(Detach(s, k), k);
      DropClientWired(Detach(s, k), k);
    }
  }

  lemma NoConnLeft(s: State, k: Addr)
    requires Valid(s) && k in s.memory && s.memory[k].Quic? && !s.memory[k].live
    ensures s.memory[k].conn.None? && s.served !! s.peers.Keys
  {
  }

  lemma DropClientWired(s: State, k: Addr)
    requires Wired(s) && k in s.memory && s.memory[k].Quic? && s.memory[k].conn.None? && s.served !! s.peers.Keys
    ensures var mine := set c | c in s.peers && s.peers[c] == k;
            Wired(s.(memory := s.memory - {k}, peers := s.peers - mine, slots := s.slots - mine))
  {
  }

  lemma FreeServerWired(s: State, order: seq<Conn>)
    requires Valid(s) && Wired(s)
    ensures Wired(FreeServer(s, order))
  {
    hide Registered, LiveEntries, Retired, Exact, Handles, Wired, Served, Snapshot, DeleteAll;
    if MayFree(s, order) {
      FreeServerParts(s, order);
      ClientsLeft(s, FreeServer(s, order));
    }
  }

  lemma ClientsLeft(s: State, t: State)
    requires Wired(s) && s.served !! s.peers.Keys
    requires t.slots == s.slots - s.served && t.peers == s.peers && t.closing == s.closing && Registered(t.memory, t.registry)
    requires forall w :: w in t.memory <==> w in s.memory && !Served(s.memory, w)
    requires forall w :: w in t.memory ==> t.memory[w] == s.memory[w]
    ensures Wired(t)
  {
  }

  lemma GoneWired(s: State, c: Conn)
    requires Wired(s) && forall v :: Holds(s, v) ==> s.memory[v].conn != Some(c)
    ensures Wired(Gone(s, c))
  {
  }

  /** The one handle that stands for a closing connection is detached, so the
      connection can go. */
  lemma EndWired(t: State, c: Conn, w: Addr)
    requires Valid(t) && Wired(t)
    requires forall v :: Holds(t, v) && t.memory[v].conn == Some(c) ==> v == w
    ensures Wired(Gone(Detach(t, w), c))
  {
    hide Valid, Wired, Detach, Holds, Gone;
    DetachWired(t, w);
    NotHeld(t, c, w);
    GoneWired(Detach(t, w), c);
  }

  lemma NotHeld(t: State, c: Conn, w: Addr)
    requires Valid(t)
    requires forall v :: Holds(t, v) && t.memory[v].conn == Some(c) ==> v == w
    ensures forall v :: Holds(Detach(t, w), v) ==> Detach(t, w).memory[v].conn != Some(c)
  {
    hide LiveEntries, Retired, Exact;
  }

  lemma OnlyTarget(s: State, c: Conn)
    requires Valid(s) && Wired(s) && c !in s.closing
    ensures forall v :: Holds(s, v) && s.memory[v].conn == Some(c) ==> Target(s, c) == Some(v)
  {
    hide Retired, Exact;
  }

  lemma {:induction false} EndingWired(s: State, c: Conn, called: bool, code: seq<Act>)
    requires Valid(s) && Wired(s) && s.polite && IsOpen(s, c) && c !in s.closing
    ensures Wired(Ending(s, c, called, code))
    decreases code, 1
  {
    hide Valid, RunAll, Wired;
    WithinValid(s, c);
    WithinWired(s, c);
    if called {
      RunWired(Within(s, c), code);
    }
  }

  lemma WithinWired(s: State, c: Conn)
    requires Wired(s)
    ensures Wired(Within(s, c))
  {
  }

  lemma HeldAlready(s: State, t: State, c: Conn)
    requires Kept(Within(s, c), t)
    ensures forall v :: Holds(t, v) && t.memory[v].conn == Some(c) ==> Holds(s, v) && s.memory[v].conn == Some(c)
  {
    assert c in Within(s, c).closing;
  }

  lemma {:induction false} CloseWired(s: State, c: Conn, code: seq<Act>)
    requires Valid(s) && Wired(s) && s.polite
    ensures Wired(End(s, c, code))
    decreases code, 2
  {
    hide Valid, Kept, End, Ending, Detach, Target, Within, Wired;
    if IsOpen(s, c) && c !in s.closing {
      var t := Ending(s, c, Called(s, c), code);
      EndingSafe(s, c, Called(s, c), code);
      EndingWired(s, c, Called(s, c), code);
      EndParts(s, c, code);
      OnlyTarget(s, c);
      HeldAlready(s, t, c);
      if Target(s, c).Some? {
        EndWired(t, c, Target(s, c).value);
      } else {
        GoneWired(s, c);
      }
    } else {
      EndNot(s, c, code);
    }
  }

  lemma {:induction false} AcceptWired(s: State, c: Conn, place: Option<Addr>, code: seq<Act>)
    requires Valid(s) && Wired(s) && s.polite
    ensures Wired(Perform(s, Accept(c, place, code)))
    decreases code, 2
  {
    hide Valid, Kept, ServerConnOf, Wired;
    if s.up && !IsOpen(s, c) && Fits(s, place) {
      ServedValid(s, c);
      var b := s.(served := s.served + {c});
      ConnOfValid(b, c, place);
      ConnOfWired(s, c, place);
      var (t, w) := ServerConnOf(b, c, place);
      ConnOfPolite(s, b, t);
      if w.Some? {
        DeeperValid(t);
        DepthWired(t, t.cbDepth + 1);
        RunWired(t.(cbDepth := t.cbDepth + 1), code);
        var u := RunAll(t.(cbDepth := t.cbDepth + 1), code);
        if u.cbDepth > 0 { DepthWired(u, u.cbDepth - 1); }
      }
    }
  }

  lemma ConnOfPolite(s: State, b: State, t: State)
    requires Kept(b, t) && b.polite == s.polite
    ensures t.polite == s.polite
  {
  }

  lemma DepthWired(s: State, n: nat)
    requires Wired(s)
    ensures Wired(s.(cbDepth := n))
  {
  }

  lemma {:induction false} PerformWired(s: State, a: Act)
    requires Valid(s) && Wired(s) && s.polite
    ensures Wired(Perform(s, a))
    decreases a, 0
  {
    hide Valid, Kept, Wired, End, H3Create, H3TakesOver, H3Drop, Connect, FreeClient, FreeServer;
    match a
    case Accept(c, place, code) => AcceptWired(s, c, place, code);
    case Close(c, code) => CloseWired(s, c, code);
    case SetCallbacks(w, onClose) => SetCallbacksWired(s, w, onClose);
    case H3New(w, place) => H3CreateWired(s, w, place);
    case H3Start(h, onDisconnect) => H3TakesOverWired(s, h, onDisconnect);
    case H3Free(h) => H3DropWired(s, h);
    case ClientNew(place) => ClientNewWired(s, place);
    case ClientConnect(k, c) => ConnectWired(s, k, c);
    case ClientFree(k) => FreeClientWired(s, k);
    case ServerFree(order) => FreeServerWired(s, order);
  }

  lemma {:induction false} RunWired(s: State, acts: seq<Act>)
    requires Valid(s) && Wired(s) && s.polite
    ensures Wired(RunAll(s, acts))
    decreases acts, 0
  {
    hide Valid, Wired, Perform;
    if acts != [] {
      PerformSafe(s, acts[0]);
      PerformWired(s, acts[0]);
      ConnOfPolite(s, s, Perform(s, acts[0]));
      hide Kept;
      RunWired(Perform(s, acts[0]), acts[1..]);
    }
  }

  /** If no HTTP/3 handle is freed before its connection is over, the server's
      table lists open connections only, and each of them, when it closes, detaches
      the very handle that the table lists for it. */
  lemma TableListsOpenConnections(acts: seq<Act>)
    ensures var s := RunAll(Fresh(true), acts);
            && Valid(s)
            && (forall c :: c in s.conns ==> c in s.served && Target(s, c) == Some(s.conns[c]))
  {
    var s := RunAll(Fresh(true), acts);
    FreshValid(true);
    RunSafe(Fresh(true), acts);
    RunWired(Fresh(true), acts);
    NothingClosing(s);
    forall c | c in s.conns ensures c in s.served && Target(s, c) == Some(s.conns[c]) {
      Listed(s, c);
    }
    hide Valid, RunAll;
  }

  lemma FreshValid(polite: bool)
    ensures Valid(Fresh(polite)) && Wired(Fresh(polite))
  {
  }

  lemma NothingClosing(s: State)
    requires Kept(Fresh(true), s)
    ensures s.closing == {}
  {
  }

  lemma Listed(s: State, c: Conn)
    requires Valid(s) && Wired(s) && s.closing == {} && c in s.conns
    ensures c in s.served && Target(s, c) == Some(s.conns[c])
  {
    assert Holds(s, s.conns[c]);
    OnlyTarget(s, c);
    hide Registered, Retired, Exact;
  }

  /** The rule matters.  Here an HTTP/3 handle is freed early: when its connection
      closes nobody is told, and the borrowed handle stays registered. */
  const EARLY := [Accept(7, Some(1), []), H3New(1, Some(2)), H3Start(2, true), H3Free(2), Close(7, [])]
  const STALE := State(map[1 := Quic(Some(7), true, true, true, false)], {1}, true, map[7 := 1], [], 0,
                       {}, map[], {}, map[], 1, Make(EMPTY, 1), false)

  /** Nor does it help that another HTTP/3 handle has come to stand where the freed
      one stood. */
  const REUSED := [Accept(7, Some(1), []), H3New(1, Some(2)), H3Start(2, true), H3Free(2), H3New(1, Some(2)), Close(7, [])]

  /** After the early free: the connection is open, and calls the freed object. */
  const FREED := STALE.(served := {7}, slots := map[7 := H3Slot(2, 0)])

  lemma EarlyPrefix(rest: seq<Act>)
    ensures RunAll(Fresh(false), EARLY[..4] + rest) == RunAll(FREED, rest)
  {
    var w := Quic(Some(7), true, true, true, false);
    var s1 := STALE.(served := {7}, slots := map[7 := QuicSlot(1)], tokens := 0);
    var s2 := s1.(memory := map[1 := w, 2 := H3(1, 7, false, false, 0)], registry := {1, 2}, tokens := 1);
    var s3 := s2.(memory := map[1 := w, 2 := H3(1, 7, true, true, 0)], slots := map[7 := H3Slot(2, 0)]);
    EarlyAccept();
    EarlyTakeOver(s1, s2, s3);
    EarlyDrop(s3);
    hide Perform;
    RunFirst(s3, EARLY[3], rest);
    RunFirst(s2, EARLY[2], [EARLY[3]] + rest);
    RunFirst(s1, EARLY[1], [EARLY[2]] + ([EARLY[3]] + rest));
    RunFirst(Fresh(false), EARLY[0], [EARLY[1]] + ([EARLY[2]] + ([EARLY[3]] + rest)));
    assert EARLY[..4] + rest == [EARLY[0]] + ([EARLY[1]] + ([EARLY[2]] + ([EARLY[3]] + rest)));
  }

  lemma RunFirst(s: State, a: Act, rest: seq<Act>)
    ensures RunAll(s, [a] + rest) == RunAll(Perform(s, a), rest)
  {
    hide Perform;
    assert ([a] + rest)[1..] == rest;
  }

  lemma EarlyAccept()
    ensures Perform(Fresh(false), EARLY[0]) == STALE.(served := {7}, slots := map[7 := QuicSlot(1)], tokens := 0)
  {
    var b := Fresh(false).(served := {7});
    assert Fresh(false).served + {7} == {7};
    ConnOfParts(b, 7, 1);
    var t := ServerConnOf(b, 7, Some(1)).0;
    assert t == STALE.(served := {7}, slots := map[7 := QuicSlot(1)], tokens := 0);
    hide ServerConnOf;
    assert RunAll(t.(cbDepth := 1), []) == t.(cbDepth := 1);
  }

  lemma EarlyTakeOver(s1: State, s2: State, s3: State)
    requires s1 == STALE.(served := {7}, slots := map[7 := QuicSlot(1)], tokens := 0)
    requires s2 == s1.(memory := s1.memory[2 := H3(1, 7, false, false, 0)], registry := {1, 2}, tokens := 1)
    requires s3 == s2.(memory := s1.memory[2 := H3(1, 7, true, true, 0)], slots := map[7 := H3Slot(2, 0)])
    ensures Perform(s1, EARLY[1]) == s2 && Perform(s2, EARLY[2]) == s3
  {
    assert s2.memory[2 := H3(1, 7, true, true, 0)] == s3.memory;
  }

  lemma EarlyDrop(s3: State)
    requires s3 == FREED.(memory := FREED.memory[2 := H3(1, 7, true, true, 0)], registry := {1, 2})
    ensures Perform(s3, EARLY[3]) == FREED
  {
    assert s3.memory - {2} == FREED.memory && s3.registry - {2} == {1};
  }

  /** The handle is registered and listed, yet its connection is gone; and the next
      connection at that address is given that handle, and no callbacks. */
  lemma EarlyFreeLeavesAStaleHandle()
    ensures RunAll(Fresh(false), EARLY) == STALE && IsQuic(STALE, 1) && STALE.conns == map[7 := 1] && !IsOpen(STALE, 7)
    ensures var t := Perform(STALE, Accept(7, Some(3), []));
            IsOpen(t, 7) && t.conns == map[7 := 1] && t.memory == STALE.memory && Target(t, 7) == None
  {
    EarlyPrefix([EARLY[4]]);
    assert EARLY == EARLY[..4] + [EARLY[4]];
    assert Gone(FREED, 7) == STALE;
    RunFirst(FREED, EARLY[4], []);
    EmptyRun(STALE);
    hide RunAll;
    var b := STALE.(served := {7});
    assert STALE.served + {7} == {7};
    assert ServerConnOf(b, 7, Some(3)) == (b, Some(1));
    EmptyRun(b.(cbDepth := 1));
  }

  /** Handle 1 stays registered, though the HTTP/3 handle at address 2 is there. */
  lemma ReusedAddressIsNotTold()
    ensures var t := RunAll(Fresh(false), REUSED);
            IsQuic(t, 1) && IsH3(t, 2) && !IsOpen(t, 7) && t.conns == map[7 := 1]
  {
    var a, b := REUSED[4], REUSED[5];
    var t := FREED.(memory := FREED.memory[2 := H3(1, 7, false, false, 1)], registry := {1, 2}, tokens := 2);
    EarlyPrefix([a] + [b]);
    assert REUSED == EARLY[..4] + ([a] + [b]);
    ReusedSteps(t);
    hide Perform, RunAll;
    RunFirst(FREED, a, [b]);
    RunFirst(t, b, []);
    EmptyRun(Gone(t, 7));
    assert [b] == [b] + [];
  }

  lemma ReusedSteps(t: State)
    requires t == FREED.(memory := FREED.memory[2 := H3(1, 7, false, false, 1)], registry := {1, 2}, tokens := 2)
    ensures Perform(FREED, REUSED[4]) == t && Perform(t, REUSED[5]) == Gone(t, 7)
  {
    assert FREED.registry + {2} == {1, 2};
    assert End(t, 7, []) == Gone(t, 7);
  }

  lemma EmptyRun(s: State)
    ensures RunAll(s, []) == s
  {
  }
}
