/** What each act on the QUIC endpoints of src/capi/uvcpp_c_quic.cpp, and on the HTTP/3
    handles of src/capi/uvcpp_c_http3.cpp, does: which handles are usable afterwards,
    whom a connection tells when it ends, and which handle it takes back.  QuicHandles
    says what all acts keep. */
module QuicEvents {
  import opened Base
  import opened Ledger
  import opened QuicHandles

  predicate IsClient(s: State, k: Addr) { k in s.memory && s.memory[k].Quic? && !s.memory[k].server }

  /** All handles other than these are as they were. */
  ghost predicate OthersSame(s: State, t: State, some: set<Addr>) {
    forall h :: h !in some ==> (h in s.memory <==> h in t.memory) && (h in s.memory ==> t.memory[h] == s.memory[h])
                               && (h in s.registry <==> h in t.registry)
  }

  // ----------------------------------------------------------------------- clients

  /** A new client (594-626) has a registered handle, which stands for no connection. */
  lemma ClientNewGives(s: State, place: Option<Addr>)
    ensures var t := Perform(s, ClientNew(place));
            if place.Some? && place.value !in s.memory
            then IsQuic(t, place.value) && IsClient(t, place.value) && !Usable(t, place.value) && OthersSame(s, t, {place.value})
                 && t == s.(memory := t.memory, registry := t.registry)
            else t == s
  {
  }

  /** Connecting (752-755, 291-302) opens the connection, makes the client's handle stand
      for it, registered whether it was or not, and makes its end take the handle back.
      A connection that is open already, and a handle that is no client's, are left as
      they are. */
  lemma ConnectAttaches(s: State, k: Addr, c: Conn)
    requires Valid(s)
    ensures !IsClient(s, k) || IsOpen(s, c) ==> Perform(s, ClientConnect(k, c)) == s
    ensures IsClient(s, k) && !IsOpen(s, c) ==>
              var t := Perform(s, ClientConnect(k, c));
              && IsOpen(t, c) && c !in t.closing && Usable(t, k) && t.memory[k].conn == Some(c) && Target(t, c) == Some(k)
              && (Called(t, c) <==> s.memory[k].onClose) && IsClient(t, k) && OthersSame(s, t, {k})
              && (forall d :: d != c ==> (IsOpen(t, d) <==> IsOpen(s, d))) && t.served == s.served
  {
    hide Registered, LiveEntries, Retired, Exact, Numbered, Attach;
    if IsClient(s, k) && !IsOpen(s, c) {
      AttachParts(s.(peers := s.peers[c := k]), k, c);
      NotClosing(s, c);
    }
  }

  /** When that connection ends, whatever its last callback does, the handle is not
      registered any more; and connecting again, to the same address even, makes it
      usable once more. */
  lemma ReconnectsAfterEnd(s: State, k: Addr, c: Conn, code: seq<Act>, d: Conn)
    requires Valid(s) && IsClient(s, k) && !IsOpen(s, c)
    ensures var t := Perform(s, ClientConnect(k, c)); var u := Perform(t, Close(c, code));
            && !IsOpen(u, c) && !IsQuic(u, k) && IsClient(u, k)
            && (!IsOpen(u, d) ==> var v := Perform(u, ClientConnect(k, d)); Usable(v, k) && Target(v, d) == Some(k))
  {
    hide Valid, Kept, Connect, End, Attach;
    var t := Perform(s, ClientConnect(k, c));
    ConnectAttaches(s, k, c);
    ConnectValid(s, k, c);
    var u := End(t, c, code);
    EndSafe(t, c, code);
    ClientStays(t, c, k, code);
    ConnectAttaches(u, k, d);
  }

  /** Nothing that runs in a connection's last callback frees a client. */
  lemma ClientStays(s: State, c: Conn, k: Addr, code: seq<Act>)
    requires Valid(s) && IsOpen(s, c) && c !in s.closing && Target(s, c) == Some(k) && IsClient(s, k)
    ensures IsClient(End(s, c, code), k)
  {
    hide Valid, End, Ending, Detach, Gone, Target, Stays;
    EndingSafe(s, c, Called(s, c), code);
    EndParts(s, c, code);
    WithinStays(s, Ending(s, c, Called(s, c), code), c, k);
    DetachStays(Ending(s, c, Called(s, c), code), k);
    GoneStays(Detach(Ending(s, c, Called(s, c), code), k), c, k);
  }

  lemma WithinStays(s: State, t: State, c: Conn, k: Addr)
    requires Kept(Within(s, c), t) && IsClient(s, k)
    ensures IsClient(t, k)
  {
    assert c in Within(s, c).closing;
    assert Stays(Within(s, c), t, k);
  }

  lemma DetachStays(s: State, k: Addr)
    requires IsClient(s, k)
    ensures IsClient(Detach(s, k), k)
  {
  }

  lemma GoneStays(s: State, c: Conn, k: Addr)
    requires IsClient(s, k)
    ensures IsClient(Gone(s, c), k)
  {
  }

  /** Freeing a client (625-649), outside of last callbacks, deletes its handle and
      closes its connections; nothing else changes. */
  lemma ClientFreeRemoves(s: State, k: Addr)
    requires Valid(s)
    ensures !IsClient(s, k) || s.closing != {} ==> Perform(s, ClientFree(k)) == s
    ensures IsClient(s, k) && s.closing == {} ==>
              var t := Perform(s, ClientFree(k));
              && k !in t.memory && k !in t.registry && OthersSame(s, t, {k})
              && (forall c :: c in t.peers <==> c in s.peers && s.peers[c] != k) && t.served == s.served
              && (forall c :: c in s.peers && s.peers[c] == k ==> !IsOpen(t, c) && c !in t.slots)
              && (forall c :: c in s.slots && !(c in s.peers && s.peers[c] == k) ==> c in t.slots && t.slots[c] == s.slots[c])
  {
    hide Valid, FreeClient;
    if IsClient(s, k) && s.closing == {} {
      FreeClientIs(s, k);
      Apart(s);
    } else {
      NotClientFree(s, k);
    }
  }

  lemma NotClientFree(s: State, k: Addr)
    requires !IsClient(s, k) || s.closing != {}
    ensures FreeClient(s, k) == s
  {
  }

  lemma FreeClientIs(s: State, k: Addr)
    requires Valid(s) && IsClient(s, k) && s.closing == {}
    ensures var mine := set c | c in s.peers && s.peers[c] == k;
            FreeClient(s, k) == s.(memory := s.memory - {k}, registry := s.registry - {k}, peers := s.peers - mine, slots := s.slots - mine)
  {
    hide Valid;
    LiveIsRegistered(s, k);
    var t := Detach(s, k);
    if s.memory[k].live {
      assert t.memory - {k} == s.memory - {k};
    } else {
      assert s.registry - {k} == s.registry;
    }
  }

  lemma LiveIsRegistered(s: State, k: Addr)
    requires Valid(s) && IsClient(s, k)
    ensures k in s.registry <==> s.memory[k].live
  {
  }

  lemma Apart(s: State)
    requires Valid(s)
    ensures s.served !! s.peers.Keys
  {
    hide Registered, LiveEntries, Retired, Exact, Numbered;
  }

  // ------------------------------------------------------------- callbacks and ends

  /** A table for a handle (356-386) decides whether the end of its connection calls the
      user, unless HTTP/3 has taken over, and nothing else. */
  lemma SetCallbacksDecides(s: State, w: Addr, onClose: bool)
    ensures !IsQuic(s, w) ==> Perform(s, SetCallbacks(w, onClose)) == s
    ensures IsQuic(s, w) ==>
              var t := Perform(s, SetCallbacks(w, onClose));
              && t == s.(memory := t.memory) && OthersSame(s, t, {w}) && IsQuic(t, w)
              && (Usable(t, w) <==> Usable(s, w)) && t.memory[w].conn == s.memory[w].conn
              && (forall c :: c in s.slots && s.slots[c] == QuicSlot(w) && Usable(s, w) ==> (Called(t, c) <==> onClose))
              && (forall c :: c in s.slots && s.slots[c] != QuicSlot(w) ==> (Called(t, c) <==> Called(s, c)))
              && (forall c :: Target(t, c) == Target(s, c))
  {
    if IsQuic(s, w) {
      var t := Perform(s, SetCallbacks(w, onClose));
      assert forall h :: IsQuic(t, h) == IsQuic(s, h) && Usable(t, h) == Usable(s, h);
      assert forall h, n :: HasToken(t, h, n) == HasToken(s, h, n);
      forall c ensures Target(t, c) == Target(s, c) { hide Usable, HasToken; }
    }
  }

  lemma RunOne(s: State, a: Act)
    ensures RunAll(s, [a]) == Perform(s, a) && RunAll(s, []) == s
  {
    assert [a][1..] == [];
    assert RunAll(Perform(s, a), []) == Perform(s, a);
    hide Perform;
  }

  /** The last callback's code runs exactly if the callback is called: here it changes
      another handle's table. */
  lemma EndRunsCode(s: State, c: Conn, w: Addr, onClose: bool)
    requires Valid(s) && IsOpen(s, c) && c !in s.closing && IsQuic(s, w) && Target(s, c).Some? && Target(s, c) != Some(w)
    ensures var t := Perform(s, Close(c, [SetCallbacks(w, onClose)]));
            w in t.memory && t.memory[w].Quic? && t.memory[w].onClose == if Called(s, c) then onClose else s.memory[w].onClose
  {
    hide Valid, End, Target, Called, Ending, Detach, Gone;
    var a := SetCallbacks(w, onClose);
    EndingSafe(s, c, Called(s, c), [a]);
    EndParts(s, c, [a]);
    EndingIs(s, c, Called(s, c), w, onClose);
    AsideDetach(Ending(s, c, Called(s, c), [a]), Target(s, c).value, w);
    AsideGone(Detach(Ending(s, c, Called(s, c), [a]), Target(s, c).value), c);
  }

  lemma EndingIs(s: State, c: Conn, called: bool, w: Addr, onClose: bool)
    requires IsQuic(s, w)
    ensures var t := Ending(s, c, called, [SetCallbacks(w, onClose)]);
            w in t.memory && t.memory[w].Quic? && t.memory[w].onClose == if called then onClose else s.memory[w].onClose
  {
    RunOne(Within(s, c), SetCallbacks(w, onClose));
    hide RunAll;
  }

  lemma AsideDetach(s: State, v: Addr, w: Addr)
    requires v != w && w in s.memory
    ensures var t := Detach(s, v); w in t.memory && t.memory[w] == s.memory[w]
  {
  }

  lemma AsideGone(s: State, c: Conn)
    ensures Gone(s, c).memory == s.memory
  {
  }

  // ------------------------------------------------------------------------ server

  /** A new connection of the server (950-961, 389-411) is open; given room it has a
      registered handle of its own in the table, which its end will take back; and the
      listen callback's code runs, here setting the handle's table. */
  lemma AcceptGives(s: State, c: Conn, w: Addr, onClose: bool)
    requires Valid(s) && s.up && !IsOpen(s, c) && c !in s.conns && w !in s.memory
    ensures var t := Perform(s, Accept(c, Some(w), [])); var u := Perform(s, Accept(c, Some(w), [SetCallbacks(w, onClose)]));
            && IsOpen(t, c) && c in t.conns && t.conns[c] == w && Usable(t, w) && t.memory[w].conn == Some(c)
            && Target(t, c) == Some(w) && !Called(t, c) && OthersSame(s, t, {w})
            && u == t.(memory := u.memory) && OthersSame(t, u, {w}) && Usable(u, w) && (Called(u, c) <==> onClose)
  {
    hide Valid, Perform, RunAll;
    var d := Deep(s, c, w);
    var a := SetCallbacks(w, onClose);
    AcceptIs(s, c, w, []);
    AcceptIs(s, c, w, [a]);
    RunOne(d, a);
    SetCallbacksDecides(d, w, onClose);
    Apart(s);
  }

  /** A connection that the table still lists, under an address that is used again, is
      given the listed handle, and the listen callback's code runs. */
  lemma AcceptGivesListed(s: State, c: Conn, place: Option<Addr>, onClose: bool)
    requires Valid(s) && s.up && !IsOpen(s, c) && c in s.conns && Fits(s, place)
    ensures var w := s.conns[c]; var u := Perform(s, Accept(c, place, [SetCallbacks(w, onClose)]));
            && IsQuic(s, w) && w in u.memory && u.memory[w] == s.memory[w].(onClose := onClose)
            && u == s.(served := s.served + {c}, memory := u.memory) && OthersSame(s, u, {w})
  {
    hide Valid, RunAll, Perform;
    ListedIsLive(s, c);
    var w, d := s.conns[c], s.(served := s.served + {c}, cbDepth := s.cbDepth + 1);
    var a := SetCallbacks(w, onClose);
    AcceptListedIs(s, c, place, [a]);
    RunOne(d, a);
    SetOnly(d, w, onClose);
  }

  lemma SetOnly(s: State, w: Addr, onClose: bool)
    requires IsQuic(s, w)
    ensures Perform(s, SetCallbacks(w, onClose)) == s.(memory := s.memory[w := s.memory[w].(onClose := onClose)])
  {
  }

  lemma AcceptListedIs(s: State, c: Conn, place: Option<Addr>, code: seq<Act>)
    requires s.up && !IsOpen(s, c) && c in s.conns && Fits(s, place)
    ensures var u := RunAll(s.(served := s.served + {c}, cbDepth := s.cbDepth + 1), code);
            Perform(s, Accept(c, place, code)) == if u.cbDepth == 0 then u else u.(cbDepth := u.cbDepth - 1)
  {
    hide RunAll;
  }

  lemma ListedIsLive(s: State, c: Conn)
    requires Valid(s) && c in s.conns
    ensures IsQuic(s, s.conns[c])
  {
  }

  /** The state in which the listen callback runs. */
  ghost function Deep(s: State, c: Conn, w: Addr): State {
    s.(served := s.served + {c}, memory := s.memory[w := Quic(Some(c), true, true, true, false)], registry := s.registry + {w},
       slots := s.slots[c := QuicSlot(w)], conns := s.conns[c := w], book := Make(s.book, w), cbDepth := s.cbDepth + 1)
  }

  lemma AcceptIs(s: State, c: Conn, w: Addr, code: seq<Act>)
    requires s.up && !IsOpen(s, c) && c !in s.conns && w !in s.memory
    ensures var u := RunAll(Deep(s, c, w), code);
            Perform(s, Accept(c, Some(w), code)) == if u.cbDepth == 0 then u else u.(cbDepth := u.cbDepth - 1)
  {
    hide RunAll;
    ConnOfParts(s.(served := s.served + {c}), c, w);
    assert ServerConnOf(s.(served := s.served + {c}), c, Some(w)).1 == Some(w);
    hide ServerConnOf;
  }

  /** Without room for a handle the connection is open all the same, and nobody is
      called. */
  lemma AcceptWithoutRoom(s: State, c: Conn, code: seq<Act>)
    requires s.up && !IsOpen(s, c) && c !in s.conns
    ensures Perform(s, Accept(c, None, code)) == s.(served := s.served + {c})
  {
  }

  /** Freeing the server (824-869) happens exactly outside of its callbacks; what is left
      then ServerFreeLeavesNothing tells. */
  lemma ServerFreeIff(s: State, order: seq<Conn>)
    requires Valid(s) && multiset(order) == multiset(s.conns.Keys)
    ensures var t := Perform(s, ServerFree(order));
            if s.up && s.closing == {} && s.cbDepth == 0
            then !t.up && t.conns == map[] && t.served == {} && (forall w :: !Served(t.memory, w))
                 && (forall w :: w in t.memory <==> w in s.memory && !Served(s.memory, w))
            else t == s
  {
    hide LiveEntries, Retired, Exact, Handles, FreeServer, Valid;
    if MayFree(s, order) {
      FreeServerParts(s, order);
    } else {
      NotFreed(s, order);
    }
  }

  lemma NotFreed(s: State, order: seq<Conn>)
    requires !MayFree(s, order)
    ensures FreeServer(s, order) == s
  {
  }

  // ------------------------------------------------------------------------ HTTP/3

  /** An HTTP/3 handle is made exactly on a usable QUIC handle, given room; it stands for
      the connection that the handle then stood for, and takes over nothing yet. */
  lemma H3NewIff(s: State, w: Addr, place: Option<Addr>)
    ensures var t := Perform(s, H3New(w, place));
            if Usable(s, w) && place.Some? && place.value !in s.memory
            then IsH3(t, place.value) && t.memory[place.value].quic == w && Some(t.memory[place.value].target) == s.memory[w].conn
                 && !t.memory[place.value].started && t.memory[place.value].token == s.tokens
                 && OthersSame(s, t, {place.value}) && t.slots == s.slots
            else t == s
  {
  }

  /** The first start takes the connection over: its end then calls on_disconnect, if
      given, and takes the borrowed handle back.  A later start changes the table only. */
  lemma H3StartTakesOver(s: State, h: Addr, onDisconnect: bool)
    ensures !IsH3(s, h) ==> Perform(s, H3Start(h, onDisconnect)) == s
    ensures IsH3(s, h) ==>
              var t := Perform(s, H3Start(h, onDisconnect)); var g := s.memory[h]; var c := g.target;
              && t.memory == s.memory[h := g.(onDisconnect := onDisconnect, started := true)] && t.registry == s.registry
              && t.slots == (if !g.started && Reaches(s, h) then s.slots[c := H3Slot(h, g.token)] else s.slots)
              && (c in t.slots && t.slots[c] == H3Slot(h, g.token) ==> Target(t, c) == Some(g.quic) && (Called(t, c) <==> onDisconnect))
  {
    hide Reaches;
    if IsH3(s, h) {
      var t := H3TakesOver(s, h, onDisconnect);
      assert t.memory[h] == s.memory[h].(onDisconnect := onDisconnect, started := true) && HasToken(t, h, s.memory[h].token);
    }
  }

  /** Freeing an HTTP/3 handle removes it and nothing else, and takes back no QUIC handle;
      a user who keeps the rule frees none that a connection would still tell. */
  lemma H3FreeIff(s: State, h: Addr)
    ensures var t := Perform(s, H3Free(h));
            if IsH3(s, h) && !(s.polite && Owns(s, h))
            then h !in t.memory && h !in t.registry && OthersSame(s, t, {h}) && t.slots == s.slots
            else t == s
  {
    hide Owns;
  }
}
