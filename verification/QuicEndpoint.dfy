/** The connection table of src/capi/uvcpp_c_quic.cpp in place, with the callbacks
    that it and src/capi/uvcpp_c_http3.cpp install.  Each method is proved to do
    what its specification function in QuicHandles says. */
module QuicEndpoint {
  import opened Base
  import opened Ledger
  import opened QuicHandles

  class Endpoints {
    var memory: map<Addr, Handle>
    var registry: set<Addr>
    // uvcpp_c_quic_server
    var up: bool
    var conns: map<Conn, Addr>
    var retired: seq<Addr>
    var cbDepth: nat
    // the C++ side
    var served: set<Conn>
    var peers: map<Conn, Addr>
    var closing: set<Conn>
    var slots: map<Conn, Slot>
    var tokens: nat
    // history, and the user's manners
    ghost var book: Book
    const polite: bool

    ghost function S(): State
      reads this
    {
      State(memory, registry, up, conns, retired, cbDepth, served, peers, closing, slots, tokens, book, polite)
    }

    constructor (polite: bool)
      ensures S() == Fresh(polite) && Valid(S())
    {
      memory, registry, up, conns, retired, cbDepth := map[], {}, true, map[], [], 0;
      served, peers, closing, slots, tokens, book := {}, map[], {}, map[], 0, EMPTY;
      this.polite := polite;
      new;
      FreshValid(polite);
    }

    /** detach_conn (311-331): the entry is found by scanning the table. */
    method DetachConn(w: Addr)
      requires Valid(S()) && w in memory && memory[w].Quic?
      modifies this`memory, this`registry, this`conns, this`retired
      ensures S() == Detach(old(S()), w)
    {
      if !memory[w].live { return; }
      OneEntry(S(), w);
      hide Valid;
      memory := memory[w := memory[w].(live := false, conn := None, installed := false)];
      registry := registry - {w};
      if memory[w].server {
        EraseEntry(w);
        retired := retired + [w];
      }
    }

    method EraseEntry(w: Addr)
      requires forall c, d :: c in conns && d in conns && conns[c] == w && conns[d] == w ==> c == d
      modifies this`conns
      ensures conns == Without(old(conns), w)
    {
      var todo := conns.Keys;
      while todo != {}
        invariant conns == old(conns) && todo <= conns.Keys
        invariant forall c :: c in conns && conns[c] == w ==> c in todo
        decreases todo
      {
        var c :| c in todo;
        if conns[c] == w {
          conns := conns - {c};
          return;
        }
        todo := todo - {c};
      }
    }

    /** quic_conn_detach (423-428). */
    method QuicConnDetach(w: Addr)
      requires Valid(S())
      modifies this`memory, this`registry, this`conns, this`retired
      ensures S() == QuicDetach(old(S()), w)
    {
      if w in registry && w in memory && memory[w].Quic? { DetachConn(w); }
    }

    /** install_conn_callbacks (237-288). */
    method InstallConnCallbacks(w: Addr)
      requires w in memory && memory[w].Quic?
      modifies this`memory, this`slots
      ensures S() == Install(old(S()), w)
    {
      if memory[w].installed || memory[w].conn.None? { return; }
      slots := slots[memory[w].conn.value := QuicSlot(w)];
      memory := memory[w := memory[w].(installed := true)];
    }

    /** server_conn_of (389-411).  An entry that is found is live, so the source's
        branch for a dead one is never taken. */
    method GetServerConn(c: Conn, place: Option<Addr>) returns (w: Option<Addr>)
      requires Valid(S())
      modifies this`memory, this`registry, this`conns, this`slots, this`book
      ensures (S(), w) == ServerConnOf(old(S()), c, place)
    {
      if c in conns {
        assert memory[conns[c]].live;
        return Some(conns[c]);
      }
      hide Valid;
      if place.None? { return None; }
      var a := place.value;
      memory, book := memory[a := Quic(Some(c), true, true, false, false)], Make(book, a);
      registry := registry + {a};
      InstallConnCallbacks(a);
      conns := conns[c := a];
      return Some(a);
    }

    /** A connection ends: the on_close callback (278-284), or on_disconnect once
        HTTP/3 has taken over (uvcpp_c_http3.cpp 266-278, 400-406), which has read
        all it needs before the user's code runs. */
    method EndConnection(c: Conn, code: seq<Act>)
      requires Valid(S())
      modifies this
      ensures S() == End(old(S()), c, code)
      decreases code, 2
    {
      hide Valid, Kept, Ending, Detach, QuicDetach, Gone;
      if !(c in served || c in peers) || c in closing { return; }
      ghost var s := S();
      EndingSafe(s, c, Called(s, c), code);
      if c in slots {
        match slots[c] {
          case QuicSlot(w) =>
            if w in registry && w in memory && memory[w].Quic? && memory[w].conn.Some? {
              RunLast(c, memory[w].onClose, code);
              StillThere(s, S(), c, w);
              DetachConn(w);
            }
          case H3Slot(h, n) =>
            if h in registry && h in memory && memory[h].H3? && memory[h].token == n {
              var q := memory[h].quic;
              RunLast(c, memory[h].onDisconnect, code);
              QuicConnDetach(q);
            }
        }
      }
      LetGo(c);
    }

    method LetGo(c: Conn)
      modifies this`served, this`peers, this`closing, this`slots
      ensures S() == Gone(old(S()), c)
    {
      served, peers, closing, slots := served - {c}, peers - {c}, closing - {c}, slots - {c};
    }

    /** The user's callback, if there is one. */
    method RunLast(c: Conn, called: bool, code: seq<Act>)
      requires Valid(S()) && IsOpen(S(), c)
      modifies this
      ensures S() == Ending(old(S()), c, called, code)
      decreases code, 1
    {
      hide Valid, RunAll;
      WithinValid(S(), c);
      closing := closing + {c};
      if called { RunCode(code); }
    }

    /** The listen callback (950-961). */
    method AcceptConnection(c: Conn, place: Option<Addr>, code: seq<Act>)
      requires Valid(S())
      modifies this
      ensures S() == Perform(old(S()), Accept(c, place, code))
      decreases code, 2
    {
      hide Valid, ServerConnOf, RunAll;
      if !up || c in served || c in peers || (place.Some? && place.value in memory) { return; }
      ServedValid(S(), c);
      served := served + {c};
      ConnOfValid(S(), c, place);
      var w := GetServerConn(c, place);
      if w.None? { return; }
      DeeperValid(S());
      ghost var t := S();
      cbDepth := cbDepth + 1;
      RunSafe(S(), code);
      RunCode(code);
      ShallowerValid(t, S());
      cbDepth := cbDepth - 1;
    }

    method CreateH3(w: Addr, place: Option<Addr>)
      modifies this`memory, this`registry, this`tokens
      ensures S() == H3Create(old(S()), w, place)
    {
      if !(w in registry && w in memory && memory[w].Quic? && memory[w].conn.Some?) { return; }
      if place.None? || place.value in memory { return; }
      memory := memory[place.value := H3(w, memory[w].conn.value, false, false, tokens)];
      registry, tokens := registry + {place.value}, tokens + 1;
    }

    method StartH3(h: Addr, onDisconnect: bool)
      modifies this`memory, this`slots
      ensures S() == H3TakesOver(old(S()), h, onDisconnect)
    {
      if !(h in registry && h in memory && memory[h].H3?) { return; }
      var w, c, n, again := memory[h].quic, memory[h].target, memory[h].token, memory[h].started;
      memory := memory[h := memory[h].(onDisconnect := onDisconnect, started := true)];
      if again { return; }
      if w in registry && w in memory && memory[w].Quic? && memory[w].conn == Some(c) && (c in served || c in peers) {
        slots := slots[c := H3Slot(h, n)];
      }
    }

    /** uvcpp_c_h3_connection_free (355-371). */
    method FreeH3(h: Addr)
      modifies this`memory, this`registry
      ensures S() == H3Drop(old(S()), h)
    {
      if !(h in registry && h in memory && memory[h].H3?) { return; }
      if polite && exists c :: c in slots && c !in closing && slots[c] == H3Slot(h, memory[h].token) { return; }
      registry := registry - {h};
      memory := memory - {h};
    }

    /** uvcpp_c_quic_client_connect once the C++ client has connected (752-756), with
        attach_conn (291-302). */
    method ConnectClient(k: Addr, c: Conn)
      modifies this`memory, this`registry, this`peers, this`slots
      ensures S() == Connect(old(S()), k, c)
    {
      if k !in memory || !memory[k].Quic? || memory[k].server || c in served || c in peers { return; }
      peers := peers[c := k];
      memory := memory[k := memory[k].(conn := Some(c), installed := false, live := true)];
      registry := registry + {k};
      InstallConnCallbacks(k);
    }

    /** uvcpp_c_quic_client_free (625-649). */
    method DeleteClient(k: Addr)
      requires Valid(S())
      modifies this
      ensures S() == FreeClient(old(S()), k)
    {
      if closing != {} || k !in memory || !memory[k].Quic? || memory[k].server { return; }
      DetachClient(S(), k);
      hide Valid, Detach;
      DetachConn(k);
      memory := memory - {k};
      var mine := set c | c in peers && peers[c] == k;
      peers, slots := peers - mine, slots - mine;
    }

    /** uvcpp_c_quic_server_free (824-869): a snapshot first, since detaching changes
        the table that is walked. */
    method DeleteServer(order: seq<Conn>) returns (freed: bool)
      requires Valid(S())
      modifies this
      ensures S() == FreeServer(old(S()), order) && (freed <==> MayFree(old(S()), order))
    {
      hide Valid, Detach, DetachAll, DeleteAll, Members, AllLive, RetiredBook, Snapshot;
      if !up || closing != {} || cbDepth > 0 || multiset(order) != multiset(conns.Keys) { return false; }
      assert forall c :: c in order ==> c in multiset(order);
      SnapshotLive(S(), order);
      DetachSnapshot(Snapshot(conns, order));
      conns := map[];
      EmptyRetired();
      up := false;
      slots, served := slots - served, {};
      return true;
    }

    method DetachSnapshot(handles: seq<Addr>)
      requires Valid(S()) && up && AllLive(memory, handles)
      modifies this`memory, this`registry, this`conns, this`retired
      ensures S() == DetachAll(old(S()), handles) && RetiredBook(memory, retired, book)
    {
      hide Valid, Detach, AllLive;
      var i := 0;
      while i < |handles|
        invariant 0 <= i <= |handles| && Valid(S()) && up && AllLive(memory, handles[i..])
        invariant DetachAll(S(), handles[i..]) == DetachAll(old(S()), handles)
      {
        FirstLive(memory, handles[i..]);
        RestLive(memory, handles[i..]);
        DetachParts(S(), handles[i]);
        DetachValid(S(), handles[i]);
        assert handles[i..][1..] == handles[i + 1..];
        DetachConn(handles[i]);
        i := i + 1;
      }
      ValidBook(S());
    }

    /** The retired handles are deleted one by one (857-858). */
    method EmptyRetired()
      requires RetiredBook(memory, retired, book)
      modifies this`memory, this`book, this`retired
      ensures memory == old(memory) - Members(old(retired)) && retired == []
      ensures book == DeleteAll(old(book), Members(old(retired)))
    {
      ghost var s := S();
      ghost var done: set<Addr> := {};
      DeleteAllNone(book);
      assert Members(retired[..0]) == {};
      hide DeleteAll, Delete, Members, RetiredBook;
      var i := 0;
      while i < |retired|
        invariant 0 <= i <= |retired| && retired == s.retired && done == Members(retired[..i])
        invariant memory == s.memory - done && book == DeleteAll(s.book, done)
      {
        BuryNext(s, i);
        DeleteHandle(retired[i]);
        done := done + {retired[i]};
        i := i + 1;
      }
      assert retired[..i] == retired;
      retired := [];
    }

    method DeleteHandle(w: Addr)
      modifies this`memory, this`book
      ensures memory == old(memory) - {w} && book == Delete(old(book), w)
    {
      memory, book := memory - {w}, Delete(book, w);
    }

    method PerformAct(a: Act)
      requires Valid(S())
      modifies this
      ensures S() == Perform(old(S()), a) && Valid(S())
      decreases a, 0
    {
      PerformSafe(S(), a);
      hide Valid;
      match a
      case Accept(c, place, code) => AcceptConnection(c, place, code);
      case Close(c, code) => EndConnection(c, code);
      case SetCallbacks(w, onClose) =>
        if w in registry && w in memory && memory[w].Quic? { memory := memory[w := memory[w].(onClose := onClose)]; }
      case H3New(w, place) => CreateH3(w, place);
      case H3Start(h, onDisconnect) => StartH3(h, onDisconnect);
      case H3Free(h) => FreeH3(h);
      case ClientNew(place) =>
        if place.Some? && place.value !in memory {
          memory := memory[place.value := Quic(None, true, false, false, false)];
          registry := registry + {place.value};
        }
      case ClientConnect(k, c) => ConnectClient(k, c);
      case ClientFree(k) => DeleteClient(k);
      case ServerFree(order) => var _ := DeleteServer(order);
    }

    method RunCode(acts: seq<Act>)
      requires Valid(S())
      modifies this
      ensures S() == RunAll(old(S()), acts) && Valid(S())
      decreases acts, 0
    {
      hide Valid, Perform;
      var i := 0;
      while i < |acts|
        invariant 0 <= i <= |acts| && Valid(S())
        invariant RunAll(S(), acts[i..]) == RunAll(old(S()), acts)
      {
        assert acts[i..][1..] == acts[i + 1..];
        PerformAct(acts[i]);
        i := i + 1;
      }
    }
  }

  lemma OneEntry(s: State, w: Addr)
    requires Valid(s)
    ensures forall c, d :: c in s.conns && d in s.conns && s.conns[c] == w && s.conns[d] == w ==> c == d
  {
  }

  /** The trampoline's handle outlasts the user's callback. */
  lemma StillThere(s: State, t: State, c: Conn, w: Addr)
    requires Kept(Within(s, c), t) && w in s.memory && s.memory[w].Quic?
    ensures w in t.memory && t.memory[w].Quic?
  {
    assert c in Within(s, c).closing;
    assert Stays(Within(s, c), t, w);
  }

  /** The retired handles are different, and all are in the books. */
  ghost predicate RetiredBook(memory: map<Addr, Handle>, retired: seq<Addr>, book: Book) {
    NoDup(retired) && Exact(book, Handles(memory)) && forall w :: w in retired ==> w in Handles(memory)
  }

  lemma ValidBook(s: State)
    requires Valid(s)
    ensures RetiredBook(s.memory, s.retired, s.book)
  {
  }

  lemma BuryNext(s: State, i: nat)
    requires RetiredBook(s.memory, s.retired, s.book) && i < |s.retired|
    ensures var done := Members(s.retired[..i]); var w := s.retired[i];
            && Members(s.retired[..i + 1]) == done + {w}
            && DeleteAll(s.book, done + {w}) == Delete(DeleteAll(s.book, done), w)
            && s.memory - (done + {w}) == s.memory - done - {w}
  {
    var done, w := Members(s.retired[..i]), s.retired[i];
    assert s.retired[..i + 1] == s.retired[..i] + [w];
    DeleteAllSnoc(s.book, Handles(s.memory), done, w);
  }
}
