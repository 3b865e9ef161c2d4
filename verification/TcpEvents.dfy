/** What each act on a server of src/capi/uvcpp_c_net.cpp does: to the connection, to
    its handle, and to the events that come after it.  TcpReaper says what all acts
    keep. */
module TcpEvents {
  import opened Base
  import opened Ledger
  import opened TcpReaper

  /** A registered handle stands for one open connection. */
  lemma HandleParts(s: State, h: Addr)
    requires Valid(s) && h in s.registry
    ensures h in s.memory && s.memory[h].cli.Some?
    ensures var c := s.memory[h].cli.value; c in s.live && s.live[c] == h && c in s.open
    ensures var c := s.memory[h].cli.value; c in s.closeSlots ==> s.closeSlots[c] == h
    ensures var c := s.memory[h].cli.value; c in s.readSlots ==> s.readSlots[c] == h
    ensures s.memory[h].readArmed <==> s.memory[h].cli.value in s.readSlots
  {
    RegisteredFacts(s, h);
    SlotIsLive(s, s.memory[h].cli.value);
    hide Frames, Armed, Captured, Graves, Exact;
  }

  /** The close callback is called. */
  predicate Tells(s: State, h: Addr) {
    h in s.memory && s.memory[h].cli.Some? && s.memory[h].cli.value in s.closeSlots && s.memory[h].onClose
  }

  /** A connection that closes, for whatever reason, is gone, and its handle with it;
      its close callback is entered first, with the handle, if it is installed, and
      otherwise nobody is called. */
  lemma DropCloses(s: State, c: Conn, code: seq<Act>)
    requires Valid(s) && c in s.open && c !in s.closing
    ensures var t := Perform(s, Drop(c, code));
            && c !in t.open && c !in t.live
            && (c in s.live ==> s.live[c] in s.memory && s.live[c] !in t.registry
                                && (if Tells(s, s.live[c]) then Reaches(s, t, s.live[c]) else t.entered == s.entered))
            && (c !in s.live ==> t.entered == s.entered)
  {
    hide Sound, Reaches, Kept, Scope, Finish;
    CloseSafe(s, c, code);
    if c in s.live {
      LiveHandle(s, c);
      HandleParts(s, s.live[c]);
      if Tells(s, s.live[c]) { CloseReaches(s, c, code); }
    } else {
      NoSlots(s, c);
    }
    FinishEntered(s.(closing := s.closing + {c}), c);
  }

  lemma LiveHandle(s: State, c: Conn)
    requires Valid(s) && c in s.live
    ensures s.live[c] in s.registry && s.live[c] in s.memory && s.memory[s.live[c]].cli == Some(c)
  {
    hide Frames, Armed, Captured, Graves, Exact;
  }

  lemma NoSlots(s: State, c: Conn)
    requires Valid(s) && c !in s.live
    ensures c !in s.closeSlots && c !in s.readSlots
  {
    hide Frames, Armed, Paired, Graves, Exact;
  }

  /** Closing by handle (484-490) closes the handle's connection; a handle that is not
      registered closes nothing, nor does one whose connection is closing already. */
  lemma CloseHandleCloses(s: State, h: Addr, code: seq<Act>)
    requires Valid(s)
    ensures h !in s.registry ==> Perform(s, CloseHandle(h, code)) == s
    ensures h in s.registry ==>
              h in s.memory && s.memory[h].cli.Some? &&
              var c := s.memory[h].cli.value; var t := Perform(s, CloseHandle(h, code));
              && c in s.open && c in s.live && s.live[c] == h
              && (c in s.closing ==> t == s)
              && (c !in s.closing ==>
                    && c !in t.open && c !in t.live && h !in t.registry
                    && (if Tells(s, h) then Reaches(s, t, h) else t.entered == s.entered))
  {
    hide Sound, Reaches, Tells, Scope, Finish;
    if h in s.registry {
      HandleParts(s, h);
      if s.memory[h].cli.value !in s.closing { DropCloses(s, s.memory[h].cli.value, code); }
    }
  }

  /** Stopping to read (471-482): no read event reaches the connection's own callback
      any more, nothing else changes, and a later table starts reading again. */
  lemma ReadStopStops(s: State, h: Addr, code: seq<Act>, onRead: bool, onClose: bool)
    requires Valid(s) && h in s.registry
    ensures var t := Perform(s, ReadStop(h));
            && h in s.memory && s.memory[h].cli.Some? && h in t.memory
            && var c := s.memory[h].cli.value;
               && c !in t.readSlots && t.memory[h] == s.memory[h].(readArmed := false)
               && (forall d :: d != c ==> (d in t.readSlots <==> d in s.readSlots)) && t.closeSlots == s.closeSlots
               && Perform(t, ArmedRead(c, code)) == t
               && (onRead || onClose ==>
                     var u := Perform(t, SetEvents(h, true, onRead, onClose, true, 0));
                     c in u.readSlots && h in u.memory && u.memory[h].readArmed)
  {
    hide Sound, SetTable, Kept, Scope;
    HandleParts(s, h);
    StopReadingValid(s, h);
    var t := Perform(s, ReadStop(h));
    SetTableEffect(t, h, onRead, onClose, true, 0);
    SetTableValid(t, h, true, onRead, onClose, true, 0);
    StillRegistered(t, h, onRead, onClose, true, 0);
    HandleParts(SetTable(t, h, true, onRead, onClose, true, 0).0, h);
  }

  lemma StillRegistered(s: State, h: Addr, onRead: bool, onClose: bool, connected: bool, rc: int)
    requires Valid(s) && h in s.registry
    ensures var t := SetTable(s, h, true, onRead, onClose, connected, rc).0;
            && t.registry == s.registry && t.closing == s.closing && t.open == s.open && t.entered == s.entered
            && h in s.memory && h in t.memory && t.memory[h].cli == s.memory[h].cli
  {
    hide Sound;
    HandleParts(s, h);
  }

  /** What a connection's table (316-371) means for the events after it: a read reaches
      the handle exactly if there is a read callback and reading has been started, the
      close exactly if there is a close callback. */
  lemma SetEventsReach(s: State, h: Addr, onRead: bool, onClose: bool, connected: bool, rc: int, code: seq<Act>)
    requires Valid(s) && h in s.registry && h in s.memory && s.memory[h].cli.Some? && s.memory[h].cli.value !in s.closing
    ensures var c := s.memory[h].cli.value; var t := Perform(s, SetEvents(h, true, onRead, onClose, connected, rc));
            var reading := c in s.readSlots || ((onRead || onClose) && connected && rc == 0);
            && (if onRead && reading then Reaches(t, Perform(t, ArmedRead(c, code)), h) else Perform(t, ArmedRead(c, code)) == t)
            && (if onClose then Reaches(t, Perform(t, Drop(c, code)), h) else Perform(t, Drop(c, code)).entered == t.entered)
  {
    hide Sound, SetTable, Kept, Scope, Reaches, Close;
    var c := s.memory[h].cli.value;
    var t := SetTable(s, h, true, onRead, onClose, connected, rc).0;
    SetTableEffect(s, h, onRead, onClose, connected, rc);
    SetTableValid(s, h, true, onRead, onClose, connected, rc);
    StillRegistered(s, h, onRead, onClose, connected, rc);
    HandleParts(t, h);
    if onRead && c in t.readSlots { ScopeReaches(t, h, code); }
    DropCloses(t, c, code);
  }

  /** The server's table (627-688) means the same for the server's two callbacks, and a
      table that is too short for its size takes both away. */
  lemma SetServerEventsReach(s: State, sizeOk: bool, onConnection: bool, onRead: bool, c: Conn, w: Addr, code: seq<Act>)
    requires Valid(s) && w !in s.memory && c !in s.closing
    ensures var t := Perform(s, SetServerEvents(sizeOk, onConnection, onRead));
            && t == s.(onConnection := t.onConnection, onRead := t.onRead)
            && (c !in s.open ==>
                  var u := Perform(t, Accept(c, Some(w), code));
                  if sizeOk && onConnection then Reaches(t, u, w)
                  else u.entered == t.entered && c in u.live && u.live[c] == w && w in u.registry)
            && (c in s.open ==>
                  var u := Perform(t, Read(c, Some(w), code));
                  if sizeOk && onRead then Reaches(t, u, if c in s.live then s.live[c] else w) else u == t)
  {
    hide Sound, Scope, Reaches, Kept;
    var t := Perform(s, SetServerEvents(sizeOk, onConnection, onRead));
    ServerEventsValid(s, sizeOk && onConnection, sizeOk && onRead);
    if c !in s.open {
      LiveIsOpen(s);
      AcceptReaches(t, c, w, code);
    } else if c in s.live {
      ReadReaches(t, c, Some(w), code);
    } else {
      FirstReadReaches(t, c, w, code);
    }
  }

  lemma LiveIsOpen(s: State)
    requires Valid(s)
    ensures s.live.Keys <= s.open
  {
    hide Frames, Armed, Paired, Graves, Exact;
  }

  /** A connection without a handle, since there was no room for one or no callback to
      give it to, gets one with its first read (674-677). */
  lemma FirstReadReaches(s: State, c: Conn, w: Addr, code: seq<Act>)
    requires Valid(s) && c in s.open && c !in s.closing && c !in s.live && w !in s.memory
    ensures s.onRead ==> Reaches(s, Perform(s, Read(c, Some(w), code)), w)
    ensures !s.onRead ==> Perform(s, Read(c, Some(w), code)) == s
    ensures Perform(s, Read(c, None, code)) == s
  {
    hide Sound, Scope, Kept;
    WrapValid(s, c, Some(w));
    var t := Wrap(s, c, Some(w)).0;
    if s.onRead { ScopeReaches(t, w, code); }
  }

  /** Without room for a handle a new connection is open all the same, has none, and
      nobody is called. */
  lemma AcceptWithoutRoom(s: State, c: Conn, code: seq<Act>)
    requires Valid(s) && c !in s.open
    ensures var t := Perform(s, Accept(c, None, code)); t == s.(open := s.open + {c}) && c !in t.live
  {
    LiveIsOpen(s);
    hide Sound;
  }

  // ------------------------------------------------------------ the callbacks' code

  /** What a scope leaves alone when it is left. */
  lemma LeaveSame(s: State, w: Addr)
    requires Sound(Pop(s, w))
    ensures var t := Leave(s, w); t.open == s.open && t.registry == s.registry && t.live == s.live
  {
    hide Sound, Kept;
    DrainExact(Pop(s, w));
  }

  /** A callback that closes a handle closes it, whichever wrapper the callback runs
      for, its own included. */
  lemma ScopeCloses(s: State, w: Addr, h: Addr)
    requires Valid(s) && w in s.memory && h in s.registry && h in s.memory && s.memory[h].cli.Some?
    requires s.memory[h].cli.value !in s.closing
    ensures var t := Scope(s, w, [CloseHandle(h, [])]); s.memory[h].cli.value !in t.open && h !in t.registry
  {
    hide Sound, Kept, Perform, Leave;
    var b, c := Enter(s, w), s.memory[h].cli.value;
    EnterValid(s, w);
    EnterSame(s, w, h);
    CloseHandleCloses(b, h, []);
    RunSafe(b, [CloseHandle(h, [])]);
    RunOne(b, CloseHandle(h, []));
    var t := RunAll(b, [CloseHandle(h, [])]);
    PopIsSound(s, w, t);
    LeaveSame(t, w);
  }

  lemma EnterSame(s: State, w: Addr, h: Addr)
    requires w in s.memory && h in s.memory
    ensures var b := Enter(s, w);
            b.registry == s.registry && b.closing == s.closing && h in b.memory && b.memory[h].cli == s.memory[h].cli
  {
  }

  lemma PopIsSound(s: State, w: Addr, t: State)
    requires Valid(s) && w in s.memory && Valid(t) && Kept(Enter(s, w), t)
    ensures Sound(Pop(t, w))
  {
    assert t.stack == s.stack + [w];
    assert w in Enter(s, w).stack;
    PopFrames(t.cbDepth, t.stack, t.memory, w);
    PopSound(t, w);
    hide Sound, Kept;
  }

  lemma RunOne(s: State, a: Act)
    ensures RunAll(s, [a]) == Perform(s, a)
  {
    assert [a][1..] == [];
    assert RunAll(Perform(s, a), []) == Perform(s, a);
    hide Perform;
  }

  /** Each of the four callbacks runs its code: here the code closes a handle h. */
  lemma CallbacksRunTheirCode(s: State, c: Conn, w: Addr, h: Addr)
    requires Valid(s) && c !in s.closing && w !in s.memory
    requires h in s.registry && h in s.memory && s.memory[h].cli.Some? && s.memory[h].cli.value !in s.closing
    ensures c !in s.open && s.onConnection ==> h !in Perform(s, Accept(c, Some(w), [CloseHandle(h, [])])).registry
    ensures c in s.open && s.onRead ==> h !in Perform(s, Read(c, Some(w), [CloseHandle(h, [])])).registry
    ensures c in s.readSlots && c in s.live && s.live[c] in s.memory && s.memory[s.live[c]].onRead ==>
              h !in Perform(s, ArmedRead(c, [CloseHandle(h, [])])).registry
    ensures c in s.live && Tells(s, s.live[c]) && s.live[c] != h ==> h !in Perform(s, Drop(c, [CloseHandle(h, [])])).registry
  {
    hide Sound, Kept, Scope, Wrap, Finish, Tells;
    var code := [CloseHandle(h, [])];
    LiveIsOpen(s);
    if c !in s.open && s.onConnection {
      OpenValid(s, c);
      WrapAside(s.(open := s.open + {c}), c, w, h);
      ScopeCloses(Wrap(s.(open := s.open + {c}), c, Some(w)).0, w, h);
    }
    if c in s.open && s.onRead {
      WrapAside(s, c, w, h);
      var (t, v) := Wrap(s, c, Some(w));
      ScopeCloses(t, v.value, h);
    }
    if c in s.readSlots && c in s.live {
      LiveHandle(s, c);
      SlotIsLive(s, c);
      ScopeCloses(s, s.live[c], h);
    }
    if c in s.live && Tells(s, s.live[c]) && s.live[c] != h { DropRunsCode(s, c, h); }
  }

  lemma WrapAside(s: State, c: Conn, w: Addr, h: Addr)
    requires Valid(s) && c in s.open && w !in s.memory && h in s.registry && h in s.memory
    ensures var (t, v) := Wrap(s, c, Some(w));
            && Valid(t) && v.Some? && v.value in t.memory && t.closing == s.closing && t.onConnection == s.onConnection
            && h in t.registry && h in t.memory && t.memory[h] == s.memory[h]
            && (c !in s.live ==> v.value == w)
  {
    WrapValid(s, c, Some(w));
    hide Sound, Kept;
  }

  lemma DropRunsCode(s: State, c: Conn, h: Addr)
    requires Valid(s) && c !in s.closing && c in s.live && Tells(s, s.live[c]) && s.live[c] != h
    requires h in s.registry && h in s.memory && s.memory[h].cli.Some? && s.memory[h].cli.value !in s.closing
    ensures h !in Perform(s, Drop(c, [CloseHandle(h, [])])).registry
  {
    hide Sound, Kept, Scope;
    var t := s.(closing := s.closing + {c});
    LiveHandle(s, c);
    LiveIsOpen(s);
    HandleParts(s, s.live[c]);
    HandleParts(s, h);
    ClosingValid(s, c);
    ScopeCloses(t, s.live[c], h);
  }
}
