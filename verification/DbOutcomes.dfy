/** When the operations on connections, pools and facades of src/capi/uvcpp_c_db.cpp
    succeed, what they answer otherwise, and what has changed then.  DbOwnership says
    what all of them keep. */
module DbOutcomes {
  import opened Base
  import opened Ledger
  import opened DbOwnership

  /** A facade that is stored is bound to the owner. */
  predicate Bound(s: State, owner: Addr) {
    exists a :: a in s.memory && s.memory[a].Async? && s.memory[a].owner == owner
  }

  /** The count that is asked (297-301) answers exactly that. */
  lemma CountAnswers(s: State, owner: Addr)
    requires Valid(s)
    ensures HasAsync(s, owner) <==> Bound(s, owner)
  {
    OwnersAreCounted(s);
    hide Valid;
  }

  /** All handles other than these are as they were. */
  ghost predicate OthersSame(s: State, t: State, gone: set<Addr>) {
    forall h :: h !in gone ==> (h in s.memory <==> h in t.memory) && (h in s.memory ==> t.memory[h] == s.memory[h])
                               && (h in s.registry <==> h in t.registry)
  }

  // ------------------------------------------------------------------- connections

  /** A new connection is registered, the user's own, with an object of its own. */
  lemma ClientNewIff(s: State, place: Option<Addr>, obj: Option<Obj>)
    requires Valid(s) && FreshPlace(s, place) && FreshObject(s, obj)
    ensures var (t, code) := Apply(s, ClientNew(place, obj));
            && (code == Ok <==> place.Some? && obj.Some?) && (code != Ok ==> code == NoMemory && t == s)
            && (code == Ok ==>
                  && IsClient(t, place.value) && t.memory[place.value] == Client(obj.value, true)
                  && OthersSame(s, t, {place.value}) && t.objects == s.objects + {obj.value}
                  && t.binds == s.binds && t.lent == s.lent && t.loans == s.loans)
  {
    hide Counted, Lending, Distinct, Exact;
  }

  /** Freeing one (659-676) succeeds exactly if it is registered, the user's own, and no
      stored facade is bound to it; then its handle and its object are gone, and nothing
      else is. */
  lemma ClientFreeIff(s: State, h: Addr)
    requires Valid(s)
    ensures var (t, code) := Apply(s, ClientFree(h));
            && (code == Stale <==> !IsClient(s, h))
            && (code == Ok <==> IsClient(s, h) && s.memory[h].owned && !Bound(s, h))
            && (code == WrongState <==> IsClient(s, h) && (!s.memory[h].owned || Bound(s, h)))
            && (code != Ok ==> t == s)
            && (code == Ok ==>
                  && h !in t.memory && h !in t.registry && OthersSame(s, t, {h})
                  && s.memory[h].obj in s.objects && t.objects == s.objects - {s.memory[h].obj}
                  && t.binds == s.binds && t.lent == s.lent && t.loans == s.loans)
  {
    CountAnswers(s, h);
    hide Counted, Lending, Exact, Bound;
  }

  /** Freeing a connection that was just made restores all, exactly if no facade that
      was left dangling is still bound to its address; in a state without dangling
      facades there is none. */
  lemma ClientFreeUndoesNew(s: State, place: Addr, obj: Obj)
    requires Valid(s) && place !in s.memory && obj !in s.objects
    ensures var (t, code) := Apply(s, ClientNew(Some(place), Some(obj)));
            code == Ok && Apply(t, ClientFree(place)) == if Bound(s, place) then (t, WrongState) else (s, Ok)
    ensures NoDangling(s.memory, s.objects) ==> !Bound(s, place)
  {
    CountAnswers(s, place);
    var t := NewClient(s, Some(place), Some(obj)).0;
    assert t.memory - {place} == s.memory && t.registry - {place} == s.registry && t.objects - {obj} == s.objects;
    hide Counted, Lending, Distinct, Exact;
  }

  // ------------------------------------------------------------------------- pools

  /** A new pool is registered, lends nothing yet, and has an object of its own. */
  lemma PoolNewIff(s: State, place: Option<Addr>, obj: Option<Obj>)
    requires Valid(s) && FreshPlace(s, place) && FreshObject(s, obj)
    ensures var (t, code) := Apply(s, PoolNew(place, obj));
            && (code == Ok <==> place.Some? && obj.Some?) && (code != Ok ==> code == NoMemory && t == s)
            && (code == Ok ==>
                  && IsPool(t, place.value) && t.memory[place.value] == Pool(obj.value, false, map[])
                  && OthersSame(s, t, {place.value}) && t.objects == s.objects + {obj.value} && Lent(t, obj.value) == {}
                  && (forall o :: o != obj.value ==> Lent(t, o) == Lent(s, o))
                  && t.binds == s.binds && t.loans == s.loans)
  {
    hide Counted, Lending, Distinct, Exact;
  }

  /** Starting and closing a pool says only whether it can lend. */
  lemma PoolInitIff(s: State, h: Addr, ok: bool)
    requires Valid(s)
    ensures var (t, code) := Apply(s, PoolInit(h, ok)); var (u, code2) := Apply(s, PoolClose(h));
            && (code == Ok <==> IsPool(s, h)) && (code2 == Ok <==> IsPool(s, h))
            && (code != Ok ==> code == Stale && t == s) && (code2 != Ok ==> code2 == Stale && u == s)
            && (code == Ok ==> Apply(t, Acquire(h, None, None)) == (t, if ok then NoConnection else Misuse)
                               && OthersSame(s, t, {h}) && IsPool(t, h) && t.memory[h].out == s.memory[h].out
                               && t.memory[h].obj == s.memory[h].obj && t.objects == s.objects && t.lent == s.lent)
            && (code2 == Ok ==> Apply(u, Acquire(h, None, None)) == (u, Misuse)
                                && OthersSame(s, u, {h}) && IsPool(u, h) && u.memory[h].out == s.memory[h].out
                                && u.memory[h].obj == s.memory[h].obj && u.objects == s.objects && u.lent == s.lent)
  {
    hide Counted, Lending, Distinct, Exact;
  }

  /** Freeing a pool (957-982) succeeds exactly if it is registered and no stored facade
      is bound to the pool itself, whatever it has lent; then the pool, every handle it
      has lent, its object and the connections it has lent are gone, nothing else is, and
      the loans have ended. */
  lemma PoolFreeIff(s: State, h: Addr)
    requires Valid(s)
    ensures var (t, code) := Apply(s, PoolFree(h));
            && (code == Stale <==> !IsPool(s, h))
            && (code == Ok <==> IsPool(s, h) && !Bound(s, h))
            && (code == WrongState <==> IsPool(s, h) && Bound(s, h))
            && (code != Ok ==> t == s)
            && (code == Ok ==>
                  var pool := s.memory[h];
                  && (forall g :: g == h || g in pool.out ==> g in s.memory && g !in t.memory && g !in t.registry)
                  && OthersSame(s, t, pool.out.Keys + {h})
                  && pool.obj in s.objects && t.objects == s.objects - Lent(s, pool.obj) - {pool.obj}
                  && Lent(s, pool.obj) == pool.out.Values && Lent(t, pool.obj) == {}
                  && (forall o :: o != pool.obj ==> Lent(t, o) == Lent(s, o))
                  && t.binds == s.binds && t.loans.serial == s.loans.serial - pool.out.Keys)
  {
    hide Valid, FreePool, Bound, OthersSame, Lent;
    CountAnswers(s, h);
    PoolFreeAnswers(s, h);
    if IsPool(s, h) && !HasAsync(s, h) { PoolFreed(s, h); }
  }

  lemma PoolFreeAnswers(s: State, h: Addr)
    ensures var (t, code) := FreePool(s, h);
            && code == (if !IsPool(s, h) then Stale else if HasAsync(s, h) then WrongState else Ok) && (code != Ok ==> t == s)
  {
    hide Lent, DeleteAll;
  }

  lemma PoolFreed(s: State, h: Addr)
    requires Valid(s) && IsPool(s, h) && !HasAsync(s, h)
    ensures var t := FreePool(s, h).0; var pool := s.memory[h];
            && (forall g :: g == h || g in pool.out ==> g in s.memory && g !in t.memory && g !in t.registry)
            && OthersSame(s, t, pool.out.Keys + {h})
            && pool.obj in s.objects && t.objects == s.objects - Lent(s, pool.obj) - {pool.obj}
            && Lent(s, pool.obj) == pool.out.Values && Lent(t, pool.obj) == {}
            && (forall o :: o != pool.obj ==> Lent(t, o) == Lent(s, o))
            && t.binds == s.binds && t.loans.serial == s.loans.serial - pool.out.Keys
  {
    hide Valid, HasAsync;
    PoolParts(s, h);
  }

  lemma PoolParts(s: State, h: Addr)
    requires Valid(s) && IsPool(s, h)
    ensures var pool := s.memory[h];
            && s.registry == s.memory.Keys && pool.out.Keys <= s.memory.Keys
            && pool.obj in s.objects && Lent(s, pool.obj) == pool.out.Values
  {
    LendingHas(s.memory, s.lent, h);
    DistinctLent(s, h);
    hide Counted, Lending, Exact;
  }

  /** Freeing a pool that was just made restores all, under the same condition; the C++
      pool is a new one, which has lent nothing. */
  lemma PoolFreeUndoesNew(s: State, place: Addr, obj: Obj)
    requires Valid(s) && place !in s.memory && obj !in s.objects && obj !in s.lent
    ensures var (t, code) := Apply(s, PoolNew(Some(place), Some(obj)));
            code == Ok && Apply(t, PoolFree(place)) == if Bound(s, place) then (t, WrongState) else (s, Ok)
    ensures NoDangling(s.memory, s.objects) ==> !Bound(s, place)
  {
    hide Counted, Lending, Distinct, Exact, FreePool, Bound, NoDangling;
    CountAnswers(s, place);
    FreeOfNew(s, place, obj);
    NotDangling(s, place);
  }

  lemma NotDangling(s: State, place: Addr)
    requires place !in s.memory
    ensures NoDangling(s.memory, s.objects) ==> !Bound(s, place)
  {
  }

  lemma FreeOfNew(s: State, place: Addr, obj: Obj)
    requires s.registry == s.memory.Keys && place !in s.memory && obj !in s.objects && obj !in s.lent
    ensures var t := NewPool(s, Some(place), Some(obj)).0;
            FreePool(t, place) == if HasAsync(s, place) then (t, WrongState) else (s, Ok)
  {
    hide DeleteAll;
    var t := NewPool(s, Some(place), Some(obj)).0;
    assert t.memory[place] == Pool(obj, false, map[]) && t.memory[place].out.Keys == {};
    assert t.memory - {} - {place} == s.memory && t.registry - {} - {place} == s.registry;
    assert Lent(t, obj) == {} && t.objects - {} - {obj} == s.objects && t.lent - {obj} == s.lent;
    DeleteAllNone(s.loans);
  }

  // ------------------------------------------------------------------------- loans

  /** Acquiring (1009-1044) succeeds exactly if the pool is registered, its C++ pool has
      a connection to lend and there is room for a handle; the handle is then one that
      the pool has lent. */
  lemma AcquireIff(s: State, h: Addr, got: Option<Obj>, place: Option<Addr>)
    requires Valid(s) && FreshPlace(s, place) && FreshObject(s, got)
    ensures var (t, code) := Apply(s, Acquire(h, got, place));
            && (code == Ok <==> IsPool(s, h) && got.Some? && place.Some?)
            && (code != Ok ==> t == s && code == if !IsPool(s, h) then Stale
                                                 else if got.Some? then NoMemory
                                                 else if s.memory[h].inited then NoConnection else Misuse)
            && (code == Ok ==>
                  && IsClient(t, place.value) && t.memory[place.value] == Client(got.value, false)
                  && IsPool(t, h) && t.memory[h].out == s.memory[h].out[place.value := got.value]
                  && OthersSame(s, t, {h, place.value}) && t.objects == s.objects + {got.value}
                  && Lent(t, s.memory[h].obj) == Lent(s, s.memory[h].obj) + {got.value}
                  && (forall o :: o != s.memory[h].obj ==> Lent(t, o) == Lent(s, o)) && t.binds == s.binds)
  {
    hide Counted, Lending, Distinct, Exact, Make;
  }

  /** Giving back (1046-1093) succeeds exactly if this pool has lent the handle and no
      stored facade is bound to it; handle and loan are then gone. */
  lemma GiveBackIff(s: State, h: Addr, client: Option<Addr>)
    requires Valid(s)
    ensures var (t, code) := Apply(s, GiveBack(h, client));
            && (code == Ok <==> IsPool(s, h) && client.Some? && client.value in s.memory[h].out && !Bound(s, client.value))
            && (code != Ok ==> t == s && code == if !IsPool(s, h) then Stale
                                                 else if client.None? then InvalidArg
                                                 else if !IsClient(s, client.value) then Stale
                                                 else if Bound(s, client.value) then WrongState else InvalidArg)
            && (code == Ok ==>
                  var c := s.memory[h].out[client.value];
                  && client.value in s.memory && client.value !in t.memory && client.value !in t.registry
                  && IsPool(t, h) && t.memory[h].out == s.memory[h].out - {client.value}
                  && OthersSame(s, t, {h, client.value}) && c in s.objects && t.objects == s.objects - {c}
                  && Lent(t, s.memory[h].obj) == Lent(s, s.memory[h].obj) - {c}
                  && (forall o :: o != s.memory[h].obj ==> Lent(t, o) == Lent(s, o)) && t.binds == s.binds)
  {
    hide Valid, Return, Bound, OthersSame, Lent;
    if client.Some? { CountAnswers(s, client.value); }
    if IsPool(s, h) && client.Some? && client.value in s.memory[h].out { LentIsClient(s, h, client.value); }
    GiveBackAnswers(s, h, client);
    if Return(s, h, client).1 == Ok { GivenBack(s, h, client.value); }
  }

  lemma LentIsClient(s: State, h: Addr, g: Addr)
    requires Valid(s) && IsPool(s, h) && g in s.memory[h].out
    ensures IsClient(s, g)
  {
    DistinctLent(s, h);
    assert Borrowed(s.memory, g);
    hide Counted, Lending, Exact;
  }

  lemma GiveBackAnswers(s: State, h: Addr, client: Option<Addr>)
    ensures var (t, code) := Return(s, h, client);
            && code == (if !IsPool(s, h) then Stale
                        else if client.None? then InvalidArg
                        else if !IsClient(s, client.value) then Stale
                        else if HasAsync(s, client.value) then WrongState
                        else if client.value !in s.memory[h].out then InvalidArg else Ok)
            && (code != Ok ==> t == s)
  {
    hide Lent, Delete;
  }

  lemma GivenBack(s: State, h: Addr, g: Addr)
    requires Valid(s) && Return(s, h, Some(g)).1 == Ok
    ensures var t := Return(s, h, Some(g)).0; var c := s.memory[h].out[g];
            && g in s.memory && g !in t.memory && g !in t.registry
            && IsPool(t, h) && t.memory[h].out == s.memory[h].out - {g}
            && OthersSame(s, t, {h, g}) && c in s.objects && t.objects == s.objects - {c}
            && Lent(t, s.memory[h].obj) == Lent(s, s.memory[h].obj) - {c}
            && (forall o :: o != s.memory[h].obj ==> Lent(t, o) == Lent(s, o)) && t.binds == s.binds
  {
    hide Valid, HasAsync, Delete;
    LoanParts(s, h, g);
  }

  lemma LoanParts(s: State, h: Addr, g: Addr)
    requires Valid(s) && IsPool(s, h) && g in s.memory[h].out
    ensures s.registry == s.memory.Keys && g in s.memory && g != h && s.memory[h].out[g] in s.objects
  {
    DistinctLent(s, h);
    assert Borrowed(s.memory, g);
    hide Counted, Lending, Exact;
  }

  // ----------------------------------------------------------------------- facades

  /** A facade is made exactly for a registered owner of its kind, given room; the owner
      is then bound. */
  lemma AsyncNewIff(s: State, owner: Addr, pooled: bool, place: Option<Addr>)
    requires Valid(s) && FreshPlace(s, place)
    ensures var (t, code) := Apply(s, if pooled then AsyncNewPool(owner, place) else AsyncNew(owner, place));
            var kind := if pooled then IsPool(s, owner) else IsClient(s, owner);
            && (code == Ok <==> kind && place.Some?)
            && (code != Ok ==> t == s && code == if kind then NoMemory else Stale)
            && (code == Ok ==>
                  && IsAsync(t, place.value) && t.memory[place.value].owner == owner && t.memory[place.value].obj == s.memory[owner].obj
                  && Bound(t, owner) && HasAsync(t, owner) && OthersSame(s, t, {place.value})
                  && t.objects == s.objects && t.lent == s.lent && t.loans == s.loans)
  {
    NewAsyncValid(s, owner, pooled, place);
    var t := NewAsync(s, owner, pooled, place).0;
    CountAnswers(t, owner);
    hide Valid, Bind;
  }

  /** The end of a facade's free (1502-1508): it is gone, and its owner is bound no longer
      exactly if it was the last. */
  lemma AsyncFreeIff(s: State, a: Addr)
    requires Valid(s)
    ensures var (t, code) := Apply(s, AsyncFree(a));
            && (code == Ok <==> IsAsync(s, a)) && (code != Ok ==> t == s && code == Stale)
            && (code == Ok ==>
                  && a !in t.memory && a !in t.registry && OthersSame(s, t, {a})
                  && (HasAsync(t, s.memory[a].owner) <==>
                        exists b :: b in s.memory && b != a && s.memory[b].Async? && s.memory[b].owner == s.memory[a].owner)
                  && (forall o :: o != s.memory[a].owner ==> (HasAsync(t, o) <==> HasAsync(s, o)))
                  && t.objects == s.objects && t.lent == s.lent && t.loans == s.loans)
  {
    FreeAsyncValid(s, a);
    if IsAsync(s, a) {
      var t := FreeAsync(s, a).0;
      CountAnswers(t, s.memory[a].owner);
      forall b | b in s.memory && b != a ensures b in t.memory && t.memory[b] == s.memory[b] { }
    }
    hide Valid;
  }
}
