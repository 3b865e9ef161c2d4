/** The operations of src/capi/uvcpp_c_db.cpp on their tables in place: the bind
    counts, a pool's table of lent handles, the registry.  Each method is proved to
    do what its specification function in DbOwnership says. */
module DbHandles {
  import opened Base
  import opened Ledger
  import opened DbOwnership

  class Db {
    var memory: map<Addr, Cell>
    var registry: set<Addr>
    var bindCounts: map<Addr, int>
    // what the C++ side holds
    var objects: set<Obj>
    var lent: map<Obj, set<Obj>>
    // history
    ghost var loans: Book

    ghost function S(): State
      reads this
    {
      State(memory, registry, bindCounts, objects, lent, loans)
    }

    constructor ()
      ensures S() == FRESH && Valid(S())
    {
      memory, registry, bindCounts, objects, lent, loans := map[], {}, map[], {}, map[], EMPTY;
      new;
      FreshValid();
    }

    /** bind_owner (285-288). */
    method BindOwner(owner: Addr)
      modifies this`bindCounts
      ensures bindCounts == Bind(old(bindCounts), owner)
    {
      if owner !in bindCounts { bindCounts := bindCounts[owner := 0]; }
      bindCounts := bindCounts[owner := bindCounts[owner] + 1];
    }

    /** unbind_owner (290-295). */
    method UnbindOwner(owner: Addr)
      modifies this`bindCounts
      ensures bindCounts == Unbind(old(bindCounts), owner)
    {
      if owner !in bindCounts { return; }
      var n := bindCounts[owner] - 1;
      if n <= 0 { bindCounts := bindCounts - {owner}; } else { bindCounts := bindCounts[owner := n]; }
    }

    /** owner_has_async (297-301). */
    method OwnerHasAsync(owner: Addr) returns (bound: bool)
      requires Valid(S())
      ensures bound <==> exists a :: a in memory && memory[a].Async? && memory[a].owner == owner
    {
      OwnersAreCounted(S());
      hide Valid;
      return owner in bindCounts && bindCounts[owner] > 0;
    }

    predicate Alive(h: Addr)
      reads this
    {
      h in registry && h in memory
    }

    method ClientFree(h: Addr) returns (code: Code)
      requires Valid(S())
      modifies this
      ensures (S(), code) == FreeClient(old(S()), h)
    {
      OwnersAreCounted(S());
      if !Alive(h) || !memory[h].Client? { return Stale; }
      if !memory[h].owned { return WrongState; }
      var bound := OwnerHasAsync(h);
      if bound { return WrongState; }
      hide Valid;
      registry := registry - {h};
      var c := memory[h].obj;
      objects := objects - {c};
      memory := memory - {h};
      return Ok;
    }

    /** uvcpp_c_db_pool_free (957-982). */
    method PoolFree(h: Addr) returns (code: Code)
      requires Valid(S())
      modifies this
      ensures (S(), code) == FreePool(old(S()), h)
    {
      if !Alive(h) || !memory[h].Pool? { return Stale; }
      var bound := OwnerHasAsync(h);
      BoundMeansCounted(S(), h);
      if bound { return WrongState; }
      hide Valid, DeleteAll;
      DropHandles(h);
      registry := registry - {h};
      var pool := memory[h].obj;
      Deletes(pool);
      memory := memory - {h};
      return Ok;
    }

    /** The C++ pool is deleted, with the connections it has lent. */
    method Deletes(pool: Obj)
      modifies this`lent, this`objects
      ensures objects == old(objects) - Lent(old(S()), pool) - {pool} && lent == old(lent) - {pool}
    {
      objects := objects - (if pool in lent then lent[pool] else {}) - {pool};
      lent := lent - {pool};
    }

    /** The loop of PoolFree over the pool's table: every lent handle is
        unregistered and deleted. */
    method DropHandles(h: Addr)
      requires Valid(S()) && IsPool(S(), h)
      modifies this`memory, this`registry, this`loans
      ensures var borrowed := old(memory)[h].out.Keys;
              && memory == old(memory) - borrowed && registry == old(registry) - borrowed && h in memory
              && loans == DeleteAll(old(loans), borrowed)
    {
      ghost var s := S();
      var borrowed := memory[h].out.Keys;
      DropFacts(s, h);
      hide Valid, DeleteAll, Delete;
      var drop := borrowed;
      ghost var done: set<Addr> := {};
      while drop != {}
        invariant done + drop == borrowed && done !! drop
        invariant memory == s.memory - done && registry == s.registry - done
        invariant loans == DeleteAll(s.loans, done)
        decreases drop
      {
        var b :| b in drop;
        DropOne(s, h, done, b);
        DropHandle(b);
        drop, done := drop - {b}, done + {b};
      }
      assert done == borrowed;
    }

    method DropHandle(b: Addr)
      modifies this`memory, this`registry, this`loans
      ensures memory == old(memory) - {b} && registry == old(registry) - {b} && loans == Delete(old(loans), b)
    {
      registry := registry - {b};
      memory, loans := memory - {b}, Delete(loans, b);
    }

    // The C++ pool: it lends a connection, and takes back one that it has lent.

    method Lends(pool: Obj, c: Obj)
      requires pool in lent && c !in objects
      modifies this`lent, this`objects
      ensures lent == old(lent)[pool := old(lent)[pool] + {c}] && objects == old(objects) + {c}
    {
      lent, objects := lent[pool := lent[pool] + {c}], objects + {c};
    }

    method TakesBack(pool: Obj, c: Obj)
      requires pool in lent && c in lent[pool]
      modifies this`lent, this`objects
      ensures lent == old(lent)[pool := old(lent)[pool] - {c}] && objects == old(objects) - {c}
    {
      lent, objects := lent[pool := lent[pool] - {c}], objects - {c};
    }

    /** uvcpp_c_db_pool_acquire (1009-1044). */
    method PoolAcquire(h: Addr, got: Option<Obj>, place: Option<Addr>) returns (code: Code, handle: Option<Addr>)
      requires Valid(S()) && Fits(S(), Acquire(h, got, place))
      modifies this
      ensures (S(), code) == Borrow(old(S()), h, got, place)
      ensures handle == if code == Ok then place else None
    {
      if !Alive(h) || !memory[h].Pool? { return Stale, None; }
      if got.None? { return if memory[h].inited then NoConnection else Misuse, None; }
      var pool, c := memory[h], got.value;
      LentKnown(S(), h, c);
      hide Valid;
      Lends(pool.obj, c);
      if place.None? {
        TakesBack(pool.obj, c);
        assert old(lent)[pool.obj] + {c} - {c} == old(lent)[pool.obj];
        assert lent == old(lent) && objects == old(objects);
        return NoMemory, None;
      }
      registry := registry + {place.value};
      memory, loans := Lend(memory, h, place.value, c), Make(loans, place.value);
      return Ok, place;
    }

    /** uvcpp_c_db_pool_release and uvcpp_c_db_pool_discard (1046-1093): what goes
        back to the C++ pool is a connection that it has lent. */
    method PoolReturn(h: Addr, client: Option<Addr>) returns (code: Code)
      requires Valid(S())
      modifies this
      ensures (S(), code) == Return(old(S()), h, client)
    {
      OwnersAreCounted(S());
      if !Alive(h) || !memory[h].Pool? { return Stale; }
      if client.None? { return InvalidArg; }
      if !Alive(client.value) || !memory[client.value].Client? { return Stale; }
      var bound := OwnerHasAsync(client.value);
      if bound { return WrongState; }
      if client.value !in memory[h].out { return InvalidArg; }
      var pool := memory[h];
      var c := pool.out[client.value];
      LentIsLent(S(), h, client.value);
      hide Valid;
      memory := Unlend(memory, h, client.value);
      registry := registry - {client.value};
      loans := Delete(loans, client.value);
      TakesBack(pool.obj, c);
      return Ok;
    }

    /** uvcpp_c_db_async_new and uvcpp_c_db_async_new_pool (1433-1474). */
    method AsyncBind(owner: Addr, pooled: bool, place: Option<Addr>) returns (code: Code)
      requires FreshPlace(S(), place)
      modifies this
      ensures (S(), code) == NewAsync(old(S()), owner, pooled, place)
    {
      if !Alive(owner) || !(if pooled then memory[owner].Pool? else memory[owner].Client?) { return Stale; }
      if place.None? { return NoMemory; }
      memory := memory[place.value := Async(memory[owner].obj, owner, pooled)];
      registry := registry + {place.value};
      BindOwner(owner);
      return Ok;
    }

    /** The end of uvcpp_c_db_async_free (1500-1507). */
    method AsyncUnbind(a: Addr) returns (code: Code)
      modifies this
      ensures (S(), code) == FreeAsync(old(S()), a)
    {
      if !Alive(a) || !memory[a].Async? { return Stale; }
      UnbindOwner(memory[a].owner);
      registry := registry - {a};
      memory := memory - {a};
      return Ok;
    }
  }

  lemma BoundMeansCounted(s: State, owner: Addr)
    requires Valid(s)
    ensures HasAsync(s, owner) <==> exists a :: a in s.memory && s.memory[a].Async? && s.memory[a].owner == owner
  {
    OwnersAreCounted(s);
  }

  lemma LentKnown(s: State, h: Addr, c: Obj)
    requires Valid(s) && IsPool(s, h) && c !in s.objects
    ensures s.memory[h].obj in s.lent && c !in s.lent[s.memory[h].obj]
  {
    DistinctLent(s, h);
    LendingHas(s.memory, s.lent, h);
  }

  lemma LentIsLent(s: State, h: Addr, b: Addr)
    requires Valid(s) && IsPool(s, h) && b in s.memory[h].out
    ensures s.memory[h].obj in s.lent && s.memory[h].out[b] in s.lent[s.memory[h].obj]
  {
    LendingHas(s.memory, s.lent, h);
  }

  lemma DropFacts(s: State, h: Addr)
    requires Valid(s) && IsPool(s, h)
    ensures h !in s.memory[h].out && DeleteAll(s.loans, {}) == s.loans
  {
    DistinctLent(s, h);
    DeleteAllNone(s.loans);
  }

  /** One turn of the loop in PoolFree. */
  lemma DropOne(s: State, h: Addr, done: set<Addr>, b: Addr)
    requires Valid(s) && IsPool(s, h) && b in s.memory[h].out && b !in done
    ensures DeleteAll(s.loans, done + {b}) == Delete(DeleteAll(s.loans, done), b)
    ensures s.memory - (done + {b}) == s.memory - done - {b} && s.registry - (done + {b}) == s.registry - done - {b}
  {
    DistinctLent(s, h);
    DeleteAllSnoc(s.loans, Lendings(s.memory), done, b);
  }
}
