/** Who owns whom in src/capi/uvcpp_c_db.cpp: connections and pools made by the
    user, connections lent by a pool, and the asynchronous facades bound to any of
    them.  The allocator may reuse the addresses of handles and objects. */
module DbOwnership {
  import opened Base
  import opened Ledger

  /** The address of a C++ connection or pool object. */
  type Obj = nat

  /** What is stored at a handle's address. */
  datatype Cell =
    | Client(obj: Obj, owned: bool)
    | Pool(obj: Obj, inited: bool, out: map<Addr, Obj>)
    | Async(obj: Obj, owner: Addr, pooled: bool)

  datatype State = State(
    memory: map<Addr, Cell>, registry: set<Addr>,
    binds: map<Addr, int>,         // g_bind_counts (282-301)
    objects: set<Obj>,             // C++ objects not deleted and not given back
    lent: map<Obj, set<Obj>>,      // what each C++ pool has lent and not got back
    loans: Book)                   // history: each loan ever made

  const FRESH := State(map[], {}, map[], {}, map[], EMPTY)

  predicate IsClient(s: State, h: Addr) { h in s.registry && h in s.memory && s.memory[h].Client? }
  predicate IsPool(s: State, h: Addr) { h in s.registry && h in s.memory && s.memory[h].Pool? }
  predicate IsAsync(s: State, h: Addr) { h in s.registry && h in s.memory && s.memory[h].Async? }

  // ------------------------------------------------------ the book of facades

  function Bind(binds: map<Addr, int>, owner: Addr): map<Addr, int> {
    binds[owner := (if owner in binds then binds[owner] else 0) + 1]
  }

  function Unbind(binds: map<Addr, int>, owner: Addr): map<Addr, int> {
    if owner !in binds then binds
    else if binds[owner] - 1 <= 0 then binds - {owner}
    else binds[owner := binds[owner] - 1]
  }

  /** owner_has_async (297-301). */
  predicate HasAsync(s: State, owner: Addr) {
    owner in s.binds && s.binds[owner] > 0
  }

  // --------------------------------------------------------------- operations

  function Store(s: State, h: Addr, cell: Cell): State {
    s.(memory := s.memory[h := cell], registry := s.registry + {h})
  }

  function Drop(s: State, h: Addr): State {
    s.(memory := s.memory - {h}, registry := s.registry - {h})
  }

  datatype Op =
    | ClientNew(place: Option<Addr>, obj: Option<Obj>)
    | ClientFree(h: Addr)
    | PoolNew(place: Option<Addr>, obj: Option<Obj>)
    | PoolInit(pool: Addr, ok: bool)
    | PoolClose(pool: Addr)
    | PoolFree(pool: Addr)
    | Acquire(pool: Addr, got: Option<Obj>, place: Option<Addr>)
    | GiveBack(pool: Addr, client: Option<Addr>)  // release and discard alike
    | AsyncNew(owner: Addr, place: Option<Addr>)
    | AsyncNewPool(pool: Addr, place: Option<Addr>)
    | AsyncFree(a: Addr)

  /** What the allocator and the C++ pool promise: nothing they hand out is in
      use. */
  predicate Fits(s: State, op: Op) {
    match op
    case ClientNew(place, obj) => FreshPlace(s, place) && FreshObject(s, obj)
    case PoolNew(place, obj) => FreshPlace(s, place) && FreshObject(s, obj)
    case Acquire(_, got, place) => FreshPlace(s, place) && FreshObject(s, got)
    case AsyncNew(_, place) => FreshPlace(s, place)
    case AsyncNewPool(_, place) => FreshPlace(s, place)
    case _ => true
  }

  predicate FreshPlace(s: State, place: Option<Addr>) { place.Some? ==> place.value !in s.memory }
  predicate FreshObject(s: State, obj: Option<Obj>) { obj.Some? ==> obj.value !in s.objects }

  /** uvcpp_c_db_client_new (644-657); NoMemory stands for the null handle. */
  function NewClient(s: State, place: Option<Addr>, obj: Option<Obj>): (State, Code) {
    if place.None? || obj.None? then (s, NoMemory)
    else (Store(s, place.value, Client(obj.value, true)).(objects := s.objects + {obj.value}), Ok)
  }

  /** uvcpp_c_db_client_free (659-676). */
  function FreeClient(s: State, h: Addr): (State, Code) {
    if !IsClient(s, h) then (s, Stale)
    else if !s.memory[h].owned then (s, WrongState)
    else if HasAsync(s, h) then (s, WrongState)
    else (Drop(s, h).(objects := s.objects - {s.memory[h].obj}), Ok)
  }

  /** uvcpp_c_db_pool_new (942-955). */
  function NewPool(s: State, place: Option<Addr>, obj: Option<Obj>): (State, Code) {
    if place.None? || obj.None? then (s, NoMemory)
    else
      (Store(s, place.value, Pool(obj.value, false, map[])).(
         objects := s.objects + {obj.value}, lent := s.lent[obj.value := {}]), Ok)
  }

  function SetInited(s: State, h: Addr, inited: bool): (State, Code) {
    if !IsPool(s, h) then (s, Stale)
    else (s.(memory := s.memory[h := s.memory[h].(inited := inited)]), Ok)
  }

  /** uvcpp_c_db_pool_free (957-982): every handle it has lent goes with it. */
  function FreePool(s: State, h: Addr): (State, Code) {
    if !IsPool(s, h) then (s, Stale)
    else if HasAsync(s, h) then (s, WrongState)
    else
      var pool := s.memory[h];
      var borrowed := pool.out.Keys;
      (s.(memory := s.memory - borrowed - {h}, registry := s.registry - borrowed - {h},
          objects := s.objects - Lent(s, pool.obj) - {pool.obj}, lent := s.lent - {pool.obj},
          loans := DeleteAll(s.loans, borrowed)), Ok)
  }

  function Lent(s: State, pool: Obj): set<Obj> {
    if pool in s.lent then s.lent[pool] else {}
  }

  /** A new handle for a lent connection, and its entry in the pool's table. */
  function Lend(m: map<Addr, Cell>, p: Addr, h: Addr, c: Obj): map<Addr, Cell>
    requires p in m && m[p].Pool?
  {
    m[h := Client(c, false)][p := m[p].(out := m[p].out[h := c])]
  }

  function Unlend(m: map<Addr, Cell>, p: Addr, h: Addr): map<Addr, Cell>
    requires p in m && m[p].Pool?
  {
    m[p := m[p].(out := m[p].out - {h})] - {h}
  }

  /** uvcpp_c_db_pool_acquire (1009-1044).  Without room for a handle the
      connection goes straight back to the C++ pool. */
  function Borrow(s: State, h: Addr, got: Option<Obj>, place: Option<Addr>): (State, Code) {
    if !IsPool(s, h) then (s, Stale)
    else if got.None? then (s, if s.memory[h].inited then NoConnection else Misuse)
    else if place.None? then (s, NoMemory)
    else
      var pool := s.memory[h];
      (s.(
         memory := Lend(s.memory, h, place.value, got.value), registry := s.registry + {place.value},
         objects := s.objects + {got.value}, lent := s.lent[pool.obj := Lent(s, pool.obj) + {got.value}],
         loans := Make(s.loans, place.value)), Ok)
  }

  /** uvcpp_c_db_pool_release and uvcpp_c_db_pool_discard (1046-1093). */
  function Return(s: State, h: Addr, client: Option<Addr>): (State, Code) {
    if !IsPool(s, h) then (s, Stale)
    else if client.None? then (s, InvalidArg)
    else if !IsClient(s, client.value) then (s, Stale)
    else if HasAsync(s, client.value) then (s, WrongState)
    else if client.value !in s.memory[h].out then (s, InvalidArg)
    else
      var pool := s.memory[h];
      var c := pool.out[client.value];
      (s.(memory := Unlend(s.memory, h, client.value),
          registry := s.registry - {client.value},
          objects := s.objects - {c}, lent := s.lent[pool.obj := Lent(s, pool.obj) - {c}],
          loans := Delete(s.loans, client.value)), Ok)
  }

  /** uvcpp_c_db_async_new and uvcpp_c_db_async_new_pool (1433-1474). */
  function NewAsync(s: State, owner: Addr, pooled: bool, place: Option<Addr>): (State, Code) {
    if !(if pooled then IsPool(s, owner) else IsClient(s, owner)) then (s, Stale)
    else if place.None? then (s, NoMemory)
    else (Store(s, place.value, Async(s.memory[owner].obj, owner, pooled)).(binds := Bind(s.binds, owner)), Ok)
  }

  /** The part of uvcpp_c_db_async_free that touches the books (1500-1507); its
      waiting is the subject of AsyncFacade. */
  function FreeAsync(s: State, a: Addr): (State, Code) {
    if !IsAsync(s, a) then (s, Stale)
    else (Drop(s, a).(binds := Unbind(s.binds, s.memory[a].owner)), Ok)
  }

  function Apply(s: State, op: Op): (State, Code) {
    match op
    case ClientNew(place, obj) => NewClient(s, place, obj)
    case ClientFree(h) => FreeClient(s, h)
    case PoolNew(place, obj) => NewPool(s, place, obj)
    case PoolInit(h, ok) => SetInited(s, h, ok)
    case PoolClose(h) => SetInited(s, h, false)
    case PoolFree(h) => FreePool(s, h)
    case Acquire(h, got, place) => Borrow(s, h, got, place)
    case GiveBack(h, client) => Return(s, h, client)
    case AsyncNew(client, place) => NewAsync(s, client, false, place)
    case AsyncNewPool(h, place) => NewAsync(s, h, true, place)
    case AsyncFree(a) => FreeAsync(s, a)
  }

  // --------------------------------------------------------------- invariants

  ghost function Facades(m: map<Addr, Cell>, owner: Addr): set<Addr> {
    set a | a in m && m[a].Async? && m[a].owner == owner
  }

  /** The book of facades counts exactly the live facades of every owner. */
  ghost predicate Counted(m: map<Addr, Cell>, binds: map<Addr, int>) {
    && (forall o: Addr :: o in binds <==> Facades(m, o) != {})
    && (forall o: Addr :: o in binds ==> binds[o] == |Facades(m, o)|)
  }

  ghost predicate Borrowed(m: map<Addr, Cell>, h: Addr) {
    h in m && m[h].Client? && !m[h].owned
  }

  /** The table of the pool at p; empty where there is no pool. */
  ghost function Out(m: map<Addr, Cell>, p: Addr): map<Addr, Obj> {
    if p in m && m[p].Pool? then m[p].out else map[]
  }

  /** A pool's table of lent handles holds exactly the handles of the connections
      that its C++ pool has lent, and no other pool's. */
  ghost predicate Lending(m: map<Addr, Cell>, lent: map<Obj, set<Obj>>) {
    && (forall p :: p in m && m[p].Pool? ==> m[p].obj in lent && lent[m[p].obj] == m[p].out.Values)
    && (forall p, h :: h in Out(m, p) ==> Borrowed(m, h) && m[h].obj == Out(m, p)[h])
    && (forall h :: Borrowed(m, h) ==> exists p :: h in Out(m, p))
    && (forall p, q, h :: h in Out(m, p) && h in Out(m, q) ==> p == q)
  }

  /** No two handles stand for one C++ obj, and each stands for one in use. */
  ghost predicate Distinct(m: map<Addr, Cell>, objects: set<Obj>) {
    && (forall h :: h in m && !m[h].Async? ==> m[h].obj in objects)
    && (forall g, h :: g in m && h in m && !m[g].Async? && !m[h].Async? && m[g].obj == m[h].obj ==> g == h)
  }

  ghost function Lendings(m: map<Addr, Cell>): set<Addr> {
    set h | h in m && m[h].Client? && !m[h].owned
  }

  ghost predicate Valid(s: State) {
    && s.registry == s.memory.Keys
    && Counted(s.memory, s.binds)
    && Lending(s.memory, s.lent)
    && Distinct(s.memory, s.objects)
    && Exact(s.loans, Lendings(s.memory))
  }

  // ------------------------------------------- what each operation keeps, by part

  lemma SameFacades(m: map<Addr, Cell>, n: map<Addr, Cell>, binds: map<Addr, int>)
    requires Counted(m, binds)
    requires forall a :: a in m && m[a].Async? ==> a in n && n[a] == m[a]
    requires forall a :: a in n && n[a].Async? ==> a in m && m[a] == n[a]
    ensures Counted(n, binds)
  {
    forall o: Addr ensures Facades(n, o) == Facades(m, o) {
    }
  }

  lemma BindCounts(m: map<Addr, Cell>, binds: map<Addr, int>, a: Addr, cell: Cell)
    requires Counted(m, binds) && a !in m && cell.Async?
    ensures Counted(m[a := cell], Bind(binds, cell.owner))
  {
    var n := m[a := cell];
    forall o: Addr ensures Facades(n, o) == if o == cell.owner then Facades(m, o) + {a} else Facades(m, o) {
    }
    if cell.owner !in binds {
      assert Facades(m, cell.owner) == {};
    }
  }

  lemma UnbindCounts(m: map<Addr, Cell>, binds: map<Addr, int>, a: Addr)
    requires Counted(m, binds) && a in m && m[a].Async?
    ensures Counted(m - {a}, Unbind(binds, m[a].owner))
  {
    var owner := m[a].owner;
    forall o: Addr ensures Facades(m - {a}, o) == if o == owner then Facades(m, o) - {a} else Facades(m, o) {
    }
    assert a in Facades(m, owner);
    assert |Facades(m, owner)| == 1 ==> Facades(m, owner) == {a} by {
      if |Facades(m, owner)| == 1 {
        assert |Facades(m, owner) - {a}| == 0;
      }
    }
  }

  /** Nothing about loans changes as long as the tables and the lent handles are
      the same. */
  lemma LendingSame(m: map<Addr, Cell>, n: map<Addr, Cell>, lent: map<Obj, set<Obj>>, lent2: map<Obj, set<Obj>>)
    requires Lending(m, lent)
    requires forall p: Addr :: Out(n, p) == Out(m, p)
    requires forall g: Addr :: Borrowed(n, g) <==> Borrowed(m, g)
    requires forall g: Addr :: Borrowed(m, g) ==> g in n && n[g].obj == m[g].obj
    requires forall p :: p in n && n[p].Pool? ==> n[p].obj in lent2 && lent2[n[p].obj] == n[p].out.Values
    ensures Lending(n, lent2) && Lendings(n) == Lendings(m)
  {
    forall p, h | h in Out(n, p) ensures Borrowed(n, h) && n[h].obj == Out(n, p)[h] {
      assert h in Out(m, p);
    }
    forall g | Borrowed(n, g) ensures exists p :: g in Out(n, p) {
      assert Borrowed(m, g);
      var p :| g in Out(m, p);
      assert g in Out(n, p);
    }
    forall p, q, h | h in Out(n, p) && h in Out(n, q) ensures p == q {
      assert h in Out(m, p) && h in Out(m, q);
    }
    forall g ensures g in Lendings(n) <==> g in Lendings(m) {
      assert Borrowed(n, g) <==> Borrowed(m, g);
    }
  }

  predicate Aside(m: map<Addr, Cell>, h: Addr) {
    h in m ==> m[h].Async? || (m[h].Client? && m[h].owned)
  }

  /** Putting in, or taking out, a handle that no pool has lent. */
  lemma LendingAside(m: map<Addr, Cell>, n: map<Addr, Cell>, lent: map<Obj, set<Obj>>, h: Addr)
    requires Lending(m, lent) && Aside(m, h) && Aside(n, h)
    requires forall g :: g != h ==> (g in m <==> g in n) && (g in m ==> m[g] == n[g])
    ensures Lending(n, lent) && Lendings(n) == Lendings(m)
  {
    forall p: Addr ensures Out(n, p) == Out(m, p) { }
    forall g: Addr ensures Borrowed(n, g) <==> Borrowed(m, g) { }
    LendingSame(m, n, lent, lent);
  }

  lemma LendingNewPool(m: map<Addr, Cell>, lent: map<Obj, set<Obj>>, h: Addr, o: Obj)
    requires Lending(m, lent) && h !in m && forall p :: p in m && m[p].Pool? ==> m[p].obj != o
    ensures var n := m[h := Pool(o, false, map[])]; Lending(n, lent[o := {}]) && Lendings(n) == Lendings(m)
  {
    var n := m[h := Pool(o, false, map[])];
    forall p: Addr ensures Out(n, p) == Out(m, p) { }
    forall g: Addr ensures Borrowed(n, g) <==> Borrowed(m, g) { }
    LendingSame(m, n, lent, lent[o := {}]);
  }

  lemma LendingInited(m: map<Addr, Cell>, lent: map<Obj, set<Obj>>, h: Addr, inited: bool)
    requires Lending(m, lent) && h in m && m[h].Pool?
    ensures var n := m[h := m[h].(inited := inited)]; Lending(n, lent) && Lendings(n) == Lendings(m)
  {
    var n := m[h := m[h].(inited := inited)];
    forall p: Addr ensures Out(n, p) == Out(m, p) { }
    forall g: Addr ensures Borrowed(n, g) <==> Borrowed(m, g) { }
    LendingSame(m, n, lent, lent);
  }

  // A loan: handle h, connection c, of pool p.

  lemma OutAdd(out: map<Addr, Obj>, h: Addr, c: Obj)
    requires h !in out
    ensures out[h := c].Values == out.Values + {c}
  {
    forall v | v in out.Values + {c} ensures v in out[h := c].Values {
      if v == c { assert out[h := c][h] == c; }
      else { var k :| k in out && out[k] == v; assert out[h := c][k] == v; }
    }
  }

  lemma OutRemove(out: map<Addr, Obj>, h: Addr)
    requires h in out && forall g :: g in out && out[g] == out[h] ==> g == h
    ensures (out - {h}).Values == out.Values - {out[h]}
  {
    forall v | v in out.Values - {out[h]} ensures v in (out - {h}).Values {
      var k :| k in out && out[k] == v;
      assert (out - {h})[k] == v;
    }
  }

  lemma LendingBorrow(m: map<Addr, Cell>, lent: map<Obj, set<Obj>>, p: Addr, h: Addr, c: Obj)
    requires Lending(m, lent) && p in m && m[p].Pool? && h !in m
    requires forall q :: q in m && m[q].Pool? && m[q].obj == m[p].obj ==> q == p
    ensures var n := Lend(m, p, h, c);
            Lending(n, lent[m[p].obj := lent[m[p].obj] + {c}]) && Lendings(n) == Lendings(m) + {h}
  {
    var n := Lend(m, p, h, c);
    forall q: Addr ensures h !in Out(m, q) { assert !Borrowed(m, h); }
    assert m[p].out == Out(m, p);
    OutAdd(m[p].out, h, c);
    forall q: Addr ensures Out(n, q) == if q == p then Out(m, p)[h := c] else Out(m, q) { }
    forall g: Addr ensures Borrowed(n, g) <==> Borrowed(m, g) || g == h { }
    forall g | Borrowed(n, g) ensures exists q :: g in Out(n, q) {
      if g == h {
        assert h in Out(n, p);
      } else {
        var q :| g in Out(m, q);
        assert g in Out(n, q);
      }
    }
    forall g ensures g in Lendings(n) <==> g in Lendings(m) + {h} {
      assert Borrowed(n, g) <==> Borrowed(m, g) || g == h;
    }
  }

  lemma LendingReturn(m: map<Addr, Cell>, lent: map<Obj, set<Obj>>, p: Addr, h: Addr)
    requires Lending(m, lent) && p in m && m[p].Pool? && h in m[p].out
    requires forall q :: q in m && m[q].Pool? && m[q].obj == m[p].obj ==> q == p
    requires forall g :: g in m[p].out && m[p].out[g] == m[p].out[h] ==> g == h
    ensures var n := Unlend(m, p, h);
            Lending(n, lent[m[p].obj := lent[m[p].obj] - {m[p].out[h]}]) && Lendings(n) == Lendings(m) - {h}
  {
    var n := Unlend(m, p, h);
    assert h in Out(m, p);
    assert Borrowed(m, h) && h != p;
    OutRemove(m[p].out, h);
    forall q: Addr ensures Out(n, q) == if q == p then Out(m, p) - {h} else Out(m, q) { }
    forall g: Addr ensures Borrowed(n, g) <==> Borrowed(m, g) && g != h { }
    forall g | Borrowed(n, g) ensures exists q :: g in Out(n, q) {
      var q :| g in Out(m, q);
      assert g in Out(n, q);
    }
    forall q, g | g in Out(n, q) ensures Borrowed(n, g) && n[g].obj == Out(n, q)[g] {
      assert g in Out(m, q);
      assert g != h;
    }
    forall g ensures g in Lendings(n) <==> g in Lendings(m) - {h} {
      assert Borrowed(n, g) <==> Borrowed(m, g) && g != h;
    }
  }

  lemma LendingFreePool(m: map<Addr, Cell>, lent: map<Obj, set<Obj>>, p: Addr)
    requires Lending(m, lent) && p in m && m[p].Pool?
    requires forall q :: q in m && m[q].Pool? && m[q].obj == m[p].obj ==> q == p
    ensures var n := m - m[p].out.Keys - {p};
            Lending(n, lent - {m[p].obj}) && Lendings(n) == Lendings(m) - m[p].out.Keys
    ensures m[p].out.Keys <= Lendings(m)
  {
    var n := m - m[p].out.Keys - {p};
    var gone := Out(m, p);
    forall h | h in gone ensures Borrowed(m, h) && h in Lendings(m) { }
    forall q: Addr ensures Out(n, q) == if q == p then map[] else Out(m, q) {
      assert q in gone ==> Borrowed(m, q);
    }
    forall g: Addr ensures Borrowed(n, g) <==> Borrowed(m, g) && g !in gone { }
    forall g | Borrowed(n, g) ensures exists q :: g in Out(n, q) {
      var q :| g in Out(m, q);
      assert g in Out(n, q);
    }
    forall q, g | g in Out(n, q) ensures Borrowed(n, g) && n[g].obj == Out(n, q)[g] {
      assert g in Out(m, q);
    }
    forall g ensures g in Lendings(n) <==> g in Lendings(m) - gone.Keys {
      assert Borrowed(n, g) <==> Borrowed(m, g) && g !in gone;
    }
  }

  // ------------------------------------------------ what each operation keeps

  lemma FreshValid()
    ensures Valid(FRESH)
  {
  }

  lemma DistinctPools(m: map<Addr, Cell>, objects: set<Obj>, p: Addr)
    requires Distinct(m, objects) && p in m && m[p].Pool?
    ensures forall q :: q in m && m[q].Pool? && m[q].obj == m[p].obj ==> q == p
  {
  }

  lemma NewClientValid(s: State, place: Option<Addr>, o: Option<Obj>)
    requires Valid(s) && FreshPlace(s, place) && FreshObject(s, o)
    ensures Valid(NewClient(s, place, o).0)
  {
    if place.Some? && o.Some? {
      var n := s.memory[place.value := Client(o.value, true)];
      SameFacades(s.memory, n, s.binds);
      LendingAside(s.memory, n, s.lent, place.value);
    }
    hide Counted, Lending, Lendings, Exact;
  }

  lemma FreeClientValid(s: State, h: Addr)
    requires Valid(s)
    ensures Valid(FreeClient(s, h).0)
  {
    if IsClient(s, h) && s.memory[h].owned {
      var n := s.memory - {h};
      SameFacades(s.memory, n, s.binds);
      LendingAside(s.memory, n, s.lent, h);
    }
    hide Counted, Lending, Lendings, Exact;
  }

  lemma NewPoolValid(s: State, place: Option<Addr>, o: Option<Obj>)
    requires Valid(s) && FreshPlace(s, place) && FreshObject(s, o)
    ensures Valid(NewPool(s, place, o).0)
  {
    if place.Some? && o.Some? {
      SameFacades(s.memory, s.memory[place.value := Pool(o.value, false, map[])], s.binds);
      LendingNewPool(s.memory, s.lent, place.value, o.value);
    }
    hide Counted, Lending, Lendings, Exact;
  }

  lemma SetInitedValid(s: State, h: Addr, inited: bool)
    requires Valid(s)
    ensures Valid(SetInited(s, h, inited).0)
  {
    if IsPool(s, h) {
      SameFacades(s.memory, s.memory[h := s.memory[h].(inited := inited)], s.binds);
      LendingInited(s.memory, s.lent, h, inited);
    }
    hide Counted, Lending, Lendings, Exact;
  }

  lemma LendTables(s: State, p: Addr, h: Addr, c: Obj)
    requires Valid(s) && IsPool(s, p) && h !in s.memory && c !in s.objects
    ensures var n := Lend(s.memory, p, h, c);
            Counted(n, s.binds) && Distinct(n, s.objects + {c}) && n.Keys == s.memory.Keys + {h}
  {
    SameFacades(s.memory, Lend(s.memory, p, h, c), s.binds);
  }

  lemma BorrowValid(s: State, h: Addr, got: Option<Obj>, place: Option<Addr>)
    requires Valid(s) && FreshPlace(s, place) && FreshObject(s, got)
    ensures Valid(Borrow(s, h, got, place).0)
  {
    hide Counted, Lending, Lendings, Exact, Make, Lend, Distinct;
    if IsPool(s, h) && got.Some? && place.Some? {
      DistinctPools(s.memory, s.objects, h);
      LendingHas(s.memory, s.lent, h);
      LendingBorrow(s.memory, s.lent, h, place.value, got.value);
      NotLent(s.memory, place.value);
      MakeExact(s.loans, Lendings(s.memory), place.value);
      LendTables(s, h, place.value, got.value);
    }
  }

  lemma LendingHas(m: map<Addr, Cell>, lent: map<Obj, set<Obj>>, p: Addr)
    requires Lending(m, lent) && p in m && m[p].Pool?
    ensures m[p].obj in lent
  {
  }

  lemma NotLent(m: map<Addr, Cell>, h: Addr)
    requires h !in m
    ensures h !in Lendings(m)
  {
  }

  lemma UnlendTables(s: State, p: Addr, h: Addr)
    requires Valid(s) && IsPool(s, p) && h in s.memory[p].out
    ensures var n := Unlend(s.memory, p, h);
            Counted(n, s.binds) && Distinct(n, s.objects - {s.memory[p].out[h]}) && n.Keys == s.memory.Keys - {h}
    ensures h in Lendings(s.memory)
  {
    DistinctLent(s, p);
    SameFacades(s.memory, Unlend(s.memory, p, h), s.binds);
  }

  lemma ReturnValid(s: State, h: Addr, client: Option<Addr>)
    requires Valid(s)
    ensures Valid(Return(s, h, client).0)
  {
    hide Counted, Lending, Lendings, Exact, Delete, Unlend, Distinct;
    if IsPool(s, h) && client.Some? && client.value in s.memory[h].out {
      DistinctPools(s.memory, s.objects, h);
      LendingHas(s.memory, s.lent, h);
      DistinctLent(s, h);
      LendingReturn(s.memory, s.lent, h, client.value);
      UnlendTables(s, h, client.value);
      DeleteExact(s.loans, Lendings(s.memory), client.value);
    }
  }

  /** A pool's lent handles stand for different connections. */
  lemma DistinctLent(s: State, p: Addr)
    requires Valid(s) && IsPool(s, p)
    ensures var out := s.memory[p].out;
            forall g :: g in out ==> Borrowed(s.memory, g) && g in Lendings(s.memory) && s.memory[g].obj == out[g]
    ensures var out := s.memory[p].out; forall g, h :: g in out && h in out && out[g] == out[h] ==> g == h
  {
    var out := Out(s.memory, p);
    assert out == s.memory[p].out;
    forall g | g in out ensures Borrowed(s.memory, g) && s.memory[g].obj == out[g] { }
  }

  lemma FreePoolValid(s: State, h: Addr)
    requires Valid(s)
    ensures Valid(FreePool(s, h).0)
  {
    hide Counted, Lending, Lendings, Exact, DeleteAll, Distinct;
    if IsPool(s, h) {
      DistinctPools(s.memory, s.objects, h);
      LendingFreePool(s.memory, s.lent, h);
      FreePoolTables(s, h);
      DeleteAllExact(s.loans, Lendings(s.memory), s.memory[h].out.Keys);
    }
  }

  lemma FreePoolTables(s: State, h: Addr)
    requires Valid(s) && IsPool(s, h)
    ensures var pool := s.memory[h]; var n := s.memory - pool.out.Keys - {h};
            && Counted(n, s.binds) && Distinct(n, s.objects - Lent(s, pool.obj) - {pool.obj})
            && n.Keys == s.memory.Keys - pool.out.Keys - {h}
  {
    var pool := s.memory[h];
    var n := s.memory - pool.out.Keys - {h};
    DistinctLent(s, h);
    SameFacades(s.memory, n, s.binds);
    assert Lent(s, pool.obj) == pool.out.Values by { LendingHas(s.memory, s.lent, h); }
  }

  lemma NewAsyncValid(s: State, owner: Addr, pooled: bool, place: Option<Addr>)
    requires Valid(s) && FreshPlace(s, place)
    ensures Valid(NewAsync(s, owner, pooled, place).0)
  {
    hide Counted, Lending, Lendings, Exact, Bind;
    if (if pooled then IsPool(s, owner) else IsClient(s, owner)) && place.Some? {
      var cell := Async(s.memory[owner].obj, owner, pooled);
      BindCounts(s.memory, s.binds, place.value, cell);
      LendingAside(s.memory, s.memory[place.value := cell], s.lent, place.value);
    }
  }

  lemma FreeAsyncValid(s: State, a: Addr)
    requires Valid(s)
    ensures Valid(FreeAsync(s, a).0)
  {
    hide Counted, Lending, Lendings, Exact, Unbind;
    if IsAsync(s, a) {
      UnbindCounts(s.memory, s.binds, a);
      LendingAside(s.memory, s.memory - {a}, s.lent, a);
    }
  }

  /** Every operation keeps the books right: the count of facades per owner, the
      tables of lent handles, and the history of loans. */
  lemma ApplyValid(s: State, op: Op)
    requires Valid(s) && Fits(s, op)
    ensures Valid(Apply(s, op).0)
  {
    hide Valid, NewClient, FreeClient, NewPool, SetInited, FreePool, Borrow, Return, NewAsync, FreeAsync;
    match op
    case ClientNew(place, o) => NewClientValid(s, place, o);
    case ClientFree(h) => FreeClientValid(s, h);
    case PoolNew(place, o) => NewPoolValid(s, place, o);
    case PoolInit(h, ok) => SetInitedValid(s, h, ok);
    case PoolClose(h) => SetInitedValid(s, h, false);
    case PoolFree(h) => FreePoolValid(s, h);
    case Acquire(h, got, place) => BorrowValid(s, h, got, place);
    case GiveBack(h, client) => ReturnValid(s, h, client);
    case AsyncNew(client, place) => NewAsyncValid(s, client, false, place);
    case AsyncNewPool(h, place) => NewAsyncValid(s, h, true, place);
    case AsyncFree(a) => FreeAsyncValid(s, a);
  }

  /** A refused operation changes nothing. */
  lemma RefusedUnchanged(s: State, op: Op)
    ensures Apply(s, op).1 != Ok ==> Apply(s, op).0 == s
  {
  }

  // -------------------------------------------------------------------- facades

  /** The facade's connection or pool is still there, in handle and in object. */
  ghost predicate Serves(m: map<Addr, Cell>, objects: set<Obj>, owner: Addr, facade: Cell) {
    && facade.Async? && owner in m && facade.obj in objects && m[owner].obj == facade.obj
    && (if facade.pooled then m[owner].Pool? else m[owner].Client?)
  }

  ghost predicate NoDangling(m: map<Addr, Cell>, objects: set<Obj>) {
    forall a :: a in m && m[a].Async? ==> Serves(m, objects, m[a].owner, m[a])
  }

  lemma OwnersAreCounted(s: State)
    requires Valid(s)
    ensures forall a :: a in s.memory && s.memory[a].Async? ==> HasAsync(s, s.memory[a].owner)
    ensures forall o :: HasAsync(s, o) ==> exists a :: a in s.memory && s.memory[a].Async? && s.memory[a].owner == o
  {
    forall a | a in s.memory && s.memory[a].Async? ensures HasAsync(s, s.memory[a].owner) {
      assert a in Facades(s.memory, s.memory[a].owner);
    }
    forall o | HasAsync(s, o) ensures exists a :: a in s.memory && s.memory[a].Async? && s.memory[a].owner == o {
      var a :| a in Facades(s.memory, o);
    }
  }

  /** The only way to leave a facade dangling is to take away its owner's handle
      or its owner's object. */
  lemma StillServes(m: map<Addr, Cell>, objects: set<Obj>, n: map<Addr, Cell>, objects2: set<Obj>)
    requires NoDangling(m, objects)
    requires forall a :: a in n && n[a].Async? && a !in m ==> Serves(n, objects2, n[a].owner, n[a])
    requires forall a :: a in m && a in n && (m[a].Async? || n[a].Async?) ==> m[a] == n[a]
    requires forall a :: a in m && a in n && m[a].Async? ==>
               var o := m[a].owner; o in n && m[a].obj in objects2 && o in m && (n[o] == m[o] || (n[o].Pool? && m[o].Pool? && n[o].obj == m[o].obj))
    ensures NoDangling(n, objects2)
  {
  }

  lemma NewServes(s: State, h: Addr, cell: Cell)
    requires NoDangling(s.memory, s.objects) && h !in s.memory
    requires !cell.Async? || Serves(s.memory, s.objects, cell.owner, cell)
    ensures forall objects :: s.objects <= objects ==> NoDangling(s.memory[h := cell], objects)
  {
  }

  lemma FreeClientServes(s: State, h: Addr)
    requires Valid(s) && NoDangling(s.memory, s.objects)
    ensures var t := FreeClient(s, h).0; NoDangling(t.memory, t.objects)
  {
    OwnersAreCounted(s);
    hide Counted, Lending, Exact, Facades;
    StillServes(s.memory, s.objects, FreeClient(s, h).0.memory, FreeClient(s, h).0.objects);
  }

  lemma ReturnServes(s: State, h: Addr, client: Option<Addr>)
    requires Valid(s) && NoDangling(s.memory, s.objects)
    ensures var t := Return(s, h, client).0; NoDangling(t.memory, t.objects)
  {
    if Return(s, h, client).1 == Ok {
      UnlendServes(s, h, client.value);
    }
    hide Valid, NoDangling;
  }

  lemma UnlendServes(s: State, p: Addr, h: Addr)
    requires Valid(s) && NoDangling(s.memory, s.objects) && IsPool(s, p) && h in s.memory[p].out && !HasAsync(s, h)
    ensures NoDangling(Unlend(s.memory, p, h), s.objects - {s.memory[p].out[h]})
  {
    hide Valid, NoDangling, HasAsync, Serves;
    var m, n, c := s.memory, Unlend(s.memory, p, h), s.memory[p].out[h];
    LoanIsClient(s, p, h);
    forall a | a in m && m[a].Async? ensures var o := m[a].owner; o in m && o != h && m[a].obj in s.objects - {c} {
      OtherOwner(s, p, h, a);
    }
    StillServes(m, s.objects, n, s.objects - {c});
  }

  lemma LoanIsClient(s: State, p: Addr, h: Addr)
    requires Valid(s) && IsPool(s, p) && h in s.memory[p].out
    ensures h in s.memory && s.memory[h].Client? && s.memory[h].obj == s.memory[p].out[h]
  {
    DistinctLent(s, p);
    assert Borrowed(s.memory, h);
    hide Counted, Lending, Exact;
  }

  /** A facade has its object from an owner other than a handle that is not bound. */
  lemma OtherOwner(s: State, p: Addr, h: Addr, a: Addr)
    requires Valid(s) && NoDangling(s.memory, s.objects) && h in s.memory && !s.memory[h].Async? && !s.memory[h].Pool?
    requires !HasAsync(s, h) && a in s.memory && s.memory[a].Async?
    ensures var o := s.memory[a].owner; o in s.memory && o != h && s.memory[a].obj in s.objects - {s.memory[h].obj}
  {
    OwnersAreCounted(s);
    hide Counted, Lending, Exact, Facades, HasAsync;
  }

  lemma BorrowServes(s: State, h: Addr, got: Option<Obj>, place: Option<Addr>)
    requires Valid(s) && NoDangling(s.memory, s.objects) && FreshPlace(s, place)
    ensures var t := Borrow(s, h, got, place).0; NoDangling(t.memory, t.objects)
  {
    hide Counted, Lending, Exact, Distinct, Make;
    StillServes(s.memory, s.objects, Borrow(s, h, got, place).0.memory, Borrow(s, h, got, place).0.objects);
  }

  lemma SetInitedServes(s: State, h: Addr, inited: bool)
    requires Valid(s) && NoDangling(s.memory, s.objects)
    ensures var t := SetInited(s, h, inited).0; NoDangling(t.memory, t.objects)
  {
    hide Counted, Lending, Exact, Distinct;
    StillServes(s.memory, s.objects, SetInited(s, h, inited).0.memory, s.objects);
  }

  /** Freeing or returning an owner is refused while a facade is bound to it, so no
      operation leaves a facade dangling, except possibly freeing a pool. */
  lemma OwnerOutlivesFacade(s: State, op: Op)
    requires Valid(s) && Fits(s, op) && NoDangling(s.memory, s.objects) && !op.PoolFree?
    ensures var t := Apply(s, op).0; NoDangling(t.memory, t.objects)
  {
    match op
    case ClientNew(place, o) =>
      if place.Some? && o.Some? { NewServes(s, place.value, Client(o.value, true)); }
    case ClientFree(h) => FreeClientServes(s, h);
    case PoolNew(place, o) =>
      if place.Some? && o.Some? { NewServes(s, place.value, Pool(o.value, false, map[])); }
    case PoolInit(h, ok) => SetInitedServes(s, h, ok);
    case PoolClose(h) => SetInitedServes(s, h, false);
    case Acquire(h, got, place) => BorrowServes(s, h, got, place);
    case GiveBack(h, client) => ReturnServes(s, h, client);
    case AsyncNew(client, place) => NewAsyncServes(s, client, false, place);
    case AsyncNewPool(h, place) => NewAsyncServes(s, h, true, place);
    case AsyncFree(a) => FreeAsyncServes(s, a);
  }

  lemma NewAsyncServes(s: State, owner: Addr, pooled: bool, place: Option<Addr>)
    requires Valid(s) && NoDangling(s.memory, s.objects) && FreshPlace(s, place)
    ensures var t := NewAsync(s, owner, pooled, place).0; NoDangling(t.memory, t.objects)
  {
    hide Counted, Lending, Exact;
    if (if pooled then IsPool(s, owner) else IsClient(s, owner)) && place.Some? {
      NewServes(s, place.value, Async(s.memory[owner].obj, owner, pooled));
    }
  }

  lemma FreeAsyncServes(s: State, a: Addr)
    requires Valid(s) && NoDangling(s.memory, s.objects)
    ensures var t := FreeAsync(s, a).0; NoDangling(t.memory, t.objects)
  {
    hide Counted, Lending, Exact, Unbind;
    StillServes(s.memory, s.objects, FreeAsync(s, a).0.memory, s.objects);
  }

  /** Freeing a pool takes its lent handles along without asking who is bound to
      them.  It leaves no facade dangling exactly if nothing is bound to any. */
  lemma PoolFreeServesIff(s: State, h: Addr)
    requires Valid(s) && NoDangling(s.memory, s.objects) && FreePool(s, h).1 == Ok
    ensures var t := FreePool(s, h).0;
            NoDangling(t.memory, t.objects) <==> forall b :: b in s.memory[h].out ==> !HasAsync(s, b)
  {
    LendingHas(s.memory, s.lent, h);
    if forall b :: b in s.memory[h].out ==> !HasAsync(s, b) {
      FreePoolServes(s, h);
    } else {
      var b :| b in s.memory[h].out && HasAsync(s, b);
      FreePoolDangles(s, h, b);
    }
    hide Valid, NoDangling, FreePool;
  }

  lemma FreePoolDangles(s: State, h: Addr, b: Addr)
    requires Valid(s) && FreePool(s, h).1 == Ok && b in s.memory[h].out && HasAsync(s, b)
    ensures var t := FreePool(s, h).0; !NoDangling(t.memory, t.objects)
  {
    var t := FreePool(s, h).0;
    DistinctLent(s, h);
    OwnersAreCounted(s);
    hide Counted, Lending, Exact, Facades, DeleteAll;
    var a :| a in s.memory && s.memory[a].Async? && s.memory[a].owner == b;
    assert Borrowed(s.memory, b) && a !in s.memory[h].out;
    assert a in t.memory && b !in t.memory;
  }

  lemma FreePoolServes(s: State, h: Addr)
    requires Valid(s) && NoDangling(s.memory, s.objects) && FreePool(s, h).1 == Ok
    requires forall b :: b in s.memory[h].out ==> !HasAsync(s, b)
    requires Lent(s, s.memory[h].obj) == s.memory[h].out.Values
    ensures var t := FreePool(s, h).0; NoDangling(t.memory, t.objects)
  {
    var t := FreePool(s, h).0;
    var out := s.memory[h].out;
    DistinctLent(s, h);
    OwnersAreCounted(s);
    hide Counted, Lending, Exact, Facades, DeleteAll;
    forall a | a in t.memory && t.memory[a].Async? ensures s.memory[a].owner in t.memory && s.memory[a].obj in t.objects {
      var o := s.memory[a].owner;
      assert HasAsync(s, o) && Serves(s.memory, s.objects, o, s.memory[a]);
    }
    StillServes(s.memory, s.objects, t.memory, t.objects);
  }

  /** A pool, a connection lent from it, and a facade bound to the lent handle. */
  const BORROWING := [PoolNew(Some(1), Some(10)), Acquire(1, Some(11), Some(2)), AsyncNew(2, Some(3))]
  const BORROWED := State(map[1 := Pool(10, false, map[2 := 11]), 2 := Client(11, false), 3 := Async(11, 2, false)],
                          {1, 2, 3}, map[2 := 1], {10, 11}, map[10 := {11}], Make(EMPTY, 2))

  lemma BorrowingRun()
    ensures Run(FRESH, BORROWING) == BORROWED && Fitting(FRESH, BORROWING)
  {
    var p, q, r := PoolNew(Some(1), Some(10)), Acquire(1, Some(11), Some(2)), AsyncNew(2, Some(3));
    var s1 := State(map[1 := Pool(10, false, map[])], {1}, map[], {10}, map[10 := {}], EMPTY);
    var s2 := State(map[1 := Pool(10, false, map[2 := 11]), 2 := Client(11, false)],
                    {1, 2}, map[], {10, 11}, map[10 := {11}], Make(EMPTY, 2));
    assert Apply(FRESH, p).0 == s1;
    assert Lent(s1, 10) + {11} == {11} && Lend(s1.memory, 1, 2, 11) == s2.memory;
    assert Apply(s1, q).0 == s2;
    assert Apply(s2, r).0 == BORROWED;
    hide Apply, Make;
    assert BORROWING[1..] == [q, r] && [q, r][1..] == [r] && [r][1..] == [];
    assert Run(s2, [r]) == BORROWED;
    assert Run(s1, [q, r]) == BORROWED;
  }

  /** So the care is needed: freeing that pool succeeds and leaves the facade with
      a connection that is gone. */
  lemma DanglingIsReachable()
    ensures Run(FRESH, BORROWING) == BORROWED && NoDangling(BORROWED.memory, BORROWED.objects)
    ensures var (t, code) := FreePool(BORROWED, 1); code == Ok && !NoDangling(t.memory, t.objects)
  {
    BorrowingRun();
    hide Run, Apply;
    var t := FreePool(BORROWED, 1).0;
    assert 3 in t.memory && 2 !in t.memory;
  }

  // ------------------------------------------------------------------------ runs

  function Run(s: State, ops: seq<Op>): State
    decreases |ops|
  {
    if ops == [] then s else Run(Apply(s, ops[0]).0, ops[1..])
  }

  /** The allocator and the C++ pools keep their promises throughout. */
  predicate Fitting(s: State, ops: seq<Op>)
    decreases |ops|
  {
    ops == [] || (Fits(s, ops[0]) && Fitting(Apply(s, ops[0]).0, ops[1..]))
  }

  /** Whoever frees a pool has first freed the facades bound to its lent handles. */
  predicate Careful(s: State, ops: seq<Op>)
    decreases |ops|
  {
    ops == [] ||
    ((ops[0].PoolFree? && IsPool(s, ops[0].pool) ==>
        forall b :: b in s.memory[ops[0].pool].out ==> !HasAsync(s, b))
     && Careful(Apply(s, ops[0]).0, ops[1..]))
  }

  /** In every run the books are right. */
  lemma {:induction false} RunValid(s: State, ops: seq<Op>)
    requires Valid(s) && Fitting(s, ops)
    ensures Valid(Run(s, ops))
    decreases |ops|
  {
    hide Valid;
    if ops != [] {
      ApplyValid(s, ops[0]);
      hide Apply;
      RunValid(Apply(s, ops[0]).0, ops[1..]);
    }
  }

  /** In every run in which pools are freed with care, no live facade is ever left
      without its connection or pool. */
  lemma {:induction false} RunServes(s: State, ops: seq<Op>)
    requires Valid(s) && Fitting(s, ops) && Careful(s, ops) && NoDangling(s.memory, s.objects)
    ensures var t := Run(s, ops); NoDangling(t.memory, t.objects)
    decreases |ops|
  {
    hide Valid, NoDangling;
    if ops != [] {
      ApplyValid(s, ops[0]);
      StepServes(s, ops[0]);
      hide Apply;
      RunServes(Apply(s, ops[0]).0, ops[1..]);
    }
  }

  lemma StepServes(s: State, op: Op)
    requires Valid(s) && Fits(s, op) && NoDangling(s.memory, s.objects)
    requires op.PoolFree? && IsPool(s, op.pool) ==> forall b :: b in s.memory[op.pool].out ==> !HasAsync(s, b)
    ensures var t := Apply(s, op).0; NoDangling(t.memory, t.objects)
  {
    hide Valid, NoDangling;
    if !op.PoolFree? {
      OwnerOutlivesFacade(s, op);
    } else if FreePool(s, op.pool).1 == Ok {
      PoolFreeServesIff(s, op.pool);
    } else {
      RefusedUnchanged(s, op);
    }
  }

  /** A connection that is lent comes back by one return: whatever is tried with
      its handle afterwards, at whichever pool, is refused and changes nothing,
      until the address is handed out again; and a pool that did not lend it
      refuses it. */
  lemma ReturnedOnce(s: State, h: Addr, client: Addr, other: Addr)
    requires Valid(s)
    ensures var (t, code) := Return(s, h, Some(client));
            code == Ok ==>
              && Return(t, other, Some(client)) == (t, Stale)
              && FreeClient(t, client) == (t, Stale)
              && (other != h && IsPool(s, other) ==> Return(s, other, Some(client)) == (s, InvalidArg))
  {
    if Return(s, h, Some(client)).1 == Ok {
      assert client in Out(s.memory, h);
      assert other != h && IsPool(s, other) ==> client !in Out(s.memory, other);
    }
    hide Counted, Exact, Distinct;
  }

  /** Conservation: the handles in the pools' tables are the loans still open, each
      in one table, each table showing what its C++ pool has lent; and with the
      loans ended they make up all the loans there ever were, each ended once. */
  lemma LoansConserved(ops: seq<Op>)
    requires Fitting(FRESH, ops)
    ensures var s := Run(FRESH, ops);
            && (forall p :: IsPool(s, p) ==> s.memory[p].out.Values == Lent(s, s.memory[p].obj))
            && (forall h :: h in s.loans.serial <==> exists p :: h in Out(s.memory, p))
            && (forall p, q, h :: h in Out(s.memory, p) && h in Out(s.memory, q) ==> p == q)
            && |s.loans.serial| + |s.loans.deletions| == s.loans.made
            && (forall n: nat :: s.loans.deletions[n] <= 1)
  {
    hide Valid, Run;
    FreshValid();
    RunValid(FRESH, ops);
    OpenLoans(Run(FRESH, ops));
    LoanCount(Run(FRESH, ops));
  }

  lemma LoanCount(s: State)
    requires Valid(s)
    ensures |s.loans.serial| + |s.loans.deletions| == s.loans.made
    ensures forall n: nat :: s.loans.deletions[n] <= 1
  {
    Conservation(s.loans, Lendings(s.memory));
    hide Counted, Distinct, Lending;
  }

  lemma OpenLoans(s: State)
    requires Valid(s)
    ensures forall p :: IsPool(s, p) ==> s.memory[p].out.Values == Lent(s, s.memory[p].obj)
    ensures forall h: Addr :: h in s.loans.serial <==> exists p :: h in Out(s.memory, p)
    ensures forall p, q, h :: h in Out(s.memory, p) && h in Out(s.memory, q) ==> p == q
  {
    assert s.loans.serial.Keys == Lendings(s.memory);
    forall h: Addr ensures h in s.loans.serial <==> Borrowed(s.memory, h) {
      assert h in Lendings(s.memory) <==> Borrowed(s.memory, h);
    }
    hide Counted, Distinct;
  }

  // ------------------------------------------------------------- what undoes what

  /** Nothing but the history of loans tells the two apart. */
  ghost predicate SameButLoans(s: State, t: State) {
    t == s.(loans := t.loans)
  }

  /** Giving back what was just lent restores all: the pool's table, the handle's
      storage, what the C++ pool has lent.  In between the handle may not be freed as
      if it were the user's own. */
  lemma ReturnUndoesBorrow(s: State, h: Addr, c: Obj, place: Addr)
    requires Valid(s) && IsPool(s, h) && place !in s.memory && c !in s.objects && !HasAsync(s, place)
    ensures var (t, code) := Borrow(s, h, Some(c), Some(place));
            && code == Ok && IsClient(t, place) && t.memory[place].obj == c
            && FreeClient(t, place) == (t, WrongState)
            && Return(t, h, Some(place)).1 == Ok && SameButLoans(s, Return(t, h, Some(place)).0)
  {
    var t := Borrow(s, h, Some(c), Some(place)).0;
    LendingHas(s.memory, s.lent, h);
    NotInTable(s, h, place, c);
    UnlendLend(s.memory, h, place, c);
    assert s.objects + {c} - {c} == s.objects;
    assert Lent(s, s.memory[h].obj) + {c} - {c} == Lent(s, s.memory[h].obj);
    assert t.lent[s.memory[h].obj := Lent(t, s.memory[h].obj) - {c}] == s.lent;
    assert s.registry + {place} - {place} == s.registry;
    hide Counted, Lending, Distinct, Exact, Make, Delete;
  }

  lemma NotInTable(s: State, h: Addr, place: Addr, c: Obj)
    requires Valid(s) && IsPool(s, h) && place !in s.memory && c !in s.objects
    ensures place !in s.memory[h].out && c !in Lent(s, s.memory[h].obj)
  {
    DistinctLent(s, h);
    LendingHas(s.memory, s.lent, h);
  }

  lemma UnlendLend(m: map<Addr, Cell>, p: Addr, h: Addr, c: Obj)
    requires p in m && m[p].Pool? && h !in m && h !in m[p].out
    ensures Unlend(Lend(m, p, h, c), p, h) == m
  {
    assert m[p].out[h := c] - {h} == m[p].out;
  }

  /** Freeing a facade that was just bound restores all; in between its owner can be
      neither freed nor returned. */
  lemma FreeUndoesBind(s: State, owner: Addr, pooled: bool, place: Addr)
    requires Valid(s) && place !in s.memory && (if pooled then IsPool(s, owner) else IsClient(s, owner))
    ensures var (t, code) := NewAsync(s, owner, pooled, Some(place));
            && code == Ok && FreeAsync(t, place) == (s, Ok)
            && FreeClient(t, owner).1 != Ok && FreePool(t, owner).1 != Ok
            && (forall p :: Return(t, p, Some(owner)).1 != Ok)
  {
    var t := NewAsync(s, owner, pooled, Some(place)).0;
    assert t.memory - {place} == s.memory && t.registry - {place} == s.registry;
    assert owner in s.binds ==> s.binds[owner] == |Facades(s.memory, owner)| > 0;
    assert Unbind(Bind(s.binds, owner), owner) == s.binds;
    hide Counted, Lending, Distinct, Exact;
  }
}
