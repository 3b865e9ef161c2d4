/** Book-keeping for objects whose addresses may be reused: every object ever
    made gets a serial number, and the ledger knows which are allocated, where,
    and how often each was deleted. */
module Ledger {
  import opened Base

  datatype Book = Book(made: nat, serial: map<Addr, nat>, at: map<nat, Addr>, deletions: multiset<nat>)

  const EMPTY := Book(0, map[], map[], multiset{})

  /** Exactly the objects at `live` are allocated, and every other object ever
      made was deleted exactly once. */
  ghost predicate Exact(b: Book, live: set<Addr>) {
    && b.serial.Keys == live
    && (forall w :: w in b.serial ==> b.serial[w] in b.at && b.at[b.serial[w]] == w)
    && (forall n :: n in b.at ==> n < b.made && b.at[n] in b.serial && b.serial[b.at[n]] == n)
    && (forall n: nat :: b.deletions[n] == if n < b.made && n !in b.at then 1 else 0)
  }

  function Make(b: Book, w: Addr): Book {
    Book(b.made + 1, b.serial[w := b.made], b.at[b.made := w], b.deletions)
  }

  function Delete(b: Book, w: Addr): Book {
    if w !in b.serial then b
    else Book(b.made, b.serial - {w}, b.at - {b.serial[w]}, b.deletions + multiset{b.serial[w]})
  }

  lemma MakeExact(b: Book, live: set<Addr>, w: Addr)
    requires Exact(b, live) && w !in live
    ensures Exact(Make(b, w), live + {w})
  {
  }

  lemma DeleteExact(b: Book, live: set<Addr>, w: Addr)
    requires Exact(b, live) && w in live
    ensures Exact(Delete(b, w), live - {w})
  {
  }

  /** Deleting several at once. */
  function DeleteAll(b: Book, ws: set<Addr>): Book {
    var serials := set w | w in ws && w in b.serial :: b.serial[w];
    Book(b.made, b.serial - ws, b.at - serials, b.deletions + multiset(serials))
  }

  lemma DeleteAllExact(b: Book, live: set<Addr>, ws: set<Addr>)
    requires Exact(b, live) && ws <= live
    ensures Exact(DeleteAll(b, ws), live - ws)
  {
  }

  lemma DeleteAllNone(b: Book)
    ensures DeleteAll(b, {}) == b
  {
    var d := DeleteAll(b, {});
    assert d.serial == b.serial && d.at == b.at && d.deletions == b.deletions;
  }

  lemma DeleteAllSnoc(b: Book, live: set<Addr>, ws: set<Addr>, w: Addr)
    requires Exact(b, live) && w in live && w !in ws
    ensures DeleteAll(b, ws + {w}) == Delete(DeleteAll(b, ws), w)
  {
    var some := set v | v in ws && v in b.serial :: b.serial[v];
    var all := set v | v in ws + {w} && v in b.serial :: b.serial[v];
    assert all == some + {b.serial[w]} && b.serial[w] !in some;
    assert multiset(all) == multiset(some) + multiset{b.serial[w]};
    assert b.serial - (ws + {w}) == b.serial - ws - {w};
    assert b.at - all == b.at - some - {b.serial[w]};
  }

  /** `later` follows `earlier`: nothing made is unmade, no deletion undone. */
  ghost predicate Follows(later: Book, earlier: Book) {
    earlier.made <= later.made && earlier.deletions <= later.deletions
  }

  /** The object at `w` is the same one in both. */
  ghost predicate Same(later: Book, earlier: Book, w: Addr) {
    w in earlier.serial && w in later.serial && earlier.serial[w] == later.serial[w]
  }

  lemma MakeSame(b: Book, live: set<Addr>, w: Addr)
    requires Exact(b, live) && w !in live
    ensures Follows(Make(b, w), b)
    ensures forall v :: v in live ==> Same(Make(b, w), b, v)
  {
  }

  lemma DeleteSame(b: Book, live: set<Addr>, w: Addr)
    requires Exact(b, live)
    ensures Follows(Delete(b, w), b)
    ensures forall v :: v in live && v != w ==> Same(Delete(b, w), b, v)
  {
  }

  lemma DeleteAllFollows(b: Book, ws: set<Addr>)
    ensures Follows(DeleteAll(b, ws), b)
  {
  }

  /** With nothing allocated any more, all were deleted, each once. */
  lemma AllDeletedOnce(b: Book)
    requires Exact(b, {})
    ensures forall n: nat :: b.deletions[n] == if n < b.made then 1 else 0
  {
    assert forall n :: n in b.at ==> false;
  }

  lemma {:induction false} SameSize(f: map<Addr, nat>, g: map<nat, Addr>)
    requires forall w :: w in f ==> f[w] in g && g[f[w]] == w
    requires forall n :: n in g ==> g[n] in f && f[g[n]] == n
    ensures |f| == |g|
  {
    if f == map[] {
      assert forall n :: n in g ==> false;
      assert g == map[];
    } else {
      var w :| w in f;
      var f1, g1 := f - {w}, g - {f[w]};
      SameSize(f1, g1);
      assert f1.Keys == f.Keys - {w} && g1.Keys == g.Keys - {f[w]};
    }
  }

  function Below(n: nat): (s: set<nat>)
    ensures |s| == n && forall k: nat :: k in s <==> k < n
  {
    if n == 0 then {} else Below(n - 1) + {n - 1}
  }

  /** Those still allocated and those deleted make up all there ever were. */
  lemma Conservation(b: Book, live: set<Addr>)
    requires Exact(b, live)
    ensures |b.serial| + |b.deletions| == b.made
  {
    var gone := Below(b.made) - b.at.Keys;
    assert b.deletions == multiset(gone);
    assert b.at.Keys <= Below(b.made);
    SameSize(b.serial, b.at);
    assert |gone| == |Below(b.made)| - |b.at.Keys|;
  }
}
