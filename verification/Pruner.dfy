/** Pruning of the package pool in packaging/repo/publish.py: version keys (56-64) and
    keeping the newest few of every package and architecture (91-107). */
module Pruner {
  import opened Base

  // ------------------------------------------------------------------- the keys

  /** A part of a version: (0, 0, text) or (1, number, "") in the source. */
  datatype Part = Text(s: string) | Num(n: nat)

  predicate Separator(c: char) { c in {'.', '-', '+'} }

  predicate Digits(s: string) { s != "" && forall i :: 0 <= i < |s| ==> '0' <= s[i] <= '9' }

  function Number(s: string): nat
    requires s == "" || Digits(s)
  {
    if s == "" then 0
    else
      assert s[..|s| - 1] != "" ==> Digits(s[..|s| - 1]);
      10 * Number(s[..|s| - 1]) + (s[|s| - 1] - '0') as nat
  }

  function ToPart(s: string): Part {
    if Digits(s) then Num(Number(s)) else Text(s)
  }

  /** vkey (56-64), with the part begun so far. */
  function KeyFrom(v: string, cur: string): seq<Part>
    decreases |v|
  {
    if v == "" then [ToPart(cur)]
    else if Separator(v[0]) then [ToPart(cur)] + KeyFrom(v[1..], "")
    else KeyFrom(v[1..], cur + [v[0]])
  }

  function VKey(v: string): seq<Part> { KeyFrom(v, "") }

  predicate TextLeq(a: string, b: string) {
    a == "" || (b != "" && (a[0] < b[0] || (a[0] == b[0] && TextLeq(a[1..], b[1..]))))
  }

  /** Every text comes before every number. */
  predicate PartLeq(a: Part, b: Part) {
    match (a, b)
    case (Text(s), Text(t)) => TextLeq(s, t)
    case (Text(_), Num(_)) => true
    case (Num(_), Text(_)) => false
    case (Num(m), Num(n)) => m <= n
  }

  /** As Python compares lists. */
  predicate KeyLeq(a: seq<Part>, b: seq<Part>) {
    a == [] || (b != [] && (if a[0] == b[0] then KeyLeq(a[1..], b[1..]) else PartLeq(a[0], b[0])))
  }

  lemma {:induction false} TextOrder(a: string, b: string, c: string)
    ensures TextLeq(a, b) || TextLeq(b, a)
    ensures TextLeq(a, b) && TextLeq(b, c) ==> TextLeq(a, c)
    ensures TextLeq(a, b) && TextLeq(b, a) ==> a == b
  {
    if a != "" && b != "" {
      TextOrder(a[1..], b[1..], if c == "" then "" else c[1..]);
      if a[0] == b[0] && a[1..] == b[1..] {
        assert a == [a[0]] + a[1..] && b == [b[0]] + b[1..];
      }
    }
  }

  lemma PartOrder(a: Part, b: Part, c: Part)
    ensures PartLeq(a, b) || PartLeq(b, a)
    ensures PartLeq(a, b) && PartLeq(b, c) ==> PartLeq(a, c)
    ensures PartLeq(a, b) && PartLeq(b, a) ==> a == b
  {
    TextOrder(if a.Text? then a.s else "", if b.Text? then b.s else "", if c.Text? then c.s else "");
  }

  /** The keys are totally ordered. */
  lemma {:induction false} KeyOrder(a: seq<Part>, b: seq<Part>, c: seq<Part>)
    ensures KeyLeq(a, b) || KeyLeq(b, a)
    ensures KeyLeq(a, b) && KeyLeq(b, c) ==> KeyLeq(a, c)
    ensures KeyLeq(a, b) && KeyLeq(b, a) ==> a == b
    decreases |a|
  {
    if a != [] && b != [] {
      PartOrder(a[0], b[0], if c == [] then a[0] else c[0]);
      PartOrder(b[0], if c == [] then a[0] else c[0], a[0]);
      KeyOrder(a[1..], b[1..], if c == [] then [] else c[1..]);
      if a[0] == b[0] && a[1..] == b[1..] {
        assert a == [a[0]] + a[1..] && b == [b[0]] + b[1..];
      }
    }
  }

  predicate Older(v: string, w: string) {
    KeyLeq(VKey(v), VKey(w)) && VKey(v) != VKey(w)
  }

  /** Versions are ordered by their keys, totally but for ties; and different ones can
      tie. */
  lemma VersionsArePreordered(u: string, v: string, w: string)
    ensures KeyLeq(VKey(u), VKey(v)) || KeyLeq(VKey(v), VKey(u))
    ensures KeyLeq(VKey(u), VKey(v)) && KeyLeq(VKey(v), VKey(w)) ==> KeyLeq(VKey(u), VKey(w))
    ensures !Older(u, v) && !Older(v, u) <==> VKey(u) == VKey(v)
    ensures VKey("1.2") == VKey("1-2")
  {
    KeyOrder(VKey(u), VKey(v), VKey(w));
    KeyOrder(VKey(v), VKey(u), VKey(w));
    assert KeyFrom("1.2", "") == KeyFrom(".2", "1") == [ToPart("1")] + KeyFrom("2", "");
    assert KeyFrom("1-2", "") == KeyFrom("-2", "1") == [ToPart("1")] + KeyFrom("2", "");
  }

  // ------------------------------------------------------ which files are kept

  /** A file of the pool, taken apart by the pattern; or one that does not match. */
  datatype Entry = Package(pkg: string, arch: string, ver: string, file: string) | Other(file: string)

  predicate SameGroup(e: Entry, f: Entry) {
    e.Package? && f.Package? && e.pkg == f.pkg && e.arch == f.arch
  }

  function Group(dir: set<Entry>, e: Entry): set<Entry> { set f | f in dir && SameGroup(e, f) }

  function Newer(group: set<Entry>, e: Entry): set<Entry>
  {
    set f | f in group && e.Package? && f.Package? && Older(e.ver, f.ver)
  }

  /** Those that are not older, ties and the file itself among them. */
  function AtLeast(group: set<Entry>, e: Entry): set<Entry> {
    set f | f in group && e.Package? && f.Package? && !Older(f.ver, e.ver)
  }

  function Elder(group: set<Entry>, e: Entry): set<Entry> {
    set f | f in group && e.Package? && f.Package? && Older(f.ver, e.ver)
  }

  /** Where the slice items[keep:] of n items begins, if it has any; a negative index
      counts from the end. */
  function Cut(n: nat, keep: int): nat {
    if keep >= 0 then keep else if n + keep >= 0 then n + keep else 0
  }

  /** A package ought to be kept while fewer of its group are newer than the slice
      leaves. */
  function Kept(dir: set<Entry>, keep: int): set<Entry> {
    set e | e in dir && (e.Other? || |Newer(Group(dir, e), e)| < Cut(|Group(dir, e)|, keep))
  }

  /** No two versions of a package and architecture tie. */
  ghost predicate NoTies(dir: set<Entry>) {
    forall e, f :: e in dir && f in dir && SameGroup(e, f) && VKey(e.ver) == VKey(f.ver) ==> e == f
  }

  /** No tie straddles the cut: of packages that tie, either all are among the newest
      that are kept or none is. */
  ghost predicate NoStraddle(dir: set<Entry>, keep: int) {
    forall e :: e in dir && e.Package? ==> !Straddles(Group(dir, e), e, keep)
  }

  predicate Straddles(group: set<Entry>, e: Entry, keep: int) {
    |Newer(group, e)| < Cut(|group|, keep) < |AtLeast(group, e)|
  }

  ghost predicate Packages(g: set<Entry>) { forall e :: e in g ==> e.Package? }

  lemma OlderTrans(a: string, b: string, c: string)
    ensures Older(a, b) && Older(b, c) ==> Older(a, c)
    ensures !(Older(a, b) && Older(b, a))
    ensures VKey(a) != VKey(b) ==> Older(a, b) || Older(b, a)
  {
    KeyOrder(VKey(a), VKey(b), VKey(c));
    KeyOrder(VKey(b), VKey(c), VKey(a));
  }

  /** What is not older than one that is not older is not older. */
  lemma NotOlderTrans(a: string, b: string, c: string)
    ensures !Older(a, b) && !Older(b, c) ==> !Older(a, c)
  {
    KeyOrder(VKey(c), VKey(b), VKey(a));
    KeyOrder(VKey(b), VKey(a), VKey(c));
    KeyOrder(VKey(a), VKey(c), VKey(b));
  }

  lemma Subset<T>(a: set<T>, b: set<T>)
    requires a <= b
    ensures |a| <= |b|
  {
    assert b == a + (b - a);
  }

  /** How e stands to f decides how those above e stand to those above f. */
  lemma Above(g: set<Entry>, e: Entry, f: Entry)
    requires e in g && f in g && Packages(g)
    ensures Older(e.ver, f.ver) ==> |AtLeast(g, f)| <= |Newer(g, e)|
    ensures !Older(e.ver, f.ver) ==> |Newer(g, e)| <= |Newer(g, f)| && |AtLeast(g, e)| <= |AtLeast(g, f)|
  {
    hide Older;
    if Older(e.ver, f.ver) {
      forall x | x in AtLeast(g, f) ensures x in Newer(g, e) {
        OlderTrans(e.ver, f.ver, x.ver);
        NotOlderTrans(x.ver, f.ver, e.ver);
        NotBoth(x.ver, f.ver, e.ver);
      }
      Subset(AtLeast(g, f), Newer(g, e));
    } else {
      forall x | x in Newer(g, e) ensures x in Newer(g, f) { NotBoth(x.ver, e.ver, f.ver); }
      Subset(Newer(g, e), Newer(g, f));
      forall x | x in AtLeast(g, e) ensures x in AtLeast(g, f) { NotOlderTrans(x.ver, e.ver, f.ver); }
      Subset(AtLeast(g, e), AtLeast(g, f));
    }
  }

  lemma NotBoth(x: string, e: string, f: string)
    ensures Older(e, x) && !Older(e, f) ==> Older(f, x)
    ensures !Older(x, e) && Older(f, e) ==> Older(f, x)
  {
    NotOlderTrans(f, x, e);
    NotOlderTrans(x, f, e);
    NotOlderTrans(e, f, x);
    NotOlderTrans(f, e, x);
    NotOlderTrans(x, e, f);
    OlderTrans(e, x, f);
    OlderTrans(f, e, x);
  }

  lemma ElderRest(g: set<Entry>, e: Entry)
    requires Packages(g) && e.Package?
    ensures |AtLeast(g, e)| + |Elder(g, e)| == |g|
  {
    assert g == AtLeast(g, e) + Elder(g, e);
    assert AtLeast(g, e) !! Elder(g, e);
  }

  lemma GroupParts(dir: set<Entry>, e: Entry)
    requires e in dir && e.Package?
    ensures e in Group(dir, e) && Packages(Group(dir, e))
    ensures forall f :: f in Group(dir, e) ==> f in dir && Group(dir, f) == Group(dir, e)
  {
  }

  // ---------------------------------------------------------------- the algorithm

  function InsertDesc(e: Entry, t: seq<Entry>): seq<Entry> {
    if t == [] then [e]
    else if e.Package? && t[0].Package? && Older(t[0].ver, e.ver) then [e] + t
    else [t[0]] + InsertDesc(e, t[1..])
  }

  /** list.sort with reverse=True: newest first, ties as they were. */
  function SortDesc(s: seq<Entry>): seq<Entry> {
    if s == [] then [] else InsertDesc(s[|s| - 1], SortDesc(s[..|s| - 1]))
  }

  /** items[keep:]. */
  function Tail(s: seq<Entry>, keep: int): seq<Entry> {
    if Cut(|s|, keep) <= |s| then s[Cut(|s|, keep)..] else []
  }

  datatype Key = Key(pkg: string, arch: string)

  function KeyOf(e: Entry): Key
    requires e.Package?
  {
    Key(e.pkg, e.arch)
  }

  /** The files of one package and architecture, in the order of the listing. */
  function GroupOf(listing: seq<Entry>, key: Key): seq<Entry> {
    if listing == [] then []
    else
      var last := listing[|listing| - 1];
      GroupOf(listing[..|listing| - 1], key) + (if last.Package? && KeyOf(last) == key then [last] else [])
  }

  /** What prune takes away, given the order in which the directory is listed. */
  function Removed(listing: seq<Entry>, keep: int): set<Entry> {
    set e | e in listing && e.Package? && e in Tail(SortDesc(GroupOf(listing, KeyOf(e))), keep)
  }

  function Members(s: seq<Entry>): set<Entry> { set e | e in s }

  ghost predicate Descending(t: seq<Entry>) {
    && (forall i :: 0 <= i < |t| ==> t[i].Package?)
    && (forall i, j :: 0 <= i < j < |t| ==> !Older(t[i].ver, t[j].ver))
  }

  lemma {:induction false} InsertMembers(e: Entry, t: seq<Entry>)
    ensures multiset(InsertDesc(e, t)) == multiset(t) + multiset{e}
    ensures forall x :: x in InsertDesc(e, t) <==> x in t || x == e
  {
    if t != [] && !(e.Package? && t[0].Package? && Older(t[0].ver, e.ver)) {
      InsertMembers(e, t[1..]);
      assert t == [t[0]] + t[1..];
    }
  }

  lemma {:induction false} InsertDescends(e: Entry, t: seq<Entry>)
    requires Descending(t) && e.Package?
    ensures Descending(InsertDesc(e, t))
  {
    if t == [] {
    } else if Older(t[0].ver, e.ver) {
      forall j | 0 <= j < |t| ensures !Older(e.ver, t[j].ver) {
        OlderTrans(t[0].ver, e.ver, t[j].ver);
        OlderTrans(t[0].ver, t[j].ver, t[0].ver);
        OlderTrans(e.ver, t[j].ver, e.ver);
      }
    } else {
      var rest := InsertDesc(e, t[1..]);
      InsertDescends(e, t[1..]);
      InsertMembers(e, t[1..]);
      forall j | 0 <= j < |rest| ensures !Older(t[0].ver, rest[j].ver) {
        assert rest[j] in rest;
        if rest[j] != e {
          var k :| 0 <= k < |t[1..]| && t[1..][k] == rest[j];
          assert t[k + 1] == rest[j];
        }
      }
    }
  }

  lemma {:induction false} SortKeepsAll(s: seq<Entry>)
    ensures multiset(SortDesc(s)) == multiset(s)
  {
    if s != [] {
      var init, last := s[..|s| - 1], s[|s| - 1];
      SortKeepsAll(init);
      InsertMembers(last, SortDesc(init));
      hide InsertDesc;
      assert s == init + [last];
    }
  }

  lemma {:induction false} SortDescends(s: seq<Entry>)
    requires forall i :: 0 <= i < |s| ==> s[i].Package?
    ensures Descending(SortDesc(s))
  {
    hide Descending, InsertDesc;
    if s == [] {
      EmptyDescends();
    } else {
      SortDescends(s[..|s| - 1]);
      InsertDescends(s[|s| - 1], SortDesc(s[..|s| - 1]));
    }
  }

  lemma EmptyDescends()
    ensures Descending([])
  {
  }

  lemma Sorted(s: seq<Entry>)
    requires forall i :: 0 <= i < |s| ==> s[i].Package?
    ensures Descending(SortDesc(s)) && multiset(SortDesc(s)) == multiset(s)
  {
    SortKeepsAll(s);
    SortDescends(s);
    hide *;
  }

  lemma SameMembers(s: seq<Entry>, t: seq<Entry>)
    requires multiset(s) == multiset(t)
    ensures |s| == |t| && Members(s) == Members(t)
  {
    forall x ensures x in s <==> x in t {
      assert x in s <==> x in multiset(s);
      assert x in t <==> x in multiset(t);
    }
    assert |multiset(s)| == |s| && |multiset(t)| == |t|;
  }

  /** In a descending list all that are newer come before, and all that come before are
      not older. */
  lemma PlaceBounds(t: seq<Entry>, i: nat)
    requires Descending(t) && NoDup(t) && i < |t|
    ensures |Newer(Members(t), t[i])| <= i < |AtLeast(Members(t), t[i])|
  {
    hide Older;
    var g := Members(t);
    OlderTrans(t[i].ver, t[i].ver, t[i].ver);
    forall x | x in Newer(g, t[i]) ensures x in Members(t[..i]) {
      var j :| 0 <= j < |t| && t[j] == x;
      assert t[..i][j] == x;
    }
    SizeOf(t[..i]);
    Subset(Newer(g, t[i]), Members(t[..i]));
    forall x | x in Members(t[..i + 1]) ensures x in AtLeast(g, t[i]) {
      var j :| 0 <= j < |t[..i + 1]| && t[..i + 1][j] == x;
      assert t[j] == x;
    }
    SizeOf(t[..i + 1]);
    Subset(Members(t[..i + 1]), AtLeast(g, t[i]));
  }

  lemma {:induction false} SizeOf(s: seq<Entry>)
    requires NoDup(s)
    ensures |Members(s)| == |s|
  {
    if s != [] {
      var init, last := s[..|s| - 1], s[|s| - 1];
      SizeOf(init);
      assert Members(s) == Members(init) + {last};
      assert last !in init;
    }
  }

  lemma {:induction false} GroupOfMembers(listing: seq<Entry>, e: Entry)
    requires NoDup(listing) && e.Package?
    ensures var s := GroupOf(listing, KeyOf(e)); Members(s) == Group(Members(listing), e) && NoDup(s)
  {
    if listing != [] {
      var init, last := listing[..|listing| - 1], listing[|listing| - 1];
      var s := GroupOf(init, KeyOf(e));
      GroupOfMembers(init, e);
      assert last !in init && Members(listing) == Members(init) + {last};
      assert last !in s by { assert last in s ==> last in Members(s); }
      forall x ensures x in Members(GroupOf(listing, KeyOf(e))) <==> x in Group(Members(listing), e) {
        assert x in s <==> x in Members(s);
      }
    }
  }

  lemma NoDupSame(s: seq<Entry>, t: seq<Entry>)
    requires NoDup(s) && multiset(s) == multiset(t)
    ensures NoDup(t)
  {
    forall i, j | 0 <= i < j < |t| ensures t[i] != t[j] {
      var a, b := t[..j], t[j..];
      assert t == a + b && multiset(t) == multiset(a) + multiset(b);
      assert a[i] in multiset(a) && b[0] in multiset(b);
      CountOne(s, t[j]);
    }
  }

  lemma CountOne(s: seq<Entry>, x: Entry)
    requires NoDup(s)
    ensures multiset(s)[x] <= 1
  {
    if x in s {
      var i :| 0 <= i < |s| && s[i] == x;
      assert s == s[..i] + [x] + s[i + 1..];
      assert x !in s[..i] && x !in s[i + 1..];
    }
  }

  /** The sorted group of e, as prune sees it. */
  function SortedGroupOf(listing: seq<Entry>, e: Entry): seq<Entry>
    requires e.Package?
  {
    SortDesc(GroupOf(listing, KeyOf(e)))
  }

  lemma SortedGroupParts(listing: seq<Entry>, e: Entry)
    requires NoDup(listing) && e.Package?
    ensures var t := SortedGroupOf(listing, e); var g := Group(Members(listing), e);
            Descending(t) && NoDup(t) && Members(t) == g && |t| == |g|
  {
    hide GroupOf, SortDesc, Descending;
    var s := GroupOf(listing, KeyOf(e));
    var t := SortDesc(s);
    GroupOfMembers(listing, e);
    forall i | 0 <= i < |s| ensures s[i].Package? { assert s[i] in Members(s); }
    Sorted(s);
    SameMembers(t, s);
    NoDupSame(s, t);
    SizeOf(t);
  }

  /** A package's place among its group, and what it decides. */
  lemma PlaceOf(listing: seq<Entry>, keep: int, e: Entry) returns (i: nat)
    requires NoDup(listing) && e in listing && e.Package?
    ensures var g := Group(Members(listing), e); var t := SortedGroupOf(listing, e);
            && i < |t| == |g| && t[i] == e
            && |Newer(g, e)| <= i < |AtLeast(g, e)|
            && (e in Removed(listing, keep) <==> Cut(|g|, keep) <= i)
  {
    hide Descending, Newer, AtLeast, GroupOf, SortDesc;
    var t := SortedGroupOf(listing, e);
    SortedGroupParts(listing, e);
    assert e in Members(listing) && e in Group(Members(listing), e);
    assert e in Members(t);
    i :| 0 <= i < |t| && t[i] == e;
    PlaceBounds(t, i);
    PlaceInTail(t, i, keep);
  }

  lemma PlaceInTail(t: seq<Entry>, i: nat, keep: int)
    requires NoDup(t) && i < |t|
    ensures t[i] in Tail(t, keep) <==> i >= Cut(|t|, keep)
  {
    var c := Cut(|t|, keep);
    if c <= i {
      assert t[c..][i - c] == t[i];
    } else if c <= |t| {
      forall j | 0 <= j < |t[c..]| ensures t[c..][j] != t[i] { }
    }
  }

  /** What prune leaves of a directory, given how it is listed. */
  function Left(listing: seq<Entry>, keep: int): set<Entry> { Members(listing) - Removed(listing, keep) }

  /** However the directory is listed, ties or not, and for any `keep`: each group is
      left with as many files as the slice says, and none that is left is older than
      one that is taken away. */
  lemma GroupKeeps(listing: seq<Entry>, keep: int, e: Entry)
    requires NoDup(listing) && e in listing && e.Package?
    ensures var n := |Group(Members(listing), e)|;
            |Group(Left(listing, keep), e)| == if Cut(n, keep) <= n then Cut(n, keep) else n
    ensures forall f, h :: f in Group(Left(listing, keep), e) && h in Group(Removed(listing, keep), e) ==> !Older(f.ver, h.ver)
  {
    hide GroupOf, SortDesc, Older;
    var t := SortedGroupOf(listing, e);
    var dir, g := Members(listing), Group(Members(listing), e);
    var c := if Cut(|g|, keep) <= |g| then Cut(|g|, keep) else |g|;
    SortedGroupParts(listing, e);
    forall f | f in g ensures SortedGroupOf(listing, f) == t && f in listing { }
    hide SortedGroupOf;
    forall f | f in g ensures f in Group(Left(listing, keep), e) <==> f in Members(t[..c]) {
      assert f in Members(t);
      var i :| 0 <= i < |t| && t[i] == f;
      FateByPlace(listing, keep, f, i);
      if i < c { assert t[..c][i] == f; }
      if f in Members(t[..c]) {
        var j :| 0 <= j < |t[..c]| && t[..c][j] == f;
        assert t[j] == t[i];
      }
    }
    assert Group(Left(listing, keep), e) == Members(t[..c]);
    SizeOf(t[..c]);
    forall f, h | f in Group(Left(listing, keep), e) && h in Group(Removed(listing, keep), e) ensures !Older(f.ver, h.ver) {
      assert f in Members(t) && h in Members(t);
      var i :| 0 <= i < |t| && t[i] == f;
      var j :| 0 <= j < |t| && t[j] == h;
      FateByPlace(listing, keep, f, i);
      FateByPlace(listing, keep, h, j);
    }
  }

  lemma FateByPlace(listing: seq<Entry>, keep: int, e: Entry, i: nat)
    requires NoDup(listing) && e in listing && e.Package? && i < |SortedGroupOf(listing, e)| && SortedGroupOf(listing, e)[i] == e
    ensures e in Removed(listing, keep) <==> Cut(|Group(Members(listing), e)|, keep) <= i
  {
    hide Descending, Newer, AtLeast, GroupOf, SortDesc;
    var t := SortedGroupOf(listing, e);
    SortedGroupParts(listing, e);
    PlaceInTail(t, i, keep);
  }

  /** If no tie straddles the cut, what prune leaves does not depend on how the
      directory is listed: it is what ought to be kept. */
  lemma PruneKeeps(listing: seq<Entry>, keep: int)
    requires NoDup(listing) && NoStraddle(Members(listing), keep)
    ensures Left(listing, keep) == Kept(Members(listing), keep)
  {
    hide Newer, AtLeast, Cut;
    var dir := Members(listing);
    forall e | e in dir ensures e in Removed(listing, keep) <==> e.Package? && e !in Kept(dir, keep) {
      if e.Package? {
        var i := PlaceOf(listing, keep, e);
        assert !Straddles(Group(dir, e), e, keep);
      }
    }
  }

  // ------------------------------------------------------- pruning a bit at a time

  /** A directory `a` is pruned, the files `b` are copied in, and it is pruned again;
      or all of them are pruned at once; with the listings met on the way. */
  ghost predicate Listings(a: set<Entry>, b: set<Entry>, keep: int, old_: seq<Entry>, next: seq<Entry>, all: seq<Entry>) {
    && NoDup(old_) && NoDup(next) && NoDup(all)
    && Members(old_) == a && Members(next) == Left(old_, keep) + b && Members(all) == a + b
  }

  /** Pruning what was pruned before, plus new files, leaves what pruning all of them
      from scratch would, however the directories are listed. */
  ghost predicate Incremental(a: set<Entry>, b: set<Entry>, keep: int) {
    forall old_, next, all :: Listings(a, b, keep, old_, next, all) ==> Left(next, keep) == Left(all, keep)
  }

  /** For `keep` == -k: a group is too small to be left with anything, or all of the
      old files that its first pruning may take are copied in again. */
  ghost predicate Recopied(a: set<Entry>, b: set<Entry>, k: int) {
    forall e :: e in a + b && e.Package? ==> |Group(a + b, e)| <= k || OldestIn(Group(a, e), b, k)
  }

  ghost predicate OldestIn(g: set<Entry>, b: set<Entry>, k: int) {
    forall f :: f in g && |Elder(g, f)| < k ==> f in b
  }

  lemma Monotone(g: set<Entry>, h: set<Entry>, e: Entry)
    requires g <= h
    ensures |Newer(g, e)| <= |Newer(h, e)| && |AtLeast(g, e)| <= |AtLeast(h, e)|
  {
    Subset(Newer(g, e), Newer(h, e));
    Subset(AtLeast(g, e), AtLeast(h, e));
  }

  lemma GroupMonotone(a: set<Entry>, c: set<Entry>, e: Entry)
    requires a <= c
    ensures Group(a, e) <= Group(c, e)
  {
  }

  /** The files of a group that are kept whatever the listing. */
  ghost function Safe(g: set<Entry>, keep: nat): set<Entry> { set x | x in g && |AtLeast(g, x)| <= keep }

  /** They survive in every part of the directory. */
  lemma SafeSurvives(listing: seq<Entry>, keep: nat, e: Entry, g: set<Entry>)
    requires NoDup(listing) && e in listing && e.Package? && Group(Members(listing), e) <= g && |AtLeast(g, e)| <= keep
    ensures e !in Removed(listing, keep)
  {
    hide Removed, AtLeast, Newer, SortedGroupOf;
    var i := PlaceOf(listing, keep, e);
    Monotone(Group(Members(listing), e), g, e);
  }

  /** There are `keep` of them if no tie straddles the cut. */
  lemma EnoughSafe(all: seq<Entry>, keep: nat, e: Entry)
    requires NoDup(all) && NoStraddle(Members(all), keep) && e in all && e.Package? && keep <= |Group(Members(all), e)|
    ensures |Safe(Group(Members(all), e), keep)| >= keep
  {
    hide SortedGroupOf, Newer, AtLeast, Descending;
    var g, t := Group(Members(all), e), SortedGroupOf(all, e);
    SortedGroupParts(all, e);
    GroupParts(Members(all), e);
    forall x | x in Members(t[..keep]) ensures x in Safe(g, keep) {
      var i :| 0 <= i < |t[..keep]| && t[..keep][i] == x;
      assert x in Members(t) && t[i] == x;
      PlaceBounds(t, i);
      assert !Straddles(g, x, keep);
    }
    SizeOf(t[..keep]);
    Subset(Members(t[..keep]), Safe(g, keep));
  }

  /** And they are newer than any that is taken away. */
  lemma SafeIsNewer(all: seq<Entry>, keep: nat, e: Entry, x: Entry)
    requires NoDup(all) && e in all && e.Package? && |Newer(Group(Members(all), e), e)| >= keep
    requires x in Safe(Group(Members(all), e), keep)
    ensures Older(e.ver, x.ver)
  {
    hide Older, SortedGroupOf, Removed;
    var g := Group(Members(all), e);
    GroupParts(Members(all), e);
    var i := PlaceOf(all, keep, x);
    Above(g, e, x);
  }

  /** With `keep` at least zero, a package has the same fate both ways. */
  lemma SameFate(a: set<Entry>, b: set<Entry>, keep: nat, old_: seq<Entry>, next: seq<Entry>, all: seq<Entry>, e: Entry)
    requires Listings(a, b, keep, old_, next, all) && NoStraddle(a + b, keep) && e in a + b && e.Package?
    ensures e in Left(next, keep) <==> e in Left(all, keep)
  {
    hide Removed, NoStraddle, Newer, AtLeast, SortedGroupOf, Safe;
    var g := Group(a + b, e);
    assert a <= a + b && Members(next) <= a + b;
    GroupMonotone(a, a + b, e);
    GroupMonotone(Members(next), a + b, e);
    GroupParts(a + b, e);
    if |AtLeast(g, e)| <= keep {
      SafeStays(a, b, keep, old_, next, all, e);
      SafeSurvives(next, keep, e, g);
      SafeSurvives(all, keep, e, g);
    } else {
      NotSafe(a + b, keep, e);
      RemovedBothWays(a, b, keep, old_, next, all, e);
    }
  }

  lemma NotSafe(dir: set<Entry>, keep: nat, e: Entry)
    requires NoStraddle(dir, keep) && e in dir && e.Package? && |AtLeast(Group(dir, e), e)| > keep
    ensures |Newer(Group(dir, e), e)| >= keep
  {
    assert !Straddles(Group(dir, e), e, keep);
    hide Newer, AtLeast;
  }

  lemma SafeStays(a: set<Entry>, b: set<Entry>, keep: nat, old_: seq<Entry>, next: seq<Entry>, all: seq<Entry>, e: Entry)
    requires Listings(a, b, keep, old_, next, all) && e in a + b && e.Package? && |AtLeast(Group(a + b, e), e)| <= keep
    ensures e in next
  {
    hide Removed, AtLeast;
    assert e in Members(next) <==> e in next;
    if e !in b {
      assert e in Members(old_);
      GroupMonotone(a, a + b, e);
      SafeSurvives(old_, keep, e, Group(a + b, e));
    }
  }

  lemma RemovedBothWays(a: set<Entry>, b: set<Entry>, keep: nat, old_: seq<Entry>, next: seq<Entry>, all: seq<Entry>, e: Entry)
    requires Listings(a, b, keep, old_, next, all) && NoStraddle(a + b, keep) && e in a + b && e.Package?
    requires |Newer(Group(a + b, e), e)| >= keep
    ensures e !in Left(next, keep) && e !in Left(all, keep)
  {
    hide Removed, NoStraddle, AtLeast, SortedGroupOf, Older;
    var g, h := Group(a + b, e), Group(Members(next), e);
    assert e in Members(all);
    var i := PlaceOf(all, keep, e);
    if e in next {
      Subset(Newer(g, e), g);
      EnoughSafe(all, keep, e);
      GroupParts(a + b, e);
      forall x | x in Safe(g, keep) ensures x in Newer(h, e) {
        SafeIsNewer(all, keep, e, x);
        SafeStays(a, b, keep, old_, next, all, x);
        assert x in Members(next);
      }
      Subset(Safe(g, keep), Newer(h, e));
      var j := PlaceOf(next, keep, e);
    }
  }

  lemma IncrementalAtLeastZero(a: set<Entry>, b: set<Entry>, keep: nat, old_: seq<Entry>, next: seq<Entry>, all: seq<Entry>)
    requires Listings(a, b, keep, old_, next, all) && NoStraddle(a + b, keep)
    ensures Left(next, keep) == Left(all, keep)
  {
    hide Removed, NoStraddle;
    forall e ensures e in Left(next, keep) <==> e in Left(all, keep) {
      if e in a + b && e.Package? {
        SameFate(a, b, keep, old_, next, all, e);
      } else {
        OthersStay(old_, keep, e);
        OthersStay(next, keep, e);
        OthersStay(all, keep, e);
      }
    }
  }

  /** prune takes away packages of the directory only. */
  lemma OthersStay(listing: seq<Entry>, keep: int, e: Entry)
    ensures e in Removed(listing, keep) ==> e in listing && e.Package?
    ensures e in Members(listing) <==> e in listing
  {
  }

  // -- a negative `keep`

  /** What a first pruning takes away has fewer than k older ones. */
  lemma TakenIsOld(listing: seq<Entry>, k: int, e: Entry)
    requires NoDup(listing) && e in listing && e.Package? && k > 0 && e in Removed(listing, -k)
    ensures |Elder(Group(Members(listing), e), e)| < k
  {
    hide Removed, SortedGroupOf, Newer, AtLeast, Elder;
    var i := PlaceOf(listing, -k, e);
    GroupParts(Members(listing), e);
    ElderRest(Group(Members(listing), e), e);
  }

  lemma SameFateNegative(a: set<Entry>, b: set<Entry>, k: int, old_: seq<Entry>, next: seq<Entry>, all: seq<Entry>, e: Entry)
    requires k > 0 && Listings(a, b, -k, old_, next, all) && NoStraddle(a + b, -k) && Recopied(a, b, k) && e in a + b && e.Package?
    ensures e in Left(next, -k) <==> e in Left(all, -k)
  {
    hide Removed, NoStraddle, Recopied, Newer, AtLeast, SortedGroupOf, Elder;
    var g, h := Group(a + b, e), Group(Members(next), e);
    assert e in Members(all) && Members(next) <= a + b;
    GroupMonotone(Members(next), a + b, e);
    Subset(h, g);
    var i := PlaceOf(all, -k, e);
    if |g| <= k {
      if e in next { var j := PlaceOf(next, -k, e); }
    } else {
      NothingLost(a, b, k, old_, next, all, e);
      assert e in g by { GroupParts(a + b, e); }
      assert e in next;
      var j := PlaceOf(next, -k, e);
      NotStraddling(a + b, -k, e);
    }
  }

  lemma NotStraddling(dir: set<Entry>, keep: int, e: Entry)
    requires NoStraddle(dir, keep) && e in dir && e.Package?
    ensures var g := Group(dir, e); |Newer(g, e)| >= Cut(|g|, keep) || |AtLeast(g, e)| <= Cut(|g|, keep)
  {
    assert !Straddles(Group(dir, e), e, keep);
    hide Newer, AtLeast;
  }

  /** In a group of more than k the first pruning takes only what is copied in again. */
  lemma NothingLost(a: set<Entry>, b: set<Entry>, k: int, old_: seq<Entry>, next: seq<Entry>, all: seq<Entry>, e: Entry)
    requires k > 0 && Listings(a, b, -k, old_, next, all) && Recopied(a, b, k) && e in a + b && e.Package? && |Group(a + b, e)| > k
    ensures Group(Members(next), e) == Group(a + b, e)
  {
    hide Removed, Elder;
    assert OldestIn(Group(a, e), b, k);
    forall f | f in Group(a + b, e) ensures f in Members(next) {
      if f !in b {
        assert f in Members(old_) && Group(a, f) == Group(a, e);
        if f in Removed(old_, -k) { TakenIsOld(old_, k, f); }
      }
    }
  }

  lemma IncrementalNegative(a: set<Entry>, b: set<Entry>, k: int, old_: seq<Entry>, next: seq<Entry>, all: seq<Entry>)
    requires k > 0 && Listings(a, b, -k, old_, next, all) && NoStraddle(a + b, -k) && Recopied(a, b, k)
    ensures Left(next, -k) == Left(all, -k)
  {
    hide Removed, NoStraddle, Recopied;
    var keep := -k;
    forall e ensures e in Left(next, keep) <==> e in Left(all, keep) {
      if e in a + b && e.Package? {
        SameFateNegative(a, b, k, old_, next, all, e);
      } else {
        OthersStay(old_, keep, e);
        OthersStay(next, keep, e);
        OthersStay(all, keep, e);
      }
    }
  }

  // -- the conditions are needed

  lemma {:induction false} Enumerate(dir: set<Entry>) returns (listing: seq<Entry>)
    ensures NoDup(listing) && Members(listing) == dir
    decreases |dir|
  {
    if dir == {} {
      listing := [];
    } else {
      var e :| e in dir;
      var rest := Enumerate(dir - {e});
      listing := WithLast(rest, dir, e);
    }
  }

  lemma WithLast(rest: seq<Entry>, dir: set<Entry>, e: Entry) returns (listing: seq<Entry>)
    requires NoDup(rest) && e in dir && Members(rest) == dir - {e}
    ensures listing == rest + [e] && NoDup(listing) && Members(listing) == dir
  {
    listing := rest + [e];
    assert e !in rest by { assert e in rest ==> e in Members(rest); }
    forall x ensures x in listing <==> x in dir { assert x in rest <==> x in Members(rest); }
  }

  lemma {:induction false} InsertPlace(e: Entry, t: seq<Entry>) returns (p: nat)
    requires Descending(t) && e.Package?
    ensures var r := InsertDesc(e, t);
            p < |r| && r[p] == e && forall j :: p < j < |r| ==> r[j].Package? && Older(r[j].ver, e.ver)
  {
    hide Older;
    if t == [] {
      p := 0;
    } else if Older(t[0].ver, e.ver) {
      p := 0;
      forall j | 0 <= j < |t| ensures Older(t[j].ver, e.ver) { NotBoth(e.ver, t[0].ver, t[j].ver); NotBoth(t[j].ver, t[0].ver, e.ver); Fall(t[j].ver, t[0].ver, e.ver); }
    } else {
      var q := InsertPlace(e, t[1..]);
      p := q + 1;
    }
  }

  lemma Fall(x: string, y: string, e: string)
    requires Older(y, e) && (x == y || !Older(y, x))
    ensures Older(x, e)
  {
    NotBoth(e, y, x);
    OlderTrans(y, e, y);
    NotOlderTrans(y, x, e);
    NotOlderTrans(x, e, y);
    NotOlderTrans(e, x, y);
    OlderTrans(y, e, x);
    OlderTrans(x, e, x);
    KeyOrder(VKey(x), VKey(e), VKey(y));
  }

  /** A package that is listed last comes after all that it ties with. */
  lemma LastPlace(rest: seq<Entry>, keep: int, e: Entry)
    requires NoDup(rest + [e]) && e.Package?
    ensures var g := Group(Members(rest + [e]), e);
            e in Removed(rest + [e], keep) <==> Cut(|g|, keep) < |AtLeast(g, e)|
  {
    hide Removed, Newer, Descending, InsertDesc, Older;
    var listing := rest + [e];
    var g := Group(Members(listing), e);
    assert listing[..|rest|] == rest && listing[|rest|] == e;
    var s := GroupOf(rest, KeyOf(e));
    assert GroupOf(listing, KeyOf(e)) == s + [e];
    assert (s + [e])[..|s|] == s;
    assert SortedGroupOf(listing, e) == InsertDesc(e, SortDesc(s));
    hide GroupOf, SortDesc;
    NoDupInit(rest, e);
    SortedGroupParts(rest, e);
    var p := InsertPlace(e, SortDesc(s));
    var t := SortedGroupOf(listing, e);
    SortedGroupParts(listing, e);
    FateByPlace(listing, keep, e, p);
    PlaceBounds(t, p);
    forall x | x in AtLeast(g, e) ensures x in Members(t[..p + 1]) {
      assert x in Members(t);
      var j :| 0 <= j < |t| && t[j] == x;
      assert t[..p + 1][j] == x;
    }
    SizeOf(t[..p + 1]);
    Subset(AtLeast(g, e), Members(t[..p + 1]));
  }

  lemma NoDupInit(rest: seq<Entry>, e: Entry)
    requires NoDup(rest + [e])
    ensures NoDup(rest)
  {
    forall i, j | 0 <= i < j < |rest| ensures rest[i] != rest[j] { assert (rest + [e])[i] != (rest + [e])[j]; }
  }

  /** If a tie straddles the cut, one of those that tie is kept under one listing and
      taken away under another. */
  lemma StraddleSplits(dir: set<Entry>, keep: int, e: Entry) returns (q: Entry, one: seq<Entry>, other: seq<Entry>)
    requires e in dir && e.Package? && Straddles(Group(dir, e), e, keep)
    ensures NoDup(one) && NoDup(other) && Members(one) == dir && Members(other) == dir
    ensures q in Left(one, keep) && q !in Left(other, keep)
  {
    hide Removed, Newer, AtLeast, Descending, SortedGroupOf, Older, Members;
    var g := Group(dir, e);
    one := Enumerate(dir);
    var t := SortedGroupOf(one, e);
    SortedGroupParts(one, e);
    SizesInGroup(g, e);
    var p := |Newer(g, e)|;
    q := t[p];
    InMembers(t, p);
    PlaceBounds(t, p);
    GroupParts(dir, e);
    Above(g, q, e);
    Above(g, e, q);
    InDir(one, q);
    SameSorted(one, e, q);
    FateByPlace(one, keep, q, p);
    var rest := Enumerate(dir - {q});
    other := WithLast(rest, dir, q);
    LastPlace(rest, keep, q);
    InDir(other, q);
  }

  lemma InMembers(t: seq<Entry>, p: nat)
    requires p < |t|
    ensures t[p] in Members(t)
  {
  }

  lemma InDir(listing: seq<Entry>, q: Entry)
    ensures q in Members(listing) <==> q in listing
  {
  }

  lemma SameSorted(listing: seq<Entry>, e: Entry, q: Entry)
    requires SameGroup(e, q)
    ensures SortedGroupOf(listing, q) == SortedGroupOf(listing, e)
  {
  }

  lemma SizesInGroup(g: set<Entry>, e: Entry)
    ensures |Newer(g, e)| <= |g| && |AtLeast(g, e)| <= |g|
  {
    Subset(Newer(g, e), g);
    Subset(AtLeast(g, e), g);
  }

  lemma SplitBreaks(a: set<Entry>, b: set<Entry>, keep: int, q: Entry, one: seq<Entry>, other: seq<Entry>)
    requires NoDup(one) && NoDup(other) && Members(one) == a + b && Members(other) == a + b
    requires q in Left(one, keep) && q !in Left(other, keep)
    ensures !Incremental(a, b, keep)
  {
    hide Removed, Members, Left;
    var old_ := Enumerate(a);
    var next := Enumerate(Left(old_, keep) + b);
    assert Listings(a, b, keep, old_, next, one);
    assert Listings(a, b, keep, old_, next, other);
  }

  lemma NeedsNoStraddle(a: set<Entry>, b: set<Entry>, keep: int)
    requires Incremental(a, b, keep)
    ensures NoStraddle(a + b, keep)
  {
    hide Incremental, Removed, Straddles, Members, Left;
    forall e | e in a + b && e.Package? ensures !Straddles(Group(a + b, e), e, keep) {
      if Straddles(Group(a + b, e), e, keep) {
        var q, one, other := StraddleSplits(a + b, keep, e);
        SplitBreaks(a, b, keep, q, one, other);
      }
    }
  }

  lemma NeedsRecopied(a: set<Entry>, b: set<Entry>, k: int)
    requires k > 0 && Incremental(a, b, -k)
    ensures Recopied(a, b, k)
  {
    hide Removed, Incremental, Members, Left;
    forall e | e in a + b && e.Package? && |Group(a + b, e)| > k ensures OldestIn(Group(a, e), b, k) {
      forall f | f in Group(a, e) && |Elder(Group(a, e), f)| < k ensures f in b {
        if f !in b { OldestLost(a, b, k, e, f); }
      }
    }
  }

  /** An old file that a first pruning may take, and that is not copied in again, is
      missed in the end: one more is gone. */
  lemma OldestLost(a: set<Entry>, b: set<Entry>, k: int, e: Entry, f: Entry)
    requires k > 0 && e in a + b && e.Package? && |Group(a + b, e)| > k
    requires f in Group(a, e) && |Elder(Group(a, e), f)| < k && f !in b
    ensures !Incremental(a, b, -k)
  {
    hide Removed, Members, AtLeast, Elder, Left;
    var rest := Enumerate(a - {f});
    var old_ := WithLast(rest, a, f);
    GroupParts(a, f);
    assert Group(a, f) == Group(a, e);
    ElderRest(Group(a, f), f);
    SelfAtLeast(Group(a, f), f);
    LastPlace(rest, -k, f);
    LeftParts(old_, -k, f);
    var next := Enumerate(Left(old_, -k) + b);
    var all := Enumerate(a + b);
    assert Listings(a, b, -k, old_, next, all);
    LeftSize(next, k, e);
    LeftSize(all, k, e);
    MissingOne(a, b, Left(old_, -k) + b, e, f);
    assert Left(next, -k) != Left(all, -k);
  }

  lemma LeftParts(listing: seq<Entry>, keep: int, f: Entry)
    ensures f in Removed(listing, keep) ==> f !in Left(listing, keep)
    ensures Left(listing, keep) <= Members(listing)
  {
  }

  lemma SelfAtLeast(g: set<Entry>, e: Entry)
    requires e in g && e.Package?
    ensures |AtLeast(g, e)| > 0
  {
    OlderTrans(e.ver, e.ver, e.ver);
    assert e in AtLeast(g, e);
  }

  lemma MissingOne(a: set<Entry>, b: set<Entry>, some: set<Entry>, e: Entry, f: Entry)
    requires some <= a + b && f in Group(a, e) && f !in some && e.Package?
    ensures |Group(some, e)| < |Group(a + b, e)|
  {
    assert f in Group(a + b, e);
    Subset(Group(some, e), Group(a + b, e) - {f});
  }

  /** k are gone, or all. */
  lemma LeftSize(listing: seq<Entry>, k: int, e: Entry)
    requires NoDup(listing) && e.Package? && k > 0
    ensures var n := |Group(Members(listing), e)|; |Group(Left(listing, -k), e)| == if n >= k then n - k else 0
  {
    hide Removed;
    var g := Group(Members(listing), e);
    if g == {} {
      assert Group(Left(listing, -k), e) == {};
    } else {
      var f :| f in g;
      assert Group(Members(listing), f) == g && Group(Left(listing, -k), f) == Group(Left(listing, -k), e);
      GroupKeeps(listing, -k, f);
    }
  }

  /** Pruning incrementally is pruning from scratch, for all listings, exactly under
      these conditions: no tie straddles the cut; and, for a negative `keep`, every
      group is too small to be left with anything or gets again all the old files
      that its first pruning may take. */
  lemma IncrementalIff(a: set<Entry>, b: set<Entry>, keep: int)
    ensures keep >= 0 ==> (Incremental(a, b, keep) <==> NoStraddle(a + b, keep))
    ensures keep < 0 ==> (Incremental(a, b, keep) <==> NoStraddle(a + b, keep) && Recopied(a, b, -keep))
  {
    hide NoStraddle, Recopied, Listings, Left;
    if NoStraddle(a + b, keep) && (keep < 0 ==> Recopied(a, b, -keep)) {
      forall old_, next, all | Listings(a, b, keep, old_, next, all) ensures Left(next, keep) == Left(all, keep) {
        if keep >= 0 {
          IncrementalAtLeastZero(a, b, keep, old_, next, all);
        } else {
          IncrementalNegative(a, b, -keep, old_, next, all);
        }
      }
    }
    if Incremental(a, b, keep) {
      NeedsNoStraddle(a, b, keep);
      if keep < 0 { NeedsRecopied(a, b, -keep); }
    }
  }

  /** Without ties none straddles, so that pruning incrementally is right for every
      `keep` that is not negative. */
  lemma NoTiesNeverStraddle(dir: set<Entry>, keep: int)
    requires NoTies(dir)
    ensures NoStraddle(dir, keep)
  {
    hide Older;
    forall e | e in dir && e.Package? ensures !Straddles(Group(dir, e), e, keep) {
      var g := Group(dir, e);
      forall x | x in AtLeast(g, e) ensures x in Newer(g, e) + {e} {
        OlderTrans(e.ver, x.ver, e.ver);
      }
      Subset(AtLeast(g, e), Newer(g, e) + {e});
    }
  }

  lemma PruningIncrementally(old_: seq<Entry>, more: set<Entry>, next: seq<Entry>, all: seq<Entry>, keep: nat)
    requires NoDup(old_) && NoDup(next) && NoDup(all)
    requires Members(next) == Members(old_) - Removed(old_, keep) + more
    requires Members(all) == Members(old_) + more && NoTies(Members(all))
    ensures Members(next) - Removed(next, keep) == Members(all) - Removed(all, keep)
  {
    NoTiesNeverStraddle(Members(all), keep);
    IncrementalAtLeastZero(Members(old_), more, keep, old_, next, all);
    hide Removed;
  }

  /** The same of what ought to be kept, without any listing. */
  lemma IncrementalIsFromScratch(a: set<Entry>, b: set<Entry>, keep: nat)
    requires NoTies(a + b)
    ensures Kept(Kept(a, keep) + b, keep) == Kept(a + b, keep)
  {
    hide Removed, Kept, NoStraddle, Members;
    var old_ := Enumerate(a);
    var all := Enumerate(a + b);
    NoTiesNeverStraddle(a, keep);
    PruneKeeps(old_, keep);
    KeptIsPart(a, keep);
    var next := Enumerate(Kept(a, keep) + b);
    NoTiesNeverStraddle(Kept(a, keep) + b, keep);
    NoTiesNeverStraddle(a + b, keep);
    PruneKeeps(next, keep);
    PruneKeeps(all, keep);
    IncrementalAtLeastZero(a, b, keep, old_, next, all);
  }

  lemma KeptIsPart(a: set<Entry>, keep: int)
    ensures Kept(a, keep) <= a
  {
  }

  // ------------------------------------------------------------------- the loops

  lemma {:induction false} GroupOfKey(listing: seq<Entry>, key: Key)
    ensures forall e :: e in GroupOf(listing, key) ==> e in listing && e.Package? && KeyOf(e) == key
    ensures NoDup(listing) ==> NoDup(GroupOf(listing, key))
  {
    if listing != [] {
      var init, last := listing[..|listing| - 1], listing[|listing| - 1];
      GroupOfKey(init, key);
      if NoDup(listing) { assert last !in init; }
    }
  }

  lemma SortedGroup(listing: seq<Entry>, key: Key)
    requires NoDup(listing)
    ensures var t := SortDesc(GroupOf(listing, key));
            NoDup(t) && forall e :: e in t ==> e in listing && e.Package? && KeyOf(e) == key
  {
    hide GroupOf, SortDesc;
    var s := GroupOf(listing, key);
    GroupOfKey(listing, key);
    SortKeepsAll(s);
    NoDupSame(s, SortDesc(s));
    SameMembers(s, SortDesc(s));
    forall e | e in SortDesc(s) ensures e in s {
      assert e in Members(SortDesc(s)) && e in Members(s);
    }
  }

  lemma TailOfKey(listing: seq<Entry>, keep: int, key: Key)
    requires NoDup(listing)
    ensures var tail := Tail(SortDesc(GroupOf(listing, key)), keep);
            && NoDup(tail)
            && forall e :: e in tail ==> e in listing && e.Package? && KeyOf(e) == key && e in Removed(listing, keep)
  {
    hide GroupOf, SortDesc;
    SortedGroup(listing, key);
    TailIsPart(SortDesc(GroupOf(listing, key)), keep);
  }

  lemma TailIsPart(t: seq<Entry>, keep: int)
    requires NoDup(t)
    ensures NoDup(Tail(t, keep)) && forall e :: e in Tail(t, keep) ==> e in t
  {
  }

  /** Every package is in its group, in the order of the listing. */
  ghost predicate Grouped(listing: seq<Entry>, groups: map<Key, seq<Entry>>) {
    && (forall key :: key in groups ==> groups[key] == GroupOf(listing, key))
    && (forall key :: key !in groups ==> GroupOf(listing, key) == [])
    && (forall e :: e in listing && e.Package? ==> KeyOf(e) in groups)
  }

  lemma GroupedStep(listing: seq<Entry>, groups: map<Key, seq<Entry>>, e: Entry)
    requires Grouped(listing, groups)
    ensures Grouped(listing + [e], if e.Other? then groups
                                   else groups[KeyOf(e) := (if KeyOf(e) in groups then groups[KeyOf(e)] else []) + [e]])
  {
    var all := listing + [e];
    assert all[..|all| - 1] == listing;
    forall key ensures GroupOf(all, key) == GroupOf(listing, key) + (if e.Package? && KeyOf(e) == key then [e] else []) { }
    hide GroupOf;
  }

  class Directory {
    var files: set<Entry>

    constructor (files: set<Entry>)
      ensures this.files == files
    {
      this.files := files;
    }

    /** The first loop of prune (93-99). */
    static method GroupAll(listing: seq<Entry>) returns (groups: map<Key, seq<Entry>>)
      ensures forall key :: key in groups ==> groups[key] == GroupOf(listing, key)
      ensures forall e :: e in listing && e.Package? ==> KeyOf(e) in groups
    {
      groups := map[];
      for i := 0 to |listing|
        invariant Grouped(listing[..i], groups)
      {
        var e := listing[i];
        GroupedStep(listing[..i], groups, e);
        hide Grouped;
        assert listing[..i + 1] == listing[..i] + [e];
        if e.Package? {
          var key := KeyOf(e);
          groups := groups[key := (if key in groups then groups[key] else []) + [e]];
        }
      }
      assert listing[..|listing|] == listing;
    }

    /** prune (91-107); `listing` is the directory in the order of os.listdir. */
    method Prune(listing: seq<Entry>, keep: int) returns (removed: nat)
      requires NoDup(listing) && Members(listing) == files
      modifies this
      ensures files == old(files) - Removed(listing, keep)
      ensures removed == |Removed(listing, keep)|
      ensures NoStraddle(old(files), keep) ==> files == Kept(old(files), keep)
    {
      removed := 0;
      var groups := GroupAll(listing);
      var todo := groups.Keys;
      ghost var gone: set<Entry> := {};
      TakenNone(listing, keep, todo);
      hide *;
      while todo != {}
        invariant todo <= groups.Keys
        invariant files == old(files) - gone && removed == |gone|
        invariant gone == TakenOutside(listing, keep, todo)
        decreases todo
      {
        var key :| key in todo;
        var tail := Tail(SortDesc(groups[key]), keep);
        TakeOne(listing, keep, todo, key);
        var n := Unlink(tail);
        removed := removed + n;
        gone := gone + Members(tail);
        todo := todo - {key};
      }
      TakenAll(listing, keep);
      if NoStraddle(Members(listing), keep) { PruneKeeps(listing, keep); }
    }

    /** The loop over a group's tail (103-106). */
    method Unlink(tail: seq<Entry>) returns (n: nat)
      requires NoDup(tail)
      modifies this
      ensures files == old(files) - Members(tail) && n == |Members(tail)|
    {
      for i := 0 to |tail|
        invariant files == old(files) - Members(tail[..i])
      {
        assert tail[..i + 1] == tail[..i] + [tail[i]];
        files := files - {tail[i]};
      }
      assert tail[..|tail|] == tail;
      SizeOf(tail);
      n := |tail|;
    }
  }

  /** What the groups that are done with have lost. */
  ghost function TakenOutside(listing: seq<Entry>, keep: int, todo: set<Key>): set<Entry> {
    set e | e in Removed(listing, keep) && KeyOf(e) !in todo
  }

  lemma TakeOne(listing: seq<Entry>, keep: int, todo: set<Key>, key: Key)
    requires NoDup(listing) && key in todo
    ensures var tail := Tail(SortDesc(GroupOf(listing, key)), keep); var before := TakenOutside(listing, keep, todo);
            && NoDup(tail) && TakenOutside(listing, keep, todo - {key}) == before + Members(tail)
            && |before + Members(tail)| == |before| + |Members(tail)|
  {
    var tail := Tail(SortDesc(GroupOf(listing, key)), keep);
    var before := TakenOutside(listing, keep, todo);
    TailOfKey(listing, keep, key);
    assert before !! Members(tail);
  }

  lemma TakenNone(listing: seq<Entry>, keep: int, todo: set<Key>)
    requires forall e :: e in listing && e.Package? ==> KeyOf(e) in todo
    ensures TakenOutside(listing, keep, todo) == {}
  {
  }

  lemma TakenAll(listing: seq<Entry>, keep: int)
    ensures TakenOutside(listing, keep, {}) == Removed(listing, keep)
  {
  }

  // ------------------------------------------------------------- where the law fails

  /** The law fails for ties: two releases of one RPM version, whose pattern leaves the
      release out of the version (publish.py 41), tie; with one to keep, it is the
      listing that decides which. */
  lemma ReleasesAreNotIncremental()
    ensures var x, y := Package("p", "a", "1.2", "p-1.2-1.a.rpm"), Package("p", "a", "1.2", "p-1.2-2.a.rpm");
            !Incremental({}, {x, y}, 1)
  {
    var x, y := Package("p", "a", "1.2", "p-1.2-1.a.rpm"), Package("p", "a", "1.2", "p-1.2-2.a.rpm");
    assert x.file[6] != y.file[6];
    TieStraddles(x, y);
    IncrementalIff({}, {x, y}, 1);
  }

  lemma TieStraddles(x: Entry, y: Entry)
    requires SameGroup(x, y) && x != y && VKey(x.ver) == VKey(y.ver)
    ensures !NoStraddle({} + {x, y}, 1)
  {
    hide VKey, KeyLeq;
    var dir := {} + {x, y};
    assert dir == {x, y};
    assert Group(dir, x) == {x, y};
    assert Newer({x, y}, x) == {} && AtLeast({x, y}, x) == {x, y};
    assert Straddles(Group(dir, x), x, 1);
  }

  function V(ver: string): Entry { Package("p", "a", ver, ver) }

  lemma OneDigit(c: char)
    requires '0' <= c <= '9'
    ensures VKey([c]) == [Num((c - '0') as nat)]
  {
    assert KeyFrom([c], "") == KeyFrom([c][1..], "" + [c]) == [ToPart("" + [c])];
    assert "" + [c] == [c] && Digits([c]) && [c][..0] == "";
    assert Number([c]) == 10 * Number("") + (c - '0') as nat;
  }

  lemma DigitsAreOrdered()
    ensures Older("1", "2") && Older("2", "3") && Older("1", "3")
  {
    OneDigit('1'); OneDigit('2'); OneDigit('3');
  }

  lemma ThreeDiffer()
    ensures V("1") != V("2") && V("2") != V("3") && V("1") != V("3")
  {
    var a, b, c := "1", "2", "3";
    assert a[0] != b[0] && b[0] != c[0] && a[0] != c[0];
    assert V(a).ver == a && V(b).ver == b && V(c).ver == c;
  }

  /** The promise fails for a negative `keep`, which Python takes as an index from the
      end: each run then takes away the oldest, so pruning twice takes two. */
  lemma NegativeKeepIsNotIncremental()
    ensures var a, b, c := V("1"), V("2"), V("3");
            && {a, b, c} - Removed([a, b, c], -1) == {b, c}
            && {a, b} - Removed([a, b], -1) + {c} == {b, c}
            && {b, c} - Removed([b, c], -1) == {c}
            && !Incremental({a, b}, {c}, -1)
  {
    hide Older, Removed, Incremental;
    DigitsAreOrdered();
    ThreeDiffer();
    Three(V("1"), V("2"), V("3"));
    ThreeBreak(V("1"), V("2"), V("3"));
  }

  lemma ThreeBreak(a: Entry, b: Entry, c: Entry)
    requires a != b && b != c && a != c
    requires {a, b, c} - Removed([a, b, c], -1) == {b, c} && {a, b} - Removed([a, b], -1) + {c} == {b, c}
    requires {b, c} - Removed([b, c], -1) == {c}
    ensures !Incremental({a, b}, {c}, -1)
  {
    hide Removed;
    assert Members([a, b]) == {a, b} && Members([b, c]) == {b, c} && Members([a, b, c]) == {a, b} + {c} == {a, b, c};
    assert Listings({a, b}, {c}, -1, [a, b], [b, c], [a, b, c]);
    assert b in Left([a, b, c], -1) && b !in Left([b, c], -1);
  }

  lemma Three(a: Entry, b: Entry, c: Entry)
    requires a.Package? && b.Package? && c.Package? && KeyOf(a) == KeyOf(b) == KeyOf(c)
    requires a != b && b != c && a != c && Older(a.ver, b.ver) && Older(b.ver, c.ver)
    ensures {a, b, c} - Removed([a, b, c], -1) == {b, c}
    ensures {a, b} - Removed([a, b], -1) + {c} == {b, c}
    ensures {b, c} - Removed([b, c], -1) == {c}
  {
    hide Older, Removed, KeyOf;
    RemoveOldest(a, b);
    RemoveOldest(b, c);
    RemoveOldest3(a, b, c);
  }

  lemma SortTwo(a: Entry, b: Entry, k: Key)
    requires a.Package? && b.Package? && KeyOf(a) == KeyOf(b) == k && Older(a.ver, b.ver)
    ensures GroupOf([a, b], k) == [a, b] && SortDesc([a, b]) == [b, a]
  {
    hide Older;
    assert [a, b][..1] == [a] && [a][..0] == [];
    assert GroupOf([a], k) == [a] && SortDesc([a]) == [a];
    assert SortDesc([a, b]) == InsertDesc(b, [a]) == [b, a];
  }

  lemma SortThree(a: Entry, b: Entry, c: Entry, k: Key)
    requires a.Package? && b.Package? && c.Package? && KeyOf(a) == KeyOf(b) == KeyOf(c) == k
    requires Older(a.ver, b.ver) && Older(b.ver, c.ver)
    ensures GroupOf([a, b, c], k) == [a, b, c] && SortDesc([a, b, c]) == [c, b, a]
  {
    SortTwo(a, b, k);
    hide Older;
    var all, two := [a, b, c], [a, b];
    assert all[..2] == two && all[2] == c;
    assert GroupOf(all, k) == GroupOf(two, k) + [c];
    assert SortDesc(all) == InsertDesc(c, SortDesc(two));
  }

  lemma RemoveOldest3(a: Entry, b: Entry, c: Entry)
    requires a.Package? && b.Package? && c.Package? && KeyOf(a) == KeyOf(b) == KeyOf(c) && a != b && a != c
    requires Older(a.ver, b.ver) && Older(b.ver, c.ver)
    ensures Removed([a, b, c], -1) == {a}
  {
    hide Older, GroupOf, SortDesc;
    SortThree(a, b, c, KeyOf(a));
    assert Tail([c, b, a], -1) == [a];
  }

  lemma RemoveOldest(a: Entry, b: Entry)
    requires a.Package? && b.Package? && KeyOf(a) == KeyOf(b) && a != b && Older(a.ver, b.ver)
    ensures Removed([a, b], -1) == {a}
  {
    SortTwo(a, b, KeyOf(a));
    hide Older, GroupOf, SortDesc;
    assert Tail([b, a], -1) == [a];
  }
}
