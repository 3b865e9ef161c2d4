/** The header list of src/capi/uvcpp_c_http3.cpp (158-180, 615-628): a vector of
    headers that behaves as a map from names, up to the case of ASCII letters. */
module HeaderList {
  import opened Base

  datatype Header = Header(name: string, value: string)

  function LowerChar(c: char): char {
    if 'A' <= c <= 'Z' then c - 'A' + 'a' else c
  }

  function Lower(s: string): (t: string)
    ensures |t| == |s| && forall i :: 0 <= i < |s| ==> t[i] == LowerChar(s[i])
  {
    seq(|s|, i requires 0 <= i < |s| => LowerChar(s[i]))
  }

  /** The map that a list stands for: the first header of a name counts. */
  function Dict(hs: seq<Header>): map<string, string> {
    if hs == [] then map[] else Dict(hs[1..])[Lower(hs[0].name) := hs[0].value]
  }

  ghost predicate Unique(hs: seq<Header>) {
    forall i, j :: 0 <= i < j < |hs| ==> Lower(hs[i].name) != Lower(hs[j].name)
  }

  function Names(hs: seq<Header>): (r: seq<string>)
    ensures |r| == |hs| && forall i :: 0 <= i < |hs| ==> r[i] == hs[i].name
  {
    seq(|hs|, i requires 0 <= i < |hs| => hs[i].name)
  }

  /** The first header of a name decides what the map holds for it. */
  lemma {:induction false} FirstCounts(hs: seq<Header>, k: string, i: nat)
    requires i <= |hs| && forall j :: 0 <= j < i ==> Lower(hs[j].name) != k
    ensures i == |hs| ==> k !in Dict(hs)
    ensures i < |hs| && Lower(hs[i].name) == k ==> k in Dict(hs) && Dict(hs)[k] == hs[i].value
  {
    if hs != [] && i > 0 {
      var rest := hs[1..];
      assert forall j :: 0 <= j < |rest| ==> rest[j] == hs[j + 1];
      FirstCounts(rest, k, i - 1);
    }
  }

  /** What upsert_header does to a list. */
  function Upsert(hs: seq<Header>, name: string, value: string): seq<Header> {
    if hs == [] then [Header(name, value)]
    else if Lower(hs[0].name) == Lower(name) then [hs[0].(value := value)] + hs[1..]
    else [hs[0]] + Upsert(hs[1..], name, value)
  }

  lemma {:induction false} UpsertAt(hs: seq<Header>, name: string, value: string, i: nat)
    requires i <= |hs| && forall j :: 0 <= j < i ==> Lower(hs[j].name) != Lower(name)
    ensures i == |hs| ==> Upsert(hs, name, value) == hs + [Header(name, value)]
    ensures i < |hs| && Lower(hs[i].name) == Lower(name) ==> Upsert(hs, name, value) == hs[i := hs[i].(value := value)]
  {
    if hs != [] && i > 0 {
      var rest := hs[1..];
      assert forall j :: 0 <= j < |rest| ==> rest[j] == hs[j + 1];
      assert hs == [hs[0]] + rest;
      UpsertAt(rest, name, value, i - 1);
    }
  }

  /** As a map: one entry is set and no other changes.  As a list: the names stay in
      their order and their first spelling, and a new one comes last. */
  lemma {:induction false} UpsertIsMapUpdate(hs: seq<Header>, name: string, value: string)
    ensures Dict(Upsert(hs, name, value)) == Dict(hs)[Lower(name) := value]
    ensures Names(Upsert(hs, name, value)) == Names(hs) + (if Lower(name) in Dict(hs) then [] else [name])
  {
    if hs != [] && Lower(hs[0].name) != Lower(name) {
      UpsertIsMapUpdate(hs[1..], name, value);
    }
  }

  lemma {:induction false} InDict(hs: seq<Header>, k: string)
    ensures k in Dict(hs) <==> exists i :: 0 <= i < |hs| && Lower(hs[i].name) == k
  {
    if hs != [] {
      InDict(hs[1..], k);
      if k in Dict(hs[1..]) {
        var i :| 0 <= i < |hs[1..]| && Lower(hs[1..][i].name) == k;
        assert Lower(hs[i + 1].name) == k;
      }
    }
  }

  /** Names stay unique up to case. */
  lemma UpsertKeepsUnique(hs: seq<Header>, name: string, value: string)
    requires Unique(hs)
    ensures Unique(Upsert(hs, name, value))
  {
    var new_ := Upsert(hs, name, value);
    UpsertIsMapUpdate(hs, name, value);
    InDict(hs, Lower(name));
    assert forall i :: 0 <= i < |new_| ==> new_[i].name == Names(new_)[i];
  }

  /** Setting a header twice is setting it once, to the later value. */
  lemma {:induction false} LastValueWins(hs: seq<Header>, a: string, b: string, v: string, w: string)
    requires Lower(a) == Lower(b)
    ensures Upsert(Upsert(hs, a, v), b, w) == Upsert(hs, a, w)
  {
    if hs != [] && Lower(hs[0].name) != Lower(a) {
      assert Upsert(hs, a, v)[1..] == Upsert(hs[1..], a, v);
      LastValueWins(hs[1..], a, b, v, w);
    }
  }

  class Headers {
    var list: seq<Header>

    constructor ()
      ensures list == [] && Dict(list) == map[] && Unique(list)
    {
      list := [];
    }

    /** name_equals (158-171): same length, and the same letters but for case. */
    static method NameEquals(a: string, b: string) returns (eq: bool)
      ensures eq <==> Lower(a) == Lower(b)
    {
      if |a| != |b| { return false; }
      for i := 0 to |a|
        invariant forall k :: 0 <= k < i ==> LowerChar(a[k]) == LowerChar(b[k])
      {
        if LowerChar(a[i]) != LowerChar(b[i]) {
          assert Lower(a)[i] != Lower(b)[i];
          return false;
        }
      }
      return true;
    }

    /** find_header (174-180), here the value found. */
    method FindHeader(name: string) returns (value: Option<string>)
      ensures value == if Lower(name) in Dict(list) then Some(Dict(list)[Lower(name)]) else None
    {
      for i := 0 to |list|
        invariant forall j :: 0 <= j < i ==> Lower(list[j].name) != Lower(name)
      {
        var eq := NameEquals(list[i].name, name);
        if eq {
          FirstCounts(list, Lower(name), i);
          return Some(list[i].value);
        }
      }
      FirstCounts(list, Lower(name), |list|);
      return None;
    }

    /** upsert_header (615-628). */
    method UpsertHeader(name: string, value: string)
      modifies this
      ensures list == Upsert(old(list), name, value)
      ensures Dict(list) == old(Dict(list))[Lower(name) := value]
    {
      UpsertIsMapUpdate(list, name, value);
      for i := 0 to |list|
        invariant list == old(list)
        invariant forall j :: 0 <= j < i ==> Lower(list[j].name) != Lower(name)
      {
        var eq := NameEquals(list[i].name, name);
        if eq {
          UpsertAt(list, name, value, i);
          list := list[i := list[i].(value := value)];
          return;
        }
      }
      UpsertAt(list, name, value, |list|);
      list := list + [Header(name, value)];
    }
  }
}
