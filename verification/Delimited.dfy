/** Lists carried in one string: file names between commas (uvcpp_c_webapp.cpp
    786-803) and table names between newlines (uvcpp_c_db.cpp 888-894). */
module Delimited {
  function Join(names: seq<string>, sep: char): string {
    if names == [] then ""
    else if |names| == 1 then names[0]
    else names[0] + [sep] + Join(names[1..], sep)
  }

  /** Cutting at every separator. */
  function Cut(s: string, sep: char): (parts: seq<string>)
    ensures parts != []
  {
    if s == "" then [""]
    else if s[0] == sep then [""] + Cut(s[1..], sep)
    else
      var rest := Cut(s[1..], sep);
      [[s[0]] + rest[0]] + rest[1..]
  }

  function NonEmpty(parts: seq<string>): seq<string> {
    if parts == [] then [] else (if parts[0] == "" then [] else [parts[0]]) + NonEmpty(parts[1..])
  }

  ghost predicate Free(s: string, sep: char) { forall i :: 0 <= i < |s| ==> s[i] != sep }

  ghost predicate Plain(names: seq<string>, sep: char) {
    forall i :: 0 <= i < |names| ==> names[i] != "" && Free(names[i], sep)
  }

  lemma {:induction false} CutPrefix(a: string, rest: string, sep: char)
    requires Free(a, sep)
    ensures Cut(a + rest, sep) == [a + Cut(rest, sep)[0]] + Cut(rest, sep)[1..]
  {
    if a == "" {
      assert "" + rest == rest && "" + Cut(rest, sep)[0] == Cut(rest, sep)[0];
    } else {
      assert (a + rest)[1..] == a[1..] + rest;
      CutPrefix(a[1..], rest, sep);
      assert [a[0]] + (a[1..] + Cut(rest, sep)[0]) == a + Cut(rest, sep)[0];
    }
  }

  /** Cutting undoes joining, on names without the separator. */
  lemma {:induction false} CutJoin(names: seq<string>, sep: char)
    requires names != [] && forall i :: 0 <= i < |names| ==> Free(names[i], sep)
    ensures Cut(Join(names, sep), sep) == names
  {
    if |names| == 1 {
      CutPrefix(names[0], "", sep);
      assert names[0] + "" == names[0];
    } else {
      var rest := [sep] + Join(names[1..], sep);
      CutPrefix(names[0], rest, sep);
      assert names[0] + [sep] + Join(names[1..], sep) == names[0] + rest;
      assert rest[1..] == Join(names[1..], sep);
      CutJoin(names[1..], sep);
      assert Cut(rest, sep) == [""] + names[1..];
      assert names[0] + "" == names[0] && [names[0]] + names[1..] == names;
    }
  }

  /** And joining undoes cutting, on any string. */
  lemma {:induction false} JoinCut(s: string, sep: char)
    ensures Join(Cut(s, sep), sep) == s
    ensures forall i :: 0 <= i < |Cut(s, sep)| ==> Free(Cut(s, sep)[i], sep)
  {
    if s != "" {
      JoinCut(s[1..], sep);
      var rest := Cut(s[1..], sep);
      if s[0] == sep {
        assert ([""] + rest)[1..] == rest;
        assert "" + [sep] + Join(rest, sep) == s;
      } else {
        var all := [[s[0]] + rest[0]] + rest[1..];
        assert all[1..] == rest[1..];
        assert s == [s[0]] + s[1..];
      }
    }
  }

  lemma {:induction false} NonEmptyPlain(parts: seq<string>, sep: char)
    requires forall i :: 0 <= i < |parts| ==> Free(parts[i], sep)
    ensures Plain(NonEmpty(parts), sep)
    ensures Plain(parts, sep) ==> NonEmpty(parts) == parts
  {
    if parts != [] { NonEmptyPlain(parts[1..], sep); }
  }

  // ----------------------------------------------------------- the comma list

  /** The scan of serve_static (789-801), one character at a time up to the
      terminating zero. */
  method ScanList(list: string) returns (files: seq<string>)
    ensures files == NonEmpty(Cut(list, ','))
  {
    files := [];
    var cur := "";
    var p := 0;
    assert list[0..] == list;
    PlusCut(list, ',');
    while true
      invariant 0 <= p <= |list|
      invariant files + NonEmpty(Onto(cur, Cut(list[p..], ','))) == NonEmpty(Cut(list, ','))
      decreases |list| - p
    {
      var rest := Cut(list[p..], ',');
      if p == |list| || list[p] == ',' {
        if cur != "" { files := files + [cur]; }
        assert Onto(cur, rest)[0] == cur;
        cur := "";
        if p == |list| { return; }
        assert list[p..][1..] == list[p + 1..];
        PlusCut(list[p + 1..], ',');
        assert Onto("", Cut(list[p + 1..], ',')) == rest[1..];
      } else {
        assert list[p..][1..] == list[p + 1..];
        var tail := Cut(list[p + 1..], ',');
        assert cur + ([list[p]] + tail[0]) == cur + [list[p]] + tail[0];
        cur := cur + [list[p]];
      }
      p := p + 1;
    }
  }

  /** The parts of what is left, the first of them already begun. */
  ghost function Onto(cur: string, parts: seq<string>): seq<string>
    requires parts != []
  {
    [cur + parts[0]] + parts[1..]
  }

  lemma PlusCut(s: string, sep: char)
    ensures Onto("", Cut(s, sep)) == Cut(s, sep)
  {
    var parts := Cut(s, sep);
    assert "" + parts[0] == parts[0] && [parts[0]] + parts[1..] == parts;
  }

  lemma PlainComesBack(names: seq<string>, sep: char)
    requires Plain(names, sep)
    ensures NonEmpty(Cut(Join(names, sep), sep)) == names
  {
    if names == [] {
      var none := [""];
      assert Cut("", sep) == none && none[1..] == [] && NonEmpty(none) == [];
    } else {
      CutJoin(names, sep);
      NonEmptyPlain(names, sep);
    }
  }

  /** Scanning a joined list gives back exactly the lists of non-empty names without
      a comma; and what a scan gives is always such a list. */
  lemma ScanUndoesJoinIff(names: seq<string>, list: string)
    ensures NonEmpty(Cut(Join(names, ','), ',')) == names <==> Plain(names, ',')
    ensures Plain(NonEmpty(Cut(list, ',')), ',')
  {
    JoinCut(list, ',');
    NonEmptyPlain(Cut(list, ','), ',');
    JoinCut(Join(names, ','), ',');
    NonEmptyPlain(Cut(Join(names, ','), ','), ',');
    if Plain(names, ',') { PlainComesBack(names, ','); }
  }

  // --------------------------------------------------------- the newline list

  /** The loop of uvcpp_c_db_client_table_names (890-894). */
  method JoinNames(names: seq<string>) returns (joined: string)
    ensures joined == Join(names, '\n')
  {
    joined := "";
    for i := 0 to |names|
      invariant joined == Join(names[..i], '\n')
    {
      JoinSnoc(names[..i], names[i], '\n');
      assert names[..i + 1] == names[..i] + [names[i]];
      if i != 0 { joined := joined + ['\n']; }
      joined := joined + names[i];
    }
    assert names[..|names|] == names;
  }

  lemma {:induction false} JoinSnoc(names: seq<string>, name: string, sep: char)
    ensures Join(names + [name], sep) == if names == [] then name else Join(names, sep) + [sep] + name
  {
    if names == [] {
      assert [] + [name] == [name];
    } else {
      assert (names + [name])[1..] == names[1..] + [name];
      JoinSnoc(names[1..], name, sep);
    }
  }

  /** Two lists of non-empty names without a newline come out the same only if they
      are the same. */
  lemma JoinIsInjective(a: seq<string>, b: seq<string>)
    requires Plain(a, '\n') && Plain(b, '\n') && Join(a, '\n') == Join(b, '\n')
    ensures a == b
  {
    PlainComesBack(a, '\n');
    PlainComesBack(b, '\n');
  }
}
