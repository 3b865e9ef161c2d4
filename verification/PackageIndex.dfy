/** The Packages index of packaging/repo/publish.py: a file is cut into stanzas at
    its blank lines (110-121), the stanzas are sorted by architecture (132-146), and
    each architecture's are written out again (152). */
module PackageIndex {
  import opened Base
  import D = Delimited

  /** Where str.splitlines cuts. */
  predicate IsBreak(c: char) {
    c in {'\n', '\r', '\U{0B}', '\U{0C}', '\U{1C}', '\U{1D}', '\U{1E}', '\U{85}', '\U{2028}', '\U{2029}'}
  }

  /** What str.strip takes for white space. */
  predicate IsSpace(c: char) {
    || IsBreak(c) || c in {'\t', ' ', '\U{1F}', '\U{A0}', '\U{1680}', '\U{202F}', '\U{205F}', '\U{3000}'}
    || '\U{2000}' <= c <= '\U{200A}'
  }

  predicate Blank(line: string) { forall i :: 0 <= i < |line| ==> IsSpace(line[i]) }

  /** str.splitlines, with the line begun so far. */
  function SplitLines(s: string, cur: string): seq<string>
    decreases |s|
  {
    if s == "" then (if cur == "" then [] else [cur])
    else if !IsBreak(s[0]) then SplitLines(s[1..], cur + [s[0]])
    else [cur] + SplitLines(if |s| > 1 && s[0] == '\r' && s[1] == '\n' then s[2..] else s[1..], "")
  }

  function Flush(cur: seq<string>): seq<string> {
    if cur == [] then [] else [D.Join(cur, '\n')]
  }

  /** Runs of lines that are not blank, with the run begun so far. */
  function Group(lines: seq<string>, cur: seq<string>): seq<string>
    decreases |lines|
  {
    if lines == [] then Flush(cur)
    else if Blank(lines[0]) then Flush(cur) + Group(lines[1..], [])
    else Group(lines[1..], cur + [lines[0]])
  }

  function SplitStanzas(text: string): seq<string> {
    Group(SplitLines(text, ""), [])
  }

  /** split_stanzas (110-121), after splitlines. */
  method Split(text: string) returns (out: seq<string>)
    ensures out == SplitStanzas(text)
  {
    var lines := SplitLines(text, "");
    var cur: seq<string> := [];
    out := [];
    for i := 0 to |lines|
      invariant out + Group(lines[i..], cur) == Group(lines, [])
    {
      assert lines[i..][0] == lines[i] && lines[i..][1..] == lines[i + 1..];
      if Blank(lines[i]) {
        if cur != [] {
          out := out + [D.Join(cur, '\n')];
          cur := [];
        }
      } else {
        cur := cur + [lines[i]];
      }
    }
    assert lines[|lines|..] == [];
    if cur != [] { out := out + [D.Join(cur, '\n')]; }
  }

  /** What is written for a list of stanzas (152). */
  function Render(stanzas: seq<string>): string {
    if stanzas == [] then "" else stanzas[0] + "\n\n" + Render(stanzas[1..])
  }

  // ---------------------------------------------------------------- round trips

  /** A line proper: not blank, and without any break. */
  ghost predicate Line(s: string) {
    !Blank(s) && forall i :: 0 <= i < |s| ==> !IsBreak(s[i])
  }

  ghost predicate Lines(lines: seq<string>) {
    forall i :: 0 <= i < |lines| ==> Line(lines[i])
  }

  /** A stanza is clean if cutting it at its newlines gives lines proper. */
  ghost predicate Clean(stanza: string) {
    Lines(D.Cut(stanza, '\n'))
  }

  lemma {:induction false} ReadLine(line: string, cur: string, rest: string)
    requires forall i :: 0 <= i < |line| ==> !IsBreak(line[i])
    ensures SplitLines(line + "\n" + rest, cur) == [cur + line] + SplitLines(rest, "")
    decreases |line|
  {
    var all := line + "\n" + rest;
    if line == "" {
      assert all[0] == '\n' && all[1..] == rest && cur + line == cur;
    } else {
      assert all[0] == line[0] && all[1..] == line[1..] + "\n" + rest;
      ReadLine(line[1..], cur + [line[0]], rest);
      assert cur + [line[0]] + line[1..] == cur + line;
    }
  }

  /** The lines of a stanza that is followed by a newline. */
  lemma {:induction false} ReadStanza(lines: seq<string>, rest: string)
    requires lines != [] && Lines(lines)
    ensures SplitLines(D.Join(lines, '\n') + "\n" + rest, "") == lines + SplitLines(rest, "")
    decreases |lines|
  {
    var line := lines[0];
    assert "" + line == line && Line(line);
    if |lines| == 1 {
      ReadLine(line, "", rest);
      assert [line] == lines;
    } else {
      var more := D.Join(lines[1..], '\n') + "\n" + rest;
      ReadLine(line, "", more);
      ReadStanza(lines[1..], rest);
      assert D.Join(lines, '\n') + "\n" + rest == line + "\n" + more;
      assert lines == [line] + lines[1..];
    }
  }

  lemma {:induction false} GroupLines(lines: seq<string>, cur: seq<string>, rest: seq<string>)
    requires Lines(lines)
    ensures Group(lines + rest, cur) == Group(rest, cur + lines)
    decreases |lines|
  {
    if lines == [] {
      assert lines + rest == rest && cur + lines == cur;
    } else {
      assert (lines + rest)[0] == lines[0] && (lines + rest)[1..] == lines[1..] + rest;
      assert Line(lines[0]);
      GroupLines(lines[1..], cur + [lines[0]], rest);
      assert cur + [lines[0]] + lines[1..] == cur + lines;
    }
  }

  /** A clean stanza that is written out reads as its lines and a blank one. */
  lemma ReadWritten(stanza: string, rest: string)
    requires Clean(stanza)
    ensures SplitLines(stanza + "\n\n" + rest, "") == D.Cut(stanza, '\n') + ([""] + SplitLines(rest, ""))
  {
    hide SplitLines, Lines;
    var lines := D.Cut(stanza, '\n');
    D.JoinCut(stanza, '\n');
    ReadStanza(lines, "\n" + rest);
    ReadLine("", "", rest);
    assert "" + "\n" + rest == "\n" + rest && "" + "" == "";
    assert stanza + "\n\n" + rest == stanza + "\n" + ("\n" + rest);
  }

  /** Reading what was written gives clean stanzas back. */
  lemma {:induction false} CleanComesBack(stanzas: seq<string>)
    requires forall i :: 0 <= i < |stanzas| ==> Clean(stanzas[i])
    ensures SplitStanzas(Render(stanzas)) == stanzas
  {
    if stanzas != [] {
      var lines := D.Cut(stanzas[0], '\n');
      var after := SplitLines(Render(stanzas[1..]), "");
      ReadWritten(stanzas[0], Render(stanzas[1..]));
      CleanComesBack(stanzas[1..]);
      GroupOne(lines, after);
      D.JoinCut(stanzas[0], '\n');
      hide SplitLines, Group, Lines;
      assert stanzas == [stanzas[0]] + stanzas[1..];
    }
  }

  lemma GroupOne(lines: seq<string>, after: seq<string>)
    requires Lines(lines) && lines != []
    ensures Group(lines + ([""] + after), []) == [D.Join(lines, '\n')] + Group(after, [])
  {
    GroupLines(lines, [], [""] + after);
    assert [] + lines == lines && ([""] + after)[0] == "" && ([""] + after)[1..] == after;
  }

  ghost predicate NoBreaks(lines: seq<string>) {
    forall i, k :: 0 <= i < |lines| && 0 <= k < |lines[i]| ==> !IsBreak(lines[i][k])
  }

  lemma {:induction false} SplitLinesNoBreaks(s: string, cur: string)
    requires forall k :: 0 <= k < |cur| ==> !IsBreak(cur[k])
    ensures NoBreaks(SplitLines(s, cur))
    decreases |s|
  {
    if s != "" {
      if !IsBreak(s[0]) {
        SplitLinesNoBreaks(s[1..], cur + [s[0]]);
      } else {
        SplitLinesNoBreaks(if |s| > 1 && s[0] == '\r' && s[1] == '\n' then s[2..] else s[1..], "");
      }
    }
  }

  lemma FlushClean(cur: seq<string>)
    requires Lines(cur)
    ensures forall i :: 0 <= i < |Flush(cur)| ==> Clean(Flush(cur)[i])
  {
    if cur != [] {
      forall i | 0 <= i < |cur| ensures D.Free(cur[i], '\n') {
        assert Line(cur[i]);
      }
      D.CutJoin(cur, '\n');
    }
  }

  lemma {:induction false} GroupClean(lines: seq<string>, cur: seq<string>)
    requires NoBreaks(lines) && Lines(cur)
    ensures forall i :: 0 <= i < |Group(lines, cur)| ==> Clean(Group(lines, cur)[i])
    decreases |lines|
  {
    FlushClean(cur);
    if lines != [] {
      var rest := lines[1..];
      assert forall i :: 0 <= i < |rest| ==> rest[i] == lines[i + 1];
      if Blank(lines[0]) {
        GroupClean(rest, []);
      } else {
        GroupClean(rest, cur + [lines[0]]);
      }
    }
  }

  /** Whatever is read comes out as clean stanzas. */
  lemma SplitsIntoClean(text: string)
    ensures forall i :: 0 <= i < |SplitStanzas(text)| ==> Clean(SplitStanzas(text)[i])
  {
    SplitLinesNoBreaks(text, "");
    GroupClean(SplitLines(text, ""), []);
  }

  /** Stanzas come back from the file that they are written to exactly if each is
      clean; in particular those of any file do. */
  lemma RoundTripIff(stanzas: seq<string>, text: string)
    ensures SplitStanzas(Render(stanzas)) == stanzas <==> forall i :: 0 <= i < |stanzas| ==> Clean(stanzas[i])
    ensures SplitStanzas(Render(SplitStanzas(text))) == SplitStanzas(text)
  {
    SplitsIntoClean(Render(stanzas));
    SplitsIntoClean(text);
    CleanComesBack(SplitStanzas(text));
    if forall i :: 0 <= i < |stanzas| ==> Clean(stanzas[i]) {
      CleanComesBack(stanzas);
    }
  }

  // --------------------------------------------------------------- architectures

  const DEB_ARCHES := ["amd64", "arm64"]

  predicate Known(arch: Option<string>) {
    arch.Some? && (arch.value == "all" || arch.value in DEB_ARCHES)
  }

  /** The stanzas of an architecture's index, in their order: its own, and those for
      all. */
  function For(a: string, stanzas: seq<string>, archOf: string -> Option<string>): seq<string> {
    if stanzas == [] then []
    else (if archOf(stanzas[0]) in {Some(a), Some("all")} then [stanzas[0]] else []) + For(a, stanzas[1..], archOf)
  }

  lemma {:induction false} ForSnoc(a: string, stanzas: seq<string>, st: string, archOf: string -> Option<string>)
    ensures For(a, stanzas + [st], archOf) == For(a, stanzas, archOf) + (if archOf(st) in {Some(a), Some("all")} then [st] else [])
  {
    if stanzas == [] {
      assert [] + [st] == [st] && [st][1..] == [];
    } else {
      assert (stanzas + [st])[1..] == stanzas[1..] + [st];
      ForSnoc(a, stanzas[1..], st, archOf);
    }
  }

  /** The index of both architectures. */
  function Both(stanzas: seq<string>, archOf: string -> Option<string>): map<string, seq<string>> {
    map["amd64" := For("amd64", stanzas, archOf), "arm64" := For("arm64", stanzas, archOf)]
  }

  /** One stanza more goes into the lists that its architecture names. */
  lemma BothSnoc(stanzas: seq<string>, st: string, archOf: string -> Option<string>)
    requires Known(archOf(st))
    ensures var m := Both(stanzas, archOf); var arch := archOf(st).value;
            && "amd64" in m && "arm64" in m && (arch != "all" ==> arch in m)
            && Both(stanzas + [st], archOf) ==
                 if arch == "all" then m["amd64" := m["amd64"] + [st]]["arm64" := m["arm64"] + [st]]
                 else m[arch := m[arch] + [st]]
  {
    ForSnoc("amd64", stanzas, st, archOf);
    ForSnoc("arm64", stanzas, st, archOf);
    assert "amd64"[1] != "arm64"[1] && |"all"| != |"amd64"|;
    hide For;
    assert For("amd64", stanzas, archOf) + [] == For("amd64", stanzas, archOf);
    assert For("arm64", stanzas, archOf) + [] == For("arm64", stanzas, archOf);
  }

  /** The loop over the stanzas (134-146); `archOf` is the Architecture field that the
      regular expression finds. */
  method Partition(stanzas: seq<string>, archOf: string -> Option<string>) returns (byArch: Option<map<string, seq<string>>>)
    ensures byArch.Some? <==> forall i :: 0 <= i < |stanzas| ==> Known(archOf(stanzas[i]))
    ensures byArch.Some? ==> byArch.value == Both(stanzas, archOf)
  {
    var m := map["amd64" := [], "arm64" := []];
    assert stanzas[..0] == [] && Both([], archOf) == m;
    hide Both, For;
    for i := 0 to |stanzas|
      invariant m == Both(stanzas[..i], archOf)
      invariant forall k :: 0 <= k < i ==> Known(archOf(stanzas[k]))
    {
      var st := stanzas[i];
      var arch := archOf(st);
      if arch.None? || !(arch.value == "all" || arch.value in DEB_ARCHES) { return None; }
      BothSnoc(stanzas[..i], st, archOf);
      assert stanzas[..i + 1] == stanzas[..i] + [st];
      if arch.value == "all" {
        m := m["amd64" := m["amd64"] + [st]]["arm64" := m["arm64"] + [st]];
      } else {
        m := m[arch.value := m[arch.value] + [st]];
      }
    }
    assert stanzas[..|stanzas|] == stanzas;
    return Some(m);
  }

  lemma {:induction false} ForClean(a: string, stanzas: seq<string>, archOf: string -> Option<string>)
    requires forall i :: 0 <= i < |stanzas| ==> Clean(stanzas[i])
    ensures forall i :: 0 <= i < |For(a, stanzas, archOf)| ==> Clean(For(a, stanzas, archOf)[i])
  {
    if stanzas != [] {
      assert forall i :: 0 <= i < |stanzas[1..]| ==> stanzas[1..][i] == stanzas[i + 1];
      ForClean(a, stanzas[1..], archOf);
    }
  }

  /** An architecture's index, as written, reads back as exactly the stanzas of the
      input that are its own or for all. */
  lemma IndexReadsBack(text: string, a: string, archOf: string -> Option<string>)
    ensures var own := For(a, SplitStanzas(text), archOf); SplitStanzas(Render(own)) == own
  {
    SplitsIntoClean(text);
    ForClean(a, SplitStanzas(text), archOf);
    CleanComesBack(For(a, SplitStanzas(text), archOf));
  }
}
