/** Callback tables that carry their own size (src/capi/uvcpp_c_internal.h 272-306):
    the caller says how much of the structure it knows, and only fields that lie
    wholly within are read.  A layout is any list of fields; memory is bytes. */
module VersionedTables {
  import opened Base

  type Byte = x: int | 0 <= x < 256 witness 0

  /** A field's offset and length in the structure. */
  datatype Field = Field(off: nat, len: nat)

  /** The `size` field itself: an unsigned integer of 32 bits at offset 0. */
  const SIZE_LEN := 4

  /** The fields follow the size field, in the order of declaration, apart. */
  ghost predicate Layout(fields: seq<Field>) {
    && (forall i :: 0 <= i < |fields| ==> fields[i].off >= SIZE_LEN)
    && (forall i, j :: 0 <= i < j < |fields| ==> fields[i].off + fields[i].len <= fields[j].off)
  }

  /** field_present (284-295). */
  predicate Present(size: nat, f: Field) {
    size >= f.off + f.len
  }

  /** table_size_ok (304-306). */
  predicate SizeOk(size: nat) {
    size >= SIZE_LEN
  }

  /** What a field holds when it was not given. */
  function Null(f: Field): (z: seq<Byte>)
    ensures |z| == f.len && forall i :: 0 <= i < f.len ==> z[i] == 0
  {
    seq(f.len, i => 0)
  }

  /** The caller's structure: its size, and the memory that it starts, of which at
      least the first `size` bytes are its own. */
  datatype Table = Table(size: nat, bytes: seq<Byte>)

  predicate Owned(t: Table) { t.size <= |t.bytes| }

  function Installed(f: Field, t: Table): seq<Byte>
    requires Owned(t)
  {
    if Present(t.size, f) then t.bytes[f.off..f.off + f.len] else Null(f)
  }

  /** A copied table, field by field: the caller's fields as far as its size goes,
      and null beyond. */
  function Copied(fields: seq<Field>, t: Table): seq<seq<Byte>>
    requires Owned(t)
  {
    seq(|fields|, i requires 0 <= i < |fields| => Installed(fields[i], t))
  }

  function Nulls(fields: seq<Field>): seq<seq<Byte>> {
    seq(|fields|, i requires 0 <= i < |fields| => Null(fields[i]))
  }

  /** How many of a layout's fields a size covers. */
  function Covered(fields: seq<Field>, size: nat): (k: nat)
    ensures k <= |fields|
  {
    if fields == [] || !Present(size, fields[0]) then 0 else 1 + Covered(fields[1..], size)
  }

  /** The fields read are a first part of the layout, and they are all that the
      size covers. */
  lemma {:induction false} PrefixIsCovered(fields: seq<Field>, size: nat)
    requires Layout(fields)
    ensures forall i :: 0 <= i < |fields| ==> (Present(size, fields[i]) <==> i < Covered(fields, size))
    decreases |fields|
  {
    if fields != [] {
      var rest := fields[1..];
      assert forall i :: 0 <= i < |rest| ==> rest[i] == fields[i + 1];
      PrefixIsCovered(rest, size);
      forall i | 0 < i < |fields| ensures Present(size, fields[i]) <==> i < Covered(fields, size) {
        assert fields[i] == rest[i - 1];
        assert fields[0].off + fields[0].len <= fields[i].off;
      }
    }
  }

  /** Of the caller's memory, nothing at or past its size has any influence. */
  lemma NothingBeyondSizeIsRead(fields: seq<Field>, size: nat, a: seq<Byte>, b: seq<Byte>)
    requires size <= |a| && size <= |b| && a[..size] == b[..size]
    ensures Copied(fields, Table(size, a)) == Copied(fields, Table(size, b))
  {
    forall i | 0 <= i < |fields| ensures Installed(fields[i], Table(size, a)) == Installed(fields[i], Table(size, b)) {
      var f := fields[i];
      if Present(size, f) {
        assert a[f.off..f.off + f.len] == a[..size][f.off..f.off + f.len];
        assert b[f.off..f.off + f.len] == b[..size][f.off..f.off + f.len];
      }
    }
  }

  /** A caller that knows a shorter structure gets, from a library that knows a
      longer one, what it always got, and null in the fields that it does not know;
      and one that knows a longer structure gets all of its fields. */
  lemma AppendingKeepsOldCallers(fields: seq<Field>, more: seq<Field>, t: Table)
    requires Owned(t) && Layout(fields + more)
    ensures (forall i :: 0 <= i < |more| ==> t.size <= more[i].off && more[i].len > 0) ==>
              Copied(fields + more, t) == Copied(fields, t) + Nulls(more)
    ensures Copied(fields + more, t)[..|fields|] == Copied(fields, t)
    ensures (forall i :: 0 <= i < |fields| ==> fields[i].off + fields[i].len <= t.size) ==>
              forall i :: 0 <= i < |fields| ==>
                Copied(fields, t)[i] == t.bytes[fields[i].off..fields[i].off + fields[i].len]
  {
    var all := fields + more;
    assert forall i :: 0 <= i < |fields| ==> all[i] == fields[i];
    assert forall i :: 0 <= i < |more| ==> all[|fields| + i] == more[i];
    if forall i :: 0 <= i < |more| ==> t.size <= more[i].off && more[i].len > 0 {
      assert Copied(all, t) == Copied(fields, t) + Nulls(more);
    }
    assert Copied(all, t)[..|fields|] == Copied(fields, t);
  }

  // ------------------------------------------------------ installing a new table

  predicate Refused(table: Option<Table>) {
    table.Some? && !SizeOk(table.value.size)
  }

  ghost predicate Given(table: Option<Table>) {
    table.Some? ==> Owned(table.value)
  }

  ghost function New(fields: seq<Field>, table: Option<Table>): seq<seq<Byte>>
    requires Given(table)
  {
    if table.Some? then Copied(fields, table.value) else Nulls(fields)
  }

  /** The tables of uvcpp_c_quic.cpp (356-386), uvcpp_c_http3.cpp (291-311) and
      uvcpp_c_net.cpp (324-350): the old table is cleared before anything is known of
      the new one. */
  ghost function ClearingFirst(fields: seq<Field>, table: Option<Table>): (seq<seq<Byte>>, Code)
    requires Given(table)
  {
    if Refused(table) then (Nulls(fields), InvalidArg) else (New(fields, table), Ok)
  }

  /** The table of uvcpp_c_http2.cpp (328-372): a bad size is refused before the old
      table is touched. */
  ghost function CheckingFirst(fields: seq<Field>, installed: seq<seq<Byte>>, table: Option<Table>): (seq<seq<Byte>>, Code)
    requires Given(table)
  {
    if Refused(table) then (installed, InvalidArg) else (New(fields, table), Ok)
  }

  /** So the two disciplines agree exactly unless a table is refused while one is
      installed: then the first has lost it. */
  lemma DisciplinesAgreeIff(fields: seq<Field>, installed: seq<seq<Byte>>, table: Option<Table>)
    requires Given(table)
    ensures ClearingFirst(fields, table) == CheckingFirst(fields, installed, table)
            <==> !Refused(table) || installed == Nulls(fields)
  {
  }

  class Callbacks {
    const fields: seq<Field>
    var installed: seq<seq<Byte>>

    constructor (fields: seq<Field>)
      ensures this.fields == fields && installed == Nulls(fields)
    {
      this.fields := fields;
      installed := Nulls(fields);
    }

    method Clear()
      modifies this`installed
      ensures installed == Nulls(fields)
    {
      installed := Nulls(fields);
    }

    /** The fields of a table, one after the other, into the cleared one. */
    method CopyFields(t: Table)
      requires Owned(t) && installed == Nulls(fields)
      modifies this`installed
      ensures installed == Copied(fields, t)
    {
      for i := 0 to |fields|
        invariant |installed| == |fields|
        invariant forall k :: 0 <= k < |fields| ==> installed[k] == if k < i then Installed(fields[k], t) else Null(fields[k])
      {
        var f := fields[i];
        if Present(t.size, f) {
          installed := installed[i := t.bytes[f.off..f.off + f.len]];
        }
      }
    }

    method SetClearingFirst(table: Option<Table>) returns (code: Code)
      requires Given(table)
      modifies this`installed
      ensures (installed, code) == ClearingFirst(fields, table)
    {
      Clear();
      if table.None? { return Ok; }
      if !SizeOk(table.value.size) { return InvalidArg; }
      CopyFields(table.value);
      return Ok;
    }

    method SetCheckingFirst(table: Option<Table>) returns (code: Code)
      requires Given(table)
      modifies this`installed
      ensures (installed, code) == CheckingFirst(fields, old(installed), table)
    {
      if table.Some? && !SizeOk(table.value.size) { return InvalidArg; }
      Clear();
      if table.Some? { CopyFields(table.value); }
      return Ok;
    }
  }
}
