/** The typed readers next to the generic one: on every byte buffer, valid or not, each succeeds
    exactly when the generic reader does on the same slot, and returns the same elements. */
module SpecialisedReading {
  import opened Bytes
  import opened Wrappers
  import opened Schemas
  import opened Layout
  import opened Values
  import opened Reader
  import opened BufferReading

  /** Follows a pointer slot to a record: its count, and where its payload starts after padding. */
  function PointerHeader(b: seq<byte>, slot: nat, inner: Alignment): Option<(nat, nat)> {
    if slot + 4 > |b| then None
    else
      var p := U32At(b, slot);
      if p + 4 > |b| then None else Some((U32At(b, p), AlignUp(p + 4, inner)))
  }

  method DecodePointerHeader(b: seq<byte>, slot: nat, inner: Alignment) returns (r: Option<(nat, nat)>)
    ensures r == PointerHeader(b, slot, inner)
  {
    hide LeVal;
    if slot + 4 > |b| { return None; }
    var record := U32At(b, slot);
    if record + 4 > |b| { return None; }
    var start := record + 4;
    if inner > 1 {
      var rem := start % inner;
      if rem != 0 { start := start + (inner - rem); }
    }
    RemainderPads(record + 4, inner);
    return Some((U32At(b, record), start));
  }

  lemma RemainderPads(n: nat, a: Alignment)
    ensures AlignUp(n, a) == if n % a == 0 then n else n + (a - n % a)
  {
    if a == 8 {
      Pads8(n, n / 8, n % 8);
    } else if a == 4 {
      Pads4(n, n / 4, n % 4);
    }
  }

  lemma Pads8(n: nat, q: nat, r: nat)
    requires n == 8 * q + r && r < 8
    ensures Up8(n) == if r == 0 then n else n + (8 - r)
  {
    assert (n + 7) / 8 == if r == 0 then q else q + 1;
  }

  lemma Pads4(n: nat, q: nat, r: nat)
    requires n == 4 * q + r && r < 4
    ensures Up4(n) == if r == 0 then n else n + (4 - r)
  {
    assert (n + 3) / 4 == if r == 0 then q else q + 1;
  }

  /** A list of inline scalars behind a slot, through its header. */
  lemma ScalarSlot(b: seq<byte>, slot: nat, e: TypeRepr)
    requires e.Scalar?()
    ensures var h := PointerHeader(b, slot, ElemAlign(e));
      var g := FieldAt(b, slot, TypeRepr.List(e));
      && (h.None? ==> g.Err?)
      && (h.Some? && h.value.1 + ElemsSize(e, h.value.0) > |b| ==> g.Err?)
      && (h.Some? && h.value.1 + ElemsSize(e, h.value.0) <= |b| ==>
            g == Ok(VList(ScalarsAt(b, h.value.1, h.value.0, e))))
  {
    hide LeVal, AlignUp, ScalarsAt;
    if slot + 4 <= |b| {
      var p := U32At(b, slot);
      assert FieldAt(b, slot, TypeRepr.List(e)) == TargetAt(b, p, TypeRepr.List(e));
      assert ListAt(b, p, e) == ScalarListAt(b, p, e);
    }
  }

  lemma IntAt(b: seq<byte>, off: nat, x: i64)
    requires off + 8 <= |b| && x == I64OfBits(U64Of(b[off..off + 8]))
    ensures ScalarValue(TypeRepr.Int, b[off..off + ElemSize(TypeRepr.Int)]) == VInt(x)
  {
  }

  lemma FloatAt(b: seq<byte>, off: nat, x: u64)
    requires off + 8 <= |b| && x == U64Of(b[off..off + 8])
    ensures ScalarValue(TypeRepr.Float, b[off..off + ElemSize(TypeRepr.Float)]) == VFloat(x)
  {
  }

  lemma IntsSnoc(xs: seq<i64>, x: i64)
    ensures Ints(xs + [x]) == Ints(xs) + [VInt(x)]
  {
  }

  lemma FloatsSnoc(xs: seq<u64>, x: u64)
    ensures Floats(xs + [x]) == Floats(xs) + [VFloat(x)]
  {
  }

  method ReadListInt(b: seq<byte>, slot: nat, tailAlignment: Alignment) returns (r: Option<seq<i64>>)
    requires tailAlignment == 8
    ensures r.Some? <==> FieldAt(b, slot, TypeRepr.List(TypeRepr.Int)).Ok?
    ensures r.Some? ==> FieldAt(b, slot, TypeRepr.List(TypeRepr.Int)) == Ok(VList(Ints(r.value)))
  {
    hide LeVal, AlignUp, ScalarsAt, FieldAt, I64OfBits, ScalarValue, Ints;
    ScalarSlot(b, slot, TypeRepr.Int);
    var h := DecodePointerHeader(b, slot, tailAlignment);
    if h.None? { return None; }
    var (count, start) := h.value;
    if start + 8 * count > |b| { return None; }
    var out: seq<i64> := [];
    var cursor := start;
    assert Ints(out) == [];
    for k := 0 to count
      invariant cursor == start + 8 * k && cursor + 8 * (count - k) <= |b|
      invariant ScalarsAt(b, start, count, TypeRepr.Int) == Ints(out) + ScalarsAt(b, cursor, count - k, TypeRepr.Int)
    {
      var x := I64OfBits(U64Of(b[cursor..cursor + 8]));
      ScalarsStep(b, cursor, count - k, TypeRepr.Int, Ints(out));
      IntAt(b, cursor, x);
      IntsSnoc(out, x);
      out := out + [x];
      cursor := cursor + 8;
    }
    ScalarsNone(b, cursor, TypeRepr.Int, Ints(out));
    return Some(out);
  }

  method ReadListFloat(b: seq<byte>, slot: nat, tailAlignment: Alignment) returns (r: Option<seq<u64>>)
    requires tailAlignment == 8
    ensures r.Some? <==> FieldAt(b, slot, TypeRepr.List(TypeRepr.Float)).Ok?
    ensures r.Some? ==> FieldAt(b, slot, TypeRepr.List(TypeRepr.Float)) == Ok(VList(Floats(r.value)))
  {
    hide LeVal, AlignUp, ScalarsAt, FieldAt, ScalarValue, Floats;
    ScalarSlot(b, slot, TypeRepr.Float);
    var h := DecodePointerHeader(b, slot, tailAlignment);
    if h.None? { return None; }
    var (count, start) := h.value;
    if start + 8 * count > |b| { return None; }
    var out: seq<u64> := [];
    var cursor := start;
    assert Floats(out) == [];
    for k := 0 to count
      invariant cursor == start + 8 * k && cursor + 8 * (count - k) <= |b|
      invariant ScalarsAt(b, start, count, TypeRepr.Float) ==
        Floats(out) + ScalarsAt(b, cursor, count - k, TypeRepr.Float)
    {
      var x := U64Of(b[cursor..cursor + 8]);
      ScalarsStep(b, cursor, count - k, TypeRepr.Float, Floats(out));
      FloatAt(b, cursor, x);
      FloatsSnoc(out, x);
      out := out + [x];
      cursor := cursor + 8;
    }
    ScalarsNone(b, cursor, TypeRepr.Float, Floats(out));
    return Some(out);
  }

  method ReadListBool(b: seq<byte>, slot: nat) returns (r: Option<seq<bool>>)
    ensures r.Some? <==> FieldAt(b, slot, TypeRepr.List(TypeRepr.Bool)).Ok?
    ensures r.Some? ==> FieldAt(b, slot, TypeRepr.List(TypeRepr.Bool)) == Ok(VList(Bools(r.value)))
  {
    hide LeVal, AlignUp, ScalarsAt, FieldAt;
    ScalarSlot(b, slot, TypeRepr.Bool);
    var h := DecodePointerHeader(b, slot, 1);
    if h.None? { return None; }
    var (count, start) := h.value;
    if start + count > |b| { return None; }
    var out: seq<bool> := [];
    assert Bools(out) == [];
    for k := 0 to count
      invariant ScalarsAt(b, start, count, TypeRepr.Bool) ==
        Bools(out) + ScalarsAt(b, start + k, count - k, TypeRepr.Bool)
    {
      var x := b[start + k] != 0;
      ScalarsStep(b, start + k, count - k, TypeRepr.Bool, Bools(out));
      assert b[start + k..start + k + 1][0] == b[start + k];
      assert Bools(out + [x]) == Bools(out) + [VBool(x)];
      out := out + [x];
    }
    ScalarsNone(b, start + count, TypeRepr.Bool, Bools(out));
    return Some(out);
  }

  // ----- pointer arrays -----

  /** A pointer array, through its header. */
  lemma ArrayAt(b: seq<byte>, p: nat, e: TypeRepr)
    requires e.String? || e.List?
    ensures p + 4 > |b| ==> ListAt(b, p, e).Err?
    ensures p + 4 <= |b| ==>
      ListAt(b, p, e) == if p + 4 + 4 * U32At(b, p) > |b| then Err(Malformed) else EntriesAt(b, p + 4, U32At(b, p), e)
  {
    hide LeVal, U32At, EntriesAt;
  }

  /** A pointer array behind a slot. */
  lemma ArraySlot(b: seq<byte>, slot: nat, e: TypeRepr)
    requires e.String? || e.List?
    ensures var h := PointerHeader(b, slot, 1);
      var g := FieldAt(b, slot, TypeRepr.List(e));
      && (h.None? ==> g.Err?)
      && (h.Some? && h.value.1 + 4 * h.value.0 > |b| ==> g.Err?)
      && (h.Some? && h.value.1 + 4 * h.value.0 <= |b| ==>
            var items := EntriesAt(b, h.value.1, h.value.0, e);
            g == if items.Ok? then Ok(VList(items.value)) else Err(items.error))
  {
    hide LeVal, EntriesAt, U32At, ListAt;
    if slot + 4 <= |b| {
      var p := U32At(b, slot);
      ArrayAt(b, p, e);
      assert FieldAt(b, slot, TypeRepr.List(e)) == TargetAt(b, p, TypeRepr.List(e));
      assert p + 4 <= |b| ==> AlignUp(p + 4, 1) == p + 4;
    }
  }

  lemma EntryStep(b: seq<byte>, off: nat, n: nat, e: TypeRepr, out: seq<Value>)
    requires n > 0 && off + 4 <= |b|
    ensures var v := ElementAt(b, U32At(b, off), e);
      && (v.Err? ==> Prefixed(out, EntriesAt(b, off, n, e)).Err?)
      && (v.Ok? ==>
            Prefixed(out, EntriesAt(b, off, n, e)) == Prefixed(out + [v.value], EntriesAt(b, off + 4, n - 1, e)))
  {
    hide LeVal, ElementAt;
    var v := ElementAt(b, U32At(b, off), e);
    if v.Ok? { PrefixedCons(out, v.value, EntriesAt(b, off + 4, n - 1, e)); }
  }

  lemma EntriesNone(b: seq<byte>, off: nat, e: TypeRepr, out: seq<Value>)
    ensures Prefixed(out, EntriesAt(b, off, 0, e)) == Ok(out)
  {
    assert out + [] == out;
  }

  /** The strings behind `count` entries. */
  method DecodeStrings(b: seq<byte>, count: nat, start: nat) returns (r: Option<seq<Utf8>>)
    requires start + 4 * count <= |b|
    ensures var g := EntriesAt(b, start, count, TypeRepr.String);
      && (r.Some? <==> g.Ok?)
      && (r.Some? ==> g == Ok(Strings(r.value)))
  {
    hide LeVal, EntriesAt, ValidUtf8;
    var out: seq<Utf8> := [];
    assert Strings(out) == [];
    PrefixedNone(EntriesAt(b, start, count, TypeRepr.String));
    for i := 0 to count
      invariant EntriesAt(b, start, count, TypeRepr.String) ==
        Prefixed(Strings(out), EntriesAt(b, start + 4 * i, count - i, TypeRepr.String))
    {
      var record := U32At(b, start + 4 * i);
      EntryStep(b, start + 4 * i, count - i, TypeRepr.String, Strings(out));
      assert ElementAt(b, record, TypeRepr.String) == StringAt(b, record);
      if record + 4 > |b| { return None; }
      var len := U32At(b, record);
      if record + 4 + len > |b| { return None; }
      if !ValidUtf8(b[record + 4..record + 4 + len]) { return None; }
      var s: Utf8 := b[record + 4..record + 4 + len];
      assert Strings(out + [s]) == Strings(out) + [VString(s)];
      out := out + [s];
    }
    EntriesNone(b, start + 4 * count, TypeRepr.String, Strings(out));
    return Some(out);
  }

  method ReadListString(b: seq<byte>, slot: nat) returns (r: Option<seq<Utf8>>)
    ensures r.Some? <==> FieldAt(b, slot, TypeRepr.List(TypeRepr.String)).Ok?
    ensures r.Some? ==> FieldAt(b, slot, TypeRepr.List(TypeRepr.String)) == Ok(VList(Strings(r.value)))
  {
    hide LeVal, FieldAt, EntriesAt;
    ArraySlot(b, slot, TypeRepr.String);
    var h := DecodePointerHeader(b, slot, 1);
    if h.None? { return None; }
    var (count, start) := h.value;
    if start + 4 * count > |b| { return None; }
    r := DecodeStrings(b, count, start);
  }

  /** The same from the offset of the list header instead of a slot. */
  method ReadListStringAt(b: seq<byte>, header: nat) returns (r: Option<seq<Utf8>>)
    ensures r.Some? <==> ListAt(b, header, TypeRepr.String).Ok?
    ensures r.Some? ==> ListAt(b, header, TypeRepr.String) == Ok(Strings(r.value))
  {
    hide LeVal, ListAt, EntriesAt;
    ArrayAt(b, header, TypeRepr.String);
    if header + 4 > |b| { return None; }
    var count := U32At(b, header);
    if header + 4 + 4 * count > |b| { return None; }
    r := DecodeStrings(b, count, header + 4);
  }

  function Rows(xss: seq<seq<Value>>): (r: seq<Value>)
    ensures |r| == |xss| && forall i :: 0 <= i < |r| ==> r[i] == VList(xss[i])
  {
    seq(|xss|, i requires 0 <= i < |xss| => VList(xss[i]))
  }

  /** Rows of inline scalars; a row count past the end of the buffer is refused before it is trusted. */
  method DecodeListListRows(b: seq<byte>, inner: TypeRepr, count: nat, start: nat) returns (r: Option<seq<seq<Value>>>)
    requires inner.Scalar?() && start + 4 * count <= |b|
    ensures var g := EntriesAt(b, start, count, TypeRepr.List(inner));
      && (r.Some? <==> g.Ok?)
      && (r.Some? ==> g == Ok(Rows(r.value)))
  {
    hide LeVal, EntriesAt, ScalarListAt;
    var out: seq<seq<Value>> := [];
    assert Rows(out) == [];
    PrefixedNone(EntriesAt(b, start, count, TypeRepr.List(inner)));
    for i := 0 to count
      invariant EntriesAt(b, start, count, TypeRepr.List(inner)) ==
        Prefixed(Rows(out), EntriesAt(b, start + 4 * i, count - i, TypeRepr.List(inner)))
    {
      var record := U32At(b, start + 4 * i);
      EntryStep(b, start + 4 * i, count - i, TypeRepr.List(inner), Rows(out));
      RowElement(b, record, inner);
      if record + 4 > |b| { return None; }
      var n := U32At(b, record);
      var payload := AlignUp(record + 4, ElemAlign(inner));
      if n > (if |b| > payload then |b| - payload else 0) { return None; }
      var row := ReadInlineScalarListAt(b, record, inner);
      if row.Err? { return None; }
      assert Rows(out + [row.value]) == Rows(out) + [VList(row.value)];
      out := out + [row.value];
    }
    EntriesNone(b, start + 4 * count, TypeRepr.List(inner), Rows(out));
    return Some(out);
  }

  lemma RowElement(b: seq<byte>, record: nat, inner: TypeRepr)
    requires inner.Scalar?()
    ensures var row := ScalarListAt(b, record, inner);
      ElementAt(b, record, TypeRepr.List(inner)) == if row.Ok? then Ok(VList(row.value)) else Err(row.error)
    ensures record + 4 > |b| ==> ScalarListAt(b, record, inner).Err?
    ensures record + 4 <= |b| && U32At(b, record) + AlignUp(record + 4, ElemAlign(inner)) > |b| ==>
      ScalarListAt(b, record, inner).Err?
  {
    hide LeVal, AlignUp, ScalarsAt;
    assert ElementAt(b, record, TypeRepr.List(inner)) == TargetAt(b, record, TypeRepr.List(inner));
    assert ListAt(b, record, inner) == ScalarListAt(b, record, inner);
  }

  method ReadListList(b: seq<byte>, slot: nat, inner: TypeRepr) returns (r: Option<seq<seq<Value>>>)
    requires inner.Scalar?()
    ensures r.Some? <==> FieldAt(b, slot, TypeRepr.List(TypeRepr.List(inner))).Ok?
    ensures r.Some? ==> FieldAt(b, slot, TypeRepr.List(TypeRepr.List(inner))) == Ok(VList(Rows(r.value)))
  {
    hide LeVal, FieldAt, EntriesAt;
    ArraySlot(b, slot, TypeRepr.List(inner));
    var h := DecodePointerHeader(b, slot, 1);
    if h.None? { return None; }
    var (count, start) := h.value;
    if start + 4 * count > |b| { return None; }
    r := DecodeListListRows(b, inner, count, start);
  }

  method ReadListListAt(b: seq<byte>, header: nat, inner: TypeRepr) returns (r: Option<seq<seq<Value>>>)
    requires inner.Scalar?()
    ensures r.Some? <==> ListAt(b, header, TypeRepr.List(inner)).Ok?
    ensures r.Some? ==> ListAt(b, header, TypeRepr.List(inner)) == Ok(Rows(r.value))
  {
    hide LeVal, ListAt, EntriesAt;
    ArrayAt(b, header, TypeRepr.List(inner));
    if header + 4 > |b| { return None; }
    var count := U32At(b, header);
    if header + 4 + 4 * count > |b| { return None; }
    r := DecodeListListRows(b, inner, count, header + 4);
  }

  // ----- single values -----

  method ReadInt(b: seq<byte>, slot: nat) returns (r: i64)
    requires slot + 8 <= |b|
    ensures FieldAt(b, slot, TypeRepr.Int) == Ok(VInt(r))
  {
    return I64OfBits(U64Of(b[slot..slot + 8]));
  }

  method ReadFloat(b: seq<byte>, slot: nat) returns (r: u64)
    requires slot + 8 <= |b|
    ensures FieldAt(b, slot, TypeRepr.Float) == Ok(VFloat(r))
  {
    return U64Of(b[slot..slot + 8]);
  }

  method ReadBool(b: seq<byte>, slot: nat) returns (r: bool)
    requires slot < |b|
    ensures FieldAt(b, slot, TypeRepr.Bool) == Ok(VBool(r))
  {
    assert b[slot..slot + 1][0] == b[slot];
    return b[slot] != 0;
  }

  method ReadString(b: seq<byte>, slot: nat) returns (r: Option<Utf8>)
    ensures r.Some? <==> FieldAt(b, slot, TypeRepr.String).Ok?
    ensures r.Some? ==> FieldAt(b, slot, TypeRepr.String) == Ok(VString(r.value))
  {
    hide LeVal, ValidUtf8;
    if slot + 4 <= |b| {
      assert FieldAt(b, slot, TypeRepr.String) == StringAt(b, U32At(b, slot));
    }
    var h := DecodePointerHeader(b, slot, 1);
    if h.None? { return None; }
    var (len, start) := h.value;
    if start + len > |b| || !ValidUtf8(b[start..start + len]) { return None; }
    return Some(b[start..start + len]);
  }
}
