/** The reader as it runs: loops that push decoded elements, tied to the decoding functions on every
    byte buffer, well formed or not. */
module BufferReading {
  import opened Bytes
  import opened Wrappers
  import opened Schemas
  import opened Layout
  import opened LayoutFacts
  import opened Values
  import opened Reader

  /** The elements decoded so far in front of the rest. */
  function Prefixed(out: seq<Value>, rest: Read<seq<Value>>): Read<seq<Value>> {
    if rest.Err? then rest else Ok(out + rest.value)
  }

  lemma PrefixedNone(rest: Read<seq<Value>>)
    ensures Prefixed([], rest) == rest
  {
    if rest.Ok? { assert [] + rest.value == rest.value; }
  }

  lemma PrefixedCons(out: seq<Value>, v: Value, rest: Read<seq<Value>>)
    ensures Prefixed(out, Cons(Ok(v), rest)) == Prefixed(out + [v], rest)
  {
    if rest.Ok? { assert out + ([v] + rest.value) == (out + [v]) + rest.value; }
  }

  method ReadFieldAt(b: seq<byte>, slot: nat, ty: TypeRepr) returns (r: Read<Value>)
    ensures r == FieldAt(b, slot, ty)
    decreases Depth(ty), 4
  {
    hide LeVal, TargetAt, ScalarValue, OffsetsFor;
    if ty.Unit? { return Ok(OptionNone()); }
    if ty.Inline?() {
      if slot + InlineSize(ty) > |b| { return Err(Malformed); }
      return Ok(ScalarValue(ty, b[slot..slot + InlineSize(ty)]));
    }
    if ty.Closure? { return Err(Unsupported); }
    if ty.Schema? && OffsetsFor(ty.schema.fields).None? { return Err(Malformed); }
    if slot + 4 > |b| { return Err(Malformed); }
    r := ReadTargetAt(b, U32At(b, slot), ty);
  }

  method ReadTargetAt(b: seq<byte>, p: nat, ty: TypeRepr) returns (r: Read<Value>)
    ensures r == TargetAt(b, p, ty)
    decreases Depth(ty), 3
  {
    hide StringAt, ListAt, RecordAt, VariantAt;
    match ty
    case String => return StringAt(b, p);
    case List(e) =>
      var items := ReadListValueAt(b, p, e);
      return if items.Ok? then Ok(VList(items.value)) else Err(items.error);
    case Schema(s) => r := ReadRecordAt(b, p, s);
    case Option(_) => r := ReadVariantRecordAt(b, p, ty);
    case Result(_, _) => r := ReadVariantRecordAt(b, p, ty);
    case Enum(_, _) => r := ReadVariantRecordAt(b, p, ty);
    case _ => return Err(Unsupported);
  }

  method ReadInlineScalarListAt(b: seq<byte>, header: nat, e: TypeRepr) returns (r: Read<seq<Value>>)
    requires e.Scalar?()
    ensures r == ScalarListAt(b, header, e)
  {
    hide LeVal, ScalarValue, AlignUp, ElemAlign, ScalarsAt;
    if header + 4 > |b| { return Err(Malformed); }
    var count := U32At(b, header);
    var start := AlignUp(header + 4, ElemAlign(e));
    if start + ElemsSize(e, count) > |b| { return Err(Malformed); }
    var out: seq<Value> := [];
    var off := start;
    for k := 0 to count
      invariant off == start + ElemsSize(e, k) && off + ElemsSize(e, count - k) <= |b|
      invariant ScalarsAt(b, start, count, e) == out + ScalarsAt(b, off, count - k, e)
    {
      ScalarsStep(b, off, count - k, e, out);
      out := out + [ScalarValue(e, b[off..off + ElemSize(e)])];
      off := off + ElemSize(e);
    }
    ScalarsNone(b, off, e, out);
    return Ok(out);
  }

  lemma ScalarsStep(b: seq<byte>, off: nat, n: nat, e: TypeRepr, out: seq<Value>)
    requires e.Scalar?() && n > 0 && off + ElemsSize(e, n) <= |b|
    ensures out + ScalarsAt(b, off, n, e) ==
      (out + [ScalarValue(e, b[off..off + ElemSize(e)])]) + ScalarsAt(b, off + ElemSize(e), n - 1, e)
  {
    hide ScalarValue;
  }

  lemma ScalarsNone(b: seq<byte>, off: nat, e: TypeRepr, out: seq<Value>)
    requires e.Scalar?() && off <= |b|
    ensures out + ScalarsAt(b, off, 0, e) == out
  {
  }

  method ReadListValueAt(b: seq<byte>, header: nat, e: TypeRepr) returns (r: Read<seq<Value>>)
    ensures r == ListAt(b, header, e)
    decreases Depth(e), 9
  {
    hide LeVal, ScalarListAt, ElementAt, OffsetsFor;
    if e.Scalar?() {
      r := ReadInlineScalarListAt(b, header, e);
      return;
    }
    if e.Unit? || e.Closure? { return Err(Unsupported); }
    if e.Schema? && OffsetsFor(e.schema.fields).None? { return Err(Malformed); }
    if header + 4 > |b| { return Err(Malformed); }
    var count := U32At(b, header);
    if header + 4 + 4 * count > |b| { return Err(Malformed); }
    var out: seq<Value> := [];
    PrefixedNone(EntriesAt(b, header + 4, count, e));
    for i := 0 to count
      invariant EntriesAt(b, header + 4, count, e) == Prefixed(out, EntriesAt(b, header + 4 + 4 * i, count - i, e))
    {
      var v := ReadElementAt(b, U32At(b, header + 4 + 4 * i), e);
      if v.Err? { return Err(v.error); }
      PrefixedCons(out, v.value, EntriesAt(b, header + 8 + 4 * i, count - i - 1, e));
      out := out + [v.value];
    }
    assert out + [] == out;
    return Ok(out);
  }

  method ReadElementAt(b: seq<byte>, p: nat, e: TypeRepr) returns (r: Read<Value>)
    ensures r == ElementAt(b, p, e)
    decreases Depth(e), 7
  {
    hide TargetAt, OffsetsFor;
    if e.Schema? {
      var t := OffsetsFor(e.schema.fields);
      if t.None? || p + t.value.rootSize > |b| { return Err(Malformed); }
    }
    r := ReadTargetAt(b, p, e);
  }

  method ReadRecordAt(b: seq<byte>, base: nat, s: SchemaRepr) returns (r: Read<Value>)
    ensures r == RecordAt(b, base, s)
    decreases 1 + FieldsDepth(s.fields), 2
  {
    hide FieldAt, OffsetsFor, FindOffset, Assemble;
    var table := OffsetsFor(s.fields);
    if table.None? { return Err(Malformed); }
    var t, fs := table.value, s.fields;
    var out: seq<Value> := [];
    assert fs[0..] == fs;
    PrefixedNone(SlotsAt(b, base, t, fs));
    for k := 0 to |fs|
      invariant SlotsAt(b, base, t, fs) == Prefixed(out, SlotsAt(b, base, t, fs[k..])) && |out| == k
    {
      var fo := FindOffset(t.fields, fs[k].name);
      assert fs[k..][0] == fs[k] && fs[k..][1..] == fs[k + 1..];
      if fo.None? { return Err(Malformed); }
      FieldDepth(fs, k);
      var v := ReadFieldAt(b, base + fo.value.offset, fs[k].ty);
      if v.Err? { return Err(v.error); }
      PrefixedCons(out, v.value, SlotsAt(b, base, t, fs[k + 1..]));
      out := out + [v.value];
    }
    assert out + [] == out;
    return Ok(Assemble(s, out));
  }

  method ReadVariantRecordAt(b: seq<byte>, p: nat, ty: TypeRepr) returns (r: Read<Value>)
    ensures r == VariantAt(b, p, ty)
    decreases Depth(ty), 2
  {
    hide FieldAt, SelectPayload, WrapVariant, BareVariant, PayloadSlotOffset;
    if p + 1 > |b| { return Err(Malformed); }
    match SelectPayload(ty, b[p])
    case BadTag => return Err(Malformed);
    case NoPayload => return Ok(BareVariant(ty, b[p]));
    case Payload(pty) =>
      var v := ReadFieldAt(b, PayloadSlotOffset(p, pty), pty);
      if v.Err? { return Err(v.error); }
      var w := WrapVariant(ty, b[p], v.value);
      return if w.Some? then Ok(w.value) else Err(Malformed);
  }
}
