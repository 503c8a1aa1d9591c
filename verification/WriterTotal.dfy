/** Which writes succeed: every value that conforms to its type and fits the 32-bit address space. */
module WriterTotal {
  import opened Bytes
  import opened Wrappers
  import opened Schemas
  import opened Layout
  import opened LayoutFacts
  import opened Values
  import opened Reader
  import opened Graph
  import opened GraphFacts
  import opened Relocation
  import opened RelocationFacts
  import opened Paste
  import opened Writer
  import opened WriterFrame
  import opened WriterFacts
  import opened RecordFacts
  import opened WriteSteps
  import opened WriterCorrect

  /** An upper bound on the bytes that writing `v` appends, padding included. */
  function Size(ty: TypeRepr, v: Value): nat
    decreases Depth(ty), 1
  {
    match ty
    case String => if v.VString? then 7 + |v.s| else 0
    case List(e) => if v.VList? then 14 + 8 * |v.items| + ItemsSize(e, v.items) else 0
    case Schema(s) =>
      (match (OffsetsFor(s.fields), RecordValues(s, v))
       case (Some(t), Some(raw)) => 7 + t.rootSize + FieldsSize(s.fields, raw)
       case _ => 0)
    case Option(_) => ChoiceSize(ty, v)
    case Result(_, _) => ChoiceSize(ty, v)
    case Enum(_, _) => ChoiceSize(ty, v)
    case _ => 0
  }

  function ChoiceSize(ty: TypeRepr, v: Value): nat
    decreases Depth(ty), 0
  {
    match VariantPayloadFor(ty, v)
    case Some(Carry(_, pty, pv)) => 23 + Size(pty, pv)
    case _ => 8
  }

  function ItemsSize(e: TypeRepr, items: seq<Value>): nat
    decreases Depth(e), 2, |items|
  {
    if items == [] then 0 else Size(e, items[0]) + ItemsSize(e, items[1..])
  }

  function FieldsSize(fs: seq<Field>, raw: seq<Value>): nat
    requires |raw| == |fs|
    decreases FieldsDepth(fs), 2, |fs|
  {
    if fs == [] then 0 else Size(fs[0].ty, raw[0]) + FieldsSize(fs[1..], raw[1..])
  }

  lemma PadBound(b: seq<byte>, a: Alignment)
    ensures |PadTo(b, a)| <= |b| + a - 1
  {
  }

  /** An append that fits succeeds and stays within the bound. */
  lemma {:induction false} TargetFits(b: seq<byte>, ty: TypeRepr, v: Value, inList: bool)
    requires Good(ty) && ty.Pointer?() && Norm(ty, v).Some? && Writable(ty, v) && |b| + Size(ty, v) < U32_LIMIT
    ensures var r := AppendTarget(b, ty, v, inList); r.Done? && r.off <= |r.bytes| <= |b| + Size(ty, v)
    decreases Depth(ty), 3
  {
    hide Good, AppendList, AppendRecord, AppendVariant, ChoiceSize, ItemsSize, FieldsSize, Le;
    match ty
    case String => PadBound(b, 4);
    case List(e) => ListFits(b, e, v.items); assert v == VList(v.items);
    case Schema(s) => RecordFits(b, s, v);
    case Option(_) => VariantFits(b, ty, v);
    case Result(_, _) => VariantFits(b, ty, v);
    case Enum(_, _) => VariantFits(b, ty, v);
  }

  lemma {:induction false} ListFits(b: seq<byte>, e: TypeRepr, items: seq<Value>)
    requires Good(TypeRepr.List(e)) && NormItems(e, items).Some? && AllWritable(e, items)
    requires |b| + 14 + 8 * |items| + ItemsSize(e, items) < U32_LIMIT
    ensures var r := AppendList(b, e, items);
      r.Done? && r.off <= |r.bytes| <= |b| + 14 + 8 * |items| + ItemsSize(e, items)
    decreases Depth(e), 9
  {
    hide Le, NormItems, AllWritable, ItemsSize, ScalarPayload, AppendItems, PatchEntries;
    PadBound(b, 4);
    if e.Scalar?() {
      ScalarsConform(e, items);
      PadBound(PadTo(b, 4) + Le(|items|, 4), PayloadAlign(e));
    } else {
      ListElementGood(e);
      ItemsFit(PadTo(b, 4) + Le(|items|, 4) + Zeros(4 * |items|), e, items);
    }
  }

  lemma {:induction false} ScalarsConform(e: TypeRepr, items: seq<Value>)
    requires e.Scalar?() && NormItems(e, items).Some?
    ensures ScalarPayload(e, items).Some?
    decreases |items|
  {
    hide Le, F64OfInt, I64Bits;
    if items != [] {
      assert Norm(e, items[0]).Some?;
      ScalarsConform(e, items[1..]);
    }
  }

  lemma {:induction false} ItemsFit(b: seq<byte>, e: TypeRepr, items: seq<Value>)
    requires Good(e) && e.Pointer?() && NormItems(e, items).Some? && AllWritable(e, items)
    requires |b| + ItemsSize(e, items) < U32_LIMIT
    ensures var r := AppendItems(b, e, items); r.Items? && |r.bytes| <= |b| + ItemsSize(e, items)
    decreases Depth(e), 8, |items|
  {
    hide Good, AppendTarget, Norm, Writable, Size;
    if items != [] {
      TargetFits(b, e, items[0], true);
      ItemsFit(AppendTarget(b, e, items[0], true).bytes, e, items[1..]);
    }
  }

  lemma {:induction false} RecordFits(b: seq<byte>, s: SchemaRepr, v: Value)
    requires Good(TypeRepr.Schema(s)) && Norm(TypeRepr.Schema(s), v).Some? && Writable(TypeRepr.Schema(s), v)
    requires |b| + Size(TypeRepr.Schema(s), v) < U32_LIMIT
    ensures var r := AppendRecord(b, s, v);
      r.Done? && r.off <= |r.bytes| <= |b| + Size(TypeRepr.Schema(s), v)
    decreases 1 + FieldsDepth(s.fields), 2
  {
    hide OffsetsFor, BuildRecord, PasteAt, FieldsSize;
    SchemaGood(s);
    GoodRecordLayout(s.fields);
    var t := OffsetsFor(s.fields).value;
    ChildFits(t, s, v);
    hide Size, Norm;
    PasteFits(b, SchemaPasteAlign(t, s.fields), t, s, v);
  }

  /** A detached record that fits is built. */
  lemma {:induction false} ChildFits(t: OffsetTable, s: SchemaRepr, v: Value)
    requires GoodRecord(s.fields) && OffsetsFor(s.fields) == Some(t)
    requires Norm(TypeRepr.Schema(s), v).Some? && FieldsWritable(s.fields, RecordValues(s, v).value)
    requires 7 + t.rootSize + FieldsSize(s.fields, RecordValues(s, v).value) < U32_LIMIT
    ensures BuildRecord(t, s, v).Some?
    ensures |BuildRecord(t, s, v).value| <= t.rootSize + FieldsSize(s.fields, RecordValues(s, v).value)
    decreases FieldsDepth(s.fields), 7
  {
    hide OffsetsFor, WriteFields, FieldsSize, NormFields, FieldsWritable, GoodRecord;
    var fs, raw := s.fields, RecordValues(s, v).value;
    assert fs[0..] == fs && raw[0..] == raw;
    FieldsFit(Zeros(t.rootSize), t, fs, raw, 0);
  }

  lemma {:induction false} FieldsFit(b: seq<byte>, t: OffsetTable, fs: seq<Field>, raw: seq<Value>, k: nat)
    requires GoodRecord(fs) && OffsetsFor(fs) == Some(t) && |raw| == |fs| && k <= |fs| && t.rootSize <= |b|
    requires NormFields(fs[k..], raw[k..]).Some? && FieldsWritable(fs[k..], raw[k..])
    requires |b| + FieldsSize(fs[k..], raw[k..]) < U32_LIMIT
    ensures var r := WriteFields(b, t, fs[k..], raw[k..]);
      r.Some? && |r.value| <= |b| + FieldsSize(fs[k..], raw[k..])
    decreases FieldsDepth(fs), 6, |fs| - k
  {
    hide WriteSlot, GoodRecord, OffsetsFor, FindOffset, Norm, Writable, Size;
    if k == |fs| {
      WriteNoFields(b, t, fs, raw);
    } else {
      assert fs[k..][1..] == fs[k + 1..] && raw[k..][1..] == raw[k + 1..];
      SlotRoom(fs, t, k);
      GoodField(fs, k);
      FieldDepth(fs, k);
      WriteFieldsStep(b, t, fs, raw, k);
      SlotFits(b, t.fields[k].offset, fs[k].ty, raw[k]);
      FieldsFit(WriteSlot(b, t.fields[k].offset, fs[k].ty, raw[k]).bytes, t, fs, raw, k + 1);
    }
  }

  /** Relocating and appending a record that fits succeeds. */
  lemma PasteFits(b: seq<byte>, align: Alignment, t: OffsetTable, s: SchemaRepr, v: Value)
    requires Good(TypeRepr.Schema(s)) && OffsetsFor(s.fields) == Some(t)
    requires BuildRecord(t, s, v).Some? && Writable(TypeRepr.Schema(s), v)
    requires |b| + 7 + |BuildRecord(t, s, v).value| < U32_LIMIT
    ensures var r := PasteAt(b, align, t, s.fields, BuildRecord(t, s, v).value);
      r.Done? && r.off <= |r.bytes| <= |b| + 7 + |BuildRecord(t, s, v).value|
  {
    hide OffsetsFor, BuildRecord, RelocPointers, RelocTarget, FieldsWritable, GoodRecord, Owns, Norm, Decode,
      RebasableValue;
    var child := BuildRecord(t, s, v).value;
    RecordWritable(t, s, v);
    var c := ChildWritten(t, s, v);
    PadBound(b, align);
    SchemaGood(s);
    RecordByType(child, 0, s, |PadTo(b, align)|);
    RelocationSucceeds(child, c, |PadTo(b, align)|);
  }

  lemma {:induction false} VariantFits(b: seq<byte>, ty: TypeRepr, v: Value)
    requires Good(ty) && ty.Variant?() && Norm(ty, v).Some? && ChoiceWritable(ty, v)
    requires |b| + ChoiceSize(ty, v) < U32_LIMIT
    ensures var r := AppendVariant(b, ty, v); r.Done? && r.off <= |r.bytes| <= |b| + ChoiceSize(ty, v)
    decreases Depth(ty), 2
  {
    hide WriteSlot, Good, Writable, PayloadSlotRuntime, VariantAlignRuntime, VariantPayloadFor, Size, SelectPayload,
      AlignUp, WrapVariant, BareVariant;
    var c := VariantPayloadFor(ty, v).value;
    ChoiceSelects(ty, v, c);
    PadBound(b, VariantAlignRuntime(ty));
    if c.Carry? {
      var p := PadTo(b, VariantAlignRuntime(ty));
      GoodPayload(ty, c.tag);
      PayloadSlotFits(|p|, c.ty);
      PayloadSlotBound(|p|, c.ty);
      hide PayloadSlotOffset;
      var slot := PayloadSlotOffset(|p|, c.ty);
      SlotFits(GrowTo(p + [c.tag], slot + PayloadSlotRuntime(c.ty).0), slot, c.ty, c.value);
    }
  }

  lemma PayloadSlotBound(pos: nat, ty: TypeRepr)
    ensures PayloadSlotOffset(pos, ty) + PayloadSlotRuntime(ty).0 <= pos + 16
    ensures pos + 1 <= PayloadSlotOffset(pos, ty)
  {
  }

  /** A slot write that fits succeeds. */
  lemma {:induction false} SlotFits(b: seq<byte>, slot: nat, ty: TypeRepr, v: Value)
    requires Good(ty) && slot + SlotWidth(ty) <= |b| && Norm(ty, v).Some? && Writable(ty, v)
    requires |b| + Size(ty, v) < U32_LIMIT
    ensures var w := WriteSlot(b, slot, ty, v); w.ok && |w.bytes| <= |b| + Size(ty, v)
    decreases Depth(ty), 4
  {
    hide AppendTarget, Le, F64OfInt, I64Bits, Writable;
    if !ty.Inline?() {
      assert ty.Pointer?();
      TargetFits(b, ty, v, false);
    }
  }

  /** Every record value that conforms and fits is written and reads back as its normal form. */
  lemma ConformingRecordRoundTrips(t: OffsetTable, s: SchemaRepr, v: Value)
    requires Good(TypeRepr.Schema(s)) && OffsetsFor(s.fields) == Some(t)
    requires Norm(TypeRepr.Schema(s), v).Some? && Writable(TypeRepr.Schema(s), v)
    requires Size(TypeRepr.Schema(s), v) < U32_LIMIT
    ensures BuildRecord(t, s, v).Some?
    ensures RecordAt(BuildRecord(t, s, v).value, 0, s) == Ok(Norm(TypeRepr.Schema(s), v).value)
  {
    hide OffsetsFor, BuildRecord, FieldsSize, Decode, Shape, RebasableValue;
    SchemaGood(s);
    ChildFits(t, s, v);
    RecordWritable(t, s, v);
    var b := BuildRecord(t, s, v).value;
    hide Norm, Writable, Size, Good;
    var o := ChildWritten(t, s, v);
    TargetReads(b, o);
    assert TargetAt(b, 0, TypeRepr.Schema(s)) == RecordAt(b, 0, s);
  }
}
