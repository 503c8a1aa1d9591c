/** Where the writer puts what it appends: at the first multiple of the alignment the type asks for, behind
    zeros. */
module Placement {
  import opened Bytes
  import opened Wrappers
  import opened Schemas
  import opened Layout
  import opened LayoutFacts
  import opened LayoutSpec
  import opened Values
  import opened Writer
  import opened WriterFrame
  import opened Commits

  /** A record starts on what its own fields and its tails ask for, a variant on its payloads, the rest on 4. */
  ghost function StartAlignOf(ty: TypeRepr): Alignment {
    match ty
    case Schema(s) => RecordStartOf(s.fields)
    case _ => if ty.Variant?() && WideTail(ty) then 8 else 4
  }

  ghost function RecordStartOf(fs: seq<Field>): Alignment {
    if RootAlignOf(fs) == 8 || TailsAlignOf(fs) == 8 then 8
    else if RootAlignOf(fs) == 4 || TailsAlignOf(fs) == 4 then 4
    else 1
  }

  /** `off` is the first multiple of `align` at or behind the end of `b`, and the gap is zero. */
  ghost predicate Lands(b: seq<byte>, bytes: seq<byte>, off: nat, align: Alignment) {
    && Aligned(off, align) && |b| <= off < |b| + align && off <= |bytes|
    && b <= bytes && forall i :: |b| <= i < off ==> bytes[i] == 0
  }

  lemma PadLands(b: seq<byte>, align: Alignment, bytes: seq<byte>)
    requires PadTo(b, align) <= bytes
    ensures Lands(b, bytes, AlignUp(|b|, align), align)
  {
    hide AlignUp;
    var p := PadTo(b, align);
    forall i | |b| <= i < |p| ensures bytes[i] == 0 { assert bytes[i] == p[i]; }
  }

  /** Padding first changes nothing. */
  lemma PadTwice(b: seq<byte>, align: Alignment)
    ensures PadTo(PadTo(b, align), align) == PadTo(b, align)
  {
  }

  lemma StartIs(fs: seq<Field>, t: OffsetTable)
    requires OffsetsFor(fs) == Some(t)
    ensures SchemaPasteAlign(t, fs) == RecordStartOf(fs)
  {
    hide OffsetsFor, TableIs, FieldsSupported, RootAlignOf, TailsAlignOf, FieldsGraphAlign;
    LayoutExact(fs, t);
    RootIs(fs, t);
    FieldsRuntimeIs(fs);
  }

  lemma RootIs(fs: seq<Field>, t: OffsetTable)
    requires TableIs(fs, t)
    ensures t.rootAlign == RootAlignOf(fs)
  {
  }

  /** Every appended target lands on the alignment its type asks for. */
  lemma TargetLands(b: seq<byte>, ty: TypeRepr, v: Value, inList: bool)
    requires AppendTarget(b, ty, v, inList).Done?
    ensures var r := AppendTarget(b, ty, v, inList); Lands(b, r.bytes, r.off, StartAlignOf(ty))
  {
    hide Lands, AlignUp, StartAlignOf, AppendTarget;
    var a, r := StartAlignOf(ty), AppendTarget(b, ty, v, inList);
    TargetPadded(b, ty, v, inList);
    AppendExtends(PadTo(b, a), ty, v, inList);
    PadLands(b, a, r.bytes);
  }

  lemma TargetPadded(b: seq<byte>, ty: TypeRepr, v: Value, inList: bool)
    requires AppendTarget(b, ty, v, inList).Done?
    ensures var a := StartAlignOf(ty);
      && AppendTarget(PadTo(b, a), ty, v, inList) == AppendTarget(b, ty, v, inList)
      && AppendTarget(b, ty, v, inList).off == AlignUp(|b|, a)
  {
    hide PadTo, AlignUp, RecordStartOf, WideTail, AppendList, AppendRecord, AppendVariant;
    match ty
    case Schema(s) => RecordPadded(b, s, v);
    case List(e) => ListPadded(b, e, v.items);
    case Option(_) => VariantPadded(b, ty, v);
    case Result(_, _) => VariantPadded(b, ty, v);
    case Enum(_, _) => VariantPadded(b, ty, v);
    case String => PadTwice(b, 4);
  }

  lemma ListPadded(b: seq<byte>, e: TypeRepr, items: seq<Value>)
    requires AppendList(b, e, items).Done?
    ensures AppendList(PadTo(b, 4), e, items) == AppendList(b, e, items)
    ensures AppendList(b, e, items).off == AlignUp(|b|, 4)
  {
    hide PadTo, AlignUp, AppendItems, OffsetsFor, PatchEntries, ScalarPayload;
    PadTwice(b, 4);
  }

  lemma RecordPadded(b: seq<byte>, s: SchemaRepr, v: Value)
    requires AppendRecord(b, s, v).Done?
    ensures AppendRecord(PadTo(b, RecordStartOf(s.fields)), s, v) == AppendRecord(b, s, v)
    ensures AppendRecord(b, s, v).off == AlignUp(|b|, RecordStartOf(s.fields))
  {
    hide PadTo, AlignUp, OffsetsFor, RecordStartOf, SchemaPasteAlign, BuildRecord, PasteAt;
    var t := OffsetsFor(s.fields).value;
    StartIs(s.fields, t);
    PastePadded(b, RecordStartOf(s.fields), t, s.fields, BuildRecord(t, s, v).value);
  }

  lemma VariantPadded(b: seq<byte>, ty: TypeRepr, v: Value)
    requires ty.Variant?() && AppendVariant(b, ty, v).Done?
    ensures AppendVariant(PadTo(b, StartAlignOf(ty)), ty, v) == AppendVariant(b, ty, v)
    ensures AppendVariant(b, ty, v).off == AlignUp(|b|, StartAlignOf(ty))
  {
    hide PadTo, AlignUp, VariantAlignRuntime, WideTail, WritePayload, VariantPayloadFor, TypeGraphAlign, VariantTail;
    RuntimeIs(ty);
    PadTwice(b, StartAlignOf(ty));
  }

  lemma PastePadded(b: seq<byte>, align: Alignment, t: OffsetTable, fs: seq<Field>, child: seq<byte>)
    ensures PasteAt(PadTo(b, align), align, t, fs, child) == PasteAt(b, align, t, fs, child)
    ensures PasteAt(b, align, t, fs, child).Done? ==> PasteAt(b, align, t, fs, child).off == AlignUp(|b|, align)
  {
    hide PadTo, AlignUp;
    PadTwice(b, align);
  }

  /** A committed child starts where a written record of its schema would, or on the field's own alignment. */
  lemma CommitStart(fs: seq<Field>, t: OffsetTable, k: nat, cfs: seq<Field>, ct: OffsetTable)
    requires OffsetsFor(fs) == Some(t) && OffsetsFor(cfs) == Some(ct)
    requires k < |fs| == |t.fields| && fs[k].ty.Schema?
    ensures PasteAlign(t.fields[k], ct, cfs) == MaxAlign(RootAlignOf(fs[k].ty.schema.fields), RecordStartOf(cfs))
  {
    hide OffsetsFor, SchemaPasteAlign, RootAlignOf, RecordStartOf, FieldsSupported;
    StartIs(cfs, ct);
    LayoutExact(fs, t);
    assert SlotIs(fs, t.fields, k);
  }
}
