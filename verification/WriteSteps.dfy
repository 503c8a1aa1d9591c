/** The steps of writing a value, each from the encodings of its pieces to the encoding of the whole. */
module WriteSteps {
  import opened Bytes
  import opened Wrappers
  import opened Schemas
  import opened Layout
  import opened LayoutFacts
  import opened Values
  import opened Graph
  import opened GraphFacts
  import opened Moving
  import opened Relocation
  import opened RelocationFacts
  import opened Paste
  import opened Writer
  import opened WriterFrame
  import opened WriterFacts
  import opened ListFacts
  import opened RecordFacts

  // ----- records from fields -----

  /** The part stands for the value `v` of type `ty`. */
  ghost predicate FieldDone(ty: TypeRepr, v: Value, x: Part) {
    && Norm(ty, v).Some? && DecodePart(x) == Ok(Norm(ty, v).value)
    && (RebasablePart(x, true) <==> RebasableValue(ty, v))
  }

  ghost predicate FieldsDone(fs: seq<Field>, raw: seq<Value>, parts: seq<Part>) {
    && |fs| == |raw| == |parts|
    && forall i :: 0 <= i < |fs| ==> FieldDone(fs[i].ty, raw[i], parts[i])
  }

  lemma {:induction false} FieldsDecode(fs: seq<Field>, raw: seq<Value>, parts: seq<Part>)
    requires FieldsDone(fs, raw, parts)
    ensures NormFields(fs, raw).Some? && DecodeParts(parts) == Ok(NormFields(fs, raw).value)
    decreases |fs|
  {
    hide Norm, DecodePart, RebasableValue, RebasablePart;
    if fs != [] {
      assert FieldDone(fs[0].ty, raw[0], parts[0]);
      FieldsDecode(fs[1..], raw[1..], parts[1..]);
    }
  }

  lemma {:induction false} FieldsRebase(fs: seq<Field>, raw: seq<Value>, parts: seq<Part>)
    requires FieldsDone(fs, raw, parts)
    ensures Rebasable(parts, true) <==> FieldsRebasable(fs, raw)
    decreases |fs|
  {
    hide Norm, DecodePart, RebasableValue, RebasablePart;
    if fs != [] {
      assert FieldDone(fs[0].ty, raw[0], parts[0]);
      FieldsRebase(fs[1..], raw[1..], parts[1..]);
    }
  }

  lemma {:induction false} FieldWritable(fs: seq<Field>, raw: seq<Value>, k: nat)
    requires |fs| == |raw| && FieldsWritable(fs, raw) && k < |fs|
    ensures Writable(fs[k].ty, raw[k])
    decreases k
  {
    hide Writable;
    if k > 0 {
      FieldWritable(fs[1..], raw[1..], k - 1);
    }
  }

  lemma WriteFieldsStep(b: seq<byte>, t: OffsetTable, fs: seq<Field>, raw: seq<Value>, k: nat)
    requires |raw| == |fs| == |t.fields| && k < |fs| && FindOffset(t.fields, fs[k].name) == Some(t.fields[k])
    ensures var w := WriteSlot(b, t.fields[k].offset, fs[k].ty, raw[k]);
      WriteFields(b, t, fs[k..], raw[k..]) == if w.ok then WriteFields(w.bytes, t, fs[k + 1..], raw[k + 1..]) else None
  {
    hide WriteSlot, FindOffset;
    assert fs[k..][1..] == fs[k + 1..] && raw[k..][1..] == raw[k + 1..];
  }

  lemma {:induction false} RebasableMoves(ps: seq<Part>, at: nat, d: nat, inner: nat, descends: bool)
    ensures Rebasable(MoveParts(ps, at, d, inner), descends) <==> Rebasable(ps, descends)
    decreases ps
  {
    if ps != [] {
      assert MoveParts(ps, at, d, inner)[1..] == MoveParts(ps[1..], at, d, inner);
      RebasablePartMoves(ps[0], at, d, inner, descends);
      RebasableMoves(ps[1..], at, d, inner, descends);
    }
  }

  lemma {:induction false} RebasablePartMoves(x: Part, at: nat, d: nat, inner: nat, descends: bool)
    ensures RebasablePart(MovePart(x, at, d, inner), descends) <==> RebasablePart(x, descends)
    decreases x
  {
    if x.Ptr? {
      RebasableMoves(x.target.parts, at, inner, Inner(x.target.ty, inner), Descends(x.target.ty));
      LeafyMoves(x.target.parts, at, inner, Inner(x.target.ty, inner));
    }
  }

  lemma LeafyMoves(ps: seq<Part>, at: nat, d: nat, inner: nat)
    ensures Leafy(MoveParts(ps, at, d, inner)) <==> Leafy(ps)
  {
    forall i | 0 <= i < |ps|
      ensures MoveParts(ps, at, d, inner)[i].Raw? <==> ps[i].Raw?
    {
      MovePartsAt(ps, at, d, inner, i);
    }
  }

  lemma RecordWritable(t: OffsetTable, s: SchemaRepr, v: Value)
    requires Writable(TypeRepr.Schema(s), v) && BuildRecord(t, s, v).Some?
    ensures RecordValues(s, v).Some? && FieldsWritable(s.fields, RecordValues(s, v).value)
    ensures RebasableValue(TypeRepr.Schema(s), v)
  {
  }

  function Whole(parts: seq<Part>): (st: seq<Option<Part>>)
    ensures |st| == |parts| && forall i :: 0 <= i < |st| ==> st[i] == Some(parts[i])
  {
    seq(|parts|, i requires 0 <= i < |parts| => Some(parts[i]))
  }

  lemma WriteNoFields(b: seq<byte>, t: OffsetTable, fs: seq<Field>, raw: seq<Value>)
    requires |fs| == |raw|
    ensures WriteFields(b, t, fs[|fs|..], raw[|fs|..]) == Some(b)
  {
  }

  lemma SlotDoneField(b: seq<byte>, b': seq<byte>, slot: nat, ty: TypeRepr, v: Value, x: Part)
    requires SlotDone(b, b', slot, ty, v, x)
    ensures FieldDone(ty, v, x)
  {
  }

  /** All fields written: the buffer is the detached record. */
  lemma RecordComplete(b: seq<byte>, s: SchemaRepr, t: OffsetTable, v: Value, raw: seq<Value>, parts: seq<Part>)
    returns (o: Obj)
    requires Building(b, s.fields, t, Whole(parts)) && FieldsDone(s.fields, raw, parts)
    requires RecordValues(s, v) == Some(raw)
    ensures o.pos == 0 && TargetDone([], Done(b, 0), TypeRepr.Schema(s), v, o)
  {
    hide Building, FieldsDone, Owns, WithinObj, OffsetsFor, Whole;
    o := Obj(0, TypeRepr.Schema(s), t.rootSize, parts);
    RecordOwned(b, s, t, Whole(parts), parts);
    assert Shape(o) by { OwnsShape(b, o); }
    FieldsDecode(s.fields, raw, parts);
    FieldsRebase(s.fields, raw, parts);
  }

  lemma OwnsShape(b: seq<byte>, o: Obj)
    requires Owns(b, o)
    ensures Shape(o) && Good(o.ty)
  {
  }

  /** Pasting the detached record at any alignment that covers the types reachable from it. */
  lemma RecordPasted(b: seq<byte>, align: Alignment, s: SchemaRepr, t: OffsetTable, v: Value, child: seq<byte>, c: Obj)
    returns (o: Obj)
    requires Good(TypeRepr.Schema(s)) && OffsetsFor(s.fields) == Some(t) && FieldsGraphAlign(s.fields) <= align
    requires c.pos == 0 && TargetDone([], Done(child, 0), TypeRepr.Schema(s), v, c)
    requires RebasableObj(c) && PasteAt(b, align, t, s.fields, child).Done?
    ensures TargetDone(b, PasteAt(b, align, t, s.fields, child), TypeRepr.Schema(s), v, o)
  {
    hide OffsetsFor, RelocPointers, RelocTarget, Norm, RebasableValue, Decode, Shape, Owns, WithinObj, GoodRecord;
    var p := PadTo(b, align);
    assert GoodRecord(s.fields) by { SchemaGood(s); }
    RecordByType(child, 0, s, |p|);
    assert Aligned(|p|, TypeGraphAlign(c.ty)) by {
      AlignDivides(FieldsGraphAlign(s.fields), align, |p|);
    }
    PasteObj(p, child, c);
    o := Move(c, |p|, |p|);
    var r := PasteAt(b, align, t, s.fields, child);
    assert b <= r.bytes;
    RebasableMoves(c.parts, |p|, |p|, Inner(c.ty, |p|), Descends(c.ty));
    WithinLower(o, |p|, |b|, |r.bytes|);
  }

  // ----- lists -----

  lemma ListElementGood(e: TypeRepr)
    requires Good(TypeRepr.List(e)) && !e.Scalar?()
    ensures Good(e) && e.Pointer?()
    ensures e.Schema? ==> OffsetsFor(e.schema.fields).Some?
  {
    assert Good(e);
    if e.Schema? {
      SchemaGood(e.schema);
      GoodRecordLayout(e.schema.fields);
    }
  }

  lemma ItemOf(b: seq<byte>, r: Appended, hi: seq<byte>, e: TypeRepr, v: Value, o: Obj)
    requires TargetDone(b, r, e, v, o) && r.off < U32_LIMIT && r.bytes <= hi
    ensures ItemHeld(hi, |b|, e, o) && ItemDone(e, v, o) && o.pos == r.off
    ensures forall c :: c in Foot(o.parts) ==> c < |r.bytes|
  {
    hide Shape, Decode, Norm, RebasableObj, RebasableValue, Good;
    FootWithin(o.parts, |b|, |r.bytes|);
    EncFrame(r.bytes, hi, o.parts);
    WithinWider(o.parts, |b|, |r.bytes|, |b|, |hi|);
    WithinWider(o.parts, 0, |r.bytes|, 0, |hi|);
  }

  lemma ItemsJoin(
    b: seq<byte>, first: Appended, r: AppendedItems, e: TypeRepr, items: seq<Value>, o: Obj, rest: seq<Obj>)
    requires items != [] && TargetDone(b, first, e, items[0], o) && first.off < U32_LIMIT
    requires r.Items? && first.bytes <= r.bytes && Apart(rest)
    requires |rest| == |items| - 1 == |r.offs|
    requires forall i :: 0 <= i < |rest| ==>
      ItemHeld(r.bytes, |first.bytes|, e, rest[i]) && ItemDone(e, items[1..][i], rest[i]) && rest[i].pos == r.offs[i]
    ensures var objs := [o] + rest;
      && Apart(objs)
      && forall i :: 0 <= i < |objs| ==>
           && ItemHeld(r.bytes, |b|, e, objs[i]) && ItemDone(e, items[i], objs[i])
           && objs[i].pos == ([first.off] + r.offs)[i]
  {
    hide ItemHeld, ItemDone, Foot;
    var objs := [o] + rest;
    ItemOf(b, first, r.bytes, e, items[0], o);
    assert |b| <= |first.bytes|;
    forall i | 1 <= i < |objs|
      ensures ItemHeld(r.bytes, |b|, e, objs[i]) && ItemDone(e, items[i], objs[i]) && objs[i].pos == r.offs[i - 1]
      ensures Foot(o.parts) !! Foot(objs[i].parts)
    {
      assert objs[i] == rest[i - 1] && items[i] == items[1..][i - 1];
      HeldLower(r.bytes, |first.bytes|, |b|, e, rest[i - 1]);
      forall c | c in Foot(o.parts) ensures c !in Foot(objs[i].parts) {}
    }
    forall i, j | 0 <= i < j < |objs|
      ensures Foot(objs[i].parts) !! Foot(objs[j].parts)
    {
      if i > 0 {
        assert objs[i] == rest[i - 1] && objs[j] == rest[j - 1];
      }
    }
  }

  // ----- slots -----

  /** The bytes an inline write leaves in its slot stand for the value. */
  lemma InlineBytes(b: seq<byte>, slot: nat, ty: TypeRepr, v: Value)
    requires ty.Inline?() && slot + SlotWidth(ty) <= |b| && WriteSlot(b, slot, ty, v).ok
    ensures var b' := WriteSlot(b, slot, ty, v).bytes;
      && |b'| == |b|
      && Norm(ty, v) == Some(ScalarValue(ty, b'[slot..slot + InlineSize(ty)]))
  {
    if ty.Scalar?() {
      ScalarRoundTrip(ty, v);
      var b', data := WriteSlot(b, slot, ty, v).bytes, ScalarBytes(ty, v).value;
      assert b' == Put(b, slot, data);
      hide ScalarBytes, ScalarValue, Norm, WriteSlot;
      assert b'[slot..slot + InlineSize(ty)] == data;
    }
  }

  lemma InlineWritten(b: seq<byte>, slot: nat, ty: TypeRepr, v: Value) returns (x: Part)
    requires Good(ty) && ty.Inline?() && slot + SlotWidth(ty) <= |b| && WriteSlot(b, slot, ty, v).ok
    ensures SlotDone(b, WriteSlot(b, slot, ty, v).bytes, slot, ty, v, x)
  {
    hide WriteSlot, ScalarValue, Norm, Good, RebasableValue, Shape, Enc, Linked, Sep, Foot, Within;
    InlineBytes(b, slot, ty, v);
    InlineRebasable(ty, v);
    var b' := WriteSlot(b, slot, ty, v).bytes;
    x := Raw(slot, b'[slot..slot + InlineSize(ty)], Some(ty));
  }

  lemma InlineRebasable(ty: TypeRepr, v: Value)
    requires ty.Inline?()
    ensures RebasableValue(ty, v)
  {
  }

  lemma PointerWritten(b: seq<byte>, slot: nat, r: Appended, ty: TypeRepr, v: Value, o: Obj) returns (x: Part)
    requires Good(ty) && ty.Pointer?() && slot + 4 <= |b| && WritePointer(r, slot).ok && TargetDone(b, r, ty, v, o)
    ensures SlotDone(b, WritePointer(r, slot).bytes, slot, ty, v, x)
  {
    hide Le, Shape, Decode, Norm, RebasableValue, Good, Rebasable, Foot, Enc, Linked, Within, Sep;
    var b' := WritePointer(r, slot).bytes;
    x := Ptr(slot, o.pos, o);
    FootWithin(o.parts, |b|, |r.bytes|);
    assert b' == PutU32(r.bytes, slot, r.off);
    EncFrame(r.bytes, b', o.parts);
    assert b'[slot..slot + 4] == Le(r.off, 4);
    assert EncPart(b', x) && SepPart(x) && LinkedPart(x);
  }

  // ----- variants -----

  /** Reading the tag a value is written with selects the payload type it is written with. */
  lemma ChoiceSelects(ty: TypeRepr, v: Value, c: VariantChoice)
    requires Good(ty) && VariantPayloadFor(ty, v) == Some(c)
    ensures ty.Variant?() && SelectPayload(ty, c.tag) == if c.Bare? then NoPayload else Payload(c.ty)
  {
    if ty.Enum? {
      var ev := FindVariantByName(ty.variants, v.brand.value).value;
      var i :| 0 <= i < |ty.variants| && ty.variants[i] == ev;
      FindVariantAt(ty.variants, i);
    }
  }

  lemma PayloadSlotFits(pos: nat, ty: TypeRepr)
    ensures PayloadSlotRuntime(ty).0 == SlotWidth(ty) && pos < PayloadSlotOffset(pos, ty)
  {
  }

  lemma BareWritten(b: seq<byte>, p: seq<byte>, ty: TypeRepr, v: Value, c: VariantChoice) returns (o: Obj)
    requires Good(ty) && ty.Variant?() && VariantPayloadFor(ty, v) == Some(c) && c.Bare?
    requires SelectPayload(ty, c.tag).NoPayload? && b <= p
    ensures TargetDone(b, Done(p + [c.tag], |p|), ty, v, o)
  {
    hide Good, VariantPayloadFor, SelectPayload, BareVariant;
    var b' := p + [c.tag];
    var x := Raw(|p|, [c.tag], None);
    o := Obj(|p|, ty, 0, [x]);
    assert VariantShape(o) && DecodeVariant(o) == Ok(BareVariant(ty, c.tag));
    assert Shape(o) && Decode(o) == DecodeVariant(o);
    assert Norm(ty, v) == Some(BareVariant(ty, c.tag));
    assert RebasableValue(ty, v);
    hide Shape, Decode, Norm, RebasableValue;
    RawOwned(b', |b|, x);
    OwnsIntro(|b|, b', o);
    RebasableParts(o.parts, true);
    assert RebasableObj(o);
  }

  /** The payload of an enum variant normalises to a dictionary. */
  lemma PayloadWraps(ty: TypeRepr, v: Value, c: VariantChoice)
    requires ty.Variant?() && VariantPayloadFor(ty, v) == Some(c) && c.Carry? && Norm(c.ty, c.value).Some?
    requires SelectPayload(ty, c.tag) == Payload(c.ty)
    ensures Norm(ty, v).Some? && Norm(ty, v) == WrapVariant(ty, c.tag, Norm(c.ty, c.value).value)
  {
    if ty.Enum? {
      assert c.ty.Schema? && !c.ty.schema.isTuple;
      assert FindVariantByTag(ty.variants, c.tag).Some?;
    }
  }

  lemma TaggedOwned(b: seq<byte>, p: seq<byte>, b': seq<byte>, slot: nat, tag: byte, o: Obj, x: Part)
    requires Shape(o) && Good(o.ty) && o.pos == |p| && o.size == 0 && o.parts == [Raw(|p|, [tag], None), x]
    requires b <= p && p + [tag] <= b' && |p| < slot == x.off
    requires EncPart(b', x) && LinkedPart(x) && SepPart(x) && WithinPart(x, 0, |b'|)
    requires x.Ptr? ==> WithinObj(x.target, |p| + 1, |b'|)
    ensures Owns(b', o) && WithinObj(o, |b|, |b'|)
  {
    hide Shape, Good, Enc, Linked, Sep;
    assert b'[|p|] == (p + [tag])[|p|];
    RawOwned(b', |b|, o.parts[0]);
    if x.Ptr? {
      WithinLower(x.target, |p| + 1, |b|, |b'|);
      FootWithin(x.target.parts, |p| + 1, |b'|);
    }
    assert PartOwned(b', |b|, x);
    assert FootPart(o.parts[0]) !! FootPart(x);
    hide FootPart, PartOwned;
    OwnsIntro(|b|, b', o);
  }

  lemma CarryDecodes(pos: nat, slot: nat, ty: TypeRepr, v: Value, c: VariantChoice, x: Part)
    requires ty.Variant?() && VariantPayloadFor(ty, v) == Some(c) && c.Carry?
    requires SelectPayload(ty, c.tag) == Payload(c.ty) && slot == PayloadSlotOffset(pos, c.ty)
    requires SlotShape(x, slot, c.ty) && Norm(c.ty, c.value).Some? && DecodePart(x) == Ok(Norm(c.ty, c.value).value)
    ensures var o := Obj(pos, ty, 0, [Raw(pos, [c.tag], None), x]);
      x.off == slot && Shape(o) && Norm(ty, v).Some? && Decode(o) == Ok(Norm(ty, v).value)
  {
    PayloadWraps(ty, v, c);
    assert x.off == slot;
    hide VariantPayloadFor, SelectPayload, WrapVariant, PayloadSlotOffset, Norm, SlotShape, DecodePart;
    var o := Obj(pos, ty, 0, [Raw(pos, [c.tag], None), x]);
    assert VariantShape(o) && DecodeVariant(o) == Ok(Norm(ty, v).value);
    assert Shape(o) && Decode(o) == DecodeVariant(o);
  }

  lemma CarryWritten(
    b: seq<byte>, p: seq<byte>, grown: seq<byte>, b': seq<byte>, slot: nat, ty: TypeRepr, v: Value, c: VariantChoice,
    x: Part)
    returns (o: Obj)
    requires Good(ty) && ty.Variant?() && VariantPayloadFor(ty, v) == Some(c) && c.Carry?
    requires SelectPayload(ty, c.tag) == Payload(c.ty) && slot == PayloadSlotOffset(|p|, c.ty)
    requires b <= p && p + [c.tag] <= grown && |grown| <= |b'| && |p| < slot
    requires SlotDone(grown, b', slot, c.ty, c.value, x)
    requires forall i :: 0 <= i < |grown| && !(slot <= i < slot + SlotWidth(c.ty)) ==> b'[i] == grown[i]
    ensures TargetDone(b, Done(b', |p|), ty, v, o)
  {
    hide Good, VariantPayloadFor, SelectPayload, WrapVariant, PayloadSlotOffset;
    hide Shape, SlotShape, Decode, DecodePart, Norm, Enc, Linked, Sep;
    o := Obj(|p|, ty, 0, [Raw(|p|, [c.tag], None), x]);
    CarryDecodes(|p|, slot, ty, v, c, x);
    assert RebasableValue(ty, v) == RebasableValue(c.ty, c.value);
    hide RebasableValue;
    if x.Ptr? { WithinLower(x.target, |grown|, |p| + 1, |b'|); }
    KeepsPrefix(p + [c.tag], grown, b', slot, slot + SlotWidth(c.ty));
    TaggedOwned(b, p, b', slot, c.tag, o, x);
    RebasableParts(o.parts, true);
    RawRebasable(o.parts[0], true);
    assert RebasableObj(o) <==> RebasablePart(x, true);
  }
}
