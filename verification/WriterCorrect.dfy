/** Every successful write of a writable value leaves an encoding of it: what is appended is a
    well-formed object graph of the declared type, apart from everything already in the buffer,
    that decodes to the normalised value. */
module WriterCorrect {
  import opened Bytes
  import opened Wrappers
  import opened Schemas
  import opened Layout
  import opened LayoutFacts
  import opened Values
  import opened Graph
  import opened Writer
  import opened WriterFrame
  import opened WriterFacts
  import opened ListFacts
  import opened RecordFacts
  import opened WriteSteps

  lemma {:induction false} TargetWritten(b: seq<byte>, ty: TypeRepr, v: Value, inList: bool) returns (o: Obj)
    requires Good(ty) && AppendTarget(b, ty, v, inList).Done? && Writable(ty, v)
    ensures TargetDone(b, AppendTarget(b, ty, v, inList), ty, v, o)
    decreases Depth(ty), 3
  {
    hide AppendTailRecord, AppendList, AppendRecord, AppendVariant, TargetDone, Good;
    match ty
    case String => o := StringPlaced(b, v.s);
    case List(e) => o := ListWritten(b, e, v.items); assert v == VList(v.items);
    case Schema(s) => o := RecordWritten(b, s, v);
    case Option(_) => o := VariantWritten(b, ty, v);
    case Result(_, _) => o := VariantWritten(b, ty, v);
    case Enum(_, _) => o := VariantWritten(b, ty, v);
  }

  lemma {:induction false} ListWritten(b: seq<byte>, e: TypeRepr, items: seq<Value>) returns (o: Obj)
    requires Good(TypeRepr.List(e)) && AppendList(b, e, items).Done? && AllWritable(e, items)
    ensures TargetDone(b, AppendList(b, e, items), TypeRepr.List(e), VList(items), o)
    decreases Depth(e), 9
  {
    hide Le, TargetDone, ItemHeld, ItemDone, Apart, PatchEntries, AppendItems, AppendTailRecordAligned, ScalarPayload;
    if e.Scalar?() {
      o := ScalarListPlaced(b, e, items);
    } else {
      var p := PadTo(b, 4);
      var header := p + Le(|items|, 4) + Zeros(4 * |items|);
      var r := AppendItems(header, e, items);
      ItemsExtend(header, e, items);
      var objs := ItemsWritten(header, e, items);
      ListPlaced(b, e, items, r.bytes, r.offs, objs);
      o := ListObj(|p|, e, objs);
    }
  }

  lemma {:induction false} ItemsWritten(b: seq<byte>, e: TypeRepr, items: seq<Value>) returns (objs: seq<Obj>)
    requires Good(e) && e.Pointer?() && AppendItems(b, e, items).Items? && AllWritable(e, items)
    ensures var r := AppendItems(b, e, items);
      && |objs| == |items| == |r.offs| && Apart(objs)
      && forall i :: 0 <= i < |objs| ==>
           ItemHeld(r.bytes, |b|, e, objs[i]) && ItemDone(e, items[i], objs[i]) && objs[i].pos == r.offs[i]
    decreases Depth(e), 8, |items|
  {
    hide AppendTarget, Good, Writable;
    if items == [] {
      objs := [];
    } else {
      var first := AppendTarget(b, e, items[0], true);
      var o := TargetWritten(b, e, items[0], true);
      var rest := ItemsWritten(first.bytes, e, items[1..]);
      ItemsExtend(first.bytes, e, items[1..]);
      objs := [o] + rest;
      ItemsJoin(b, first, AppendItems(first.bytes, e, items[1..]), e, items, o, rest);
    }
  }

  lemma {:induction false} RecordWritten(b: seq<byte>, s: SchemaRepr, v: Value) returns (o: Obj)
    requires Good(TypeRepr.Schema(s)) && AppendRecord(b, s, v).Done? && Writable(TypeRepr.Schema(s), v)
    ensures TargetDone(b, AppendRecord(b, s, v), TypeRepr.Schema(s), v, o)
    decreases 1 + FieldsDepth(s.fields), 2
  {
    hide OffsetsFor, BuildRecord, PasteAt, Norm, RebasableValue, FieldsRebasable;
    var t := OffsetsFor(s.fields).value;
    var child := BuildRecord(t, s, v).value;
    RecordWritable(t, s, v);
    var c := ChildWritten(t, s, v);
    o := RecordPasted(b, SchemaPasteAlign(t, s.fields), s, t, v, child, c);
  }

  /** The detached record of a nested value. */
  lemma {:induction false} ChildWritten(t: OffsetTable, s: SchemaRepr, v: Value) returns (o: Obj)
    requires Good(TypeRepr.Schema(s)) && OffsetsFor(s.fields) == Some(t)
    requires BuildRecord(t, s, v).Some? && FieldsWritable(s.fields, RecordValues(s, v).value)
    ensures o.pos == 0
    ensures TargetDone([], Done(BuildRecord(t, s, v).value, 0), TypeRepr.Schema(s), v, o)
    decreases FieldsDepth(s.fields), 7
  {
    hide WriteFields, OffsetsFor, Building, GoodRecord, FieldsWritable;
    var fs, raw := s.fields, RecordValues(s, v).value;
    assert GoodRecord(fs) by { SchemaGood(s); }
    BuildingStart(fs, t);
    var parts := FieldsWritten(Zeros(t.rootSize), t, fs, raw, 0, seq(|fs|, _ => None));
    assert fs[0..] == fs && raw[0..] == raw;
    o := RecordComplete(BuildRecord(t, s, v).value, s, t, v, raw, parts);
  }

  lemma {:induction false} FieldsWritten(
    b: seq<byte>, t: OffsetTable, fs: seq<Field>, raw: seq<Value>, k: nat, st: seq<Option<Part>>)
    returns (parts: seq<Part>)
    requires Building(b, fs, t, st) && |raw| == |fs| && k <= |fs| && FieldsWritable(fs, raw)
    requires WriteFields(b, t, fs[k..], raw[k..]).Some?
    requires forall i :: 0 <= i < k ==> st[i].Some? && FieldDone(fs[i].ty, raw[i], st[i].value)
    ensures |parts| == |fs| && FieldsDone(fs, raw, parts)
    ensures Building(WriteFields(b, t, fs[k..], raw[k..]).value, fs, t, Whole(parts))
    decreases FieldsDepth(fs), 6, |fs| - k
  {
    hide WriteSlot, WriteFields, FieldDone, Filled, SlotsApart, Good, GoodRecord, OffsetsFor, FieldsWritable,
      FindOffset;
    if k == |fs| {
      WriteNoFields(b, t, fs, raw);
      parts := seq(|fs|, i requires 0 <= i < |fs| => st[i].value);
      assert Whole(parts) == st;
    } else {
      SlotRoom(fs, t, k);
      GoodField(fs, k);
      WriteFieldsStep(b, t, fs, raw, k);
      FieldWritable(fs, raw, k);
      FieldDepth(fs, k);
      var w := WriteSlot(b, t.fields[k].offset, fs[k].ty, raw[k]);
      var x := SlotWritten(b, t.fields[k].offset, fs[k].ty, raw[k]);
      SlotExtends(b, t.fields[k].offset, fs[k].ty, raw[k]);
      FieldWritten(b, w.bytes, fs, t, st, k, raw[k], x);
      assert FieldDone(fs[k].ty, raw[k], x) by { SlotDoneField(b, w.bytes, t.fields[k].offset, fs[k].ty, raw[k], x); }
      parts := FieldsWritten(w.bytes, t, fs, raw, k + 1, st[k := Some(x)]);
    }
  }

  lemma {:induction false} VariantWritten(b: seq<byte>, ty: TypeRepr, v: Value) returns (o: Obj)
    requires Good(ty) && ty.Variant?() && AppendVariant(b, ty, v).Done? && ChoiceWritable(ty, v)
    ensures TargetDone(b, AppendVariant(b, ty, v), ty, v, o)
    decreases Depth(ty), 2
  {
    hide WriteSlot, Good, Writable, PayloadSlotRuntime, VariantAlignRuntime, VariantPayloadFor, TargetDone, SlotDone,
      SelectPayload, AlignUp, Norm;
    var c := VariantPayloadFor(ty, v).value;
    var p := PadTo(b, VariantAlignRuntime(ty));
    ChoiceSelects(ty, v, c);
    if c.Bare? {
      o := BareWritten(b, p, ty, v, c);
    } else {
      var slot := PayloadSlotOffset(|p|, c.ty);
      var grown := GrowTo(p + [c.tag], slot + PayloadSlotRuntime(c.ty).0);
      GoodPayload(ty, c.tag);
      PayloadSlotFits(|p|, c.ty);
      hide PayloadSlotOffset, SlotWidth;
      SlotExtends(grown, slot, c.ty, c.value);
      var x := SlotWritten(grown, slot, c.ty, c.value);
      var w := WriteSlot(grown, slot, c.ty, c.value);
      o := CarryWritten(b, p, grown, w.bytes, slot, ty, v, c, x);
    }
  }

  lemma {:induction false} SlotWritten(b: seq<byte>, slot: nat, ty: TypeRepr, v: Value) returns (x: Part)
    requires Good(ty) && slot + SlotWidth(ty) <= |b| && WriteSlot(b, slot, ty, v).ok && Writable(ty, v)
    ensures SlotDone(b, WriteSlot(b, slot, ty, v).bytes, slot, ty, v, x)
    decreases Depth(ty), 4
  {
    hide AppendTarget, Good, Writable;
    if ty.Inline?() {
      x := InlineWritten(b, slot, ty, v);
    } else {
      var r := AppendTarget(b, ty, v, false);
      var o := TargetWritten(b, ty, v, false);
      x := PointerWritten(b, slot, r, ty, v, o);
    }
  }
}
