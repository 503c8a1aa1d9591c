/** The descriptors name exactly the pointers of the type, save for lists nested three or more deep
    over an inline scalar; and relocation adds the base to each of them exactly once. */
module RelocationFacts {
  import opened Bytes
  import opened Wrappers
  import opened Schemas
  import opened Layout
  import opened LayoutFacts
  import opened Verifier
  import opened VerifierFacts
  import opened GraphFacts
  import opened Moving
  import opened Relocation

  // ----- the descriptor walk is the type walk -----

  /** A list element has no descriptor exactly when it is an inline scalar or nests down to one. */
  lemma {:induction false} ElemForIff(e: TypeRepr)
    requires Good(e) && !e.Unit?
    ensures PtrArrayElemFor(e).None? <==> ScalarNest(e)
    decreases e
  {
    if e.List? {
      ElemForIff(e.element);
    } else if e.Schema? {
      GoodRecordLayout(e.schema.fields);
    }
  }

  lemma {:induction false} PointersByType(
    b: seq<byte>, fs: seq<Field>, t: OffsetTable, k: nat, base: nat, d: nat)
    requires GoodRecord(fs) && OffsetsFor(fs) == Some(t) && k <= |fs|
    ensures RelocPointers(b, BuildSlots(t.fields[k..], fs), base, d) ==
      RelocSlots(b, PointerSlots(base, t.fields[k..], fs[k..]), d, false, true)
    decreases FieldsDepth(fs), 8, |fs| - k
  {
    hide OffsetsFor, RelocSlot1, RelocSlotAt, GoodRecord, DescribeSlot;
    if k < |fs| {
      assert DistinctNames(fs) by { NamesOf(fs); }
      SlotFacts(fs, t, k);
      assert t.fields[k..][1..] == t.fields[k + 1..] && fs[k..][1..] == fs[k + 1..];
      if fs[k].ty.Pointer?() {
        var slot, rest := Slot(base + t.fields[k].offset, fs[k].ty), PointerSlots(base, t.fields[k + 1..], fs[k + 1..]);
        assert PointerSlots(base, t.fields[k..], fs[k..]) == [slot] + rest && ([slot] + rest)[1..] == rest;
        FieldByType(b, fs, t, k, base, d);
        hide BuildSlots, PointerSlots;
        var r := RelocSlot1(b, slot, d, false, true);
        if r.Some? {
          PointersByType(r.value, fs, t, k + 1, base, d);
        }
      } else {
        PointersByType(b, fs, t, k + 1, base, d);
      }
    }
  }

  lemma {:induction false} FieldByType(b: seq<byte>, fs: seq<Field>, t: OffsetTable, k: nat, base: nat, d: nat)
    requires GoodRecord(fs) && OffsetsFor(fs) == Some(t) && k < |fs| && fs[k].ty.Pointer?()
    ensures var slots := BuildSlots(t.fields[k..], fs);
      && slots != []
      && slots[1..] == BuildSlots(t.fields[k + 1..], fs)
      && RelocSlotAt(b, slots[0], base, d) ==
           RelocSlot1(b, Slot(base + t.fields[k].offset, fs[k].ty), d, false, true)
    decreases FieldsDepth(fs), 7
  {
    hide RelocSlot1, RelocSlotAt, OffsetsFor;
    SlotFacts(fs, t, k);
    GoodField(fs, k);
    FindFieldAt(fs, k);
    BuildStep(fs, t, k);
    DescribedSlot(b, t.fields[k], fs[k].ty, base, d);
  }

  lemma BuildStep(fs: seq<Field>, t: OffsetTable, k: nat)
    requires GoodRecord(fs) && OffsetsFor(fs) == Some(t) && k < |fs| && fs[k].ty.Pointer?()
    ensures BuildSlots(t.fields[k..], fs) == [DescribeSlot(t.fields[k], fs[k].ty)] + BuildSlots(t.fields[k + 1..], fs)
  {
    SlotFacts(fs, t, k);
    assert t.fields[k..][1..] == t.fields[k + 1..];
  }

  lemma {:induction false} DescribedSlot(b: seq<byte>, fo: FieldOffset, ty: TypeRepr, base: nat, d: nat)
    requires Good(ty) && ty.Pointer?() && fo.listElement == ListKind(ty)
    ensures RelocSlotAt(b, DescribeSlot(fo, ty), base, d) == RelocSlot1(b, Slot(base + fo.offset, ty), d, false, true)
    decreases Depth(ty), 5
  {
    hide RelocTarget, RelocVariant, RelocList, RelocPointers, Bump;
    var bump := Bump(b, base + fo.offset, d);
    if bump.Some? {
      SlotByType(bump.value.0, bump.value.1, ty, d);
      if ty.List? { ListKindOf(ty.element); }
    }
  }

  /** What follows a bumped slot of type `ty`, by its descriptor and by its type. */
  lemma {:induction false} SlotByType(b: seq<byte>, p: nat, ty: TypeRepr, d: nat)
    requires Good(ty) && ty.Pointer?()
    ensures ty.List? && ty.element.Pointer?() ==>
      RelocList(b, p, PtrArrayElemFor(ty.element), d) == RelocTarget(b, p, ty, d, false)
    ensures ty.List? && !ty.element.Pointer?() ==> NestedFor(ty).None? && RelocTarget(b, p, ty, d, false) == Some(b)
    ensures ty.Schema? ==>
      && NestedFor(ty).Some?
      && RelocPointers(b, NestedFor(ty).value.slots, p, d) == RelocTarget(b, p, ty, d, false)
    ensures ty.Variant?() ==> RelocVariant(b, p, ty, d) == RelocTarget(b, p, ty, d, false)
    ensures ty.String? ==> NestedFor(ty).None? && RelocTarget(b, p, ty, d, false) == Some(b)
    decreases Depth(ty), 4
  {
    match ty
    case String =>
    case List(e) => if e.Pointer?() { ListByType(b, p, e, d); }
    case Schema(s) => RecordByType(b, p, s, d);
    case Option(_) => VariantByType(b, p, ty, d);
    case Result(_, _) => VariantByType(b, p, ty, d);
    case Enum(_, _) => VariantByType(b, p, ty, d);
  }

  lemma {:induction false} RecordByType(b: seq<byte>, base: nat, s: SchemaRepr, d: nat)
    requires GoodRecord(s.fields)
    ensures OffsetsFor(s.fields).Some?
    ensures RelocPointers(b, BuildSlots(OffsetsFor(s.fields).value.fields, s.fields), base, d) ==
      RelocTarget(b, base, TypeRepr.Schema(s), d, false)
    decreases FieldsDepth(s.fields), 9
  {
    hide RelocPointers, BuildSlots;
    GoodRecordLayout(s.fields);
    var t := OffsetsFor(s.fields).value;
    assert t.fields[0..] == t.fields && s.fields[0..] == s.fields;
    PointersByType(b, s.fields, t, 0, base, d);
  }

  lemma {:induction false} ListByType(b: seq<byte>, start: nat, e: TypeRepr, d: nat)
    requires Good(e) && e.Pointer?()
    ensures RelocList(b, start, PtrArrayElemFor(e), d) == RelocTarget(b, start, TypeRepr.List(e), d, false)
    decreases Depth(e), 8
  {
    if start + 4 <= |b| {
      EntriesByType(b, start + 4, U32At(b, start), e, d);
    }
  }

  lemma {:induction false} EntriesByType(b: seq<byte>, cursor: nat, n: nat, e: TypeRepr, d: nat)
    requires Good(e) && e.Pointer?()
    ensures RelocEntries(b, cursor, n, PtrArrayElemFor(e), d) ==
      RelocSlots(b, EntrySlots(cursor, n, e), d, false, Descends(TypeRepr.List(e)))
    decreases Depth(e), 7, n
  {
    hide RelocSlot1, RelocEntry;
    if n > 0 {
      EntryByType(b, cursor, e, d);
      assert EntrySlots(cursor, n, e)[1..] == EntrySlots(cursor + 4, n - 1, e);
      var r := RelocEntry(b, cursor, PtrArrayElemFor(e), d);
      if r.Some? {
        EntriesByType(r.value, cursor + 4, n - 1, e, d);
      }
    }
  }

  lemma {:induction false} EntryByType(b: seq<byte>, cursor: nat, e: TypeRepr, d: nat)
    requires Good(e) && e.Pointer?()
    ensures RelocEntry(b, cursor, PtrArrayElemFor(e), d) ==
      RelocSlot1(b, Slot(cursor, e), d, false, Descends(TypeRepr.List(e)))
    decreases Depth(e), 6
  {
    var bump := Bump(b, cursor, d);
    ElemForIff(e);
    if bump.Some? {
      SlotByType(bump.value.0, bump.value.1, e, d);
      if e.List? { ElemForIff(e.element); }
    }
  }

  lemma {:induction false} VariantByType(b: seq<byte>, start: nat, ty: TypeRepr, d: nat)
    requires Good(ty) && ty.Variant?()
    ensures RelocVariant(b, start, ty, d) == RelocTarget(b, start, ty, d, false)
    decreases Depth(ty), 3
  {
    hide Good, PayloadSlotOffset, RelocSlots, RelocSlot1, RelocPayload, Bump, SelectPayload;
    if start + 1 <= |b| {
      var sel := SelectPayload(ty, b[start]);
      if sel.Payload? && sel.ty.Pointer?() {
        GoodPayload(ty, b[start]);
        var slot := Slot(PayloadSlotOffset(start, sel.ty), sel.ty);
        var bump := Bump(b, slot.off, d);
        SingleSlot(b, slot, d);
        PayloadSlot(b, slot, d);
        if bump.Some? {
          PayloadByType(bump.value.0, bump.value.1, sel.ty, d);
        }
      }
    }
  }

  lemma PayloadSlot(b: seq<byte>, slot: Slot, d: nat)
    ensures var bump := Bump(b, slot.off, d);
      RelocSlot1(b, slot, d, false, true) ==
        if bump.Some? then RelocTarget(bump.value.0, bump.value.1, slot.ty, d, false) else None
  {
    hide RelocTarget, Bump;
  }

  lemma SingleSlot(b: seq<byte>, slot: Slot, d: nat)
    ensures RelocSlots(b, [slot], d, false, true) == RelocSlot1(b, slot, d, false, true)
  {
    var r := RelocSlot1(b, slot, d, false, true);
    assert [slot][1..] == [];
    if r.Some? { assert RelocSlots(r.value, [], d, false, true) == r; }
  }

  lemma {:induction false} PayloadByType(b: seq<byte>, original: nat, pty: TypeRepr, d: nat)
    requires Good(pty) && pty.Pointer?()
    ensures RelocPayload(b, original, pty, d) == RelocTarget(b, original, pty, d, false)
    decreases Depth(pty), 5
  {
    SlotByType(b, original, pty, d);
  }

  // ----- where the descriptors cover the type -----

  /** No list nested three or more deep over an inline scalar occurs in the type. */
  predicate Covered(ty: TypeRepr)
    decreases ty
  {
    match ty
    case List(e) => Covered(e) && (e.List? && ScalarNest(e) ==> e.element.Scalar?())
    case Option(i) => Covered(i)
    case Result(o, e) => Covered(o) && Covered(e)
    case Enum(_, vs) => VariantsCovered(vs)
    case Schema(s) => FieldsCovered(s.fields)
    case _ => true
  }

  predicate FieldsCovered(fs: seq<Field>)
    decreases fs
  {
    fs != [] ==> Covered(fs[0].ty) && FieldsCovered(fs[1..])
  }

  predicate VariantsCovered(vs: seq<EnumVariant>)
    decreases vs
  {
    vs != [] ==> FieldsCovered(vs[0].fields) && VariantsCovered(vs[1..])
  }

  lemma {:induction false} VariantCovered(vs: seq<EnumVariant>, v: EnumVariant)
    requires VariantsCovered(vs) && v in vs
    ensures FieldsCovered(v.fields)
    decreases |vs|
  {
    if v != vs[0] { VariantCovered(vs[1..], v); }
  }

  predicate AllCovered(slots: seq<Slot>) {
    slots != [] ==> Covered(slots[0].ty) && AllCovered(slots[1..])
  }

  lemma {:induction false} PointerSlotsCovered(base: nat, fos: seq<FieldOffset>, fs: seq<Field>)
    requires |fos| == |fs| && FieldsCovered(fs)
    ensures AllCovered(PointerSlots(base, fos, fs))
    decreases |fs|
  {
    if fs != [] { PointerSlotsCovered(base, fos[1..], fs[1..]); }
  }

  lemma {:induction false} EntrySlotsCovered(off: nat, n: nat, e: TypeRepr)
    requires Covered(e)
    ensures AllCovered(EntrySlots(off, n, e))
    decreases n
  {
    if n > 0 { EntrySlotsCovered(off + 4, n - 1, e); }
  }

  lemma SlotsCovered(b: seq<byte>, p: nat, ty: TypeRepr)
    requires Covered(ty) && SlotList(b, p, ty).Some?
    ensures AllCovered(SlotList(b, p, ty).value)
  {
    match ty
    case List(e) => if e.Pointer?() { EntrySlotsCovered(p + 4, U32At(b, p), e); }
    case Schema(s) => PointerSlotsCovered(p, OffsetsFor(s.fields).value.fields, s.fields);
    case Enum(_, vs) =>
      var v := FindVariantByTag(vs, b[p]).value;
      VariantCovered(vs, v);
    case _ =>
  }

  /** Descriptors cover the type: on every byte buffer, valid or not, the source's relocation is the
      one that rebases every pointer a reader follows, if no list nests three or more deep over
      an inline scalar. */
  lemma {:induction false} DescriptorsCover(b: seq<byte>, p: nat, ty: TypeRepr, d: nat)
    requires Covered(ty)
    ensures RelocTarget(b, p, ty, d, false) == RelocTarget(b, p, ty, d, true)
    decreases Depth(ty), 1
  {
    var slots := SlotList(b, p, ty);
    if slots.Some? && slots.value != [] {
      SlotsCovered(b, p, ty);
      if Descends(ty) {
        SlotsCover(b, slots.value, d);
      } else {
        LeavesCover(b, p + 4, U32At(b, p), ty.element, d);
      }
    }
  }

  lemma {:induction false} SlotsCover(b: seq<byte>, slots: seq<Slot>, d: nat)
    requires AllCovered(slots)
    ensures RelocSlots(b, slots, d, false, true) == RelocSlots(b, slots, d, true, true)
    decreases SlotsDepth(slots), 3, |slots|
  {
    if slots != [] {
      var bump := Bump(b, slots[0].off, d);
      if bump.Some? {
        DescriptorsCover(bump.value.0, bump.value.1, slots[0].ty, d);
      }
      var r := RelocSlot1(b, slots[0], d, true, true);
      if r.Some? { SlotsCover(r.value, slots[1..], d); }
    }
  }

  lemma {:induction false} LeavesCover(b: seq<byte>, off: nat, n: nat, e: TypeRepr, d: nat)
    requires e.List? && e.element.Scalar?()
    ensures RelocSlots(b, EntrySlots(off, n, e), d, false, false) == RelocSlots(b, EntrySlots(off, n, e), d, true, true)
    decreases n
  {
    if n > 0 {
      var slot := Slot(off, e);
      assert EntrySlots(off, n, e)[1..] == EntrySlots(off + 4, n - 1, e);
      LeafSlot(b, slot, d);
      var r := RelocSlot1(b, slot, d, true, true);
      if r.Some? { LeavesCover(r.value, off + 4, n - 1, e, d); }
    }
  }

  lemma LeafSlot(b: seq<byte>, slot: Slot, d: nat)
    requires slot.ty.List? && slot.ty.element.Scalar?()
    ensures RelocSlot1(b, slot, d, false, false) == RelocSlot1(b, slot, d, true, true)
  {
    var bump := Bump(b, slot.off, d);
    if bump.Some? {
      assert RelocTarget(bump.value.0, bump.value.1, slot.ty, d, true) == Some(bump.value.0);
    }
  }
}
