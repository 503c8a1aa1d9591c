/** Relocation as it runs: one byte array rewritten in place, slot by slot and entry by entry. On
    success the array holds what the relocation functions say; a failure is exactly theirs. */
module Relocator {
  import opened Bytes
  import opened Wrappers
  import opened Schemas
  import opened Layout
  import opened LayoutFacts
  import opened Relocation

  /** Adds `d` to the pointer at `at`. */
  method BumpInPlace(a: array<byte>, at: nat, d: nat) returns (original: Option<nat>)
    modifies a
    ensures original == (match Bump(old(a[..]), at, d) case None => None case Some(p) => Some(p.1))
    ensures original.Some? ==> a[..] == Bump(old(a[..]), at, d).value.0
    ensures original.None? ==> a[..] == old(a[..])
  {
    hide Le, LeVal;
    if at + 4 > a.Length { return None; }
    ghost var was := a[..];
    assert a[at..at + 4] == was[at..at + 4];
    var pointer := LeVal(a[at..at + 4]);
    if pointer + d >= U32_LIMIT { return None; }
    var out := Le(pointer + d, 4);
    for k := 0 to 4
      invariant forall i :: 0 <= i < a.Length && !(at <= i < at + k) ==> a[i] == was[i]
      invariant forall i :: 0 <= i < k ==> a[at + i] == out[i]
    {
      a[at + k] := out[k];
    }
    assert a[..] == PutU32(was, at, pointer + d);
    return Some(pointer);
  }

  method RelocatePointers(a: array<byte>, slots: seq<RelocSlot>, base: nat, d: nat) returns (ok: bool)
    modifies a
    ensures ok <==> RelocPointers(old(a[..]), slots, base, d).Some?
    ensures ok ==> a[..] == RelocPointers(old(a[..]), slots, base, d).value
    decreases SlotsWeight(slots), 2
  {
    hide Bump, RelocVariant, RelocList;
    for k := 0 to |slots|
      invariant RelocPointers(old(a[..]), slots, base, d) == RelocPointers(a[..], slots[k..], base, d)
    {
      var slot := slots[k];
      SlotWeightAt(slots, k);
      ghost var was := a[..];
      assert slots[k..][0] == slot && slots[k..][1..] == slots[k + 1..];
      var original := BumpInPlace(a, base + slot.offset, d);
      if original.None? { return false; }
      if slot.variant.Some? {
        ok := RelocateVariant(a, original.value, slot.variant.value, d);
        if !ok { return; }
      } else if slot.listElement.Some? && slot.listElement.value.PointerArray? {
        ok := RelocateListPointerArray(a, original.value, slot.listElem, d);
        if !ok { return; }
      } else if slot.nested.Some? {
        ok := RelocatePointers(a, slot.nested.value.slots, original.value, d);
        if !ok { return; }
      }
      assert RelocSlotAt(was, slot, base, d) == Some(a[..]);
    }
    assert slots[|slots|..] == [];
    return true;
  }

  method RelocateListPointerArray(a: array<byte>, start: nat, elem: Option<PtrArrayElem>, d: nat) returns (ok: bool)
    modifies a
    ensures ok <==> RelocList(old(a[..]), start, elem, d).Some?
    ensures ok ==> a[..] == RelocList(old(a[..]), start, elem, d).value
    decreases WeightOf(elem), 4
  {
    hide Bump, LeVal, RelocVariant, RelocPointers;
    if start + 4 > a.Length { return false; }
    assert a[start..start + 4] == a[..][start..start + 4];
    var count := LeVal(a[start..start + 4]);
    assert count == U32At(a[..], start);
    var cursor := start + 4;
    for k := 0 to count
      invariant cursor == start + 4 + 4 * k
      invariant RelocList(old(a[..]), start, elem, d) == RelocEntries(a[..], cursor, count - k, elem, d)
    {
      ghost var was := a[..];
      var original := BumpInPlace(a, cursor, d);
      if original.None? { return false; }
      match elem {
        case Some(ElemSchema(reloc)) =>
          ok := RelocatePointers(a, reloc.slots, original.value, d);
          if !ok { return; }
        case Some(ElemInnerList(inner)) =>
          ok := RelocateListPointerArray(a, original.value, Some(inner), d);
          if !ok { return; }
        case Some(ElemVariant(ty)) =>
          ok := RelocateVariant(a, original.value, ty, d);
          if !ok { return; }
        case Some(ElemString) =>
        case None =>
      }
      assert RelocEntry(was, cursor, elem, d) == Some(a[..]);
      cursor := cursor + 4;
    }
    return true;
  }

  method RelocateVariant(a: array<byte>, start: nat, ty: TypeRepr, d: nat) returns (ok: bool)
    modifies a
    ensures ok <==> RelocVariant(old(a[..]), start, ty, d).Some?
    ensures ok ==> a[..] == RelocVariant(old(a[..]), start, ty, d).value
    decreases Depth(ty), 0
  {
    hide Bump, RelocPointers, RelocList;
    if start + 1 > a.Length { return false; }
    var selected := SelectPayload(ty, a[start]);
    if selected.BadTag? { return false; }
    if selected.NoPayload? || !selected.ty.Pointer?() { return true; }
    var pty := selected.ty;
    var original := BumpInPlace(a, PayloadSlotOffset(start, pty), d);
    if original.None? { return false; }
    match pty
    case Schema(s) =>
      var t := OffsetsFor(s.fields);
      if t.None? { return false; }
      ok := RelocatePointers(a, BuildSlots(t.value.fields, s.fields), original.value, d);
    case List(e) =>
      if e.Pointer?() {
        ok := RelocateListPointerArray(a, original.value, PtrArrayElemFor(e), d);
      } else {
        ok := true;
      }
    case Option(_) => ok := RelocateVariant(a, original.value, pty, d);
    case Result(_, _) => ok := RelocateVariant(a, original.value, pty, d);
    case Enum(_, _) => ok := RelocateVariant(a, original.value, pty, d);
    case String => ok := true;
  }

  lemma {:induction false} SlotWeightAt(slots: seq<RelocSlot>, k: nat)
    requires k < |slots|
    ensures SlotWeight(slots[k]) <= SlotsWeight(slots)
    decreases k
  {
    hide SlotWeight;
    if k > 0 {
      SlotWeightAt(slots[1..], k - 1);
    }
  }
}
