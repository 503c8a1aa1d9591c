/** Rebasing the pointers of a detached buffer: the descriptors the source builds, the walk they
    drive, and the same walk read off the types. A `None` is the source's relocation error. */
module Relocation {
  import opened Bytes
  import opened Wrappers
  import opened Schemas
  import opened Layout
  import opened LayoutFacts
  import opened Moving

  // ----- descriptors -----

  datatype PtrArrayElem =
    | ElemString
    | ElemSchema(reloc: RelocLayout)
    | ElemInnerList(inner: PtrArrayElem)
    | ElemVariant(ty: TypeRepr)

  datatype RelocSlot = RelocSlot(
    offset: nat, listElement: Option<ListElementKind>, nested: Option<RelocLayout>,
    listElem: Option<PtrArrayElem>, variant: Option<TypeRepr>)

  datatype RelocLayout = RelocLayout(slots: seq<RelocSlot>)

  /** How deep a relocation driven by the descriptor can recurse. */
  function ElemWeight(e: PtrArrayElem): nat
    decreases e
  {
    match e
    case ElemString => 0
    case ElemSchema(r) => 1 + SlotsWeight(r.slots)
    case ElemInnerList(inner) => 1 + ElemWeight(inner)
    case ElemVariant(ty) => 1 + Depth(ty)
  }

  function SlotsWeight(slots: seq<RelocSlot>): nat
    decreases slots
  {
    if slots == [] then 0 else Max(SlotWeight(slots[0]), SlotsWeight(slots[1..]))
  }

  function SlotWeight(s: RelocSlot): nat
    decreases s
  {
    var n := if s.nested.Some? then 1 + SlotsWeight(s.nested.value.slots) else 0;
    var l := if s.listElem.Some? then 1 + ElemWeight(s.listElem.value) else 1;
    var v := if s.variant.Some? then 1 + Depth(s.variant.value) else 0;
    Max(n, Max(l, v))
  }

  /** The descriptor of what the entries of a `List<element>` pointer array lead to. */
  function PtrArrayElemFor(element: TypeRepr): (r: Option<PtrArrayElem>)
    ensures r.Some? ==> ElemWeight(r.value) <= 1 + Depth(element)
    decreases Depth(element), 1
  {
    match element
    case String => Some(ElemString)
    case Schema(s) =>
      var sub :- OffsetsFor(s.fields);
      Some(ElemSchema(RelocLayout(BuildSlots(sub.fields, s.fields))))
    case List(inner) =>
      var desc :- PtrArrayElemFor(inner);
      Some(ElemInnerList(desc))
    case Option(_) => Some(ElemVariant(element))
    case Result(_, _) => Some(ElemVariant(element))
    case Enum(_, _) => Some(ElemVariant(element))
    case _ => None
  }

  function NestedFor(ty: TypeRepr): (r: Option<RelocLayout>)
    ensures r.Some? ==> 1 + SlotsWeight(r.value.slots) <= 1 + Depth(ty)
    decreases Depth(ty), 1
  {
    match ty
    case Schema(s) =>
      var sub :- OffsetsFor(s.fields);
      Some(RelocLayout(BuildSlots(sub.fields, s.fields)))
    case List(e) =>
      (match e
       case Schema(s) =>
         assert Depth(e) == 1 + FieldsDepth(s.fields);
         var sub :- OffsetsFor(s.fields);
         Some(RelocLayout(BuildSlots(sub.fields, s.fields)))
       case _ => None)
    case _ => None
  }

  /** One descriptor per pointer-indirect slot; inline slots are left out. */
  function BuildSlots(fos: seq<FieldOffset>, fs: seq<Field>): (r: seq<RelocSlot>)
    ensures SlotsWeight(r) <= 1 + FieldsDepth(fs)
    decreases FieldsDepth(fs), 3, |fos|
  {
    if fos == [] then []
    else if fos[0].kind.Inline? then BuildSlots(fos[1..], fs)
    else
      var f := FindField(fs, fos[0].name);
      var slot :=
        if f.None? then RelocSlot(fos[0].offset, fos[0].listElement, None, None, None)
        else DescribeSlot(fos[0], f.value.ty);
      [slot] + BuildSlots(fos[1..], fs)
  }

  function DescribeSlot(fo: FieldOffset, ty: TypeRepr): (r: RelocSlot)
    ensures SlotWeight(r) <= 1 + Depth(ty)
    decreases Depth(ty), 2
  {
    RelocSlot(
      fo.offset, fo.listElement, NestedFor(ty),
      if ty.List? then PtrArrayElemFor(ty.element) else None,
      if ty.Variant?() then Some(ty) else None)
  }

  // ----- the walk the descriptors drive -----

  function RelocPointers(b: seq<byte>, slots: seq<RelocSlot>, base: nat, d: nat): (r: Option<seq<byte>>)
    ensures r.Some? ==> |r.value| == |b|
    decreases SlotsWeight(slots), 2, |slots|
  {
    if slots == [] then Some(b)
    else
      var b' :- RelocSlotAt(b, slots[0], base, d);
      RelocPointers(b', slots[1..], base, d)
  }

  /** Adds `d` to the pointer at `at`; the result also carries the pointer as it was. */
  function Bump(b: seq<byte>, at: nat, d: nat): (r: Option<(seq<byte>, nat)>)
    ensures r.Some? ==> |r.value.0| == |b|
  {
    if at + 4 > |b| || U32At(b, at) + d >= U32_LIMIT then None
    else Some((PutU32(b, at, U32At(b, at) + d), U32At(b, at)))
  }

  function RelocSlotAt(b: seq<byte>, slot: RelocSlot, base: nat, d: nat): (r: Option<seq<byte>>)
    ensures r.Some? ==> |r.value| == |b|
    decreases SlotWeight(slot), 1
  {
    var (b', original) :- Bump(b, base + slot.offset, d);
    if slot.variant.Some? then RelocVariant(b', original, slot.variant.value, d)
    else if slot.listElement.Some? && slot.listElement.value.PointerArray? then
      RelocList(b', original, slot.listElem, d)
    else if slot.nested.Some? then RelocPointers(b', slot.nested.value.slots, original, d)
    else Some(b')
  }

  function WeightOf(elem: Option<PtrArrayElem>): nat {
    if elem.Some? then ElemWeight(elem.value) else 0
  }

  function RelocList(b: seq<byte>, start: nat, elem: Option<PtrArrayElem>, d: nat): (r: Option<seq<byte>>)
    ensures r.Some? ==> |r.value| == |b|
    decreases WeightOf(elem), 4
  {
    if start + 4 > |b| then None else RelocEntries(b, start + 4, U32At(b, start), elem, d)
  }

  function RelocEntries(b: seq<byte>, cursor: nat, n: nat, elem: Option<PtrArrayElem>, d: nat): (r: Option<seq<byte>>)
    ensures r.Some? ==> |r.value| == |b|
    decreases WeightOf(elem), 3, n
  {
    if n == 0 then Some(b)
    else
      var b' :- RelocEntry(b, cursor, elem, d);
      RelocEntries(b', cursor + 4, n - 1, elem, d)
  }

  function RelocEntry(b: seq<byte>, cursor: nat, elem: Option<PtrArrayElem>, d: nat): (r: Option<seq<byte>>)
    ensures r.Some? ==> |r.value| == |b|
    decreases WeightOf(elem), 1
  {
    var (b', original) :- Bump(b, cursor, d);
    match elem
    case Some(ElemSchema(reloc)) => RelocPointers(b', reloc.slots, original, d)
    case Some(ElemInnerList(inner)) => RelocList(b', original, Some(inner), d)
    case Some(ElemVariant(ty)) => RelocVariant(b', original, ty, d)
    case _ => Some(b')
  }

  function RelocVariant(b: seq<byte>, start: nat, ty: TypeRepr, d: nat): (r: Option<seq<byte>>)
    ensures r.Some? ==> |r.value| == |b|
    decreases Depth(ty), 0
  {
    if start + 1 > |b| then None
    else
      match SelectPayload(ty, b[start])
      case BadTag => None
      case NoPayload => Some(b)
      case Payload(pty) =>
        if !pty.Pointer?() then Some(b)
        else
          var (b', original) :- Bump(b, PayloadSlotOffset(start, pty), d);
          RelocPayload(b', original, pty, d)
  }

  function RelocPayload(b: seq<byte>, original: nat, pty: TypeRepr, d: nat): (r: Option<seq<byte>>)
    ensures r.Some? ==> |r.value| == |b|
    decreases Depth(pty), 5
  {
    match pty
    case Schema(s) =>
      var t :- OffsetsFor(s.fields);
      RelocPointers(b, BuildSlots(t.fields, s.fields), original, d)
    case List(e) =>
      if e.Pointer?() then RelocList(b, original, PtrArrayElemFor(e), d) else Some(b)
    case Option(_) => RelocVariant(b, original, pty, d)
    case Result(_, _) => RelocVariant(b, original, pty, d)
    case Enum(_, _) => RelocVariant(b, original, pty, d)
    case _ => Some(b)
  }

  // ----- the same walk, read off the types -----

  datatype Slot = Slot(off: nat, ty: TypeRepr)

  function SlotsDepth(slots: seq<Slot>): nat {
    if slots == [] then 0 else Max(Depth(slots[0].ty), SlotsDepth(slots[1..]))
  }

  function EntrySlots(off: nat, n: nat, e: TypeRepr): (r: seq<Slot>)
    ensures |r| == n && SlotsDepth(r) <= Depth(e)
    decreases n
  {
    if n == 0 then [] else [Slot(off, e)] + EntrySlots(off + 4, n - 1, e)
  }

  function PointerSlots(base: nat, fos: seq<FieldOffset>, fs: seq<Field>): (r: seq<Slot>)
    requires |fos| == |fs|
    ensures SlotsDepth(r) <= FieldsDepth(fs)
  {
    if fs == [] then []
    else
      var rest := PointerSlots(base, fos[1..], fs[1..]);
      if fs[0].ty.Pointer?() then [Slot(base + fos[0].offset, fs[0].ty)] + rest else rest
  }

  /** The pointer slots of the record of type `ty` at `p`, in the order they are visited. */
  function SlotList(b: seq<byte>, p: nat, ty: TypeRepr): (r: Option<seq<Slot>>)
    ensures r.Some? && r.value != [] ==> SlotsDepth(r.value) < Depth(ty)
  {
    match ty
    case String => Some([])
    case List(e) =>
      if !e.Pointer?() then Some([])
      else if p + 4 > |b| then None
      else Some(EntrySlots(p + 4, U32At(b, p), e))
    case Schema(s) =>
      var t :- OffsetsFor(s.fields);
      Some(PointerSlots(p, t.fields, s.fields))
    case _ =>
      if p + 1 > |b| then None
      else
        match SelectPayload(ty, b[p])
        case BadTag => None
        case NoPayload => Some([])
        case Payload(pty) =>
          if pty.Pointer?() then Some([Slot(PayloadSlotOffset(p, pty), pty)]) else Some([])
  }

  /** Rebases every pointer of the record at `p` and of the records behind it. With `full`, every
      pointer a reader follows is rebased; without it, the walk stops where the source's does. */
  function RelocTarget(b: seq<byte>, p: nat, ty: TypeRepr, d: nat, full: bool): (r: Option<seq<byte>>)
    ensures r.Some? ==> |r.value| == |b|
    decreases Depth(ty), 1
  {
    var slots :- SlotList(b, p, ty);
    if slots == [] then Some(b) else RelocSlots(b, slots, d, full, full || Descends(ty))
  }

  function RelocSlots(b: seq<byte>, slots: seq<Slot>, d: nat, full: bool, descends: bool): (r: Option<seq<byte>>)
    ensures r.Some? ==> |r.value| == |b|
    decreases SlotsDepth(slots), 3, |slots|
  {
    if slots == [] then Some(b)
    else
      var b' :- RelocSlot1(b, slots[0], d, full, descends);
      RelocSlots(b', slots[1..], d, full, descends)
  }

  /** Rebases one slot and, if the walk descends, the record behind it. */
  function RelocSlot1(b: seq<byte>, slot: Slot, d: nat, full: bool, descends: bool): (r: Option<seq<byte>>)
    ensures r.Some? ==> |r.value| == |b|
    decreases Depth(slot.ty), 2
  {
    var (b', original) :- Bump(b, slot.off, d);
    if descends then RelocTarget(b', original, slot.ty, d, full) else Some(b')
  }
}
