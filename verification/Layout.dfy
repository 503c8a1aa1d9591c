/** Fixed-area offsets, slot sizes and alignments of a record. */
module Layout {
  import opened Wrappers
  import opened Schemas

  /** The alignments the v1 layout uses. */
  type Alignment = a: nat | a == 1 || a == 4 || a == 8 witness 1

  function MaxAlign(a: Alignment, b: Alignment): (r: Alignment)
    ensures r >= a && r >= b && (r == a || r == b)
  {
    if a >= b then a else b
  }

  /** `n` is a multiple of `a`. */
  predicate Aligned(n: nat, a: Alignment) {
    if a == 8 then n % 8 == 0 else if a == 4 then n % 4 == 0 else true
  }

  /** Rounds `n` up to the next multiple of `a`. */
  function AlignUp(n: nat, a: Alignment): (r: nat)
    ensures n <= r < n + a && Aligned(r, a)
  {
    if a == 8 then Up8(n) else if a == 4 then Up4(n) else n
  }

  function Up8(n: nat): (r: nat)
    ensures n <= r < n + 8 && r % 8 == 0
  {
    8 * ((n + 7) / 8)
  }

  function Up4(n: nat): (r: nat)
    ensures n <= r < n + 4 && r % 4 == 0
  {
    4 * ((n + 3) / 4)
  }

  /** Moving by a multiple of the alignment commutes with rounding up. */
  lemma AlignUpShift(n: nat, d: nat, a: Alignment)
    requires Aligned(d, a)
    ensures AlignUp(n + d, a) == AlignUp(n, a) + d
  {
    if a == 8 {
      assert d == 8 * (d / 8);
      assert (n + d + 7) / 8 == (n + 7) / 8 + d / 8;
    } else if a == 4 {
      assert d == 4 * (d / 4);
      assert (n + d + 3) / 4 == (n + 3) / 4 + d / 4;
    }
  }

  datatype FieldKind =
    | Inline(size: nat, align: Alignment)
    | PointerIndirect(tailAlignment: Alignment)

  datatype ListElementKind =
    | InlineFixed(elemSize: nat, elemAlign: Alignment)
    | PointerArray(elemAlignment: Alignment)

  datatype Decision = Decision(kind: FieldKind, listElement: Option<ListElementKind>)

  datatype FieldOffset = FieldOffset(
    name: string, offset: nat, size: nat, align: Alignment,
    kind: FieldKind, listElement: Option<ListElementKind>)

  datatype OffsetTable = OffsetTable(fields: seq<FieldOffset>, rootSize: nat, rootAlign: Alignment)

  function SlotSize(kind: FieldKind): nat {
    if kind.Inline? then kind.size else 4
  }

  function SlotAlign(kind: FieldKind): Alignment {
    if kind.Inline? then kind.align else 4
  }

  // ----- layout decisions (a `None` is the source's layout error) -----

  function FieldDecision(ty: TypeRepr): (r: Option<Decision>)
    decreases Depth(ty), 10
  {
    match ty
    case Unit => Some(Decision(Inline(1, 1), None))
    case Bool => Some(Decision(Inline(1, 1), None))
    case Int => Some(Decision(Inline(8, 8), None))
    case Float => Some(Decision(Inline(8, 8), None))
    case String => Some(Decision(PointerIndirect(1), None))
    case List(element) => ListDecision(element)
    case Schema(s) =>
      var sub :- OffsetsFor(s.fields);
      Some(Decision(PointerIndirect(sub.rootAlign), None))
    case Closure => None
    case _ =>
      var a :- VariantAlignment(ty);
      Some(Decision(PointerIndirect(a), None))
  }

  function ListDecision(element: TypeRepr): (r: Option<Decision>)
    decreases Depth(element), 9
  {
    match element
    case Int => Some(Decision(PointerIndirect(8), Some(InlineFixed(8, 8))))
    case Float => Some(Decision(PointerIndirect(8), Some(InlineFixed(8, 8))))
    case Bool => Some(Decision(PointerIndirect(4), Some(InlineFixed(1, 1))))
    case String => Some(Decision(PointerIndirect(4), Some(PointerArray(4))))
    case Schema(s) =>
      var sub :- OffsetsFor(s.fields);
      Some(Decision(PointerIndirect(4), Some(PointerArray(sub.rootAlign))))
    case List(inner) =>
      var a :- InnerListAlignment(inner);
      Some(Decision(PointerIndirect(4), Some(PointerArray(a))))
    case Unit => None
    case Closure => None
    case _ =>
      var a :- VariantAlignment(element);
      Some(Decision(PointerIndirect(4), Some(PointerArray(a))))
  }

  /** Start alignment of the record an inner `List<inner>` element occupies. */
  function InnerListAlignment(inner: TypeRepr): (r: Option<Alignment>)
    decreases Depth(inner), 9
  {
    match inner
    case Int => Some(8)
    case Float => Some(8)
    case Bool => Some(4)
    case String => Some(4)
    case Schema(s) =>
      var _ :- OffsetsFor(s.fields);
      Some(4)
    case List(deeper) =>
      var _ :- InnerListAlignment(deeper);
      Some(4)
    case Unit => None
    case Closure => None
    case _ =>
      var _ :- VariantAlignment(inner);
      Some(4)
  }

  /** Size and alignment of the payload slot inside a variant record. */
  function VariantPayloadSlot(ty: TypeRepr): (r: Option<(nat, Alignment)>)
    decreases Depth(ty), 8
  {
    match ty
    case Unit => Some((1, 1))
    case Bool => Some((1, 1))
    case Int => Some((8, 8))
    case Float => Some((8, 8))
    case Closure => None
    case _ =>
      if EnsureLayoutable(ty) then Some((4, 4)) else None
  }

  predicate EnsureLayoutable(ty: TypeRepr)
    decreases Depth(ty), 7
  {
    match ty
    case List(element) => ListDecision(element).Some?
    case Schema(s) => OffsetsFor(s.fields).Some?
    case Option(_) => VariantAlignment(ty).Some?
    case Result(_, _) => VariantAlignment(ty).Some?
    case Enum(_, _) => VariantAlignment(ty).Some?
    case Closure => false
    case _ => true
  }

  /** Deep alignment of every tail record reachable from `ty`, at layout time. */
  function TypeGraphAlignment(ty: TypeRepr): (r: Option<Alignment>)
    decreases Depth(ty), 6
  {
    match ty
    case Unit => Some(1)
    case Bool => Some(1)
    case String => Some(1)
    case Int => Some(8)
    case Float => Some(8)
    case List(element) =>
      if element.Int? || element.Float? then Some(8)
      else if element.Bool? then Some(1)
      else TypeGraphAlignment(element)
    case Schema(s) =>
      var sub :- OffsetsFor(s.fields);
      var tail :- FieldsGraphAlignment(s.fields);
      Some(MaxAlign(sub.rootAlign, tail))
    case Closure => None
    case _ => VariantAlignment(ty)
  }

  function FieldsGraphAlignment(fs: seq<Field>): (r: Option<Alignment>)
    decreases FieldsDepth(fs), 20, |fs|
  {
    if fs == [] then Some(1)
    else
      var head :- TypeGraphAlignment(fs[0].ty);
      var tail :- FieldsGraphAlignment(fs[1..]);
      Some(MaxAlign(head, tail))
  }

  /** The payload types a variant record can carry, in declaration order. */
  function VariantPayloadTypes(ty: TypeRepr): (r: seq<TypeRepr>)
    ensures forall p :: p in r ==> Depth(p) < Depth(ty)
  {
    match ty
    case Option(inner) => [inner]
    case Result(o, e) => [o, e]
    case Enum(name, vs) => EnumPayloadTypes(name, vs)
    case _ => []
  }

  function EnumPayloadTypes(name: string, vs: seq<EnumVariant>): (r: seq<TypeRepr>)
    ensures forall p :: p in r ==> Depth(p) <= VariantsDepth(vs)
  {
    if vs == [] then []
    else
      var rest := EnumPayloadTypes(name, vs[1..]);
      match PayloadSchema(name, vs[0])
      case None => rest
      case Some(s) => [TypeRepr.Schema(s)] + rest
  }

  /** Start alignment of a variant record, at layout time. */
  function VariantAlignment(ty: TypeRepr): (r: Option<Alignment>)
    decreases Depth(ty), 5
  {
    if ty.Variant?() then PayloadsAlignment(VariantPayloadTypes(ty), Depth(ty)) else None
  }

  function PayloadsAlignment(ps: seq<TypeRepr>, bound: nat): (r: Option<Alignment>)
    requires forall p :: p in ps ==> Depth(p) < bound
    ensures r.Some? ==> r.value >= 4
    decreases bound, 0, |ps|
  {
    if ps == [] then Some(4)
    else
      var slot :- VariantPayloadSlot(ps[0]);
      var graph :- TypeGraphAlignment(ps[0]);
      var rest :- PayloadsAlignment(ps[1..], bound);
      Some(MaxAlign(MaxAlign(slot.1, graph), rest))
  }

  /** Places the fields one after the other starting at `cursor`. */
  function Place(fs: seq<Field>, cursor: nat): (r: Option<seq<FieldOffset>>)
    ensures r.Some? ==> |r.value| == |fs|
    decreases FieldsDepth(fs), 20, |fs|
  {
    if fs == [] then Some([])
    else
      var d :- FieldDecision(fs[0].ty);
      var off := AlignUp(cursor, SlotAlign(d.kind));
      var rest :- Place(fs[1..], off + SlotSize(d.kind));
      Some([FieldOffset(fs[0].name, off, SlotSize(d.kind), SlotAlign(d.kind), d.kind, d.listElement)] + rest)
  }

  function EndOf(fos: seq<FieldOffset>): nat {
    if fos == [] then 0 else fos[|fos| - 1].offset + fos[|fos| - 1].size
  }

  function AlignOf(fos: seq<FieldOffset>): Alignment {
    if fos == [] then 1 else MaxAlign(AlignOf(fos[..|fos| - 1]), fos[|fos| - 1].align)
  }

  function OffsetsFor(fs: seq<Field>): (r: Option<OffsetTable>)
    ensures r.Some? ==> |r.value.fields| == |fs|
    decreases FieldsDepth(fs), 21
  {
    var fos :- Place(fs, 0);
    var a := AlignOf(fos);
    Some(OffsetTable(fos, AlignUp(EndOf(fos), a), a))
  }
}
