/** Encoded object graphs: which bytes a value occupies, independently of any particular buffer.

    An `Obj` describes one tail record: where it starts, its type, and its parts in order, each
    part being literal bytes or a pointer slot with the record it leads to. A buffer *encodes*
    an object when it holds those bytes; everything a reader, a relocator or the verifier does
    to a well-formed buffer can then be stated about the object instead. */
module Graph {
  import opened Bytes
  import opened Wrappers
  import opened Schemas
  import opened Layout
  import opened LayoutFacts
  import opened Values
  import opened Reader

  datatype Part =
    | Raw(off: nat, data: seq<byte>, scalar: Option<TypeRepr>)
    | Ptr(off: nat, val: nat, target: Obj)

  datatype Obj = Obj(pos: nat, ty: TypeRepr, size: nat, parts: seq<Part>)

  /** The buffer holds the bytes of every part, and of every record reached through them. */
  predicate Enc(b: seq<byte>, ps: seq<Part>)
    decreases ps
  {
    ps != [] ==> EncPart(b, ps[0]) && Enc(b, ps[1..])
  }

  predicate EncPart(b: seq<byte>, x: Part)
    decreases x
  {
    match x
    case Raw(off, data, _) => off + |data| <= |b| && b[off..off + |data|] == data
    case Ptr(off, val, t) =>
      off + 4 <= |b| && val < U32_LIMIT && b[off..off + 4] == Le(val, 4) && Enc(b, t.parts)
  }

  /** Every pointer slot holds the position of the record it stands for. */
  predicate Linked(ps: seq<Part>)
    decreases ps
  {
    ps != [] ==> LinkedPart(ps[0]) && Linked(ps[1..])
  }

  predicate LinkedPart(x: Part)
    decreases x
  {
    x.Ptr? ==> x.val == x.target.pos && Linked(x.target.parts)
  }

  // ----- footprints -----

  ghost function Cells(off: nat, len: nat): (r: set<int>)
    ensures forall i :: i in r <==> off <= i < off + len
    decreases len
  {
    if len == 0 then {} else Cells(off, len - 1) + {off + len - 1}
  }

  ghost function Foot(ps: seq<Part>): set<int>
    decreases ps
  {
    if ps == [] then {} else FootPart(ps[0]) + Foot(ps[1..])
  }

  ghost function FootPart(x: Part): set<int>
    decreases x
  {
    match x
    case Raw(off, data, _) => Cells(off, |data|)
    case Ptr(off, _, t) => Cells(off, 4) + Foot(t.parts)
  }

  /** Sibling parts share no byte, and a slot is never inside the record it points to. */
  ghost predicate Sep(ps: seq<Part>)
    decreases ps
  {
    ps != [] ==> SepPart(ps[0]) && FootPart(ps[0]) !! Foot(ps[1..]) && Sep(ps[1..])
  }

  ghost predicate SepPart(x: Part)
    decreases x
  {
    x.Ptr? ==> Cells(x.off, 4) !! Foot(x.target.parts) && Sep(x.target.parts)
  }

  /** All parts, and the fixed areas of all records, lie in `[lo, hi)`. */
  predicate Within(ps: seq<Part>, lo: nat, hi: nat)
    decreases ps
  {
    ps != [] ==> WithinPart(ps[0], lo, hi) && Within(ps[1..], lo, hi)
  }

  predicate WithinPart(x: Part, lo: nat, hi: nat)
    decreases x
  {
    match x
    case Raw(off, data, _) => lo <= off && off + |data| <= hi
    case Ptr(off, _, t) => lo <= off && off + 4 <= hi && WithinObj(t, lo, hi)
  }

  predicate WithinObj(o: Obj, lo: nat, hi: nat)
    decreases o
  {
    lo <= o.pos && o.pos + o.size <= hi && Within(o.parts, lo, hi)
  }

  // ----- well-formed objects -----

  /** The parts of an object are exactly what its type prescribes for a record at its position. */
  ghost predicate Shape(o: Obj)
    decreases o
  {
    match o.ty
    case String =>
      && o.size == 0 && |o.parts| == 1
      && var x := o.parts[0];
      && x.Raw? && x.off == o.pos && x.scalar == None
      && 4 <= |x.data| && LeVal(x.data[..4]) == |x.data| - 4
    case List(e) =>
      && o.size == 0 && |o.parts| >= 1
      && var x := o.parts[0];
      && x.Raw? && x.off == o.pos && x.scalar == None && |x.data| == 4
      && (if e.Scalar?() then
            && |o.parts| == 2
            && var y := o.parts[1];
            && y.Raw? && y.off == AlignUp(o.pos + 4, ElemAlign(e)) && y.scalar == None
            && |y.data| == ElemsSize(e, LeVal(x.data))
          else
            && e.Pointer?()
            && |o.parts| == 1 + LeVal(x.data)
            && forall i :: 1 <= i < |o.parts| ==> EntryShape(o, e, i))
    case Schema(s) =>
      var r := OffsetsFor(s.fields);
      && r.Some?
      && o.size == r.value.rootSize
      && |o.parts| == |s.fields|
      && forall i :: 0 <= i < |o.parts| ==> FieldShape(o, s.fields, r.value, i)
    case Option(_) => VariantShape(o)
    case Result(_, _) => VariantShape(o)
    case Enum(_, _) => VariantShape(o)
    case _ => false
  }

  /** Entry slot `i` of a pointer array; slot 0 is the length prefix. */
  ghost predicate EntryShape(o: Obj, e: TypeRepr, i: nat)
    requires i < |o.parts|
    decreases o, 0
  {
    SlotShape(o.parts[i], o.pos + 4 * i, e)
  }

  ghost predicate FieldShape(o: Obj, fs: seq<Field>, t: OffsetTable, i: nat)
    requires i < |o.parts| == |fs| == |t.fields|
    decreases o, 0
  {
    SlotShape(o.parts[i], o.pos + t.fields[i].offset, fs[i].ty)
  }

  ghost predicate VariantShape(o: Obj)
    decreases o, 0
  {
    && o.size == 0 && |o.parts| >= 1
    && var x := o.parts[0];
    && x.Raw? && x.off == o.pos && x.scalar == None && |x.data| == 1
    && match SelectPayload(o.ty, x.data[0])
       case BadTag => false
       case NoPayload => |o.parts| == 1
       case Payload(pty) => |o.parts| == 2 && SlotShape(o.parts[1], PayloadSlotOffset(o.pos, pty), pty)
  }

  /** A slot of type `ty` at `off`: inline bytes, or a pointer to an object of that type. */
  ghost predicate SlotShape(x: Part, off: nat, ty: TypeRepr)
    decreases x
  {
    x.off == off &&
    if ty.Inline?() then x.Raw? && x.scalar == Some(ty) && |x.data| == InlineSize(ty)
    else x.Ptr? && ty.Pointer?() && x.target.ty == ty && Shape(x.target)
  }

  // ----- decoding an object -----

  function ScalarValues(e: TypeRepr, data: seq<byte>, n: nat): (r: seq<Value>)
    requires e.Scalar?() && |data| == ElemsSize(e, n)
    decreases n
  {
    if n == 0 then []
    else [ScalarValue(e, data[..ElemSize(e)])] + ScalarValues(e, data[ElemSize(e)..], n - 1)
  }

  /** The value an object stands for. */
  ghost function Decode(o: Obj): Read<Value>
    requires Shape(o)
    decreases o
  {
    match o.ty
    case String =>
      var text := o.parts[0].data[4..];
      if ValidUtf8(text) then Ok(VString(text)) else Err(InvalidUtf8)
    case List(e) =>
      if e.Scalar?() then Ok(VList(ScalarValues(e, o.parts[1].data, LeVal(o.parts[0].data))))
      else
        var items :- DecodeParts(o.parts[1..]);
        Ok(VList(items))
    case Schema(s) =>
      var vals :- DecodeParts(o.parts);
      Ok(Assemble(s, vals))
    case Option(_) => DecodeVariant(o)
    case Result(_, _) => DecodeVariant(o)
    case Enum(_, _) => DecodeVariant(o)
  }

  ghost function DecodeVariant(o: Obj): Read<Value>
    requires VariantShape(o)
    decreases o, 0
  {
    match SelectPayload(o.ty, o.parts[0].data[0])
    case NoPayload => Ok(BareVariant(o.ty, o.parts[0].data[0]))
    case Payload(_) =>
      var v :- DecodePart(o.parts[1]);
      match WrapVariant(o.ty, o.parts[0].data[0], v)
      case None => Err(Malformed)
      case Some(w) => Ok(w)
  }

  ghost function DecodePart(x: Part): Read<Value>
    decreases x
  {
    if x.Ptr? then
      if Shape(x.target) then Decode(x.target) else Err(Malformed)
    else if x.scalar.Some? && x.scalar.value.Inline?() && |x.data| == InlineSize(x.scalar.value) then
      Ok(ScalarValue(x.scalar.value, x.data))
    else Err(Malformed)
  }

  ghost function DecodeParts(ps: seq<Part>): (r: Read<seq<Value>>)
    ensures r.Ok? ==> |r.value| == |ps|
    decreases ps
  {
    if ps == [] then Ok([]) else Cons(DecodePart(ps[0]), DecodeParts(ps[1..]))
  }
}
