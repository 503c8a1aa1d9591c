/** Rebasing and moving encoded objects.

    `Move(o, at, d)` is what becomes of an object when its bytes are displaced by `at` and the
    relocator has added `d` to the pointers it visits. The relocator does not visit the inner
    pointer arrays of lists nested three or more deep over an inline scalar. */
module Moving {
  import opened Bytes
  import opened Schemas
  import opened Layout
  import opened LayoutFacts
  import opened Reader
  import opened Graph

  /** An inline scalar, or lists of it nested to any depth. */
  predicate ScalarNest(ty: TypeRepr) {
    ty.Scalar?() || (ty.List? && ScalarNest(ty.element))
  }

  /** Whether relocation goes on into the records behind the pointers of a record of type `ty`. */
  predicate Descends(ty: TypeRepr) {
    !(ty.List? && ScalarNest(ty.element))
  }

  function Inner(ty: TypeRepr, d: nat): nat {
    if Descends(ty) then d else 0
  }

  function Move(o: Obj, at: nat, d: nat): Obj
    decreases o
  {
    Obj(o.pos + at, o.ty, o.size, MoveParts(o.parts, at, d, Inner(o.ty, d)))
  }

  /** Pointers among `ps` gain `d`, pointers behind them gain `inner`. */
  function MoveParts(ps: seq<Part>, at: nat, d: nat, inner: nat): (r: seq<Part>)
    ensures |r| == |ps|
    decreases ps
  {
    if ps == [] then [] else [MovePart(ps[0], at, d, inner)] + MoveParts(ps[1..], at, d, inner)
  }

  function MovePart(x: Part, at: nat, d: nat, inner: nat): Part
    decreases x
  {
    match x
    case Raw(off, data, scalar) => Raw(off + at, data, scalar)
    case Ptr(off, val, t) => Ptr(off + at, val + d, Move(t, at, inner))
  }

  lemma {:induction false} MovePartsAt(ps: seq<Part>, at: nat, d: nat, inner: nat, i: nat)
    requires i < |ps|
    ensures MoveParts(ps, at, d, inner)[i] == MovePart(ps[i], at, d, inner)
    decreases i
  {
    if i > 0 {
      MovePartsAt(ps[1..], at, d, inner, i - 1);
    }
  }

  // ----- a move displaces the footprint -----

  lemma {:induction false} FootMove(ps: seq<Part>, at: nat, d: nat, inner: nat, i: int)
    ensures i in Foot(MoveParts(ps, at, d, inner)) <==> i - at in Foot(ps)
    decreases ps
  {
    if ps != [] {
      FootPartMove(ps[0], at, d, inner, i);
      FootMove(ps[1..], at, d, inner, i);
      assert MoveParts(ps, at, d, inner)[1..] == MoveParts(ps[1..], at, d, inner);
    }
  }

  lemma {:induction false} FootPartMove(x: Part, at: nat, d: nat, inner: nat, i: int)
    ensures i in FootPart(MovePart(x, at, d, inner)) <==> i - at in FootPart(x)
    decreases x
  {
    if x.Ptr? {
      var t := x.target;
      FootMove(t.parts, at, inner, Inner(t.ty, inner), i);
    }
  }

  lemma {:induction false} SepMove(ps: seq<Part>, at: nat, d: nat, inner: nat)
    requires Sep(ps)
    ensures Sep(MoveParts(ps, at, d, inner))
    decreases ps
  {
    if ps != [] {
      SepPartMove(ps[0], at, d, inner);
      SepMove(ps[1..], at, d, inner);
      var qs := MoveParts(ps, at, d, inner);
      assert qs[0] == MovePart(ps[0], at, d, inner) && qs[1..] == MoveParts(ps[1..], at, d, inner);
      forall i | i in FootPart(qs[0])
        ensures i !in Foot(qs[1..])
      {
        FootPartMove(ps[0], at, d, inner, i);
        FootMove(ps[1..], at, d, inner, i);
      }
    }
  }

  lemma {:induction false} SepPartMove(x: Part, at: nat, d: nat, inner: nat)
    requires SepPart(x)
    ensures SepPart(MovePart(x, at, d, inner))
    decreases x
  {
    if x.Ptr? {
      var t := x.target;
      var u := Move(t, at, inner);
      SepMove(t.parts, at, inner, Inner(t.ty, inner));
      forall i | i in Cells(x.off + at, 4)
        ensures i !in Foot(u.parts)
      {
        FootMove(t.parts, at, inner, Inner(t.ty, inner), i);
      }
    }
  }

  lemma {:induction false} WithinMove(ps: seq<Part>, lo: nat, hi: nat, at: nat, d: nat, inner: nat)
    requires Within(ps, lo, hi)
    ensures Within(MoveParts(ps, at, d, inner), lo + at, hi + at)
    decreases ps
  {
    if ps != [] {
      WithinPartMove(ps[0], lo, hi, at, d, inner);
      WithinMove(ps[1..], lo, hi, at, d, inner);
      assert MoveParts(ps, at, d, inner)[1..] == MoveParts(ps[1..], at, d, inner);
    }
  }

  lemma {:induction false} WithinPartMove(x: Part, lo: nat, hi: nat, at: nat, d: nat, inner: nat)
    requires WithinPart(x, lo, hi)
    ensures WithinPart(MovePart(x, at, d, inner), lo + at, hi + at)
    decreases x
  {
    if x.Ptr? {
      var t := x.target;
      WithinMove(t.parts, lo, hi, at, inner, Inner(t.ty, inner));
    }
  }

  // ----- a move by a multiple of the graph alignment keeps the shape -----

  /** Positions a reader derives by rounding up are displaced exactly like the bytes, provided the
      displacement is a multiple of the deep alignment of the type. */
  lemma {:induction false} ShapeMove(o: Obj, at: nat, d: nat)
    requires Shape(o) && Aligned(at, TypeGraphAlign(o.ty))
    ensures Shape(Move(o, at, d))
    decreases o, 1
  {
    hide OffsetsFor, LeVal;
    var ps, inner := o.parts, Inner(o.ty, d);
    var o' := Move(o, at, d);
    match o.ty
    case String => MovePartsAt(ps, at, d, inner, 0);
    case List(e) =>
      MovePartsAt(ps, at, d, inner, 0);
      if e.Scalar?() {
        MovePartsAt(ps, at, d, inner, 1);
        AlignUpShift(o.pos + 4, at, ElemAlign(e));
      } else {
        forall i | 1 <= i < |ps|
          ensures EntryShape(o', e, i)
        {
          assert EntryShape(o, e, i);
          AlignDivides(TypeGraphAlign(e), TypeGraphAlign(o.ty), at);
          SlotShapeMove(ps[i], o.pos + 4 * i, e, at, d, inner);
          MovePartsAt(ps, at, d, inner, i);
        }
      }
    case Schema(s) =>
      var t := OffsetsFor(s.fields).value;
      forall i | 0 <= i < |ps|
        ensures FieldShape(o', s.fields, t, i)
      {
        assert FieldShape(o, s.fields, t, i);
        FieldAlignDivides(s.fields, i);
        AlignDivides(TypeGraphAlign(s.fields[i].ty), TypeGraphAlign(o.ty), at);
        SlotShapeMove(ps[i], o.pos + t.fields[i].offset, s.fields[i].ty, at, d, inner);
        MovePartsAt(ps, at, d, inner, i);
      }
    case Option(_) => VariantShapeMove(o, at, d);
    case Result(_, _) => VariantShapeMove(o, at, d);
    case Enum(_, _) => VariantShapeMove(o, at, d);
  }

  lemma {:induction false} VariantShapeMove(o: Obj, at: nat, d: nat)
    requires VariantShape(o) && o.ty.Variant?() && Aligned(at, TypeGraphAlign(o.ty))
    ensures VariantShape(Move(o, at, d))
    decreases o, 0
  {
    hide TypeGraphAlign, LeVal;
    var ps, inner := o.parts, Inner(o.ty, d);
    MovePartsAt(ps, at, d, inner, 0);
    var tag := ps[0].data[0];
    var sel := SelectPayload(o.ty, tag);
    if sel.Payload? {
      SelectedAlignDivides(o.ty, tag);
      AlignDivides(TypeGraphAlign(sel.ty), TypeGraphAlign(o.ty), at);
      AlignDivides(PayloadSlotRuntime(sel.ty).1, TypeGraphAlign(o.ty), at);
      AlignUpShift(o.pos + 1, at, PayloadSlotRuntime(sel.ty).1);
      SlotShapeMove(ps[1], PayloadSlotOffset(o.pos, sel.ty), sel.ty, at, d, inner);
      MovePartsAt(ps, at, d, inner, 1);
    }
  }

  lemma {:induction false} SlotShapeMove(x: Part, off: nat, ty: TypeRepr, at: nat, d: nat, inner: nat)
    requires SlotShape(x, off, ty) && Aligned(at, TypeGraphAlign(ty))
    ensures SlotShape(MovePart(x, at, d, inner), off + at, ty)
    decreases x
  {
    if x.Ptr? {
      ShapeMove(x.target, at, inner);
    }
  }

  // ----- a move keeps the decoded value -----

  lemma {:induction false} DecodeMove(o: Obj, at: nat, d: nat)
    requires Shape(o) && Shape(Move(o, at, d))
    ensures Decode(Move(o, at, d)) == Decode(o)
    decreases o, 1
  {
    var ps, inner := o.parts, Inner(o.ty, d);
    var qs := MoveParts(ps, at, d, inner);
    match o.ty
    case String => MovePartsAt(ps, at, d, inner, 0);
    case List(e) =>
      MovePartsAt(ps, at, d, inner, 0);
      if e.Scalar?() {
        MovePartsAt(ps, at, d, inner, 1);
      } else {
        assert qs[1..] == MoveParts(ps[1..], at, d, inner);
        forall i | 0 <= i < |ps[1..]|
          ensures DecodePart(MovePart(ps[1..][i], at, d, inner)) == DecodePart(ps[1..][i])
        {
          EntryDecodeMove(o, e, at, d, i + 1);
        }
        DecodePartsMove(ps[1..], at, d, inner);
      }
    case Schema(s) =>
      forall i | 0 <= i < |ps|
        ensures DecodePart(MovePart(ps[i], at, d, inner)) == DecodePart(ps[i])
      {
        FieldDecodeMove(o, s, at, d, i);
      }
      DecodePartsMove(ps, at, d, inner);
    case Option(_) => DecodeVariantMove(o, at, d);
    case Result(_, _) => DecodeVariantMove(o, at, d);
    case Enum(_, _) => DecodeVariantMove(o, at, d);
  }

  lemma {:induction false} EntryDecodeMove(o: Obj, e: TypeRepr, at: nat, d: nat, i: nat)
    requires Shape(o) && Shape(Move(o, at, d)) && o.ty == TypeRepr.List(e) && !e.Scalar?() && 1 <= i < |o.parts|
    ensures DecodePart(MovePart(o.parts[i], at, d, Inner(o.ty, d))) == DecodePart(o.parts[i])
    decreases o, 0
  {
    MovePartsAt(o.parts, at, d, Inner(o.ty, d), i);
    assert EntryShape(o, e, i) && EntryShape(Move(o, at, d), e, i);
    DecodePartMove(o.parts[i], o.pos + 4 * i, e, at, d, Inner(o.ty, d));
  }

  lemma {:induction false} FieldDecodeMove(o: Obj, s: SchemaRepr, at: nat, d: nat, i: nat)
    requires Shape(o) && Shape(Move(o, at, d)) && o.ty == TypeRepr.Schema(s) && i < |o.parts|
    ensures DecodePart(MovePart(o.parts[i], at, d, Inner(o.ty, d))) == DecodePart(o.parts[i])
    decreases o, 0
  {
    var t := OffsetsFor(s.fields).value;
    MovePartsAt(o.parts, at, d, Inner(o.ty, d), i);
    assert FieldShape(o, s.fields, t, i) && FieldShape(Move(o, at, d), s.fields, t, i);
    DecodePartMove(o.parts[i], o.pos + t.fields[i].offset, s.fields[i].ty, at, d, Inner(o.ty, d));
  }

  lemma {:induction false} DecodeVariantMove(o: Obj, at: nat, d: nat)
    requires VariantShape(o) && VariantShape(Move(o, at, d)) && o.ty.Variant?()
    ensures DecodeVariant(Move(o, at, d)) == DecodeVariant(o)
    decreases o, 0
  {
    var ps, inner := o.parts, Inner(o.ty, d);
    MovePartsAt(ps, at, d, inner, 0);
    var sel := SelectPayload(o.ty, ps[0].data[0]);
    if sel.Payload? {
      MovePartsAt(ps, at, d, inner, 1);
      assert ps[1].off + at == MovePart(ps[1], at, d, inner).off;
      DecodePartMove(ps[1], PayloadSlotOffset(o.pos, sel.ty), sel.ty, at, d, inner);
    }
  }

  lemma {:induction false} DecodePartMove(x: Part, off: nat, ty: TypeRepr, at: nat, d: nat, inner: nat)
    requires SlotShape(x, off, ty) && SlotShape(MovePart(x, at, d, inner), off + at, ty)
    ensures DecodePart(MovePart(x, at, d, inner)) == DecodePart(x)
    decreases x
  {
    if x.Ptr? {
      DecodeMove(x.target, at, inner);
    }
  }

  lemma {:induction false} DecodePartsMove(ps: seq<Part>, at: nat, d: nat, inner: nat)
    requires forall i :: 0 <= i < |ps| ==> DecodePart(MovePart(ps[i], at, d, inner)) == DecodePart(ps[i])
    ensures DecodeParts(MoveParts(ps, at, d, inner)) == DecodeParts(ps)
    decreases |ps|
  {
    if ps != [] {
      assert MoveParts(ps, at, d, inner)[1..] == MoveParts(ps[1..], at, d, inner);
      DecodePartsMove(ps[1..], at, d, inner);
    }
  }

  // ----- moving the bytes -----

  /** Placing relocated bytes behind a prefix displaces what they encode. */
  lemma {:induction false} EncMove(prefix: seq<byte>, c: seq<byte>, ps: seq<Part>, d: nat, inner: nat)
    requires Enc(c, MoveParts(ps, 0, d, inner))
    ensures Enc(prefix + c, MoveParts(ps, |prefix|, d, inner))
    decreases ps
  {
    if ps != [] {
      assert MoveParts(ps, 0, d, inner)[1..] == MoveParts(ps[1..], 0, d, inner);
      assert MoveParts(ps, |prefix|, d, inner)[1..] == MoveParts(ps[1..], |prefix|, d, inner);
      assert MoveParts(ps, 0, d, inner)[0] == MovePart(ps[0], 0, d, inner);
      EncPartMove(prefix, c, ps[0], d, inner);
      EncMove(prefix, c, ps[1..], d, inner);
    }
  }

  lemma {:induction false} EncPartMove(prefix: seq<byte>, c: seq<byte>, x: Part, d: nat, inner: nat)
    requires EncPart(c, MovePart(x, 0, d, inner))
    ensures EncPart(prefix + c, MovePart(x, |prefix|, d, inner))
    decreases x
  {
    hide Le, Enc, MoveParts;
    match x
    case Raw(off, data, _) => BehindPrefix(prefix, c, off, |data|);
    case Ptr(off, _, t) =>
      BehindPrefix(prefix, c, off, 4);
      assert MovePart(x, 0, d, inner).target.parts == MoveParts(t.parts, 0, inner, Inner(t.ty, inner));
      EncMove(prefix, c, t.parts, inner, Inner(t.ty, inner));
  }

  lemma BehindPrefix(prefix: seq<byte>, c: seq<byte>, off: nat, len: nat)
    requires off + len <= |c|
    ensures (prefix + c)[off + |prefix|..off + |prefix| + len] == c[off..off + len]
  {
  }

  // ----- links -----

  /** No part is a pointer. */
  predicate Leafy(ps: seq<Part>) {
    forall i :: 0 <= i < |ps| ==> ps[i].Raw?
  }

  /** No pointer is left out of a relocation: wherever relocation stops, nothing is left to rebase. */
  predicate Rebasable(ps: seq<Part>, descends: bool)
    decreases ps
  {
    ps != [] ==> RebasablePart(ps[0], descends) && Rebasable(ps[1..], descends)
  }

  predicate RebasablePart(x: Part, descends: bool)
    decreases x
  {
    x.Ptr? ==> if descends then Rebasable(x.target.parts, Descends(x.target.ty)) else Leafy(x.target.parts)
  }

  predicate RebasableObj(o: Obj) {
    Rebasable(o.parts, Descends(o.ty))
  }

  lemma {:induction false} LinkedMove(ps: seq<Part>, d: nat, descends: bool)
    requires Linked(ps) && Rebasable(ps, descends)
    ensures Linked(MoveParts(ps, d, d, if descends then d else 0))
    decreases ps
  {
    if ps != [] {
      var inner := if descends then d else 0;
      assert MoveParts(ps, d, d, inner)[1..] == MoveParts(ps[1..], d, d, inner);
      LinkedPartMove(ps[0], d, descends);
      LinkedMove(ps[1..], d, descends);
    }
  }

  lemma {:induction false} LinkedPartMove(x: Part, d: nat, descends: bool)
    requires LinkedPart(x) && RebasablePart(x, descends)
    ensures LinkedPart(MovePart(x, d, d, if descends then d else 0))
    decreases x
  {
    if x.Ptr? {
      var t := x.target;
      if descends {
        LinkedMove(t.parts, d, Descends(t.ty));
      } else {
        LeafyMove(t.parts, d, 0, Inner(t.ty, 0));
      }
    }
  }

  lemma {:induction false} LeafyMove(ps: seq<Part>, at: nat, d: nat, inner: nat)
    requires Leafy(ps)
    ensures Linked(MoveParts(ps, at, d, inner))
    decreases |ps|
  {
    if ps != [] {
      assert MoveParts(ps, at, d, inner)[1..] == MoveParts(ps[1..], at, d, inner);
      LeafyMove(ps[1..], at, d, inner);
    }
  }
}
