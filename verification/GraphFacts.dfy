/** Buffers that encode an object: framing, reading it back, and passing the verifier. */
module GraphFacts {
  import opened Bytes
  import opened Wrappers
  import opened Schemas
  import opened Layout
  import opened LayoutFacts
  import opened Reader
  import opened Verifier
  import opened VerifierFacts
  import opened Graph

  // ----- framing -----

  /** `b2` holds the bytes of `b1` on every cell of `cells`. */
  ghost predicate SameOn(cells: set<int>, b1: seq<byte>, b2: seq<byte>) {
    |b1| <= |b2| && forall i :: i in cells && 0 <= i < |b1| ==> b1[i] == b2[i]
  }

  /** An encoded object depends on its footprint only. */
  lemma {:induction false} EncFrame(b1: seq<byte>, b2: seq<byte>, ps: seq<Part>)
    requires Enc(b1, ps) && SameOn(Foot(ps), b1, b2)
    ensures Enc(b2, ps)
    decreases ps
  {
    if ps != [] {
      EncPartFrame(b1, b2, ps[0]);
      EncFrame(b1, b2, ps[1..]);
    }
  }

  lemma {:induction false} EncPartFrame(b1: seq<byte>, b2: seq<byte>, x: Part)
    requires EncPart(b1, x) && SameOn(FootPart(x), b1, b2)
    ensures EncPart(b2, x)
    decreases x
  {
    match x
    case Raw(off, data, _) =>
      SliceFrame(b1, b2, off, |data|);
    case Ptr(off, _, t) =>
      SliceFrame(b1, b2, off, 4);
      EncFrame(b1, b2, t.parts);
  }

  lemma SliceFrame(b1: seq<byte>, b2: seq<byte>, off: nat, len: nat)
    requires off + len <= |b1| && SameOn(Cells(off, len), b1, b2)
    ensures off + len <= |b2| && b1[off..off + len] == b2[off..off + len]
  {
    forall i | off <= i < off + len
      ensures b1[i] == b2[i]
    {
      assert i in Cells(off, len);
    }
  }

  /** A footprint lies where its parts lie. */
  lemma {:induction false} FootWithin(ps: seq<Part>, lo: nat, hi: nat)
    requires Within(ps, lo, hi)
    ensures forall i :: i in Foot(ps) ==> lo <= i < hi
    decreases ps
  {
    if ps != [] {
      FootPartWithin(ps[0], lo, hi);
      FootWithin(ps[1..], lo, hi);
    }
  }

  lemma {:induction false} FootPartWithin(x: Part, lo: nat, hi: nat)
    requires WithinPart(x, lo, hi)
    ensures forall i :: i in FootPart(x) ==> lo <= i < hi
    decreases x
  {
    if x.Ptr? {
      FootWithin(x.target.parts, lo, hi);
    }
  }

  lemma {:induction false} WithinWider(ps: seq<Part>, lo: nat, hi: nat, lo': nat, hi': nat)
    requires Within(ps, lo, hi) && lo' <= lo && hi <= hi'
    ensures Within(ps, lo', hi')
    decreases ps
  {
    if ps != [] {
      WithinPartWider(ps[0], lo, hi, lo', hi');
      WithinWider(ps[1..], lo, hi, lo', hi');
    }
  }

  lemma {:induction false} WithinPartWider(x: Part, lo: nat, hi: nat, lo': nat, hi': nat)
    requires WithinPart(x, lo, hi) && lo' <= lo && hi <= hi'
    ensures WithinPart(x, lo', hi')
    decreases x
  {
    if x.Ptr? {
      WithinWider(x.target.parts, lo, hi, lo', hi');
    }
  }

  // ----- one part of many -----

  lemma {:induction false} PartAt(b: seq<byte>, ps: seq<Part>, lo: nat, hi: nat, i: nat)
    requires Enc(b, ps) && Linked(ps) && Within(ps, lo, hi) && i < |ps|
    ensures EncPart(b, ps[i]) && LinkedPart(ps[i]) && WithinPart(ps[i], lo, hi)
    decreases i
  {
    if i > 0 {
      PartAt(b, ps[1..], lo, hi, i - 1);
    }
  }

  // ----- reading an encoded object back -----

  /** The buffer holds a complete, correctly linked object of a usable type. */
  ghost predicate Holds(b: seq<byte>, o: Obj) {
    Shape(o) && Linked(o.parts) && Enc(b, o.parts) && WithinObj(o, 0, |b|) && Good(o.ty)
  }

  ghost predicate HoldsSlot(b: seq<byte>, x: Part, off: nat, ty: TypeRepr) {
    SlotShape(x, off, ty) && LinkedPart(x) && EncPart(b, x) && WithinPart(x, 0, |b|) && Good(ty)
  }

  /** A buffer that encodes an object reads as the value the object stands for. */
  lemma {:induction false} TargetReads(b: seq<byte>, o: Obj)
    requires Holds(b, o)
    ensures TargetAt(b, o.pos, o.ty) == ElementAt(b, o.pos, o.ty) == Decode(o)
    decreases Depth(o.ty), 3
  {
    assert Shape(o);
    match o.ty
    case String => StringReads(b, o);
    case List(e) => if e.Scalar?() { ScalarListReads(b, o, e); } else { ListReads(b, o, e); }
    case Schema(s) => RecordReads(b, o, s);
    case Option(_) => VariantReads(b, o);
    case Result(_, _) => VariantReads(b, o);
    case Enum(_, _) => VariantReads(b, o);
  }

  /** The `u32` at the front of an encoded literal. */
  lemma CountRead(b: seq<byte>, x: Part)
    requires EncPart(b, x) && x.Raw? && 4 <= |x.data|
    ensures x.off + 4 <= |b| && U32At(b, x.off) == LeVal(x.data[..4])
    ensures |x.data| == 4 ==> U32At(b, x.off) == LeVal(x.data)
  {
    assert b[x.off..x.off + 4] == b[x.off..x.off + |x.data|][..4];
    if |x.data| == 4 {
      assert x.data[..4] == x.data;
    }
  }

  lemma PtrRead(b: seq<byte>, x: Part)
    requires EncPart(b, x) && x.Ptr?
    ensures SlotPointer(b, x.off) == Ok(x.val)
  {
    LeRoundTrip4(x.val);
  }

  lemma StringReads(b: seq<byte>, o: Obj)
    requires Holds(b, o) && o.ty.String?
    ensures TargetAt(b, o.pos, o.ty) == Decode(o)
  {
    assert Shape(o);
    var data := o.parts[0].data;
    PartAt(b, o.parts, 0, |b|, 0);
    CountRead(b, o.parts[0]);
    assert b[o.pos + 4..o.pos + |data|] == b[o.pos..o.pos + |data|][4..];
  }

  lemma {:induction false} ScalarsRead(b: seq<byte>, off: nat, n: nat, e: TypeRepr)
    requires e.Scalar?() && off + ElemsSize(e, n) <= |b|
    ensures ScalarsAt(b, off, n, e) == ScalarValues(e, b[off..off + ElemsSize(e, n)], n)
    decreases n
  {
    if n > 0 {
      var w, end := ElemSize(e), off + ElemsSize(e, n);
      assert b[off..end][..w] == b[off..off + w];
      assert b[off..end][w..] == b[off + w..end];
      ScalarsRead(b, off + w, n - 1, e);
    }
  }

  lemma ScalarListReads(b: seq<byte>, o: Obj, e: TypeRepr)
    requires Holds(b, o) && o.ty == TypeRepr.List(e) && e.Scalar?()
    ensures TargetAt(b, o.pos, o.ty) == Decode(o)
  {
    hide LeVal, Le, ScalarsAt, ScalarValues, AlignUp;
    assert Shape(o);
    var ps := o.parts;
    PartAt(b, ps, 0, |b|, 0);
    CountRead(b, ps[0]);
    PartAt(b, ps, 0, |b|, 1);
    hide Enc, Linked, Within;
    ScalarsRead(b, ps[1].off, LeVal(ps[0].data), e);
  }

  /** A slot reads as what its part stands for. */
  lemma {:induction false} SlotReads(b: seq<byte>, x: Part, off: nat, ty: TypeRepr)
    requires HoldsSlot(b, x, off, ty)
    ensures FieldAt(b, off, ty) == DecodePart(x)
    decreases Depth(ty), 4
  {
    if x.Ptr? {
      PtrRead(b, x);
      TargetReads(b, x.target);
      if ty.Schema? { GoodRecordLayout(ty.schema.fields); }
    }
  }

  lemma {:induction false} ListReads(b: seq<byte>, o: Obj, e: TypeRepr)
    requires Holds(b, o) && o.ty == TypeRepr.List(e) && !e.Scalar?()
    ensures TargetAt(b, o.pos, o.ty) == Decode(o)
    decreases Depth(e), 9
  {
    hide LeVal, Le;
    assert Shape(o);
    var ps := o.parts;
    PartAt(b, ps, 0, |b|, 0);
    CountRead(b, ps[0]);
    EntryShapes(o, e);
    EntriesRead(b, ps[1..], o.pos + 4, e);
    if e.Schema? { GoodRecordLayout(e.schema.fields); }
  }

  /** The entry slots of a pointer array, counted from the first entry. */
  lemma EntryShapes(o: Obj, e: TypeRepr)
    requires Shape(o) && o.ty == TypeRepr.List(e) && !e.Scalar?()
    ensures forall i :: 0 <= i < |o.parts[1..]| ==> SlotShape(o.parts[1..][i], o.pos + 4 + 4 * i, e)
  {
    forall i | 0 <= i < |o.parts[1..]|
      ensures SlotShape(o.parts[1..][i], o.pos + 4 + 4 * i, e)
    {
      assert EntryShape(o, e, i + 1);
    }
  }

  lemma TailShapes(ps: seq<Part>, off: nat, e: TypeRepr)
    requires ps != [] && forall i :: 0 <= i < |ps| ==> SlotShape(ps[i], off + 4 * i, e)
    ensures forall i :: 0 <= i < |ps[1..]| ==> SlotShape(ps[1..][i], off + 4 + 4 * i, e)
  {
    forall i | 0 <= i < |ps[1..]|
      ensures SlotShape(ps[1..][i], off + 4 + 4 * i, e)
    {
      assert SlotShape(ps[i + 1], off + 4 * (i + 1), e);
    }
  }

  lemma {:induction false} EntriesRead(b: seq<byte>, ps: seq<Part>, off: nat, e: TypeRepr)
    requires e.Pointer?() && Good(e) && off <= |b|
    requires forall i :: 0 <= i < |ps| ==> SlotShape(ps[i], off + 4 * i, e)
    requires Linked(ps) && Enc(b, ps) && Within(ps, 0, |b|)
    ensures off + 4 * |ps| <= |b|
    ensures EntriesAt(b, off, |ps|, e) == DecodeParts(ps)
    decreases Depth(e), 8, |ps|
  {
    hide LeVal, Le, Shape, Decode, ElementAt, TargetAt;
    if ps != [] {
      EntryRead(b, ps[0], off, e);
      TailShapes(ps, off, e);
      EntriesRead(b, ps[1..], off + 4, e);
    }
  }

  lemma {:induction false} EntryRead(b: seq<byte>, x: Part, off: nat, e: TypeRepr)
    requires e.Pointer?() && Good(e) && SlotShape(x, off, e)
    requires LinkedPart(x) && EncPart(b, x) && WithinPart(x, 0, |b|)
    ensures off + 4 <= |b| && SlotPointer(b, off) == Ok(x.target.pos)
    ensures ElementAt(b, x.target.pos, e) == DecodePart(x)
    decreases Depth(e), 7
  {
    hide LeVal, Le, Decode, ElementAt, TargetAt;
    PtrRead(b, x);
    TargetReads(b, x.target);
  }

  lemma {:induction false} RecordReads(b: seq<byte>, o: Obj, s: SchemaRepr)
    requires Holds(b, o) && o.ty == TypeRepr.Schema(s)
    ensures TargetAt(b, o.pos, o.ty) == ElementAt(b, o.pos, o.ty) == Decode(o)
    decreases Depth(o.ty), 2
  {
    assert Shape(o);
    var t := OffsetsFor(s.fields).value;
    forall k | 0 <= k < |s.fields|
      ensures SlotReadsAs(b, o.pos, t, s.fields[k], o.parts[k])
    {
      FieldReads(b, o, s, k);
    }
    assert s.fields[0..] == s.fields && o.parts[0..] == o.parts;
    SlotsReadFrom(b, o.pos, t, s.fields, o.parts, 0);
  }

  /** The slot the layout gives field `f` reads as the part `x`. */
  ghost predicate SlotReadsAs(b: seq<byte>, base: nat, t: OffsetTable, f: Field, x: Part) {
    && FindOffset(t.fields, f.name).Some?
    && FieldAt(b, base + FindOffset(t.fields, f.name).value.offset, f.ty) == DecodePart(x)
  }

  lemma {:induction false} SlotsReadFrom(
    b: seq<byte>, base: nat, t: OffsetTable, fs: seq<Field>, ps: seq<Part>, k: nat)
    requires k <= |fs| == |ps|
    requires forall i :: k <= i < |fs| ==> SlotReadsAs(b, base, t, fs[i], ps[i])
    ensures SlotsAt(b, base, t, fs[k..]) == DecodeParts(ps[k..])
    decreases |fs| - k
  {
    if k < |fs| {
      assert SlotReadsAs(b, base, t, fs[k], ps[k]);
      SlotsAtStep(b, base, t, fs, k);
      assert ps[k..][1..] == ps[k + 1..];
      SlotsReadFrom(b, base, t, fs, ps, k + 1);
    }
  }

  /** The slot of field `k` of an encoded record, found by name, reads as part `k`. */
  lemma {:induction false} FieldReads(b: seq<byte>, o: Obj, s: SchemaRepr, k: nat)
    requires Holds(b, o) && o.ty == TypeRepr.Schema(s) && k < |s.fields| == |o.parts|
    ensures var t := OffsetsFor(s.fields).value;
      && FindOffset(t.fields, s.fields[k].name) == Some(t.fields[k])
      && FieldAt(b, o.pos + t.fields[k].offset, s.fields[k].ty) == DecodePart(o.parts[k])
    decreases Depth(o.ty), 0
  {
    hide OffsetsFor, FindOffset, DistinctNames, FieldAt, DecodePart, Holds, HoldsSlot;
    HeldLayout(b, o, s);
    var t := OffsetsFor(s.fields).value;
    SlotFacts(s.fields, t, k);
    FieldHeld(b, o, s, k);
    FieldDepth(s.fields, k);
    SlotReads(b, o.parts[k], o.pos + t.fields[k].offset, s.fields[k].ty);
  }

  lemma HeldLayout(b: seq<byte>, o: Obj, s: SchemaRepr)
    requires Holds(b, o) && o.ty == TypeRepr.Schema(s)
    ensures OffsetsFor(s.fields).Some? && DistinctNames(s.fields)
  {
    hide OffsetsFor, Enc, Linked, Within, FieldShape;
    assert Shape(o);
  }

  lemma FieldHeld(b: seq<byte>, o: Obj, s: SchemaRepr, k: nat)
    requires Holds(b, o) && o.ty == TypeRepr.Schema(s) && k < |s.fields| == |o.parts|
    ensures HoldsSlot(b, o.parts[k], o.pos + OffsetsFor(s.fields).value.fields[k].offset, s.fields[k].ty)
  {
    assert Shape(o);
    assert FieldShape(o, s.fields, OffsetsFor(s.fields).value, k);
    GoodField(s.fields, k);
    PartAt(b, o.parts, 0, |b|, k);
  }

  lemma {:induction false} VariantReads(b: seq<byte>, o: Obj)
    requires Holds(b, o) && o.ty.Variant?()
    ensures TargetAt(b, o.pos, o.ty) == Decode(o)
    decreases Depth(o.ty), 2
  {
    assert VariantShape(o);
    var tag := o.parts[0].data[0];
    PartAt(b, o.parts, 0, |b|, 0);
    assert b[o.pos] == b[o.pos..o.pos + 1][0];
    var sel := SelectPayload(o.ty, tag);
    if sel.Payload? {
      GoodPayload(o.ty, tag);
      PartAt(b, o.parts, 0, |b|, 1);
      SlotReads(b, o.parts[1], PayloadSlotOffset(o.pos, sel.ty), sel.ty);
    }
  }

  lemma ListKindOf(e: TypeRepr)
    requires Good(TypeRepr.List(e))
    ensures var k := ListKind(TypeRepr.List(e));
      && k.Some?
      && (if e.Scalar?() then k.value == InlineFixed(ElemSize(e), ElemAlign(e)) else k.value.PointerArray?)
  {
    LayoutableIffSupported(TypeRepr.List(e));
    DecisionShape(TypeRepr.List(e));
  }
}
