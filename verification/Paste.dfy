/** Relocation preserves meaning, exactly when it leaves no pointer out. */
module Paste {
  import opened Bytes
  import opened Wrappers
  import opened Schemas
  import opened Layout
  import opened LayoutFacts
  import opened Reader
  import opened VerifierFacts
  import opened Graph
  import opened GraphFacts
  import opened Moving
  import opened Relocation
  import opened Rebase

  /** A detached buffer holding an object whose parts share no byte. */
  ghost predicate Owns(c: seq<byte>, o: Obj) {
    Holds(c, o) && Sep(o.parts)
  }

  /** Placing relocated bytes at the base they were relocated for yields a buffer that holds the same
      object, displaced, with the same value. */
  lemma PasteObj(prefix: seq<byte>, c: seq<byte>, o: Obj)
    requires Owns(c, o) && RebasableObj(o) && Aligned(|prefix|, TypeGraphAlign(o.ty))
    requires RelocTarget(c, o.pos, o.ty, |prefix|, false).Some?
    ensures var d := |prefix|;
      var b := prefix + RelocTarget(c, o.pos, o.ty, d, false).value;
      && Owns(b, Move(o, d, d))
      && WithinObj(Move(o, d, d), d, |b|)
      && Decode(Move(o, d, d)) == Decode(o)
  {
    hide RelocTarget, TypeGraphAlign, Shape, Decode, Within, Sep, Enc, Linked, Rebasable, MoveParts;
    var d := |prefix|;
    var c' := RelocTarget(c, o.pos, o.ty, d, false).value;
    var inner := Inner(o.ty, d);
    TargetRebased(c, o, d);
    EncMove(prefix, c', o.parts, d, inner);
    ShapeMove(o, d, d);
    DecodeMove(o, d, d);
    SepMove(o.parts, d, d, inner);
    WithinMove(o.parts, 0, |c|, d, d, inner);
    LinkedMove(o.parts, d, Descends(o.ty));
    WithinWider(Move(o, d, d).parts, d, d + |c|, 0, d + |c|);
  }

  /** Relocation preserves meaning: through any nesting of records, lists and variants, the relocated
      bytes read at the base as the original bytes read at zero, whatever precedes them. */
  lemma RelocationPreservesMeaning(prefix: seq<byte>, c: seq<byte>, o: Obj)
    requires Owns(c, o) && RebasableObj(o) && Aligned(|prefix|, TypeGraphAlign(o.ty))
    requires RelocTarget(c, o.pos, o.ty, |prefix|, false).Some?
    ensures var b := prefix + RelocTarget(c, o.pos, o.ty, |prefix|, false).value;
      TargetAt(b, |prefix| + o.pos, o.ty) == TargetAt(c, o.pos, o.ty)
  {
    hide RelocTarget, TypeGraphAlign, Shape, Decode, TargetAt, ElementAt, Rebasable, MoveParts;
    PasteObj(prefix, c, o);
    TargetReads(c, o);
    TargetReads(prefix + RelocTarget(c, o.pos, o.ty, |prefix|, false).value, Move(o, |prefix|, |prefix|));
  }

  // ----- where a pointer is left out -----

  /** The relocated object behind a prefix of `d` bytes 0xFF, in which no length prefix makes sense. */
  ghost predicate Behind(b: seq<byte>, o: Obj, d: nat) {
    && Shape(o) && Linked(o.parts) && WithinObj(o, 0, d) && Good(o.ty)
    && Aligned(d, 8)
    && Enc(b, Move(o, d, d).parts)
    && d <= |b| <= U32_LIMIT
    && forall i :: 0 <= i < d ==> b[i] == 0xFF
  }

  lemma FillerCount(b: seq<byte>, p: nat)
    requires p + 4 <= |b| && forall i :: p <= i < p + 4 ==> b[i] == 0xFF
    ensures U32At(b, p) == U32_LIMIT - 1
  {
    var s := b[p..p + 4];
    assert s[0] == 0xFF && s[1..][0] == 0xFF && s[1..][1..][0] == 0xFF && s[1..][1..][1..][0] == 0xFF;
    assert s[1..][1..][1..][1..] == [];
    assert LeVal(s[1..][1..][1..]) == 0xFF;
    assert LeVal(s[1..][1..]) == 0xFFFF;
    assert LeVal(s[1..]) == 0xFFFFFF;
  }

  /** No list can be read from inside the filler. */
  lemma FillerUnreadable(b: seq<byte>, p: nat, d: nat, e: TypeRepr)
    requires p + 4 <= d <= |b| <= U32_LIMIT && forall i :: 0 <= i < d ==> b[i] == 0xFF
    ensures ListAt(b, p, e).Err?
  {
    FillerCount(b, p);
  }

  /** An entry that cannot be read makes the list unreadable. */
  lemma {:induction false} EntriesFail(b: seq<byte>, off: nat, n: nat, e: TypeRepr, i: nat)
    requires i < n && off + 4 * n <= |b| && ElementAt(b, U32At(b, off + 4 * i), e).Err?
    ensures EntriesAt(b, off, n, e).Err?
    decreases i
  {
    if i > 0 {
      EntriesFail(b, off + 4, n - 1, e, i - 1);
    }
  }

  lemma ListFails(b: seq<byte>, header: nat, e: TypeRepr, i: nat)
    requires header + 4 <= |b| && !e.Scalar?() && i < U32At(b, header)
    requires header + 8 + 4 * i <= |b| && ElementAt(b, U32At(b, header + 4 + 4 * i), e).Err?
    ensures TargetAt(b, header, TypeRepr.List(e)).Err? && ElementAt(b, header, TypeRepr.List(e)).Err?
  {
    hide LeVal;
    var n := U32At(b, header);
    if header + 4 + 4 * n <= |b| {
      EntriesFail(b, header + 4, n, e, i);
    }
  }

  lemma {:induction false} SlotsFail(b: seq<byte>, base: nat, t: OffsetTable, fs: seq<Field>, k: nat, i: nat)
    requires k <= i < |fs| && FindOffset(t.fields, fs[i].name).Some?
    requires FieldAt(b, base + FindOffset(t.fields, fs[i].name).value.offset, fs[i].ty).Err?
    ensures SlotsAt(b, base, t, fs[k..]).Err?
    decreases i - k
  {
    if FindOffset(t.fields, fs[k].name).Some? {
      SlotsAtStep(b, base, t, fs, k);
      if k < i {
        SlotsFail(b, base, t, fs, k + 1, i);
      }
    }
  }

  lemma {:induction false} RebasableParts(ps: seq<Part>, descends: bool)
    ensures Rebasable(ps, descends) <==> forall i :: 0 <= i < |ps| ==> RebasablePart(ps[i], descends)
    decreases |ps|
  {
    if ps != [] {
      RebasableParts(ps[1..], descends);
      assert forall i :: 0 < i < |ps| ==> ps[i] == ps[1..][i - 1];
    }
  }

  lemma {:induction false} EncPartAt(b: seq<byte>, ps: seq<Part>, i: nat)
    requires Enc(b, ps) && i < |ps|
    ensures EncPart(b, ps[i])
    decreases i
  {
    if i > 0 { EncPartAt(b, ps[1..], i - 1); }
  }

  lemma {:induction false} LinkedAt(ps: seq<Part>, lo: nat, hi: nat, i: nat)
    requires Linked(ps) && Within(ps, lo, hi) && i < |ps|
    ensures LinkedPart(ps[i]) && WithinPart(ps[i], lo, hi)
    decreases i
  {
    if i > 0 { LinkedAt(ps[1..], lo, hi, i - 1); }
  }

  /** A pointer part of an object behind the filler leads to the displaced target. */
  lemma PartBehind(b: seq<byte>, o: Obj, d: nat, i: nat, off: nat, ty: TypeRepr)
    requires Behind(b, o, d) && i < |o.parts| && o.parts[i].Ptr?
    requires SlotShape(o.parts[i], off, ty) && Good(ty)
    ensures SlotPointer(b, off + d) == Ok(o.parts[i].target.pos + d)
    ensures off + d + 4 <= |b| && U32At(b, off + d) == o.parts[i].target.pos + d
    ensures Descends(o.ty) ==> Behind(b, o.parts[i].target, d)
    ensures Enc(b, Move(o.parts[i].target, d, Inner(o.ty, d)).parts)
    ensures LinkedPart(o.parts[i]) && WithinPart(o.parts[i], 0, d)
  {
    hide LeVal, Le, Shape, Decode, Within;
    var inner := Inner(o.ty, d);
    LinkedAt(o.parts, 0, d, i);
    MovePartsAt(o.parts, d, d, inner, i);
    EncPartAt(b, Move(o, d, d).parts, i);
    PtrRead(b, MovePart(o.parts[i], d, d, inner));
  }

  /** Where relocation stops short of a pointer, the object can no longer be read. */
  lemma {:induction false} Unreadable(b: seq<byte>, o: Obj, d: nat)
    requires Behind(b, o, d) && !RebasableObj(o)
    ensures TargetAt(b, o.pos + d, o.ty).Err? && ElementAt(b, o.pos + d, o.ty).Err?
    decreases o, 3
  {
    RebasableParts(o.parts, Descends(o.ty));
    var i :| 0 <= i < |o.parts| && !RebasablePart(o.parts[i], Descends(o.ty));
    match o.ty
    case String =>
    case List(e) => ListUnreadable(b, o, e, d, i);
    case Schema(s) => RecordUnreadable(b, o, s, d, i);
    case Option(_) => VariantUnreadable(b, o, d, i);
    case Result(_, _) => VariantUnreadable(b, o, d, i);
    case Enum(_, _) => VariantUnreadable(b, o, d, i);
  }

  lemma {:induction false} SlotUnreadable(b: seq<byte>, o: Obj, d: nat, i: nat, off: nat, ty: TypeRepr)
    requires Behind(b, o, d) && i < |o.parts| && Descends(o.ty) && !RebasablePart(o.parts[i], true)
    requires SlotShape(o.parts[i], off, ty) && Good(ty)
    ensures FieldAt(b, off + d, ty).Err?
    ensures off + d + 4 <= |b| && ElementAt(b, U32At(b, off + d), ty).Err?
    decreases o, 1
  {
    PartBehind(b, o, d, i, off, ty);
    Unreadable(b, o.parts[i].target, d);
  }

  lemma {:induction false} RecordUnreadable(b: seq<byte>, o: Obj, s: SchemaRepr, d: nat, i: nat)
    requires Behind(b, o, d) && o.ty == TypeRepr.Schema(s) && i < |o.parts| && !RebasablePart(o.parts[i], true)
    ensures TargetAt(b, o.pos + d, o.ty).Err? && ElementAt(b, o.pos + d, o.ty).Err?
    decreases o, 2
  {
    hide LeVal, Le, Enc, Linked, Within, OffsetsFor, FindOffset, FieldAt, Decode, MoveParts, Rebasable;
    var t := OffsetsFor(s.fields).value;
    assert FieldShape(o, s.fields, t, i);
    hide Shape, SlotShape;
    SlotFacts(s.fields, t, i);
    GoodField(s.fields, i);
    SlotUnreadable(b, o, d, i, o.pos + t.fields[i].offset, s.fields[i].ty);
    assert s.fields[0..] == s.fields;
    SlotsFail(b, o.pos + d, t, s.fields, 0, i);
  }

  lemma {:induction false} VariantUnreadable(b: seq<byte>, o: Obj, d: nat, i: nat)
    requires Behind(b, o, d) && o.ty.Variant?() && i < |o.parts| && !RebasablePart(o.parts[i], true)
    ensures TargetAt(b, o.pos + d, o.ty).Err?
    decreases o, 2
  {
    assert VariantShape(o);
    hide LeVal, Le, Enc, Linked, Within, Shape, SlotShape, Rebasable, FieldAt, TargetAt, ElementAt, MoveParts,
      PayloadSlotOffset, SelectPayload, Good, Aligned;
    var tag := o.parts[0].data[0];
    var pty := SelectPayload(o.ty, tag).ty;
    TagBehind(b, o, d);
    GoodPayload(o.ty, tag);
    SlotUnreadable(b, o, d, 1, PayloadSlotOffset(o.pos, pty), pty);
    PayloadShift(o.pos, d, pty);
    VariantFails(b, o.pos + d, o.ty, pty);
  }

  lemma PayloadShift(pos: nat, d: nat, pty: TypeRepr)
    requires Aligned(d, 8)
    ensures PayloadSlotOffset(pos + d, pty) == PayloadSlotOffset(pos, pty) + d
  {
    AlignDivides(PayloadSlotRuntime(pty).1, 8, d);
    AlignUpShift(pos + 1, d, PayloadSlotRuntime(pty).1);
  }

  lemma VariantFails(b: seq<byte>, p: nat, ty: TypeRepr, pty: TypeRepr)
    requires ty.Variant?() && p < |b| && SelectPayload(ty, b[p]) == Payload(pty)
    requires FieldAt(b, PayloadSlotOffset(p, pty), pty).Err?
    ensures TargetAt(b, p, ty).Err?
  {
    hide FieldAt, SelectPayload, PayloadSlotOffset;
  }

  lemma TagBehind(b: seq<byte>, o: Obj, d: nat)
    requires Behind(b, o, d) && o.parts != [] && o.parts[0].Raw? && o.parts[0].off == o.pos && |o.parts[0].data| == 1
    ensures o.pos + d < |b| && b[o.pos + d] == o.parts[0].data[0]
  {
    MovePartsAt(o.parts, d, d, Inner(o.ty, d), 0);
    EncPartAt(b, Move(o, d, d).parts, 0);
    assert b[o.pos + d] == b[o.pos + d..o.pos + d + 1][0];
  }

  lemma CountBehind(b: seq<byte>, o: Obj, d: nat, inner: nat)
    requires Enc(b, MoveParts(o.parts, d, inner, Inner(o.ty, inner)))
    requires o.parts != [] && o.parts[0].Raw? && o.parts[0].off == o.pos && |o.parts[0].data| == 4
    ensures o.pos + d + 4 <= |b| && U32At(b, o.pos + d) == LeVal(o.parts[0].data)
  {
    MovePartsAt(o.parts, d, inner, Inner(o.ty, inner), 0);
    EncPartAt(b, MoveParts(o.parts, d, inner, Inner(o.ty, inner)), 0);
    CountRead(b, MovePart(o.parts[0], d, inner, Inner(o.ty, inner)));
  }

  lemma {:induction false} ListUnreadable(b: seq<byte>, o: Obj, e: TypeRepr, d: nat, i: nat)
    requires Behind(b, o, d) && o.ty == TypeRepr.List(e) && i < |o.parts|
    requires !RebasablePart(o.parts[i], Descends(o.ty))
    ensures TargetAt(b, o.pos + d, o.ty).Err?
    decreases o, 2
  {
    hide LeVal, Le, Enc, Linked, Within, TargetAt, ElementAt, MoveParts, U32At, SlotPointer, FieldAt, Decode;
    CountBehind(b, o, d, d);
    assert !e.Scalar?() && 1 <= i;
    assert EntryShape(o, e, i);
    hide Shape, Rebasable, Foot, Sep;
    if Descends(o.ty) {
      SlotUnreadable(b, o, d, i, o.pos + 4 * i, e);
    } else {
      RowUnreadable(b, o, e, d, i);
    }
    assert o.pos + d + 4 + 4 * (i - 1) == o.pos + 4 * i + d;
    ListFails(b, o.pos + d, e, i - 1);
  }

  /** A row of a list nested three or more deep keeps its old entry pointers, which now lead
      into the filler. */
  lemma RowUnreadable(b: seq<byte>, o: Obj, e: TypeRepr, d: nat, i: nat)
    requires Behind(b, o, d) && o.ty == TypeRepr.List(e) && ScalarNest(e) && 1 <= i < |o.parts|
    requires EntryShape(o, e, i) && !RebasablePart(o.parts[i], false)
    ensures o.pos + 4 * i + d + 4 <= |b| && ElementAt(b, U32At(b, o.pos + 4 * i + d), e).Err?
  {
    hide LeVal, Le, Shape, Enc, Linked, Within, ElementAt, TargetAt, MoveParts, SlotPointer, U32At, Decode, Good,
      SlotShape, EntryShape;
    RowOf(o, e, i);
    PartBehind(b, o, d, i, o.pos + 4 * i, e);
    RowFails(b, o.parts[i].target, e, d);
  }

  /** A row that was moved but whose entries were not rebased leads into the filler. */
  lemma RowFails(b: seq<byte>, row: Obj, e: TypeRepr, d: nat)
    requires Shape(row) && row.ty == e && e.List? && ScalarNest(e) && !Leafy(row.parts)
    requires Linked(row.parts) && WithinObj(row, 0, d) && Enc(b, MoveParts(row.parts, d, 0, 0))
    requires d <= |b| <= U32_LIMIT && forall i :: 0 <= i < d ==> b[i] == 0xFF
    ensures ElementAt(b, row.pos + d, e).Err?
  {
    hide LeVal, Le, Shape, Enc, Linked, Within, ElementAt, TargetAt, MoveParts, U32At, EntryShape;
    FirstEntry(row, e);
    CountBehind(b, row, d, 0);
    StaleEntry(b, row, e.element, d);
    assert row.pos + d + 8 + 4 * 0 == row.pos + d + 8 && row.pos + d + 4 + 4 * 0 == row.pos + d + 4;
    ListFails(b, row.pos + d, e.element, 0);
    assert e == TypeRepr.List(e.element);
  }

  lemma RowOf(o: Obj, e: TypeRepr, i: nat)
    requires i < |o.parts| && EntryShape(o, e, i) && ScalarNest(e) && !RebasablePart(o.parts[i], false)
    requires o.ty == TypeRepr.List(e) && Good(o.ty)
    ensures o.parts[i].Ptr? && SlotShape(o.parts[i], o.pos + 4 * i, e)
    ensures var row := o.parts[i].target; row.ty == e && Shape(row) && !Leafy(row.parts)
    ensures Good(e) && e.List?
  {
  }

  /** A list record with a pointer among its parts has a first entry. */
  lemma FirstEntry(row: Obj, ty: TypeRepr)
    requires Shape(row) && row.ty == ty && ty.List? && ScalarNest(ty) && !Leafy(row.parts)
    ensures ty.element.List? && |row.parts| >= 2 && EntryShape(row, ty.element, 1)
    ensures row.parts[0].Raw? && row.parts[0].off == row.pos && |row.parts[0].data| == 4
    ensures |row.parts| == 1 + LeVal(row.parts[0].data)
  {
  }

  /** The first entry of a row that was moved but not rebased. */
  lemma StaleEntry(b: seq<byte>, row: Obj, e: TypeRepr, d: nat)
    requires |row.parts| >= 2 && EntryShape(row, e, 1) && e.List?
    requires Linked(row.parts) && WithinObj(row, 0, d) && Enc(b, MoveParts(row.parts, d, 0, 0))
    requires d <= |b| <= U32_LIMIT && forall i :: 0 <= i < d ==> b[i] == 0xFF
    ensures row.pos + d + 8 <= |b| && ElementAt(b, U32At(b, row.pos + d + 4), e).Err?
  {
    hide LeVal, Le, Enc, Linked, Within, ElementAt, ListAt, Shape;
    var y := row.parts[1];
    LinkedAt(row.parts, 0, d, 1);
    MovePartsAt(row.parts, d, 0, 0, 1);
    EncPartAt(b, MoveParts(row.parts, d, 0, 0), 1);
    PtrRead(b, MovePart(y, d, 0, 0));
    TargetHasCount(y.target, d);
    FillerUnreadable(b, y.target.pos, d, e.element);
    ListElementFails(b, y.target.pos, e);
  }

  lemma ListElementFails(b: seq<byte>, p: nat, e: TypeRepr)
    requires e.List? && ListAt(b, p, e.element).Err?
    ensures ElementAt(b, p, e).Err?
  {
    hide ListAt;
    assert ElementAt(b, p, e) == TargetAt(b, p, e);
  }

  lemma TargetHasCount(t: Obj, d: nat)
    requires Shape(t) && t.ty.List? && WithinObj(t, 0, d)
    ensures t.pos + 4 <= d
  {
    assert WithinPart(t.parts[0], 0, d);
  }

  // ----- exactly when relocation preserves meaning -----

  lemma {:induction false} MovedValsFit(ps: seq<Part>, hi: nat, d: nat, inner: nat)
    requires Linked(ps) && Within(ps, 0, hi) && hi + d < U32_LIMIT && inner <= d
    ensures ValsFit(MoveParts(ps, 0, d, inner))
    decreases ps
  {
    if ps != [] {
      assert MoveParts(ps, 0, d, inner)[1..] == MoveParts(ps[1..], 0, d, inner);
      MovedValFits(ps[0], hi, d, inner);
      MovedValsFit(ps[1..], hi, d, inner);
    }
  }

  lemma {:induction false} MovedValFits(x: Part, hi: nat, d: nat, inner: nat)
    requires LinkedPart(x) && WithinPart(x, 0, hi) && hi + d < U32_LIMIT && inner <= d
    ensures ValFits(MovePart(x, 0, d, inner))
    decreases x
  {
    if x.Ptr? {
      var t := x.target;
      MovedValsFit(t.parts, hi, inner, Inner(t.ty, inner));
    }
  }

  /** Relocation never fails when the relocated buffer ends below the `u32` limit. */
  lemma RelocationSucceeds(c: seq<byte>, o: Obj, d: nat)
    requires Owns(c, o) && d + |c| < U32_LIMIT
    ensures RelocTarget(c, o.pos, o.ty, d, false).Some?
  {
    hide RelocTarget, TypeGraphAlign, Shape, Decode;
    TargetRebased(c, o, d);
    MovedValsFit(o.parts, |c|, d, Inner(o.ty, d));
  }

  function Filler(d: nat): (r: seq<byte>)
    ensures |r| == d && forall i :: 0 <= i < d ==> r[i] == 0xFF
  {
    seq(d, _ => 0xFF)
  }

  lemma FillerBreaks(c: seq<byte>, o: Obj, d: nat)
    requires Owns(c, o) && Aligned(d, 8) && |c| <= d && d + |c| < U32_LIMIT && !RebasableObj(o)
    requires RelocTarget(c, o.pos, o.ty, d, false).Some?
    ensures TargetAt(Filler(d) + RelocTarget(c, o.pos, o.ty, d, false).value, o.pos + d, o.ty).Err?
  {
    hide RelocTarget, TypeGraphAlign, Shape, Enc, Linked, Within, MoveParts, Rebasable;
    var c' := RelocTarget(c, o.pos, o.ty, d, false).value;
    TargetRebased(c, o, d);
    EncMove(Filler(d), c', o.parts, d, Inner(o.ty, d));
    WithinWider(o.parts, 0, |c|, 0, d);
    Unreadable(Filler(d) + c', o, d);
  }

  /** The exact condition: for a base past the end of the buffer, relocation preserves the value
      behind every possible prefix if and only if it leaves no pointer out. */
  lemma RelocationExact(c: seq<byte>, o: Obj, d: nat)
    requires Owns(c, o) && Decode(o).Ok?
    requires Aligned(d, 8) && |c| <= d && d + |c| < U32_LIMIT
    ensures var r := RelocTarget(c, o.pos, o.ty, d, false);
      && r.Some?
      && (RebasableObj(o) <==>
            forall prefix: seq<byte> | |prefix| == d ::
              TargetAt(prefix + r.value, d + o.pos, o.ty) == TargetAt(c, o.pos, o.ty))
  {
    hide RelocTarget, Shape, Decode, TargetAt, MoveParts, Rebasable;
    RelocationSucceeds(c, o, d);
    var c' := RelocTarget(c, o.pos, o.ty, d, false).value;
    AlignDivides(TypeGraphAlign(o.ty), 8, d);
    if RebasableObj(o) {
      forall prefix: seq<byte> | |prefix| == d
        ensures TargetAt(prefix + c', d + o.pos, o.ty) == TargetAt(c, o.pos, o.ty)
      {
        RelocationPreservesMeaning(prefix, c, o);
      }
    } else {
      FillerBreaks(c, o, d);
      TargetReads(c, o);
      assert |Filler(d)| == d;
    }
  }
}
