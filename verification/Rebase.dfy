/** What relocation does to a buffer that holds an object: every pointer it visits gains the base
    exactly once, and nothing else changes. */
module Rebase {
  import opened Bytes
  import opened Wrappers
  import opened Schemas
  import opened Layout
  import opened LayoutFacts
  import opened Graph
  import opened GraphFacts
  import opened Moving
  import opened Relocation

  /** The slots of the pointer parts, in order. */
  function SlotsOf(ps: seq<Part>): seq<Slot> {
    if ps == [] then []
    else if ps[0].Ptr? then [Slot(ps[0].off, ps[0].target.ty)] + SlotsOf(ps[1..])
    else SlotsOf(ps[1..])
  }

  /** Every record behind a pointer part is well-formed. */
  ghost predicate Targets(ps: seq<Part>) {
    forall i :: 0 <= i < |ps| ==> TargetOk(ps[i])
  }

  ghost predicate TargetOk(x: Part) {
    x.Ptr? ==> Shape(x.target) && Good(x.target.ty)
  }

  lemma SlotTarget(x: Part, off: nat, ty: TypeRepr)
    requires SlotShape(x, off, ty) && Good(ty)
    ensures TargetOk(x)
  {
  }

  lemma TargetsOfShape(o: Obj)
    requires Shape(o) && Good(o.ty)
    ensures Targets(o.parts)
  {
    forall i | 0 <= i < |o.parts|
      ensures TargetOk(o.parts[i])
    {
      PartOfShape(o, i);
    }
  }

  lemma PartOfShape(o: Obj, i: nat)
    requires Shape(o) && Good(o.ty) && i < |o.parts|
    ensures TargetOk(o.parts[i])
  {
    match o.ty
    case String =>
    case List(e) =>
      if !e.Scalar?() && i > 0 {
        assert EntryShape(o, e, i);
        SlotTarget(o.parts[i], o.pos + 4 * i, e);
      }
    case Schema(s) =>
      var t := OffsetsFor(s.fields).value;
      assert FieldShape(o, s.fields, t, i);
      GoodField(s.fields, i);
      SlotTarget(o.parts[i], o.pos + t.fields[i].offset, s.fields[i].ty);
    case Option(_) => PayloadOfShape(o, i);
    case Result(_, _) => PayloadOfShape(o, i);
    case Enum(_, _) => PayloadOfShape(o, i);
  }

  lemma PayloadOfShape(o: Obj, i: nat)
    requires VariantShape(o) && Good(o.ty) && i < |o.parts|
    ensures TargetOk(o.parts[i])
  {
    if i == 1 {
      var tag := o.parts[0].data[0];
      var pty := SelectPayload(o.ty, tag).ty;
      GoodPayload(o.ty, tag);
      SlotTarget(o.parts[1], PayloadSlotOffset(o.pos, pty), pty);
    }
  }

  // ----- the slots the walk lists are the pointer parts -----

  lemma {:induction false} EntrySlotsOf(ps: seq<Part>, off: nat, e: TypeRepr)
    requires e.Pointer?() && forall i :: 0 <= i < |ps| ==> SlotShape(ps[i], off + 4 * i, e)
    ensures EntrySlots(off, |ps|, e) == SlotsOf(ps)
    decreases |ps|
  {
    if ps != [] {
      assert SlotShape(ps[0], off, e);
      TailShapes(ps, off, e);
      EntrySlotsOf(ps[1..], off + 4, e);
    }
  }

  lemma {:induction false} FieldSlotsOf(o: Obj, s: SchemaRepr, t: OffsetTable, k: nat)
    requires Shape(o) && o.ty == TypeRepr.Schema(s) && OffsetsFor(s.fields) == Some(t) && k <= |o.parts| == |s.fields|
    ensures PointerSlots(o.pos, t.fields[k..], s.fields[k..]) == SlotsOf(o.parts[k..])
    decreases |o.parts| - k
  {
    hide OffsetsFor;
    if k < |o.parts| {
      assert FieldShape(o, s.fields, t, k);
      assert SlotShape(o.parts[k], o.pos + t.fields[k].offset, s.fields[k].ty);
      assert t.fields[k..][1..] == t.fields[k + 1..] && s.fields[k..][1..] == s.fields[k + 1..];
      assert o.parts[k..][1..] == o.parts[k + 1..];
      FieldSlotsOf(o, s, t, k + 1);
    }
  }

  lemma SlotListOf(b: seq<byte>, o: Obj)
    requires Shape(o) && Enc(b, o.parts) && Good(o.ty)
    ensures SlotList(b, o.pos, o.ty) == Some(SlotsOf(o.parts))
  {
    var ps := o.parts;
    match o.ty
    case String => LeafySlots(ps);
    case List(e) => ListSlotsOf(b, o, e);
    case Schema(s) =>
      var t := OffsetsFor(s.fields).value;
      assert t.fields[0..] == t.fields && s.fields[0..] == s.fields && ps[0..] == ps;
      FieldSlotsOf(o, s, t, 0);
    case Option(_) => VariantSlotOf(b, o);
    case Result(_, _) => VariantSlotOf(b, o);
    case Enum(_, _) => VariantSlotOf(b, o);
  }

  lemma {:induction false} LeafySlots(ps: seq<Part>)
    requires Leafy(ps)
    ensures SlotsOf(ps) == []
    decreases |ps|
  {
    if ps != [] { LeafySlots(ps[1..]); }
  }

  lemma ListSlotsOf(b: seq<byte>, o: Obj, e: TypeRepr)
    requires Shape(o) && Enc(b, o.parts) && o.ty == TypeRepr.List(e)
    ensures SlotList(b, o.pos, o.ty) == Some(SlotsOf(o.parts))
  {
    assert EncPart(b, o.parts[0]);
    CountRead(b, o.parts[0]);
    if e.Scalar?() {
      LeafySlots(o.parts);
    } else {
      EntryShapes(o, e);
      EntrySlotsOf(o.parts[1..], o.pos + 4, e);
    }
  }

  lemma VariantSlotOf(b: seq<byte>, o: Obj)
    requires VariantShape(o) && o.ty.Variant?() && Enc(b, o.parts)
    ensures SlotList(b, o.pos, o.ty) == Some(SlotsOf(o.parts))
  {
    var ps := o.parts;
    assert EncPart(b, ps[0]);
    assert b[o.pos] == b[o.pos..o.pos + 1][0];
    var sel := SelectPayload(o.ty, b[o.pos]);
    if sel.Payload? {
      assert SlotShape(ps[1], PayloadSlotOffset(o.pos, sel.ty), sel.ty);
      if sel.ty.Inline?() {
        LeafySlots(ps);
      } else {
        assert ps[1..] == [ps[1]] && ps[1..][1..] == [];
        assert SlotsOf(ps) == SlotsOf(ps[1..]);
        assert SlotsOf(ps[1..]) == [Slot(ps[1].off, sel.ty)] + SlotsOf(ps[1..][1..]);
        assert SlotsOf(ps[1..][1..]) == [];
        assert SlotsOf(ps) == [Slot(PayloadSlotOffset(o.pos, sel.ty), sel.ty)];
      }
    } else {
      LeafySlots(ps);
    }
  }

  // ----- which bytes change -----

  /** The bytes of the pointer slots relocation visits, here and behind. */
  ghost function PtrCells(ps: seq<Part>, descends: bool): set<int>
    decreases ps
  {
    if ps == [] then {} else PtrCellsPart(ps[0], descends) + PtrCells(ps[1..], descends)
  }

  ghost function PtrCellsPart(x: Part, descends: bool): set<int>
    decreases x
  {
    if x.Raw? then {}
    else Cells(x.off, 4) + if descends then PtrCells(x.target.parts, Descends(x.target.ty)) else {}
  }

  lemma {:induction false} PtrCellsInFoot(ps: seq<Part>, descends: bool)
    ensures PtrCells(ps, descends) <= Foot(ps)
    decreases ps
  {
    if ps != [] {
      PtrCellsPartInFoot(ps[0], descends);
      PtrCellsInFoot(ps[1..], descends);
    }
  }

  lemma {:induction false} PtrCellsPartInFoot(x: Part, descends: bool)
    ensures PtrCellsPart(x, descends) <= FootPart(x)
    decreases x
  {
    if x.Ptr? { PtrCellsInFoot(x.target.parts, Descends(x.target.ty)); }
  }

  ghost predicate SameOutside(cells: set<int>, b1: seq<byte>, b2: seq<byte>) {
    |b1| == |b2| && forall i :: 0 <= i < |b1| && i !in cells ==> b1[i] == b2[i]
  }

  /** All pointers fit a `u32`. */
  predicate ValsFit(ps: seq<Part>)
    decreases ps
  {
    ps != [] ==> ValFits(ps[0]) && ValsFit(ps[1..])
  }

  predicate ValFits(x: Part)
    decreases x
  {
    x.Ptr? ==> x.val < U32_LIMIT && ValsFit(x.target.parts)
  }

  lemma {:induction false} EncValsFit(b: seq<byte>, ps: seq<Part>)
    requires Enc(b, ps)
    ensures ValsFit(ps)
    decreases ps
  {
    if ps != [] {
      EncValFits(b, ps[0]);
      EncValsFit(b, ps[1..]);
    }
  }

  lemma {:induction false} EncValFits(b: seq<byte>, x: Part)
    requires EncPart(b, x)
    ensures ValFits(x)
    decreases x
  {
    if x.Ptr? { EncValsFit(b, x.target.parts); }
  }

  lemma {:induction false} MoveNothing(ps: seq<Part>)
    ensures MoveParts(ps, 0, 0, 0) == ps
    decreases ps
  {
    if ps != [] {
      MoveNoPart(ps[0]);
      MoveNothing(ps[1..]);
    }
  }

  lemma {:induction false} MoveNoPart(x: Part)
    ensures MovePart(x, 0, 0, 0) == x
    decreases x
  {
    if x.Ptr? { MoveNothing(x.target.parts); }
  }

  // ----- relocation of an encoded object -----

  function InnerBase(descends: bool, d: nat): nat {
    if descends then d else 0
  }

  /** Relocating one pointer part. */
  lemma {:induction false} PartRebased(b: seq<byte>, x: Part, d: nat, descends: bool)
    requires x.Ptr? && EncPart(b, x) && LinkedPart(x) && SepPart(x) && TargetOk(x)
    ensures var r := RelocSlot1(b, Slot(x.off, x.target.ty), d, false, descends);
      var y := MovePart(x, 0, d, InnerBase(descends, d));
      && (r.Some? <==> ValFits(y))
      && (r.Some? ==> EncPart(r.value, y) && SameOutside(PtrCellsPart(x, descends), b, r.value))
    decreases x
  {
    hide LeVal, Le, PutU32, Bump, RelocTarget, Shape, Good, Foot;
    BumpPart(b, x, d);
    if x.val + d < U32_LIMIT {
      var b1 := Bump(b, x.off, d).value.0;
      if descends {
        TargetRebased(b1, x.target, d);
        PtrCellsInFoot(x.target.parts, Descends(x.target.ty));
        var r := RelocTarget(b1, x.val, x.target.ty, d, false);
        if r.Some? {
          SliceFrame(b1, r.value, x.off, 4);
        }
      } else {
        MoveNothing(x.target.parts);
        EncValsFit(b, x.target.parts);
      }
    }
  }

  /** Bumping the slot of a pointer part leaves the record behind it intact. */
  lemma BumpPart(b: seq<byte>, x: Part, d: nat)
    requires x.Ptr? && EncPart(b, x) && SepPart(x)
    ensures var r := Bump(b, x.off, d);
      && (r.Some? <==> x.val + d < U32_LIMIT)
      && (r.Some? ==>
            && r.value.1 == x.val
            && r.value.0[x.off..x.off + 4] == Le(x.val + d, 4)
            && Enc(r.value.0, x.target.parts)
            && SameOutside(Cells(x.off, 4), b, r.value.0))
  {
    hide LeVal, Le, PutU32;
    PtrRead(b, x);
    if x.val + d < U32_LIMIT {
      BumpEffect(b, x.off, d);
      EncOutside(b, Bump(b, x.off, d).value.0, Cells(x.off, 4), x.target.parts);
    }
  }

  lemma BumpEffect(b: seq<byte>, at: nat, d: nat)
    requires at + 4 <= |b| && U32At(b, at) + d < U32_LIMIT
    ensures var r := Bump(b, at, d);
      && r.Some?
      && r.value.0[at..at + 4] == Le(U32At(b, at) + d, 4)
      && SameOutside(Cells(at, 4), b, r.value.0)
  {
  }

  /** Changes outside the footprint leave an encoded object alone. */
  lemma EncOutside(b1: seq<byte>, b2: seq<byte>, cells: set<int>, ps: seq<Part>)
    requires Enc(b1, ps) && SameOutside(cells, b1, b2) && cells !! Foot(ps)
    ensures Enc(b2, ps)
  {
    EncFrame(b1, b2, ps);
  }

  /** Relocating a whole record and everything behind it. */
  lemma {:induction false} TargetRebased(b: seq<byte>, o: Obj, d: nat)
    requires Enc(b, o.parts) && Linked(o.parts) && Sep(o.parts) && Shape(o) && Good(o.ty)
    ensures var r := RelocTarget(b, o.pos, o.ty, d, false);
      var q := Move(o, 0, d);
      && (r.Some? <==> ValsFit(q.parts))
      && (r.Some? ==> Enc(r.value, q.parts) && SameOutside(PtrCells(o.parts, Descends(o.ty)), b, r.value))
    decreases o
  {
    SlotListOf(b, o);
    TargetsOfShape(o);
    PartsRebased(b, o.parts, d, Descends(o.ty));
    assert RelocTarget(b, o.pos, o.ty, d, false) == RelocSlots(b, SlotsOf(o.parts), d, false, Descends(o.ty));
  }

  /** Relocating all parts in order: each is moved while the others stay as they are. */
  lemma {:induction false} PartsRebased(b: seq<byte>, ps: seq<Part>, d: nat, descends: bool)
    requires Enc(b, ps) && Linked(ps) && Sep(ps) && Targets(ps)
    ensures var r := RelocSlots(b, SlotsOf(ps), d, false, descends);
      var qs := MoveParts(ps, 0, d, InnerBase(descends, d));
      && (r.Some? <==> ValsFit(qs))
      && (r.Some? ==> Enc(r.value, qs) && SameOutside(PtrCells(ps, descends), b, r.value))
    decreases ps
  {
    hide RelocSlot1, LeVal, Le, LinkedPart, SepPart, FootPart, PtrCellsPart;
    if ps != [] {
      var x, rest, inner := ps[0], ps[1..], InnerBase(descends, d);
      var y := MovePart(x, 0, d, inner);
      var qs := MoveParts(ps, 0, d, inner);
      assert qs[0] == y && qs[1..] == MoveParts(rest, 0, d, inner);
      assert forall i :: 0 <= i < |rest| ==> rest[i] == ps[i + 1];
      PtrCellsPartInFoot(x, descends);
      PtrCellsInFoot(rest, descends);
      var b1 := b;
      if x.Ptr? {
        PartRebased(b, x, d, descends);
        var r1 := RelocSlot1(b, Slot(x.off, x.target.ty), d, false, descends);
        if r1.None? { return; }
        b1 := r1.value;
        EncFrame(b, b1, rest);
      }
      PartsRebased(b1, rest, d, descends);
      var r := RelocSlots(b1, SlotsOf(rest), d, false, descends);
      if r.Some? {
        forall i | i in FootPart(y)
          ensures i in FootPart(x)
        {
          FootPartMove(x, 0, d, inner, i);
        }
        EncPartFrame(b1, r.value, y);
      }
    }
  }

  // ----- exactly once -----

  /** The offsets of the pointer slots relocation visits. */
  ghost function Visited(ps: seq<Part>, descends: bool): set<int>
    decreases ps
  {
    if ps == [] then {} else VisitedPart(ps[0], descends) + Visited(ps[1..], descends)
  }

  ghost function VisitedPart(x: Part, descends: bool): set<int>
    decreases x
  {
    if x.Raw? then {}
    else {x.off} + if descends then Visited(x.target.parts, Descends(x.target.ty)) else {}
  }

  lemma {:induction false} VisitedCells(ps: seq<Part>, descends: bool, s: int)
    requires s in Visited(ps, descends)
    ensures s >= 0 && Cells(s, 4) <= PtrCells(ps, descends)
    decreases ps
  {
    if s in VisitedPart(ps[0], descends) {
      VisitedPartCells(ps[0], descends, s);
    } else {
      VisitedCells(ps[1..], descends, s);
    }
  }

  lemma {:induction false} VisitedPartCells(x: Part, descends: bool, s: int)
    requires s in VisitedPart(x, descends)
    ensures s >= 0 && Cells(s, 4) <= PtrCellsPart(x, descends)
    decreases x
  {
    if s != x.off { VisitedCells(x.target.parts, Descends(x.target.ty), s); }
  }

  lemma {:induction false} CellVisited(ps: seq<Part>, descends: bool, i: int)
    requires i in PtrCells(ps, descends)
    ensures exists s :: s in Visited(ps, descends) && s <= i < s + 4
    decreases ps
  {
    if i in PtrCellsPart(ps[0], descends) {
      CellPartVisited(ps[0], descends, i);
      var s :| s in VisitedPart(ps[0], descends) && s <= i < s + 4;
      assert s in Visited(ps, descends);
    } else {
      CellVisited(ps[1..], descends, i);
      var s :| s in Visited(ps[1..], descends) && s <= i < s + 4;
      assert s in Visited(ps, descends);
    }
  }

  lemma {:induction false} CellPartVisited(x: Part, descends: bool, i: int)
    requires i in PtrCellsPart(x, descends)
    ensures exists s :: s in VisitedPart(x, descends) && s <= i < s + 4
    decreases x
  {
    if x.off <= i < x.off + 4 {
      assert x.off in VisitedPart(x, descends);
    } else {
      CellVisited(x.target.parts, Descends(x.target.ty), i);
      var s :| s in Visited(x.target.parts, Descends(x.target.ty)) && s <= i < s + 4;
      assert s in VisitedPart(x, descends);
    }
  }

  /** Distinct visited slots share no byte. */
  lemma {:induction false} VisitedApart(ps: seq<Part>, descends: bool, s: int, r: int)
    requires Sep(ps) && s in Visited(ps, descends) && r in Visited(ps, descends) && s != r
    ensures s + 4 <= r || r + 4 <= s
    decreases ps
  {
    var x, rest := ps[0], ps[1..];
    PtrCellsPartInFoot(x, descends);
    PtrCellsInFoot(rest, descends);
    if s in VisitedPart(x, descends) && r in VisitedPart(x, descends) {
      VisitedPartApart(x, descends, s, r);
    } else if s in Visited(rest, descends) && r in Visited(rest, descends) {
      VisitedApart(rest, descends, s, r);
    } else {
      var p, q := if s in VisitedPart(x, descends) then s else r, if s in VisitedPart(x, descends) then r else s;
      VisitedPartCells(x, descends, p);
      VisitedCells(rest, descends, q);
      DisjointCells(p, q);
    }
  }

  lemma {:induction false} VisitedPartApart(x: Part, descends: bool, s: int, r: int)
    requires SepPart(x) && s in VisitedPart(x, descends) && r in VisitedPart(x, descends) && s != r
    ensures s + 4 <= r || r + 4 <= s
    decreases x
  {
    var t := x.target;
    if s == x.off || r == x.off {
      var q := if s == x.off then r else s;
      VisitedCells(t.parts, Descends(t.ty), q);
      PtrCellsInFoot(t.parts, Descends(t.ty));
      DisjointCells(x.off, q);
    } else {
      VisitedApart(t.parts, Descends(t.ty), s, r);
    }
  }

  lemma DisjointCells(p: int, q: int)
    requires p >= 0 && q >= 0 && Cells(p, 4) !! Cells(q, 4)
    ensures p + 4 <= q || q + 4 <= p
  {
    assert p in Cells(p, 4) && q in Cells(q, 4);
  }

  /** A visited slot gained the base. */
  lemma {:induction false} VisitedBumped(b: seq<byte>, b': seq<byte>, ps: seq<Part>, d: nat, descends: bool, s: int)
    requires Enc(b, ps) && Enc(b', MoveParts(ps, 0, d, InnerBase(descends, d))) && s in Visited(ps, descends)
    ensures 0 <= s && s + 4 <= |b| && s + 4 <= |b'| && U32At(b', s) == U32At(b, s) + d
    decreases ps
  {
    var qs := MoveParts(ps, 0, d, InnerBase(descends, d));
    assert qs[0] == MovePart(ps[0], 0, d, InnerBase(descends, d));
    assert qs[1..] == MoveParts(ps[1..], 0, d, InnerBase(descends, d));
    if s in VisitedPart(ps[0], descends) {
      VisitedPartBumped(b, b', ps[0], d, descends, s);
    } else {
      VisitedBumped(b, b', ps[1..], d, descends, s);
    }
  }

  lemma {:induction false} VisitedPartBumped(b: seq<byte>, b': seq<byte>, x: Part, d: nat, descends: bool, s: int)
    requires EncPart(b, x) && EncPart(b', MovePart(x, 0, d, InnerBase(descends, d))) && s in VisitedPart(x, descends)
    ensures 0 <= s && s + 4 <= |b| && s + 4 <= |b'| && U32At(b', s) == U32At(b, s) + d
    decreases x
  {
    hide LeVal, Le;
    if s == x.off {
      PtrRead(b, x);
      PtrRead(b', MovePart(x, 0, d, InnerBase(descends, d)));
    } else {
      VisitedBumped(b, b', x.target.parts, d, Descends(x.target.ty), s);
    }
  }

  /** The slots share no byte, and `r`, if there is one, is `b` with `d` added once to each of them and
      every other byte unchanged. */
  ghost predicate RebasedOnce(b: seq<byte>, r: Option<seq<byte>>, slots: set<int>, d: nat) {
    && (forall s, t :: s in slots && t in slots && s != t ==> s + 4 <= t || t + 4 <= s)
    && (r.Some? ==>
          && |r.value| == |b|
          && (forall s :: s in slots ==> 0 <= s && s + 4 <= |b| && U32At(r.value, s) == U32At(b, s) + d)
          && (forall i :: 0 <= i < |b| && (forall s :: s in slots ==> !(s <= i < s + 4)) ==> r.value[i] == b[i]))
  }

  /** Exactly-once rebase of the visited slots; relocation fails only if some relocated pointer exceeds `u32`. */
  lemma ExactlyOnce(b: seq<byte>, o: Obj, d: nat)
    requires Enc(b, o.parts) && Linked(o.parts) && Sep(o.parts) && Shape(o) && Good(o.ty)
    ensures var r := RelocTarget(b, o.pos, o.ty, d, false);
      && (r.None? <==> !ValsFit(Move(o, 0, d).parts))
      && RebasedOnce(b, r, Visited(o.parts, Descends(o.ty)), d)
  {
    hide LeVal, Le, RelocTarget, MoveParts, Shape, Sep, Enc;
    var r := RelocTarget(b, o.pos, o.ty, d, false);
    var ps, descends := o.parts, Descends(o.ty);
    TargetRebased(b, o, d);
    forall s, t | s in Visited(ps, descends) && t in Visited(ps, descends) && s != t
      ensures s + 4 <= t || t + 4 <= s
    {
      VisitedApart(ps, descends, s, t);
    }
    if r.Some? {
      forall s | s in Visited(ps, descends)
        ensures 0 <= s && s + 4 <= |b| && U32At(r.value, s) == U32At(b, s) + d
      {
        VisitedBumped(b, r.value, ps, d, descends, s);
      }
      forall i | 0 <= i < |b| && forall s :: s in Visited(ps, descends) ==> !(s <= i < s + 4)
        ensures r.value[i] == b[i]
      {
        if i in PtrCells(ps, descends) {
          CellVisited(ps, descends, i);
        }
      }
    }
  }
}
