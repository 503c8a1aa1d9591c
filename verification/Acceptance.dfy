/** Which encoded objects the verifier accepts: exactly those whose own records stay under its depth limit. */
module Acceptance {
  import opened Bytes
  import opened Wrappers
  import opened Schemas
  import opened Layout
  import opened LayoutFacts
  import opened Reader
  import opened Verifier
  import opened VerifierFacts
  import opened Graph
  import opened GraphFacts

  // ----- how deep an object reaches -----

  /** Levels of the verifier's depth a record of the type uses itself. */
  function OwnLevels(ty: TypeRepr): nat {
    if ty.Schema? then 2 else if ty.Variant?() then 1 else 0
  }

  /** Levels the object uses with the records behind its pointers; strings and lists of scalars use none. */
  function Levels(o: Obj): nat
    decreases o
  {
    Max(OwnLevels(o.ty), PartsLevels(o.parts))
  }

  function PartsLevels(ps: seq<Part>): nat
    decreases ps
  {
    if ps == [] then 0 else Max(PartLevels(ps[0]), PartsLevels(ps[1..]))
  }

  function PartLevels(x: Part): nat
    decreases x
  {
    if x.Raw? || Levels(x.target) == 0 then 0 else 1 + Levels(x.target)
  }

  /** The verifier follows 64 levels. */
  predicate Fits(levels: nat, depth: int) {
    levels == 0 || depth + levels <= 64
  }

  lemma {:induction false} PartsFit(ps: seq<Part>, depth: int)
    ensures Fits(PartsLevels(ps), depth) <==> forall i :: 0 <= i < |ps| ==> Fits(PartLevels(ps[i]), depth)
    decreases |ps|
  {
    hide PartLevels;
    if ps != [] {
      PartsFit(ps[1..], depth);
      assert forall i :: 0 < i < |ps| ==> ps[i] == ps[1..][i - 1];
    }
  }

  // ----- the verifier -----

  lemma {:induction false} TargetIff(b: seq<byte>, o: Obj, w: Region, depth: nat)
    requires Holds(b, o) && WithinObj(o, w.start, w.end) && w.end <= |b|
    ensures VerifyTarget(b, o.ty, ListKind(o.ty), o.pos, Single(w), depth) <==> Fits(Levels(o), depth)
    decreases Depth(o.ty), 3
  {
    hide LeVal, Enc, Linked, Within, VerifyList, VerifyVariant, VerifyRecordInner, ListKind, OffsetsFor, Good, Levels;
    match o.ty
    case String => StringAccepted(b, o, w, depth);
    case List(e) => ListIff(b, o, e, w, depth);
    case Schema(s) => RecordIff(b, o, s, w, depth + 1);
    case Option(_) => VariantIff(b, o, w, depth);
    case Result(_, _) => VariantIff(b, o, w, depth);
    case Enum(_, _) => VariantIff(b, o, w, depth);
  }

  lemma StringAccepted(b: seq<byte>, o: Obj, w: Region, depth: nat)
    requires Holds(b, o) && o.ty.String? && WithinObj(o, w.start, w.end) && w.end <= |b|
    ensures VerifyTarget(b, o.ty, ListKind(o.ty), o.pos, Single(w), depth) && Levels(o) == 0
  {
    hide LeVal;
    assert Shape(o);
    PartAt(b, o.parts, w.start, w.end, 0);
    CountRead(b, o.parts[0]);
    RawLevels(o.parts);
  }

  lemma {:induction false} RawLevels(ps: seq<Part>)
    requires forall i :: 0 <= i < |ps| ==> ps[i].Raw?
    ensures PartsLevels(ps) == 0
    decreases |ps|
  {
    if ps != [] { RawLevels(ps[1..]); }
  }

  lemma {:induction false} SlotIff(b: seq<byte>, x: Part, off: nat, ty: TypeRepr, w: Region, depth: nat)
    requires HoldsSlot(b, x, off, ty) && WithinPart(x, w.start, w.end) && w.end <= |b|
    ensures FieldVerified(b, ty, off, Single(w), depth) <==> Fits(PartLevels(x), depth - 1)
    decreases Depth(ty), 4
  {
    hide LeVal, Le, Shape, Enc, Linked, Within, VerifyTarget, ListKind, Good, Levels;
    if x.Ptr? {
      PtrRead(b, x);
      TargetIff(b, x.target, w, depth);
    }
  }

  lemma {:induction false} ListIff(b: seq<byte>, o: Obj, e: TypeRepr, w: Region, depth: nat)
    requires Holds(b, o) && o.ty == TypeRepr.List(e) && WithinObj(o, w.start, w.end) && w.end <= |b|
    ensures VerifyList(b, e, ListKind(o.ty), o.pos, Single(w), depth) <==> Fits(Levels(o), depth)
    decreases Depth(e), 9
  {
    assert Shape(o);
    hide LeVal, Shape, ListKind, VerifyEntries, EntryShape, SlotShape, Good, PartsLevels, Enc, Linked, Within;
    ListKindOf(e);
    CountVerified(b, o, w);
    if e.Scalar?() {
      PartAt(b, o.parts, w.start, w.end, 1);
      RawLevels(o.parts);
      assert Times(LeVal(o.parts[0].data), ElemSize(e)) == |o.parts[1].data|;
    } else {
      EntryShapes(o, e);
      ElementGood(e);
      RestHeld(b, o, w);
      EntriesIff(b, o.parts[1..], o.pos + 4, e, w, depth);
    }
  }

  /** The entries behind the count. */
  lemma RestHeld(b: seq<byte>, o: Obj, w: Region)
    requires Linked(o.parts) && Enc(b, o.parts) && Within(o.parts, 0, |b|) && Within(o.parts, w.start, w.end)
    requires o.parts != [] && o.parts[0].Raw?
    ensures var ps := o.parts[1..]; Linked(ps) && Enc(b, ps) && Within(ps, 0, |b|) && Within(ps, w.start, w.end)
    ensures PartsLevels(o.parts) == PartsLevels(o.parts[1..])
  {
  }

  lemma CountVerified(b: seq<byte>, o: Obj, w: Region)
    requires Holds(b, o) && o.ty.List? && WithinObj(o, w.start, w.end) && w.end <= |b|
    ensures o.parts[0].Raw? && VerifiedU32(b, o.pos, Single(w)) == Some(LeVal(o.parts[0].data))
  {
    hide LeVal;
    assert Shape(o);
    PartAt(b, o.parts, w.start, w.end, 0);
    CountRead(b, o.parts[0]);
  }

  lemma {:induction false} EntriesIff(b: seq<byte>, ps: seq<Part>, off: nat, e: TypeRepr, w: Region, depth: nat)
    requires e.Pointer?() && Good(e) && w.end <= |b|
    requires forall i :: 0 <= i < |ps| ==> SlotShape(ps[i], off + 4 * i, e)
    requires Linked(ps) && Enc(b, ps) && Within(ps, 0, |b|) && Within(ps, w.start, w.end)
    ensures VerifyEntries(b, e, off, |ps|, Single(w), depth) <==> Fits(PartsLevels(ps), depth)
    decreases Depth(e), 8, |ps|
  {
    hide LeVal, Le, VerifyTarget, ListKind, LinkedPart, EncPart, WithinPart, Good, Levels, SlotShape, PartLevels;
    if ps != [] {
      assert SlotShape(ps[0], off, e);
      EntryIff(b, ps[0], off, e, w, depth);
      TailShapes(ps, off, e);
      EntriesIff(b, ps[1..], off + 4, e, w, depth);
    }
  }

  lemma {:induction false} EntryIff(b: seq<byte>, x: Part, off: nat, e: TypeRepr, w: Region, depth: nat)
    requires e.Pointer?() && Good(e) && w.end <= |b| && SlotShape(x, off, e)
    requires LinkedPart(x) && EncPart(b, x) && WithinPart(x, 0, |b|) && WithinPart(x, w.start, w.end)
    ensures var p := VerifiedU32(b, off, Single(w));
      && p.Some?
      && (VerifyTarget(b, e, ListKind(e), p.value, Single(w), depth + 1) <==> Fits(PartLevels(x), depth))
    decreases Depth(e), 7
  {
    hide LeVal, Le, Shape, VerifyTarget, ListKind, Good, Levels;
    PtrRead(b, x);
    TargetIff(b, x.target, w, depth + 1);
  }

  /** A record entered at `depth`. */
  lemma {:induction false} RecordIff(b: seq<byte>, o: Obj, s: SchemaRepr, w: Region, depth: nat)
    requires Holds(b, o) && o.ty == TypeRepr.Schema(s) && WithinObj(o, w.start, w.end) && w.end <= |b|
    ensures OffsetsFor(s.fields).Some?
    ensures VerifyRecordInner(b, s.fields, OffsetsFor(s.fields).value, o.pos, Single(w), depth) <==>
      Fits(Levels(o), depth - 1)
    decreases Depth(o.ty), 2
  {
    assert Shape(o);
    hide Shape, OffsetsFor, Enc, Linked, Within, SlotVerified, VerifySlots, PartLevels, PartsLevels, Good;
    var t := OffsetsFor(s.fields).value;
    forall k | 0 <= k < |s.fields|
      ensures SlotVerified(b, s.fields, t.fields[k], o.pos, Single(w), depth) <==>
        Fits(PartLevels(o.parts[k]), depth - 1)
    {
      FieldIff(b, o, s, k, w, depth);
    }
    VerifySlotsIff(b, s.fields, t.fields, o.pos, Single(w), depth);
    PartsFit(o.parts, depth - 1);
  }

  lemma {:induction false} FieldIff(b: seq<byte>, o: Obj, s: SchemaRepr, k: nat, w: Region, depth: nat)
    requires Holds(b, o) && o.ty == TypeRepr.Schema(s) && WithinObj(o, w.start, w.end) && w.end <= |b|
    requires k < |s.fields| == |o.parts|
    ensures OffsetsFor(s.fields).Some?
    ensures SlotVerified(b, s.fields, OffsetsFor(s.fields).value.fields[k], o.pos, Single(w), depth) <==>
      Fits(PartLevels(o.parts[k]), depth - 1)
    decreases Depth(o.ty), 0
  {
    hide OffsetsFor, Shape, Enc, Linked, Within, VerifyTarget, PartLevels, LeVal, ListKind, Good, DistinctNames;
    HeldLayout(b, o, s);
    var t := OffsetsFor(s.fields).value;
    SlotFacts(s.fields, t, k);
    FieldHeld(b, o, s, k);
    FieldDepth(s.fields, k);
    PartAt(b, o.parts, w.start, w.end, k);
    SlotIff(b, o.parts[k], o.pos + t.fields[k].offset, s.fields[k].ty, w, depth);
  }

  /** The tag of a variant, and its payload slot if it has one. */
  lemma VariantHeld(b: seq<byte>, o: Obj, w: Region)
    requires Holds(b, o) && o.ty.Variant?() && WithinObj(o, w.start, w.end) && w.end <= |b|
    ensures o.parts != [] && o.parts[0].Raw? && |o.parts[0].data| == 1
    ensures o.pos < |b| && b[o.pos] == o.parts[0].data[0] && Single(w).AllowsSpan(o.pos, 1)
    ensures match SelectPayload(o.ty, b[o.pos])
      case BadTag => false
      case NoPayload => |o.parts| == 1
      case Payload(pty) =>
        && |o.parts| == 2 && HoldsSlot(b, o.parts[1], PayloadSlotOffset(o.pos, pty), pty)
        && WithinPart(o.parts[1], w.start, w.end)
  {
    assert VariantShape(o);
    hide LeVal, Le, Shape, SlotShape, PayloadSlotOffset, Good, SelectPayload, Enc, Linked, Within;
    var tag := o.parts[0].data[0];
    PartAt(b, o.parts, w.start, w.end, 0);
    assert b[o.pos] == b[o.pos..o.pos + 1][0];
    if SelectPayload(o.ty, tag).Payload? {
      GoodPayload(o.ty, tag);
      PartAt(b, o.parts, 0, |b|, 1);
      PartAt(b, o.parts, w.start, w.end, 1);
    }
  }

  lemma {:induction false} VariantIff(b: seq<byte>, o: Obj, w: Region, depth: nat)
    requires Holds(b, o) && o.ty.Variant?() && WithinObj(o, w.start, w.end) && w.end <= |b|
    ensures VerifyVariant(b, o.ty, o.pos, Single(w), depth) <==> Fits(Levels(o), depth)
    decreases Depth(o.ty), 2
  {
    hide VerifyVariant, FieldVerified, PayloadSlotOffset, Holds, HoldsSlot, SelectPayload, PartsLevels, PartLevels;
    VariantSplit(b, o.ty, o.pos, Single(w), depth);
    VariantHeld(b, o, w);
    var sel := SelectPayload(o.ty, b[o.pos]);
    if sel.Payload? {
      SlotIff(b, o.parts[1], PayloadSlotOffset(o.pos, sel.ty), sel.ty, w, depth + 1);
      PayloadFits(o, depth);
    } else {
      RawLevels(o.parts);
    }
  }

  lemma PayloadFits(o: Obj, depth: nat)
    requires o.ty.Variant?() && |o.parts| == 2 && o.parts[0].Raw?
    ensures Fits(Levels(o), depth) <==> depth < MAX_DEPTH && Fits(PartLevels(o.parts[1]), depth)
  {
    PartsFit(o.parts, depth);
  }

  // ----- any bounds around the object -----

  lemma WholeWider(b: seq<byte>, bounds: Bounds)
    requires Covers(b, bounds)
    ensures Wider(bounds, Single(Region(0, |b|)))
  {
    forall off: nat, len: nat | bounds.AllowsSpan(off, len)
      ensures Single(Region(0, |b|)).AllowsSpan(off, len)
    {
      AllowedInRange(b, bounds, off, len);
    }
  }

  /** Under any bounds that allow what a window around the object allows, an encoded object is accepted if
      and only if the depth its own records reach stays under the limit. */
  lemma AcceptedIff(b: seq<byte>, o: Obj, w: Region, bounds: Bounds, depth: nat)
    requires Holds(b, o) && WithinObj(o, w.start, w.end) && w.end <= |b|
    requires Covers(b, bounds) && Wider(Single(w), bounds)
    ensures VerifyTarget(b, o.ty, ListKind(o.ty), o.pos, bounds, depth) <==> Fits(Levels(o), depth)
  {
    hide VerifyTarget, Levels, ListKind, Shape, Enc, Linked, Wider, ElementAt, TargetAt;
    var whole := Region(0, |b|);
    TargetIff(b, o, w, depth);
    TargetIff(b, o, whole, depth);
    if Fits(Levels(o), depth) {
      ValidPair(b, b, Single(w), bounds);
      TargetCertified(Pair(b, Single(w), b, bounds), o.ty, o.pos, depth);
    } else if VerifyTarget(b, o.ty, ListKind(o.ty), o.pos, bounds, depth) {
      WholeWider(b, bounds);
      ValidPair(b, b, bounds, Single(whole));
      TargetCertified(Pair(b, bounds, b, Single(whole)), o.ty, o.pos, depth);
    }
  }

  /** The same for the entry point of a record. */
  lemma RecordAcceptedIff(b: seq<byte>, o: Obj, s: SchemaRepr, w: Region, bounds: Bounds)
    requires Holds(b, o) && o.ty == TypeRepr.Schema(s) && WithinObj(o, w.start, w.end) && w.end <= |b|
    requires Covers(b, bounds) && Wider(Single(w), bounds)
    ensures OffsetsFor(s.fields).Some?
    ensures VerifyRecord(b, s.fields, OffsetsFor(s.fields).value, o.pos, bounds) <==> Levels(o) <= 65
  {
    hide VerifyRecordInner, Shape, Enc, Linked, Wider, OffsetsFor, Levels, RecordAt;
    var whole := Region(0, |b|);
    RecordIff(b, o, s, w, 0);
    RecordIff(b, o, s, whole, 0);
    if Levels(o) <= 65 {
      ValidPair(b, b, Single(w), bounds);
      RecordCertified(Pair(b, Single(w), b, bounds), s, o.pos, 0);
    } else if VerifyRecord(b, s.fields, OffsetsFor(s.fields).value, o.pos, bounds) {
      WholeWider(b, bounds);
      ValidPair(b, b, bounds, Single(whole));
      RecordCertified(Pair(b, bounds, b, Single(whole)), s, o.pos, 0);
    }
  }

  // ----- by type -----

  /** An object reaches no deeper than its type nests. */
  lemma {:induction false} LevelsByType(o: Obj)
    requires Shape(o)
    ensures Levels(o) <= Depth(o.ty) + 1
    decreases o, 2
  {
    hide Shape, Levels;
    forall i | 0 <= i < |o.parts|
      ensures PartLevels(o.parts[i]) <= Depth(o.ty) + 1
    {
      PartLevelsByType(o, i);
    }
    LevelsBound(o, Depth(o.ty) + 1);
  }

  lemma LevelsBound(o: Obj, n: nat)
    requires OwnLevels(o.ty) <= n && forall i :: 0 <= i < |o.parts| ==> PartLevels(o.parts[i]) <= n
    ensures Levels(o) <= n
  {
    hide PartLevels;
    PartsBound(o.parts, n);
  }

  lemma {:induction false} PartsBound(ps: seq<Part>, n: nat)
    requires forall i :: 0 <= i < |ps| ==> PartLevels(ps[i]) <= n
    ensures PartsLevels(ps) <= n
    decreases |ps|
  {
    hide PartLevels;
    if ps != [] { PartsBound(ps[1..], n); }
  }

  lemma {:induction false} PartLevelsByType(o: Obj, i: nat)
    requires Shape(o) && i < |o.parts|
    ensures PartLevels(o.parts[i]) <= Depth(o.ty) + 1
    decreases o, 1
  {
    hide OffsetsFor, Levels;
    var x := o.parts[i];
    match o.ty
    case String =>
    case List(e) =>
      if !e.Scalar?() && i > 0 {
        assert EntryShape(o, e, i);
        SlotLevels(x, o.pos + 4 * i, e);
      }
    case Schema(s) =>
      var t := OffsetsFor(s.fields).value;
      assert FieldShape(o, s.fields, t, i);
      FieldDepth(s.fields, i);
      SlotLevels(x, o.pos + t.fields[i].offset, s.fields[i].ty);
    case Option(_) => PayloadLevels(o, i);
    case Result(_, _) => PayloadLevels(o, i);
    case Enum(_, _) => PayloadLevels(o, i);
  }

  lemma {:induction false} PayloadLevels(o: Obj, i: nat)
    requires VariantShape(o) && o.ty.Variant?() && i < |o.parts|
    ensures PartLevels(o.parts[i]) <= Depth(o.ty) + 1
    decreases o, 0
  {
    hide SlotShape, Levels;
    if i == 1 {
      var pty := SelectPayload(o.ty, o.parts[0].data[0]).ty;
      SlotLevels(o.parts[1], PayloadSlotOffset(o.pos, pty), pty);
    }
  }

  lemma {:induction false} SlotLevels(x: Part, off: nat, ty: TypeRepr)
    requires SlotShape(x, off, ty)
    ensures PartLevels(x) <= Depth(ty) + 2
    decreases x, 3
  {
    hide Levels;
    if x.Ptr? { LevelsByType(x.target); }
  }

  /** An encoded object inside the window is accepted if its type nests fewer levels than the limit. */
  lemma TargetVerifies(b: seq<byte>, o: Obj, w: Region, depth: nat)
    requires Holds(b, o) && WithinObj(o, w.start, w.end) && w.end <= |b|
    requires depth + Depth(o.ty) < 64
    ensures VerifyTarget(b, o.ty, ListKind(o.ty), o.pos, Single(w), depth)
  {
    hide VerifyTarget, Levels, ListKind, Shape, Enc, Linked, Depth;
    TargetIff(b, o, w, depth);
    LevelsByType(o);
  }

  lemma RecordVerifies(b: seq<byte>, o: Obj, s: SchemaRepr, w: Region, depth: nat)
    requires Holds(b, o) && o.ty == TypeRepr.Schema(s) && WithinObj(o, w.start, w.end) && w.end <= |b|
    requires depth + FieldsDepth(s.fields) < 64
    ensures OffsetsFor(s.fields).Some?
    ensures VerifyRecordInner(b, s.fields, OffsetsFor(s.fields).value, o.pos, Single(w), depth)
  {
    hide VerifyRecordInner, Levels, Shape, Enc, Linked, FieldsDepth, OffsetsFor;
    RecordIff(b, o, s, w, depth);
    LevelsByType(o);
  }
}
