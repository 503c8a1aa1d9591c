/** What acceptance by the verifier buys: safe reads, locality and monotonicity. */
module VerifierFacts {
  import opened Bytes
  import opened Wrappers
  import opened Schemas
  import opened Layout
  import opened LayoutFacts
  import opened Values
  import opened Reader
  import opened Verifier

  /** The only way a read of a certified value may fail. */
  predicate OkOrUtf8<T>(r: Read<T>) {
    r.Ok? || r.error == InvalidUtf8
  }

  /** Names a span, so that the quantifiers below are used only for the spans a proof names. */
  predicate Span(off: nat, len: nat) { true }

  /** Every span legal under `x` is legal under `y`. */
  ghost predicate Wider(x: Bounds, y: Bounds) {
    forall off: nat, len: nat {:trigger Span(off, len)} :: x.AllowsSpan(off, len) ==> y.AllowsSpan(off, len)
  }

  /** The buffers hold the same byte wherever the bounds allow a byte. */
  ghost predicate AgreeOn(x: Bounds, b1: seq<byte>, b2: seq<byte>) {
    forall i: nat {:trigger Span(i, 1)} :: x.AllowsSpan(i, 1) ==> i < |b1| && i < |b2| && b1[i] == b2[i]
  }

  /** Two walks to compare: `b1` under `bd1`, and `b2` under bounds at least as wide that
      holds the same bytes inside `bd1`. */
  datatype Pair = Pair(b1: seq<byte>, bd1: Bounds, b2: seq<byte>, bd2: Bounds) {
    ghost predicate Valid() {
      Covers(b1, bd1) && Covers(b2, bd2) && Wider(bd1, bd2) && AgreeOn(bd1, b1, b2)
    }
  }

  /** An allowed span lies inside both buffers and reads the same in both. */
  lemma SliceAgree(c: Pair, off: nat, len: nat)
    requires c.Valid() && c.bd1.AllowsSpan(off, len)
    ensures c.bd2.AllowsSpan(off, len)
    ensures off + len <= |c.b1| && off + len <= |c.b2|
    ensures c.b1[off..off + len] == c.b2[off..off + len]
  {
    assert Span(off, len);
    AllowedInRange(c.b1, c.bd1, off, len);
    AllowedInRange(c.b2, c.bd2, off, len);
    forall i | off <= i < off + len
      ensures c.b1[i] == c.b2[i]
    {
      assert Span(i, 1) && c.bd1.AllowsSpan(i, 1);
    }
  }

  lemma U32Agree(c: Pair, off: nat)
    requires c.Valid() && c.bd1.AllowsSpan(off, 4)
    ensures off + 4 <= |c.b1| && off + 4 <= |c.b2|
    ensures U32At(c.b1, off) == U32At(c.b2, off)
    ensures VerifiedU32(c.b1, off, c.bd1) == VerifiedU32(c.b2, off, c.bd2) == Some(U32At(c.b1, off))
    ensures SlotPointer(c.b1, off) == SlotPointer(c.b2, off) == Ok(U32At(c.b1, off))
  {
    SliceAgree(c, off, 4);
  }

  lemma DecisionShape(ty: TypeRepr)
    requires FieldDecision(ty).Some?
    ensures var d := FieldDecision(ty).value;
      && (d.kind.PointerIndirect? <==> ty.Pointer?())
      && (d.kind.Inline? ==> ty.Inline?() && d.kind.size == InlineSize(ty))
      && d.listElement == ListKind(ty)
      && (ty.List? ==> d.listElement.Some?)
      && (ty.List? && ty.element.Scalar?() ==>
            d.listElement == Some(InlineFixed(ElemSize(ty.element), ElemAlign(ty.element))))
      && (ty.List? && !ty.element.Scalar?() ==> d.listElement.value.PointerArray? && ty.element.Pointer?())
  {
  }

  lemma ListDecided(e: TypeRepr)
    requires ListKind(TypeRepr.List(e)).Some?
    ensures var kind := ListKind(TypeRepr.List(e)).value;
      if e.Scalar?() then kind == InlineFixed(ElemSize(e), ElemAlign(e))
      else kind.PointerArray? && e.Pointer?() && (e.Schema? ==> OffsetsFor(e.schema.fields).Some?)
  {
    DecisionShape(TypeRepr.List(e));
  }

  /** The elements of an inline list read the same when their bytes are the same. */
  lemma {:induction false} ScalarsAgree(b1: seq<byte>, b2: seq<byte>, off: nat, n: nat, e: TypeRepr)
    requires e.Scalar?() && off + ElemsSize(e, n) <= |b1| && off + ElemsSize(e, n) <= |b2|
    requires b1[off..off + ElemsSize(e, n)] == b2[off..off + ElemsSize(e, n)]
    ensures ScalarsAt(b1, off, n, e) == ScalarsAt(b2, off, n, e)
    decreases n
  {
    hide ScalarValue;
    if n > 0 {
      var w, end := ElemSize(e), off + ElemsSize(e, n);
      SliceSplit(b1, off, off + w, end);
      SliceSplit(b2, off, off + w, end);
      ScalarsAgree(b1, b2, off + w, n - 1, e);
    }
  }

  /** Verifier soundness and locality for any value: what `b1` certifies, `b2` certifies too, both
      decode it alike, and decoding fails at most on invalid UTF-8. */
  lemma {:induction false} TargetCertified(c: Pair, ty: TypeRepr, p: nat, depth: nat)
    requires c.Valid() && WellNamed(ty)
    requires VerifyTarget(c.b1, ty, ListKind(ty), p, c.bd1, depth)
    ensures VerifyTarget(c.b2, ty, ListKind(ty), p, c.bd2, depth)
    ensures ElementAt(c.b1, p, ty) == ElementAt(c.b2, p, ty) == TargetAt(c.b1, p, ty) == TargetAt(c.b2, p, ty)
    ensures OkOrUtf8(TargetAt(c.b1, p, ty))
    decreases Depth(ty), 3
  {
    hide LeVal, ListAt, RecordAt, VariantAt, VerifyList, VerifyRecordInner, VerifyVariant, ListKind, ValidUtf8;
    match ty
    case String =>
      U32Agree(c, p);
      SliceAgree(c, p + 4, U32At(c.b1, p));
    case Schema(s) => RecordCertified(c, s, p, depth + 1);
    case List(e) => ListCertified(c, e, p, depth);
    case Option(_) => VariantCertified(c, ty, p, depth);
    case Result(_, _) => VariantCertified(c, ty, p, depth);
    case Enum(_, _) => VariantCertified(c, ty, p, depth);
  }

  lemma {:induction false} RecordCertified(c: Pair, s: SchemaRepr, base: nat, depth: nat)
    requires c.Valid() && RecordWellNamed(s.fields) && OffsetsFor(s.fields).Some?
    requires VerifyRecordInner(c.b1, s.fields, OffsetsFor(s.fields).value, base, c.bd1, depth)
    ensures var t := OffsetsFor(s.fields).value;
      && VerifyRecordInner(c.b2, s.fields, t, base, c.bd2, depth)
      && base + t.rootSize <= |c.b1| && base + t.rootSize <= |c.b2|
    ensures RecordAt(c.b1, base, s) == RecordAt(c.b2, base, s) && OkOrUtf8(RecordAt(c.b1, base, s))
    decreases FieldsDepth(s.fields), 9
  {
    hide OffsetsFor, FindOffset, FindField, Assemble;
    var t := OffsetsFor(s.fields).value;
    SliceAgree(c, base, t.rootSize);
    VerifySlotsIff(c.b1, s.fields, t.fields, base, c.bd1, depth);
    forall k | 0 <= k < |s.fields|
      ensures SlotVerified(c.b2, s.fields, t.fields[k], base, c.bd2, depth)
      ensures SlotAgrees(c.b1, c.b2, base, t, s.fields[k])
    {
      SlotCertified(c, s.fields, t, k, base, depth);
    }
    VerifySlotsIff(c.b2, s.fields, t.fields, base, c.bd2, depth);
    assert s.fields[0..] == s.fields;
    SlotsAgree(c.b1, c.b2, base, t, s.fields, 0);
  }

  /** The part of the slot walk that concerns one slot alone. */
  predicate SlotVerified(b: seq<byte>, fs: seq<Field>, fo: FieldOffset, base: nat, bounds: Bounds, depth: nat)
    requires Covers(b, bounds)
  {
    && bounds.AllowsSpan(base + fo.offset, fo.size)
    && (fo.kind.PointerIndirect? ==>
          && var f := FindField(fs, fo.name);
          && f.Some?
          && var p := VerifiedU32(b, base + fo.offset, bounds);
          && p.Some?
          && VerifyTarget(b, f.value.ty, fo.listElement, p.value, bounds, depth))
  }

  lemma {:induction false} VerifySlotsIff(
    b: seq<byte>, fs: seq<Field>, fos: seq<FieldOffset>, base: nat, bounds: Bounds, depth: nat)
    requires Covers(b, bounds)
    ensures VerifySlots(b, fs, fos, base, bounds, depth) <==>
      forall k :: 0 <= k < |fos| ==> SlotVerified(b, fs, fos[k], base, bounds, depth)
    decreases |fos|
  {
    hide VerifyTarget, FindField, VerifiedU32;
    if fos != [] {
      VerifySlotsIff(b, fs, fos[1..], base, bounds, depth);
      assert forall k :: 0 < k < |fos| ==> fos[k] == fos[1..][k - 1];
    }
  }

  /** The slot the layout gives `f` reads alike in both buffers, and fails at most on UTF-8. */
  predicate SlotAgrees(b1: seq<byte>, b2: seq<byte>, base: nat, t: OffsetTable, f: Field) {
    && FindOffset(t.fields, f.name).Some?
    && var off := base + FindOffset(t.fields, f.name).value.offset;
    && FieldAt(b1, off, f.ty) == FieldAt(b2, off, f.ty)
    && OkOrUtf8(FieldAt(b1, off, f.ty))
  }

  lemma {:induction false} SlotsAgree(
    b1: seq<byte>, b2: seq<byte>, base: nat, t: OffsetTable, fs: seq<Field>, k: nat)
    requires k <= |fs| && forall i :: k <= i < |fs| ==> SlotAgrees(b1, b2, base, t, fs[i])
    ensures SlotsAt(b1, base, t, fs[k..]) == SlotsAt(b2, base, t, fs[k..])
    ensures OkOrUtf8(SlotsAt(b1, base, t, fs[k..]))
    decreases |fs| - k
  {
    if k < |fs| {
      assert SlotAgrees(b1, b2, base, t, fs[k]);
      SlotsAtStep(b1, base, t, fs, k);
      SlotsAtStep(b2, base, t, fs, k);
      SlotsAgree(b1, b2, base, t, fs, k + 1);
    }
  }

  /** What the layout says about the slot of field `k`, by index and by name. */
  lemma SlotFacts(fs: seq<Field>, t: OffsetTable, k: nat)
    requires OffsetsFor(fs) == Some(t) && DistinctNames(fs) && k < |fs|
    ensures FindOffset(t.fields, fs[k].name) == Some(t.fields[k])
    ensures FindField(fs, t.fields[k].name) == Some(fs[k])
    ensures t.fields[k].kind.PointerIndirect? <==> fs[k].ty.Pointer?()
    ensures t.fields[k].kind.Inline? ==> fs[k].ty.Inline?()
    ensures t.fields[k].size == if fs[k].ty.Inline?() then InlineSize(fs[k].ty) else 4
    ensures t.fields[k].listElement == ListKind(fs[k].ty)
    ensures t.fields[k].offset + t.fields[k].size <= t.rootSize
  {
    LayoutCorrect(fs);
    assert SlotPlaced(fs, t.fields, 0, k);
    DecisionShape(fs[k].ty);
    FindFieldAt(fs, k);
    FindOffsetAt(fs, t.fields, k);
  }

  lemma {:induction false} SlotCertified(
    c: Pair, fs: seq<Field>, t: OffsetTable, k: nat, base: nat, depth: nat)
    requires c.Valid() && RecordWellNamed(fs) && OffsetsFor(fs) == Some(t) && k < |fs|
    requires SlotVerified(c.b1, fs, t.fields[k], base, c.bd1, depth)
    ensures SlotVerified(c.b2, fs, t.fields[k], base, c.bd2, depth)
    ensures SlotAgrees(c.b1, c.b2, base, t, fs[k])
    decreases FieldsDepth(fs), 7
  {
    hide OffsetsFor, FindField, FindOffset, FieldDecision, VerifyTarget, TargetAt, DistinctNames, FieldsWellNamed;
    var fo := t.fields[k];
    SliceAgree(c, base + fo.offset, fo.size);
    SlotFacts(fs, t, k);
    FieldWellNamed(fs, k);
    FieldCertified(c, fs[k].ty, base + fo.offset, depth);
  }

  /** A slot: inline bytes inside the bounds, or a pointer whose target is certified. */
  predicate FieldVerified(b: seq<byte>, ty: TypeRepr, slot: nat, bounds: Bounds, depth: nat)
    requires Covers(b, bounds)
  {
    if ty.Inline?() then bounds.AllowsSpan(slot, InlineSize(ty))
    else
      && ty.Pointer?()
      && var p := VerifiedU32(b, slot, bounds);
      && p.Some?
      && VerifyTarget(b, ty, ListKind(ty), p.value, bounds, depth)
  }

  lemma {:induction false} FieldCertified(c: Pair, ty: TypeRepr, slot: nat, depth: nat)
    requires c.Valid() && WellNamed(ty) && FieldVerified(c.b1, ty, slot, c.bd1, depth)
    ensures FieldVerified(c.b2, ty, slot, c.bd2, depth)
    ensures FieldAt(c.b1, slot, ty) == FieldAt(c.b2, slot, ty) && OkOrUtf8(FieldAt(c.b1, slot, ty))
    decreases Depth(ty), 4
  {
    if ty.Inline?() {
      SliceAgree(c, slot, InlineSize(ty));
    } else {
      U32Agree(c, slot);
      TargetCertified(c, ty, U32At(c.b1, slot), depth);
    }
  }

  lemma {:induction false} ListCertified(c: Pair, e: TypeRepr, p: nat, depth: nat)
    requires c.Valid() && WellNamed(e)
    requires VerifyList(c.b1, e, ListKind(TypeRepr.List(e)), p, c.bd1, depth)
    ensures VerifyList(c.b2, e, ListKind(TypeRepr.List(e)), p, c.bd2, depth)
    ensures ListAt(c.b1, p, e) == ListAt(c.b2, p, e) && OkOrUtf8(ListAt(c.b1, p, e))
    decreases Depth(e), 6
  {
    hide LeVal, EntriesAt, VerifyEntries, ScalarsAt, FieldDecision, AlignUp, ListKind, OffsetsFor;
    ListDecided(e);
    U32Agree(c, p);
    var n := U32At(c.b1, p);
    if e.Scalar?() {
      var start := AlignUp(p + 4, ElemAlign(e));
      assert Times(n, ElemSize(e)) == ElemsSize(e, n);
      SliceAgree(c, start, ElemsSize(e, n));
      ScalarsAgree(c.b1, c.b2, start, n, e);
    } else {
      EntriesCertified(c, e, p + 4, n, depth);
    }
  }

  lemma {:induction false} EntriesCertified(c: Pair, e: TypeRepr, off: nat, n: nat, depth: nat)
    requires c.Valid() && WellNamed(e) && off <= |c.b1| && off <= |c.b2|
    requires VerifyEntries(c.b1, e, off, n, c.bd1, depth)
    ensures VerifyEntries(c.b2, e, off, n, c.bd2, depth)
    ensures off + 4 * n <= |c.b1| && off + 4 * n <= |c.b2|
    ensures EntriesAt(c.b1, off, n, e) == EntriesAt(c.b2, off, n, e) && OkOrUtf8(EntriesAt(c.b1, off, n, e))
    decreases Depth(e), 5, n
  {
    hide LeVal;
    if n > 0 {
      U32Agree(c, off);
      TargetCertified(c, e, U32At(c.b1, off), depth + 1);
      EntriesCertified(c, e, off + 4, n - 1, depth);
    }
  }

  /** A variant: a known tag inside the bounds and, if it carries one, a verified payload slot. */
  predicate VariantVerified(b: seq<byte>, ty: TypeRepr, p: nat, bounds: Bounds, depth: nat)
    requires Covers(b, bounds)
  {
    && depth < MAX_DEPTH && p < |b| && bounds.AllowsSpan(p, 1)
    && match SelectPayload(ty, b[p])
       case BadTag => false
       case NoPayload => true
       case Payload(pty) => FieldVerified(b, pty, PayloadSlotOffset(p, pty), bounds, depth + 1)
  }

  lemma VariantSplit(b: seq<byte>, ty: TypeRepr, p: nat, bounds: Bounds, depth: nat)
    requires Covers(b, bounds)
    ensures VerifyVariant(b, ty, p, bounds, depth) <==> VariantVerified(b, ty, p, bounds, depth)
  {
    hide VerifyTarget, ListKind, LeVal, SelectPayload, PayloadSlotOffset;
    if bounds.AllowsSpan(p, 1) { AllowedInRange(b, bounds, p, 1); }
  }

  lemma {:induction false} VariantCertified(c: Pair, ty: TypeRepr, p: nat, depth: nat)
    requires c.Valid() && WellNamed(ty) && ty.Variant?()
    requires VerifyVariant(c.b1, ty, p, c.bd1, depth)
    ensures VerifyVariant(c.b2, ty, p, c.bd2, depth)
    ensures VariantAt(c.b1, p, ty) == VariantAt(c.b2, p, ty) && OkOrUtf8(VariantAt(c.b1, p, ty))
    decreases Depth(ty), 2
  {
    hide LeVal, VerifyVariant, FieldVerified, FieldAt, SelectPayload, PayloadSlotOffset, WellNamed, WrapVariant;
    VariantSplit(c.b1, ty, p, c.bd1, depth);
    VariantSplit(c.b2, ty, p, c.bd2, depth);
    SliceAgree(c, p, 1);
    assert c.b1[p] == c.b1[p..p + 1][0] == c.b2[p..p + 1][0] == c.b2[p];
    var sel := SelectPayload(ty, c.b1[p]);
    if sel.Payload? {
      var slot := PayloadSlotOffset(p, sel.ty);
      PayloadWellNamed(ty, c.b1[p]);
      FieldCertified(c, sel.ty, slot, depth + 1);
      WrapRecordPayload(c.b1, slot, ty, c.b1[p]);
    }
  }

  /** An enum payload always decodes to a record, so wrapping it never fails. */
  lemma WrapRecordPayload(b: seq<byte>, slot: nat, ty: TypeRepr, tag: byte)
    requires SelectPayload(ty, tag).Payload?
    ensures var pty := SelectPayload(ty, tag).ty;
      FieldAt(b, slot, pty).Ok? ==> WrapVariant(ty, tag, FieldAt(b, slot, pty).value).Some?
  {
    hide FieldAt;
    var pty := SelectPayload(ty, tag).ty;
    if ty.Enum? && FieldAt(b, slot, pty).Ok? { RecordFieldDict(b, slot, pty.schema); }
  }

  lemma RecordFieldDict(b: seq<byte>, slot: nat, s: SchemaRepr)
    requires !s.isTuple && FieldAt(b, slot, TypeRepr.Schema(s)).Ok?
    ensures FieldAt(b, slot, TypeRepr.Schema(s)).value.VDict?
  {
    hide LeVal, OffsetsFor, SlotsAt, Zip;
    var p := U32At(b, slot);
    assert FieldAt(b, slot, TypeRepr.Schema(s)) == TargetAt(b, p, TypeRepr.Schema(s));
    assert TargetAt(b, p, TypeRepr.Schema(s)) == RecordAt(b, p, s);
  }

  // ----- the theorems -----

  lemma ValidPair(b1: seq<byte>, b2: seq<byte>, narrow: Bounds, wide: Bounds)
    requires Covers(b1, narrow) && Covers(b2, wide) && Wider(narrow, wide)
    requires forall i: nat :: narrow.AllowsSpan(i, 1) && i < |b1| && i < |b2| ==> b1[i] == b2[i]
    ensures Pair(b1, narrow, b2, wide).Valid()
  {
    forall i: nat | narrow.AllowsSpan(i, 1)
      ensures i < |b1| && i < |b2| && b1[i] == b2[i]
    {
      assert Span(i, 1);
      AllowedInRange(b1, narrow, i, 1);
      AllowedInRange(b2, wide, i, 1);
    }
  }

  lemma WiderSelf(x: Bounds)
    ensures Wider(x, x)
  {
    forall off: nat, len: nat | x.AllowsSpan(off, len)
      ensures x.AllowsSpan(off, len)
    {
    }
  }

  /** Soundness on every byte buffer: once a record is accepted, decoding it stays in bounds
      and can fail only on invalid UTF-8. */
  lemma VerifierSound(b: seq<byte>, s: SchemaRepr, base: nat, bounds: Bounds)
    requires RecordWellNamed(s.fields) && OffsetsFor(s.fields).Some?
    requires VerifyRecord(b, s.fields, OffsetsFor(s.fields).value, base, bounds)
    ensures OkOrUtf8(RecordAt(b, base, s))
  {
    WiderSelf(bounds);
    ValidPair(b, b, bounds, bounds);
    RecordCertified(Pair(b, bounds, b, bounds), s, base, 0);
  }

  lemma ValueVerifierSound(b: seq<byte>, ty: TypeRepr, root: nat, bounds: Bounds)
    requires WellNamed(ty) && VerifyValueAt(b, ty, ListKind(ty), root, bounds)
    ensures OkOrUtf8(TargetAt(b, root, ty))
  {
    WiderSelf(bounds);
    ValidPair(b, b, bounds, bounds);
    TargetCertified(Pair(b, bounds, b, bounds), ty, root, 0);
  }

  /** Locality: the verdict and the decoded value depend only on the bytes inside the bounds.
      Whatever else the buffers hold, and however long they are, cannot be told apart. */
  lemma VerifierLocal(b1: seq<byte>, b2: seq<byte>, s: SchemaRepr, base: nat, bounds: Bounds)
    requires RecordWellNamed(s.fields) && OffsetsFor(s.fields).Some?
    requires Covers(b1, bounds) && Covers(b2, bounds)
    requires forall i: nat :: bounds.AllowsSpan(i, 1) && i < |b1| && i < |b2| ==> b1[i] == b2[i]
    ensures var t := OffsetsFor(s.fields).value;
      && (VerifyRecord(b1, s.fields, t, base, bounds) <==> VerifyRecord(b2, s.fields, t, base, bounds))
      && (VerifyRecord(b1, s.fields, t, base, bounds) ==> RecordAt(b1, base, s) == RecordAt(b2, base, s))
  {
    var t := OffsetsFor(s.fields).value;
    WiderSelf(bounds);
    ValidPair(b1, b2, bounds, bounds);
    ValidPair(b2, b1, bounds, bounds);
    if VerifyRecord(b1, s.fields, t, base, bounds) {
      RecordCertified(Pair(b1, bounds, b2, bounds), s, base, 0);
    }
    if VerifyRecord(b2, s.fields, t, base, bounds) {
      RecordCertified(Pair(b2, bounds, b1, bounds), s, base, 0);
    }
  }

  /** The same for a bare value reached at an offset. */
  lemma ValueVerifierLocal(b1: seq<byte>, b2: seq<byte>, ty: TypeRepr, root: nat, bounds: Bounds)
    requires WellNamed(ty) && Covers(b1, bounds) && Covers(b2, bounds)
    requires forall i: nat :: bounds.AllowsSpan(i, 1) && i < |b1| && i < |b2| ==> b1[i] == b2[i]
    ensures VerifyValueAt(b1, ty, ListKind(ty), root, bounds) <==> VerifyValueAt(b2, ty, ListKind(ty), root, bounds)
    ensures VerifyValueAt(b1, ty, ListKind(ty), root, bounds) ==> TargetAt(b1, root, ty) == TargetAt(b2, root, ty)
  {
    hide ListKind;
    WiderSelf(bounds);
    ValidPair(b1, b2, bounds, bounds);
    ValidPair(b2, b1, bounds, bounds);
    if VerifyValueAt(b1, ty, ListKind(ty), root, bounds) {
      TargetCertified(Pair(b1, bounds, b2, bounds), ty, root, 0);
    }
    if VerifyValueAt(b2, ty, ListKind(ty), root, bounds) {
      TargetCertified(Pair(b2, bounds, b1, bounds), ty, root, 0);
    }
  }

  /** Monotonicity: wider bounds keep accepting, as long as the buffer covers them. */
  lemma VerifierMonotone(b: seq<byte>, ty: TypeRepr, root: nat, narrow: Bounds, wide: Bounds)
    requires WellNamed(ty) && Wider(narrow, wide) && Covers(b, wide)
    requires VerifyValueAt(b, ty, ListKind(ty), root, narrow)
    ensures VerifyValueAt(b, ty, ListKind(ty), root, wide)
  {
    ValidPair(b, b, narrow, wide);
    TargetCertified(Pair(b, narrow, b, wide), ty, root, 0);
  }

  /** A record accepted under some bounds is accepted under any wider ones. */
  lemma RecordVerifierMonotone(b: seq<byte>, s: SchemaRepr, base: nat, narrow: Bounds, wide: Bounds)
    requires RecordWellNamed(s.fields) && OffsetsFor(s.fields).Some? && Wider(narrow, wide) && Covers(b, wide)
    requires VerifyRecord(b, s.fields, OffsetsFor(s.fields).value, base, narrow)
    ensures VerifyRecord(b, s.fields, OffsetsFor(s.fields).value, base, wide)
  {
    ValidPair(b, b, narrow, wide);
    RecordCertified(Pair(b, narrow, b, wide), s, base, 0);
  }

  lemma RegionWider(inner: Region, outer: Region)
    requires outer.start <= inner.start && inner.end <= outer.end
    ensures Wider(Single(inner), Single(outer))
  {
    forall off: nat, len: nat | Single(inner).AllowsSpan(off, len)
      ensures Single(outer).AllowsSpan(off, len)
    {
    }
  }

  /** A single window is narrower than any four-window map one of whose windows contains it. */
  lemma RegionInMapWider(inner: Region, m: MultiRegion, tag: RegionTag)
    requires m.RegionOf(tag).start <= inner.start && inner.end <= m.RegionOf(tag).end
    ensures Wider(Single(inner), Multi(m))
  {
    forall off: nat, len: nat | Single(inner).AllowsSpan(off, len)
      ensures Multi(m).AllowsSpan(off, len)
    {
      assert m.RegionOf(tag).ContainsSpan(off, len);
    }
  }

  /** With disjoint windows a non-empty span the map accepts lies in exactly one of them. */
  lemma AcceptedSpanInExactlyOneRegion(m: MultiRegion, off: nat, len: nat, tag: RegionTag)
    requires len > 0
    requires forall x, y: RegionTag :: x != y ==>
      m.RegionOf(x).end <= m.RegionOf(y).start || m.RegionOf(y).end <= m.RegionOf(x).start
    ensures Multi(m).AllowsSpan(off, len) ==>
      (m.RegionOf(tag).ContainsSpan(off, len) <==> m.ClassifySpan(off, len) == Some(tag))
  {
    var c := m.ClassifySpan(off, len);
    if c.Some? && c.value != tag {
      assert m.RegionOf(c.value).ContainsSpan(off, len);
      assert m.RegionOf(c.value).end <= m.RegionOf(tag).start || m.RegionOf(tag).end <= m.RegionOf(c.value).start;
    }
  }
}
