/** What the buffer protocol is for: a value written through its type reads back, in the buffer it
    was written to and in any arena the buffer is rebased into, and the verifier accepts both. */
module RoundTrip {
  import opened Bytes
  import opened Wrappers
  import opened Schemas
  import opened Layout
  import opened LayoutFacts
  import opened Values
  import opened Reader
  import opened Verifier
  import opened VerifierFacts
  import opened Graph
  import opened GraphFacts
  import opened Acceptance
  import opened Moving
  import opened Relocation
  import opened RelocationFacts
  import opened Rebase
  import opened Paste
  import opened Writer
  import opened WriterFacts
  import opened WriteSteps
  import opened WriterCorrect
  import opened WriterRuns
  import opened RecordFacts
  import opened ListWriting

  lemma HoldsLonger(b: seq<byte>, b': seq<byte>, o: Obj)
    requires Holds(b, o) && b <= b'
    ensures Holds(b', o)
  {
    hide Shape, Good;
    EncFrame(b, b', o.parts);
    WithinWider(o.parts, 0, |b|, 0, |b'|);
  }

  // ----- every fully written builder -----

  /** The builder of schema `s` with bytes `b` holds `raw`, a value for every field. How it came to hold
      them, by whichever writes, commits and failed calls, does not matter. */
  ghost predicate Written(b: seq<byte>, s: SchemaRepr, t: OffsetTable, raw: seq<Value>) {
    exists slots, values :: Holding(b, s.fields, t, slots, values) && Complete(values, raw)
  }

  lemma WrittenObj(b: seq<byte>, s: SchemaRepr, t: OffsetTable, raw: seq<Value>) returns (c: Obj)
    requires Written(b, s, t, raw)
    ensures |raw| == |s.fields| && GoodRecord(s.fields) && OffsetsFor(s.fields) == Some(t)
    ensures c.pos == 0 && TargetDone([], Done(b, 0), TypeRepr.Schema(s), Assemble(s, raw), c)
    ensures Good(TypeRepr.Schema(s)) && (RebasableObj(c) <==> FieldsRebasable(s.fields, raw))
  {
    hide Holding, GoodRecord, OffsetsFor, FieldsRebasable, TargetDone;
    var slots, values :| Holding(b, s.fields, t, slots, values) && Complete(values, raw);
    HoldingLayout(b, s.fields, t, slots, values);
    c := ChildRecord(b, s, t, slots, values, raw);
  }

  /** It reads back as the record of those values, each in normal form. */
  lemma BuilderReads(b: seq<byte>, s: SchemaRepr, t: OffsetTable, raw: seq<Value>)
    requires Written(b, s, t, raw)
    ensures |raw| == |s.fields| && Norm(TypeRepr.Schema(s), Assemble(s, raw)).Some?
    ensures RecordAt(b, 0, s) == Ok(Norm(TypeRepr.Schema(s), Assemble(s, raw)).value)
  {
    hide Written, Good, OffsetsFor, Norm, RebasableValue, Shape, Decode, FieldsRebasable;
    var c := WrittenObj(b, s, t, raw);
    TargetReads(b, c);
    assert TargetAt(b, 0, TypeRepr.Schema(s)) == RecordAt(b, 0, s);
  }

  /** The verifier accepts it over its whole length. */
  lemma BuilderVerifies(b: seq<byte>, s: SchemaRepr, t: OffsetTable, raw: seq<Value>)
    requires Written(b, s, t, raw) && FieldsDepth(s.fields) < MAX_DEPTH
    ensures VerifyRecord(b, s.fields, t, 0, Single(Region(0, |b|)))
  {
    hide Written, Good, OffsetsFor, Norm, RebasableValue, Shape, Decode, VerifyRecordInner, FieldsRebasable;
    var c := WrittenObj(b, s, t, raw);
    RecordVerifies(b, c, s, Region(0, |b|), 0);
  }

  /** Exactly: whatever the type, it is accepted if and only if the depth its own records reach stays under
      the limit. */
  lemma BuilderAcceptedIff(b: seq<byte>, s: SchemaRepr, t: OffsetTable, raw: seq<Value>) returns (o: Obj)
    requires Written(b, s, t, raw)
    ensures Owns(b, o) && o.pos == 0 && o.ty == TypeRepr.Schema(s) && |raw| == |s.fields|
    ensures Norm(o.ty, Assemble(s, raw)).Some? && Decode(o) == Ok(Norm(o.ty, Assemble(s, raw)).value)
    ensures VerifyRecord(b, s.fields, t, 0, Single(Region(0, |b|))) <==> Levels(o) <= 65
  {
    hide Written, Good, OffsetsFor, Norm, RebasableValue, Shape, Decode, VerifyRecord, FieldsRebasable, Levels;
    o := WrittenObj(b, s, t, raw);
    WiderSelf(Single(Region(0, |b|)));
    RecordAcceptedIff(b, o, s, Region(0, |b|), Single(Region(0, |b|)));
  }

  /** Relocating it: its pointer slots share no byte, each gains the base exactly once, no other byte
      changes, and the only failure is a pointer that no longer fits 32 bits. */
  lemma BuilderRebasedOnce(b: seq<byte>, s: SchemaRepr, t: OffsetTable, raw: seq<Value>, d: nat) returns (o: Obj)
    requires Written(b, s, t, raw)
    ensures Owns(b, o) && o.pos == 0 && o.ty == TypeRepr.Schema(s)
    ensures var r := RelocPointers(b, BuildSlots(t.fields, s.fields), 0, d);
      (r.None? <==> !ValsFit(Move(o, 0, d).parts)) && RebasedOnce(b, r, Visited(o.parts, true), d)
  {
    hide Written, OffsetsFor, RelocPointers, RelocTarget, Norm, RebasableValue, Decode, Shape, WithinObj, RebasedOnce,
      MoveParts, FieldsRebasable;
    o := WrittenObj(b, s, t, raw);
    RecordByType(b, 0, s, d);
    ExactlyOnce(b, o, d);
  }

  /** Rebased to a base aligned for its types and placed there in an arena, it is the same record. */
  lemma BuilderPlaced(b: seq<byte>, s: SchemaRepr, t: OffsetTable, raw: seq<Value>, prefix: seq<byte>) returns (o: Obj)
    requires Written(b, s, t, raw) && FieldsRebasable(s.fields, raw)
    requires Aligned(|prefix|, FieldsGraphAlign(s.fields)) && |prefix| + |b| < U32_LIMIT
    ensures |raw| == |s.fields| && Good(TypeRepr.Schema(s)) && OffsetsFor(s.fields) == Some(t)
    ensures var m := Finished(b, s.fields, t, |prefix|);
      && m.Some? && |m.value| == |b|
      && Holds(prefix + m.value, o) && WithinObj(o, |prefix|, |prefix| + |m.value|)
      && o.pos == |prefix| && o.ty == TypeRepr.Schema(s)
      && Norm(o.ty, Assemble(s, raw)).Some? && Decode(o) == Ok(Norm(o.ty, Assemble(s, raw)).value)
  {
    hide Written, OffsetsFor, FieldsRebasable, RelocPointers, RelocTarget, Norm, RebasableValue, Decode, Shape,
      WithinObj;
    var c := WrittenObj(b, s, t, raw);
    if prefix == [] {
      o := c;
      assert prefix + b == b;
    } else {
      RecordByType(b, 0, s, |prefix|);
      RelocationSucceeds(b, c, |prefix|);
      PasteObj(prefix, b, c);
      o := Move(c, |prefix|, |prefix|);
    }
  }

  /** Rebased to any such base of any arena that holds it there, it decodes to the same value. */
  lemma BuilderArenaReads(
    b: seq<byte>, s: SchemaRepr, t: OffsetTable, raw: seq<Value>, prefix: seq<byte>, suffix: seq<byte>)
    requires Written(b, s, t, raw) && FieldsRebasable(s.fields, raw)
    requires Aligned(|prefix|, FieldsGraphAlign(s.fields)) && |prefix| + |b| < U32_LIMIT
    ensures |raw| == |s.fields|
    ensures var m := Finished(b, s.fields, t, |prefix|);
      && m.Some? && |m.value| == |b|
      && Norm(TypeRepr.Schema(s), Assemble(s, raw)).Some?
      && RecordAt(prefix + m.value + suffix, |prefix|, s) == Ok(Norm(TypeRepr.Schema(s), Assemble(s, raw)).value)
  {
    hide Written, Good, OffsetsFor, Finished, FieldsRebasable, Norm, Shape, Decode, WithinObj, Holds;
    var o := BuilderPlaced(b, s, t, raw, prefix);
    var m := Finished(b, s.fields, t, |prefix|).value;
    var arena := prefix + m + suffix;
    HoldsLonger(prefix + m, arena, o);
    TargetReads(arena, o);
    assert TargetAt(arena, |prefix|, o.ty) == RecordAt(arena, |prefix|, s);
  }

  /** The verifier accepts the rebased record within its own window, and within any four-window map one
      of whose windows contains it. */
  lemma BuilderArenaVerifies(
    b: seq<byte>, s: SchemaRepr, t: OffsetTable, raw: seq<Value>, prefix: seq<byte>, suffix: seq<byte>,
    map4: MultiRegion, tag: RegionTag)
    requires Written(b, s, t, raw) && FieldsRebasable(s.fields, raw) && FieldsDepth(s.fields) < MAX_DEPTH
    requires Aligned(|prefix|, FieldsGraphAlign(s.fields)) && |prefix| + |b| < U32_LIMIT
    requires map4.RegionOf(tag).start <= |prefix| && |prefix| + |b| <= map4.RegionOf(tag).end
    requires map4.MaxEnd() <= |prefix| + |b| + |suffix|
    ensures var m := Finished(b, s.fields, t, |prefix|);
      && m.Some? && |m.value| == |b|
      && VerifyRecord(prefix + m.value + suffix, s.fields, t, |prefix|, Single(Region(|prefix|, |prefix| + |m.value|)))
      && VerifyRecord(prefix + m.value + suffix, s.fields, t, |prefix|, Multi(map4))
  {
    hide Written, OffsetsFor, Finished, FieldsRebasable, Norm, Shape, Decode, WithinObj, Holds, VerifyRecordInner;
    var o := BuilderPlaced(b, s, t, raw, prefix);
    var m := Finished(b, s.fields, t, |prefix|).value;
    var arena := prefix + m + suffix;
    var w := Region(|prefix|, |prefix| + |m|);
    HoldsLonger(prefix + m, arena, o);
    RecordVerifies(arena, o, s, w, 0);
    SchemaGood(s);
    RegionInMapWider(w, map4, tag);
    ValidPair(arena, arena, Single(w), Multi(map4));
    RecordCertified(Pair(arena, Single(w), arena, Multi(map4)), s, |prefix|, 0);
  }

  /** The verifier accepts the record at `base` in its own window, ending at `end`, and in every
      four-window map one of whose windows contains that one. */
  ghost predicate Accepted(arena: seq<byte>, s: SchemaRepr, t: OffsetTable, base: nat, end: nat) {
    && VerifyRecord(arena, s.fields, t, base, Single(Region(base, end)))
    && forall map4: MultiRegion, tag ::
         map4.RegionOf(tag).start <= base && end <= map4.RegionOf(tag).end && map4.MaxEnd() <= |arena| ==>
           VerifyRecord(arena, s.fields, t, base, Multi(map4))
  }

  /** What `r`, finished for the offset `base`, is in every arena that holds it there: the record of
      `raw`, accepted by the verifier. */
  ghost predicate InEveryArena(r: seq<byte>, base: nat, s: SchemaRepr, t: OffsetTable, raw: seq<Value>)
    requires |raw| == |s.fields|
  {
    var v := Norm(TypeRepr.Schema(s), Assemble(s, raw));
    && v.Some?
    && forall prefix: seq<byte>, suffix: seq<byte> | |prefix| == base ::
         && RecordAt(prefix + r + suffix, base, s) == Ok(v.value)
         && (FieldsDepth(s.fields) < MAX_DEPTH ==> Accepted(prefix + r + suffix, s, t, base, base + |r|))
  }

  lemma BuilderAccepted(
    b: seq<byte>, s: SchemaRepr, t: OffsetTable, raw: seq<Value>, prefix: seq<byte>, suffix: seq<byte>)
    requires Written(b, s, t, raw) && FieldsRebasable(s.fields, raw) && FieldsDepth(s.fields) < MAX_DEPTH
    requires Aligned(|prefix|, FieldsGraphAlign(s.fields)) && |prefix| + |b| < U32_LIMIT
    requires var m := Finished(b, s.fields, t, |prefix|); m.Some? && |m.value| == |b|
    ensures var m := Finished(b, s.fields, t, |prefix|).value;
      Accepted(prefix + m + suffix, s, t, |prefix|, |prefix| + |m|)
  {
    hide Written, OffsetsFor, Finished, FieldsRebasable, VerifyRecord, FieldsDepth;
    var m := Finished(b, s.fields, t, |prefix|).value;
    var arena := prefix + m + suffix;
    var w := Region(|prefix|, |prefix| + |m|);
    BuilderArenaVerifies(b, s, t, raw, prefix, suffix, MultiRegion(w, w, w, w), Scratch);
    forall map4: MultiRegion, tag |
      map4.RegionOf(tag).start <= |prefix| && |prefix| + |m| <= map4.RegionOf(tag).end && map4.MaxEnd() <= |arena|
      ensures VerifyRecord(arena, s.fields, t, |prefix|, Multi(map4))
    {
      BuilderArenaVerifies(b, s, t, raw, prefix, suffix, map4, tag);
    }
  }

  /** Finishing a fully written builder for an arena: whatever surrounds the bytes there, they decode to
      the values written and the verifier accepts them. */
  lemma BuilderFinished(b: seq<byte>, s: SchemaRepr, t: OffsetTable, raw: seq<Value>, base: nat)
    requires Written(b, s, t, raw) && FieldsRebasable(s.fields, raw)
    requires Aligned(base, FieldsGraphAlign(s.fields)) && base + |b| < U32_LIMIT
    ensures |raw| == |s.fields|
    ensures Finished(b, s.fields, t, base).Some? && InEveryArena(Finished(b, s.fields, t, base).value, base, s, t, raw)
  {
    hide Written, OffsetsFor, Finished, FieldsRebasable, Norm, Accepted, RecordAt, FieldsDepth;
    BuilderArenaReads(b, s, t, raw, Zeros(base), []);
    var r := Finished(b, s.fields, t, base).value;
    forall prefix: seq<byte>, suffix: seq<byte> | |prefix| == base
      ensures RecordAt(prefix + r + suffix, base, s) == Ok(Norm(TypeRepr.Schema(s), Assemble(s, raw)).value)
      ensures FieldsDepth(s.fields) < MAX_DEPTH ==> Accepted(prefix + r + suffix, s, t, base, base + |r|)
    {
      BuilderArenaReads(b, s, t, raw, prefix, suffix);
      if FieldsDepth(s.fields) < MAX_DEPTH { BuilderAccepted(b, s, t, raw, prefix, suffix); }
    }
  }

  // ----- a record value written in one pass -----

  /** Writing the fields in declaration order is one way to fill a builder. */
  lemma BuiltWritten(t: OffsetTable, s: SchemaRepr, v: Value)
    requires Good(TypeRepr.Schema(s)) && OffsetsFor(s.fields) == Some(t)
    requires BuildRecord(t, s, v).Some? && FieldsWritable(s.fields, RecordValues(s, v).value)
    ensures RecordValues(s, v).Some? && Written(BuildRecord(t, s, v).value, s, t, RecordValues(s, v).value)
    ensures Norm(TypeRepr.Schema(s), v) == Norm(TypeRepr.Schema(s), Assemble(s, RecordValues(s, v).value))
  {
    hide WriteFields, OffsetsFor, Building, GoodRecord, FieldsWritable, FieldDone;
    var fs, raw := s.fields, RecordValues(s, v).value;
    assert GoodRecord(fs) by { SchemaGood(s); }
    BuildingStart(fs, t);
    var parts := FieldsWritten(Zeros(t.rootSize), t, fs, raw, 0, seq(|fs|, _ => None));
    assert fs[0..] == fs && raw[0..] == raw;
    var values := seq(|raw|, i requires 0 <= i < |raw| => Some(raw[i]));
    assert Holding(BuildRecord(t, s, v).value, fs, t, Whole(parts), values) && Complete(values, raw);
    assert DistinctNames(fs) by { NamesOf(fs); }
    RecordValuesOf(s, raw);
  }

  /** A record value written field by field reads back as its normal form. */
  lemma RecordRoundTrip(t: OffsetTable, s: SchemaRepr, v: Value)
    requires Good(TypeRepr.Schema(s)) && OffsetsFor(s.fields) == Some(t)
    requires BuildRecord(t, s, v).Some? && FieldsWritable(s.fields, RecordValues(s, v).value)
    ensures Norm(TypeRepr.Schema(s), v).Some?
    ensures RecordAt(BuildRecord(t, s, v).value, 0, s) == Ok(Norm(TypeRepr.Schema(s), v).value)
  {
    hide Good, OffsetsFor, BuildRecord, FieldsWritable, Norm, Written;
    BuiltWritten(t, s, v);
    BuilderReads(BuildRecord(t, s, v).value, s, t, RecordValues(s, v).value);
  }

  lemma BuiltRecordVerifies(t: OffsetTable, s: SchemaRepr, v: Value)
    requires Good(TypeRepr.Schema(s)) && OffsetsFor(s.fields) == Some(t) && FieldsDepth(s.fields) < MAX_DEPTH
    requires BuildRecord(t, s, v).Some? && FieldsWritable(s.fields, RecordValues(s, v).value)
    ensures var b := BuildRecord(t, s, v).value; VerifyRecord(b, s.fields, t, 0, Single(Region(0, |b|)))
  {
    hide Good, OffsetsFor, BuildRecord, FieldsWritable, Norm, Written, VerifyRecord;
    BuiltWritten(t, s, v);
    BuilderVerifies(BuildRecord(t, s, v).value, s, t, RecordValues(s, v).value);
  }

  lemma BuiltRecordRebasedOnce(t: OffsetTable, s: SchemaRepr, v: Value, d: nat) returns (o: Obj)
    requires Good(TypeRepr.Schema(s)) && OffsetsFor(s.fields) == Some(t)
    requires BuildRecord(t, s, v).Some? && FieldsWritable(s.fields, RecordValues(s, v).value)
    ensures var b := BuildRecord(t, s, v).value;
      var r := RelocPointers(b, BuildSlots(t.fields, s.fields), 0, d);
      && Owns(b, o) && o.pos == 0 && o.ty == TypeRepr.Schema(s)
      && (r.None? <==> !ValsFit(Move(o, 0, d).parts)) && RebasedOnce(b, r, Visited(o.parts, true), d)
  {
    hide Good, OffsetsFor, BuildRecord, FieldsWritable, Norm, Written, RebasedOnce, Owns;
    BuiltWritten(t, s, v);
    o := BuilderRebasedOnce(BuildRecord(t, s, v).value, s, t, RecordValues(s, v).value, d);
  }

  lemma ArenaRoundTrip(t: OffsetTable, s: SchemaRepr, v: Value, base: nat)
    requires Good(TypeRepr.Schema(s)) && OffsetsFor(s.fields) == Some(t)
    requires BuildRecord(t, s, v).Some? && Writable(TypeRepr.Schema(s), v)
    requires Aligned(base, FieldsGraphAlign(s.fields)) && base + |BuildRecord(t, s, v).value| < U32_LIMIT
    ensures Norm(TypeRepr.Schema(s), v) == Norm(TypeRepr.Schema(s), Assemble(s, RecordValues(s, v).value))
    ensures var m := Finished(BuildRecord(t, s, v).value, s.fields, t, base);
      m.Some? && InEveryArena(m.value, base, s, t, RecordValues(s, v).value)
  {
    hide Good, OffsetsFor, BuildRecord, FieldsWritable, Norm, Written, InEveryArena, Finished;
    BuiltRebasable(t, s, v);
    BuiltWritten(t, s, v);
    BuilderFinished(BuildRecord(t, s, v).value, s, t, RecordValues(s, v).value, base);
  }

  lemma BuiltRebasable(t: OffsetTable, s: SchemaRepr, v: Value)
    requires Writable(TypeRepr.Schema(s), v) && BuildRecord(t, s, v).Some?
    ensures RecordValues(s, v).Some?
    ensures FieldsWritable(s.fields, RecordValues(s, v).value) && FieldsRebasable(s.fields, RecordValues(s, v).value)
  {
  }

  // ----- when every value survives -----

  /** Outside lists nested three or more deep over an inline scalar, every value survives a paste. */
  lemma {:induction false} CoveredRebasable(ty: TypeRepr, v: Value)
    requires Covered(ty)
    ensures RebasableValue(ty, v)
    decreases Depth(ty), 1
  {
    match ty
    case List(e) => if v.VList? && !ScalarNest(e) { CoveredItems(e, v.items); }
    case Schema(s) =>
      var raw := RecordValues(s, v);
      if raw.Some? { CoveredFields(s.fields, raw.value); }
    case Option(_) => CoveredChoice(ty, v);
    case Result(_, _) => CoveredChoice(ty, v);
    case Enum(_, _) => CoveredChoice(ty, v);
    case _ =>
  }

  lemma {:induction false} CoveredChoice(ty: TypeRepr, v: Value)
    requires Covered(ty) && ty.Variant?()
    ensures ChoiceRebasable(ty, v)
    decreases Depth(ty), 0
  {
    var c := VariantPayloadFor(ty, v);
    if c.Some? && c.value.Carry? {
      if ty.Enum? {
        var ev := FindVariantByName(ty.variants, v.brand.value).value;
        VariantCovered(ty.variants, ev);
      }
      CoveredRebasable(c.value.ty, c.value.value);
    }
  }

  lemma {:induction false} CoveredItems(e: TypeRepr, items: seq<Value>)
    requires Covered(e)
    ensures AllRebasable(e, items)
    decreases Depth(e), 2, |items|
  {
    if items != [] {
      CoveredRebasable(e, items[0]);
      CoveredItems(e, items[1..]);
    }
  }

  lemma {:induction false} CoveredFields(fs: seq<Field>, raw: seq<Value>)
    requires FieldsCovered(fs) && |raw| == |fs|
    ensures FieldsRebasable(fs, raw)
    decreases FieldsDepth(fs), 2, |fs|
  {
    if fs != [] {
      CoveredRebasable(fs[0].ty, raw[0]);
      CoveredFields(fs[1..], raw[1..]);
    }
  }

  /** Every string of a value is shorter than 2^32 bytes. */
  predicate ShortStrings(v: Value) {
    match v
    case VString(s) => |s| < U32_LIMIT
    case VList(items) => forall i :: 0 <= i < |items| ==> ShortStrings(items[i])
    case VTuple(elems) => forall i :: 0 <= i < |elems| ==> ShortStrings(elems[i])
    case VDict(m, _, _) => forall k :: k in m ==> ShortStrings(m[k])
    case _ => true
  }

  /** Outside the same lists, every value of short strings is one the writer keeps. */
  lemma {:induction false} CoveredWritable(ty: TypeRepr, v: Value)
    requires Covered(ty) && ShortStrings(v)
    ensures Writable(ty, v)
    decreases Depth(ty), 1
  {
    match ty
    case List(e) => if v.VList? { ItemsWritable(e, v.items); }
    case Schema(s) =>
      var raw := RecordValues(s, v);
      if raw.Some? {
        CoveredFields(s.fields, raw.value);
        if !s.isTuple { ShortFields(s.fields, v.m); }
        FieldsKept(s.fields, raw.value);
      }
    case Option(_) => ChoiceKept(ty, v);
    case Result(_, _) => ChoiceKept(ty, v);
    case Enum(_, _) => ChoiceKept(ty, v);
    case _ =>
  }

  lemma {:induction false} ChoiceKept(ty: TypeRepr, v: Value)
    requires Covered(ty) && ty.Variant?() && ShortStrings(v)
    ensures ChoiceWritable(ty, v)
    decreases Depth(ty), 0
  {
    var c := VariantPayloadFor(ty, v);
    if c.Some? && c.value.Carry? {
      if ty.Enum? { VariantCovered(ty.variants, FindVariantByName(ty.variants, v.brand.value).value); }
      CoveredWritable(c.value.ty, c.value.value);
    }
  }

  lemma {:induction false} ItemsWritable(e: TypeRepr, items: seq<Value>)
    requires Covered(e) && forall i :: 0 <= i < |items| ==> ShortStrings(items[i])
    ensures AllWritable(e, items)
    decreases Depth(e), 2, |items|
  {
    if items != [] {
      CoveredWritable(e, items[0]);
      ItemsWritable(e, items[1..]);
    }
  }

  lemma {:induction false} FieldsKept(fs: seq<Field>, raw: seq<Value>)
    requires FieldsCovered(fs) && |raw| == |fs| && forall i :: 0 <= i < |raw| ==> ShortStrings(raw[i])
    ensures FieldsWritable(fs, raw)
    decreases FieldsDepth(fs), 2, |fs|
  {
    if fs != [] {
      CoveredWritable(fs[0].ty, raw[0]);
      FieldsKept(fs[1..], raw[1..]);
    }
  }

  lemma {:induction false} ShortFields(fs: seq<Field>, m: map<string, Value>)
    requires FieldValues(fs, m).Some? && forall k :: k in m ==> ShortStrings(m[k])
    ensures forall i :: 0 <= i < |fs| ==> ShortStrings(FieldValues(fs, m).value[i])
    decreases |fs|
  {
    if fs != [] { ShortFields(fs[1..], m); }
  }
}
