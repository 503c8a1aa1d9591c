/** When a verified arena is returned: the object decoder reads whatever the generic reader reads, so a list
    or an object is refused only for its shape or for a string that is not UTF-8. */
module InPlaceTotal {
  import opened Bytes
  import opened Wrappers
  import opened Schemas
  import opened Layout
  import opened LayoutFacts
  import opened Reader
  import opened Verifier
  import opened VerifierFacts
  import opened InPlace

  // ----- the object decoder on verified bytes -----

  lemma {:induction false} ObjectFieldReads(b: seq<byte>, slot: nat, ty: TypeRepr, bounds: Bounds, depth: nat)
    requires Covers(b, bounds) && WellNamed(ty) && FieldVerified(b, ty, slot, bounds, depth) && FieldAt(b, slot, ty).Ok?
    ensures ObjectFieldAt(b, slot, ty).Ok?
    decreases Depth(ty), 4
  {
    hide OffsetsFor, LeVal, ListKind;
    match ty
    case Schema(s) =>
      var p := U32At(b, slot);
      assert FieldAt(b, slot, ty) == TargetAt(b, p, ty);
      assert TargetAt(b, p, ty) == RecordAt(b, p, s);
      RecordReads(b, p, s, OffsetsFor(s.fields).value, bounds, depth + 1);
    case List(e) =>
      if e.Schema? {
        assert Depth(e) == 1 + FieldsDepth(e.schema.fields);
        SchemaNamed(e.schema, ty);
        var header := U32At(b, slot);
        assert FieldAt(b, slot, ty) == TargetAt(b, header, ty);
        assert VerifyList(b, e, ListKind(ty), header, bounds, depth);
        hide VerifyList, ListAt, ObjectEntries, WellNamed;
        ListReads(b, header, e.schema, bounds, depth);
      }
    case _ =>
  }

  lemma {:induction false} ListReads(b: seq<byte>, header: nat, s: SchemaRepr, bounds: Bounds, depth: nat)
    requires Covers(b, bounds) && RecordWellNamed(s.fields)
    requires VerifyList(b, TypeRepr.Schema(s), ListKind(TypeRepr.List(TypeRepr.Schema(s))), header, bounds, depth)
    requires ListAt(b, header, TypeRepr.Schema(s)).Ok?
    ensures OffsetsFor(s.fields).Some? && ObjectEntries(b, header, OffsetsFor(s.fields).value, s).Ok?
    decreases 1 + FieldsDepth(s.fields), 9
  {
    hide OffsetsFor, LeVal, ListKind, EntriesAt, ObjectEntriesAt, VerifyEntries, RecordWellNamed;
    ListDecided(TypeRepr.Schema(s));
    AllowedInRange(b, bounds, header, 4);
    EntriesRead(b, header + 4, U32At(b, header), s, OffsetsFor(s.fields).value, bounds, depth);
  }

  lemma {:induction false} RecordReads(
    b: seq<byte>, p: nat, s: SchemaRepr, t: OffsetTable, bounds: Bounds, depth: nat)
    requires Covers(b, bounds) && RecordWellNamed(s.fields) && OffsetsFor(s.fields) == Some(t)
    requires VerifyRecordInner(b, s.fields, t, p, bounds, depth) && SlotsAt(b, p, t, s.fields).Ok?
    ensures p + t.rootSize <= |b| && ObjectSlotsAt(b, p, t, s.fields).Ok?
    decreases FieldsDepth(s.fields), 6
  {
    hide OffsetsFor, SlotVerified, VerifySlots, SlotsAt, ObjectSlotsAt, RecordWellNamed;
    AllowedInRange(b, bounds, p, t.rootSize);
    VerifySlotsIff(b, s.fields, t.fields, p, bounds, depth);
    assert s.fields[0..] == s.fields;
    SlotsRead(b, p, t, s.fields, bounds, depth, 0);
  }

  lemma {:induction false} SlotsRead(
    b: seq<byte>, base: nat, t: OffsetTable, fs: seq<Field>, bounds: Bounds, depth: nat, k: nat)
    requires Covers(b, bounds) && RecordWellNamed(fs) && OffsetsFor(fs) == Some(t) && k <= |fs|
    requires |t.fields| == |fs|
    requires forall i :: 0 <= i < |fs| ==> SlotVerified(b, fs, t.fields[i], base, bounds, depth)
    requires SlotsAt(b, base, t, fs[k..]).Ok?
    ensures ObjectSlotsAt(b, base, t, fs[k..]).Ok?
    decreases FieldsDepth(fs), 5, |fs| - k
  {
    hide OffsetsFor, FindOffset, FieldAt, ObjectFieldAt, SlotVerified, WellNamed, DistinctNames;
    if k < |fs| {
      assert fs[k..][0] == fs[k] && fs[k..][1..] == fs[k + 1..];
      SlotFacts(fs, t, k);
      FieldWellNamed(fs, k);
      FieldDepth(fs, k);
      VerifiedField(b, fs, t, k, base, bounds, depth);
      ObjectFieldReads(b, base + t.fields[k].offset, fs[k].ty, bounds, depth);
      SlotsRead(b, base, t, fs, bounds, depth, k + 1);
    }
  }

  lemma VerifiedField(b: seq<byte>, fs: seq<Field>, t: OffsetTable, k: nat, base: nat, bounds: Bounds, depth: nat)
    requires Covers(b, bounds) && RecordWellNamed(fs) && OffsetsFor(fs) == Some(t) && k < |fs| == |t.fields|
    requires SlotVerified(b, fs, t.fields[k], base, bounds, depth)
    ensures FieldVerified(b, fs[k].ty, base + t.fields[k].offset, bounds, depth)
  {
    hide OffsetsFor, FindField, VerifyTarget, ListKind, LeVal;
    SlotFacts(fs, t, k);
  }

  lemma {:induction false} EntriesRead(
    b: seq<byte>, off: nat, n: nat, s: SchemaRepr, t: OffsetTable, bounds: Bounds, depth: nat)
    requires Covers(b, bounds) && RecordWellNamed(s.fields) && OffsetsFor(s.fields) == Some(t)
    requires VerifyEntries(b, TypeRepr.Schema(s), off, n, bounds, depth) && EntriesAt(b, off, n, TypeRepr.Schema(s)).Ok?
    ensures ObjectEntriesAt(b, off, n, t, s).Ok?
    decreases 1 + FieldsDepth(s.fields), 8, n
  {
    hide OffsetsFor, LeVal, ObjectSlotsAt, VerifyRecordInner, RecordWellNamed;
    if n > 0 {
      EntryRead(b, off, n, s, t, bounds, depth);
      EntriesRead(b, off + 4, n - 1, s, t, bounds, depth);
    }
  }

  lemma {:induction false} EntryRead(
    b: seq<byte>, off: nat, n: nat, s: SchemaRepr, t: OffsetTable, bounds: Bounds, depth: nat)
    requires Covers(b, bounds) && RecordWellNamed(s.fields) && OffsetsFor(s.fields) == Some(t) && n > 0
    requires VerifyEntries(b, TypeRepr.Schema(s), off, n, bounds, depth) && EntriesAt(b, off, n, TypeRepr.Schema(s)).Ok?
    ensures off + 4 <= |b| && ObjectRecordAt(b, U32At(b, off), t, s).Ok?
    decreases 1 + FieldsDepth(s.fields), 7
  {
    hide OffsetsFor, LeVal, ObjectSlotsAt, SlotsAt, VerifyRecordInner, RecordWellNamed;
    AllowedInRange(b, bounds, off, 4);
    var p, e := U32At(b, off), TypeRepr.Schema(s);
    assert ElementAt(b, p, e).Ok?;
    assert ElementAt(b, p, e) == RecordAt(b, p, s);
    assert VerifyRecordInner(b, s.fields, t, p, bounds, depth + 2);
    RecordReads(b, p, s, t, bounds, depth + 2);
  }

  // ----- the object return -----

  /** A verified object is returned exactly when the generic reader reads it, that is unless some string of
      it is not UTF-8. */
  lemma ObjectReturned(arena: seq<byte>, base: nat, regions: ArenaRegions, t: OffsetTable, s: SchemaRepr)
    requires OffsetsFor(s.fields) == Some(t) && RecordWellNamed(s.fields)
    ensures DecodeObjectReturn(arena, base, regions, t, s, false).Some? <==>
      && regions.scratchBase <= regions.arenaSize
      && VerifyRecord(arena, s.fields, t, base, Multi(regions.Regions().value))
      && RecordAt(arena, base, s) != Err(InvalidUtf8)
  {
    hide OffsetsFor, VerifyRecordInner, ObjectSlotsAt, SlotsAt, RecordWellNamed;
    if regions.Regions().Some? && VerifyRecord(arena, s.fields, t, base, Multi(regions.Regions().value)) {
      VerifierSound(arena, s, base, Multi(regions.Regions().value));
      if SlotsAt(arena, base, t, s.fields).Ok? {
        RecordReads(arena, base, s, t, Multi(regions.Regions().value), 0);
      } else if ObjectSlotsAt(arena, base, t, s.fields).Ok? {
        SlotsExact(arena, base, t, s.fields);
      }
    }
  }

  /** A verified wrapper is returned exactly when its one value has no string that is not UTF-8. */
  lemma WrapperReturned(arena: seq<byte>, base: nat, regions: ArenaRegions, t: OffsetTable, s: SchemaRepr)
    requires OffsetsFor(s.fields) == Some(t) && RecordWellNamed(s.fields) && s.fields != [] && t.fields != []
    ensures DecodeObjectReturn(arena, base, regions, t, s, true).Some? <==>
      && regions.scratchBase <= regions.arenaSize
      && VerifyRecord(arena, s.fields, t, base, Multi(regions.Regions().value))
      && FieldAt(arena, base + t.fields[0].offset, s.fields[0].ty) != Err(InvalidUtf8)
  {
    hide OffsetsFor, VerifyRecordInner, ObjectFieldAt, FieldAt, FindOffset, RecordWellNamed;
    if regions.Regions().Some? && VerifyRecord(arena, s.fields, t, base, Multi(regions.Regions().value)) {
      var fs := s.fields[..1];
      assert fs[0] == s.fields[0] && fs[1..] == [];
      FirstFieldReads(arena, base, t, s.fields, Multi(regions.Regions().value));
      assert ObjectSlotsAt(arena, base, t, fs[1..]).Ok?;
    }
  }

  lemma FirstFieldReads(b: seq<byte>, base: nat, t: OffsetTable, fs: seq<Field>, bounds: Bounds)
    requires OffsetsFor(fs) == Some(t) && RecordWellNamed(fs) && fs != [] && VerifyRecord(b, fs, t, base, bounds)
    ensures |t.fields| == |fs| && base + t.rootSize <= |b|
    ensures FindOffset(t.fields, fs[0].name) == Some(t.fields[0])
    ensures var slot := base + t.fields[0].offset;
      ObjectFieldAt(b, slot, fs[0].ty).Ok? <==> FieldAt(b, slot, fs[0].ty) != Err(InvalidUtf8)
  {
    hide OffsetsFor, SlotVerified, VerifySlots, WellNamed, DistinctNames, FieldAt, ObjectFieldAt, FieldVerified,
      FindOffset;
    AllowedInRange(b, bounds, base, t.rootSize);
    LayoutCorrect(fs);
    VerifySlotsIff(b, fs, t.fields, base, bounds, 0);
    SlotFacts(fs, t, 0);
    FieldWellNamed(fs, 0);
    VerifiedField(b, fs, t, 0, base, bounds, 0);
    var slot := base + t.fields[0].offset;
    ValidPair(b, b, bounds, bounds);
    FieldCertified(Pair(b, bounds, b, bounds), fs[0].ty, slot, 0);
    if FieldAt(b, slot, fs[0].ty).Ok? { ObjectFieldReads(b, slot, fs[0].ty, bounds, 0); }
    if ObjectFieldAt(b, slot, fs[0].ty).Ok? { ObjectFieldExact(b, slot, fs[0].ty); }
  }

  // ----- the list return -----

  /** The element shapes a returned list can have: anything behind a pointer, and of a dictionary record only
      fields that are not themselves records. */
  predicate Returnable(e: TypeRepr) {
    e.Pointer?() && (e.Schema? && !e.schema.isTuple ==> NoRecords(e.schema.fields))
  }

  predicate NoRecords(fs: seq<Field>) {
    forall i :: 0 <= i < |fs| ==> !fs[i].ty.Schema?
  }

  lemma {:induction false} ElementSlotsRead(b: seq<byte>, base: nat, t: OffsetTable, fs: seq<Field>)
    ensures ElementSlotsAt(b, base, t, fs).Ok? <==> SlotsAt(b, base, t, fs).Ok? && NoRecords(fs)
    decreases |fs|
  {
    hide FindOffset;
    if fs != [] {
      ElementSlotsRead(b, base, t, fs[1..]);
      assert forall i :: 0 < i < |fs| ==> fs[i] == fs[1..][i - 1];
      assert NoRecords(fs) <==> !fs[0].ty.Schema? && NoRecords(fs[1..]);
      if FindOffset(t.fields, fs[0].name).Some? {
        ClosureUnread(b, base + FindOffset(t.fields, fs[0].name).value.offset, fs[0].ty);
      }
    }
  }

  lemma ClosureUnread(b: seq<byte>, slot: nat, ty: TypeRepr)
    ensures ElementFieldAt(b, slot, ty).Ok? <==> FieldAt(b, slot, ty).Ok? && !ty.Schema?
  {
    hide OffsetsFor, LeVal, TargetAt;
  }

  /** An empty list is returned whatever its records; otherwise every record must be returnable. */
  lemma {:induction false} RecordsReturned(
    b: seq<byte>, off: nat, n: nat, t: OffsetTable, s: SchemaRepr, bounds: Bounds, depth: nat)
    requires Covers(b, bounds) && RecordWellNamed(s.fields) && OffsetsFor(s.fields) == Some(t)
    requires VerifyEntries(b, TypeRepr.Schema(s), off, n, bounds, depth)
    ensures ReturnedRecordsAt(b, off, n, t, s).Ok? <==>
      EntriesAt(b, off, n, TypeRepr.Schema(s)).Ok? && (n > 0 ==> Returnable(TypeRepr.Schema(s)))
    decreases n
  {
    hide OffsetsFor, LeVal, ReturnedRecordAt, ElementAt, VerifyTarget, RecordWellNamed, NoRecords;
    if n > 0 {
      AllowedInRange(b, bounds, off, 4);
      RecordReturned(b, U32At(b, off), t, s, bounds, depth + 1);
      RecordsReturned(b, off + 4, n - 1, t, s, bounds, depth);
    }
  }

  lemma RecordReturned(b: seq<byte>, p: nat, t: OffsetTable, s: SchemaRepr, bounds: Bounds, depth: nat)
    requires Covers(b, bounds) && RecordWellNamed(s.fields) && OffsetsFor(s.fields) == Some(t)
    requires VerifyTarget(b, TypeRepr.Schema(s), ListKind(TypeRepr.Schema(s)), p, bounds, depth)
    ensures ReturnedRecordAt(b, p, t, s).Ok? <==>
      ElementAt(b, p, TypeRepr.Schema(s)).Ok? && Returnable(TypeRepr.Schema(s))
  {
    hide OffsetsFor, ObjectSlotsAt, ElementSlotsAt, SlotsAt, VerifyRecordInner, RecordWellNamed, NoRecords;
    assert VerifyRecordInner(b, s.fields, t, p, bounds, depth + 1);
    AllowedRecord(b, s.fields, t, p, bounds, depth + 1);
    assert ElementAt(b, p, TypeRepr.Schema(s)) == RecordAt(b, p, s);
    if s.isTuple {
      if SlotsAt(b, p, t, s.fields).Ok? { RecordReads(b, p, s, t, bounds, depth + 1); }
      if ObjectSlotsAt(b, p, t, s.fields).Ok? { SlotsExact(b, p, t, s.fields); }
    } else {
      ElementSlotsRead(b, p, t, s.fields);
    }
  }

  lemma SlotsExact(b: seq<byte>, p: nat, t: OffsetTable, fs: seq<Field>)
    requires RecordWellNamed(fs) && ObjectSlotsAt(b, p, t, fs).Ok?
    ensures SlotsAt(b, p, t, fs).Ok?
  {
    ObjectSlotsExact(b, p, t, fs);
  }

  lemma AllowedRecord(b: seq<byte>, fs: seq<Field>, t: OffsetTable, p: nat, bounds: Bounds, depth: nat)
    requires Covers(b, bounds) && VerifyRecordInner(b, fs, t, p, bounds, depth)
    ensures p + t.rootSize <= |b|
  {
    AllowedInRange(b, bounds, p, t.rootSize);
  }

  /** A verified list is returned exactly when its elements have a shape the decoder takes, or there are
      none, and no string of it is invalid. */
  lemma ListReturned(arena: seq<byte>, regions: ArenaRegions, root: nat, ty: TypeRepr, layout: OffsetTable)
    requires WellNamed(ty) && ty.List? && regions.arenaSize <= |arena| && regions.scratchBase <= regions.arenaSize
    requires root < regions.arenaSize && layout.rootSize <= regions.arenaSize
    requires (if layout.fields == [] then None else layout.fields[0].listElement) == ListKind(ty)
    requires VerifyValueAt(arena[..regions.arenaSize], ty, ListKind(ty), root, Multi(regions.Regions().value))
    ensures var a, e := arena[..regions.arenaSize], ty.element;
      DecodeInplaceReturn(arena, regions, root, ty, layout).Some? <==>
        && TargetAt(a, root, ty) != Err(InvalidUtf8) && e.Pointer?()
        && (root + 4 <= |a| && U32At(a, root) > 0 ==> Returnable(e))
  {
    hide OffsetsFor, LeVal, ListKind, ReturnedRecordsAt, EntriesAt, VerifyEntries, NoRecords, WellNamed;
    var a, e, bounds := arena[..regions.arenaSize], ty.element, Multi(regions.Regions().value);
    ValueVerifierSound(a, ty, root, bounds);
    assert VerifyList(a, e, ListKind(ty), root, bounds, 0);
    ListDecided(e);
    AllowedInRange(a, bounds, root, 4);
    if e.Schema? {
      var s := e.schema;
      SchemaNamed(s, ty);
      RecordsReturned(a, root + 4, U32At(a, root), OffsetsFor(s.fields).value, s, bounds, 0);
    }
  }

  lemma SchemaNamed(s: SchemaRepr, ty: TypeRepr)
    requires ty == TypeRepr.List(TypeRepr.Schema(s)) && WellNamed(ty)
    ensures RecordWellNamed(s.fields)
  {
    assert WellNamed(TypeRepr.Schema(s));
  }
}
