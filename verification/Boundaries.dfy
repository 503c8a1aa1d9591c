/** Where the protocol loses a value, and exactly when. */
module Boundaries {
  import opened Bytes
  import opened Wrappers
  import opened Schemas
  import opened Layout
  import opened LayoutFacts
  import opened Values
  import opened Reader
  import opened Graph
  import opened Moving
  import opened Relocation
  import opened RelocationFacts
  import opened Paste
  import opened Writer
  import opened WriterFacts
  import opened RecordFacts
  import opened WriterRuns
  import opened WriterTotal
  import opened RoundTrip

  /** A string slot reads back what was written to it exactly when the length fits 32 bits: the length
      prefix is truncated, not checked. */
  lemma StringSlotExact(b: seq<byte>, slot: nat, s: Utf8)
    requires slot + 4 <= |b| && WriteSlot(b, slot, TypeRepr.String, VString(s)).ok
    ensures FieldAt(WriteSlot(b, slot, TypeRepr.String, VString(s)).bytes, slot, TypeRepr.String) == Ok(VString(s))
      <==> |s| < U32_LIMIT
  {
    hide Le, LeVal, ValidUtf8;
    var p := PadTo(b, 4);
    var mid := p + Le(|s|, 4) + s;
    var b' := WriteSlot(b, slot, TypeRepr.String, VString(s)).bytes;
    assert b' == PutU32(mid, slot, |p|);
    assert b'[slot..slot + 4] == Le(|p|, 4);
    LeRoundTrip4(|p|);
    assert b'[|p|..|p| + 4] == Le(|s|, 4);
    LeRoundTrip4(|s|);
    assert SlotPointer(b', slot) == Ok(|p|);
    assert SlotPointer(b', |p|) == Ok(|s| % U32_LIMIT);
    assert b'[|p| + 4..] == s;
    if |s| < U32_LIMIT {
      assert b'[|p| + 4..|p| + 4 + |s|] == s;
    }
  }

  /** Rebasing a fully written builder past its own length keeps its value, whatever surrounds it,
      exactly when no list it holds is nested three or more deep over an inline scalar with a non-empty row. */
  lemma BuilderArenaExact(b: seq<byte>, s: SchemaRepr, t: OffsetTable, raw: seq<Value>, d: nat)
    requires Written(b, s, t, raw) && |raw| == |s.fields|
    requires Aligned(d, 8) && 0 < d && |b| <= d && d + |b| < U32_LIMIT
    ensures var m := Finished(b, s.fields, t, d);
      && m.Some?
      && (FieldsRebasable(s.fields, raw) <==>
            forall prefix: seq<byte> | |prefix| == d :: RecordAt(prefix + m.value, d, s) == RecordAt(b, 0, s))
  {
    hide Written, OffsetsFor, RelocPointers, RelocTarget, Norm, RebasableValue, FieldsRebasable, Decode, Shape,
      RecordAt;
    var c := WrittenObj(b, s, t, raw);
    RecordByType(b, 0, s, d);
    RelocationExact(b, c, d);
    var m := Finished(b, s.fields, t, d).value;
    assert TargetAt(b, 0, c.ty) == RecordAt(b, 0, s);
    assert forall prefix: seq<byte> | |prefix| == d :: TargetAt(prefix + m, d, c.ty) == RecordAt(prefix + m, d, s);
  }

  /** The same for a paste under a parent: past its own length, a child keeps its value behind every parent
      of that length exactly when the condition holds. */
  lemma PasteExact(child: seq<byte>, s: SchemaRepr, t: OffsetTable, raw: seq<Value>, align: Alignment, d: nat)
    requires Written(child, s, t, raw) && |raw| == |s.fields|
    requires Aligned(d, 8) && 0 < d && |child| <= d && d + |child| < U32_LIMIT
    ensures FieldsRebasable(s.fields, raw) <==>
      forall parent: seq<byte> | |parent| == d :: PastedSame(parent, align, child, s, t)
  {
    hide Written, OffsetsFor, RelocPointers, FieldsRebasable, RecordAt, BuildSlots;
    BuilderArenaExact(child, s, t, raw, d);
    AlignDivides(align, 8, d);
    var m := Finished(child, s.fields, t, d).value;
    forall parent: seq<byte> | |parent| == d
      ensures PastedSame(parent, align, child, s, t) <==> RecordAt(parent + m, d, s) == RecordAt(child, 0, s)
    {
      AlignUpShift(0, d, align);
      assert PadTo(parent, align) == parent;
    }
  }

  /** Pasted behind `parent`, the child reads as it did on its own. */
  predicate PastedSame(parent: seq<byte>, align: Alignment, child: seq<byte>, s: SchemaRepr, t: OffsetTable) {
    var r := PasteAt(parent, align, t, s.fields, child);
    r.Done? && RecordAt(r.bytes, r.off, s) == RecordAt(child, 0, s)
  }

  lemma ArenaExact(t: OffsetTable, s: SchemaRepr, v: Value, d: nat)
    requires Good(TypeRepr.Schema(s)) && OffsetsFor(s.fields) == Some(t)
    requires BuildRecord(t, s, v).Some? && FieldsWritable(s.fields, RecordValues(s, v).value)
    requires Aligned(d, 8) && 0 < d && |BuildRecord(t, s, v).value| <= d && d + |BuildRecord(t, s, v).value| < U32_LIMIT
    ensures var b := BuildRecord(t, s, v).value;
      var m := Finished(b, s.fields, t, d);
      && m.Some?
      && (RebasableValue(TypeRepr.Schema(s), v) <==>
            forall prefix: seq<byte> | |prefix| == d :: RecordAt(prefix + m.value, d, s) == RecordAt(b, 0, s))
  {
    hide OffsetsFor, BuildRecord, FieldsWritable, Norm, FieldsRebasable, RecordAt, Written, Finished;
    BuiltWritten(t, s, v);
    BuilderArenaExact(BuildRecord(t, s, v).value, s, t, RecordValues(s, v).value, d);
  }

  /** The record is written and reads back, but some arena it is rebased into reads differently. */
  ghost predicate LostWhenRebased(t: OffsetTable, s: SchemaRepr, v: Value, d: nat) {
    var b := BuildRecord(t, s, v);
    && b.Some? && Norm(TypeRepr.Schema(s), v).Some?
    && RecordAt(b.value, 0, s) == Ok(Norm(TypeRepr.Schema(s), v).value)
    && var m := Finished(b.value, s.fields, t, d);
    && m.Some?
    && exists prefix: seq<byte> | |prefix| == d :: RecordAt(prefix + m.value, d, s) != RecordAt(b.value, 0, s)
  }

  const ROW := TypeRepr.List(TypeRepr.Int)
  const CUBE := TypeRepr.List(TypeRepr.List(ROW))
  const CUBE_SCHEMA := SchemaRepr("Cube", [Field("rows", CUBE)], true)
  const CUBE_VALUE := VTuple([VList([VList([VList([VInt(7)])])])])

  lemma SingleFieldGood(f: Field)
    requires Good(f.ty)
    ensures GoodRecord([f])
  {
    hide WellNamed, Supported;
    var fs := [f];
    assert fs[1..] == [];
    assert FieldsWellNamed(fs[1..]) && FieldsSupported(fs[1..]);
  }

  lemma CubeLayout()
    ensures Good(TypeRepr.Schema(CUBE_SCHEMA)) && GoodRecord(CUBE_SCHEMA.fields)
    ensures OffsetsFor(CUBE_SCHEMA.fields).Some? && OffsetsFor(CUBE_SCHEMA.fields).value.rootSize <= 24
  {
    var fs := CUBE_SCHEMA.fields;
    assert Supported(ROW) && WellNamed(ROW) && WellNamed(TypeRepr.List(ROW)) && WellNamed(CUBE);
    SingleFieldGood(fs[0]);
    assert fs == [fs[0]];
    GoodRecordLayout(fs);
    hide OffsetsFor, FieldDecision, GoodRecord;
    var t := OffsetsFor(fs).value;
    LayoutCorrect(fs);
    SlotRoom(fs, t, 0);
    assert SlotPlaced(fs, t.fields, 0, 0);
  }

  lemma CubeConforms()
    ensures Norm(TypeRepr.Schema(CUBE_SCHEMA), CUBE_VALUE).Some?
    ensures RecordValues(CUBE_SCHEMA, CUBE_VALUE) == Some(CUBE_VALUE.elems)
    ensures FieldsWritable(CUBE_SCHEMA.fields, CUBE_VALUE.elems)
    ensures !RebasableValue(TypeRepr.Schema(CUBE_SCHEMA), CUBE_VALUE)
    ensures FieldsSize(CUBE_SCHEMA.fields, CUBE_VALUE.elems) <= 100
  {
    var row := VList([VInt(7)]);
    var plane := VList([row]);
    var cube := VList([plane]);
    var fs, raw := CUBE_SCHEMA.fields, CUBE_VALUE.elems;
    assert fs[0].ty == CUBE && fs[1..] == [] && raw == [cube] && raw[1..] == [];
    CubeItems(row, plane, cube);
    hide Norm, Writable, RebasableValue, Size;
    assert NormFields(fs, raw).Some?;
    assert FieldsWritable(fs, raw) && !FieldsRebasable(fs, raw) && FieldsSize(fs, raw) == 66;
    CubeRecord();
  }

  lemma CubeItems(row: Value, plane: Value, cube: Value)
    requires row == VList([VInt(7)]) && plane == VList([row]) && cube == VList([plane])
    ensures Norm(CUBE, cube).Some? && Writable(CUBE, cube) && !RebasableValue(CUBE, cube) && Size(CUBE, cube) == 66
  {
    SingleItem(TypeRepr.Int, VInt(7));
    SingleItem(ROW, row);
    SingleItem(TypeRepr.List(ROW), plane);
    assert Size(ROW, row) == 22 && Size(TypeRepr.List(ROW), plane) == 44;
    assert cube.items[0] != VList([]);
    assert ScalarNest(TypeRepr.List(ROW));
  }

  lemma SingleItem(e: TypeRepr, v: Value)
    ensures NormItems(e, [v]).Some? <==> Norm(e, v).Some?
    ensures AllWritable(e, [v]) <==> Writable(e, v)
    ensures ItemsSize(e, [v]) == Size(e, v)
  {
    hide Norm, Writable, Size;
    assert [v][1..] == [];
  }

  lemma CubeRecord()
    requires NormFields(CUBE_SCHEMA.fields, CUBE_VALUE.elems).Some?
    requires !FieldsRebasable(CUBE_SCHEMA.fields, CUBE_VALUE.elems)
    ensures RecordValues(CUBE_SCHEMA, CUBE_VALUE) == Some(CUBE_VALUE.elems)
    ensures Norm(TypeRepr.Schema(CUBE_SCHEMA), CUBE_VALUE).Some?
    ensures !RebasableValue(TypeRepr.Schema(CUBE_SCHEMA), CUBE_VALUE)
  {
    hide NormFields, FieldsRebasable, Assemble;
  }

  /** A list three deep over `Int` with one element is written and read back, and lost when rebased. */
  lemma ThreeDeepListLost(d: nat)
    requires Aligned(d, 8) && 200 <= d < U32_LIMIT - 200
    ensures OffsetsFor(CUBE_SCHEMA.fields).Some?
    ensures LostWhenRebased(OffsetsFor(CUBE_SCHEMA.fields).value, CUBE_SCHEMA, CUBE_VALUE, d)
  {
    CubeLayout();
    CubeConforms();
    hide OffsetsFor, BuildRecord, FieldsWritable, Norm, RebasableValue, FieldsSize, Finished, Good, GoodRecord,
      RecordAt;
    var t := OffsetsFor(CUBE_SCHEMA.fields).value;
    ChildFits(t, CUBE_SCHEMA, CUBE_VALUE);
    RecordRoundTrip(t, CUBE_SCHEMA, CUBE_VALUE);
    ArenaExact(t, CUBE_SCHEMA, CUBE_VALUE, d);
  }
}
