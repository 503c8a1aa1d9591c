/** Committing detached records to a builder: a sub-record under its field, an entry of a list whose
    header does not exist yet, and that header. Each keeps what every field and every open list holds. */
module Commits {
  import opened Bytes
  import opened Wrappers
  import opened Schemas
  import opened Layout
  import opened LayoutFacts
  import opened Values
  import opened Graph
  import opened GraphFacts
  import opened Moving
  import opened Relocation
  import opened Paste
  import opened Writer
  import opened WriterFrame
  import opened WriterFacts
  import opened ListFacts
  import opened RecordFacts
  import opened WriteSteps
  import opened WriterRuns
  import opened ListWriting

  // ----- what a detached builder stands for -----

  predicate AllGiven(values: seq<Option<Value>>) {
    forall k :: 0 <= k < |values| ==> values[k].Some?
  }

  function Given(values: seq<Option<Value>>): (raw: seq<Value>)
    requires AllGiven(values)
    ensures Complete(values, raw)
  {
    seq(|values|, k requires 0 <= k < |values| => values[k].value)
  }

  /** The record of schema `s` a child stands for once pasted: the child was built for that schema, every
      field holds a value, and the values survive the paste. Any other child leaves its place undetermined. */
  function RecordHeld(s: SchemaRepr, fs: seq<Field>, values: seq<Option<Value>>): Option<Value> {
    if fs == s.fields && |values| == |fs| && AllGiven(values) && FieldsRebasable(fs, Given(values))
    then Some(Assemble(s, Given(values)))
    else None
  }

  // ----- sub-records -----

  /** Where a child handed to a field is pasted: its own deep alignment, and the one the field declares. */
  function PasteAlign(fo: FieldOffset, t: OffsetTable, fs: seq<Field>): Alignment {
    MaxAlign(TailAlign(fo), SchemaPasteAlign(t, fs))
  }

  /** The field `name` then holds the child's record. */
  function WithRecord(
    values: seq<Option<Value>>, fs: seq<Field>, name: string, cfs: seq<Field>,
    cvalues: seq<Option<Value>>): seq<Option<Value>>
  {
    var k := FieldIndex(fs, name);
    if k.None? || k.value >= |values| || !fs[k.value].ty.Schema? then values
    else values[k.value := RecordHeld(fs[k.value].ty.schema, cfs, cvalues)]
  }

  /** Pastes a finished child and points the slot of `name` at it. */
  function PasteField(
    b: seq<byte>, fs: seq<Field>, t: OffsetTable, name: string, ct: OffsetTable, cfs: seq<Field>,
    child: seq<byte>): Wrote
  {
    match FieldIndex(fs, name)
    case None => Wrote(false, b)
    case Some(k) =>
      if k >= |t.fields| || !fs[k].ty.Schema? then Wrote(false, b)
      else WritePointer(PasteAt(b, PasteAlign(t.fields[k], ct, cfs), ct, cfs, child), t.fields[k].offset)
  }

  /** The padded end is below 2^32, and so is every pointer of the child rebased to it. */
  predicate RoomFor(b: seq<byte>, align: Alignment, t: OffsetTable, fs: seq<Field>, child: seq<byte>) {
    var at := AlignUp(|b|, align);
    at < U32_LIMIT && RelocPointers(child, BuildSlots(t.fields, fs), 0, at).Some?
  }

  /** A child is committed exactly when its field is declared a record and the paste fits. */
  predicate CommitFits(
    b: seq<byte>, fs: seq<Field>, t: OffsetTable, name: string, ct: OffsetTable, cfs: seq<Field>, child: seq<byte>)
  {
    exists k :: 0 <= k < |fs| && k < |t.fields| && fs[k].name == name && fs[k].ty.Schema? &&
      RoomFor(b, PasteAlign(t.fields[k], ct, cfs), ct, cfs, child)
  }

  lemma CommitIff(
    b: seq<byte>, fs: seq<Field>, t: OffsetTable, name: string, ct: OffsetTable, cfs: seq<Field>, child: seq<byte>)
    requires GoodRecord(fs) && OffsetsFor(fs) == Some(t) && t.rootSize <= |b|
    ensures PasteField(b, fs, t, name, ct, cfs, child).ok <==> CommitFits(b, fs, t, name, ct, cfs, child)
  {
    hide GoodRecord, OffsetsFor, RelocPointers, BuildSlots, PasteAlign, AlignUp;
    assert DistinctNames(fs) by { NamesOf(fs); }
    var at := FieldIndex(fs, name);
    if at.Some? {
      SlotRoom(fs, t, at.value);
      forall k | 0 <= k < |fs| && fs[k].name == name ensures k == at.value {}
    } else {
      forall k | 0 <= k < |fs| ensures fs[k].name != name { NotIndexed(fs, name, k); }
    }
  }

  lemma {:induction false} NotIndexed(fs: seq<Field>, name: string, k: nat)
    requires FieldIndex(fs, name) == None && k < |fs|
    ensures fs[k].name != name
    decreases k
  {
    if k > 0 { NotIndexed(fs[1..], name, k - 1); }
  }

  lemma PasteExtends(b: seq<byte>, align: Alignment, t: OffsetTable, fs: seq<Field>, child: seq<byte>)
    ensures b <= PasteAt(b, align, t, fs, child).bytes
  {
  }

  lemma PasteOffset(b: seq<byte>, align: Alignment, t: OffsetTable, fs: seq<Field>, child: seq<byte>)
    requires PasteAt(b, align, t, fs, child).Done?
    ensures PasteAt(b, align, t, fs, child).off < U32_LIMIT
  {
  }

  lemma PointerTail(b: seq<byte>, r: Appended, slot: nat, t: OffsetTable)
    requires b <= r.bytes && slot + 4 <= t.rootSize
    ensures var w := WritePointer(r, slot);
      && TailKept(b, w.bytes, t)
      && (forall i :: 0 <= i < |b| && !(slot <= i < slot + 4) ==> w.bytes[i] == b[i])
      && (!w.ok ==> b <= w.bytes)
  {
  }

  lemma SubRecordLinked(
    b: seq<byte>, fs: seq<Field>, t: OffsetTable, slots: seq<Option<Part>>, values: seq<Option<Value>>, k: nat,
    child: seq<byte>, ct: OffsetTable, cslots: seq<Option<Part>>, cvalues: seq<Option<Value>>, raw: seq<Value>)
    returns (slots': seq<Option<Part>>)
    requires Holding(b, fs, t, slots, values) && k < |fs| && k < |t.fields| && fs[k].ty.Schema?
    requires var s := fs[k].ty.schema;
      && Holding(child, s.fields, ct, cslots, cvalues) && Complete(cvalues, raw)
      && |raw| == |s.fields| && FieldsRebasable(s.fields, raw)
    requires PasteAt(b, PasteAlign(t.fields[k], ct, fs[k].ty.schema.fields), ct, fs[k].ty.schema.fields, child).Done?
    ensures var r := PasteAt(b, PasteAlign(t.fields[k], ct, fs[k].ty.schema.fields), ct, fs[k].ty.schema.fields, child);
      var w := WritePointer(r, t.fields[k].offset);
      w.ok && Holding(w.bytes, fs, t, slots', values[k := Some(Assemble(fs[k].ty.schema, raw))])
    ensures OnlyNew(slots, slots', t.rootSize, |b|, [])
  {
    hide Holding, OffsetsFor, PasteAt, FieldsRebasable, GoodRecord, TargetDone, OnlyNew;
    var s := fs[k].ty.schema;
    var align := PasteAlign(t.fields[k], ct, s.fields);
    HoldingLayout(child, s.fields, ct, cslots, cvalues);
    var c := ChildRecord(child, s, ct, cslots, cvalues, raw);
    var o := RecordPasted(b, align, s, ct, Assemble(s, raw), child, c);
    var r := PasteAt(b, align, ct, s.fields, child);
    PasteOffset(b, align, ct, s.fields, child);
    slots' := ChildLinked(b, r, fs, t, slots, values, k, Assemble(s, raw), o);
  }

  /** A change of one slot that stores nothing known there. */
  lemma HoldingDropped(
    b: seq<byte>, b': seq<byte>, fs: seq<Field>, t: OffsetTable, slots: seq<Option<Part>>, values: seq<Option<Value>>,
    k: nat)
    requires Holding(b, fs, t, slots, values) && k < |fs| && |b| <= |b'|
    requires var slot := t.fields[k].offset;
      forall i :: 0 <= i < |b| && !(slot <= i < slot + SlotWidth(fs[k].ty)) ==> b'[i] == b[i]
    ensures Holding(b', fs, t, slots[k := None], values[k := None])
    ensures OnlyNew(slots, slots[k := None], t.rootSize, |b|, [])
  {
    hide Building, FieldDone;
    HoldingBuilding(b, fs, t, slots, values);
    FieldDropped(b, b', fs, t, slots, k);
  }

  lemma HoldingBuilding(
    b: seq<byte>, fs: seq<Field>, t: OffsetTable, slots: seq<Option<Part>>, values: seq<Option<Value>>)
    requires Holding(b, fs, t, slots, values)
    ensures Building(b, fs, t, slots)
  {
  }

  /** Committing any child: its field holds the record the child stands for, every other field what it
      held, and nothing in the tail changes. */
  lemma SubRecordCommitted(
    b: seq<byte>, fs: seq<Field>, t: OffsetTable, slots: seq<Option<Part>>, values: seq<Option<Value>>, name: string,
    child: seq<byte>, cfs: seq<Field>, ct: OffsetTable, cslots: seq<Option<Part>>, cvalues: seq<Option<Value>>)
    returns (slots': seq<Option<Part>>)
    requires Holding(b, fs, t, slots, values)
    requires GoodRecord(cfs) ==> Holding(child, cfs, ct, cslots, cvalues)
    ensures var w := PasteField(b, fs, t, name, ct, cfs, child);
      && Holding(w.bytes, fs, t, slots', if w.ok then WithRecord(values, fs, name, cfs, cvalues) else values)
      && TailKept(b, w.bytes, t)
    ensures OnlyNew(slots, slots', t.rootSize, |b|, [])
  {
    hide Holding, GoodRecord, OffsetsFor, PasteAt, FieldsRebasable, PasteAlign;
    HoldingLayout(b, fs, t, slots, values);
    slots' := slots;
    var at := FieldIndex(fs, name);
    if at.Some? && fs[at.value].ty.Schema? {
      var k := at.value;
      var s, slot := fs[k].ty.schema, t.fields[k].offset;
      var r := PasteAt(b, PasteAlign(t.fields[k], ct, cfs), ct, cfs, child);
      SlotRoom(fs, t, k);
      PasteExtends(b, PasteAlign(t.fields[k], ct, cfs), ct, cfs, child);
      PointerTail(b, r, slot, t);
      var w := WritePointer(r, slot);
      if !w.ok {
        HoldingLonger(b, w.bytes, fs, t, slots, values);
      } else if RecordHeld(s, cfs, cvalues).None? {
        HoldingDropped(b, w.bytes, fs, t, slots, values, k);
        slots' := slots[k := None];
      } else {
        SchemaFieldGood(fs, k);
        slots' := SubRecordLinked(b, fs, t, slots, values, k, child, ct, cslots, cvalues, Given(cvalues));
      }
    }
  }

  lemma SchemaFieldGood(fs: seq<Field>, k: nat)
    requires GoodRecord(fs) && k < |fs| && fs[k].ty.Schema?
    ensures GoodRecord(fs[k].ty.schema.fields)
  {
    hide GoodRecord;
    GoodField(fs, k);
    SchemaGood(fs[k].ty.schema);
  }

  // ----- lists of records -----

  predicate IsListOf(fs: seq<Field>, name: string, schema: SchemaRepr) {
    var k := FieldIndex(fs, name);
    k.Some? && fs[k.value].ty == TypeRepr.List(TypeRepr.Schema(schema))
  }

  lemma NothingPending(b: seq<byte>, t: OffsetTable, slots: seq<Option<Part>>, e: TypeRepr)
    ensures Pending(b, t, slots, e, [], [], [])
  {
  }

  /** Pasting an entry that stands for a record: it joins the entries before it, in bytes of its own. */
  lemma EntryCommitted(
    b: seq<byte>, fs: seq<Field>, t: OffsetTable, slots: seq<Option<Part>>, values: seq<Option<Value>>,
    s: SchemaRepr, te: OffsetTable, child: seq<byte>, ct: OffsetTable, cslots: seq<Option<Part>>,
    cvalues: seq<Option<Value>>, offs: seq<nat>, vals: seq<Value>, objs: seq<Obj>)
    returns (o: Obj)
    requires Holding(b, fs, t, slots, values) && Pending(b, t, slots, TypeRepr.Schema(s), offs, vals, objs)
    requires OffsetsFor(s.fields) == Some(te) && Holding(child, s.fields, ct, cslots, cvalues)
    requires RecordHeld(s, s.fields, cvalues).Some?
    requires PasteAt(b, SchemaPasteAlign(te, s.fields), ct, s.fields, child).Done?
    ensures var r := PasteAt(b, SchemaPasteAlign(te, s.fields), ct, s.fields, child);
      Pending(r.bytes, t, slots, TypeRepr.Schema(s), offs + [r.off], vals + [RecordHeld(s, s.fields, cvalues).value],
              objs + [o])
    ensures forall c :: c in Foot(o.parts) ==> |b| <= c
  {
    hide Holding, Pending, OffsetsFor, PasteAt, FieldsRebasable, Building, TargetDone, GoodRecord;
    var align, raw := SchemaPasteAlign(te, s.fields), Given(cvalues);
    HoldingLayout(child, s.fields, ct, cslots, cvalues);
    var c := ChildRecord(child, s, ct, cslots, cvalues, raw);
    o := RecordPasted(b, align, s, ct, Assemble(s, raw), child, c);
    PasteOffset(b, align, ct, s.fields, child);
    HoldingBuilding(b, fs, t, slots, values);
    PendingEntry(b, PasteAt(b, align, ct, s.fields, child), fs, t, slots, TypeRepr.Schema(s), offs, vals, objs,
                 Assemble(s, raw), o);
  }

  /** Finishing the list: its field holds the committed entries, every other field what it held. */
  lemma PendingFinish(
    b: seq<byte>, fs: seq<Field>, t: OffsetTable, slots: seq<Option<Part>>, values: seq<Option<Value>>, k: nat,
    e: TypeRepr, offs: seq<nat>, vals: seq<Value>, objs: seq<Obj>)
    returns (slots': seq<Option<Part>>)
    requires Holding(b, fs, t, slots, values) && Pending(b, t, slots, e, offs, vals, objs)
    requires k < |fs| && fs[k].ty == TypeRepr.List(e) && e.Pointer?() && FinishList(b, t.fields[k].offset, offs).ok
    ensures Holding(FinishList(b, t.fields[k].offset, offs).bytes, fs, t, slots', values[k := Some(VList(vals))])
    ensures OnlyNew(slots, slots', t.rootSize, |b|, objs)
  {
    hide GoodRecord, OffsetsFor, Filled, SlotsApart, FieldDone, ItemHeld, ItemDone, Apart, Clear, Le, Owns, WithinObj,
      Norm, Decode, RebasableValue, RebasableObj, FootPart, FreshPart, Good, OffBytes, Shape;
    var slot := t.fields[k].offset;
    SlotRoom(fs, t, k);
    GoodField(fs, k);
    var b1 := PadTo(b, 4) + Le(|offs|, 4) + OffBytes(offs);
    var b' := FinishList(b, slot, offs).bytes;
    var o := HeaderPlaced(b, t.rootSize, e, offs, vals, objs);
    var x := Ptr(slot, o.pos, o);
    HeaderLinked(b, b1, fs, t, k, o, VList(vals));
    forall j | 0 <= j < |slots| && j != k && slots[j].Some?
      ensures FootPart(slots[j].value) !! FootPart(x)
    {
      HeaderClear(b, fs, t, slots, k, j, e, offs, vals, objs, o);
    }
    FieldFilled(b, b', fs, t, slots, k, x);
    ListFresh(|PadTo(b, 4)|, slot, t.rootSize, |b|, e, objs);
    slots' := slots[k := Some(x)];
  }

  lemma HeaderLinked(b: seq<byte>, b1: seq<byte>, fs: seq<Field>, t: OffsetTable, k: nat, o: Obj, v: Value)
    requires GoodRecord(fs) && OffsetsFor(fs) == Some(t) && k < |fs| == |t.fields| && fs[k].ty.Pointer?()
    requires Good(fs[k].ty)
    requires t.rootSize <= |b| && b <= b1 && Owns(b1, o) && WithinObj(o, t.rootSize, |b1|) && o.ty == fs[k].ty
    requires WritePointer(Done(b1, o.pos), t.fields[k].offset).ok
    requires Norm(o.ty, v).Some? && Decode(o) == Ok(Norm(o.ty, v).value)
    requires (RebasableObj(o) <==> RebasableValue(o.ty, v))
    ensures var b' := WritePointer(Done(b1, o.pos), t.fields[k].offset).bytes;
      var x := Ptr(t.fields[k].offset, o.pos, o);
      && Filled(b', fs, t, k, x) && FieldDone(fs[k].ty, v, x)
      && forall i :: 0 <= i < |b| && !(x.off <= i < x.off + SlotWidth(fs[k].ty)) ==> b'[i] == b[i]
  {
    hide Le, Shape, Decode, Norm, RebasableValue, Good, GoodRecord, OffsetsFor, Sep, Linked, Rebasable, Foot, Within,
      Enc;
    var slot := t.fields[k].offset;
    SlotRoom(fs, t, k);
    var b' := WritePointer(Done(b1, o.pos), slot).bytes;
    var x := Ptr(slot, o.pos, o);
    FootWithin(o.parts, t.rootSize, |b1|);
    EncFrame(b1, b', o.parts);
    WithinWider(o.parts, t.rootSize, |b1|, 0, |b1|);
    assert b'[slot..slot + 4] == Le(o.pos, 4);
    assert EncPart(b', x) && SepPart(x) && LinkedPart(x) && WithinPart(x, 0, |b'|);
  }

  /** The list shares no byte with another field: its header is new and its entries were kept clear. */
  lemma HeaderClear(
    b: seq<byte>, fs: seq<Field>, t: OffsetTable, slots: seq<Option<Part>>, k: nat, j: nat,
    e: TypeRepr, offs: seq<nat>, vals: seq<Value>, objs: seq<Obj>, o: Obj)
    requires Building(b, fs, t, slots) && Pending(b, t, slots, e, offs, vals, objs)
    requires k < |fs| && j < |fs| && j != k && slots[j].Some? && SlotWidth(fs[k].ty) == 4
    requires o == ListObj(|PadTo(b, 4)|, e, objs)
    ensures FootPart(slots[j].value) !! FootPart(Ptr(t.fields[k].offset, o.pos, o))
  {
    hide GoodRecord, OffsetsFor, Filled, SlotsApart, ItemHeld, ItemDone, Apart, Le, ListObj, Foot;
    var y := slots[j].value;
    var x := Ptr(t.fields[k].offset, o.pos, o);
    SlotRoom(fs, t, k);
    SlotRoom(fs, t, j);
    SlotsDisjoint(fs, t, j, k);
    FilledFoot(b, fs, t, j, y);
    forall c | c in FootPart(x)
      ensures c !in FootPart(y)
    {
      if c in Foot(o.parts) {
        ListFoot(|PadTo(b, 4)|, e, objs, c);
        if c < |b| {
          var i :| 0 <= i < |objs| && c in Foot(objs[i].parts);
          assert Clear(y, objs[i]);
        }
      }
    }
  }

  lemma ListFresh(pos: nat, slot: nat, root: nat, end: nat, e: TypeRepr, objs: seq<Obj>)
    requires slot + 4 <= root && end <= pos
    ensures FreshPart(Ptr(slot, pos, ListObj(pos, e, objs)), root, end, objs)
  {
    hide Le, Foot, ListObj;
    var o := ListObj(pos, e, objs);
    forall c | c in FootPart(Ptr(slot, pos, o))
      ensures c < root || end <= c || exists i :: 0 <= i < |objs| && c in Foot(objs[i].parts)
    {
      if c in Foot(o.parts) { ListFoot(pos, e, objs, c); }
    }
  }

  /** A byte of a list belongs to its header or to one of its entries. */
  lemma ListFoot(pos: nat, e: TypeRepr, objs: seq<Obj>, c: int)
    requires c in Foot(ListObj(pos, e, objs).parts)
    ensures pos <= c || exists i :: 0 <= i < |objs| && c in Foot(objs[i].parts)
  {
    hide Le, Foot, ListObj;
    var o := ListObj(pos, e, objs);
    InFoot(o.parts, c);
    var k :| 0 <= k < |o.parts| && c in FootPart(o.parts[k]);
    ListParts(pos, e, objs);
    if k > 0 {
      ListPart(pos, e, objs, k);
      assert c in Foot(objs[k - 1].parts) || pos <= c;
    }
  }

  /** A header changes nothing in the tail, and without entries that are all known its field holds nothing known. */
  lemma ListDropped(
    b: seq<byte>, fs: seq<Field>, t: OffsetTable, slots: seq<Option<Part>>, values: seq<Option<Value>>, k: nat,
    offs: seq<nat>)
    requires Holding(b, fs, t, slots, values) && k < |fs| && fs[k].ty.List?
    ensures var w := FinishList(b, t.fields[k].offset, offs);
      && TailKept(b, w.bytes, t)
      && (w.ok ==> Holding(w.bytes, fs, t, slots[k := None], values[k := None]))
      && (!w.ok ==> Holding(w.bytes, fs, t, slots, values))
    ensures |slots| == |fs| && OnlyNew(slots, slots[k := None], t.rootSize, |b|, [])
  {
    hide Holding, GoodRecord, OffsetsFor, Le, OffBytes;
    HoldingLayout(b, fs, t, slots, values);
    SlotRoom(fs, t, k);
    if |offs| < U32_LIMIT {
      var r := Done(PadTo(b, 4) + Le(|offs|, 4) + OffBytes(offs), |PadTo(b, 4)|);
      assert b <= r.bytes;
      PointerTail(b, r, t.fields[k].offset, t);
      var w := WritePointer(r, t.fields[k].offset);
      if w.ok {
        HoldingDropped(b, w.bytes, fs, t, slots, values, k);
      } else {
        HoldingLonger(b, w.bytes, fs, t, slots, values);
      }
    }
  }

  // ----- an open list, determined or not -----

  /** The entries of an open list; `None` once an entry that stands for no record has been committed. */
  ghost predicate EntriesHeld(
    b: seq<byte>, t: OffsetTable, slots: seq<Option<Part>>, e: TypeRepr, offs: seq<nat>, entries: Option<seq<Value>>,
    objs: seq<Obj>)
  {
    if entries.Some? then Pending(b, t, slots, e, offs, entries.value, objs) else objs == []
  }

  function Joined(entries: Option<seq<Value>>, entry: Option<Value>): Option<seq<Value>> {
    if entries.Some? && entry.Some? then Some(entries.value + [entry.value]) else None
  }

  function ListHeld(entries: Option<seq<Value>>): Option<Value> {
    if entries.Some? then Some(VList(entries.value)) else None
  }

  lemma EntriesKept(
    b: seq<byte>, b': seq<byte>, t: OffsetTable, slots: seq<Option<Part>>, slots': seq<Option<Part>>,
    claimed: seq<Obj>, e: TypeRepr, offs: seq<nat>, entries: Option<seq<Value>>, objs: seq<Obj>)
    requires EntriesHeld(b, t, slots, e, offs, entries, objs) && OnlyNew(slots, slots', t.rootSize, |b|, claimed)
    requires t.rootSize <= |b| && TailKept(b, b', t) && Beside(claimed, objs)
    ensures EntriesHeld(b', t, slots', e, offs, entries, objs)
  {
    hide Pending, OnlyNew, Beside, TailKept;
    if entries.Some? { PendingKept(b, b', t, slots, slots', claimed, e, offs, entries.value, objs); }
  }

  /** Records added to a group lie past the old end of the buffer. */
  ghost predicate Grown(objs: seq<Obj>, objs': seq<Obj>, end: nat) {
    forall i :: 0 <= i < |objs'| ==> objs'[i] in objs || forall c :: c in Foot(objs'[i].parts) ==> end <= c
  }

  lemma GrownNot(objs: seq<Obj>, end: nat)
    ensures Grown(objs, objs, end)
  {
  }

  lemma GrownNone(objs: seq<Obj>, end: nat)
    ensures Grown(objs, [], end)
  {
  }

  /** A list that is not determined claims nothing. */
  lemma NoEntries(b: seq<byte>, t: OffsetTable, slots: seq<Option<Part>>, e: TypeRepr, offs: seq<nat>)
    ensures EntriesHeld(b, t, slots, e, offs, None, [])
  {
  }

  /** A group that grew past the end of the buffer stays beside every list the buffer holds. */
  lemma GrownBeside(
    b: seq<byte>, t: OffsetTable, slots: seq<Option<Part>>, grown: seq<Obj>, grown': seq<Obj>,
    e: TypeRepr, offs: seq<nat>, entries: Option<seq<Value>>, objs: seq<Obj>)
    requires EntriesHeld(b, t, slots, e, offs, entries, objs) && Grown(grown, grown', |b|) && Beside(grown, objs)
    ensures Beside(grown', objs)
  {
    hide Foot, ItemHeld, ItemDone, Apart, Clear;
    forall i, j | 0 <= i < |grown'| && 0 <= j < |objs|
      ensures Foot(grown'[i].parts) !! Foot(objs[j].parts)
    {
      if grown'[i] !in grown {
        HeldBelow(b, t.rootSize, e, objs[j]);
        forall c | c in Foot(grown'[i].parts) ensures c !in Foot(objs[j].parts) {}
      }
    }
  }

  /** Pasting any entry: a record joins the list, anything else leaves the list undetermined, and a paste
      that fails leaves it as it was. */
  lemma EntryJoined(
    b: seq<byte>, fs: seq<Field>, t: OffsetTable, slots: seq<Option<Part>>, values: seq<Option<Value>>,
    s: SchemaRepr, te: OffsetTable, child: seq<byte>, cfs: seq<Field>, ct: OffsetTable, cslots: seq<Option<Part>>,
    cvalues: seq<Option<Value>>, offs: seq<nat>, entries: Option<seq<Value>>, objs: seq<Obj>)
    returns (objs': seq<Obj>)
    requires Holding(b, fs, t, slots, values) && EntriesHeld(b, t, slots, TypeRepr.Schema(s), offs, entries, objs)
    requires OffsetsFor(s.fields) == Some(te) && (cfs == s.fields ==> Holding(child, cfs, ct, cslots, cvalues))
    ensures var r := PasteAt(b, SchemaPasteAlign(te, s.fields), ct, cfs, child);
      if r.Done? then
        EntriesHeld(r.bytes, t, slots, TypeRepr.Schema(s), offs + [r.off], Joined(entries, RecordHeld(s, cfs, cvalues)),
                    objs')
      else
        EntriesHeld(r.bytes, t, slots, TypeRepr.Schema(s), offs, entries, objs')
    ensures Grown(objs, objs', |b|)
  {
    hide Holding, Pending, OffsetsFor, PasteAt, Foot;
    var r := PasteAt(b, SchemaPasteAlign(te, s.fields), ct, cfs, child);
    HoldingLayout(b, fs, t, slots, values);
    PasteExtends(b, SchemaPasteAlign(te, s.fields), ct, cfs, child);
    if r.Failed? {
      objs' := objs;
      EntriesKept(b, r.bytes, t, slots, slots, [], TypeRepr.Schema(s), offs, entries, objs);
    } else if entries.Some? && RecordHeld(s, cfs, cvalues).Some? {
      var o := EntryCommitted(b, fs, t, slots, values, s, te, child, ct, cslots, cvalues, offs, entries.value, objs);
      objs' := objs + [o];
    } else {
      objs' := [];
    }
  }

  /** Emitting the header of an open list, determined or not. */
  lemma ListFinished(
    b: seq<byte>, fs: seq<Field>, t: OffsetTable, slots: seq<Option<Part>>, values: seq<Option<Value>>, k: nat,
    e: TypeRepr, offs: seq<nat>, entries: Option<seq<Value>>, objs: seq<Obj>)
    returns (slots': seq<Option<Part>>)
    requires Holding(b, fs, t, slots, values) && EntriesHeld(b, t, slots, e, offs, entries, objs)
    requires k < |fs| && k < |t.fields| && fs[k].ty == TypeRepr.List(e) && e.Pointer?()
    ensures var w := FinishList(b, t.fields[k].offset, offs);
      && Holding(w.bytes, fs, t, slots', if w.ok then values[k := ListHeld(entries)] else values)
      && TailKept(b, w.bytes, t)
    ensures OnlyNew(slots, slots', t.rootSize, |b|, objs)
  {
    hide Holding, Pending, FinishList, OffsetsFor;
    HoldingLayout(b, fs, t, slots, values);
    ListDropped(b, fs, t, slots, values, k, offs);
    var w := FinishList(b, t.fields[k].offset, offs);
    if !w.ok {
      slots' := slots;
    } else if entries.None? {
      slots' := slots[k := None];
    } else {
      slots' := PendingFinish(b, fs, t, slots, values, k, e, offs, entries.value, objs);
    }
  }

  // ----- field writes -----

  /** A field write changes nothing in the tail. */
  lemma FieldKeepsTail(b: seq<byte>, fs: seq<Field>, t: OffsetTable, name: string, ty: TypeRepr, v: Value)
    requires GoodRecord(fs) && OffsetsFor(fs) == Some(t) && |t.fields| == |fs|
    ensures TailKept(b, WriteField(b, fs, t, name, ty, v).bytes, t)
  {
    hide GoodRecord, OffsetsFor, WriteSlot, TypeMatches;
    var k := FieldIndex(fs, name);
    if k.Some? && TypeMatches(fs[k.value].ty, ty) {
      TypeMatchesEqual(fs[k.value].ty, ty);
      SlotRoom(fs, t, k.value);
      SlotExtends(b, t.fields[k.value].offset, ty, v);
    }
  }
}
