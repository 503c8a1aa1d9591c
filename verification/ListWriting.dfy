/** Committing detached records: a finished child pasted under a field, and a list of records whose
    entries are committed one by one before its header exists. */
module ListWriting {
  import opened Bytes
  import opened Wrappers
  import opened Schemas
  import opened Layout
  import opened LayoutFacts
  import opened Values
  import opened Graph
  import opened GraphFacts
  import opened Moving
  import opened Paste
  import opened Writer
  import opened WriterFacts
  import opened ListFacts
  import opened RecordFacts
  import opened WriteSteps
  import opened WriterRuns

  // ----- a finished child builder is a record value -----

  lemma {:induction false} FieldValuesZip(fs: seq<Field>, raw: seq<Value>, k: nat)
    requires DistinctNames(fs) && |raw| == |fs| && k <= |fs|
    ensures FieldValues(fs[k..], Zip(fs, raw)) == Some(raw[k..])
    decreases |fs| - k
  {
    hide Zip, DistinctNames;
    if k < |fs| {
      ZipAt(fs, raw, k);
      FieldValuesZip(fs, raw, k + 1);
      assert fs[k..][0] == fs[k] && fs[k..][1..] == fs[k + 1..];
      assert raw[k..] == [raw[k]] + raw[k + 1..];
    } else {
      assert fs[k..] == [] && raw[k..] == [];
    }
  }

  lemma RecordValuesOf(s: SchemaRepr, raw: seq<Value>)
    requires DistinctNames(s.fields) && |raw| == |s.fields|
    ensures RecordValues(s, Assemble(s, raw)) == Some(raw)
  {
    FieldValuesZip(s.fields, raw, 0);
    assert s.fields[0..] == s.fields && raw[0..] == raw;
  }

  /** All fields of the builder hold a value. */
  predicate Complete(values: seq<Option<Value>>, raw: seq<Value>) {
    |raw| == |values| && forall k :: 0 <= k < |values| ==> values[k] == Some(raw[k])
  }

  lemma ChildRecord(
    b: seq<byte>, s: SchemaRepr, t: OffsetTable, slots: seq<Option<Part>>, values: seq<Option<Value>>, raw: seq<Value>)
    returns (c: Obj)
    requires Holding(b, s.fields, t, slots, values) && Complete(values, raw)
    ensures c.pos == 0 && TargetDone([], Done(b, 0), TypeRepr.Schema(s), Assemble(s, raw), c)
    ensures Good(TypeRepr.Schema(s)) && (RebasableObj(c) <==> FieldsRebasable(s.fields, raw))
  {
    hide GoodRecord, OffsetsFor, Filled, SlotsApart, FieldDone, TargetDone, FieldsRebasable;
    var parts := seq(|slots|, i requires 0 <= i < |slots| => slots[i].value);
    assert Whole(parts) == slots;
    assert DistinctNames(s.fields) by { NamesOf(s.fields); }
    RecordValuesOf(s, raw);
    c := RecordComplete(b, s, t, Assemble(s, raw), raw, parts);
    RecordDone(b, s, raw, c);
  }

  lemma RecordDone(b: seq<byte>, s: SchemaRepr, raw: seq<Value>, c: Obj)
    requires |raw| == |s.fields| && RecordValues(s, Assemble(s, raw)) == Some(raw)
    requires TargetDone([], Done(b, 0), TypeRepr.Schema(s), Assemble(s, raw), c)
    ensures Good(TypeRepr.Schema(s)) && (RebasableObj(c) <==> FieldsRebasable(s.fields, raw))
  {
  }

  /** Appending keeps every field. */
  lemma HoldingLonger(
    b: seq<byte>, b': seq<byte>, fs: seq<Field>, t: OffsetTable, slots: seq<Option<Part>>, values: seq<Option<Value>>)
    requires Holding(b, fs, t, slots, values) && b <= b'
    ensures Holding(b', fs, t, slots, values)
  {
    hide GoodRecord, OffsetsFor, Filled, SlotsApart, FieldDone;
    forall k | 0 <= k < |slots| && slots[k].Some?
      ensures Filled(b', fs, t, k, slots[k].value)
    {
      FilledKept(b, b', fs, t, k, slots[k].value, 0, 0);
    }
  }

  // ----- a nested record committed by hand -----

  /** Linking an appended record under its field: the field now holds its value. */
  lemma ChildLinked(
    b: seq<byte>, r: Appended, fs: seq<Field>, t: OffsetTable, slots: seq<Option<Part>>, values: seq<Option<Value>>,
    k: nat, v: Value, o: Obj)
    returns (slots': seq<Option<Part>>)
    requires Holding(b, fs, t, slots, values) && k < |fs| && fs[k].ty.Pointer?()
    requires TargetDone(b, r, fs[k].ty, v, o) && r.off < U32_LIMIT
    ensures var w := WritePointer(r, t.fields[k].offset);
      w.ok && Holding(w.bytes, fs, t, slots', values[k := Some(v)])
    ensures OnlyNew(slots, slots', t.rootSize, |b|, [])
  {
    hide GoodRecord, OffsetsFor, Filled, SlotsApart, FieldDone, TargetDone, SlotDone, Le, LeVal;
    var slot := t.fields[k].offset;
    SlotRoom(fs, t, k);
    GoodField(fs, k);
    assert b <= r.bytes && r.Done? by { DoneExtends(b, r, fs[k].ty, v, o); }
    var x := PointerWritten(b, slot, r, fs[k].ty, v, o);
    var b' := WritePointer(r, slot).bytes;
    FieldWritten(b, b', fs, t, slots, k, v, x);
    FilledNew(b, b', fs, t, k, v, x);
    SlotDoneField(b, b', slot, fs[k].ty, v, x);
    slots' := slots[k := Some(x)];
  }

  lemma DoneExtends(b: seq<byte>, r: Appended, ty: TypeRepr, v: Value, o: Obj)
    requires TargetDone(b, r, ty, v, o)
    ensures r.Done? && b <= r.bytes
  {
  }

  // ----- a list of records, entry by entry -----

  /** The committed entries: records in the tail, apart from each other and from every field. */
  ghost predicate Pending(
    b: seq<byte>, t: OffsetTable, slots: seq<Option<Part>>, e: TypeRepr, offs: seq<nat>, vals: seq<Value>,
    objs: seq<Obj>)
  {
    && |offs| == |vals| == |objs| && Apart(objs)
    && (forall i :: 0 <= i < |objs| ==>
          ItemHeld(b, t.rootSize, e, objs[i]) && ItemDone(e, vals[i], objs[i]) && objs[i].pos == offs[i])
    && (forall j, i :: 0 <= j < |slots| && 0 <= i < |objs| && slots[j].Some? ==> Clear(slots[j].value, objs[i]))
  }

  ghost predicate Clear(x: Part, o: Obj) {
    FootPart(x) !! Foot(o.parts)
  }

  /** No record of one group shares a byte with a record of the other. */
  ghost predicate Beside(objs: seq<Obj>, others: seq<Obj>) {
    forall i, j :: 0 <= i < |objs| && 0 <= j < |others| ==> Foot(objs[i].parts) !! Foot(others[j].parts)
  }

  /** A change of the parent's fields keeps the committed entries: a write, a sub-record, or another list
      that claims its own entries. */
  lemma PendingKept(
    b: seq<byte>, b': seq<byte>, t: OffsetTable, slots: seq<Option<Part>>, slots': seq<Option<Part>>,
    claimed: seq<Obj>, e: TypeRepr, offs: seq<nat>, vals: seq<Value>, objs: seq<Obj>)
    requires Pending(b, t, slots, e, offs, vals, objs) && OnlyNew(slots, slots', t.rootSize, |b|, claimed)
    requires t.rootSize <= |b| && TailKept(b, b', t) && Beside(claimed, objs)
    ensures Pending(b', t, slots', e, offs, vals, objs)
  {
    hide ItemHeld, ItemDone, Apart, Clear;
    forall i | 0 <= i < |objs|
      ensures ItemHeld(b', t.rootSize, e, objs[i])
    {
      ItemKept(b, b', t.rootSize, e, objs[i]);
    }
    forall j, i | 0 <= j < |slots'| && 0 <= i < |objs| && slots'[j].Some?
      ensures Clear(slots'[j].value, objs[i])
    {
      if slots'[j] != slots[j] {
        FreshClear(b, t.rootSize, e, slots'[j].value, claimed, objs, i);
      }
    }
  }

  lemma FreshClear(b: seq<byte>, root: nat, e: TypeRepr, x: Part, claimed: seq<Obj>, objs: seq<Obj>, i: nat)
    requires i < |objs| && ItemHeld(b, root, e, objs[i]) && FreshPart(x, root, |b|, claimed) && Beside(claimed, objs)
    ensures Clear(x, objs[i])
  {
    hide Owns, FootPart, Foot;
    FootWithin(objs[i].parts, root, |b|);
    forall c | c in FootPart(x) ensures c !in Foot(objs[i].parts) {}
  }

  /** Nothing behind the fixed area changes. */
  predicate TailKept(b: seq<byte>, b': seq<byte>, t: OffsetTable) {
    |b| <= |b'| && forall i :: t.rootSize <= i < |b| ==> b'[i] == b[i]
  }

  /** Committing an entry keeps the others and adds one. */
  lemma PendingEntry(
    b: seq<byte>, r: Appended, fs: seq<Field>, t: OffsetTable, slots: seq<Option<Part>>,
    e: TypeRepr, offs: seq<nat>, vals: seq<Value>, objs: seq<Obj>, v: Value, o: Obj)
    requires Building(b, fs, t, slots) && Pending(b, t, slots, e, offs, vals, objs)
    requires TargetDone(b, r, e, v, o) && r.off < U32_LIMIT
    ensures Pending(r.bytes, t, slots, e, offs + [r.off], vals + [v], objs + [o])
    ensures forall c :: c in Foot(o.parts) ==> |b| <= c
  {
    hide ItemHeld, ItemDone, Clear, Foot, Filled, GoodRecord, OffsetsFor, SlotsApart;
    assert |b| <= |r.bytes| && r.bytes[..|b|] == b by { DoneExtends(b, r, e, v, o); }
    PendingKept(b, r.bytes, t, slots, slots, [], e, offs, vals, objs);
    ItemOf(b, r, r.bytes, e, v, o);
    HeldLower(r.bytes, |b|, t.rootSize, e, o);
    var all := objs + [o];
    forall i | 0 <= i < |objs|
      ensures Foot(objs[i].parts) !! Foot(o.parts)
    {
      HeldBelow(b, t.rootSize, e, objs[i]);
      forall c | c in Foot(objs[i].parts) ensures c !in Foot(o.parts) {}
    }
    forall i, j | 0 <= i < j < |all|
      ensures Foot(all[i].parts) !! Foot(all[j].parts)
    {
      if j < |objs| { assert all[i] == objs[i] && all[j] == objs[j]; }
    }
    forall j, i | 0 <= j < |slots| && 0 <= i < |all| && slots[j].Some?
      ensures Clear(slots[j].value, all[i])
    {
      if i == |objs| {
        TailClear(b, fs, t, j, slots[j].value, o);
      }
    }
  }

  lemma HeldBelow(b: seq<byte>, lo: nat, e: TypeRepr, o: Obj)
    requires ItemHeld(b, lo, e, o)
    ensures forall c :: c in Foot(o.parts) ==> c < |b|
  {
    hide Owns;
    FootWithin(o.parts, lo, |b|);
  }

  lemma TailClear(b: seq<byte>, fs: seq<Field>, t: OffsetTable, j: nat, x: Part, o: Obj)
    requires GoodRecord(fs) && OffsetsFor(fs) == Some(t) && j < |fs| == |t.fields| && t.rootSize <= |b|
    requires Filled(b, fs, t, j, x) && forall c :: c in Foot(o.parts) ==> |b| <= c
    ensures Clear(x, o)
  {
    hide Filled, Foot, FootPart, GoodRecord, OffsetsFor;
    FilledFoot(b, fs, t, j, x);
    SlotRoom(fs, t, j);
    forall c | c in FootPart(x) ensures c !in Foot(o.parts) {}
  }

  /** The entry words of a list header. */
  function OffBytes(offs: seq<nat>): (r: seq<byte>)
    ensures |r| == 4 * |offs|
    decreases |offs|
  {
    if offs == [] then [] else OffBytes(offs[..|offs| - 1]) + Le(offs[|offs| - 1], 4)
  }

  lemma {:induction false} OffBytesAt(offs: seq<nat>, i: nat)
    requires i < |offs|
    ensures OffBytes(offs)[4 * i..4 * i + 4] == Le(offs[i], 4)
    decreases |offs|
  {
    hide Le;
    var n := |offs| - 1;
    var init := OffBytes(offs[..n]);
    if i < n {
      OffBytesAt(offs[..n], i);
      assert (init + Le(offs[n], 4))[4 * i..4 * i + 4] == init[4 * i..4 * i + 4];
    } else {
      assert (init + Le(offs[n], 4))[4 * i..4 * i + 4] == Le(offs[n], 4);
    }
  }

  /** Emits the header after the entries and points the field's slot at it. */
  function FinishList(b: seq<byte>, slot: nat, offs: seq<nat>): Wrote {
    if |offs| >= U32_LIMIT then Wrote(false, b)
    else WritePointer(Done(PadTo(b, 4) + Le(|offs|, 4) + OffBytes(offs), |PadTo(b, 4)|), slot)
  }

  /** The header and the entries committed before it are the encoded list. */
  lemma HeaderPlaced(
    b: seq<byte>, lo: nat, e: TypeRepr, offs: seq<nat>, vals: seq<Value>, objs: seq<Obj>)
    returns (o: Obj)
    requires Good(TypeRepr.List(e)) && e.Pointer?() && |offs| == |vals| == |objs| < U32_LIMIT && Apart(objs)
    requires lo <= |b|
    requires forall i :: 0 <= i < |objs| ==>
      ItemHeld(b, lo, e, objs[i]) && ItemDone(e, vals[i], objs[i]) && objs[i].pos == offs[i]
    ensures var pos := |PadTo(b, 4)|; var b' := PadTo(b, 4) + Le(|offs|, 4) + OffBytes(offs);
      && o == ListObj(pos, e, objs) && Owns(b', o) && WithinObj(o, lo, |b'|)
      && Norm(TypeRepr.List(e), VList(vals)).Some? && Decode(o) == Ok(Norm(TypeRepr.List(e), VList(vals)).value)
      && (RebasableObj(o) <==> RebasableValue(TypeRepr.List(e), VList(vals)))
  {
    hide Le, Shape, ItemHeld, ItemDone, Apart, Avoids, Decode, Norm, RebasableValue, RebasableObj, Owns, WithinObj;
    var p := PadTo(b, 4);
    var pos, n := |p|, |offs|;
    var b' := p + Le(n, 4) + OffBytes(offs);
    o := ListObj(pos, e, objs);
    forall i | 0 <= i < n
      ensures EntryHeld(b', lo, pos, e, objs, i)
    {
      ItemKept(b, b', lo, e, objs[i]);
      AvoidsAbove(b, lo, e, objs[i], pos, pos + 4 + 4 * n);
      OffBytesAt(offs, i);
      assert b'[pos + 4 + 4 * i..pos + 8 + 4 * i] == OffBytes(offs)[4 * i..4 * i + 4];
    }
    assert b'[pos..pos + 4] == Le(n, 4);
    ListShape(pos, e, vals, objs);
    ListDecodes(pos, e, vals, objs);
    ListRebasable(pos, e, vals, objs);
    ListOwned(lo, b', pos, e, objs);
  }

  lemma AvoidsAbove(b: seq<byte>, lo: nat, e: TypeRepr, o: Obj, from: nat, to: nat)
    requires ItemHeld(b, lo, e, o) && |b| <= from
    ensures Avoids(o, from, to)
  {
    HeldBelow(b, lo, e, o);
  }
}
