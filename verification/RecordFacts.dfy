/** The bytes of a record being built: each field written so far sits in its own slot, and its tail
    records share no byte with those of any other field. */
module RecordFacts {
  import opened Bytes
  import opened Wrappers
  import opened Schemas
  import opened Layout
  import opened LayoutFacts
  import opened Values
  import opened VerifierFacts
  import opened Graph
  import opened GraphFacts
  import opened Moving
  import opened Paste
  import opened Writer
  import opened WriterFrame
  import opened WriterFacts

  /** Field `k` has been written: its slot holds `x`, whose records lie in the tail. */
  ghost predicate Filled(b: seq<byte>, fs: seq<Field>, t: OffsetTable, k: nat, x: Part)
    requires k < |fs| == |t.fields|
  {
    && PartOwned(b, 0, x) && SlotShape(x, t.fields[k].offset, fs[k].ty)
    && (x.Ptr? ==> WithinObj(x.target, t.rootSize, |b|))
  }

  ghost predicate SlotsApart(st: seq<Option<Part>>) {
    forall i, j :: 0 <= i < j < |st| && st[i].Some? && st[j].Some? ==>
      FootPart(st[i].value) !! FootPart(st[j].value)
  }

  /** `b` is a record of layout `t` under construction; `st` gives the part of every field written. */
  ghost predicate Building(b: seq<byte>, fs: seq<Field>, t: OffsetTable, st: seq<Option<Part>>) {
    && GoodRecord(fs) && OffsetsFor(fs) == Some(t)
    && |st| == |fs| == |t.fields| && t.rootSize <= |b|
    && (forall k :: 0 <= k < |st| && st[k].Some? ==> Filled(b, fs, t, k, st[k].value))
    && SlotsApart(st)
  }

  lemma BuildingStart(fs: seq<Field>, t: OffsetTable)
    requires GoodRecord(fs) && OffsetsFor(fs) == Some(t)
    ensures Building(Zeros(t.rootSize), fs, t, seq(|fs|, _ => None))
  {
    LayoutCorrect(fs);
  }

  lemma FilledFoot(b: seq<byte>, fs: seq<Field>, t: OffsetTable, k: nat, x: Part)
    requires k < |fs| == |t.fields| && Filled(b, fs, t, k, x)
    ensures forall c :: c in FootPart(x) ==>
      t.fields[k].offset <= c < t.fields[k].offset + SlotWidth(fs[k].ty) || t.rootSize <= c < |b|
  {
    hide Shape, Enc, Linked, Sep;
    if x.Ptr? {
      FootWithin(x.target.parts, t.rootSize, |b|);
    }
  }

  /** Slot widths are the table's, inside the fixed area, and different fields have different slots. */
  lemma SlotRoom(fs: seq<Field>, t: OffsetTable, k: nat)
    requires GoodRecord(fs) && OffsetsFor(fs) == Some(t) && k < |fs|
    ensures |t.fields| == |fs| && t.fields[k].size == SlotWidth(fs[k].ty)
    ensures t.fields[k].offset + t.fields[k].size <= t.rootSize
    ensures FindOffset(t.fields, fs[k].name) == Some(t.fields[k])
  {
    hide OffsetsFor, FindOffset, GoodRecord;
    assert DistinctNames(fs) by { NamesOf(fs); }
    LayoutCorrect(fs);
    SlotFacts(fs, t, k);
  }

  lemma SlotsDisjoint(fs: seq<Field>, t: OffsetTable, j: nat, k: nat)
    requires GoodRecord(fs) && OffsetsFor(fs) == Some(t) && j < |fs| && k < |fs| && j != k
    ensures |t.fields| == |fs|
    ensures t.fields[j].offset + SlotWidth(fs[j].ty) <= t.fields[k].offset
         || t.fields[k].offset + SlotWidth(fs[k].ty) <= t.fields[j].offset
  {
    hide OffsetsFor, FindOffset, GoodRecord;
    LayoutCorrect(fs);
    SlotRoom(fs, t, j);
    SlotRoom(fs, t, k);
  }

  /** A write that changes only the cells in `[lo, hi)` keeps a part outside them. */
  lemma FilledKept(b: seq<byte>, b': seq<byte>, fs: seq<Field>, t: OffsetTable, k: nat, x: Part, lo: nat, hi: nat)
    requires k < |fs| == |t.fields| && Filled(b, fs, t, k, x) && |b| <= |b'| && hi <= t.rootSize
    requires t.fields[k].offset + SlotWidth(fs[k].ty) <= lo || hi <= t.fields[k].offset
    requires forall i :: 0 <= i < |b| && !(lo <= i < hi) ==> b'[i] == b[i]
    ensures Filled(b', fs, t, k, x)
  {
    hide Shape, Enc, EncPart, Linked, Sep, SlotShape, FootPart;
    FilledFoot(b, fs, t, k, x);
    EncPartFrame(b, b', x);
    WithinPartWider(x, 0, |b|, 0, |b'|);
    if x.Ptr? {
      WithinWider(x.target.parts, t.rootSize, |b|, t.rootSize, |b'|);
    }
  }

  lemma FilledNew(b: seq<byte>, b': seq<byte>, fs: seq<Field>, t: OffsetTable, k: nat, v: Value, x: Part)
    requires k < |fs| == |t.fields| && t.rootSize <= |b|
    requires SlotDone(b, b', t.fields[k].offset, fs[k].ty, v, x)
    ensures Filled(b', fs, t, k, x)
    ensures forall c :: c in FootPart(x) ==>
      t.fields[k].offset <= c < t.fields[k].offset + SlotWidth(fs[k].ty) || |b| <= c
  {
    hide Shape, Enc, EncPart, Linked, LinkedPart, Sep, SepPart, Norm, DecodePart, RebasableValue, RebasablePart;
    if x.Ptr? {
      WithinWider(x.target.parts, |b|, |b'|, t.rootSize, |b'|);
      FootWithin(x.target.parts, |b|, |b'|);
    }
  }

  /** A change of one slot, with whatever is appended, keeps every other field; the slot's field is now `x`. */
  lemma FieldFilled(b: seq<byte>, b': seq<byte>, fs: seq<Field>, t: OffsetTable, st: seq<Option<Part>>, k: nat, x: Part)
    requires Building(b, fs, t, st) && k < |fs| && |b| <= |b'| && Filled(b', fs, t, k, x)
    requires var slot := t.fields[k].offset;
      forall i :: 0 <= i < |b| && !(slot <= i < slot + SlotWidth(fs[k].ty)) ==> b'[i] == b[i]
    requires forall j :: 0 <= j < |st| && j != k && st[j].Some? ==> FootPart(st[j].value) !! FootPart(x)
    ensures Building(b', fs, t, st[k := Some(x)])
  {
    hide Filled, GoodRecord, OffsetsFor, FootPart;
    var slot, width := t.fields[k].offset, SlotWidth(fs[k].ty);
    SlotRoom(fs, t, k);
    forall j | 0 <= j < |st| && j != k && st[j].Some?
      ensures Filled(b', fs, t, j, st[j].value)
    {
      SlotsDisjoint(fs, t, j, k);
      FilledKept(b, b', fs, t, j, st[j].value, slot, slot + width);
    }
  }

  /** A part made of a slot and fresh tail bytes is apart from every other field. */
  lemma FreshApart(b: seq<byte>, fs: seq<Field>, t: OffsetTable, st: seq<Option<Part>>, k: nat, x: Part, j: nat)
    requires Building(b, fs, t, st) && k < |fs| && j < |st| && j != k && st[j].Some?
    requires forall c :: c in FootPart(x) ==>
      t.fields[k].offset <= c < t.fields[k].offset + SlotWidth(fs[k].ty) || |b| <= c
    ensures FootPart(st[j].value) !! FootPart(x)
  {
    hide GoodRecord, OffsetsFor, FootPart, Filled;
    SlotRoom(fs, t, k);
    SlotsDisjoint(fs, t, j, k);
    SlotRoom(fs, t, j);
    FilledFoot(b, fs, t, j, st[j].value);
    forall c | c in FootPart(st[j].value) ensures c !in FootPart(x) {}
  }

  /** One field write keeps every other field and establishes its own. */
  lemma FieldWritten(
    b: seq<byte>, b': seq<byte>, fs: seq<Field>, t: OffsetTable, st: seq<Option<Part>>, k: nat, v: Value, x: Part)
    requires Building(b, fs, t, st) && k < |fs| && |b| <= |b'|
    requires var slot := t.fields[k].offset;
      forall i :: 0 <= i < |b| && !(slot <= i < slot + SlotWidth(fs[k].ty)) ==> b'[i] == b[i]
    requires SlotDone(b, b', t.fields[k].offset, fs[k].ty, v, x)
    ensures Building(b', fs, t, st[k := Some(x)])
  {
    hide Filled, GoodRecord, OffsetsFor, FootPart, SlotDone, SlotsApart;
    FilledNew(b, b', fs, t, k, v, x);
    forall j | 0 <= j < |st| && j != k && st[j].Some?
      ensures FootPart(st[j].value) !! FootPart(x)
    {
      FreshApart(b, fs, t, st, k, x, j);
    }
    FieldFilled(b, b', fs, t, st, k, x);
  }

  /** A write that fails leaves every field as it was. */
  lemma FieldFailed(b: seq<byte>, fs: seq<Field>, t: OffsetTable, st: seq<Option<Part>>, k: nat, v: Value)
    requires Building(b, fs, t, st) && k < |fs|
    requires !WriteSlot(b, t.fields[k].offset, fs[k].ty, v).ok
    ensures Building(WriteSlot(b, t.fields[k].offset, fs[k].ty, v).bytes, fs, t, st)
  {
    hide Filled, GoodRecord, OffsetsFor, WriteSlot;
    var b' := WriteSlot(b, t.fields[k].offset, fs[k].ty, v).bytes;
    SlotExtends(b, t.fields[k].offset, fs[k].ty, v);
    forall j | 0 <= j < |st| && st[j].Some?
      ensures Filled(b', fs, t, j, st[j].value)
    {
      FilledKept(b, b', fs, t, j, st[j].value, 0, 0);
    }
  }

  /** With every field written, the buffer owns the whole record. */
  lemma RecordOwned(b: seq<byte>, s: SchemaRepr, t: OffsetTable, st: seq<Option<Part>>, parts: seq<Part>)
    requires Building(b, s.fields, t, st)
    requires |parts| == |st| && forall k :: 0 <= k < |st| ==> st[k] == Some(parts[k])
    ensures var o := Obj(0, TypeRepr.Schema(s), t.rootSize, parts);
      Owns(b, o) && WithinObj(o, 0, |b|)
  {
    hide OffsetsFor, FootPart, PartOwned, SlotShape;
    var o := Obj(0, TypeRepr.Schema(s), t.rootSize, parts);
    forall i | 0 <= i < |o.parts|
      ensures FieldShape(o, s.fields, t, i) && PartOwned(b, 0, o.parts[i])
    {
      assert Filled(b, s.fields, t, i, st[i].value);
    }
    assert Shape(o);
    hide Shape;
    OwnsIntro(0, b, o);
  }
}
