/** The two writers of nested lists. They do not compare the row type they are given with the declared
    one, and the scalar one does not check the count of a row: what they write, exactly when that is what
    the generic writer writes, and what the field then holds. */
module NestedWriting {
  import opened Bytes
  import opened Wrappers
  import opened Schemas
  import opened Layout
  import opened LayoutFacts
  import opened Values
  import opened Reader
  import opened Graph
  import opened GraphFacts
  import opened Moving
  import opened Writer
  import opened WriterFrame
  import opened WriterFacts
  import opened ListFacts
  import opened RecordFacts
  import opened WriteSteps
  import opened WriterCorrect
  import opened WriterRuns
  import opened ListWriting
  import opened Commits
  import opened Builder
  import opened SpecialisedWriting

  // ----- rows of inline scalars -----

  /** One row, its count cast to 32 bits. */
  function RowRecord(b: seq<byte>, inner: TypeRepr, v: Value): (r: Appended)
    ensures r.Failed? ==> r.bytes == b
    ensures r.Done? ==> v.VList? && |b| < |r.bytes|
  {
    if !v.VList? || !inner.Scalar?() then Failed(b)
    else
      match ScalarPayload(inner, v.items)
      case None => Failed(b)
      case Some(payload) => AppendTailRecordAligned(b, PayloadAlign(inner), |v.items|, payload)
  }

  function AppendRows(b: seq<byte>, inner: TypeRepr, items: seq<Value>): (r: AppendedItems)
    ensures |b| <= |r.bytes|
    ensures r.Items? ==> |r.offs| == |items| && Fit(r.offs)
    decreases |items|
  {
    if items == [] then Items(b, [])
    else
      match RowRecord(b, inner, items[0])
      case Failed(bytes) => ItemsFailed(bytes)
      case Done(bytes, off) =>
        if off >= U32_LIMIT then ItemsFailed(bytes)
        else
          match AppendRows(bytes, inner, items[1..])
          case ItemsFailed(bytes') => ItemsFailed(bytes')
          case Items(bytes', offs) => Items(bytes', [off] + offs)
  }

  predicate Nested(ty: TypeRepr) {
    ty.List? && ty.element.List?
  }

  /** The count and the zeroed entries of the outer list. */
  function Header(b: seq<byte>, n: nat): (r: seq<byte>)
    ensures b <= r && |b| < |r|
  {
    PadTo(b, 4) + Le(n, 4) + Zeros(4 * n)
  }

  /** A nested list of scalars written into field `name`, whatever rows it declares. */
  function WriteRows(
    b: seq<byte>, fs: seq<Field>, t: OffsetTable, name: string, inner: TypeRepr, items: seq<Value>): Wrote
  {
    match FieldIndex(fs, name)
    case None => Wrote(false, b)
    case Some(k) =>
      if k >= |t.fields| || !Nested(fs[k].ty) || |items| >= U32_LIMIT then Wrote(false, b)
      else
        var r := AppendRows(Header(b, |items|), inner, items);
        WritePointer(Closed(r.bytes, |PadTo(b, 4)|, if r.Items? then Some(r.offs) else None), t.fields[k].offset)
  }

  // ----- exactly when that is the generic writer -----

  /** A row of 2^32 elements or more is reached and conforms to the row type. */
  predicate WritesLongRow(b: seq<byte>, inner: TypeRepr, items: seq<Value>)
    decreases |items|
  {
    items != [] &&
    var r := RowRecord(b, inner, items[0]);
    r.Done? && (|items[0].items| >= U32_LIMIT || (r.off < U32_LIMIT && WritesLongRow(r.bytes, inner, items[1..])))
  }

  lemma RowAsTarget(b: seq<byte>, inner: TypeRepr, v: Value)
    requires inner.Scalar?()
    ensures v.VList? && |v.items| >= U32_LIMIT ==> AppendTarget(b, TypeRepr.List(inner), v, true) == Failed(b)
    ensures !v.VList? || |v.items| < U32_LIMIT ==>
      AppendTarget(b, TypeRepr.List(inner), v, true) == RowRecord(b, inner, v)
  {
    hide AppendTailRecordAligned, ScalarPayload;
  }

  /** Without such a row the two runs of rows are the same; with one the generic writer stops in front of
      it and this one goes on. */
  lemma {:induction false} RowsAsItems(b: seq<byte>, inner: TypeRepr, items: seq<Value>)
    requires inner.Scalar?()
    ensures var r, g := AppendRows(b, inner, items), AppendItems(b, TypeRepr.List(inner), items);
      if WritesLongRow(b, inner, items) then g.ItemsFailed? && |g.bytes| < |r.bytes| else r == g
    decreases |items|
  {
    hide RowRecord, AppendTarget;
    if items != [] {
      RowAsTarget(b, inner, items[0]);
      var r := RowRecord(b, inner, items[0]);
      if r.Done? {
        RowsAsItems(r.bytes, inner, items[1..]);
      }
    }
  }

  /** The writer departs from the generic one: the declared rows are of another type, or a long row is written. */
  predicate Departs(b: seq<byte>, fs: seq<Field>, name: string, inner: TypeRepr, items: seq<Value>) {
    var k := FieldIndex(fs, name);
    && k.Some? && Nested(fs[k.value].ty) && |items| < U32_LIMIT
    && (fs[k.value].ty.element.element != inner || WritesLongRow(Header(b, |items|), inner, items))
  }

  lemma WriteRowsExact(b: seq<byte>, fs: seq<Field>, t: OffsetTable, name: string, inner: TypeRepr, items: seq<Value>)
    requires GoodRecord(fs) && OffsetsFor(fs) == Some(t) && inner.Scalar?()
    ensures WriteRows(b, fs, t, name, inner, items) ==
      WriteField(b, fs, t, name, TypeRepr.List(TypeRepr.List(inner)), VList(items))
      <==> !Departs(b, fs, name, inner, items)
  {
    hide GoodRecord, OffsetsFor, TypeMatches, AppendRows, AppendItems, AppendTarget, WritesLongRow, PatchEntries,
      Header;
    var ty := TypeRepr.List(TypeRepr.List(inner));
    var at := FieldIndex(fs, name);
    if at.Some? {
      var k := at.value;
      SlotRoom(fs, t, k);
      GoodField(fs, k);
      TypeMatchesEqual(fs[k].ty, ty);
      if Nested(fs[k].ty) && |items| < U32_LIMIT {
        var r := AppendRows(Header(b, |items|), inner, items);
        if fs[k].ty == ty {
          RowsAsItems(Header(b, |items|), inner, items);
          GenericRows(b, inner, items);
          PointerField(b, fs, t, name, ty, k, VList(items));
        }
      } else if fs[k].ty == ty {
        TooLong(b, fs, t, name, TypeRepr.List(inner), items);
      }
    }
  }

  // ----- the same condition read off the rows -----

  /** Every row is a list of elements of the row type. */
  predicate RowsConform(inner: TypeRepr, items: seq<Value>)
    requires inner.Scalar?()
  {
    forall i :: 0 <= i < |items| ==> items[i].VList? && ScalarPayload(inner, items[i].items).Some?
  }

  predicate LongRow(v: Value) {
    v.VList? && |v.items| >= U32_LIMIT
  }

  /** Room for the rows: each takes its elements, its count and padding. */
  function RowsRoom(inner: TypeRepr, items: seq<Value>): nat
    requires inner.Scalar?()
  {
    if items == [] then 0
    else (if items[0].VList? then 16 + ElemsSize(inner, |items[0].items|) else 16) + RowsRoom(inner, items[1..])
  }

  lemma RowRoom(b: seq<byte>, inner: TypeRepr, v: Value)
    requires inner.Scalar?() && v.VList? && ScalarPayload(inner, v.items).Some?
    ensures var r := RowRecord(b, inner, v);
      r.Done? && r.off <= |b| + 3 && |r.bytes| <= |b| + 16 + ElemsSize(inner, |v.items|)
  {
    hide ScalarPayload, Le;
  }

  lemma {:induction false} LongRowReached(b: seq<byte>, inner: TypeRepr, items: seq<Value>, i: nat)
    requires inner.Scalar?() && RowsConform(inner, items) && i < |items| && LongRow(items[i])
    requires |b| + RowsRoom(inner, items[..i]) < U32_LIMIT
    ensures WritesLongRow(b, inner, items)
    decreases i
  {
    hide RowRecord, ScalarPayload, ElemsSize;
    RowRoom(b, inner, items[0]);
    if i > 0 && !LongRow(items[0]) {
      assert items[..i][0] == items[0] && items[..i][1..] == items[1..][..i - 1];
      LongRowReached(RowRecord(b, inner, items[0]).bytes, inner, items[1..], i - 1);
    }
  }

  lemma {:induction false} NoLongRow(b: seq<byte>, inner: TypeRepr, items: seq<Value>)
    requires forall i :: 0 <= i < |items| ==> !LongRow(items[i])
    ensures !WritesLongRow(b, inner, items)
    decreases |items|
  {
    hide RowRecord;
    if items != [] {
      var r := RowRecord(b, inner, items[0]);
      if r.Done? { NoLongRow(r.bytes, inner, items[1..]); }
    }
  }

  /** For rows that conform, written where a long one is still below 2^32: the two writers differ exactly
      when the row type is not the declared one or some row has 2^32 elements or more. */
  lemma ConformingRowsExact(
    b: seq<byte>, fs: seq<Field>, t: OffsetTable, name: string, inner: TypeRepr, items: seq<Value>)
    requires GoodRecord(fs) && OffsetsFor(fs) == Some(t) && inner.Scalar?() && RowsConform(inner, items)
    requires FieldIndex(fs, name).Some? && Nested(fs[FieldIndex(fs, name).value].ty) && |items| < U32_LIMIT
    requires forall i :: 0 <= i < |items| && LongRow(items[i]) ==>
      |Header(b, |items|)| + RowsRoom(inner, items[..i]) < U32_LIMIT
    ensures
      var ty := TypeRepr.List(TypeRepr.List(inner));
      WriteRows(b, fs, t, name, inner, items) == WriteField(b, fs, t, name, ty, VList(items)) <==>
        fs[FieldIndex(fs, name).value].ty == ty && forall i :: 0 <= i < |items| ==> !LongRow(items[i])
  {
    hide GoodRecord, OffsetsFor, WriteRows, WriteField, WritesLongRow, Header, RowsConform, RowsRoom;
    WriteRowsExact(b, fs, t, name, inner, items);
    if forall i :: 0 <= i < |items| ==> !LongRow(items[i]) {
      NoLongRow(Header(b, |items|), inner, items);
    } else {
      var i :| 0 <= i < |items| && LongRow(items[i]);
      LongRowReached(Header(b, |items|), inner, items, i);
    }
  }

  lemma GenericRows(b: seq<byte>, inner: TypeRepr, items: seq<Value>)
    requires |items| < U32_LIMIT
    ensures var g := AppendItems(Header(b, |items|), TypeRepr.List(inner), items);
      AppendTarget(b, TypeRepr.List(TypeRepr.List(inner)), VList(items), false) ==
        Closed(g.bytes, |PadTo(b, 4)|, if g.Items? then Some(g.offs) else None)
  {
    hide AppendItems, AppendTarget, AppendList, PatchEntries, PadTo, Le;
    var g := AppendItems(Header(b, |items|), TypeRepr.List(inner), items);
    PointerListTarget(b, TypeRepr.List(inner), items, g.bytes, if g.Items? then Some(g.offs) else None);
  }

  /** A single long row that conforms is accepted here and refused by the generic writer. */
  lemma LongRowAccepted(b: seq<byte>, fs: seq<Field>, t: OffsetTable, name: string, inner: TypeRepr, row: seq<Value>)
    requires GoodRecord(fs) && OffsetsFor(fs) == Some(t) && t.rootSize <= |b| && inner.Scalar?()
    requires FieldIndex(fs, name).Some? && fs[FieldIndex(fs, name).value].ty == TypeRepr.List(TypeRepr.List(inner))
    requires |row| >= U32_LIMIT && ScalarPayload(inner, row).Some? && |b| + 16 < U32_LIMIT
    ensures WriteRows(b, fs, t, name, inner, [VList(row)]).ok
    ensures !WriteField(b, fs, t, name, TypeRepr.List(TypeRepr.List(inner)), VList([VList(row)])).ok
  {
    hide GoodRecord, OffsetsFor, TypeMatches, ScalarPayload, PatchEntries, Le, AppendItems, AppendTarget;
    var ty, items, k := TypeRepr.List(TypeRepr.List(inner)), [VList(row)], FieldIndex(fs, name).value;
    SlotRoom(fs, t, k);
    GoodField(fs, k);
    TypeMatchesEqual(fs[k].ty, ty);
    var h := Header(b, 1);
    assert items[1..] == [];
    assert WritesLongRow(h, inner, items);
    RowsAsItems(h, inner, items);
    GenericRows(b, inner, items);
    PointerField(b, fs, t, name, ty, k, VList(items));
    var r := RowRecord(h, inner, items[0]);
    assert AppendRows(r.bytes, inner, items[1..]) == Items(r.bytes, []);
    assert AppendRows(h, inner, items) == Items(r.bytes, [r.off]);
  }

  /** Rows that are not inline scalars are refused, but for the empty list. */
  lemma OtherRowsRefused(b: seq<byte>, fs: seq<Field>, t: OffsetTable, name: string, inner: TypeRepr, items: seq<Value>)
    requires !inner.Scalar?() && items != []
    ensures !WriteRows(b, fs, t, name, inner, items).ok
  {
  }

  // ----- another row type of the same width -----

  function Bits(xs: seq<i64>): (r: seq<u64>)
    ensures |r| == |xs| && forall i :: 0 <= i < |r| ==> r[i] == I64Bits(xs[i])
  {
    seq(|xs|, i requires 0 <= i < |xs| => I64Bits(xs[i]))
  }

  function IntRows(xss: seq<seq<i64>>): (r: seq<Value>)
    ensures |r| == |xss| && forall i :: 0 <= i < |r| ==> r[i] == VList(Ints(xss[i]))
  {
    seq(|xss|, i requires 0 <= i < |xss| => VList(Ints(xss[i])))
  }

  function BitRows(xss: seq<seq<i64>>): (r: seq<Value>)
    ensures |r| == |xss| && forall i :: 0 <= i < |r| ==> r[i] == VList(Floats(Bits(xss[i])))
  {
    seq(|xss|, i requires 0 <= i < |xss| => VList(Floats(Bits(xss[i]))))
  }

  lemma {:induction false} IntPayloadBits(xs: seq<i64>)
    ensures ScalarPayload(TypeRepr.Int, Ints(xs)) == ScalarPayload(TypeRepr.Float, Floats(Bits(xs)))
    decreases |xs|
  {
    hide Le;
    if xs != [] {
      assert Ints(xs)[1..] == Ints(xs[1..]) && Floats(Bits(xs))[1..] == Floats(Bits(xs[1..]));
      IntPayloadBits(xs[1..]);
    }
  }

  lemma {:induction false} IntRowsBits(b: seq<byte>, xss: seq<seq<i64>>)
    ensures AppendRows(b, TypeRepr.Int, IntRows(xss)) == AppendRows(b, TypeRepr.Float, BitRows(xss))
    decreases |xss|
  {
    hide ScalarPayload, AppendTailRecordAligned;
    if xss != [] {
      IntPayloadBits(xss[0]);
      var r := RowRecord(b, TypeRepr.Int, IntRows(xss)[0]);
      assert r == RowRecord(b, TypeRepr.Float, BitRows(xss)[0]);
      assert IntRows(xss)[1..] == IntRows(xss[1..]) && BitRows(xss)[1..] == BitRows(xss[1..]);
      if r.Done? { IntRowsBits(r.bytes, xss[1..]); }
    }
  }

  /** Integer rows written into a field that declares float rows are not promoted, as the generic writer
      would: they are written as the floats with the same bits. */
  lemma IntRowsReinterpreted(b: seq<byte>, fs: seq<Field>, t: OffsetTable, name: string, xss: seq<seq<i64>>)
    ensures WriteRows(b, fs, t, name, TypeRepr.Int, IntRows(xss)) ==
      WriteRows(b, fs, t, name, TypeRepr.Float, BitRows(xss))
  {
    hide AppendRows, FieldIndex;
    IntRowsBits(Header(b, |xss|), xss);
  }

  // ----- what the field then holds -----

  /** The elements of a row that the 32-bit count admits. */
  function Truncated(v: Value): Value {
    if v.VList? then VList(v.items[..|v.items| % U32_LIMIT]) else v
  }

  function TruncatedRows(items: seq<Value>): (r: seq<Value>)
    ensures |r| == |items| && forall i :: 0 <= i < |r| ==> r[i] == Truncated(items[i])
  {
    seq(|items|, i requires 0 <= i < |items| => Truncated(items[i]))
  }

  /** Rows that fit are kept whole. */
  lemma RowsKept(items: seq<Value>)
    requires forall i :: 0 <= i < |items| && items[i].VList? ==> |items[i].items| < U32_LIMIT
    ensures TruncatedRows(items) == items
  {
    forall i | 0 <= i < |items|
      ensures Truncated(items[i]) == items[i]
    {
      if items[i].VList? { assert items[i].items[..|items[i].items|] == items[i].items; }
    }
  }

  lemma {:induction false} PayloadPrefix(e: TypeRepr, items: seq<Value>, n: nat)
    requires e.Scalar?() && ScalarPayload(e, items).Some? && n <= |items|
    ensures ScalarPayload(e, items[..n]).Some? && ScalarPayload(e, items[..n]).value <= ScalarPayload(e, items).value
    decreases n
  {
    hide ScalarBytes;
    if n > 0 {
      assert items[..n][1..] == items[1..][..n - 1];
      PayloadPrefix(e, items[1..], n - 1);
    }
  }

  lemma {:induction false} ScalarsWritable(e: TypeRepr, items: seq<Value>)
    requires e.Scalar?()
    ensures AllWritable(e, items)
    decreases |items|
  {
    if items != [] { ScalarsWritable(e, items[1..]); }
  }

  /** More bytes behind an object do not matter to it. */
  lemma DoneLonger(b: seq<byte>, r: Appended, r': Appended, ty: TypeRepr, v: Value, o: Obj)
    requires TargetDone(b, r, ty, v, o) && r'.Done? && r'.off == r.off && r.bytes <= r'.bytes
    ensures TargetDone(b, r', ty, v, o)
  {
    hide Shape, Decode, Norm, RebasableValue, Good, Rebasable;
    EncFrame(r.bytes, r'.bytes, o.parts);
    WithinWider(o.parts, 0, |r.bytes|, 0, |r'.bytes|);
    WithinWider(o.parts, |b|, |r.bytes|, |b|, |r'.bytes|);
  }

  /** A written row is the encoding of its truncation, with the elements past it behind. */
  lemma RowWritten(b: seq<byte>, inner: TypeRepr, v: Value) returns (o: Obj)
    requires RowRecord(b, inner, v).Done?
    ensures TargetDone(b, RowRecord(b, inner, v), TypeRepr.List(inner), Truncated(v), o)
  {
    hide TargetDone, ScalarPayload, Le, AppendTarget, AllWritable;
    var row := v.items;
    var n := |row| % U32_LIMIT;
    var short := VList(row[..n]);
    PayloadPrefix(inner, row, n);
    LeWraps(|row|);
    RowAsTarget(b, inner, short);
    ScalarsWritable(inner, row[..n]);
    o := TargetWritten(b, TypeRepr.List(inner), short, true);
    DoneLonger(b, RowRecord(b, inner, short), RowRecord(b, inner, v), TypeRepr.List(inner), short, o);
  }

  lemma {:induction false} RowsWritten(b: seq<byte>, inner: TypeRepr, items: seq<Value>) returns (objs: seq<Obj>)
    requires AppendRows(b, inner, items).Items?
    ensures var r := AppendRows(b, inner, items);
      && b <= r.bytes && |objs| == |items| == |r.offs| && Apart(objs)
      && forall i :: 0 <= i < |objs| ==>
           && ItemHeld(r.bytes, |b|, TypeRepr.List(inner), objs[i])
           && ItemDone(TypeRepr.List(inner), TruncatedRows(items)[i], objs[i]) && objs[i].pos == r.offs[i]
    decreases |items|
  {
    hide RowRecord, ItemHeld, ItemDone, Apart, TargetDone;
    if items == [] {
      objs := [];
      assert Apart(objs) by { NoneApart(); }
    } else {
      var e, first := TypeRepr.List(inner), RowRecord(b, inner, items[0]);
      var o := RowWritten(b, inner, items[0]);
      DoneExtends(b, first, e, Truncated(items[0]), o);
      var rest := RowsWritten(first.bytes, inner, items[1..]);
      objs := [o] + rest;
      assert TruncatedRows(items)[1..] == TruncatedRows(items[1..]);
      ItemsJoin(b, first, AppendRows(first.bytes, inner, items[1..]), e, TruncatedRows(items), o, rest);
    }
  }

  lemma NoneApart()
    ensures Apart([])
  {
  }

  /** What the fields hold after the call: the truncated rows where the row type is the declared one,
      nothing known where it is not. */
  function RowsValues(
    values: seq<Option<Value>>, fs: seq<Field>, name: string, inner: TypeRepr, items: seq<Value>, ok: bool):
    seq<Option<Value>>
  {
    var k := FieldIndex(fs, name);
    if !ok || k.None? || k.value >= |values| then values
    else if fs[k.value].ty == TypeRepr.List(TypeRepr.List(inner)) then
      values[k.value := Some(VList(TruncatedRows(items)))]
    else values[k.value := None]
  }

  lemma RowsHeld(
    b: seq<byte>, fs: seq<Field>, t: OffsetTable, slots: seq<Option<Part>>, values: seq<Option<Value>>, name: string,
    inner: TypeRepr, items: seq<Value>)
    returns (slots': seq<Option<Part>>)
    requires Holding(b, fs, t, slots, values)
    ensures var w := WriteRows(b, fs, t, name, inner, items);
      && Holding(w.bytes, fs, t, slots', RowsValues(values, fs, name, inner, items, w.ok))
      && TailKept(b, w.bytes, t)
    ensures OnlyNew(slots, slots', t.rootSize, |b|, [])
  {
    hide Holding, GoodRecord, OffsetsFor, AppendRows, PatchEntries, Header, TargetDone, ItemHeld, ItemDone, Apart,
      TruncatedRows;
    HoldingLayout(b, fs, t, slots, values);
    slots' := slots;
    var at := FieldIndex(fs, name);
    if at.Some? && Nested(fs[at.value].ty) && |items| < U32_LIMIT {
      var k, h := at.value, Header(b, |items|);
      var slot := t.fields[k].offset;
      SlotRoom(fs, t, k);
      RowsExtend(h, inner, items);
      var rows := AppendRows(h, inner, items);
      var r := Closed(rows.bytes, |PadTo(b, 4)|, if rows.Items? then Some(rows.offs) else None);
      ClosedExtends(b, items, rows);
      PointerTail(b, r, slot, t);
      var w := WritePointer(r, slot);
      if !w.ok {
        HoldingLonger(b, w.bytes, fs, t, slots, values);
      } else if fs[k].ty == TypeRepr.List(TypeRepr.List(inner)) {
        GoodField(fs, k);
        var o := RowsPlaced(b, inner, items);
        slots' := ChildLinked(b, r, fs, t, slots, values, k, VList(TruncatedRows(items)), o);
      } else {
        HoldingDropped(b, w.bytes, fs, t, slots, values, k);
        slots' := slots[k := None];
      }
    }
  }

  lemma {:induction false} RowsExtend(b: seq<byte>, inner: TypeRepr, items: seq<Value>)
    ensures b <= AppendRows(b, inner, items).bytes
    decreases |items|
  {
    if items != [] {
      var r := RowRecord(b, inner, items[0]);
      assert b <= r.bytes;
      if r.Done? { RowsExtend(r.bytes, inner, items[1..]); }
    }
  }

  lemma ClosedExtends(b: seq<byte>, items: seq<Value>, rows: AppendedItems)
    requires Header(b, |items|) <= rows.bytes && (rows.Items? ==> Fit(rows.offs) && |rows.offs| == |items|)
    ensures b <= Closed(rows.bytes, |PadTo(b, 4)|, if rows.Items? then Some(rows.offs) else None).bytes
  {
    hide Le, PatchEntries;
    if rows.Items? { PatchKeeps(rows.bytes, |PadTo(b, 4)| + 4, rows.offs); }
  }

  lemma RowsPlaced(b: seq<byte>, inner: TypeRepr, items: seq<Value>) returns (o: Obj)
    requires Good(TypeRepr.List(TypeRepr.List(inner))) && |items| < U32_LIMIT
    requires AppendRows(Header(b, |items|), inner, items).Items?
    ensures var r := AppendRows(Header(b, |items|), inner, items);
      TargetDone(b, Closed(r.bytes, |PadTo(b, 4)|, Some(r.offs)), TypeRepr.List(TypeRepr.List(inner)),
                 VList(TruncatedRows(items)), o)
  {
    hide AppendRows, ItemHeld, ItemDone, Apart, TargetDone, PatchEntries, Le, Good;
    var e, r := TypeRepr.List(inner), AppendRows(Header(b, |items|), inner, items);
    var objs := RowsWritten(Header(b, |items|), inner, items);
    ListPlaced(b, e, TruncatedRows(items), r.bytes, r.offs, objs);
    o := ListObj(|PadTo(b, 4)|, e, objs);
  }

  // ----- the writers -----

  lemma RowsStep(start: seq<byte>, b: seq<byte>, inner: TypeRepr, items: seq<Value>, i: nat, out: seq<nat>)
    requires i < |items| && AppendRows(start, inner, items) == PrependOffs(out, AppendRows(b, inner, items[i..]))
    ensures var r := RowRecord(b, inner, items[i]);
      && (r.Failed? ==> AppendRows(start, inner, items) == ItemsFailed(r.bytes))
      && (r.Done? && r.off >= U32_LIMIT ==> AppendRows(start, inner, items) == ItemsFailed(r.bytes))
      && (r.Done? && r.off < U32_LIMIT ==>
            AppendRows(start, inner, items) == PrependOffs(out + [r.off], AppendRows(r.bytes, inner, items[i + 1..])))
  {
    hide RowRecord;
    assert items[i..][1..] == items[i + 1..];
    var r := RowRecord(b, inner, items[i]);
    if r.Done? && r.off < U32_LIMIT {
      var rest := AppendRows(r.bytes, inner, items[i + 1..]);
      if rest.Items? { assert out + ([r.off] + rest.offs) == (out + [r.off]) + rest.offs; }
    }
  }

  method AppendScalarRows(b: BufferBuilder, inner: TypeRepr, items: seq<Value>) returns (offs: Option<seq<nat>>)
    modifies b`bytes
    ensures AsItems(b.bytes, offs) == AppendRows(old(b.bytes), inner, items)
  {
    hide AppendRows, AppendTailRecordAligned, ScalarPayload;
    var out: seq<nat> := [];
    RowsStart(b.bytes, inner, items);
    for i := 0 to |items|
      invariant AppendRows(old(b.bytes), inner, items) == PrependOffs(out, AppendRows(b.bytes, inner, items[i..]))
    {
      RowsStep(old(b.bytes), b.bytes, inner, items, i, out);
      if !items[i].VList? || !inner.Scalar?() { return None; }
      var payload := EncodeScalars(inner, items[i].items);
      if payload.None? { return None; }
      var off := b.TailRecordAligned(PayloadAlign(inner), |items[i].items|, payload.value);
      if off >= U32_LIMIT { return None; }
      out := out + [off];
    }
    RowsEnd(b.bytes, inner, items, out);
    return Some(out);
  }

  lemma RowsStart(b: seq<byte>, inner: TypeRepr, items: seq<Value>)
    ensures AppendRows(b, inner, items) == PrependOffs([], AppendRows(b, inner, items[0..]))
  {
    assert items[0..] == items;
    var r := AppendRows(b, inner, items);
    if r.Items? { assert [] + r.offs == r.offs; }
  }

  lemma RowsEnd(b: seq<byte>, inner: TypeRepr, items: seq<Value>, out: seq<nat>)
    ensures PrependOffs(out, AppendRows(b, inner, items[|items|..])) == Items(b, out)
  {
    assert out + [] == out;
  }

  /** Any row type and any rows: the bytes are those of `WriteRows`, and the field holds the truncated rows. */
  method WriteNestedScalarList(b: BufferBuilder, name: string, inner: TypeRepr, items: seq<Value>) returns (ok: bool)
    requires b.Valid()
    modifies b
    ensures b.Valid()
    ensures Wrote(ok, b.bytes) == WriteRows(old(b.bytes), b.fields, b.layout, name, inner, items)
    ensures b.values == RowsValues(old(b.values), b.fields, name, inner, items, ok)
    ensures TailKept(old(b.bytes), b.bytes, b.layout)
    ensures OnlyNew(old(b.slots), b.slots, b.layout.rootSize, |old(b.bytes)|, [])
  {
    hide Holding, GoodRecord, OffsetsFor, WriteRows, RowsValues, OnlyNew, TailKept;
    HoldingLayout(b.bytes, b.fields, b.layout, b.slots, b.values);
    ghost var slots := RowsHeld(b.bytes, b.fields, b.layout, b.slots, b.values, name, inner, items);
    ok := PutRows(b, name, inner, items);
    b.slots, b.values := slots, RowsValues(b.values, b.fields, name, inner, items, ok);
  }

  method PutRows(b: BufferBuilder, name: string, inner: TypeRepr, items: seq<Value>) returns (ok: bool)
    requires GoodRecord(b.fields) && OffsetsFor(b.fields) == Some(b.layout) && b.layout.rootSize <= |b.bytes|
    modifies b`bytes
    ensures Wrote(ok, b.bytes) == WriteRows(old(b.bytes), b.fields, b.layout, name, inner, items)
  {
    hide GoodRecord, OffsetsFor, AppendRows, Le, PatchEntries;
    var k := FindEntry(b.fields, name);
    if k.None? || !Nested(b.fields[k.value].ty) || |items| >= U32_LIMIT { return false; }
    SlotRoom(b.fields, b.layout, k.value);
    var header := OpenList(b, |items|);
    RowsExtend(b.bytes, inner, items);
    var offs := AppendScalarRows(b, inner, items);
    ok := CloseList(b, b.layout.fields[k.value].offset, header, offs);
  }

  // ----- rows of pointer arrays -----

  function WriteInner(
    b: seq<byte>, fs: seq<Field>, t: OffsetTable, name: string, inner: TypeRepr, items: seq<Value>): Wrote
  {
    match FieldIndex(fs, name)
    case None => Wrote(false, b)
    case Some(k) =>
      if k >= |t.fields| || !Nested(fs[k].ty) then Wrote(false, b)
      else WritePointer(AppendList(b, TypeRepr.List(inner), items), t.fields[k].offset)
  }

  /** The writer is the generic one exactly when the row type is the declared one, but for calls both refuse. */
  lemma WriteInnerExact(b: seq<byte>, fs: seq<Field>, t: OffsetTable, name: string, inner: TypeRepr, items: seq<Value>)
    requires GoodRecord(fs) && OffsetsFor(fs) == Some(t)
    ensures WriteInner(b, fs, t, name, inner, items) ==
      WriteField(b, fs, t, name, TypeRepr.List(TypeRepr.List(inner)), VList(items))
      <==> !(FieldIndex(fs, name).Some? && Nested(fs[FieldIndex(fs, name).value].ty) && |items| < U32_LIMIT
             && fs[FieldIndex(fs, name).value].ty.element.element != inner)
  {
    hide GoodRecord, OffsetsFor, TypeMatches, AppendItems, AppendTarget, PatchEntries, Le;
    var ty := TypeRepr.List(TypeRepr.List(inner));
    var at := FieldIndex(fs, name);
    if at.Some? {
      var k := at.value;
      SlotRoom(fs, t, k);
      GoodField(fs, k);
      TypeMatchesEqual(fs[k].ty, ty);
      if fs[k].ty == ty {
        PointerField(b, fs, t, name, ty, k, VList(items));
        ListTarget(b, TypeRepr.List(inner), items, false);
      }
    }
  }

  function InnerValues(
    values: seq<Option<Value>>, fs: seq<Field>, name: string, inner: TypeRepr, items: seq<Value>, ok: bool):
    seq<Option<Value>>
  {
    var k := FieldIndex(fs, name);
    var ty := TypeRepr.List(TypeRepr.List(inner));
    if !ok || k.None? || k.value >= |values| then values
    else values[k.value := if fs[k.value].ty == ty && Writable(ty, VList(items)) then Some(VList(items)) else None]
  }

  lemma InnerHeld(
    b: seq<byte>, fs: seq<Field>, t: OffsetTable, slots: seq<Option<Part>>, values: seq<Option<Value>>, name: string,
    inner: TypeRepr, items: seq<Value>)
    returns (slots': seq<Option<Part>>)
    requires Holding(b, fs, t, slots, values)
    ensures var w := WriteInner(b, fs, t, name, inner, items);
      && Holding(w.bytes, fs, t, slots', InnerValues(values, fs, name, inner, items, w.ok))
      && TailKept(b, w.bytes, t)
    ensures OnlyNew(slots, slots', t.rootSize, |b|, [])
  {
    hide Holding, GoodRecord, OffsetsFor, AppendList, WriteField, Writable, TypeMatches;
    HoldingLayout(b, fs, t, slots, values);
    slots' := slots;
    var at, ty := FieldIndex(fs, name), TypeRepr.List(TypeRepr.List(inner));
    if at.Some? && Nested(fs[at.value].ty) {
      var k := at.value;
      var slot := t.fields[k].offset;
      SlotRoom(fs, t, k);
      var r := AppendList(b, TypeRepr.List(inner), items);
      assert b <= r.bytes by {
        ListTarget(b, TypeRepr.List(inner), items, false);
        AppendExtends(b, ty, VList(items), false);
      }
      PointerTail(b, r, slot, t);
      var w := WritePointer(r, slot);
      if fs[k].ty == ty {
        WriteInnerExact(b, fs, t, name, inner, items);
        slots' := NamedStep(b, fs, t, slots, values, name, ty, VList(items));
      } else if !w.ok {
        HoldingLonger(b, w.bytes, fs, t, slots, values);
      } else {
        HoldingDropped(b, w.bytes, fs, t, slots, values, k);
        slots' := slots[k := None];
      }
    }
  }

  /** The rows of a nested pointer-array list, each written by the recursive list writer. */
  method AppendInnerLists(b: BufferBuilder, inner: TypeRepr, items: seq<Value>) returns (offs: Option<seq<nat>>)
    requires Good(TypeRepr.List(inner))
    modifies b`bytes
    ensures AsItems(b.bytes, offs) == AppendItems(old(b.bytes), TypeRepr.List(inner), items)
  {
    hide AppendItems, AppendList, Good;
    var e := TypeRepr.List(inner);
    var out: seq<nat> := [];
    ItemsStart(b.bytes, e, items);
    for i := 0 to |items|
      invariant AppendItems(old(b.bytes), e, items) == PrependOffs(out, AppendItems(b.bytes, e, items[i..]))
    {
      ItemsStep(old(b.bytes), b.bytes, e, items, i, out, AppendTarget(b.bytes, e, items[i], true));
      if !items[i].VList? { return None; }
      var off := b.AppendListPayload(inner, items[i].items);
      if off.None? || off.value >= U32_LIMIT { return None; }
      out := out + [off.value];
    }
    ItemsEnd(b.bytes, e, items, out);
    return Some(out);
  }

  method WriteNestedPointerArrayList(
    b: BufferBuilder, name: string, inner: TypeRepr, items: seq<Value>)
    returns (ok: bool)
    requires b.Valid() && Good(TypeRepr.List(inner))
    modifies b
    ensures b.Valid()
    ensures Wrote(ok, b.bytes) == WriteInner(old(b.bytes), b.fields, b.layout, name, inner, items)
    ensures b.values == InnerValues(old(b.values), b.fields, name, inner, items, ok)
    ensures TailKept(old(b.bytes), b.bytes, b.layout)
    ensures OnlyNew(old(b.slots), b.slots, b.layout.rootSize, |old(b.bytes)|, [])
  {
    hide Holding, GoodRecord, OffsetsFor, WriteInner, InnerValues, OnlyNew, TailKept, Good;
    HoldingLayout(b.bytes, b.fields, b.layout, b.slots, b.values);
    ghost var slots := InnerHeld(b.bytes, b.fields, b.layout, b.slots, b.values, name, inner, items);
    ok := PutInner(b, name, inner, items);
    b.slots, b.values := slots, InnerValues(b.values, b.fields, name, inner, items, ok);
  }

  method PutInner(b: BufferBuilder, name: string, inner: TypeRepr, items: seq<Value>) returns (ok: bool)
    requires GoodRecord(b.fields) && OffsetsFor(b.fields) == Some(b.layout) && b.layout.rootSize <= |b.bytes|
    requires Good(TypeRepr.List(inner))
    modifies b`bytes
    ensures Wrote(ok, b.bytes) == WriteInner(old(b.bytes), b.fields, b.layout, name, inner, items)
  {
    hide GoodRecord, OffsetsFor, AppendItems, AppendList, Le, PatchEntries, Good, Closed;
    var k := FindEntry(b.fields, name);
    if k.None? || !Nested(b.fields[k.value].ty) { return false; }
    SlotRoom(b.fields, b.layout, k.value);
    if |items| >= U32_LIMIT {
      LongListRefused(b.bytes, TypeRepr.List(inner), items);
      return false;
    }
    var header := OpenList(b, |items|);
    var offs := AppendInnerLists(b, inner, items);
    PointerListAppended(old(b.bytes), TypeRepr.List(inner), items, b.bytes, offs);
    ok := CloseList(b, b.layout.fields[k.value].offset, header, offs);
  }

  lemma LongListRefused(b: seq<byte>, e: TypeRepr, items: seq<Value>)
    requires |items| >= U32_LIMIT
    ensures AppendList(b, e, items) == Failed(b)
  {
  }
}
