/** The typed writers next to the generic one: from the same builder they leave exactly the bytes the
    generic writer would, and give the field the same value. */
module SpecialisedWriting {
  import opened Bytes
  import opened Wrappers
  import opened Schemas
  import opened Layout
  import opened LayoutFacts
  import opened Values
  import opened Writer
  import opened RecordFacts
  import opened WriterRuns
  import opened Builder

  /** The builder went from `was` and `before` to `bytes` and `values` as the generic writer takes it. */
  ghost predicate AsGeneric(
    was: seq<byte>, before: seq<Option<Value>>, fs: seq<Field>, t: OffsetTable, name: string, ty: TypeRepr, v: Value,
    ok: bool, bytes: seq<byte>, values: seq<Option<Value>>)
  {
    Wrote(ok, bytes) == WriteField(was, fs, t, name, ty, v) && values == Updated(before, fs, name, ty, v, ok)
  }

  lemma {:induction false} ScalarPayloadSnoc(e: TypeRepr, items: seq<Value>, x: Value)
    requires e.Scalar?() && ScalarPayload(e, items).Some? && ScalarBytes(e, x).Some?
    ensures ScalarPayload(e, items + [x]) == Some(ScalarPayload(e, items).value + ScalarBytes(e, x).value)
    decreases |items|
  {
    hide ScalarBytes;
    if items == [] {
      var last := ScalarBytes(e, x).value;
      assert items + [x] == [x] && [x][1..] == [] && last + [] == [] + last;
    } else {
      assert (items + [x])[1..] == items[1..] + [x];
      ScalarPayloadSnoc(e, items[1..], x);
      var head, last := ScalarBytes(e, items[0]).value, ScalarBytes(e, x).value;
      var rest := ScalarPayload(e, items[1..]).value;
      assert head + (rest + last) == (head + rest) + last;
    }
  }

  lemma NarrowListPad(b: seq<byte>, n: nat, payload: seq<byte>)
    ensures AppendTailRecord(b, n, payload) == AppendTailRecordAligned(b, 4, n, payload)
  {
    hide Le;
    var p := PadTo(b, 4);
    assert AlignUp(|p| + 4, 4) == |p| + 4;
    assert PadTo(p + Le(n, 4), 4) == p + Le(n, 4);
  }

  // ----- locating a field -----

  /** The slot of `name` if it is declared with type `ty`. */
  method Locate(b: BufferBuilder, name: string, ty: TypeRepr) returns (k: Option<nat>)
    requires b.Valid()
    ensures k.Some? ==> k.value < |b.fields| && k.value < |b.layout.fields| && b.fields[k.value].ty == ty
    ensures k.Some? ==> FieldIndex(b.fields, name) == k && TypeMatches(b.fields[k.value].ty, ty)
    ensures k.None? ==> forall was, v :: WriteField(was, b.fields, b.layout, name, ty, v) == Wrote(false, was)
  {
    hide Holding, GoodRecord, OffsetsFor, TypeMatches, WriteSlot;
    HoldingLayout(b.bytes, b.fields, b.layout, b.slots, b.values);
    var i := FindEntry(b.fields, name);
    if i.None? || !TypeMatches(b.fields[i.value].ty, ty) { return None; }
    TypeMatchesEqual(b.fields[i.value].ty, ty);
    return i;
  }

  /** Points a field's slot at an appended record. */
  method Link(b: BufferBuilder, slot: nat, off: nat) returns (ok: bool)
    requires slot + 4 <= |b.bytes|
    modifies b`bytes
    ensures Wrote(ok, b.bytes) == WritePointer(Done(old(b.bytes), off), slot)
  {
    hide Le;
    if off >= U32_LIMIT { return false; }
    b.bytes := PutU32(b.bytes, slot, off);
    return true;
  }

  lemma PointerField(b: seq<byte>, fs: seq<Field>, t: OffsetTable, name: string, ty: TypeRepr, k: nat, v: Value)
    requires FieldIndex(fs, name) == Some(k) && k < |t.fields| && TypeMatches(fs[k].ty, ty) && ty.Pointer?()
    ensures WriteField(b, fs, t, name, ty, v) == WritePointer(AppendTarget(b, ty, v, false), t.fields[k].offset)
  {
    hide AppendTarget, TypeMatches;
  }

  // ----- strings -----

  /** Unlike the generic writer, `write_string` refuses a string whose length needs more than 32 bits. */
  method WriteString(b: BufferBuilder, name: string, s: Utf8) returns (ok: bool)
    requires b.Valid()
    modifies b
    ensures b.Valid()
    ensures OnlyNew(old(b.slots), b.slots, b.layout.rootSize, |old(b.bytes)|, [])
    ensures |s| < U32_LIMIT ==> AsGeneric(old(b.bytes), old(b.values), b.fields, b.layout, name,
              TypeRepr.String, VString(s), ok, b.bytes, b.values)
    ensures |s| >= U32_LIMIT ==> !ok && b.bytes == old(b.bytes) && b.values == old(b.values)
  {
    hide Holding, GoodRecord, OffsetsFor, Le, Updated, WriteField;
    var k := Locate(b, name, TypeRepr.String);
    ghost var was, before := b.bytes, b.values;
    if k.None? {
      assert WriteField(was, b.fields, b.layout, name, TypeRepr.String, VString(s)) == Wrote(false, was);
      UpdatedFailed(before, b.fields, name, TypeRepr.String, VString(s));
      return false;
    }
    if |s| >= U32_LIMIT { return false; }
    HoldingLayout(b.bytes, b.fields, b.layout, b.slots, b.values);
    SlotRoom(b.fields, b.layout, k.value);
    ghost var slots := NamedStep(b.bytes, b.fields, b.layout, b.slots, b.values, name, TypeRepr.String, VString(s));
    PointerField(was, b.fields, b.layout, name, TypeRepr.String, k.value, VString(s));
    var off := b.TailRecord(|s|, s);
    ok := Link(b, b.layout.fields[k.value].offset, off);
    b.slots, b.values := slots, Updated(before, b.fields, name, TypeRepr.String, VString(s), ok);
  }

  lemma UpdatedFailed(values: seq<Option<Value>>, fs: seq<Field>, name: string, ty: TypeRepr, v: Value)
    ensures Updated(values, fs, name, ty, v, false) == values
  {
  }

  // ----- lists of inline scalars -----

  /** Appends a list of inline scalars whose payload is already encoded, and links it. */
  method WriteScalarRecord(
    b: BufferBuilder, name: string, e: TypeRepr, k: nat, inner: Alignment, ghost items: seq<Value>, n: nat,
    payload: seq<byte>)
    returns (ok: bool)
    requires b.Valid() && e.Scalar?() && n == |items| < U32_LIMIT && ScalarPayload(e, items) == Some(payload)
    requires FieldIndex(b.fields, name) == Some(k) && k < |b.layout.fields| && b.fields[k].ty == TypeRepr.List(e)
    requires TypeMatches(b.fields[k].ty, TypeRepr.List(e)) && inner == PayloadAlign(e)
    modifies b
    ensures b.Valid()
    ensures OnlyNew(old(b.slots), b.slots, b.layout.rootSize, |old(b.bytes)|, [])
    ensures AsGeneric(old(b.bytes), old(b.values), b.fields, b.layout, name,
              TypeRepr.List(e), VList(items), ok, b.bytes, b.values)
  {
    hide Holding, GoodRecord, OffsetsFor, Le, Updated, WriteField, ScalarPayload, TypeMatches;
    ghost var was, before := b.bytes, b.values;
    HoldingLayout(b.bytes, b.fields, b.layout, b.slots, b.values);
    SlotRoom(b.fields, b.layout, k);
    ghost var slots := NamedStep(b.bytes, b.fields, b.layout, b.slots, b.values, name, TypeRepr.List(e), VList(items));
    PointerField(was, b.fields, b.layout, name, TypeRepr.List(e), k, VList(items));
    ScalarListTarget(was, e, items);
    var off := b.TailRecordAligned(inner, n, payload);
    ok := Link(b, b.layout.fields[k].offset, off);
    b.slots, b.values := slots, Updated(before, b.fields, name, TypeRepr.List(e), VList(items), ok);
  }

  lemma ScalarListTarget(b: seq<byte>, e: TypeRepr, items: seq<Value>)
    requires e.Scalar?() && |items| < U32_LIMIT && ScalarPayload(e, items).Some?
    ensures AppendTarget(b, TypeRepr.List(e), VList(items), false) ==
      AppendTailRecordAligned(b, PayloadAlign(e), |items|, ScalarPayload(e, items).value)
  {
    hide AppendTailRecordAligned, ScalarPayload;
  }

  /** A refused write changes nothing, as the generic one would not. */
  lemma Refused(
    b: seq<byte>, values: seq<Option<Value>>, fs: seq<Field>, t: OffsetTable, name: string, ty: TypeRepr, v: Value)
    requires WriteField(b, fs, t, name, ty, v) == Wrote(false, b)
    ensures AsGeneric(b, values, fs, t, name, ty, v, false, b, values)
  {
  }

  lemma TooLong(b: seq<byte>, fs: seq<Field>, t: OffsetTable, name: string, e: TypeRepr, items: seq<Value>)
    requires |items| >= U32_LIMIT
    ensures WriteField(b, fs, t, name, TypeRepr.List(e), VList(items)) == Wrote(false, b)
  {
    hide TypeMatches;
    assert AppendList(b, e, items) == Failed(b);
    assert AppendTarget(b, TypeRepr.List(e), VList(items), false) == Failed(b);
  }

  lemma NoPayload(e: TypeRepr)
    requires e.Scalar?()
    ensures ScalarPayload(e, []) == Some([])
  {
  }

  lemma IntBytes(x: i64)
    ensures ScalarBytes(TypeRepr.Int, VInt(x)) == Some(Le(I64Bits(x), 8))
  {
  }

  lemma FloatBytes(x: u64)
    ensures ScalarBytes(TypeRepr.Float, VFloat(x)) == Some(Le(x, 8))
  {
  }

  lemma BoolBytes(x: bool)
    ensures ScalarBytes(TypeRepr.Bool, VBool(x)) == Some([if x then 1 else 0])
  {
  }

  method EncodeInts(values: seq<i64>) returns (payload: seq<byte>)
    ensures ScalarPayload(TypeRepr.Int, Ints(values)) == Some(payload)
  {
    hide Le, ScalarBytes, ScalarPayload;
    payload := [];
    NoPayload(TypeRepr.Int);
    for i := 0 to |values|
      invariant ScalarPayload(TypeRepr.Int, Ints(values[..i])) == Some(payload)
    {
      IntBytes(values[i]);
      ScalarPayloadSnoc(TypeRepr.Int, Ints(values[..i]), VInt(values[i]));
      assert Ints(values[..i + 1]) == Ints(values[..i]) + [VInt(values[i])];
      payload := payload + Le(I64Bits(values[i]), 8);
    }
    assert values[..|values|] == values;
  }

  method EncodeFloats(values: seq<u64>) returns (payload: seq<byte>)
    ensures ScalarPayload(TypeRepr.Float, Floats(values)) == Some(payload)
  {
    hide Le, ScalarBytes, ScalarPayload;
    payload := [];
    NoPayload(TypeRepr.Float);
    for i := 0 to |values|
      invariant ScalarPayload(TypeRepr.Float, Floats(values[..i])) == Some(payload)
    {
      FloatBytes(values[i]);
      ScalarPayloadSnoc(TypeRepr.Float, Floats(values[..i]), VFloat(values[i]));
      assert Floats(values[..i + 1]) == Floats(values[..i]) + [VFloat(values[i])];
      payload := payload + Le(values[i], 8);
    }
    assert values[..|values|] == values;
  }

  method EncodeBools(values: seq<bool>) returns (payload: seq<byte>)
    ensures ScalarPayload(TypeRepr.Bool, Bools(values)) == Some(payload)
  {
    hide Le, ScalarBytes, ScalarPayload;
    payload := [];
    NoPayload(TypeRepr.Bool);
    for i := 0 to |values|
      invariant ScalarPayload(TypeRepr.Bool, Bools(values[..i])) == Some(payload)
    {
      BoolBytes(values[i]);
      ScalarPayloadSnoc(TypeRepr.Bool, Bools(values[..i]), VBool(values[i]));
      assert Bools(values[..i + 1]) == Bools(values[..i]) + [VBool(values[i])];
      payload := payload + [if values[i] then 1 else 0];
    }
    assert values[..|values|] == values;
  }

  method WriteListInt(b: BufferBuilder, name: string, values: seq<i64>) returns (ok: bool)
    requires b.Valid()
    modifies b
    ensures b.Valid()
    ensures OnlyNew(old(b.slots), b.slots, b.layout.rootSize, |old(b.bytes)|, [])
    ensures AsGeneric(old(b.bytes), old(b.values), b.fields, b.layout, name,
              TypeRepr.List(TypeRepr.Int), VList(Ints(values)), ok, b.bytes, b.values)
  {
    hide AsGeneric, Holding, GoodRecord, OffsetsFor, Le, WriteField, ScalarBytes, ScalarPayload;
    ghost var ty, v := TypeRepr.List(TypeRepr.Int), VList(Ints(values));
    var k := Locate(b, name, TypeRepr.List(TypeRepr.Int));
    if k.None? {
      Refused(b.bytes, b.values, b.fields, b.layout, name, ty, v);
      return false;
    }
    if |values| >= U32_LIMIT {
      TooLong(b.bytes, b.fields, b.layout, name, TypeRepr.Int, Ints(values));
      Refused(b.bytes, b.values, b.fields, b.layout, name, ty, v);
      return false;
    }
    var payload := EncodeInts(values);
    HoldingLayout(b.bytes, b.fields, b.layout, b.slots, b.values);
    WideListAlign(b.fields, b.layout, k.value);
    var inner := b.layout.fields[k.value].kind.tailAlignment;
    ok := WriteScalarRecord(b, name, TypeRepr.Int, k.value, inner, Ints(values), |values|, payload);
  }

  method WriteListFloat(b: BufferBuilder, name: string, values: seq<u64>) returns (ok: bool)
    requires b.Valid()
    modifies b
    ensures b.Valid()
    ensures OnlyNew(old(b.slots), b.slots, b.layout.rootSize, |old(b.bytes)|, [])
    ensures AsGeneric(old(b.bytes), old(b.values), b.fields, b.layout, name,
              TypeRepr.List(TypeRepr.Float), VList(Floats(values)), ok, b.bytes, b.values)
  {
    hide AsGeneric, Holding, GoodRecord, OffsetsFor, Le, WriteField, ScalarBytes, ScalarPayload;
    ghost var ty, v := TypeRepr.List(TypeRepr.Float), VList(Floats(values));
    var k := Locate(b, name, TypeRepr.List(TypeRepr.Float));
    if k.None? {
      Refused(b.bytes, b.values, b.fields, b.layout, name, ty, v);
      return false;
    }
    if |values| >= U32_LIMIT {
      TooLong(b.bytes, b.fields, b.layout, name, TypeRepr.Float, Floats(values));
      Refused(b.bytes, b.values, b.fields, b.layout, name, ty, v);
      return false;
    }
    var payload := EncodeFloats(values);
    HoldingLayout(b.bytes, b.fields, b.layout, b.slots, b.values);
    WideListAlign(b.fields, b.layout, k.value);
    var inner := b.layout.fields[k.value].kind.tailAlignment;
    ok := WriteScalarRecord(b, name, TypeRepr.Float, k.value, inner, Floats(values), |values|, payload);
  }

  /** Booleans follow the count directly, which is where the generic writer's padding to 4 puts them. */
  method WriteListBool(b: BufferBuilder, name: string, values: seq<bool>) returns (ok: bool)
    requires b.Valid()
    modifies b
    ensures b.Valid()
    ensures OnlyNew(old(b.slots), b.slots, b.layout.rootSize, |old(b.bytes)|, [])
    ensures AsGeneric(old(b.bytes), old(b.values), b.fields, b.layout, name,
              TypeRepr.List(TypeRepr.Bool), VList(Bools(values)), ok, b.bytes, b.values)
  {
    hide AsGeneric, Holding, GoodRecord, OffsetsFor, Le, WriteField, ScalarBytes, ScalarPayload, Updated,
      AppendTailRecord, AppendTailRecordAligned;
    ghost var ty, v := TypeRepr.List(TypeRepr.Bool), VList(Bools(values));
    var k := Locate(b, name, TypeRepr.List(TypeRepr.Bool));
    if k.None? {
      Refused(b.bytes, b.values, b.fields, b.layout, name, ty, v);
      return false;
    }
    if |values| >= U32_LIMIT {
      TooLong(b.bytes, b.fields, b.layout, name, TypeRepr.Bool, Bools(values));
      Refused(b.bytes, b.values, b.fields, b.layout, name, ty, v);
      return false;
    }
    var payload := EncodeBools(values);
    ghost var was, before := b.bytes, b.values;
    HoldingLayout(b.bytes, b.fields, b.layout, b.slots, b.values);
    SlotRoom(b.fields, b.layout, k.value);
    ghost var slots := NamedStep(b.bytes, b.fields, b.layout, b.slots, b.values, name, ty, v);
    PointerField(was, b.fields, b.layout, name, ty, k.value, v);
    ScalarListTarget(was, TypeRepr.Bool, Bools(values));
    NarrowListPad(was, |values|, payload);
    var off := b.TailRecord(|values|, payload);
    ok := Link(b, b.layout.fields[k.value].offset, off);
    b.slots, b.values := slots, Updated(before, b.fields, name, ty, v, ok);
    Accepted(was, before, b.fields, b.layout, name, ty, v, ok, b.bytes, b.values);
  }

  lemma Accepted(
    was: seq<byte>, before: seq<Option<Value>>, fs: seq<Field>, t: OffsetTable, name: string, ty: TypeRepr, v: Value,
    ok: bool, bytes: seq<byte>, values: seq<Option<Value>>)
    requires Wrote(ok, bytes) == WriteField(was, fs, t, name, ty, v) && values == Updated(before, fs, name, ty, v, ok)
    ensures AsGeneric(was, before, fs, t, name, ty, v, ok, bytes, values)
  {
  }

  // ----- pointer arrays -----

  function AsItems(b: seq<byte>, offs: Option<seq<nat>>): AppendedItems {
    if offs.Some? then Items(b, offs.value) else ItemsFailed(b)
  }

  method AppendStrings(b: BufferBuilder, values: seq<Utf8>) returns (offs: Option<seq<nat>>)
    modifies b`bytes
    ensures AsItems(b.bytes, offs) == AppendItems(old(b.bytes), TypeRepr.String, Strings(values))
  {
    hide AppendItems, AppendTailRecord;
    ghost var items := Strings(values);
    var out: seq<nat> := [];
    ItemsStart(b.bytes, TypeRepr.String, items);
    for i := 0 to |values|
      invariant AppendItems(old(b.bytes), TypeRepr.String, items) ==
        PrependOffs(out, AppendItems(b.bytes, TypeRepr.String, items[i..]))
    {
      ItemsStep(old(b.bytes), b.bytes, TypeRepr.String, items, i, out,
                AppendTarget(b.bytes, TypeRepr.String, items[i], true));
      if |values[i]| >= U32_LIMIT { return None; }
      var off := b.TailRecord(|values[i]|, values[i]);
      if off >= U32_LIMIT { return None; }
      out := out + [off];
    }
    ItemsEnd(b.bytes, TypeRepr.String, items, out);
    return Some(out);
  }

  /** Reserves the header of a pointer array: the count and zeroed entries. */
  method OpenList(b: BufferBuilder, n: nat) returns (header: nat)
    modifies b`bytes
    ensures header == |PadTo(old(b.bytes), 4)| && b.bytes == PadTo(old(b.bytes), 4) + Le(n, 4) + Zeros(4 * n)
  {
    hide Le;
    b.Pad(4);
    header := |b.bytes|;
    b.bytes := b.bytes + Le(n, 4);
    b.bytes := b.bytes + Zeros(4 * n);
  }

  /** Back-patches the entries and points the field's slot at the header; nothing on a failed row. */
  method CloseList(b: BufferBuilder, slot: nat, header: nat, offs: Option<seq<nat>>) returns (ok: bool)
    requires slot + 4 <= |b.bytes| && (offs.Some? ==> Fit(offs.value) && header + 4 + 4 * |offs.value| <= |b.bytes|)
    modifies b`bytes
    ensures Wrote(ok, b.bytes) == WritePointer(Closed(old(b.bytes), header, offs), slot)
  {
    hide Le;
    if offs.None? { return false; }
    b.PatchHeader(header + 4, offs.value);
    ok := Link(b, slot, header);
  }

  function Closed(b: seq<byte>, header: nat, offs: Option<seq<nat>>): Appended
    requires offs.Some? ==> Fit(offs.value)
  {
    if offs.None? then Failed(b) else Done(PatchEntries(b, header + 4, offs.value), header)
  }

  lemma ListAppended(b: seq<byte>, e: TypeRepr, items: seq<Value>)
    requires (e.String? || e.List?) && |items| < U32_LIMIT
    ensures AppendList(b, e, items) ==
      match AppendItems(PadTo(b, 4) + Le(|items|, 4) + Zeros(4 * |items|), e, items)
      case ItemsFailed(bytes) => Failed(bytes)
      case Items(bytes, offs) => Done(PatchEntries(bytes, |PadTo(b, 4)| + 4, offs), |PadTo(b, 4)|)
  {
    hide AppendItems, PatchEntries, Le, PadTo, ScalarPayload;
  }

  lemma PointerListAppended(b: seq<byte>, e: TypeRepr, items: seq<Value>, bytes: seq<byte>, offs: Option<seq<nat>>)
    requires (e.String? || e.List?) && |items| < U32_LIMIT
    requires AsItems(bytes, offs) == AppendItems(PadTo(b, 4) + Le(|items|, 4) + Zeros(4 * |items|), e, items)
    ensures offs.Some? ==> Fit(offs.value) && |offs.value| == |items|
    ensures AppendList(b, e, items) == Closed(bytes, |PadTo(b, 4)|, offs)
    ensures |PadTo(b, 4)| + 4 + 4 * |items| <= |bytes|
  {
    hide AppendItems, AppendList, PatchEntries, Le, PadTo;
    ListAppended(b, e, items);
  }

  lemma PointerListTarget(b: seq<byte>, e: TypeRepr, items: seq<Value>, bytes: seq<byte>, offs: Option<seq<nat>>)
    requires (e.String? || e.List?) && |items| < U32_LIMIT
    requires AsItems(bytes, offs) == AppendItems(PadTo(b, 4) + Le(|items|, 4) + Zeros(4 * |items|), e, items)
    ensures offs.Some? ==> Fit(offs.value) && |offs.value| == |items|
    ensures AppendTarget(b, TypeRepr.List(e), VList(items), false) == Closed(bytes, |PadTo(b, 4)|, offs)
    ensures |PadTo(b, 4)| + 4 + 4 * |items| <= |bytes|
  {
    hide AppendItems, AppendList, AppendTarget, PatchEntries, Le, PadTo, Closed, AsItems;
    PointerListAppended(b, e, items, bytes, offs);
    ListTarget(b, e, items, false);
  }

  lemma ListTarget(b: seq<byte>, e: TypeRepr, items: seq<Value>, inList: bool)
    ensures AppendTarget(b, TypeRepr.List(e), VList(items), inList) == AppendList(b, e, items)
  {
    hide AppendList;
  }

  method WriteListString(b: BufferBuilder, name: string, values: seq<Utf8>) returns (ok: bool)
    requires b.Valid()
    modifies b
    ensures b.Valid()
    ensures OnlyNew(old(b.slots), b.slots, b.layout.rootSize, |old(b.bytes)|, [])
    ensures AsGeneric(old(b.bytes), old(b.values), b.fields, b.layout, name,
              TypeRepr.List(TypeRepr.String), VList(Strings(values)), ok, b.bytes, b.values)
  {
    hide AsGeneric, Holding, GoodRecord, OffsetsFor, Le, WriteField, AppendItems, AppendTarget, Updated, Closed,
      TypeMatches;
    ghost var ty, v := TypeRepr.List(TypeRepr.String), VList(Strings(values));
    ghost var was, before := b.bytes, b.values;
    var k := Locate(b, name, TypeRepr.List(TypeRepr.String));
    if k.None? {
      Refused(b.bytes, b.values, b.fields, b.layout, name, ty, v);
      return false;
    }
    if |values| >= U32_LIMIT {
      TooLong(b.bytes, b.fields, b.layout, name, TypeRepr.String, Strings(values));
      Refused(b.bytes, b.values, b.fields, b.layout, name, ty, v);
      return false;
    }
    HoldingLayout(b.bytes, b.fields, b.layout, b.slots, b.values);
    SlotRoom(b.fields, b.layout, k.value);
    ghost var slots := NamedStep(b.bytes, b.fields, b.layout, b.slots, b.values, name, ty, v);
    PointerField(was, b.fields, b.layout, name, ty, k.value, v);
    var header := OpenList(b, |values|);
    var offs := AppendStrings(b, values);
    PointerListTarget(was, TypeRepr.String, Strings(values), b.bytes, offs);
    ok := CloseList(b, b.layout.fields[k.value].offset, header, offs);
    b.slots, b.values := slots, Updated(before, b.fields, name, ty, v, ok);
    Accepted(was, before, b.fields, b.layout, name, ty, v, ok, b.bytes, b.values);
  }
}
