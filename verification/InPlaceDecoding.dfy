/** The in-place decoders as they run: each field and each list shape goes to its own typed reader, and
    what comes out is what `InPlace` says. */
module InPlaceDecoding {
  import opened Bytes
  import opened Wrappers
  import opened Schemas
  import opened Layout
  import opened LayoutFacts
  import opened Values
  import opened Reader
  import opened BufferReading
  import opened SpecialisedReading
  import opened Verifier
  import opened VerifierFacts
  import opened InPlace

  /** The reader succeeds exactly when `g` does, with the same result. */
  predicate Gives<T(==)>(r: Option<T>, g: Read<T>) {
    (r.Some? <==> g.Ok?) && (r.Some? ==> r.value == g.value)
  }

  function Kept<T>(g: Read<T>): (r: Option<T>)
    ensures Gives(r, g)
  {
    if g.Ok? then Some(g.value) else None
  }

  /** The slot of a field in a record that fits the buffer, with the tail alignment its layout gives. */
  predicate SlotReadable(b: seq<byte>, slot: nat, ty: TypeRepr, tail: Alignment) {
    && (ty.Inline?() ==> slot + InlineSize(ty) <= |b|)
    && (ty.List? && (ty.element.Int? || ty.element.Float?) ==> tail == 8)
  }

  lemma SlotsReadable(b: seq<byte>, base: nat, t: OffsetTable, fs: seq<Field>, k: nat)
    requires RecordWellNamed(fs) && OffsetsFor(fs) == Some(t) && base + t.rootSize <= |b| && k < |fs|
    ensures FindOffset(t.fields, fs[k].name).Some? && WellNamed(fs[k].ty)
    ensures var fo := FindOffset(t.fields, fs[k].name).value; SlotReadable(b, base + fo.offset, fs[k].ty, TailAlign(fo))
  {
    hide OffsetsFor, FindOffset, WellNamed, DistinctNames;
    SlotFacts(fs, t, k);
    FieldWellNamed(fs, k);
    if fs[k].ty.List? && (fs[k].ty.element.Int? || fs[k].ty.element.Float?) { WideListAlign(fs, t, k); }
  }

  method ReadObjectField(b: seq<byte>, slot: nat, tail: Alignment, ty: TypeRepr) returns (r: Option<Value>)
    requires WellNamed(ty) && SlotReadable(b, slot, ty, tail)
    ensures Gives(r, ObjectFieldAt(b, slot, ty))
    decreases Depth(ty), 4
  {
    hide LeVal, FieldAt, ObjectSlotsAt, OffsetsFor, Zip, ObjectListAt;
    match ty
    case Int => var i := ReadInt(b, slot); return Some(VInt(i));
    case Float => var x := ReadFloat(b, slot); return Some(VFloat(x));
    case Bool => var x := ReadBool(b, slot); return Some(VBool(x));
    case Unit => UnitSlot(b, slot); return Some(OptionNone());
    case String =>
      var s := ReadString(b, slot);
      return if s.Some? then Some(VString(s.value)) else None;
    case Schema(s) =>
      var t := OffsetsFor(s.fields);
      if t.None? || slot + 4 > |b| { return None; }
      var p := U32At(b, slot);
      if p + t.value.rootSize > |b| { return None; }
      var vals := ReadObjectSlots(b, p, t.value, s.fields);
      return if vals.Some? then Some(VDict(Zip(s.fields, vals.value), Some(s.name), None)) else None;
    case Option(_) => var v := ReadFieldAt(b, slot, ty); return Kept(v);
    case Result(_, _) => var v := ReadFieldAt(b, slot, ty); return Kept(v);
    case Enum(_, _) => var v := ReadFieldAt(b, slot, ty); return Kept(v);
    case List(e) => r := ReadObjectList(b, slot, tail, e);
    case Closure => ClosureSlot(b, slot); return None;
  }

  lemma UnitSlot(b: seq<byte>, slot: nat)
    ensures FieldAt(b, slot, TypeRepr.Unit) == Ok(OptionNone())
  {
  }

  lemma ClosureSlot(b: seq<byte>, slot: nat)
    ensures FieldAt(b, slot, TypeRepr.Closure).Err?
  {
  }

  /** A list field, by its element type. */
  method ReadObjectList(b: seq<byte>, slot: nat, tail: Alignment, e: TypeRepr) returns (r: Option<Value>)
    requires WellNamed(e) && SlotReadable(b, slot, TypeRepr.List(e), tail)
    ensures Gives(r, ObjectFieldAt(b, slot, TypeRepr.List(e)))
    decreases Depth(e), 10
  {
    hide LeVal, FieldAt, ObjectEntries, OffsetsFor, WellNamed;
    match e
    case Int =>
      var xs := ReadListInt(b, slot, tail);
      return if xs.Some? then Some(VList(Ints(xs.value))) else None;
    case Float =>
      var xs := ReadListFloat(b, slot, tail);
      return if xs.Some? then Some(VList(Floats(xs.value))) else None;
    case Bool =>
      var xs := ReadListBool(b, slot);
      return if xs.Some? then Some(VList(Bools(xs.value))) else None;
    case String =>
      var xs := ReadListString(b, slot);
      return if xs.Some? then Some(VList(Strings(xs.value))) else None;
    case Schema(s) =>
      var t := OffsetsFor(s.fields);
      if t.None? || slot + 4 > |b| { return None; }
      SchemaNames(s);
      var items := ReadObjectEntries(b, U32At(b, slot), t.value, s);
      return if items.Some? then Some(VList(items.value)) else None;
    case List(inner) =>
      if inner.Scalar?() {
        var rows := ReadListList(b, slot, inner);
        return if rows.Some? then Some(VList(Rows(rows.value))) else None;
      }
      r := ReadListField(b, slot, e);
    case Option(_) => r := ReadListField(b, slot, e);
    case Result(_, _) => r := ReadListField(b, slot, e);
    case Enum(_, _) => r := ReadListField(b, slot, e);
    case Unit => NoElements(b, slot, e); return None;
    case Closure => NoElements(b, slot, e); return None;
  }

  lemma SchemaNames(s: SchemaRepr)
    requires WellNamed(TypeRepr.Schema(s))
    ensures RecordWellNamed(s.fields)
  {
  }

  lemma NoElements(b: seq<byte>, slot: nat, e: TypeRepr)
    requires e.Unit? || e.Closure?
    ensures FieldAt(b, slot, TypeRepr.List(e)).Err?
  {
    if slot + 4 <= |b| { assert FieldAt(b, slot, TypeRepr.List(e)) == TargetAt(b, U32At(b, slot), TypeRepr.List(e)); }
  }

  /** A list field through the recursive reader. */
  method ReadListField(b: seq<byte>, slot: nat, e: TypeRepr) returns (r: Option<Value>)
    ensures Gives(r, FieldAt(b, slot, TypeRepr.List(e)))
  {
    hide LeVal, ListAt;
    if slot + 4 > |b| { return None; }
    assert FieldAt(b, slot, TypeRepr.List(e)) == TargetAt(b, U32At(b, slot), TypeRepr.List(e));
    var items := ReadListValueAt(b, U32At(b, slot), e);
    return if items.Ok? then Some(VList(items.value)) else None;
  }

  method ReadObjectSlots(b: seq<byte>, base: nat, t: OffsetTable, fs: seq<Field>) returns (r: Option<seq<Value>>)
    requires RecordWellNamed(fs) && OffsetsFor(fs) == Some(t) && base + t.rootSize <= |b|
    ensures Gives(r, ObjectSlotsAt(b, base, t, fs))
    decreases FieldsDepth(fs), 5
  {
    hide FindOffset, ObjectFieldAt, OffsetsFor, RecordWellNamed, SlotReadable;
    var out: seq<Value> := [];
    assert fs[0..] == fs;
    PrefixedNone(ObjectSlotsAt(b, base, t, fs));
    for k := 0 to |fs|
      invariant ObjectSlotsAt(b, base, t, fs) == Prefixed(out, ObjectSlotsAt(b, base, t, fs[k..]))
    {
      SlotsReadable(b, base, t, fs, k);
      var fo := FindOffset(t.fields, fs[k].name).value;
      assert fs[k..][0] == fs[k] && fs[k..][1..] == fs[k + 1..];
      FieldDepth(fs, k);
      var v := ReadObjectField(b, base + fo.offset, TailAlign(fo), fs[k].ty);
      if v.None? { return None; }
      PrefixedCons(out, v.value, ObjectSlotsAt(b, base, t, fs[k + 1..]));
      out := out + [v.value];
    }
    assert out + [] == out;
    return Some(out);
  }

  method ReadObjectEntries(b: seq<byte>, header: nat, t: OffsetTable, s: SchemaRepr) returns (r: Option<seq<Value>>)
    requires RecordWellNamed(s.fields) && OffsetsFor(s.fields) == Some(t)
    ensures Gives(r, ObjectEntries(b, header, t, s))
    decreases 1 + FieldsDepth(s.fields), 8
  {
    hide LeVal, ObjectSlotsAt, Assemble, OffsetsFor, RecordWellNamed;
    if header + 4 > |b| { return None; }
    var count := U32At(b, header);
    if header + 4 + 4 * count > |b| { return None; }
    var out: seq<Value> := [];
    PrefixedNone(ObjectEntriesAt(b, header + 4, count, t, s));
    for i := 0 to count
      invariant ObjectEntriesAt(b, header + 4, count, t, s) ==
        Prefixed(out, ObjectEntriesAt(b, header + 4 + 4 * i, count - i, t, s))
    {
      var p := U32At(b, header + 4 + 4 * i);
      if p + t.rootSize > |b| { return None; }
      var vals := ReadObjectSlots(b, p, t, s.fields);
      if vals.None? { return None; }
      PrefixedCons(out, Assemble(s, vals.value), ObjectEntriesAt(b, header + 8 + 4 * i, count - i - 1, t, s));
      out := out + [Assemble(s, vals.value)];
    }
    assert out + [] == out;
    return Some(out);
  }

  /** A field of a dictionary element of a returned list. */
  method ReadRecordField(b: seq<byte>, slot: nat, tail: Alignment, ty: TypeRepr) returns (r: Option<Value>)
    requires SlotReadable(b, slot, ty, tail)
    ensures Gives(r, ElementFieldAt(b, slot, ty))
  {
    hide FieldAt;
    match ty
    case Int => var i := ReadInt(b, slot); return Some(VInt(i));
    case Float => var x := ReadFloat(b, slot); return Some(VFloat(x));
    case Bool => var x := ReadBool(b, slot); return Some(VBool(x));
    case Unit => UnitSlot(b, slot); return Some(OptionNone());
    case String =>
      var s := ReadString(b, slot);
      return if s.Some? then Some(VString(s.value)) else None;
    case List(e) => r := ReadListField(b, slot, e);
    case Option(_) => var v := ReadFieldAt(b, slot, ty); return Kept(v);
    case Result(_, _) => var v := ReadFieldAt(b, slot, ty); return Kept(v);
    case Enum(_, _) => var v := ReadFieldAt(b, slot, ty); return Kept(v);
    case Schema(_) => return None;
    case Closure => return None;
  }

  method ReadRecordSlots(b: seq<byte>, base: nat, t: OffsetTable, fs: seq<Field>) returns (r: Option<seq<Value>>)
    requires RecordWellNamed(fs) && OffsetsFor(fs) == Some(t) && base + t.rootSize <= |b|
    ensures Gives(r, ElementSlotsAt(b, base, t, fs))
  {
    hide FindOffset, ElementFieldAt, OffsetsFor, RecordWellNamed, SlotReadable;
    var out: seq<Value> := [];
    assert fs[0..] == fs;
    PrefixedNone(ElementSlotsAt(b, base, t, fs));
    for k := 0 to |fs|
      invariant ElementSlotsAt(b, base, t, fs) == Prefixed(out, ElementSlotsAt(b, base, t, fs[k..]))
    {
      SlotsReadable(b, base, t, fs, k);
      var fo := FindOffset(t.fields, fs[k].name).value;
      assert fs[k..][0] == fs[k] && fs[k..][1..] == fs[k + 1..];
      var v := ReadRecordField(b, base + fo.offset, TailAlign(fo), fs[k].ty);
      if v.None? { return None; }
      PrefixedCons(out, v.value, ElementSlotsAt(b, base, t, fs[k + 1..]));
      out := out + [v.value];
    }
    assert out + [] == out;
    return Some(out);
  }

  method ReadReturnedRecords(b: seq<byte>, header: nat, t: OffsetTable, s: SchemaRepr) returns (r: Option<seq<Value>>)
    requires RecordWellNamed(s.fields) && OffsetsFor(s.fields) == Some(t)
    requires header + 4 <= |b| && header + 4 + 4 * U32At(b, header) <= |b|
    ensures Gives(r, ReturnedRecordsAt(b, header + 4, U32At(b, header), t, s))
  {
    hide LeVal, ObjectSlotsAt, ElementSlotsAt, Assemble, OffsetsFor, RecordWellNamed;
    var count := U32At(b, header);
    var out: seq<Value> := [];
    PrefixedNone(ReturnedRecordsAt(b, header + 4, count, t, s));
    for i := 0 to count
      invariant ReturnedRecordsAt(b, header + 4, count, t, s) ==
        Prefixed(out, ReturnedRecordsAt(b, header + 4 + 4 * i, count - i, t, s))
    {
      var p := U32At(b, header + 4 + 4 * i);
      if p + t.rootSize > |b| { return None; }
      var vals: Option<seq<Value>>;
      if s.isTuple { vals := ReadObjectSlots(b, p, t, s.fields); } else { vals := ReadRecordSlots(b, p, t, s.fields); }
      if vals.None? { return None; }
      PrefixedCons(out, Assemble(s, vals.value), ReturnedRecordsAt(b, header + 8 + 4 * i, count - i - 1, t, s));
      out := out + [Assemble(s, vals.value)];
    }
    assert out + [] == out;
    return Some(out);
  }

  /** The list of a returned root: the shape of its element selects the reader. */
  method ReadReturnedList(b: seq<byte>, root: nat, e: TypeRepr) returns (r: Option<seq<Value>>)
    requires WellNamed(e)
    ensures Gives(r, ReturnedList(b, root, e))
  {
    hide LeVal, ListAt, ReturnedRecordsAt, OffsetsFor, WellNamed;
    match e
    case List(inner) =>
      if inner.Scalar?() {
        var rows := ReadListListAt(b, root, inner);
        return if rows.Some? then Some(Rows(rows.value)) else None;
      }
      var items := ReadListValueAt(b, root, e);
      return Kept(items);
    case String =>
      var xs := ReadListStringAt(b, root);
      return if xs.Some? then Some(Strings(xs.value)) else None;
    case Schema(s) =>
      var t := OffsetsFor(s.fields);
      if t.None? || root + 4 > |b| || root + 4 + 4 * U32At(b, root) > |b| { return None; }
      SchemaNames(s);
      r := ReadReturnedRecords(b, root, t.value, s);
    case Option(_) => var items := ReadListValueAt(b, root, e); return Kept(items);
    case Result(_, _) => var items := ReadListValueAt(b, root, e); return Kept(items);
    case Enum(_, _) => var items := ReadListValueAt(b, root, e); return Kept(items);
    case Int => return None;
    case Float => return None;
    case Bool => return None;
    case Unit => return None;
    case Closure => return None;
  }

  /** The whole list return: regions, verifier, then the reader of the shape. */
  method DecodeReturn(arena: seq<byte>, regions: ArenaRegions, root: nat, ty: TypeRepr, layout: OffsetTable)
    returns (r: Option<Value>)
    requires WellNamed(ty)
    ensures r == DecodeInplaceReturn(arena, regions, root, ty, layout)
  {
    hide VerifyValueAt, ReturnedList;
    if !ty.List? || regions.arenaSize > |arena| { return None; }
    var a := arena[..regions.arenaSize];
    var map4 := regions.Regions();
    if map4.None? || root >= regions.arenaSize { return None; }
    var kind := if layout.fields == [] then None else layout.fields[0].listElement;
    if !VerifyValueAt(a, ty, kind, root, Multi(map4.value)) || |a| < layout.rootSize { return None; }
    var items := ReadReturnedList(a, root, ty.element);
    return if items.Some? then Some(VList(items.value)) else None;
  }

  /** The whole object return: the record is verified, then its fields are read. */
  method DecodeObject(
    arena: seq<byte>, base: nat, regions: ArenaRegions, t: OffsetTable, s: SchemaRepr, wrapper: bool)
    returns (r: Option<Value>)
    requires RecordWellNamed(s.fields) && OffsetsFor(s.fields) == Some(t) && (wrapper ==> s.fields != [])
    ensures r == DecodeObjectReturn(arena, base, regions, t, s, wrapper)
  {
    hide VerifyRecord, OffsetsFor, ObjectFieldAt, FindOffset, RecordWellNamed, SlotReadable, Assemble;
    var map4 := regions.Regions();
    if map4.None? { return None; }
    if !VerifyRecord(arena, s.fields, t, base, Multi(map4.value)) { return None; }
    if base + t.rootSize > |arena| { return None; }
    if wrapper {
      SlotsReadable(arena, base, t, s.fields, 0);
      var fo := FindOffset(t.fields, s.fields[0].name).value;
      var v := ReadObjectField(arena, base + fo.offset, TailAlign(fo), s.fields[0].ty);
      FirstSlot(arena, base, t, s.fields);
      return v;
    }
    var vals := ReadObjectSlots(arena, base, t, s.fields);
    return if vals.Some? then Some(Assemble(s, vals.value)) else None;
  }

  lemma FirstSlot(b: seq<byte>, base: nat, t: OffsetTable, fs: seq<Field>)
    requires fs != [] && FindOffset(t.fields, fs[0].name).Some?
    ensures var v := ObjectFieldAt(b, base + FindOffset(t.fields, fs[0].name).value.offset, fs[0].ty);
      ObjectSlotsAt(b, base, t, fs[..1]) == Cons(v, Ok([]))
  {
    hide FindOffset, ObjectFieldAt;
    assert fs[..1][0] == fs[0] && fs[..1][1..] == [];
    assert ObjectSlotsAt(b, base, t, fs[..1][1..]) == Ok([]);
  }
}
