/** In-place returns: the sentinel that carries a root offset, and the decoders that run behind the
    verifier. Whatever they return, the verifier accepted the arena and the generic reader agrees. */
module InPlace {
  import opened Bytes
  import opened Wrappers
  import opened Schemas
  import opened Layout
  import opened LayoutFacts
  import opened Values
  import opened Reader
  import opened Verifier

  // ----- the sentinel -----

  type i32 = x: int | -0x8000_0000 <= x < 0x8000_0000

  /** The root offset a negative return value stands for. */
  function DecodeSentinel(ret: i32): (root: int)
    ensures ret < 0 ==> 0 <= root < 0x8000_0000 && ret == -(root + 1)
  {
    (0 - ret) - 1
  }

  /** Every root a negative return value can carry is recovered from exactly one such value. */
  lemma SentinelRoundTrip(root: nat)
    requires root < 0x8000_0000
    ensures DecodeSentinel(-(root + 1)) == root
    ensures forall ret: i32 :: ret < 0 && DecodeSentinel(ret) == root ==> ret == -(root + 1)
  {
  }

  // ----- the arena -----

  datatype ArenaRegions = ArenaRegions(
    constDataLen: nat, inPtr: nat, inLen: nat, outPtr: nat, outCap: nat, scratchBase: nat, arenaSize: nat)
  {
    /** The four windows; only the scratch window can be inverted. */
    function Regions(): (r: Option<MultiRegion>)
      ensures r.Some? <==> scratchBase <= arenaSize
      ensures r.Some? ==> r.value.Valid()
      ensures r.Some? ==> forall off: nat, len: nat :: Multi(r.value).AllowsSpan(off, len) <==>
        || off + len <= constDataLen || (inPtr <= off && off + len <= inPtr + inLen)
        || (outPtr <= off && off + len <= outPtr + outCap) || (scratchBase <= off && off + len <= arenaSize)
    {
      var m := MultiRegion(Region(0, constDataLen), Region(inPtr, inPtr + inLen), Region(outPtr, outPtr + outCap),
                           Region(scratchBase, arenaSize));
      if m.Valid() then Some(m) else None
    }
  }

  // ----- object fields: a bare nested record always becomes a dictionary -----

  function ObjectFieldAt(b: seq<byte>, slot: nat, ty: TypeRepr): Read<Value>
    decreases Depth(ty), 4
  {
    match ty
    case Schema(s) =>
      (match OffsetsFor(s.fields)
       case None => Err(Malformed)
       case Some(t) =>
         var p :- SlotPointer(b, slot);
         if p + t.rootSize > |b| then Err(Malformed)
         else
           var vals :- ObjectSlotsAt(b, p, t, s.fields);
           Ok(VDict(Zip(s.fields, vals), Some(s.name), None)))
    case List(e) => if e.Schema? then ObjectListAt(b, slot, e) else FieldAt(b, slot, ty)
    case _ => FieldAt(b, slot, ty)
  }

  function ObjectListAt(b: seq<byte>, slot: nat, e: TypeRepr): Read<Value>
    requires e.Schema?
    decreases Depth(e), 9
  {
    match OffsetsFor(e.schema.fields)
    case None => Err(Malformed)
    case Some(t) =>
      var header :- SlotPointer(b, slot);
      var items :- ObjectEntries(b, header, t, e.schema);
      Ok(VList(items))
  }

  /** The records of a list, in place. */
  function ObjectEntries(b: seq<byte>, header: nat, t: OffsetTable, s: SchemaRepr): Read<seq<Value>>
    decreases 1 + FieldsDepth(s.fields), 8
  {
    var n :- SlotPointer(b, header);
    if header + 4 + 4 * n > |b| then Err(Malformed) else ObjectEntriesAt(b, header + 4, n, t, s)
  }

  function ObjectEntriesAt(b: seq<byte>, off: nat, n: nat, t: OffsetTable, s: SchemaRepr): (r: Read<seq<Value>>)
    ensures r.Ok? ==> |r.value| == n
    decreases 1 + FieldsDepth(s.fields), 7, n
  {
    if n == 0 then Ok([])
    else
      var p :- SlotPointer(b, off);
      Cons(ObjectRecordAt(b, p, t, s), ObjectEntriesAt(b, off + 4, n - 1, t, s))
  }

  /** A record as a tuple or a branded dictionary, as its schema says. */
  function ObjectRecordAt(b: seq<byte>, p: nat, t: OffsetTable, s: SchemaRepr): Read<Value>
    decreases 1 + FieldsDepth(s.fields), 6
  {
    if p + t.rootSize > |b| then Err(Malformed)
    else
      var vals :- ObjectSlotsAt(b, p, t, s.fields);
      Ok(Assemble(s, vals))
  }

  function ObjectSlotsAt(b: seq<byte>, base: nat, t: OffsetTable, fs: seq<Field>): (r: Read<seq<Value>>)
    ensures r.Ok? ==> |r.value| == |fs|
    decreases FieldsDepth(fs), 5, |fs|
  {
    if fs == [] then Ok([])
    else
      match FindOffset(t.fields, fs[0].name)
      case None => Err(Malformed)
      case Some(fo) => Cons(ObjectFieldAt(b, base + fo.offset, fs[0].ty), ObjectSlotsAt(b, base, t, fs[1..]))
  }

  // ----- where the object decoder and the generic reader part -----

  /** Following the slots and the list entries the object decoder follows, a bare nested tuple record is reached. */
  predicate ReachesBareTuple(b: seq<byte>, slot: nat, ty: TypeRepr)
    decreases Depth(ty), 4
  {
    match ty
    case Schema(s) =>
      || s.isTuple
      || (&& OffsetsFor(s.fields).Some? && slot + 4 <= |b|
          && SlotsReach(b, U32At(b, slot), OffsetsFor(s.fields).value, s.fields))
    case List(e) =>
      (match e
       case Schema(s) =>
         assert Depth(e) == 1 + FieldsDepth(s.fields);
         slot + 4 <= |b| && ListReaches(b, U32At(b, slot), s)
       case _ => false)
    case _ => false
  }

  predicate SlotsReach(b: seq<byte>, base: nat, t: OffsetTable, fs: seq<Field>)
    decreases FieldsDepth(fs), 5, |fs|
  {
    fs != [] &&
    match FindOffset(t.fields, fs[0].name)
    case None => false
    case Some(fo) => ReachesBareTuple(b, base + fo.offset, fs[0].ty) || SlotsReach(b, base, t, fs[1..])
  }

  /** Some record of the list reaches one; an empty list reaches nothing, whatever its type. */
  predicate ListReaches(b: seq<byte>, header: nat, s: SchemaRepr)
    decreases 1 + FieldsDepth(s.fields), 8
  {
    OffsetsFor(s.fields).Some? && header + 4 <= |b| &&
    EntriesReach(b, header + 4, U32At(b, header), OffsetsFor(s.fields).value, s.fields)
  }

  predicate EntriesReach(b: seq<byte>, off: nat, n: nat, t: OffsetTable, fs: seq<Field>)
    decreases 1 + FieldsDepth(fs), 7, n
  {
    n > 0 && off + 4 <= |b| && (SlotsReach(b, U32At(b, off), t, fs) || EntriesReach(b, off + 4, n - 1, t, fs))
  }

  /** Whatever the object decoder returns, the generic reader reads too, and the two agree exactly when no
      bare tuple is reached. */
  lemma {:induction false} ObjectFieldExact(b: seq<byte>, slot: nat, ty: TypeRepr)
    requires WellNamed(ty) && ObjectFieldAt(b, slot, ty).Ok?
    ensures FieldAt(b, slot, ty).Ok?
    ensures FieldAt(b, slot, ty) == ObjectFieldAt(b, slot, ty) <==> !ReachesBareTuple(b, slot, ty)
    decreases Depth(ty), 4
  {
    hide OffsetsFor, LeVal, FindOffset, Zip, DistinctNames;
    match ty
    case Schema(s) =>
      var t := OffsetsFor(s.fields).value;
      var p := U32At(b, slot);
      ObjectSlotsExact(b, p, t, s.fields);
      assert FieldAt(b, slot, ty) == TargetAt(b, p, ty);
      assert TargetAt(b, p, ty) == RecordAt(b, p, s);
      AssembleInjective(s, SlotsAt(b, p, t, s.fields).value, ObjectSlotsAt(b, p, t, s.fields).value);
    case List(e) =>
      if e.Schema? {
        assert Depth(e) == 1 + FieldsDepth(e.schema.fields);
        assert WellNamed(e);
        ObjectEntriesExact(b, U32At(b, slot), OffsetsFor(e.schema.fields).value, e.schema);
        assert FieldAt(b, slot, ty) == TargetAt(b, U32At(b, slot), ty);
      }
    case _ =>
  }

  lemma {:induction false} ObjectEntriesExact(b: seq<byte>, header: nat, t: OffsetTable, s: SchemaRepr)
    requires OffsetsFor(s.fields) == Some(t) && RecordWellNamed(s.fields) && ObjectEntries(b, header, t, s).Ok?
    ensures ListAt(b, header, TypeRepr.Schema(s)).Ok?
    ensures ListAt(b, header, TypeRepr.Schema(s)) == ObjectEntries(b, header, t, s) <==> !ListReaches(b, header, s)
    decreases 1 + FieldsDepth(s.fields), 8
  {
    hide OffsetsFor, LeVal, ObjectEntriesAt, EntriesAt, EntriesReach, RecordWellNamed;
    ObjectEntriesAtExact(b, header + 4, U32At(b, header), t, s);
  }

  lemma {:induction false} ObjectEntriesAtExact(b: seq<byte>, off: nat, n: nat, t: OffsetTable, s: SchemaRepr)
    requires OffsetsFor(s.fields) == Some(t) && RecordWellNamed(s.fields) && ObjectEntriesAt(b, off, n, t, s).Ok?
    ensures EntriesAt(b, off, n, TypeRepr.Schema(s)).Ok?
    ensures EntriesAt(b, off, n, TypeRepr.Schema(s)) == ObjectEntriesAt(b, off, n, t, s) <==>
      !EntriesReach(b, off, n, t, s.fields)
    decreases 1 + FieldsDepth(s.fields), 7, n
  {
    hide OffsetsFor, LeVal, ObjectRecordAt, ElementAt, SlotsReach, RecordWellNamed;
    if n > 0 {
      ObjectRecordExact(b, U32At(b, off), t, s);
      ObjectEntriesAtExact(b, off + 4, n - 1, t, s);
      ConsSame(ElementAt(b, U32At(b, off), TypeRepr.Schema(s)), EntriesAt(b, off + 4, n - 1, TypeRepr.Schema(s)),
               ObjectRecordAt(b, U32At(b, off), t, s), ObjectEntriesAt(b, off + 4, n - 1, t, s));
    }
  }

  lemma ConsSame<T>(x: Read<T>, xs: Read<seq<T>>, y: Read<T>, ys: Read<seq<T>>)
    requires x.Ok? && xs.Ok? && y.Ok? && ys.Ok?
    ensures Cons(x, xs) == Cons(y, ys) <==> x == y && xs == ys
  {
    if Cons(x, xs) == Cons(y, ys) {
      assert ([x.value] + xs.value)[0] == ([y.value] + ys.value)[0];
      assert ([x.value] + xs.value)[1..] == xs.value && ([y.value] + ys.value)[1..] == ys.value;
    }
  }

  lemma {:induction false} ObjectRecordExact(b: seq<byte>, p: nat, t: OffsetTable, s: SchemaRepr)
    requires OffsetsFor(s.fields) == Some(t) && RecordWellNamed(s.fields) && ObjectRecordAt(b, p, t, s).Ok?
    ensures ElementAt(b, p, TypeRepr.Schema(s)).Ok?
    ensures ElementAt(b, p, TypeRepr.Schema(s)) == ObjectRecordAt(b, p, t, s) <==> !SlotsReach(b, p, t, s.fields)
    decreases 1 + FieldsDepth(s.fields), 6
  {
    hide OffsetsFor, ObjectSlotsAt, SlotsAt, SlotsReach, Assemble, DistinctNames;
    ObjectSlotsExact(b, p, t, s.fields);
    assert ElementAt(b, p, TypeRepr.Schema(s)) == RecordAt(b, p, s);
    AssembleInjective(s, SlotsAt(b, p, t, s.fields).value, ObjectSlotsAt(b, p, t, s.fields).value);
  }

  lemma {:induction false} ObjectSlotsExact(b: seq<byte>, base: nat, t: OffsetTable, fs: seq<Field>)
    requires FieldsWellNamed(fs) && ObjectSlotsAt(b, base, t, fs).Ok?
    ensures SlotsAt(b, base, t, fs).Ok?
    ensures SlotsAt(b, base, t, fs) == ObjectSlotsAt(b, base, t, fs) <==> !SlotsReach(b, base, t, fs)
    decreases FieldsDepth(fs), 5, |fs|
  {
    hide FindOffset, FieldAt, ObjectFieldAt, ReachesBareTuple, WellNamed;
    if fs != [] {
      var slot := base + FindOffset(t.fields, fs[0].name).value.offset;
      ObjectFieldExact(b, slot, fs[0].ty);
      ObjectSlotsExact(b, base, t, fs[1..]);
      ConsSame(FieldAt(b, slot, fs[0].ty), SlotsAt(b, base, t, fs[1..]),
               ObjectFieldAt(b, slot, fs[0].ty), ObjectSlotsAt(b, base, t, fs[1..]));
    }
  }

  /** A type none of whose fields is a bare tuple record reaches none in any buffer. */
  predicate NoBareTuple(ty: TypeRepr)
    decreases Depth(ty), 1
  {
    match ty
    case Schema(s) => !s.isTuple && NoBareTuples(s.fields)
    case List(e) =>
      (match e
       case Schema(s) =>
         assert Depth(e) == 1 + FieldsDepth(s.fields);
         NoBareTuples(s.fields)
       case _ => true)
    case _ => true
  }

  predicate NoBareTuples(fs: seq<Field>)
    decreases FieldsDepth(fs), 2, |fs|
  {
    fs != [] ==> NoBareTuple(fs[0].ty) && NoBareTuples(fs[1..])
  }

  lemma {:induction false} NothingReached(b: seq<byte>, slot: nat, ty: TypeRepr)
    requires NoBareTuple(ty)
    ensures !ReachesBareTuple(b, slot, ty)
    decreases Depth(ty), 4
  {
    hide OffsetsFor, LeVal;
    match ty
    case Schema(s) =>
      if OffsetsFor(s.fields).Some? && slot + 4 <= |b| {
        NoSlotReaches(b, U32At(b, slot), OffsetsFor(s.fields).value, s.fields);
      }
    case List(e) =>
      if e.Schema? && slot + 4 <= |b| {
        assert Depth(e) == 1 + FieldsDepth(e.schema.fields);
        var header := U32At(b, slot);
        if OffsetsFor(e.schema.fields).Some? && header + 4 <= |b| {
          NoEntryReaches(b, header + 4, U32At(b, header), OffsetsFor(e.schema.fields).value, e.schema.fields);
        }
      }
    case _ =>
  }

  lemma {:induction false} NoSlotReaches(b: seq<byte>, base: nat, t: OffsetTable, fs: seq<Field>)
    requires NoBareTuples(fs)
    ensures !SlotsReach(b, base, t, fs)
    decreases FieldsDepth(fs), 5, |fs|
  {
    hide FindOffset, ReachesBareTuple;
    if fs != [] && FindOffset(t.fields, fs[0].name).Some? {
      NothingReached(b, base + FindOffset(t.fields, fs[0].name).value.offset, fs[0].ty);
      NoSlotReaches(b, base, t, fs[1..]);
    }
  }

  lemma {:induction false} NoEntryReaches(b: seq<byte>, off: nat, n: nat, t: OffsetTable, fs: seq<Field>)
    requires NoBareTuples(fs)
    ensures !EntriesReach(b, off, n, t, fs)
    decreases 1 + FieldsDepth(fs), 7, n
  {
    hide LeVal, SlotsReach;
    if n > 0 && off + 4 <= |b| {
      NoSlotReaches(b, U32At(b, off), t, fs);
      NoEntryReaches(b, off + 4, n - 1, t, fs);
    }
  }

  const PAIR := SchemaRepr("Pair", [Field("0", TypeRepr.Bool)], true)
  const HOLDER := SchemaRepr("Holder", [Field("pair", TypeRepr.Schema(PAIR))], false)
  const HOLDERS := TypeRepr.List(TypeRepr.Schema(HOLDER))

  /** A list of one record whose field is a bare tuple: slot, header, entry, record, tuple. */
  const ONE_HOLDER: seq<byte> := [4, 0, 0, 0, 1, 0, 0, 0, 12, 0, 0, 0, 16, 0, 0, 0, 1]

  /** The same list empty. */
  const NO_HOLDER: seq<byte> := [4, 0, 0, 0, 0, 0, 0, 0]

  /** The layout of a record with one field. */
  lemma OneField(f: Field, d: Decision)
    requires FieldDecision(f.ty) == Some(d)
    ensures OffsetsFor([f]).Some?
    ensures var t := OffsetsFor([f]).value;
      && t.rootSize == AlignUp(SlotSize(d.kind), SlotAlign(d.kind))
      && FindOffset(t.fields, f.name).Some? && FindOffset(t.fields, f.name).value.offset == 0
  {
    hide FieldDecision;
    assert [f][1..] == [];
    assert Place([f][1..], SlotSize(d.kind)) == Some([]);
    var fos := Place([f], 0).value;
    assert fos[..0] == [] && AlignOf(fos[..0]) == 1;
  }

  lemma HolderLayout()
    ensures OffsetsFor(PAIR.fields).Some? && OffsetsFor(HOLDER.fields).Some? && WellNamed(HOLDERS)
    ensures var t := OffsetsFor(PAIR.fields).value;
      t.rootSize == 1 && FindOffset(t.fields, "0").Some? && FindOffset(t.fields, "0").value.offset == 0
    ensures var t := OffsetsFor(HOLDER.fields).value;
      t.rootSize == 4 && FindOffset(t.fields, "pair").Some? && FindOffset(t.fields, "pair").value.offset == 0
  {
    hide OffsetsFor, FindOffset;
    OneField(PAIR.fields[0], Decision(Inline(1, 1), None));
    OneField(HOLDER.fields[0], Decision(PointerIndirect(OffsetsFor(PAIR.fields).value.rootAlign), None));
    assert PAIR.fields[1..] == [] && HOLDER.fields[1..] == [];
    assert WellNamed(TypeRepr.Bool) && FieldsWellNamed(PAIR.fields[1..]) && FieldsWellNamed(PAIR.fields);
    assert WellNamed(TypeRepr.Schema(PAIR)) && FieldsWellNamed(HOLDER.fields[1..]) && FieldsWellNamed(HOLDER.fields);
    assert WellNamed(TypeRepr.Schema(HOLDER));
  }

  lemma HolderWords()
    ensures U32At(ONE_HOLDER, 0) == 4 && U32At(ONE_HOLDER, 4) == 1 && U32At(ONE_HOLDER, 8) == 12
    ensures U32At(ONE_HOLDER, 12) == 16
    ensures U32At(NO_HOLDER, 0) == 4 && U32At(NO_HOLDER, 4) == 0
  {
    hide U32At, LeVal;
    SmallWord(ONE_HOLDER, 0, 4);
    SmallWord(ONE_HOLDER, 4, 1);
    SmallWord(ONE_HOLDER, 8, 12);
    SmallWord(ONE_HOLDER, 12, 16);
    SmallWord(NO_HOLDER, 0, 4);
    SmallWord(NO_HOLDER, 4, 0);
  }

  lemma SmallWord(b: seq<byte>, off: nat, n: byte)
    requires off + 4 <= |b| && b[off] == n && b[off + 1] == 0 && b[off + 2] == 0 && b[off + 3] == 0
    ensures U32At(b, off) == n as int
  {
    var s := b[off..off + 4];
    assert s[0] == b[off] && s[1..][0] == 0 && s[1..][1..][0] == 0 && s[1..][1..][1..][0] == 0;
    assert s[1..][1..][1..][1..] == [];
    assert LeVal(s[1..][1..][1..]) == 0;
    assert LeVal(s[1..][1..]) == 0;
    assert LeVal(s[1..]) == 0;
  }

  /** The two decoders differ on the list of one and agree on the empty list, although the type is the same. */
  lemma HoldersDiffer()
    ensures ObjectFieldAt(ONE_HOLDER, 0, HOLDERS).Ok? && FieldAt(ONE_HOLDER, 0, HOLDERS).Ok?
    ensures ObjectFieldAt(ONE_HOLDER, 0, HOLDERS) != FieldAt(ONE_HOLDER, 0, HOLDERS)
    ensures ObjectFieldAt(NO_HOLDER, 0, HOLDERS) == FieldAt(NO_HOLDER, 0, HOLDERS) == Ok(VList([]))
  {
    HolderLayout();
    HolderWords();
    hide LeVal, OffsetsFor, FindOffset, U32At;
    OneHolderRead();
    ObjectFieldExact(ONE_HOLDER, 0, HOLDERS);
    NoHolderRead();
    ObjectFieldExact(NO_HOLDER, 0, HOLDERS);
  }

  lemma OneHolderRead()
    requires OffsetsFor(PAIR.fields).Some? && OffsetsFor(HOLDER.fields).Some?
    requires var t := OffsetsFor(PAIR.fields).value;
      t.rootSize == 1 && FindOffset(t.fields, "0").Some? && FindOffset(t.fields, "0").value.offset == 0
    requires var t := OffsetsFor(HOLDER.fields).value;
      t.rootSize == 4 && FindOffset(t.fields, "pair").Some? && FindOffset(t.fields, "pair").value.offset == 0
    requires U32At(ONE_HOLDER, 0) == 4 && U32At(ONE_HOLDER, 4) == 1 && U32At(ONE_HOLDER, 8) == 12
    requires U32At(ONE_HOLDER, 12) == 16
    ensures ObjectFieldAt(ONE_HOLDER, 0, HOLDERS).Ok? && ReachesBareTuple(ONE_HOLDER, 0, HOLDERS)
  {
    hide LeVal, OffsetsFor, FindOffset, U32At, Zip;
    var b, th := ONE_HOLDER, OffsetsFor(HOLDER.fields).value;
    PairRead();
    assert HOLDER.fields[1..] == [];
    assert ObjectSlotsAt(b, 12, th, HOLDER.fields[1..]) == Ok([]);
    assert ObjectSlotsAt(b, 12, th, HOLDER.fields).Ok? && SlotsReach(b, 12, th, HOLDER.fields);
    OneEntryRead(b, 4, th, HOLDER);
  }

  lemma PairRead()
    requires OffsetsFor(PAIR.fields).Some? && U32At(ONE_HOLDER, 12) == 16
    requires var t := OffsetsFor(PAIR.fields).value;
      t.rootSize == 1 && FindOffset(t.fields, "0").Some? && FindOffset(t.fields, "0").value.offset == 0
    ensures ObjectFieldAt(ONE_HOLDER, 12, TypeRepr.Schema(PAIR)).Ok?
    ensures ReachesBareTuple(ONE_HOLDER, 12, TypeRepr.Schema(PAIR))
  {
    hide LeVal, OffsetsFor, FindOffset, U32At, Zip;
    var b, t := ONE_HOLDER, OffsetsFor(PAIR.fields).value;
    assert PAIR.fields[1..] == [];
    assert ObjectSlotsAt(b, 16, t, PAIR.fields[1..]) == Ok([]);
    assert ObjectFieldAt(b, 16, TypeRepr.Bool).Ok?;
    assert ObjectSlotsAt(b, 16, t, PAIR.fields).Ok?;
  }

  /** A list with one entry reads and reaches what its record does. */
  lemma OneEntryRead(b: seq<byte>, header: nat, t: OffsetTable, s: SchemaRepr)
    requires OffsetsFor(s.fields) == Some(t) && header + 8 <= |b| && U32At(b, header) == 1
    requires var p := U32At(b, header + 4);
      p + t.rootSize <= |b| && ObjectSlotsAt(b, p, t, s.fields).Ok? && SlotsReach(b, p, t, s.fields)
    ensures ObjectEntries(b, header, t, s).Ok? && ListReaches(b, header, s)
  {
    hide LeVal, OffsetsFor, U32At, ObjectSlotsAt, SlotsReach, Assemble;
    assert ObjectEntriesAt(b, header + 8, 0, t, s) == Ok([]);
    assert ObjectRecordAt(b, U32At(b, header + 4), t, s).Ok?;
    assert ObjectEntriesAt(b, header + 4, 1, t, s).Ok? && EntriesReach(b, header + 4, 1, t, s.fields);
  }

  lemma NoHolderRead()
    requires OffsetsFor(HOLDER.fields).Some? && U32At(NO_HOLDER, 0) == 4 && U32At(NO_HOLDER, 4) == 0
    ensures ObjectFieldAt(NO_HOLDER, 0, HOLDERS) == Ok(VList([])) && !ReachesBareTuple(NO_HOLDER, 0, HOLDERS)
  {
    hide LeVal, OffsetsFor, U32At;
    assert !ListReaches(NO_HOLDER, 4, HOLDER);
    assert ObjectEntries(NO_HOLDER, 4, OffsetsFor(HOLDER.fields).value, HOLDER) == Ok([]);
  }

  // ----- the list return -----

  /** A field of a record element; a bare nested record is refused, every list goes through the generic reader. */
  function ElementFieldAt(b: seq<byte>, slot: nat, ty: TypeRepr): Read<Value> {
    if ty.Schema? || ty.Closure? then Err(Unsupported) else FieldAt(b, slot, ty)
  }

  function ElementSlotsAt(b: seq<byte>, base: nat, t: OffsetTable, fs: seq<Field>): (r: Read<seq<Value>>)
    ensures r.Ok? ==> |r.value| == |fs|
  {
    if fs == [] then Ok([])
    else
      match FindOffset(t.fields, fs[0].name)
      case None => Err(Malformed)
      case Some(fo) => Cons(ElementFieldAt(b, base + fo.offset, fs[0].ty), ElementSlotsAt(b, base, t, fs[1..]))
  }

  /** One record of a returned list: tuples through the object decoder, dictionaries field by field. */
  function ReturnedRecordAt(b: seq<byte>, p: nat, t: OffsetTable, s: SchemaRepr): Read<Value> {
    if p + t.rootSize > |b| then Err(Malformed)
    else if s.isTuple then ObjectRecordAt(b, p, t, s)
    else
      var vals :- ElementSlotsAt(b, p, t, s.fields);
      Ok(Assemble(s, vals))
  }

  function ReturnedRecordsAt(b: seq<byte>, off: nat, n: nat, t: OffsetTable, s: SchemaRepr): (r: Read<seq<Value>>)
    ensures r.Ok? ==> |r.value| == n
    decreases n
  {
    if n == 0 then Ok([])
    else
      var p :- SlotPointer(b, off);
      Cons(ReturnedRecordAt(b, p, t, s), ReturnedRecordsAt(b, off + 4, n - 1, t, s))
  }

  /** The list of a returned root, by shape. */
  function ReturnedList(b: seq<byte>, root: nat, e: TypeRepr): Read<seq<Value>> {
    match e
    case Schema(s) =>
      (match OffsetsFor(s.fields)
       case None => Err(Malformed)
       case Some(t) =>
         var n :- SlotPointer(b, root);
         if root + 4 + 4 * n > |b| then Err(Malformed) else ReturnedRecordsAt(b, root + 4, n, t, s))
    case List(_) => ListAt(b, root, e)
    case String => ListAt(b, root, e)
    case Option(_) => ListAt(b, root, e)
    case Result(_, _) => ListAt(b, root, e)
    case Enum(_, _) => ListAt(b, root, e)
    case _ => Err(Unsupported)
  }

  /** Select the regions, verify the whole reachable graph, and only then decode. */
  function DecodeInplaceReturn(
    arena: seq<byte>, regions: ArenaRegions, root: nat, ty: TypeRepr, layout: OffsetTable): Option<Value>
  {
    if !ty.List? || regions.arenaSize > |arena| || regions.Regions().None? || root >= regions.arenaSize then None
    else
      var a := arena[..regions.arenaSize];
      var kind := if layout.fields == [] then None else layout.fields[0].listElement;
      if !VerifyValueAt(a, ty, kind, root, Multi(regions.Regions().value)) || |a| < layout.rootSize then None
      else
        match ReturnedList(a, root, ty.element)
        case Err(_) => None
        case Ok(items) => Some(VList(items))
  }

  lemma {:induction false} ElementSlotsAgree(b: seq<byte>, base: nat, t: OffsetTable, fs: seq<Field>)
    requires ElementSlotsAt(b, base, t, fs).Ok?
    ensures SlotsAt(b, base, t, fs) == ElementSlotsAt(b, base, t, fs)
    decreases |fs|
  {
    hide FindOffset, FieldAt;
    if fs != [] { ElementSlotsAgree(b, base, t, fs[1..]); }
  }

  lemma ReturnedRecordExact(b: seq<byte>, p: nat, t: OffsetTable, s: SchemaRepr)
    requires OffsetsFor(s.fields) == Some(t) && RecordWellNamed(s.fields) && ReturnedRecordAt(b, p, t, s).Ok?
    ensures ElementAt(b, p, TypeRepr.Schema(s)).Ok?
    ensures ElementAt(b, p, TypeRepr.Schema(s)) == ReturnedRecordAt(b, p, t, s) <==>
      !(s.isTuple && SlotsReach(b, p, t, s.fields))
  {
    hide OffsetsFor, ObjectRecordAt, ElementSlotsAt, SlotsAt, SlotsReach, RecordWellNamed;
    if s.isTuple {
      ObjectRecordExact(b, p, t, s);
    } else {
      ElementSlotsAgree(b, p, t, s.fields);
      assert ElementAt(b, p, TypeRepr.Schema(s)) == RecordAt(b, p, s);
    }
  }

  lemma {:induction false} ReturnedRecordsExact(b: seq<byte>, off: nat, n: nat, t: OffsetTable, s: SchemaRepr)
    requires OffsetsFor(s.fields) == Some(t) && RecordWellNamed(s.fields) && ReturnedRecordsAt(b, off, n, t, s).Ok?
    ensures EntriesAt(b, off, n, TypeRepr.Schema(s)).Ok?
    ensures EntriesAt(b, off, n, TypeRepr.Schema(s)) == ReturnedRecordsAt(b, off, n, t, s) <==>
      !(s.isTuple && EntriesReach(b, off, n, t, s.fields))
    decreases n
  {
    hide OffsetsFor, LeVal, ReturnedRecordAt, ElementAt, SlotsReach, RecordWellNamed;
    if n > 0 {
      ReturnedRecordExact(b, U32At(b, off), t, s);
      ReturnedRecordsExact(b, off + 4, n - 1, t, s);
      ConsSame(ElementAt(b, U32At(b, off), TypeRepr.Schema(s)), EntriesAt(b, off + 4, n - 1, TypeRepr.Schema(s)),
               ReturnedRecordAt(b, U32At(b, off), t, s), ReturnedRecordsAt(b, off + 4, n - 1, t, s));
    }
  }

  /** A returned value was verified first; the generic reader reads the root too, and gives the same value
      exactly when no tuple record of the list reaches a bare tuple. */
  lemma InplaceReturnExact(arena: seq<byte>, regions: ArenaRegions, root: nat, ty: TypeRepr, layout: OffsetTable)
    requires DecodeInplaceReturn(arena, regions, root, ty, layout).Some? && WellNamed(ty)
    ensures regions.arenaSize <= |arena| && regions.Regions().Some? && ty.List? && layout.rootSize <= regions.arenaSize
    ensures var a := arena[..regions.arenaSize];
      var kind := if layout.fields == [] then None else layout.fields[0].listElement;
      && VerifyValueAt(a, ty, kind, root, Multi(regions.Regions().value))
      && TargetAt(a, root, ty).Ok?
      && (TargetAt(a, root, ty) == Ok(DecodeInplaceReturn(arena, regions, root, ty, layout).value) <==>
            !(ty.element.Schema? && ty.element.schema.isTuple && ListReaches(a, root, ty.element.schema)))
  {
    hide VerifyValueAt, OffsetsFor, LeVal, ReturnedRecordsAt, EntriesAt, EntriesReach, DistinctNames;
    var a := arena[..regions.arenaSize];
    if ty.element.Schema? {
      var s := ty.element.schema;
      assert WellNamed(ty.element);
      ReturnedRecordsExact(a, root + 4, U32At(a, root), OffsetsFor(s.fields).value, s);
      assert ListAt(a, root, ty.element) == EntriesAt(a, root + 4, U32At(a, root), ty.element);
    } else {
      assert ListAt(a, root, ty.element) == ReturnedList(a, root, ty.element);
    }
  }

  // ----- the object return -----

  /** Verify the record, then decode it: the one field of a wrapper, a tuple, or a branded dictionary. */
  function DecodeObjectReturn(
    arena: seq<byte>, base: nat, regions: ArenaRegions, t: OffsetTable, s: SchemaRepr, wrapper: bool): Option<Value>
    requires wrapper ==> s.fields != []
  {
    if regions.Regions().None? then None
    else if !VerifyRecord(arena, s.fields, t, base, Multi(regions.Regions().value)) then None
    else if base + t.rootSize > |arena| then None
    else
      match ObjectSlotsAt(arena, base, t, if wrapper then s.fields[..1] else s.fields)
      case Err(_) => None
      case Ok(vals) => Some(if wrapper then vals[0] else Assemble(s, vals))
  }

  /** A decoded object was verified first; the generic record reader reads it too, and gives the same value
      exactly when no bare tuple is reached. */
  lemma ObjectReturnExact(arena: seq<byte>, base: nat, regions: ArenaRegions, t: OffsetTable, s: SchemaRepr)
    requires OffsetsFor(s.fields) == Some(t) && RecordWellNamed(s.fields)
    requires DecodeObjectReturn(arena, base, regions, t, s, false).Some?
    ensures regions.Regions().Some? && VerifyRecord(arena, s.fields, t, base, Multi(regions.Regions().value))
    ensures RecordAt(arena, base, s).Ok?
    ensures RecordAt(arena, base, s) == Ok(DecodeObjectReturn(arena, base, regions, t, s, false).value) <==>
      !SlotsReach(arena, base, t, s.fields)
  {
    hide VerifyRecord, OffsetsFor, ObjectSlotsAt, SlotsAt, SlotsReach, Assemble, DistinctNames;
    ObjectSlotsExact(arena, base, t, s.fields);
    AssembleInjective(s, SlotsAt(arena, base, t, s.fields).value, ObjectSlotsAt(arena, base, t, s.fields).value);
  }

  /** The same for the wrapper around a single value, which is read as the wrapper's first field. */
  lemma WrapperReturnExact(arena: seq<byte>, base: nat, regions: ArenaRegions, t: OffsetTable, s: SchemaRepr)
    requires OffsetsFor(s.fields) == Some(t) && RecordWellNamed(s.fields) && s.fields != []
    requires DecodeObjectReturn(arena, base, regions, t, s, true).Some?
    ensures regions.Regions().Some? && VerifyRecord(arena, s.fields, t, base, Multi(regions.Regions().value))
    ensures FindOffset(t.fields, s.fields[0].name).Some?
    ensures var slot := base + FindOffset(t.fields, s.fields[0].name).value.offset;
      var ty := s.fields[0].ty;
      && FieldAt(arena, slot, ty).Ok?
      && (FieldAt(arena, slot, ty) == Ok(DecodeObjectReturn(arena, base, regions, t, s, true).value) <==>
            !ReachesBareTuple(arena, slot, ty))
  {
    hide VerifyRecord, OffsetsFor, FindOffset, ObjectFieldAt, FieldAt, ReachesBareTuple, WellNamed, DistinctNames;
    var fs := s.fields[..1];
    assert fs[0] == s.fields[0] && fs[1..] == [];
    var slot := base + FindOffset(t.fields, fs[0].name).value.offset;
    assert ObjectSlotsAt(arena, base, t, fs).value[0] == ObjectFieldAt(arena, slot, fs[0].ty).value;
    ObjectFieldExact(arena, slot, fs[0].ty);
  }
}
