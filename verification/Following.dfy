/** Which pointer slots are followed: by the reader, by the verifier, and by relocation. On every buffer
    the first two follow the same slots; on an encoded record these are all its pointers, and relocation
    rebases exactly them if and only if it leaves none out. */
module Following {
  import opened Bytes
  import opened Wrappers
  import opened Schemas
  import opened Layout
  import opened LayoutFacts
  import opened Values
  import opened Reader
  import opened Verifier
  import opened VerifierFacts
  import opened Graph
  import opened GraphFacts
  import opened Moving
  import opened Relocation
  import opened RelocationFacts
  import opened Rebase
  import opened Paste

  // ----- the slots reachable by type -----

  /** The pointer slots of the record of type `ty` at `p`, and of every record behind them. */
  function Follows(b: seq<byte>, p: nat, ty: TypeRepr): set<int>
    decreases Depth(ty), 1
  {
    match SlotList(b, p, ty)
    case None => {}
    case Some(slots) => if slots == [] then {} else FollowSlots(b, slots)
  }

  function FollowSlots(b: seq<byte>, slots: seq<Slot>): set<int>
    decreases SlotsDepth(slots), 3, |slots|
  {
    if slots == [] then {} else FollowSlot(b, slots[0]) + FollowSlots(b, slots[1..])
  }

  function FollowSlot(b: seq<byte>, slot: Slot): set<int>
    decreases Depth(slot.ty), 2
  {
    {slot.off} + if slot.off + 4 <= |b| then Follows(b, U32At(b, slot.off), slot.ty) else {}
  }

  lemma FollowsSlots(b: seq<byte>, p: nat, ty: TypeRepr)
    requires SlotList(b, p, ty).Some?
    ensures Follows(b, p, ty) == FollowSlots(b, SlotList(b, p, ty).value)
  {
  }

  // ----- the reader, recording the slots it follows -----

  datatype Traced<T> = Traced(result: Read<T>, slots: set<int>)

  function TraceField(b: seq<byte>, slot: nat, ty: TypeRepr): (r: Traced<Value>)
    ensures r.result == FieldAt(b, slot, ty)
    decreases Depth(ty), 4
  {
    if !ty.Pointer?() || (ty.Schema? && OffsetsFor(ty.schema.fields).None?) || slot + 4 > |b| then
      Traced(FieldAt(b, slot, ty), {})
    else
      var r := TraceTarget(b, U32At(b, slot), ty);
      Traced(r.result, {slot as int} + r.slots)
  }

  function TraceTarget(b: seq<byte>, p: nat, ty: TypeRepr): (r: Traced<Value>)
    ensures r.result == TargetAt(b, p, ty)
    decreases Depth(ty), 3
  {
    match ty
    case List(e) =>
      var r := TraceList(b, p, e);
      Traced(if r.result.Ok? then Ok(VList(r.result.value)) else Err(r.result.error), r.slots)
    case Schema(s) => TraceRecord(b, p, s)
    case Option(_) => TraceVariant(b, p, ty)
    case Result(_, _) => TraceVariant(b, p, ty)
    case Enum(_, _) => TraceVariant(b, p, ty)
    case _ => Traced(TargetAt(b, p, ty), {})
  }

  function TraceList(b: seq<byte>, header: nat, e: TypeRepr): (r: Traced<seq<Value>>)
    ensures r.result == ListAt(b, header, e)
    decreases Depth(e), 9
  {
    if !e.Pointer?() || (e.Schema? && OffsetsFor(e.schema.fields).None?) || header + 4 > |b|
       || header + 4 + 4 * U32At(b, header) > |b| then
      Traced(ListAt(b, header, e), {})
    else TraceEntries(b, header + 4, U32At(b, header), e)
  }

  /** The first failure ends the walk. */
  function TraceEntries(b: seq<byte>, off: nat, n: nat, e: TypeRepr): (r: Traced<seq<Value>>)
    ensures r.result == EntriesAt(b, off, n, e)
    decreases Depth(e), 8, n
  {
    if n == 0 || off + 4 > |b| then Traced(EntriesAt(b, off, n, e), {})
    else
      var x := TraceElement(b, U32At(b, off), e);
      if x.result.Err? then Traced(Err(x.result.error), {off as int} + x.slots)
      else
        var rest := TraceEntries(b, off + 4, n - 1, e);
        Traced(Cons(x.result, rest.result), {off as int} + x.slots + rest.slots)
  }

  function TraceElement(b: seq<byte>, p: nat, e: TypeRepr): (r: Traced<Value>)
    ensures r.result == ElementAt(b, p, e)
    decreases Depth(e), 7
  {
    if e.Schema? && (OffsetsFor(e.schema.fields).None? || p + OffsetsFor(e.schema.fields).value.rootSize > |b|) then
      Traced(Err(Malformed), {})
    else TraceTarget(b, p, e)
  }

  function TraceRecord(b: seq<byte>, base: nat, s: SchemaRepr): (r: Traced<Value>)
    ensures r.result == RecordAt(b, base, s)
    decreases 1 + FieldsDepth(s.fields), 2
  {
    match OffsetsFor(s.fields)
    case None => Traced(Err(Malformed), {})
    case Some(t) =>
      var r := TraceSlots(b, base, t, s.fields);
      Traced(if r.result.Ok? then Ok(Assemble(s, r.result.value)) else Err(r.result.error), r.slots)
  }

  function TraceSlots(b: seq<byte>, base: nat, t: OffsetTable, fs: seq<Field>): (r: Traced<seq<Value>>)
    ensures r.result == SlotsAt(b, base, t, fs)
    decreases FieldsDepth(fs), 5, |fs|
  {
    if fs == [] then Traced(Ok([]), {})
    else
      match FindOffset(t.fields, fs[0].name)
      case None => Traced(Err(Malformed), {})
      case Some(fo) =>
        var x := TraceField(b, base + fo.offset, fs[0].ty);
        if x.result.Err? then Traced(Err(x.result.error), x.slots)
        else
          var rest := TraceSlots(b, base, t, fs[1..]);
          Traced(Cons(x.result, rest.result), x.slots + rest.slots)
  }

  function TraceVariant(b: seq<byte>, p: nat, ty: TypeRepr): (r: Traced<Value>)
    ensures r.result == VariantAt(b, p, ty)
    decreases Depth(ty), 2
  {
    if p + 1 > |b| then Traced(Err(Malformed), {})
    else
      match SelectPayload(ty, b[p])
      case BadTag => Traced(Err(Malformed), {})
      case NoPayload => Traced(VariantAt(b, p, ty), {})
      case Payload(pty) =>
        Traced(VariantAt(b, p, ty), TraceField(b, PayloadSlotOffset(p, pty), pty).slots)
  }

  // ----- a reader that succeeds has followed the slots reachable by type -----

  function FollowField(b: seq<byte>, slot: nat, ty: TypeRepr): set<int> {
    if ty.Pointer?() then FollowSlot(b, Slot(slot, ty)) else {}
  }

  lemma {:induction false} ReaderField(b: seq<byte>, slot: nat, ty: TypeRepr)
    requires Good(ty) && FieldAt(b, slot, ty).Ok?
    ensures TraceField(b, slot, ty).slots == FollowField(b, slot, ty)
    decreases Depth(ty), 4
  {
    hide OffsetsFor, LeVal, TraceTarget, Follows;
    if ty.Pointer?() { ReaderFollows(b, U32At(b, slot), ty); }
  }

  /** On every buffer, a reader that succeeds has followed exactly the slots reachable by type. */
  lemma {:induction false} ReaderFollows(b: seq<byte>, p: nat, ty: TypeRepr)
    requires Good(ty) && TargetAt(b, p, ty).Ok?
    ensures TraceTarget(b, p, ty).slots == Follows(b, p, ty)
    decreases Depth(ty), 3
  {
    hide OffsetsFor, LeVal, TraceList, TraceRecord, TraceVariant, FollowSlots;
    match ty
    case String =>
    case List(e) => ReaderList(b, p, e);
    case Schema(s) => ReaderRecord(b, p, s);
    case Option(_) => ReaderVariant(b, p, ty);
    case Result(_, _) => ReaderVariant(b, p, ty);
    case Enum(_, _) => ReaderVariant(b, p, ty);
  }

  lemma {:induction false} ReaderList(b: seq<byte>, p: nat, e: TypeRepr)
    requires Good(TypeRepr.List(e)) && ListAt(b, p, e).Ok?
    ensures TraceList(b, p, e).slots == Follows(b, p, TypeRepr.List(e))
    decreases Depth(e), 9
  {
    hide OffsetsFor, LeVal, TraceEntries, FollowSlots, EntriesAt;
    if e.Pointer?() {
      ReaderEntries(b, p + 4, U32At(b, p), e);
      FollowsSlots(b, p, TypeRepr.List(e));
    }
  }

  lemma {:induction false} ReaderEntries(b: seq<byte>, off: nat, n: nat, e: TypeRepr)
    requires Good(e) && e.Pointer?() && EntriesAt(b, off, n, e).Ok?
    ensures TraceEntries(b, off, n, e).slots == FollowSlots(b, EntrySlots(off, n, e))
    decreases Depth(e), 8, n
  {
    hide OffsetsFor, LeVal, TraceElement, Follows;
    if n > 0 {
      assert EntrySlots(off, n, e)[0] == Slot(off, e) && EntrySlots(off, n, e)[1..] == EntrySlots(off + 4, n - 1, e);
      ReaderElement(b, U32At(b, off), e);
      ReaderEntries(b, off + 4, n - 1, e);
    }
  }

  lemma {:induction false} ReaderElement(b: seq<byte>, p: nat, e: TypeRepr)
    requires Good(e) && ElementAt(b, p, e).Ok?
    ensures TraceElement(b, p, e).slots == Follows(b, p, e)
    decreases Depth(e), 7
  {
    hide OffsetsFor, TraceTarget, Follows, TargetAt;
    ReaderFollows(b, p, e);
  }

  lemma {:induction false} ReaderRecord(b: seq<byte>, base: nat, s: SchemaRepr)
    requires Good(TypeRepr.Schema(s)) && RecordAt(b, base, s).Ok?
    ensures TraceRecord(b, base, s).slots == Follows(b, base, TypeRepr.Schema(s))
    decreases 1 + FieldsDepth(s.fields), 2
  {
    hide OffsetsFor, TraceSlots, FollowSlots, SlotsAt, GoodRecord, Good;
    var t := OffsetsFor(s.fields).value;
    SchemaGood(s);
    assert s.fields[0..] == s.fields && t.fields[0..] == t.fields;
    ReaderSlots(b, base, t, s.fields, 0);
    FollowsSlots(b, base, TypeRepr.Schema(s));
  }

  /** The slots of the fields from `k` on: those of field `k`, then the rest. */
  lemma FieldsFollow(b: seq<byte>, base: nat, fos: seq<FieldOffset>, fs: seq<Field>, k: nat)
    requires |fos| == |fs| && k < |fs|
    ensures FollowSlots(b, PointerSlots(base, fos[k..], fs[k..])) ==
      FollowField(b, base + fos[k].offset, fs[k].ty) + FollowSlots(b, PointerSlots(base, fos[k + 1..], fs[k + 1..]))
  {
    hide FollowSlot;
    assert fs[k..][0] == fs[k] && fs[k..][1..] == fs[k + 1..] && fos[k..][1..] == fos[k + 1..];
    var rest := PointerSlots(base, fos[k + 1..], fs[k + 1..]);
    if fs[k].ty.Pointer?() {
      var slot := Slot(base + fos[k].offset, fs[k].ty);
      assert PointerSlots(base, fos[k..], fs[k..]) == [slot] + rest;
      assert ([slot] + rest)[1..] == rest;
    }
  }

  lemma TraceStep(b: seq<byte>, base: nat, t: OffsetTable, fs: seq<Field>, k: nat, slot: nat)
    requires k < |fs| && FindOffset(t.fields, fs[k].name).Some?
    requires slot == base + FindOffset(t.fields, fs[k].name).value.offset
    requires SlotsAt(b, base, t, fs[k..]).Ok?
    ensures FieldAt(b, slot, fs[k].ty).Ok? && SlotsAt(b, base, t, fs[k + 1..]).Ok?
    ensures TraceSlots(b, base, t, fs[k..]).slots ==
      TraceField(b, slot, fs[k].ty).slots + TraceSlots(b, base, t, fs[k + 1..]).slots
  {
    hide FindOffset, FieldAt, TraceField;
    assert fs[k..][0] == fs[k] && fs[k..][1..] == fs[k + 1..];
  }

  lemma NoFieldsLeft(b: seq<byte>, base: nat, t: OffsetTable, fs: seq<Field>)
    requires |t.fields| == |fs|
    ensures TraceSlots(b, base, t, fs[|fs|..]).slots == FollowSlots(b, PointerSlots(base, t.fields[|fs|..], fs[|fs|..]))
  {
  }

  lemma {:induction false} ReaderSlots(b: seq<byte>, base: nat, t: OffsetTable, fs: seq<Field>, k: nat)
    requires GoodRecord(fs) && OffsetsFor(fs) == Some(t) && |t.fields| == |fs| && k <= |fs|
    requires SlotsAt(b, base, t, fs[k..]).Ok?
    ensures TraceSlots(b, base, t, fs[k..]).slots == FollowSlots(b, PointerSlots(base, t.fields[k..], fs[k..]))
    decreases FieldsDepth(fs), 6, |fs| - k
  {
    hide OffsetsFor, FindOffset, GoodRecord, FieldAt, TraceField, FollowField, DistinctNames, SlotsAt, TraceSlots,
      FollowSlots, PointerSlots;
    if k == |fs| {
      NoFieldsLeft(b, base, t, fs);
    } else {
      assert DistinctNames(fs) by { NamesOf(fs); }
      SlotFacts(fs, t, k);
      GoodField(fs, k);
      FieldDepth(fs, k);
      TraceStep(b, base, t, fs, k, base + t.fields[k].offset);
      FieldsFollow(b, base, t.fields, fs, k);
      ReaderField(b, base + t.fields[k].offset, fs[k].ty);
      ReaderSlots(b, base, t, fs, k + 1);
    }
  }

  lemma {:induction false} ReaderVariant(b: seq<byte>, p: nat, ty: TypeRepr)
    requires Good(ty) && ty.Variant?() && VariantAt(b, p, ty).Ok?
    ensures TraceVariant(b, p, ty).slots == Follows(b, p, ty)
    decreases Depth(ty), 2
  {
    hide FieldAt, TraceField, FollowSlot, WrapVariant, Good, PayloadSlotOffset;
    match SelectPayload(ty, b[p])
    case NoPayload =>
    case Payload(pty) =>
      GoodPayload(ty, b[p]);
      var slot := PayloadSlotOffset(p, pty);
      ReaderField(b, slot, pty);
      if pty.Pointer?() { OneSlot(b, Slot(slot, pty)); }
  }

  lemma OneSlot(b: seq<byte>, slot: Slot)
    ensures FollowSlots(b, [slot]) == FollowSlot(b, slot)
  {
    hide FollowSlot;
    assert [slot][1..] == [];
    assert FollowSlots(b, [slot][1..]) == {};
  }

  // ----- the verifier, recording the slots it follows -----

  /** `None` where the verifier rejects. */
  function Join(x: Option<set<int>>, y: Option<set<int>>): Option<set<int>> {
    if x.Some? && y.Some? then Some(x.value + y.value) else None
  }

  function CheckRecord(
    b: seq<byte>, fs: seq<Field>, t: OffsetTable, base: nat, bounds: Bounds, depth: nat): (r: Option<set<int>>)
    requires Covers(b, bounds)
    ensures r.Some? <==> VerifyRecordInner(b, fs, t, base, bounds, depth)
    decreases FieldsDepth(fs), 9
  {
    if depth >= MAX_DEPTH || !bounds.AllowsSpan(base, t.rootSize) then None
    else CheckSlots(b, fs, t.fields, base, bounds, depth)
  }

  function CheckSlots(
    b: seq<byte>, fs: seq<Field>, fos: seq<FieldOffset>, base: nat, bounds: Bounds, depth: nat): (r: Option<set<int>>)
    requires Covers(b, bounds)
    ensures r.Some? <==> VerifySlots(b, fs, fos, base, bounds, depth)
    decreases FieldsDepth(fs), 8, |fos|
  {
    if fos == [] then Some({})
    else
      var slot := base + fos[0].offset;
      if !bounds.AllowsSpan(slot, fos[0].size) then None
      else if !fos[0].kind.PointerIndirect? then CheckSlots(b, fs, fos[1..], base, bounds, depth)
      else
        var f := FindField(fs, fos[0].name);
        var p := VerifiedU32(b, slot, bounds);
        if f.None? || p.None? then None
        else
          Join(Join(Some({slot as int}), CheckTarget(b, f.value.ty, fos[0].listElement, p.value, bounds, depth)),
               CheckSlots(b, fs, fos[1..], base, bounds, depth))
  }

  function CheckTarget(
    b: seq<byte>, ty: TypeRepr, kind: Option<ListElementKind>, p: nat, bounds: Bounds,
    depth: nat): (r: Option<set<int>>)
    requires Covers(b, bounds)
    ensures r.Some? <==> VerifyTarget(b, ty, kind, p, bounds, depth)
    decreases Depth(ty), 3
  {
    match ty
    case Schema(s) =>
      var t := OffsetsFor(s.fields);
      if t.None? then None else CheckRecord(b, s.fields, t.value, p, bounds, depth + 1)
    case List(e) => CheckList(b, e, kind, p, bounds, depth)
    case Option(_) => CheckVariant(b, ty, p, bounds, depth)
    case Result(_, _) => CheckVariant(b, ty, p, bounds, depth)
    case Enum(_, _) => CheckVariant(b, ty, p, bounds, depth)
    case _ => if VerifyTarget(b, ty, kind, p, bounds, depth) then Some({}) else None
  }

  function CheckList(
    b: seq<byte>, e: TypeRepr, kind: Option<ListElementKind>, p: nat, bounds: Bounds, depth: nat): (r: Option<set<int>>)
    requires Covers(b, bounds)
    ensures r.Some? <==> VerifyList(b, e, kind, p, bounds, depth)
    decreases Depth(e), 6
  {
    var n := VerifiedU32(b, p, bounds);
    if n.None? then None
    else
      match kind
      case Some(PointerArray(_)) => CheckEntries(b, e, p + 4, n.value, bounds, depth)
      case _ => if VerifyList(b, e, kind, p, bounds, depth) then Some({}) else None
  }

  function CheckEntries(b: seq<byte>, e: TypeRepr, off: nat, n: nat, bounds: Bounds, depth: nat): (r: Option<set<int>>)
    requires Covers(b, bounds)
    ensures r.Some? <==> VerifyEntries(b, e, off, n, bounds, depth)
    decreases Depth(e), 5, n
  {
    if n == 0 then Some({})
    else
      var p := VerifiedU32(b, off, bounds);
      if p.None? then None
      else
        Join(Join(Some({off as int}), CheckTarget(b, e, ListKind(e), p.value, bounds, depth + 1)),
             CheckEntries(b, e, off + 4, n - 1, bounds, depth))
  }

  function CheckVariant(b: seq<byte>, ty: TypeRepr, p: nat, bounds: Bounds, depth: nat): (r: Option<set<int>>)
    requires Covers(b, bounds)
    ensures r.Some? <==> VerifyVariant(b, ty, p, bounds, depth)
    decreases Depth(ty), 2
  {
    if depth >= MAX_DEPTH || !bounds.AllowsSpan(p, 1) then None
    else
      AllowedInRange(b, bounds, p, 1);
      match SelectPayload(ty, b[p])
      case BadTag => None
      case NoPayload => Some({})
      case Payload(pty) =>
        var slot := PayloadSlotOffset(p, pty);
        if !bounds.AllowsSpan(slot, PayloadSlotRuntime(pty).0) || pty.Closure? then None
        else if !pty.Pointer?() then Some({})
        else
          var q := VerifiedU32(b, slot, bounds);
          if q.None? then None
          else Join(Some({slot as int}), CheckTarget(b, pty, ListKind(pty), q.value, bounds, depth + 1))
  }

  // ----- a verifier that accepts has followed them too -----

  /** On every buffer, a verifier that accepts has followed exactly the slots reachable by type. */
  lemma {:induction false} VerifierFollows(b: seq<byte>, ty: TypeRepr, p: nat, bounds: Bounds, depth: nat)
    requires Covers(b, bounds) && Good(ty) && VerifyTarget(b, ty, ListKind(ty), p, bounds, depth)
    ensures CheckTarget(b, ty, ListKind(ty), p, bounds, depth) == Some(Follows(b, p, ty))
    decreases Depth(ty), 3
  {
    hide OffsetsFor, LeVal, CheckList, CheckRecord, CheckVariant, FollowSlots, ListKind, VerifyList,
      VerifyRecordInner, VerifyVariant;
    match ty
    case String =>
    case List(e) => VerifierList(b, e, p, bounds, depth);
    case Schema(s) => VerifierRecord(b, s, OffsetsFor(s.fields).value, p, bounds, depth + 1);
    case Option(_) => VerifierVariant(b, ty, p, bounds, depth);
    case Result(_, _) => VerifierVariant(b, ty, p, bounds, depth);
    case Enum(_, _) => VerifierVariant(b, ty, p, bounds, depth);
  }

  lemma {:induction false} VerifierList(b: seq<byte>, e: TypeRepr, p: nat, bounds: Bounds, depth: nat)
    requires Covers(b, bounds) && Good(TypeRepr.List(e))
    requires VerifyList(b, e, ListKind(TypeRepr.List(e)), p, bounds, depth)
    ensures CheckList(b, e, ListKind(TypeRepr.List(e)), p, bounds, depth) == Some(Follows(b, p, TypeRepr.List(e)))
    decreases Depth(e), 6
  {
    hide LeVal, CheckEntries, VerifyEntries, FollowSlots, ListKind, Good;
    ListKindOf(e);
    ElementGood(e);
    if e.Pointer?() {
      AllowedInRange(b, bounds, p, 4);
      VerifierEntries(b, e, p + 4, U32At(b, p), bounds, depth);
      FollowsSlots(b, p, TypeRepr.List(e));
    }
  }

  lemma {:induction false} VerifierEntries(b: seq<byte>, e: TypeRepr, off: nat, n: nat, bounds: Bounds, depth: nat)
    requires Covers(b, bounds) && Good(e) && e.Pointer?() && VerifyEntries(b, e, off, n, bounds, depth)
    ensures CheckEntries(b, e, off, n, bounds, depth) == Some(FollowSlots(b, EntrySlots(off, n, e)))
    decreases Depth(e), 5, n
  {
    hide LeVal, CheckTarget, VerifyTarget, Follows, ListKind;
    if n > 0 {
      AllowedInRange(b, bounds, off, 4);
      assert EntrySlots(off, n, e)[0] == Slot(off, e) && EntrySlots(off, n, e)[1..] == EntrySlots(off + 4, n - 1, e);
      VerifierFollows(b, e, U32At(b, off), bounds, depth + 1);
      VerifierEntries(b, e, off + 4, n - 1, bounds, depth);
    }
  }

  lemma {:induction false} VerifierRecord(
    b: seq<byte>, s: SchemaRepr, t: OffsetTable, base: nat, bounds: Bounds, depth: nat)
    requires Covers(b, bounds) && Good(TypeRepr.Schema(s)) && OffsetsFor(s.fields) == Some(t)
    requires VerifyRecordInner(b, s.fields, t, base, bounds, depth)
    ensures CheckRecord(b, s.fields, t, base, bounds, depth) == Some(Follows(b, base, TypeRepr.Schema(s)))
    decreases FieldsDepth(s.fields), 9
  {
    hide OffsetsFor, CheckSlots, VerifySlots, FollowSlots, GoodRecord, Good;
    SchemaGood(s);
    assert s.fields[0..] == s.fields && t.fields[0..] == t.fields;
    VerifierSlots(b, t, s.fields, base, bounds, depth, 0);
    FollowsSlots(b, base, TypeRepr.Schema(s));
  }

  lemma CheckStep(
    b: seq<byte>, fs: seq<Field>, fos: seq<FieldOffset>, base: nat, bounds: Bounds, depth: nat, k: nat, ty: TypeRepr)
    requires Covers(b, bounds) && k < |fos| && VerifySlots(b, fs, fos[k..], base, bounds, depth)
    requires fos[k].kind.PointerIndirect? ==>
      FindField(fs, fos[k].name).Some? && FindField(fs, fos[k].name).value.ty == ty
    ensures VerifySlots(b, fs, fos[k + 1..], base, bounds, depth)
    ensures var slot, rest := base + fos[k].offset, CheckSlots(b, fs, fos[k + 1..], base, bounds, depth);
      if fos[k].kind.PointerIndirect? then
        && slot + 4 <= |b| && VerifyTarget(b, ty, fos[k].listElement, U32At(b, slot), bounds, depth)
        && CheckSlots(b, fs, fos[k..], base, bounds, depth) ==
             Join(Join(Some({slot as int}), CheckTarget(b, ty, fos[k].listElement, U32At(b, slot), bounds, depth)),
                  rest)
      else CheckSlots(b, fs, fos[k..], base, bounds, depth) == rest
  {
    hide FindField, CheckTarget, VerifyTarget, LeVal, Join;
    assert fos[k..][0] == fos[k] && fos[k..][1..] == fos[k + 1..];
    if fos[k].kind.PointerIndirect? { AllowedInRange(b, bounds, base + fos[k].offset, 4); }
  }

  lemma {:induction false} VerifierSlots(
    b: seq<byte>, t: OffsetTable, fs: seq<Field>, base: nat, bounds: Bounds, depth: nat, k: nat)
    requires Covers(b, bounds) && GoodRecord(fs) && OffsetsFor(fs) == Some(t) && |t.fields| == |fs| && k <= |fs|
    requires VerifySlots(b, fs, t.fields[k..], base, bounds, depth)
    ensures CheckSlots(b, fs, t.fields[k..], base, bounds, depth) ==
      Some(FollowSlots(b, PointerSlots(base, t.fields[k..], fs[k..])))
    decreases FieldsDepth(fs), 8, |fs| - k
  {
    if k < |fs| {
      hide OffsetsFor, FindField, GoodRecord, CheckTarget, VerifyTarget, Follows, DistinctNames, LeVal, ListKind,
        CheckSlots, VerifySlots, FollowSlots, PointerSlots;
      assert DistinctNames(fs) by { NamesOf(fs); }
      SlotFacts(fs, t, k);
      GoodField(fs, k);
      FieldDepth(fs, k);
      CheckStep(b, fs, t.fields, base, bounds, depth, k, fs[k].ty);
      FieldsFollow(b, base, t.fields, fs, k);
      VerifierSlots(b, t, fs, base, bounds, depth, k + 1);
      if fs[k].ty.Pointer?() {
        VerifierFollows(b, fs[k].ty, U32At(b, base + t.fields[k].offset), bounds, depth);
      }
    }
  }

  lemma {:induction false} VerifierVariant(b: seq<byte>, ty: TypeRepr, p: nat, bounds: Bounds, depth: nat)
    requires Covers(b, bounds) && Good(ty) && ty.Variant?() && VerifyVariant(b, ty, p, bounds, depth)
    ensures CheckVariant(b, ty, p, bounds, depth) == Some(Follows(b, p, ty))
    decreases Depth(ty), 2
  {
    hide CheckTarget, VerifyTarget, FollowSlots, Good, PayloadSlotOffset, ListKind, LeVal, PayloadSlotRuntime;
    AllowedInRange(b, bounds, p, 1);
    match SelectPayload(ty, b[p])
    case NoPayload =>
    case Payload(pty) =>
      GoodPayload(ty, b[p]);
      if pty.Pointer?() {
        var slot := Slot(PayloadSlotOffset(p, pty), pty);
        AllowedInRange(b, bounds, slot.off, 4);
        VerifierFollows(b, pty, U32At(b, slot.off), bounds, depth + 1);
        OneSlot(b, slot);
      }
  }

  // ----- encoded objects -----

  /** Every pointer slot of the parts and of the records behind them. */
  ghost function AllSlots(ps: seq<Part>): set<int>
    decreases ps
  {
    if ps == [] then {} else PartSlots(ps[0]) + AllSlots(ps[1..])
  }

  ghost function PartSlots(x: Part): set<int>
    decreases x
  {
    if x.Raw? then {} else {x.off} + AllSlots(x.target.parts)
  }

  lemma {:induction false} ObjectFollows(b: seq<byte>, o: Obj)
    requires Shape(o) && Linked(o.parts) && Enc(b, o.parts) && Good(o.ty)
    ensures Follows(b, o.pos, o.ty) == AllSlots(o.parts)
    decreases o
  {
    hide Shape, Good, Enc, Linked, FollowSlots, SlotList;
    SlotListOf(b, o);
    FollowsSlots(b, o.pos, o.ty);
    TargetsOfShape(o);
    PartsFollow(b, o.parts);
  }

  lemma {:induction false} PartsFollow(b: seq<byte>, ps: seq<Part>)
    requires Enc(b, ps) && Linked(ps) && Targets(ps)
    ensures FollowSlots(b, SlotsOf(ps)) == AllSlots(ps)
    decreases ps
  {
    hide EncPart, LinkedPart, TargetOk, FollowSlot, PartSlots;
    if ps != [] {
      var x := ps[0];
      assert TargetOk(x);
      forall i | 0 <= i < |ps[1..]|
        ensures TargetOk(ps[1..][i])
      {
        assert TargetOk(ps[i + 1]);
      }
      PartsFollow(b, ps[1..]);
      PartFollows(b, x);
      if x.Ptr? {
        assert SlotsOf(ps)[0] == Slot(x.off, x.target.ty) && SlotsOf(ps)[1..] == SlotsOf(ps[1..]);
      }
    }
  }

  lemma {:induction false} PartFollows(b: seq<byte>, x: Part)
    requires EncPart(b, x) && LinkedPart(x) && TargetOk(x)
    ensures PartSlots(x) == if x.Ptr? then FollowSlot(b, Slot(x.off, x.target.ty)) else {}
    decreases x
  {
    hide Shape, Good, LeVal, Le, Follows;
    if x.Ptr? {
      PtrRead(b, x);
      ObjectFollows(b, x.target);
    }
  }

  // ----- what relocation visits of an object -----

  lemma {:induction false} VisitsAll(ps: seq<Part>, descends: bool)
    requires Rebasable(ps, descends)
    ensures Visited(ps, descends) == AllSlots(ps)
    decreases ps
  {
    if ps != [] {
      VisitsPart(ps[0], descends);
      VisitsAll(ps[1..], descends);
    }
  }

  lemma {:induction false} VisitsPart(x: Part, descends: bool)
    requires RebasablePart(x, descends)
    ensures VisitedPart(x, descends) == PartSlots(x)
    decreases x
  {
    if x.Ptr? {
      if descends { VisitsAll(x.target.parts, Descends(x.target.ty)); } else { LeafyNoSlots(x.target.parts); }
    }
  }

  lemma {:induction false} LeafyNoSlots(ps: seq<Part>)
    requires Leafy(ps)
    ensures AllSlots(ps) == {}
    decreases |ps|
  {
    if ps != [] { LeafyNoSlots(ps[1..]); }
  }

  lemma {:induction false} SlotsInFoot(ps: seq<Part>)
    ensures AllSlots(ps) <= Foot(ps)
    decreases ps
  {
    if ps != [] {
      PartInFoot(ps[0]);
      SlotsInFoot(ps[1..]);
    }
  }

  lemma {:induction false} PartInFoot(x: Part)
    ensures PartSlots(x) <= FootPart(x)
    decreases x
  {
    if x.Ptr? { SlotsInFoot(x.target.parts); }
  }

  lemma {:induction false} VisitedSlots(ps: seq<Part>, descends: bool)
    ensures Visited(ps, descends) <= AllSlots(ps)
    decreases ps
  {
    if ps != [] {
      VisitedPartSlots(ps[0], descends);
      VisitedSlots(ps[1..], descends);
    }
  }

  lemma {:induction false} VisitedPartSlots(x: Part, descends: bool)
    ensures VisitedPart(x, descends) <= PartSlots(x)
    decreases x
  {
    if x.Ptr? { VisitedSlots(x.target.parts, Descends(x.target.ty)); }
  }

  /** Where relocation leaves a pointer out, that pointer's slot is not visited by any other way. */
  lemma {:induction false} MissedSlot(ps: seq<Part>, descends: bool) returns (s: int)
    requires Sep(ps) && !Rebasable(ps, descends)
    ensures s in AllSlots(ps) && s !in Visited(ps, descends)
    decreases ps
  {
    SlotsInFoot(ps[1..]);
    VisitedSlots(ps[1..], descends);
    if !RebasablePart(ps[0], descends) {
      s := MissedPart(ps[0], descends);
      PartInFoot(ps[0]);
    } else {
      s := MissedSlot(ps[1..], descends);
      PartInFoot(ps[0]);
      VisitedPartSlots(ps[0], descends);
    }
  }

  lemma {:induction false} MissedPart(x: Part, descends: bool) returns (s: int)
    requires SepPart(x) && !RebasablePart(x, descends)
    ensures s in PartSlots(x) && s !in VisitedPart(x, descends)
    decreases x
  {
    var t := x.target;
    SlotsInFoot(t.parts);
    if descends {
      s := MissedSlot(t.parts, Descends(t.ty));
    } else {
      s := PointerIn(t.parts);
    }
  }

  lemma {:induction false} PointerIn(ps: seq<Part>) returns (s: int)
    requires !Leafy(ps)
    ensures s in AllSlots(ps)
    decreases |ps|
  {
    if ps[0].Ptr? { s := ps[0].off; } else { s := PointerIn(ps[1..]); }
  }

  // ----- types the descriptors cover -----

  lemma {:induction false} CoveredObj(o: Obj)
    requires Shape(o) && Covered(o.ty)
    ensures RebasableObj(o)
    decreases o, 2
  {
    hide Shape, Covered;
    forall i | 0 <= i < |o.parts|
      ensures RebasablePart(o.parts[i], Descends(o.ty))
    {
      CoveredPart(o, i);
    }
    RebasableParts(o.parts, Descends(o.ty));
  }

  lemma {:induction false} CoveredSlot(x: Part, off: nat, ty: TypeRepr)
    requires SlotShape(x, off, ty) && Covered(ty)
    ensures RebasablePart(x, true)
    decreases x, 2
  {
    if x.Ptr? { CoveredObj(x.target); }
  }

  lemma {:induction false} CoveredPart(o: Obj, i: nat)
    requires Shape(o) && Covered(o.ty) && i < |o.parts|
    ensures RebasablePart(o.parts[i], Descends(o.ty))
    decreases o, 1
  {
    hide OffsetsFor;
    var x := o.parts[i];
    match o.ty
    case String =>
    case List(e) =>
      if x.Ptr? {
        assert EntryShape(o, e, i);
        assert SlotShape(x, o.pos + 4 * i, e);
        if Descends(o.ty) { CoveredSlot(x, o.pos + 4 * i, e); } else { ScalarRow(x.target, e); }
      }
    case Schema(s) =>
      var t := OffsetsFor(s.fields).value;
      assert FieldShape(o, s.fields, t, i);
      FieldCovered(s.fields, i);
      CoveredSlot(x, o.pos + t.fields[i].offset, s.fields[i].ty);
    case Option(_) => CoveredPayload(o, i);
    case Result(_, _) => CoveredPayload(o, i);
    case Enum(_, vs) => CoveredPayload(o, i);
  }

  lemma {:induction false} CoveredPayload(o: Obj, i: nat)
    requires VariantShape(o) && o.ty.Variant?() && Covered(o.ty) && i < |o.parts|
    ensures RebasablePart(o.parts[i], true)
    decreases o, 0
  {
    hide SlotShape;
    if i == 1 {
      var pty := SelectPayload(o.ty, o.parts[0].data[0]).ty;
      if o.ty.Enum? { VariantCovered(o.ty.variants, FindVariantByTag(o.ty.variants, o.parts[0].data[0]).value); }
      CoveredSlot(o.parts[1], PayloadSlotOffset(o.pos, pty), pty);
    }
  }

  lemma ScalarRow(row: Obj, e: TypeRepr)
    requires Shape(row) && row.ty == e && e.List? && e.element.Scalar?()
    ensures Leafy(row.parts)
  {
  }

  lemma {:induction false} FieldCovered(fs: seq<Field>, i: nat)
    requires FieldsCovered(fs) && i < |fs|
    ensures Covered(fs[i].ty)
    decreases i
  {
    if i > 0 { FieldCovered(fs[1..], i - 1); }
  }

  // ----- the three together -----

  /** Of an owned object relocation visits slots a reader follows, and all of them exactly when it leaves
      no pointer out. */
  lemma VisitedExact(b: seq<byte>, o: Obj)
    requires Owns(b, o)
    ensures Visited(o.parts, Descends(o.ty)) <= Follows(b, o.pos, o.ty)
    ensures Visited(o.parts, Descends(o.ty)) == Follows(b, o.pos, o.ty) <==> RebasableObj(o)
  {
    hide Shape, Good, Enc, Linked, Visited, AllSlots, Follows, Within;
    ObjectFollows(b, o);
    VisitedSlots(o.parts, Descends(o.ty));
    if RebasableObj(o) {
      VisitsAll(o.parts, Descends(o.ty));
    } else {
      var s := MissedSlot(o.parts, Descends(o.ty));
    }
  }

  /** For a covered type, relocating an owned record adds the base once to exactly the slots the reader
      follows, which are those the verifier follows, and changes nothing else. */
  lemma RelocatesWhatIsFollowed(b: seq<byte>, o: Obj, d: nat, bounds: Bounds, depth: nat)
    requires Owns(b, o) && Covered(o.ty)
    ensures RebasedOnce(b, RelocTarget(b, o.pos, o.ty, d, false), Follows(b, o.pos, o.ty), d)
    ensures TargetAt(b, o.pos, o.ty).Ok? ==> TraceTarget(b, o.pos, o.ty).slots == Follows(b, o.pos, o.ty)
    ensures Covers(b, bounds) && VerifyTarget(b, o.ty, ListKind(o.ty), o.pos, bounds, depth) ==>
      CheckTarget(b, o.ty, ListKind(o.ty), o.pos, bounds, depth) == Some(Follows(b, o.pos, o.ty))
  {
    hide Shape, Good, Enc, Linked, Visited, Follows, Within, RebasedOnce, Covered, RelocTarget, MoveParts, Sep,
      Rebasable, TargetAt, TraceTarget, VerifyTarget, CheckTarget, ListKind;
    CoveredObj(o);
    VisitedExact(b, o);
    ExactlyOnce(b, o, d);
    if TargetAt(b, o.pos, o.ty).Ok? { ReaderFollows(b, o.pos, o.ty); }
    if Covers(b, bounds) && VerifyTarget(b, o.ty, ListKind(o.ty), o.pos, bounds, depth) {
      VerifierFollows(b, o.ty, o.pos, bounds, depth);
    }
  }
}
