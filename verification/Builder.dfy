/** The stateful writer: a builder owns the bytes of one record and appends to them.

    Every method is tied to the functions of `Writer`; on top of them the builder carries, as ghost
    state, the value each field was last given, and every public call keeps the invariant that the
    bytes hold exactly those values. */
module Builder {
  import opened Bytes
  import opened Wrappers
  import opened Schemas
  import opened Layout
  import opened LayoutFacts
  import opened Values
  import opened Graph
  import opened Relocation
  import opened Relocator
  import opened Writer
  import opened WriterFrame
  import opened WriterFacts
  import opened RecordFacts
  import opened WriteSteps
  import opened WriterRuns
  import opened ListWriting
  import opened Commits
  import opened RoundTrip

  function AsAppended(b: seq<byte>, off: Option<nat>): Appended {
    if off.Some? then Done(b, off.value) else Failed(b)
  }

  function PrependOffs(out: seq<nat>, r: AppendedItems): AppendedItems {
    match r
    case ItemsFailed(_) => r
    case Items(bytes, offs) => Items(bytes, out + offs)
  }

  /** One element record in front of the rest of a run. */
  lemma ItemsStep(start: seq<byte>, b: seq<byte>, e: TypeRepr, items: seq<Value>, i: nat, out: seq<nat>, r: Appended)
    requires i < |items| && r == AppendTarget(b, e, items[i], true)
    requires AppendItems(start, e, items) == PrependOffs(out, AppendItems(b, e, items[i..]))
    ensures r.Failed? ==> AppendItems(start, e, items) == ItemsFailed(r.bytes)
    ensures r.Done? && r.off >= U32_LIMIT ==> AppendItems(start, e, items) == ItemsFailed(r.bytes)
    ensures r.Done? && r.off < U32_LIMIT ==>
      AppendItems(start, e, items) == PrependOffs(out + [r.off], AppendItems(r.bytes, e, items[i + 1..]))
  {
    hide AppendTarget;
    assert items[i..][1..] == items[i + 1..];
    if r.Done? && r.off < U32_LIMIT {
      var rest := AppendItems(r.bytes, e, items[i + 1..]);
      if rest.Items? { assert out + ([r.off] + rest.offs) == (out + [r.off]) + rest.offs; }
    }
  }

  lemma ItemsStart(b: seq<byte>, e: TypeRepr, items: seq<Value>)
    ensures AppendItems(b, e, items) == PrependOffs([], AppendItems(b, e, items[0..]))
  {
    assert items[0..] == items;
    var r := AppendItems(b, e, items);
    if r.Items? { assert [] + r.offs == r.offs; }
  }

  lemma ItemsEnd(b: seq<byte>, e: TypeRepr, items: seq<Value>, out: seq<nat>)
    ensures PrependOffs(out, AppendItems(b, e, items[|items|..])) == Items(b, out)
  {
    assert out + [] == out;
  }

  lemma SlotKinds(ty: TypeRepr)
    requires Good(ty)
    ensures ty.Inline?() || ty.Pointer?()
    ensures ty.Inline?() ==> SlotWidth(ty) == InlineSize(ty)
  {
  }

  /** Writing field `k` by name is the next step of writing the fields in order. */
  lemma WriteFieldStep(b: seq<byte>, fs: seq<Field>, t: OffsetTable, raw: seq<Value>, k: nat)
    requires GoodRecord(fs) && OffsetsFor(fs) == Some(t) && |raw| == |fs| && k < |fs|
    ensures var w := WriteField(b, fs, t, fs[k].name, fs[k].ty, raw[k]);
      WriteFields(b, t, fs[k..], raw[k..]) == if w.ok then WriteFields(w.bytes, t, fs[k + 1..], raw[k + 1..]) else None
  {
    hide OffsetsFor, WriteFields, WriteSlot;
    SlotRoom(fs, t, k);
    GoodField(fs, k);
    FieldIndexAt(fs, fs[k].name, k);
    TypeMatchesEqual(fs[k].ty, fs[k].ty);
    WriteFieldsStep(b, t, fs, raw, k);
  }

  method FindEntry(fields: seq<Field>, name: string) returns (k: Option<nat>)
    ensures k == FieldIndex(fields, name)
  {
    for i := 0 to |fields|
      invariant forall j :: 0 <= j < i ==> fields[j].name != name
    {
      if fields[i].name == name {
        FieldIndexAt(fields, name, i);
        return Some(i);
      }
    }
    FieldIndexNone(fields, name);
    return None;
  }

  /** The payload bytes of an inline list, element by element. */
  method EncodeScalars(e: TypeRepr, items: seq<Value>) returns (payload: Option<seq<byte>>)
    requires e.Scalar?()
    ensures payload == ScalarPayload(e, items)
  {
    hide ScalarBytes;
    var out := [];
    assert items[0..] == items;
    PrependNil(ScalarPayload(e, items));
    for i := 0 to |items|
      invariant ScalarPayload(e, items) == Prepend(out, ScalarPayload(e, items[i..]))
    {
      var data := ScalarBytes(e, items[i]);
      assert items[i..][1..] == items[i + 1..];
      if data.None? { return None; }
      assert forall rest: seq<byte> :: (out + data.value) + rest == out + (data.value + rest);
      out := out + data.value;
    }
    assert out + [] == out;
    return Some(out);
  }

  class BufferBuilder {
    const layout: OffsetTable
    const fields: seq<Field>
    var bytes: seq<byte>
    ghost var slots: seq<Option<Part>>
    ghost var values: seq<Option<Value>>

    constructor (layout: OffsetTable, fields: seq<Field>)
      ensures this.layout == layout && this.fields == fields && bytes == Zeros(layout.rootSize)
      ensures slots == Unwritten(fields) && values == Unwritten(fields)
    {
      this.layout, this.fields := layout, fields;
      bytes := Zeros(layout.rootSize);
      slots, values := Unwritten(fields), Unwritten(fields);
    }

    ghost predicate Valid()
      reads this
    {
      Holding(bytes, fields, layout, slots, values)
    }

    method Pad(align: Alignment)
      modifies this`bytes
      ensures bytes == PadTo(old(bytes), align)
    {
      bytes := bytes + Zeros(AlignUp(|bytes|, align) - |bytes|);
    }

    method TailRecord(len: nat, payload: seq<byte>) returns (off: nat)
      modifies this`bytes
      ensures Done(bytes, off) == AppendTailRecord(old(bytes), len, payload)
    {
      hide Le;
      Pad(4);
      off := |bytes|;
      bytes := bytes + Le(len, 4);
      bytes := bytes + payload;
    }

    method TailRecordAligned(inner: Alignment, len: nat, payload: seq<byte>) returns (off: nat)
      modifies this`bytes
      ensures Done(bytes, off) == AppendTailRecordAligned(old(bytes), inner, len, payload)
    {
      hide Le;
      Pad(4);
      off := |bytes|;
      bytes := bytes + Le(len, 4);
      Pad(inner);
      bytes := bytes + payload;
    }

    /** Writes one field; the only call that changes which values the record holds. */
    method WriteValue(name: string, ty: TypeRepr, v: Value) returns (ok: bool)
      requires Valid()
      modifies this
      ensures Valid()
      ensures Wrote(ok, bytes) == WriteField(old(bytes), fields, layout, name, ty, v)
      ensures values == Updated(old(values), fields, name, ty, v, ok)
      ensures TailKept(old(bytes), bytes, layout) && OnlyNew(old(slots), slots, layout.rootSize, |old(bytes)|, [])
      decreases Depth(ty), 6
    {
      hide WriteField, Holding, Updated, GoodRecord, OffsetsFor, OnlyNew;
      HoldingLayout(bytes, fields, layout, slots, values);
      FieldKeepsTail(bytes, fields, layout, name, ty, v);
      ghost var slots' := NamedStep(bytes, fields, layout, slots, values, name, ty, v);
      ok := WriteNamedSlot(name, ty, v);
      slots, values := slots', Updated(values, fields, name, ty, v, ok);
    }

    method WriteNamedSlot(name: string, ty: TypeRepr, v: Value) returns (ok: bool)
      requires GoodRecord(fields) && OffsetsFor(fields) == Some(layout) && layout.rootSize <= |bytes|
      modifies this`bytes
      ensures Wrote(ok, bytes) == WriteField(old(bytes), fields, layout, name, ty, v)
      decreases Depth(ty), 5
    {
      hide WriteSlot, GoodRecord, OffsetsFor, TypeMatches;
      var k := FindEntry(fields, name);
      if k.None? { return false; }
      SlotRoom(fields, layout, k.value);
      if !TypeMatches(fields[k.value].ty, ty) { return false; }
      TypeMatchesEqual(fields[k.value].ty, ty);
      GoodField(fields, k.value);
      ok := WriteValueSlot(layout.fields[k.value].offset, ty, v);
    }

    method WriteValueSlot(slot: nat, ty: TypeRepr, v: Value) returns (ok: bool)
      requires Good(ty) && slot + SlotWidth(ty) <= |bytes|
      modifies this`bytes
      ensures Wrote(ok, bytes) == WriteSlot(old(bytes), slot, ty, v)
      decreases Depth(ty), 4
    {
      hide Good, AppendTarget, ScalarBytes, Le;
      SlotKinds(ty);
      if ty.Scalar?() {
        var data := ScalarBytes(ty, v);
        if data.None? { return false; }
        bytes := Put(bytes, slot, data.value);
        return true;
      }
      if ty.Unit? { return IsOptionNone(v); }
      var off := AppendPayload(ty, v, false);
      if off.None? || off.value >= U32_LIMIT { return false; }
      bytes := PutU32(bytes, slot, off.value);
      return true;
    }

    method AppendPayload(ty: TypeRepr, v: Value, inList: bool) returns (off: Option<nat>)
      requires Good(ty) && ty.Pointer?()
      modifies this`bytes
      ensures |old(bytes)| <= |bytes|
      ensures AsAppended(bytes, off) == AppendTarget(old(bytes), ty, v, inList)
      decreases Depth(ty), 3
    {
      hide Good, AppendTailRecord, AppendList, AppendRecord, AppendVariant;
      match ty
      case String =>
        if !v.VString? || (inList && |v.s| >= U32_LIMIT) { return None; }
        var at := TailRecord(|v.s|, v.s);
        off := Some(at);
      case List(e) =>
        if v.VList? { off := AppendListPayload(e, v.items); } else { off := None; }
      case Schema(s) => off := AppendSchemaValuePayload(s, v);
      case Option(_) => off := AppendVariantRecord(ty, v);
      case Result(_, _) => off := AppendVariantRecord(ty, v);
      case Enum(_, _) => off := AppendVariantRecord(ty, v);
    }

    method AppendListPayload(e: TypeRepr, items: seq<Value>) returns (off: Option<nat>)
      requires Good(TypeRepr.List(e))
      modifies this`bytes
      ensures AsAppended(bytes, off) == AppendList(old(bytes), e, items)
      decreases Depth(e), 9
    {
      hide Le, AppendItems, PatchEntries, ScalarPayload;
      if |items| >= U32_LIMIT { return None; }
      if e.Scalar?() {
        var payload := EncodeScalars(e, items);
        if payload.None? { return None; }
        var at := TailRecordAligned(PayloadAlign(e), |items|, payload.value);
        return Some(at);
      }
      ListElementGood(e);
      Pad(4);
      var header := |bytes|;
      bytes := bytes + Le(|items|, 4);
      var entries := |bytes|;
      bytes := bytes + Zeros(4 * |items|);
      ghost var start := bytes;
      var offs := AppendEntries(e, items);
      if offs.None? { return None; }
      PatchHeader(entries, offs.value);
      return Some(header);
    }

    /** Appends the element records and collects their offsets. */
    method AppendEntries(e: TypeRepr, items: seq<Value>) returns (offs: Option<seq<nat>>)
      requires Good(e) && e.Pointer?()
      modifies this`bytes
      ensures (if offs.Some? then Items(bytes, offs.value) else ItemsFailed(bytes)) == AppendItems(old(bytes), e, items)
      decreases Depth(e), 8
    {
      hide Good, AppendTarget, AppendItems;
      var out: seq<nat> := [];
      ItemsStart(bytes, e, items);
      for i := 0 to |items|
        invariant AppendItems(old(bytes), e, items) == PrependOffs(out, AppendItems(bytes, e, items[i..]))
      {
        ItemsStep(old(bytes), bytes, e, items, i, out, AppendTarget(bytes, e, items[i], true));
        var off := AppendPayload(e, items[i], true);
        if off.None? || off.value >= U32_LIMIT { return None; }
        out := out + [off.value];
      }
      ItemsEnd(bytes, e, items, out);
      return Some(out);
    }

    method PatchHeader(entries: nat, offs: seq<nat>)
      requires Fit(offs) && entries + 4 * |offs| <= |bytes|
      modifies this`bytes
      ensures bytes == PatchEntries(old(bytes), entries, offs)
    {
      hide Le, PutU32;
      assert offs[0..] == offs;
      for i := 0 to |offs|
        invariant entries + 4 * |offs| <= |bytes|
        invariant Fit(offs[i..])
        invariant PatchEntries(old(bytes), entries, offs) == PatchEntries(bytes, entries + 4 * i, offs[i..])
      {
        assert offs[i..][1..] == offs[i + 1..];
        bytes := PutU32(bytes, entries + 4 * i, offs[i]);
      }
    }

    /** Builds the nested record in a detached builder and pastes it. */
    method AppendSchemaValuePayload(s: SchemaRepr, v: Value) returns (off: Option<nat>)
      requires Good(TypeRepr.Schema(s))
      modifies this`bytes
      ensures AsAppended(bytes, off) == AppendRecord(old(bytes), s, v)
      decreases 1 + FieldsDepth(s.fields), 2
    {
      hide OffsetsFor, WriteFields, PasteAt, WriteSlot, Holding;
      SchemaGood(s);
      GoodRecordLayout(s.fields);
      var t := OffsetsFor(s.fields).value;
      var raw := RecordValues(s, v);
      if raw.None? { return None; }
      var child := new BufferBuilder(t, s.fields);
      HoldingStart(s.fields, t);
      var fs, vals := s.fields, raw.value;
      assert fs[0..] == fs && vals[0..] == vals;
      for k := 0 to |fs|
        invariant child.Valid() && bytes == old(bytes)
        invariant WriteFields(Zeros(t.rootSize), t, fs, vals) == WriteFields(child.bytes, t, fs[k..], vals[k..])
      {
        FieldDepth(fs, k);
        WriteFieldStep(child.bytes, fs, t, vals, k);
        var ok := child.WriteValue(fs[k].name, fs[k].ty, vals[k]);
        if !ok { return None; }
      }
      WriteNoFields(child.bytes, t, fs, vals);
      off := AppendChildRecordPayload(child, SchemaPasteAlign(t, fs));
    }

    /** Pads to the child's paste alignment, rebases the child's pointers and appends its bytes. */
    method AppendChildRecordPayload(child: BufferBuilder, requested: Alignment) returns (off: Option<nat>)
      requires child != this
      modifies this`bytes
      ensures AsAppended(bytes, off) ==
        PasteAt(old(bytes), MaxAlign(requested, SchemaPasteAlign(child.layout, child.fields)),
                child.layout, child.fields, child.bytes)
    {
      hide PasteAt;
      var tail := DeepAlign(child.fields);
      off := PasteChild(child, MaxAlign(MaxAlign(child.layout.rootAlign, requested), tail));
    }

    method PasteChild(child: BufferBuilder, align: Alignment) returns (off: Option<nat>)
      requires child != this
      modifies this`bytes
      ensures AsAppended(bytes, off) == PasteAt(old(bytes), align, child.layout, child.fields, child.bytes)
    {
      hide RelocPointers, BuildSlots;
      Pad(align);
      var at := |bytes|;
      if at >= U32_LIMIT { return None; }
      var moved := Rebased(child.bytes, BuildSlots(child.layout.fields, child.fields), at);
      if moved.None? { return None; }
      bytes := bytes + moved.value;
      return Some(at);
    }

    method AppendVariantRecord(ty: TypeRepr, v: Value) returns (off: Option<nat>)
      requires Good(ty) && ty.Variant?()
      modifies this`bytes
      ensures AsAppended(bytes, off) == AppendVariant(old(bytes), ty, v)
      decreases Depth(ty), 2
    {
      hide WritePayload, Good, VariantPayloadFor, VariantAlignRuntime, SelectPayload, AlignUp;
      var c := VariantPayloadFor(ty, v);
      if c.None? { return None; }
      ChoiceSelects(ty, v, c.value);
      Pad(VariantAlignRuntime(ty));
      var at := |bytes|;
      bytes := bytes + [c.value.tag];
      if c.value.Carry? {
        GoodPayload(ty, c.value.tag);
        var ok := WritePayloadSlot(at, c.value.ty, c.value.value);
        if !ok { return None; }
      }
      return Some(at);
    }

    method WritePayloadSlot(at: nat, pty: TypeRepr, v: Value) returns (ok: bool)
      requires Good(pty)
      modifies this`bytes
      ensures Wrote(ok, bytes) == WritePayload(old(bytes), at, pty, v)
      decreases Depth(pty), 5
    {
      hide WriteSlot, Good;
      PayloadSlotFits(at, pty);
      hide PayloadSlotOffset, PayloadSlotRuntime, SlotWidth;
      var slot := PayloadSlotOffset(at, pty);
      bytes := GrowTo(bytes, slot + PayloadSlotRuntime(pty).0);
      ok := WriteValueSlot(slot, pty, v);
    }

    /** Commits a detached child: the field then holds the record the child stands for. Open list writers
        keep their entries. */
    method FinishSubRecord(name: string, child: BufferBuilder) returns (ok: bool)
      requires Valid() && child.Valid() && child != this
      modifies this
      ensures Valid()
      ensures Wrote(ok, bytes) == PasteField(old(bytes), fields, layout, name, child.layout, child.fields, child.bytes)
      ensures ok <==> CommitFits(old(bytes), fields, layout, name, child.layout, child.fields, child.bytes)
      ensures values == if ok then WithRecord(old(values), fields, name, child.fields, child.values) else old(values)
      ensures TailKept(old(bytes), bytes, layout) && OnlyNew(old(slots), slots, layout.rootSize, |old(bytes)|, [])
    {
      hide Holding, GoodRecord, OffsetsFor, PasteAt, OnlyNew, RecordHeld, CommitFits;
      HoldingLayout(bytes, fields, layout, slots, values);
      CommitIff(bytes, fields, layout, name, child.layout, child.fields, child.bytes);
      ghost var slots' := SubRecordCommitted(bytes, fields, layout, slots, values, name,
                                             child.bytes, child.fields, child.layout, child.slots, child.values);
      ok := LinkChild(name, child);
      slots := slots';
      if ok { values := WithRecord(values, fields, name, child.fields, child.values); }
    }

    method LinkChild(name: string, child: BufferBuilder) returns (ok: bool)
      requires child != this && GoodRecord(fields) && OffsetsFor(fields) == Some(layout) && layout.rootSize <= |bytes|
      modifies this`bytes
      ensures Wrote(ok, bytes) == PasteField(old(bytes), fields, layout, name, child.layout, child.fields, child.bytes)
    {
      hide GoodRecord, OffsetsFor, PasteAt;
      var k := FindEntry(fields, name);
      if k.None? || !fields[k.value].ty.Schema? { return false; }
      SlotRoom(fields, layout, k.value);
      var off := AppendChildRecordPayload(child, TailAlign(layout.fields[k.value]));
      if off.None? { return false; }
      PasteOffset(old(bytes), PasteAlign(layout.fields[k.value], child.layout, child.fields),
                  child.layout, child.fields, child.bytes);
      bytes := PutU32(bytes, layout.fields[k.value].offset, off.value);
      return true;
    }

    /** A writer for the list of records in field `name`; `None` unless it is declared a list of `schema`. */
    method NewListRecordWriter(
      name: string, layout: OffsetTable, schema: SchemaRepr)
      returns (w: Option<ListRecordWriter>)
      requires Valid() && OffsetsFor(schema.fields) == Some(layout)
      ensures w.Some? <==> IsListOf(fields, name, schema)
      ensures w.Some? ==> fresh(w.value) && w.value.Valid(this) && w.value.entries == Some([]) && w.value.objs == []
      ensures w.Some? ==> w.value.schema == schema && FieldIndex(fields, name) == Some(w.value.field)
    {
      hide Holding, OffsetsFor;
      HoldingLayout(bytes, fields, this.layout, slots, values);
      var k := FindEntry(fields, name);
      if k.None? || fields[k.value].ty != TypeRepr.List(TypeRepr.Schema(schema)) { return None; }
      var writer := new ListRecordWriter(k.value, layout, schema);
      NothingPending(bytes, this.layout, slots, TypeRepr.Schema(schema));
      return Some(writer);
    }

    method ListHeader(offs: seq<nat>) returns (header: nat)
      modifies this`bytes
      ensures Done(bytes, header) == Done(PadTo(old(bytes), 4) + Le(|offs|, 4) + OffBytes(offs), |PadTo(old(bytes), 4)|)
    {
      hide Le, OffBytes;
      Pad(4);
      header := |bytes|;
      bytes := bytes + Le(|offs|, 4);
      OffBytesNone();
      for i := 0 to |offs|
        invariant bytes == PadTo(old(bytes), 4) + Le(|offs|, 4) + OffBytes(offs[..i])
      {
        OffBytesStep(offs, i);
        bytes := bytes + Le(offs[i], 4);
      }
      assert offs[..|offs|] == offs;
    }

    /** Emits the header of a list whose entries are committed; its field then holds them, in order. Another
        open list writer keeps its entries if they are beside this one's. */
    method FinishListRecord(w: ListRecordWriter) returns (ok: bool)
      requires w.Valid(this)
      modifies this
      ensures Valid()
      ensures Wrote(ok, bytes) == FinishList(old(bytes), layout.fields[w.field].offset, w.entryOffsets)
      ensures values == if ok then old(values)[w.field := ListHeld(w.entries)] else old(values)
      ensures TailKept(old(bytes), bytes, layout) && OnlyNew(old(slots), slots, layout.rootSize, |old(bytes)|, w.objs)
    {
      hide Holding, Pending, OffsetsFor, GoodRecord, OnlyNew, FinishList;
      HoldingLayout(bytes, fields, layout, slots, values);
      SlotRoom(fields, layout, w.field);
      ghost var slots' := ListFinished(bytes, fields, layout, slots, values, w.field, TypeRepr.Schema(w.schema),
                                       w.entryOffsets, w.entries, w.objs);
      ok := EmitHeader(layout.fields[w.field].offset, w.entryOffsets);
      slots := slots';
      if ok { values := values[w.field := ListHeld(w.entries)]; }
    }

    method EmitHeader(slot: nat, offs: seq<nat>) returns (ok: bool)
      requires slot + 4 <= |bytes|
      modifies this`bytes
      ensures Wrote(ok, bytes) == FinishList(old(bytes), slot, offs)
    {
      hide Le, OffBytes;
      if |offs| >= U32_LIMIT { return false; }
      var header := ListHeader(offs);
      if header >= U32_LIMIT { return false; }
      bytes := PutU32(bytes, slot, header);
      return true;
    }

    /** The finished bytes with every pointer rebased to the arena offset they will be copied to. With every
        field written and the values able to survive, whatever the calls that wrote them, they decode to those
        values and the verifier accepts them, in every arena that holds them at that offset. */
    method FinishArenaAbsolute(base: nat) returns (r: Option<seq<byte>>)
      requires Valid() && base < U32_LIMIT
      ensures r == Finished(bytes, fields, layout, base)
      ensures AllGiven(values) && FieldsRebasable(fields, Given(values)) ==>
        Aligned(base, FieldsGraphAlign(fields)) && base + |bytes| < U32_LIMIT ==>
          && r.Some?
          && forall s: SchemaRepr :: s.fields == fields ==> InEveryArena(r.value, base, s, layout, Given(values))
    {
      hide Holding, FieldsRebasable, InEveryArena, Aligned, RelocPointers, BuildSlots;
      HoldingLayout(bytes, fields, layout, slots, values);
      if base == 0 {
        r := Some(bytes);
      } else {
        r := Rebased(bytes, BuildSlots(layout.fields, fields), base);
      }
      if AllGiven(values) && FieldsRebasable(fields, Given(values)) {
        if Aligned(base, FieldsGraphAlign(fields)) && base + |bytes| < U32_LIMIT {
          FinishedEverywhere(bytes, fields, layout, slots, values, base);
        }
      }
    }
  }

  /** Commits the entries of a list of records one at a time; the header comes last. */
  class ListRecordWriter {
    const field: nat
    const layout: OffsetTable
    const schema: SchemaRepr
    const elemAlign: Alignment
    var entryOffsets: seq<nat>
    ghost var entries: Option<seq<Value>>
    ghost var objs: seq<Obj>

    constructor (field: nat, layout: OffsetTable, schema: SchemaRepr)
      ensures this.field == field && this.layout == layout && this.schema == schema
      ensures elemAlign == SchemaPasteAlign(layout, schema.fields)
      ensures entryOffsets == [] && entries == Some([]) && objs == []
    {
      this.field, this.layout, this.schema := field, layout, schema;
      elemAlign := SchemaPasteAlign(layout, schema.fields);
      entryOffsets, entries, objs := [], Some([]), [];
    }

    /** The parent's tail holds every committed entry, clear of the parent's fields; after an entry that
        stands for no record of the schema, the list is undetermined. */
    ghost predicate Valid(parent: BufferBuilder)
      reads this, parent
    {
      && parent.Valid() && field < |parent.fields| && field < |parent.layout.fields|
      && parent.fields[field].ty == TypeRepr.List(TypeRepr.Schema(schema)) && OffsetsFor(schema.fields) == Some(layout)
      && elemAlign == SchemaPasteAlign(layout, schema.fields)
      && EntriesHeld(parent.bytes, parent.layout, parent.slots, TypeRepr.Schema(schema), entryOffsets, entries, objs)
    }

    method StartEntry() returns (child: BufferBuilder)
      requires OffsetsFor(schema.fields) == Some(layout) && GoodRecord(schema.fields)
      ensures fresh(child) && child.Valid() && child.fields == schema.fields && child.layout == layout
    {
      hide Holding, GoodRecord, OffsetsFor;
      child := new BufferBuilder(layout, schema.fields);
      HoldingStart(schema.fields, layout);
    }

    /** Pastes an entry into the tail of `parent` and records where; the parent's fields are untouched, and
        the new entry shares no byte with anything written before. `home` is the builder that opened the
        list: an entry pasted into any other builder leaves the list undetermined. */
    method FinishEntry(parent: BufferBuilder, child: BufferBuilder, ghost home: BufferBuilder) returns (ok: bool)
      requires Valid(home) && parent.Valid() && child.Valid() && child != parent
      modifies this, parent`bytes
      ensures Valid(home) && parent.Valid() && old(parent.bytes) <= parent.bytes
      ensures var r := PasteAt(old(parent.bytes), elemAlign, child.layout, child.fields, child.bytes);
        && ok == (|old(entryOffsets)| < U32_LIMIT - 1 && r.Done?)
        && parent.bytes == (if |old(entryOffsets)| < U32_LIMIT - 1 then r.bytes else old(parent.bytes))
        && entryOffsets == if ok then old(entryOffsets) + [r.off] else old(entryOffsets)
      ensures entries ==
        if !ok then old(entries)
        else if parent == home then Joined(old(entries), RecordHeld(schema, child.fields, child.values))
        else None
      ensures Grown(old(objs), objs, |old(parent.bytes)|)
    {
      hide Holding, EntriesHeld, OffsetsFor, PasteAt, RecordHeld, GoodRecord, Grown;
      GrownNot(objs, |parent.bytes|);
      if |entryOffsets| >= U32_LIMIT - 1 { return false; }
      ghost var was := parent.bytes;
      var off := parent.PasteChild(child, elemAlign);
      PasteExtends(was, elemAlign, child.layout, child.fields, child.bytes);
      HoldingLonger(was, parent.bytes, parent.fields, parent.layout, parent.slots, parent.values);
      if parent == home {
        objs := EntryJoined(was, parent.fields, parent.layout, parent.slots, parent.values, schema, layout, child.bytes,
                            child.fields, child.layout, child.slots, child.values, entryOffsets, entries, objs);
      }
      if off.None? { return false; }
      entryOffsets := entryOffsets + [off.value];
      if parent == home {
        entries := Joined(entries, RecordHeld(schema, child.fields, child.values));
      } else {
        GrownNone(objs, |was|);
        NoEntries(home.bytes, home.layout, home.slots, TypeRepr.Schema(schema), entryOffsets);
        entries, objs := None, [];
      }
      return true;
    }
  }

  /** An open list writer keeps its entries across a field write or a sub-record of its parent. */
  twostate lemma OpenAcrossWrite(w: ListRecordWriter, parent: BufferBuilder)
    requires old(w.Valid(parent)) && unchanged(w) && parent.Valid()
    requires TailKept(old(parent.bytes), parent.bytes, parent.layout)
    requires OnlyNew(old(parent.slots), parent.slots, parent.layout.rootSize, |old(parent.bytes)|, [])
    ensures w.Valid(parent)
  {
    hide Holding, EntriesHeld, OffsetsFor, OnlyNew;
    HoldingLayout(old(parent.bytes), parent.fields, parent.layout, old(parent.slots), old(parent.values));
    EntriesKept(old(parent.bytes), parent.bytes, parent.layout, old(parent.slots), parent.slots, [],
                TypeRepr.Schema(w.schema), w.entryOffsets, w.entries, w.objs);
  }

  /** It also keeps them, and stays beside the other writer's, when another writer commits an entry. */
  twostate lemma OpenAcrossEntry(w: ListRecordWriter, other: ListRecordWriter, parent: BufferBuilder)
    requires old(w.Valid(parent)) && unchanged(w) && parent.Valid() && parent.slots == old(parent.slots)
    requires old(parent.bytes) <= parent.bytes && Grown(old(other.objs), other.objs, |old(parent.bytes)|)
    requires Beside(old(other.objs), w.objs)
    ensures w.Valid(parent) && Beside(other.objs, w.objs)
  {
    hide Holding, EntriesHeld, OffsetsFor, Grown;
    HoldingLayout(old(parent.bytes), parent.fields, parent.layout, old(parent.slots), old(parent.values));
    EntriesKept(old(parent.bytes), parent.bytes, parent.layout, old(parent.slots), parent.slots, [],
                TypeRepr.Schema(w.schema), w.entryOffsets, w.entries, w.objs);
    GrownBeside(old(parent.bytes), parent.layout, parent.slots, old(other.objs), other.objs,
                TypeRepr.Schema(w.schema), w.entryOffsets, w.entries, w.objs);
  }

  /** And when another writer, beside it, emits its header. */
  twostate lemma OpenAcrossFinish(w: ListRecordWriter, other: ListRecordWriter, parent: BufferBuilder)
    requires old(w.Valid(parent)) && unchanged(w) && unchanged(other) && parent.Valid() && Beside(other.objs, w.objs)
    requires TailKept(old(parent.bytes), parent.bytes, parent.layout)
    requires OnlyNew(old(parent.slots), parent.slots, parent.layout.rootSize, |old(parent.bytes)|, other.objs)
    ensures w.Valid(parent)
  {
    hide Holding, EntriesHeld, OffsetsFor, OnlyNew;
    HoldingLayout(old(parent.bytes), parent.fields, parent.layout, old(parent.slots), old(parent.values));
    EntriesKept(old(parent.bytes), parent.bytes, parent.layout, old(parent.slots), parent.slots, other.objs,
                TypeRepr.Schema(w.schema), w.entryOffsets, w.entries, w.objs);
  }

  lemma FinishedEverywhere(
    b: seq<byte>, fs: seq<Field>, t: OffsetTable, slots: seq<Option<Part>>, values: seq<Option<Value>>, base: nat)
    requires Holding(b, fs, t, slots, values) && AllGiven(values) && |values| == |fs|
    requires FieldsRebasable(fs, Given(values))
    requires Aligned(base, FieldsGraphAlign(fs)) && base + |b| < U32_LIMIT
    ensures Finished(b, fs, t, base).Some?
    ensures forall s: SchemaRepr :: s.fields == fs ==>
      InEveryArena(Finished(b, fs, t, base).value, base, s, t, Given(values))
  {
    hide Holding, FieldsRebasable, InEveryArena, Aligned, Finished;
    var tuple := SchemaRepr("", fs, true);
    assert Written(b, tuple, t, Given(values));
    BuilderFinished(b, tuple, t, Given(values), base);
    forall s: SchemaRepr | s.fields == fs
      ensures InEveryArena(Finished(b, fs, t, base).value, base, s, t, Given(values))
    {
      assert Written(b, s, t, Given(values));
      BuilderFinished(b, s, t, Given(values), base);
    }
  }

  lemma OffBytesNone()
    ensures OffBytes([]) == []
  {
  }

  lemma OffBytesStep(offs: seq<nat>, i: nat)
    requires i < |offs|
    ensures OffBytes(offs[..i + 1]) == OffBytes(offs[..i]) + Le(offs[i], 4)
  {
    assert offs[..i + 1][..i] == offs[..i];
  }

  /** The strongest alignment any field needs. */
  method DeepAlign(fields: seq<Field>) returns (a: Alignment)
    ensures a == FieldsGraphAlign(fields)
  {
    hide TypeGraphAlign;
    a := 1;
    assert fields[0..] == fields;
    for i := 0 to |fields|
      invariant FieldsGraphAlign(fields) == MaxAlign(a, FieldsGraphAlign(fields[i..]))
    {
      assert fields[i..][1..] == fields[i + 1..];
      a := MaxAlign(a, TypeGraphAlign(fields[i].ty));
    }
  }

  /** A copy of `b` with its pointers rebased. */
  method Rebased(b: seq<byte>, slots: seq<RelocSlot>, base: nat) returns (r: Option<seq<byte>>)
    ensures r == RelocPointers(b, slots, 0, base)
  {
    hide RelocPointers;
    var a := new byte[|b|](i requires 0 <= i < |b| => b[i]);
    assert a[..] == b;
    var ok := RelocatePointers(a, slots, 0, base);
    return if ok then Some(a[..]) else None;
  }
}
