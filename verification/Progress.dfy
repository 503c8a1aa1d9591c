/** When the calls of a builder succeed, and what a history then holds: every conforming value, finished
    child and list that fits is taken, and its field is determined. */
module Progress {
  import opened Bytes
  import opened Wrappers
  import opened Schemas
  import opened Layout
  import opened LayoutFacts
  import opened Values
  import opened Graph
  import opened Relocation
  import opened RelocationFacts
  import opened Rebase
  import opened Moving
  import opened Paste
  import opened Writer
  import opened WriterFacts
  import opened RecordFacts
  import opened WriterRuns
  import opened WriterTotal
  import opened ListWriting
  import opened Commits
  import opened RoundTrip
  import opened Sessions

  // ----- named writes -----

  /** A named write succeeds exactly when the field is declared with that type and its slot takes the value. */
  lemma NamedWriteIff(b: seq<byte>, fs: seq<Field>, t: OffsetTable, name: string, ty: TypeRepr, v: Value)
    requires GoodRecord(fs) && OffsetsFor(fs) == Some(t)
    ensures WriteField(b, fs, t, name, ty, v).ok <==>
      exists k :: 0 <= k < |fs| && k < |t.fields| && fs[k] == Field(name, ty)
        && WriteSlot(b, t.fields[k].offset, ty, v).ok
  {
    hide GoodRecord, OffsetsFor, WriteSlot, TypeMatches;
    assert DistinctNames(fs) by { NamesOf(fs); }
    var at := FieldIndex(fs, name);
    if at.Some? {
      SlotRoom(fs, t, at.value);
      GoodField(fs, at.value);
      TypeMatchesEqual(fs[at.value].ty, ty);
      forall k | 0 <= k < |fs| && fs[k].name == name ensures k == at.value {}
    } else {
      forall k | 0 <= k < |fs| ensures fs[k].name != name { NotIndexed(fs, name, k); }
    }
  }

  /** In particular for every conforming value that fits. */
  lemma NamedWriteFits(b: seq<byte>, fs: seq<Field>, t: OffsetTable, k: nat, v: Value)
    requires GoodRecord(fs) && OffsetsFor(fs) == Some(t) && k < |fs| && t.rootSize <= |b|
    requires Norm(fs[k].ty, v).Some? && Writable(fs[k].ty, v) && |b| + Size(fs[k].ty, v) < U32_LIMIT
    ensures WriteField(b, fs, t, fs[k].name, fs[k].ty, v).ok
    ensures FieldIndex(fs, fs[k].name) == Some(k)
  {
    hide GoodRecord, OffsetsFor, WriteField, WriteSlot, Norm, Writable, Size;
    SlotRoom(fs, t, k);
    GoodField(fs, k);
    SlotFits(b, t.fields[k].offset, fs[k].ty, v);
    NamedWriteIff(b, fs, t, fs[k].name, fs[k].ty, v);
    IndexOf(fs, k);
  }

  lemma IndexOf(fs: seq<Field>, k: nat)
    requires GoodRecord(fs) && k < |fs|
    ensures FieldIndex(fs, fs[k].name) == Some(k)
  {
    hide GoodRecord;
    assert DistinctNames(fs) by { NamesOf(fs); }
    FieldIndexAt(fs, fs[k].name, k);
  }

  // ----- pastes -----

  /** A fully written child is relocated exactly when every pointer it holds still fits after the rebase. */
  lemma ChildRelocates(child: seq<byte>, s: SchemaRepr, t: OffsetTable, raw: seq<Value>, d: nat) returns (o: Obj)
    requires Written(child, s, t, raw)
    ensures Owns(child, o) && o.pos == 0 && o.ty == TypeRepr.Schema(s)
    ensures RelocPointers(child, BuildSlots(t.fields, s.fields), 0, d).Some? <==> ValsFit(Move(o, 0, d).parts)
  {
    hide Written, RelocPointers, BuildSlots, Owns, ValsFit, RebasedOnce;
    o := BuilderRebasedOnce(child, s, t, raw, d);
  }

  /** It is pasted wherever it ends below 2^32. */
  lemma ChildHasRoom(b: seq<byte>, align: Alignment, child: seq<byte>, s: SchemaRepr, t: OffsetTable, raw: seq<Value>)
    requires Written(child, s, t, raw) && |b| + 7 + |child| < U32_LIMIT
    ensures RoomFor(b, align, t, s.fields, child)
  {
    hide Written, RelocPointers, RelocTarget, BuildSlots, OffsetsFor, TargetDone, GoodRecord, FieldsRebasable;
    var c := WrittenObj(child, s, t, raw);
    var at := AlignUp(|b|, align);
    assert Owns(child, c) && c.ty == TypeRepr.Schema(s) by { DoneOwned(child, s, Assemble(s, raw), c); }
    hide Owns;
    RecordByType(child, 0, s, at);
    RelocationSucceeds(child, c, at);
  }

  lemma DoneOwned(b: seq<byte>, s: SchemaRepr, v: Value, c: Obj)
    requires TargetDone([], Done(b, 0), TypeRepr.Schema(s), v, c)
    ensures Owns(b, c) && c.ty == TypeRepr.Schema(s)
  {
  }

  lemma PasteDone(b: seq<byte>, align: Alignment, t: OffsetTable, fs: seq<Field>, child: seq<byte>)
    ensures PasteAt(b, align, t, fs, child).Done? <==> RoomFor(b, align, t, fs, child)
  {
    hide RelocPointers, BuildSlots, AlignUp;
  }

  /** A list header is emitted exactly when the count and the padded end fit 32 bits. */
  lemma FinishListIff(b: seq<byte>, slot: nat, offs: seq<nat>)
    requires slot + 4 <= |b|
    ensures FinishList(b, slot, offs).ok <==> |offs| < U32_LIMIT && AlignUp(|b|, 4) < U32_LIMIT
  {
    hide Le, OffBytes, AlignUp;
  }

  // ----- histories -----

  lemma AfterStep(fs: seq<Field>, t: OffsetTable, calls: seq<Call>, call: Call)
    ensures After(fs, t, calls + [call]) == Perform(After(fs, t, calls), fs, t, call, ChildState(call))
  {
    hide Perform, ChildState;
    assert (calls + [call])[..|calls|] == calls;
  }

  lemma AfterLengths(fs: seq<Field>, t: OffsetTable, calls: seq<Call>)
    requires GoodRecord(fs) && OffsetsFor(fs) == Some(t)
    ensures var st := After(fs, t, calls); |st.values| == |fs| == |t.fields| && t.rootSize <= |st.bytes|
    ensures forall i :: 0 <= i < |After(fs, t, calls).lists| ==> ListOf(fs, After(fs, t, calls).lists[i])
  {
    hide GoodRecord, OffsetsFor, Holding, After, EntriesHeld, Beside;
    var slots, objs := AfterSound(fs, t, calls);
    var st := After(fs, t, calls);
    HoldingLayout(st.bytes, fs, t, slots, st.values);
    forall i | 0 <= i < |st.lists| ensures ListOf(fs, st.lists[i]) {
      assert ListSound(st, fs, t, slots, st.lists[i], objs[i]);
    }
  }

  /** The list writer is for a field declared as a list of its schema. */
  predicate ListOf(fs: seq<Field>, l: ListState) {
    l.field < |fs| && fs[l.field].ty == TypeRepr.List(TypeRepr.Schema(l.schema))
  }

  /** Whatever came before, a write of a conforming value that fits determines its field. */
  lemma WriteDetermines(fs: seq<Field>, t: OffsetTable, calls: seq<Call>, k: nat, v: Value)
    requires GoodRecord(fs) && OffsetsFor(fs) == Some(t) && k < |fs|
    requires Norm(fs[k].ty, v).Some? && Writable(fs[k].ty, v)
    requires |After(fs, t, calls).bytes| + Size(fs[k].ty, v) < U32_LIMIT
    ensures var st := After(fs, t, calls);
      && k < |st.values|
      && After(fs, t, calls + [WriteCall(fs[k].name, fs[k].ty, v)]).values == st.values[k := Some(v)]
  {
    hide GoodRecord, OffsetsFor, After, WriteField, Norm, Writable, Size, FieldIndex;
    AfterLengths(fs, t, calls);
    AfterStep(fs, t, calls, WriteCall(fs[k].name, fs[k].ty, v));
    NamedWriteFits(After(fs, t, calls).bytes, fs, t, k, v);
  }

  /** The finished state of a detached child. */
  ghost function Built(child: Detached): State
    requires OffsetsFor(child.fields).Some?
  {
    After(child.fields, OffsetsFor(child.fields).value, child.calls)
  }

  /** The child was built for schema `s`, holds `raw`, and its values survive a paste. */
  ghost predicate Finishes(child: Detached, s: SchemaRepr, raw: seq<Value>) {
    && child.fields == s.fields && GoodRecord(s.fields) && OffsetsFor(s.fields).Some?
    && |raw| == |s.fields| && Complete(Built(child).values, raw) && FieldsRebasable(s.fields, raw)
  }

  lemma FinishesWritten(child: Detached, s: SchemaRepr, raw: seq<Value>)
    requires Finishes(child, s, raw)
    ensures Written(Built(child).bytes, s, OffsetsFor(s.fields).value, raw)
    ensures RecordHeld(s, child.fields, Built(child).values) == Some(Assemble(s, raw))
  {
    hide GoodRecord, OffsetsFor, Holding, After, ListSound, FieldsRebasable, Assemble;
    var t := OffsetsFor(s.fields).value;
    var slots, objs := AfterSound(s.fields, t, child.calls);
    assert Given(Built(child).values) == raw;
  }

  /** Committing a finished child that fits determines its field: it holds the child's record. */
  lemma CommitDetermines(
    fs: seq<Field>, t: OffsetTable, calls: seq<Call>, k: nat, child: Detached, raw: seq<Value>)
    requires GoodRecord(fs) && OffsetsFor(fs) == Some(t) && k < |fs| && fs[k].ty.Schema?
    requires Finishes(child, fs[k].ty.schema, raw)
    requires |After(fs, t, calls).bytes| + 7 + |Built(child).bytes| < U32_LIMIT
    ensures var st := After(fs, t, calls);
      && k < |st.values|
      && After(fs, t, calls + [SubRecordCall(fs[k].name, child)]).values ==
           st.values[k := Some(Assemble(fs[k].ty.schema, raw))]
  {
    hide GoodRecord, OffsetsFor, After, PasteField, RecordHeld, FieldIndex, Assemble, Written, RoomFor, PasteAlign,
      Finishes;
    var st, s, call := After(fs, t, calls), fs[k].ty.schema, SubRecordCall(fs[k].name, child);
    AfterLengths(fs, t, calls);
    AfterStep(fs, t, calls, call);
    FinishesWritten(child, s, raw);
    IndexOf(fs, k);
    CommitTaken(st.bytes, fs, t, k, child, raw);
    assert ChildState(call) == Some(Built(child)) by { FinishesBuilt(child, s, raw); }
  }

  lemma FinishesBuilt(child: Detached, s: SchemaRepr, raw: seq<Value>)
    requires Finishes(child, s, raw)
    ensures child.fields == s.fields && OffsetsFor(child.fields).Some?
  {
  }

  lemma CommitTaken(b: seq<byte>, fs: seq<Field>, t: OffsetTable, k: nat, child: Detached, raw: seq<Value>)
    requires GoodRecord(fs) && OffsetsFor(fs) == Some(t) && k < |fs| && fs[k].ty.Schema? && t.rootSize <= |b|
    requires Finishes(child, fs[k].ty.schema, raw) && |b| + 7 + |Built(child).bytes| < U32_LIMIT
    ensures PasteField(b, fs, t, fs[k].name, OffsetsFor(child.fields).value, child.fields, Built(child).bytes).ok
  {
    hide GoodRecord, OffsetsFor, After, PasteField, Written, RoomFor, PasteAlign;
    var s, ct, c := fs[k].ty.schema, OffsetsFor(child.fields).value, Built(child).bytes;
    FinishesWritten(child, s, raw);
    SlotRoom(fs, t, k);
    ChildHasRoom(b, PasteAlign(t.fields[k], ct, s.fields), c, s, ct, raw);
    assert CommitFits(b, fs, t, fs[k].name, ct, s.fields, c);
    CommitIff(b, fs, t, fs[k].name, ct, s.fields, c);
  }

  /** An open list whose entries so far are known takes a finished entry that fits. */
  lemma EntryJoins(
    fs: seq<Field>, t: OffsetTable, calls: seq<Call>, i: nat, child: Detached, raw: seq<Value>)
    requires GoodRecord(fs) && OffsetsFor(fs) == Some(t)
    requires i < |After(fs, t, calls).lists| && After(fs, t, calls).lists[i].open
    requires var l := After(fs, t, calls).lists[i];
      l.entries.Some? && |l.offs| < U32_LIMIT - 1 && Finishes(child, l.schema, raw)
    requires |After(fs, t, calls).bytes| + 7 + |Built(child).bytes| < U32_LIMIT
    ensures var st, st' := After(fs, t, calls), After(fs, t, calls + [EntryCall(i, child)]);
      && |st'.lists| == |st.lists| && st'.values == st.values && st'.lists[i].open
      && st'.lists[i].entries == Some(st.lists[i].entries.value + [Assemble(st.lists[i].schema, raw)])
  {
    hide GoodRecord, OffsetsFor, After, PasteAt, RoomFor, RecordHeld, Assemble, Written, Finishes;
    var st, call := After(fs, t, calls), EntryCall(i, child);
    var l := st.lists[i];
    AfterStep(fs, t, calls, call);
    FinishesWritten(child, l.schema, raw);
    FinishesBuilt(child, l.schema, raw);
    assert ChildState(call) == Some(Built(child));
    var te := OffsetsFor(l.schema.fields).value;
    ChildHasRoom(st.bytes, SchemaPasteAlign(te, l.schema.fields), Built(child).bytes, l.schema, te, raw);
    PasteDone(st.bytes, SchemaPasteAlign(te, l.schema.fields), te, l.schema.fields, Built(child).bytes);
  }

  /** Closing it determines its field: it holds the entries, in order. */
  lemma CloseDetermines(fs: seq<Field>, t: OffsetTable, calls: seq<Call>, i: nat)
    requires GoodRecord(fs) && OffsetsFor(fs) == Some(t)
    requires i < |After(fs, t, calls).lists| && After(fs, t, calls).lists[i].open
    requires After(fs, t, calls).lists[i].entries.Some? && |After(fs, t, calls).lists[i].offs| < U32_LIMIT
    requires |After(fs, t, calls).bytes| + 3 < U32_LIMIT
    ensures var st := After(fs, t, calls);
      && st.lists[i].field < |st.values|
      && After(fs, t, calls + [CloseCall(i)]).values ==
           st.values[st.lists[i].field := Some(VList(st.lists[i].entries.value))]
  {
    hide GoodRecord, OffsetsFor, After, FinishList;
    var st := After(fs, t, calls);
    AfterLengths(fs, t, calls);
    AfterStep(fs, t, calls, CloseCall(i));
    var l := st.lists[i];
    assert ListOf(fs, l);
    SlotRoom(fs, t, l.field);
    FinishListIff(st.bytes, t.fields[l.field].offset, l.offs);
  }
}
