/** Every history of a builder: any sequence of field writes, nested lists, committed sub-records and list
    writers, several of them open at once, their entries interleaved with everything else, and the
    detached builders that are committed filled by histories of their own. */
module Sessions {
  import opened Bytes
  import opened Wrappers
  import opened Schemas
  import opened Layout
  import opened LayoutFacts
  import opened Values
  import opened Reader
  import opened Verifier
  import opened Graph
  import opened Writer
  import opened WriterFacts
  import opened WriteSteps
  import opened WriterRuns
  import opened ListWriting
  import opened Commits
  import opened NestedWriting
  import opened RoundTrip

  /** One call on a builder. A call on a list writer names it by the order in which it was opened. */
  datatype Call =
    | WriteCall(name: string, ty: TypeRepr, v: Value)
    | RowsCall(name: string, inner: TypeRepr, items: seq<Value>)
    | InnerCall(name: string, inner: TypeRepr, items: seq<Value>)
    | SubRecordCall(name: string, child: Detached)
    | OpenCall(name: string, schema: SchemaRepr)
    | EntryCall(list: nat, child: Detached)
    | CloseCall(list: nat)

  /** A builder of its own for the given fields, and the calls it went through. */
  datatype Detached = Detached(fields: seq<Field>, calls: seq<Call>)

  /** A list writer: where its entries are, and what they are as far as that is determined. */
  datatype ListState = ListState(
    field: nat, schema: SchemaRepr, open: bool, offs: seq<nat>, entries: Option<seq<Value>>)

  /** The builder's bytes, what each field was last given, and the list writers opened so far. */
  datatype State = State(bytes: seq<byte>, values: seq<Option<Value>>, lists: seq<ListState>)

  /** The state after a whole history; a call that fails does not stop the ones after it. */
  function After(fs: seq<Field>, t: OffsetTable, calls: seq<Call>): State
    decreases calls
  {
    if calls == [] then State(Zeros(t.rootSize), Unwritten(fs), [])
    else
      var n := |calls| - 1;
      Perform(After(fs, t, calls[..n]), fs, t, calls[n], ChildState(calls[n]))
  }

  /** The finished child a call hands over; `None` if it hands over none. */
  function ChildState(call: Call): Option<State>
    decreases call
  {
    if call.SubRecordCall? || call.EntryCall? then
      var ct :- OffsetsFor(call.child.fields);
      Some(After(call.child.fields, ct, call.child.calls))
    else None
  }

  function Perform(st: State, fs: seq<Field>, t: OffsetTable, call: Call, child: Option<State>): State {
    match call
    case WriteCall(name, ty, v) =>
      var w := WriteField(st.bytes, fs, t, name, ty, v);
      State(w.bytes, Updated(st.values, fs, name, ty, v, w.ok), st.lists)
    case RowsCall(name, inner, items) =>
      var w := WriteRows(st.bytes, fs, t, name, inner, items);
      State(w.bytes, RowsValues(st.values, fs, name, inner, items, w.ok), st.lists)
    case InnerCall(name, inner, items) =>
      var w := WriteInner(st.bytes, fs, t, name, inner, items);
      State(w.bytes, InnerValues(st.values, fs, name, inner, items, w.ok), st.lists)
    case SubRecordCall(name, c) => if child.None? then st else CommitChild(st, fs, t, name, c.fields, child.value)
    case OpenCall(name, schema) =>
      if !IsListOf(fs, name, schema) then st
      else st.(lists := st.lists + [ListState(FieldIndex(fs, name).value, schema, true, [], Some([]))])
    case EntryCall(i, c) =>
      if child.None? || i >= |st.lists| || !st.lists[i].open then st else CommitEntry(st, i, c.fields, child.value)
    case CloseCall(i) => if i >= |st.lists| || !st.lists[i].open then st else CloseList(st, t, i)
  }

  function CommitChild(st: State, fs: seq<Field>, t: OffsetTable, name: string, cfs: seq<Field>, child: State): State {
    match OffsetsFor(cfs)
    case None => st
    case Some(ct) =>
      var w := PasteField(st.bytes, fs, t, name, ct, cfs, child.bytes);
      State(w.bytes, if w.ok then WithRecord(st.values, fs, name, cfs, child.values) else st.values, st.lists)
  }

  /** An entry is pasted at the alignment of the writer's schema; the slot count is checked before. */
  function CommitEntry(st: State, i: nat, cfs: seq<Field>, child: State): State
    requires i < |st.lists|
  {
    var l := st.lists[i];
    match (OffsetsFor(l.schema.fields), OffsetsFor(cfs))
    case (Some(te), Some(ct)) =>
      if |l.offs| >= U32_LIMIT - 1 then st
      else
        (match PasteAt(st.bytes, SchemaPasteAlign(te, l.schema.fields), ct, cfs, child.bytes)
         case Failed(bytes) => st.(bytes := bytes)
         case Done(bytes, off) =>
           var l' := l.(offs := l.offs + [off], entries := Joined(l.entries, RecordHeld(l.schema, cfs, child.values)));
           State(bytes, st.values, st.lists[i := l']))
    case _ => st
  }

  /** The writer is consumed whether or not its header fits. */
  function CloseList(st: State, t: OffsetTable, i: nat): State
    requires i < |st.lists|
  {
    var l := st.lists[i];
    if l.field >= |t.fields| || l.field >= |st.values| then st
    else
      var w := FinishList(st.bytes, t.fields[l.field].offset, l.offs);
      var values := if w.ok then st.values[l.field := ListHeld(l.entries)] else st.values;
      State(w.bytes, values, st.lists[i := l.(open := false)])
  }

  // ----- the invariant -----

  ghost predicate ListSound(
    st: State, fs: seq<Field>, t: OffsetTable, slots: seq<Option<Part>>, l: ListState, objs: seq<Obj>)
  {
    && l.field < |fs| && fs[l.field].ty == TypeRepr.List(TypeRepr.Schema(l.schema))
    && (if !l.open then objs == []
        else EntriesHeld(st.bytes, t, slots, TypeRepr.Schema(l.schema), l.offs, l.entries, objs))
  }

  /** The bytes hold every field's value; every open list's entries are in the tail, clear of the fields,
      and no two lists share a byte. */
  ghost predicate Sound(st: State, fs: seq<Field>, t: OffsetTable, slots: seq<Option<Part>>, objs: seq<seq<Obj>>) {
    && Holding(st.bytes, fs, t, slots, st.values)
    && |objs| == |st.lists|
    && (forall i :: 0 <= i < |objs| ==> ListSound(st, fs, t, slots, st.lists[i], objs[i]))
    && (forall i, j :: 0 <= i < |objs| && 0 <= j < |objs| && i != j ==> Beside(objs[i], objs[j]))
  }

  /** Every history keeps the invariant. */
  lemma {:induction false} AfterSound(fs: seq<Field>, t: OffsetTable, calls: seq<Call>)
    returns (slots: seq<Option<Part>>, objs: seq<seq<Obj>>)
    requires GoodRecord(fs) && OffsetsFor(fs) == Some(t)
    ensures Sound(After(fs, t, calls), fs, t, slots, objs)
    decreases calls
  {
    hide GoodRecord, OffsetsFor, Holding, Perform, ListSound;
    if calls == [] {
      HoldingStart(fs, t);
      slots, objs := Unwritten(fs), [];
    } else {
      var n := |calls| - 1;
      var slots0, objs0 := AfterSound(fs, t, calls[..n]);
      var cslots := ChildSound(calls[n]);
      slots, objs := CallSound(After(fs, t, calls[..n]), fs, t, slots0, objs0, calls[n], ChildState(calls[n]), cslots);
    }
  }

  /** What a call hands over is a child that went through a history of its own. */
  ghost predicate ChildHeld(call: Call, child: Option<State>, cslots: seq<Option<Part>>) {
    child.Some? ==>
      && (call.SubRecordCall? || call.EntryCall?) && OffsetsFor(call.child.fields).Some?
      && (GoodRecord(call.child.fields) ==>
            Holding(child.value.bytes, call.child.fields, OffsetsFor(call.child.fields).value, cslots,
                    child.value.values))
  }

  lemma {:induction false} ChildSound(call: Call) returns (cslots: seq<Option<Part>>)
    ensures ChildHeld(call, ChildState(call), cslots)
    decreases call
  {
    hide GoodRecord, OffsetsFor, Holding, After;
    cslots := [];
    if call.SubRecordCall? || call.EntryCall? {
      if OffsetsFor(call.child.fields).Some? && GoodRecord(call.child.fields) {
        var objs;
        cslots, objs := AfterSound(call.child.fields, OffsetsFor(call.child.fields).value, call.child.calls);
      }
    }
  }

  lemma CallSound(
    st: State, fs: seq<Field>, t: OffsetTable, slots: seq<Option<Part>>, objs: seq<seq<Obj>>, call: Call,
    child: Option<State>, cslots: seq<Option<Part>>)
    returns (slots': seq<Option<Part>>, objs': seq<seq<Obj>>)
    requires Sound(st, fs, t, slots, objs) && ChildHeld(call, child, cslots)
    ensures Sound(Perform(st, fs, t, call, child), fs, t, slots', objs')
  {
    hide Sound, WriteField, WriteRows, WriteInner, CommitChild, CommitEntry, CloseList, OffsetsFor, GoodRecord, Holding,
      Updated, RowsValues, InnerValues;
    slots', objs' := slots, objs;
    match call
    case WriteCall(name, ty, v) => slots' := WriteSound(st, fs, t, slots, objs, name, ty, v);
    case RowsCall(name, inner, items) => slots' := RowsSound(st, fs, t, slots, objs, name, inner, items);
    case InnerCall(name, inner, items) => slots' := InnerSound(st, fs, t, slots, objs, name, inner, items);
    case SubRecordCall(name, c) =>
      if child.Some? { slots' := SubRecordSound(st, fs, t, slots, objs, name, c.fields, child.value, cslots); }
    case OpenCall(name, schema) =>
      if IsListOf(fs, name, schema) { objs' := OpenSound(st, fs, t, slots, objs, name, schema); }
    case EntryCall(i, c) =>
      if child.Some? && i < |st.lists| && st.lists[i].open {
        objs' := EntrySound(st, fs, t, slots, objs, i, c.fields, child.value, cslots);
      }
    case CloseCall(i) =>
      if i < |st.lists| && st.lists[i].open { slots', objs' := CloseSound(st, fs, t, slots, objs, i); }
  }

  /** A change of the fields keeps the open lists it claims nothing from. */
  lemma ListKept(
    st: State, fs: seq<Field>, t: OffsetTable, slots: seq<Option<Part>>, objs: seq<seq<Obj>>,
    st': State, slots': seq<Option<Part>>, claimed: seq<Obj>, i: nat)
    requires Sound(st, fs, t, slots, objs) && i < |objs| && Beside(claimed, objs[i])
    requires OnlyNew(slots, slots', t.rootSize, |st.bytes|, claimed) && TailKept(st.bytes, st'.bytes, t)
    ensures ListSound(st', fs, t, slots', st.lists[i], objs[i])
  {
    hide Holding, EntriesHeld, OnlyNew, TailKept, Beside;
    HoldingLayout(st.bytes, fs, t, slots, st.values);
    var l := st.lists[i];
    assert ListSound(st, fs, t, slots, l, objs[i]);
    if l.open {
      EntriesKept(st.bytes, st'.bytes, t, slots, slots', claimed, TypeRepr.Schema(l.schema), l.offs, l.entries,
                  objs[i]);
    }
  }

  lemma WriteSound(
    st: State, fs: seq<Field>, t: OffsetTable, slots: seq<Option<Part>>, objs: seq<seq<Obj>>, name: string,
    ty: TypeRepr, v: Value)
    returns (slots': seq<Option<Part>>)
    requires Sound(st, fs, t, slots, objs)
    ensures Sound(Perform(st, fs, t, WriteCall(name, ty, v), None), fs, t, slots', objs)
  {
    hide Holding, WriteField, Updated, ListSound, OnlyNew, TailKept, GoodRecord, OffsetsFor;
    HoldingLayout(st.bytes, fs, t, slots, st.values);
    slots' := NamedStep(st.bytes, fs, t, slots, st.values, name, ty, v);
    FieldKeepsTail(st.bytes, fs, t, name, ty, v);
    var st' := Perform(st, fs, t, WriteCall(name, ty, v), None);
    forall i | 0 <= i < |objs| ensures ListSound(st', fs, t, slots', st'.lists[i], objs[i]) {
      ListKept(st, fs, t, slots, objs, st', slots', [], i);
    }
  }

  lemma RowsSound(
    st: State, fs: seq<Field>, t: OffsetTable, slots: seq<Option<Part>>, objs: seq<seq<Obj>>, name: string,
    inner: TypeRepr,
    items: seq<Value>)
    returns (slots': seq<Option<Part>>)
    requires Sound(st, fs, t, slots, objs)
    ensures Sound(Perform(st, fs, t, RowsCall(name, inner, items), None), fs, t, slots', objs)
  {
    hide Holding, WriteRows, RowsValues, ListSound, OnlyNew, TailKept;
    slots' := RowsHeld(st.bytes, fs, t, slots, st.values, name, inner, items);
    var st' := Perform(st, fs, t, RowsCall(name, inner, items), None);
    forall i | 0 <= i < |objs| ensures ListSound(st', fs, t, slots', st'.lists[i], objs[i]) {
      ListKept(st, fs, t, slots, objs, st', slots', [], i);
    }
  }

  lemma InnerSound(
    st: State, fs: seq<Field>, t: OffsetTable, slots: seq<Option<Part>>, objs: seq<seq<Obj>>, name: string,
    inner: TypeRepr,
    items: seq<Value>)
    returns (slots': seq<Option<Part>>)
    requires Sound(st, fs, t, slots, objs)
    ensures Sound(Perform(st, fs, t, InnerCall(name, inner, items), None), fs, t, slots', objs)
  {
    hide Holding, WriteInner, InnerValues, ListSound, OnlyNew, TailKept;
    slots' := InnerHeld(st.bytes, fs, t, slots, st.values, name, inner, items);
    var st' := Perform(st, fs, t, InnerCall(name, inner, items), None);
    forall i | 0 <= i < |objs| ensures ListSound(st', fs, t, slots', st'.lists[i], objs[i]) {
      ListKept(st, fs, t, slots, objs, st', slots', [], i);
    }
  }

  lemma SubRecordSound(
    st: State, fs: seq<Field>, t: OffsetTable, slots: seq<Option<Part>>, objs: seq<seq<Obj>>, name: string,
    cfs: seq<Field>, child: State, cslots: seq<Option<Part>>)
    returns (slots': seq<Option<Part>>)
    requires Sound(st, fs, t, slots, objs) && OffsetsFor(cfs).Some?
    requires GoodRecord(cfs) ==> Holding(child.bytes, cfs, OffsetsFor(cfs).value, cslots, child.values)
    ensures Sound(CommitChild(st, fs, t, name, cfs, child), fs, t, slots', objs)
  {
    hide Holding, PasteField, WithRecord, ListSound, OnlyNew, TailKept, GoodRecord, OffsetsFor;
    var ct := OffsetsFor(cfs).value;
    slots' := SubRecordCommitted(st.bytes, fs, t, slots, st.values, name, child.bytes, cfs, ct, cslots, child.values);
    var st' := CommitChild(st, fs, t, name, cfs, child);
    forall i | 0 <= i < |objs| ensures ListSound(st', fs, t, slots', st'.lists[i], objs[i]) {
      ListKept(st, fs, t, slots, objs, st', slots', [], i);
    }
  }

  lemma OpenSound(
    st: State, fs: seq<Field>, t: OffsetTable, slots: seq<Option<Part>>, objs: seq<seq<Obj>>, name: string,
    schema: SchemaRepr)
    returns (objs': seq<seq<Obj>>)
    requires Sound(st, fs, t, slots, objs) && IsListOf(fs, name, schema)
    ensures Sound(Perform(st, fs, t, OpenCall(name, schema), None), fs, t, slots, objs')
  {
    hide Holding, Pending;
    NothingPending(st.bytes, t, slots, TypeRepr.Schema(schema));
    objs' := objs + [[]];
    var st' := Perform(st, fs, t, OpenCall(name, schema), None);
    forall i | 0 <= i < |objs'| ensures ListSound(st', fs, t, slots, st'.lists[i], objs'[i]) {
      if i < |objs| { assert ListSound(st, fs, t, slots, st.lists[i], objs[i]); }
    }
  }

  lemma EntrySound(
    st: State, fs: seq<Field>, t: OffsetTable, slots: seq<Option<Part>>, objs: seq<seq<Obj>>, i: nat,
    cfs: seq<Field>, child: State, cslots: seq<Option<Part>>)
    returns (objs': seq<seq<Obj>>)
    requires Sound(st, fs, t, slots, objs) && i < |st.lists| && st.lists[i].open && OffsetsFor(cfs).Some?
    requires GoodRecord(cfs) ==> Holding(child.bytes, cfs, OffsetsFor(cfs).value, cslots, child.values)
    ensures Sound(CommitEntry(st, i, cfs, child), fs, t, slots, objs')
  {
    hide Holding, EntriesHeld, PasteAt, RecordHeld, OnlyNew, Beside, GoodRecord, OffsetsFor, Grown;
    var l := st.lists[i];
    assert ListSound(st, fs, t, slots, l, objs[i]);
    objs' := objs;
    if OffsetsFor(l.schema.fields).Some? && |l.offs| < U32_LIMIT - 1 {
      var te, ct := OffsetsFor(l.schema.fields).value, OffsetsFor(cfs).value;
      HoldingLayout(st.bytes, fs, t, slots, st.values);
      ElementSchemaGood(fs, l.field, l.schema);
      var more := EntryJoined(st.bytes, fs, t, slots, st.values, l.schema, te, child.bytes, cfs, ct, cslots,
                              child.values, l.offs, l.entries, objs[i]);
      objs' := objs[i := more];
      PasteExtends(st.bytes, SchemaPasteAlign(te, l.schema.fields), ct, cfs, child.bytes);
      EntryOthers(st, fs, t, slots, objs, i, CommitEntry(st, i, cfs, child), more);
    }
  }

  lemma ElementSchemaGood(fs: seq<Field>, k: nat, s: SchemaRepr)
    requires GoodRecord(fs) && k < |fs| && fs[k].ty == TypeRepr.List(TypeRepr.Schema(s))
    ensures GoodRecord(s.fields)
  {
    hide GoodRecord;
    GoodField(fs, k);
    ListElementGood(TypeRepr.Schema(s));
    SchemaGood(s);
  }

  /** The list at `i` having grown past the end, every other list is kept. */
  lemma EntryOthers(
    st: State, fs: seq<Field>, t: OffsetTable, slots: seq<Option<Part>>, objs: seq<seq<Obj>>, i: nat, st': State,
    more: seq<Obj>)
    requires Sound(st, fs, t, slots, objs) && i < |objs| && Grown(objs[i], more, |st.bytes|)
    requires st.bytes <= st'.bytes && st'.values == st.values
    requires |st'.lists| == |st.lists| && forall j :: 0 <= j < |st.lists| && j != i ==> st'.lists[j] == st.lists[j]
    requires ListSound(st', fs, t, slots, st'.lists[i], more)
    ensures Sound(st', fs, t, slots, objs[i := more])
  {
    hide Holding, ListSound, Beside, OnlyNew, Grown;
    HoldingLayout(st.bytes, fs, t, slots, st.values);
    HoldingLonger(st.bytes, st'.bytes, fs, t, slots, st.values);
    NothingChanged(slots, t.rootSize, |st.bytes|);
    forall j | 0 <= j < |objs| && j != i
      ensures ListSound(st', fs, t, slots, st'.lists[j], objs[j]) && Beside(more, objs[j]) && Beside(objs[j], more)
    {
      NothingClaimed(objs[j]);
      ListKept(st, fs, t, slots, objs, st', slots, [], j);
      GrownApart(st, fs, t, slots, objs, i, j, more);
    }
  }

  lemma NothingChanged(slots: seq<Option<Part>>, root: nat, end: nat)
    ensures OnlyNew(slots, slots, root, end, [])
  {
  }

  lemma NothingClaimed(objs: seq<Obj>)
    ensures Beside([], objs)
  {
  }

  lemma GrownApart(
    st: State, fs: seq<Field>, t: OffsetTable, slots: seq<Option<Part>>, objs: seq<seq<Obj>>, i: nat, j: nat,
    more: seq<Obj>)
    requires Sound(st, fs, t, slots, objs) && i < |objs| && j < |objs| && j != i && Grown(objs[i], more, |st.bytes|)
    ensures Beside(more, objs[j]) && Beside(objs[j], more)
  {
    hide Holding, EntriesHeld, Grown, Foot;
    var l := st.lists[j];
    assert ListSound(st, fs, t, slots, l, objs[j]) && Beside(objs[i], objs[j]);
    if l.open {
      GrownBeside(st.bytes, t, slots, objs[i], more, TypeRepr.Schema(l.schema), l.offs, l.entries, objs[j]);
    }
  }

  lemma CloseSound(st: State, fs: seq<Field>, t: OffsetTable, slots: seq<Option<Part>>, objs: seq<seq<Obj>>, i: nat)
    returns (slots': seq<Option<Part>>, objs': seq<seq<Obj>>)
    requires Sound(st, fs, t, slots, objs) && i < |st.lists| && st.lists[i].open
    ensures Sound(CloseList(st, t, i), fs, t, slots', objs')
  {
    hide Holding, EntriesHeld, FinishList, OnlyNew, TailKept, Beside;
    var l := st.lists[i];
    HoldingLayout(st.bytes, fs, t, slots, st.values);
    assert ListSound(st, fs, t, slots, l, objs[i]);
    slots' := ListFinished(st.bytes, fs, t, slots, st.values, l.field, TypeRepr.Schema(l.schema), l.offs, l.entries,
                           objs[i]);
    objs' := objs[i := []];
    var st' := CloseList(st, t, i);
    forall j | 0 <= j < |objs| && j != i
      ensures ListSound(st', fs, t, slots', st'.lists[j], objs[j]) && Beside([], objs[j]) && Beside(objs[j], [])
    {
      ListKept(st, fs, t, slots, objs, st', slots', objs[i], j);
      NothingBeside(objs[j]);
    }
  }

  lemma NothingBeside(objs: seq<Obj>)
    ensures Beside([], objs) && Beside(objs, [])
  {
  }

  // ----- what a history comes to -----

  /** The call is directed at field `k`. */
  predicate Touches(st: State, fs: seq<Field>, call: Call, k: nat) {
    match call
    case WriteCall(name, _, _) => FieldIndex(fs, name) == Some(k)
    case RowsCall(name, _, _) => FieldIndex(fs, name) == Some(k)
    case InnerCall(name, _, _) => FieldIndex(fs, name) == Some(k)
    case SubRecordCall(name, _) => FieldIndex(fs, name) == Some(k)
    case CloseCall(i) => i < |st.lists| && st.lists[i].field == k
    case OpenCall(_, _) => false
    case EntryCall(_, _) => false
  }

  /** From call `n` on, no call is directed at field `k`. */
  predicate UntouchedFrom(fs: seq<Field>, t: OffsetTable, calls: seq<Call>, n: nat, k: nat) {
    forall j :: n <= j < |calls| ==> !Touches(After(fs, t, calls[..j]), fs, calls[j], k)
  }

  lemma CallUntouched(st: State, fs: seq<Field>, t: OffsetTable, call: Call, child: Option<State>, k: nat)
    requires |st.values| == |fs| && k < |fs|
    ensures var values := Perform(st, fs, t, call, child).values;
      |values| == |fs| && (!Touches(st, fs, call, k) ==> values[k] == st.values[k])
  {
    hide WriteField, WriteRows, WriteInner, PasteField, PasteAt, FinishList, OffsetsFor, RecordHeld, Writable,
      FieldIndex, TruncatedRows;
  }

  lemma {:induction false} UntouchedKept(fs: seq<Field>, t: OffsetTable, calls: seq<Call>, n: nat, k: nat)
    requires n <= |calls| && UntouchedFrom(fs, t, calls, n, k) && k < |fs|
    ensures |After(fs, t, calls).values| == |After(fs, t, calls[..n]).values| == |fs|
    ensures After(fs, t, calls).values[k] == After(fs, t, calls[..n]).values[k]
    decreases |calls|
  {
    hide Perform, ChildState, Touches;
    if calls == [] {
      assert calls[..n] == calls;
    } else {
      var m := |calls| - 1;
      var init := calls[..m];
      if n == |calls| {
        assert calls[..n] == calls;
        assert init[..m] == init;
        UntouchedKept(fs, t, init, m, k);
      } else {
        assert init[..n] == calls[..n];
        assert forall j :: 0 <= j < |init| ==> init[..j] == calls[..j];
        UntouchedKept(fs, t, init, n, k);
      }
      CallUntouched(After(fs, t, init), fs, t, calls[m], ChildState(calls[m]), k);
    }
  }

  /** Whatever is written, committed or finished elsewhere after call `n`, field `k` reads as it did then. */
  lemma UntouchedReads(fs: seq<Field>, t: OffsetTable, calls: seq<Call>, n: nat, k: nat)
    requires GoodRecord(fs) && OffsetsFor(fs) == Some(t) && k < |fs|
    requires n <= |calls| && UntouchedFrom(fs, t, calls, n, k)
    requires var values := After(fs, t, calls[..n]).values; k < |values| && values[k].Some?
    ensures ReadField(After(fs, t, calls).bytes, fs, t, fs[k].name, fs[k].ty) ==
      ReadField(After(fs, t, calls[..n]).bytes, fs, t, fs[k].name, fs[k].ty)
  {
    hide GoodRecord, OffsetsFor, After, Norm, ReadField, UntouchedFrom;
    UntouchedKept(fs, t, calls, n, k);
    HistoryReads(fs, t, calls[..n], k);
    HistoryReads(fs, t, calls, k);
  }

  /** After any history, every field whose value is determined reads back as that value. */
  lemma HistoryReads(fs: seq<Field>, t: OffsetTable, calls: seq<Call>, k: nat)
    requires GoodRecord(fs) && OffsetsFor(fs) == Some(t) && k < |fs|
    requires var values := After(fs, t, calls).values; k < |values| && values[k].Some?
    ensures var st := After(fs, t, calls);
      && Norm(fs[k].ty, st.values[k].value).Some?
      && ReadField(st.bytes, fs, t, fs[k].name, fs[k].ty) == Ok(Norm(fs[k].ty, st.values[k].value).value)
  {
    hide GoodRecord, OffsetsFor, Holding, After, Norm, ReadField;
    var slots, objs := AfterSound(fs, t, calls);
    NamedReads(After(fs, t, calls).bytes, fs, t, slots, After(fs, t, calls).values, k);
  }

  /** After any history that leaves no field undetermined, the buffer is the record of the values last
      given: it reads as that record and the verifier accepts it; finished for any aligned arena offset it
      fits at, the same holds in every arena that holds it there. */
  lemma HistoryFinishes(s: SchemaRepr, t: OffsetTable, calls: seq<Call>, base: nat)
    requires Good(TypeRepr.Schema(s)) && OffsetsFor(s.fields) == Some(t)
    requires var st := After(s.fields, t, calls); AllGiven(st.values) && |st.values| == |s.fields|
    ensures var st := After(s.fields, t, calls);
      var raw := Given(st.values);
      && Norm(TypeRepr.Schema(s), Assemble(s, raw)).Some?
      && RecordAt(st.bytes, 0, s) == Ok(Norm(TypeRepr.Schema(s), Assemble(s, raw)).value)
      && (FieldsDepth(s.fields) < MAX_DEPTH ==>
            VerifyRecord(st.bytes, s.fields, t, 0, Single(Region(0, |st.bytes|))))
      && (FieldsRebasable(s.fields, raw) ==>
          Aligned(base, FieldsGraphAlign(s.fields)) && base + |st.bytes| < U32_LIMIT ==>
            && Finished(st.bytes, s.fields, t, base).Some?
            && InEveryArena(Finished(st.bytes, s.fields, t, base).value, base, s, t, raw))
  {
    hide GoodRecord, OffsetsFor, Holding, After, Norm, RecordAt, VerifyRecord, Finished, InEveryArena, FieldsRebasable,
      FieldsDepth, Aligned;
    assert GoodRecord(s.fields) by { SchemaGood(s); }
    var slots, objs := AfterSound(s.fields, t, calls);
    var b, raw := After(s.fields, t, calls).bytes, Given(After(s.fields, t, calls).values);
    assert Written(b, s, t, raw);
    BuilderReads(b, s, t, raw);
    if FieldsDepth(s.fields) < MAX_DEPTH { BuilderVerifies(b, s, t, raw); }
    if FieldsRebasable(s.fields, raw) && Aligned(base, FieldsGraphAlign(s.fields)) && base + |b| < U32_LIMIT {
      BuilderFinished(b, s, t, raw, base);
    }
  }
}
