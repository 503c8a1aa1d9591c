/** Whole runs of field writes: after any sequence of writes, succeeding or failing, every field
    reads back as the value it was last given. */
module WriterRuns {
  import opened Bytes
  import opened Wrappers
  import opened Schemas
  import opened Layout
  import opened LayoutFacts
  import opened Values
  import opened Reader
  import opened Graph
  import opened GraphFacts
  import opened Moving
  import opened Relocation
  import opened Writer
  import opened WriterFrame
  import opened WriterFacts
  import opened RecordFacts
  import opened WriteSteps
  import opened WriterCorrect

  predicate TypeMatches(declared: TypeRepr, requested: TypeRepr) {
    match (declared, requested)
    case (Unit, Unit) => true
    case (Bool, Bool) => true
    case (Int, Int) => true
    case (Float, Float) => true
    case (String, String) => true
    case (List(d), List(r)) => TypeMatches(d, r)
    case (Option(d), Option(r)) => TypeMatches(d, r)
    case (Result(d, d'), Result(r, r')) => TypeMatches(d, r) && TypeMatches(d', r')
    case (Schema(d), Schema(r)) => d == r
    case (Enum(dn, dv), Enum(rn, rv)) => dn == rn && dv == rv
    case _ => false
  }

  lemma {:induction false} TypeMatchesEqual(declared: TypeRepr, requested: TypeRepr)
    ensures TypeMatches(declared, requested) ==> declared == requested
    ensures Supported(declared) && declared == requested ==> TypeMatches(declared, requested)
    decreases declared
  {
    match (declared, requested)
    case (List(d), List(r)) => TypeMatchesEqual(d, r);
    case (Option(d), Option(r)) => TypeMatchesEqual(d, r);
    case (Result(d, d'), Result(r, r')) => TypeMatchesEqual(d, r); TypeMatchesEqual(d', r');
    case _ =>
  }

  function FieldIndex(fs: seq<Field>, name: string): (r: Option<nat>)
    ensures r.Some? ==> r.value < |fs| && fs[r.value].name == name
  {
    if fs == [] then None
    else if fs[0].name == name then Some(0)
    else
      var k :- FieldIndex(fs[1..], name);
      Some(k + 1)
  }

  lemma {:induction false} FieldIndexAt(fs: seq<Field>, name: string, i: nat)
    requires i < |fs| && fs[i].name == name && forall j :: 0 <= j < i ==> fs[j].name != name
    ensures FieldIndex(fs, name) == Some(i)
    decreases i
  {
    if i > 0 { FieldIndexAt(fs[1..], name, i - 1); }
  }

  lemma {:induction false} FieldIndexNone(fs: seq<Field>, name: string)
    requires forall j :: 0 <= j < |fs| ==> fs[j].name != name
    ensures FieldIndex(fs, name) == None
    decreases |fs|
  {
    if fs != [] { FieldIndexNone(fs[1..], name); }
  }

  /** One named write: an unknown field or a type other than the declared one changes nothing. */
  function WriteField(b: seq<byte>, fs: seq<Field>, t: OffsetTable, name: string, ty: TypeRepr, v: Value): Wrote {
    match FieldIndex(fs, name)
    case None => Wrote(false, b)
    case Some(k) =>
      if k >= |t.fields| || !TypeMatches(fs[k].ty, ty) then Wrote(false, b)
      else WriteSlot(b, t.fields[k].offset, ty, v)
  }

  // ----- what a builder's bytes hold -----

  function Unwritten<T>(fs: seq<Field>): (r: seq<Option<T>>)
    ensures |r| == |fs| && forall i :: 0 <= i < |r| ==> r[i] == None
  {
    seq(|fs|, _ => None)
  }

  /** The bytes hold `values[k]` in every field `k` that has one. */
  ghost predicate Holding(
    b: seq<byte>, fs: seq<Field>, t: OffsetTable, slots: seq<Option<Part>>, values: seq<Option<Value>>)
  {
    && Building(b, fs, t, slots)
    && |values| == |fs|
    && forall k :: 0 <= k < |fs| && values[k].Some? ==>
         slots[k].Some? && FieldDone(fs[k].ty, values[k].value, slots[k].value)
  }

  /** What the fields hold after a write; a value that cannot be represented leaves its field undetermined. */
  function Updated(
    values: seq<Option<Value>>, fs: seq<Field>, name: string, ty: TypeRepr, v: Value, ok: bool): seq<Option<Value>>
  {
    var k := FieldIndex(fs, name);
    if !ok || k.None? || k.value >= |values| then values
    else values[k.value := if Writable(ty, v) then Some(v) else None]
  }

  lemma HoldingLayout(
    b: seq<byte>, fs: seq<Field>, t: OffsetTable, slots: seq<Option<Part>>, values: seq<Option<Value>>)
    requires Holding(b, fs, t, slots, values)
    ensures GoodRecord(fs) && OffsetsFor(fs) == Some(t) && |t.fields| == |fs| == |values| == |slots|
    ensures t.rootSize <= |b|
  {
  }

  lemma HoldingStart(fs: seq<Field>, t: OffsetTable)
    requires GoodRecord(fs) && OffsetsFor(fs) == Some(t)
    ensures Holding(Zeros(t.rootSize), fs, t, Unwritten(fs), Unwritten(fs))
  {
    hide GoodRecord, OffsetsFor, Building;
    BuildingStart(fs, t);
    assert seq(|fs|, _ => None) == Unwritten<Part>(fs);
  }

  /** A change of one slot keeps every other field, whatever it stores in its own. */
  lemma FieldDropped(b: seq<byte>, b': seq<byte>, fs: seq<Field>, t: OffsetTable, st: seq<Option<Part>>, k: nat)
    requires Building(b, fs, t, st) && k < |fs| && |b| <= |b'|
    requires var slot := t.fields[k].offset;
      forall i :: 0 <= i < |b| && !(slot <= i < slot + SlotWidth(fs[k].ty)) ==> b'[i] == b[i]
    ensures Building(b', fs, t, st[k := None])
  {
    hide Filled, GoodRecord, OffsetsFor, FootPart;
    var slot, width := t.fields[k].offset, SlotWidth(fs[k].ty);
    SlotRoom(fs, t, k);
    forall j | 0 <= j < |st| && j != k && st[j].Some?
      ensures Filled(b', fs, t, j, st[j].value)
    {
      SlotsDisjoint(fs, t, j, k);
      FilledKept(b, b', fs, t, j, st[j].value, slot, slot + width);
    }
  }

  /** Parts that are not the old ones live in the fixed area, past the old end, and in the claimed records. */
  ghost predicate OnlyNew(
    slots: seq<Option<Part>>, slots': seq<Option<Part>>, root: nat, end: nat, claimed: seq<Obj>)
  {
    && |slots'| == |slots|
    && forall j :: 0 <= j < |slots| && slots'[j].Some? && slots'[j] != slots[j] ==>
         FreshPart(slots'[j].value, root, end, claimed)
  }

  ghost predicate FreshPart(x: Part, root: nat, end: nat, claimed: seq<Obj>) {
    forall c :: c in FootPart(x) ==>
      c < root || end <= c || exists i :: 0 <= i < |claimed| && c in Foot(claimed[i].parts)
  }

  /** One write moves the invariant from the old values to the new. */
  lemma HoldingStep(
    b: seq<byte>, fs: seq<Field>, t: OffsetTable, slots: seq<Option<Part>>, values: seq<Option<Value>>, k: nat,
    v: Value)
    returns (slots': seq<Option<Part>>)
    requires Holding(b, fs, t, slots, values) && k < |fs|
    ensures var w := WriteSlot(b, t.fields[k].offset, fs[k].ty, v);
      Holding(w.bytes, fs, t, slots',
              if !w.ok then values else values[k := if Writable(fs[k].ty, v) then Some(v) else None])
    ensures OnlyNew(slots, slots', t.rootSize, |b|, [])
  {
    hide Filled, GoodRecord, OffsetsFor, WriteSlot, SlotsApart, FieldDone, SlotDone, Writable;
    var w := WriteSlot(b, t.fields[k].offset, fs[k].ty, v);
    if !w.ok {
      FieldFailed(b, fs, t, slots, k, v);
      slots' := slots;
    } else if !Writable(fs[k].ty, v) {
      SlotExtends(b, t.fields[k].offset, fs[k].ty, v);
      FieldDropped(b, w.bytes, fs, t, slots, k);
      slots' := slots[k := None];
    } else {
      SlotRoom(fs, t, k);
      GoodField(fs, k);
      var x := SlotWritten(b, t.fields[k].offset, fs[k].ty, v);
      SlotExtends(b, t.fields[k].offset, fs[k].ty, v);
      FieldWritten(b, w.bytes, fs, t, slots, k, v, x);
      FilledNew(b, w.bytes, fs, t, k, v, x);
      SlotDoneField(b, w.bytes, t.fields[k].offset, fs[k].ty, v, x);
      slots' := slots[k := Some(x)];
    }
  }

  /** `HoldingStep` for a write by name. */
  lemma NamedStep(
    b: seq<byte>, fs: seq<Field>, t: OffsetTable, slots: seq<Option<Part>>, values: seq<Option<Value>>,
    name: string, ty: TypeRepr, v: Value)
    returns (slots': seq<Option<Part>>)
    requires Holding(b, fs, t, slots, values)
    ensures var w := WriteField(b, fs, t, name, ty, v);
      Holding(w.bytes, fs, t, slots', Updated(values, fs, name, ty, v, w.ok))
    ensures OnlyNew(slots, slots', t.rootSize, |b|, [])
  {
    hide Building, FieldDone, WriteSlot, Writable;
    var k := FieldIndex(fs, name);
    if k.Some? && k.value < |t.fields| && TypeMatches(fs[k.value].ty, ty) {
      TypeMatchesEqual(fs[k.value].ty, ty);
      slots' := HoldingStep(b, fs, t, slots, values, k.value, v);
    } else {
      slots' := slots;
    }
  }

  /** What the builder holds is what a reader of its bytes gets. */
  lemma HoldingReads(
    b: seq<byte>, fs: seq<Field>, t: OffsetTable, slots: seq<Option<Part>>, values: seq<Option<Value>>, k: nat)
    requires Holding(b, fs, t, slots, values) && k < |fs| && values[k].Some?
    ensures Norm(fs[k].ty, values[k].value).Some?
    ensures FieldAt(b, t.fields[k].offset, fs[k].ty) == Ok(Norm(fs[k].ty, values[k].value).value)
  {
    hide GoodRecord, OffsetsFor, Norm, SlotsApart, FieldAt, RebasableValue, RebasablePart, DecodePart;
    assert Filled(b, fs, t, k, slots[k].value);
    GoodField(fs, k);
    SlotReads(b, slots[k].value, t.fields[k].offset, fs[k].ty);
  }

  /** The finished bytes, rebased to the arena offset `base`; offset 0 needs no rebase. */
  function Finished(b: seq<byte>, fs: seq<Field>, t: OffsetTable, base: nat): Option<seq<byte>> {
    if base == 0 then Some(b) else RelocPointers(b, BuildSlots(t.fields, fs), 0, base)
  }

  // ----- runs -----

  datatype Write = Write(name: string, ty: TypeRepr, v: Value)

  /** The bytes after a sequence of writes, none of which stops the ones after it. */
  function Run(b: seq<byte>, fs: seq<Field>, t: OffsetTable, ws: seq<Write>): seq<byte>
    decreases |ws|
  {
    if ws == [] then b
    else
      var last := ws[|ws| - 1];
      WriteField(Run(b, fs, t, ws[..|ws| - 1]), fs, t, last.name, last.ty, last.v).bytes
  }

  /** Whether write `i` of the run succeeds. */
  predicate Succeeds(b: seq<byte>, fs: seq<Field>, t: OffsetTable, ws: seq<Write>, i: nat)
    requires i < |ws|
  {
    WriteField(Run(b, fs, t, ws[..i]), fs, t, ws[i].name, ws[i].ty, ws[i].v).ok
  }

  /** Reading one field by name. */
  function ReadField(b: seq<byte>, fs: seq<Field>, t: OffsetTable, name: string, ty: TypeRepr): Read<Value> {
    if |b| < t.rootSize then Err(Malformed)
    else
      match FieldIndex(fs, name)
      case None => Err(Unsupported)
      case Some(k) =>
        if k >= |t.fields| || !TypeMatches(fs[k].ty, ty) then Err(Unsupported)
        else FieldAt(b, t.fields[k].offset, ty)
  }

  lemma NamedReads(
    b: seq<byte>, fs: seq<Field>, t: OffsetTable, slots: seq<Option<Part>>, values: seq<Option<Value>>, k: nat)
    requires Holding(b, fs, t, slots, values) && k < |fs| && values[k].Some?
    ensures Norm(fs[k].ty, values[k].value).Some?
    ensures ReadField(b, fs, t, fs[k].name, fs[k].ty) == Ok(Norm(fs[k].ty, values[k].value).value)
  {
    hide GoodRecord, OffsetsFor, Holding, Norm, FieldAt;
    HoldingLayout(b, fs, t, slots, values);
    HoldingReads(b, fs, t, slots, values, k);
    GoodField(fs, k);
    TypeMatchesEqual(fs[k].ty, fs[k].ty);
    assert DistinctNames(fs) by { NamesOf(fs); }
    FieldIndexAt(fs, fs[k].name, k);
  }

  /** Write `i` is the last one of the run that succeeded on its field. */
  predicate LastOn(b: seq<byte>, fs: seq<Field>, t: OffsetTable, ws: seq<Write>, i: nat)
    requires i < |ws|
  {
    && Succeeds(b, fs, t, ws, i)
    && forall j :: i < j < |ws| && ws[j].name == ws[i].name ==> !Succeeds(b, fs, t, ws, j)
  }

  /** The field of write `w` holds its value. */
  predicate Recorded(fs: seq<Field>, w: Write, values: seq<Option<Value>>) {
    var k := FieldIndex(fs, w.name);
    k.Some? && k.value < |values| && values[k.value] == Some(w.v) && w.ty == fs[k.value].ty
  }

  /** Every field holds what its last successful write stored, where that is representable. */
  predicate Logged(fs: seq<Field>, t: OffsetTable, ws: seq<Write>, values: seq<Option<Value>>) {
    forall i :: 0 <= i < |ws| && LastOn(Zeros(t.rootSize), fs, t, ws, i) && Writable(ws[i].ty, ws[i].v) ==>
      Recorded(fs, ws[i], values)
  }

  lemma {:induction false} RunHolds(fs: seq<Field>, t: OffsetTable, ws: seq<Write>)
    returns (slots: seq<Option<Part>>, values: seq<Option<Value>>)
    requires GoodRecord(fs) && OffsetsFor(fs) == Some(t)
    ensures Holding(Run(Zeros(t.rootSize), fs, t, ws), fs, t, slots, values)
    ensures Logged(fs, t, ws, values)
    decreases |ws|
  {
    hide GoodRecord, OffsetsFor, Building, FieldDone, WriteSlot, Writable;
    var z := Zeros(t.rootSize);
    if ws == [] {
      HoldingStart(fs, t);
      slots, values := Unwritten(fs), Unwritten(fs);
    } else {
      var n := |ws| - 1;
      var init, last := ws[..n], ws[n];
      var slots0, values0 := RunHolds(fs, t, init);
      slots := NamedStep(Run(z, fs, t, init), fs, t, slots0, values0, last.name, last.ty, last.v);
      values := Updated(values0, fs, last.name, last.ty, last.v, Succeeds(z, fs, t, ws, n));
      forall i | 0 <= i < |ws| && LastOn(z, fs, t, ws, i) && Writable(ws[i].ty, ws[i].v)
        ensures Recorded(fs, ws[i], values)
      {
        RunStep(fs, t, ws, values0, values, i);
      }
    }
  }

  lemma RunStep(
    fs: seq<Field>, t: OffsetTable, ws: seq<Write>, values0: seq<Option<Value>>, values: seq<Option<Value>>, i: nat)
    requires ws != [] && i < |ws| && LastOn(Zeros(t.rootSize), fs, t, ws, i) && Writable(ws[i].ty, ws[i].v)
    requires |values0| == |fs| && Logged(fs, t, ws[..|ws| - 1], values0)
    requires var n := |ws| - 1;
      values == Updated(values0, fs, ws[n].name, ws[n].ty, ws[n].v, Succeeds(Zeros(t.rootSize), fs, t, ws, n))
    ensures Recorded(fs, ws[i], values)
  {
    hide Run, WriteSlot, Writable;
    var z, n := Zeros(t.rootSize), |ws| - 1;
    if i == n {
      TypeMatchesEqual(fs[FieldIndex(fs, ws[i].name).value].ty, ws[i].ty);
    } else {
      forall j | i < j < n && ws[..n][j].name == ws[..n][i].name
        ensures !Succeeds(z, fs, t, ws[..n], j)
      {
        assert ws[..n][..j] == ws[..j];
        assert !Succeeds(z, fs, t, ws, j);
      }
      assert ws[..n][..i] == ws[..i];
      assert LastOn(z, fs, t, ws[..n], i);
      assert Recorded(fs, ws[..n][i], values0);
      assert ws[n].name == ws[i].name ==> !Succeeds(z, fs, t, ws, n);
    }
  }

  /** After any run, a field whose last successful write stored a writable value reads back as that
      value: no later write, to another field or failing on this one, disturbs it. */
  lemma LastWriteWins(fs: seq<Field>, t: OffsetTable, ws: seq<Write>, i: nat)
    requires GoodRecord(fs) && OffsetsFor(fs) == Some(t) && i < |ws|
    requires LastOn(Zeros(t.rootSize), fs, t, ws, i) && Writable(ws[i].ty, ws[i].v)
    ensures Norm(ws[i].ty, ws[i].v).Some?
    ensures ReadField(Run(Zeros(t.rootSize), fs, t, ws), fs, t, ws[i].name, ws[i].ty) ==
      Ok(Norm(ws[i].ty, ws[i].v).value)
  {
    hide GoodRecord, OffsetsFor, Writable, LastOn, Run, Holding, Norm, ReadField;
    var slots, values := RunHolds(fs, t, ws);
    assert Recorded(fs, ws[i], values);
    NamedReads(Run(Zeros(t.rootSize), fs, t, ws), fs, t, slots, values, FieldIndex(fs, ws[i].name).value);
  }
}
