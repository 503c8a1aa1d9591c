/** Pointer arrays: a patched header in front of element records is an encoded list. */
module ListFacts {
  import opened Bytes
  import opened Wrappers
  import opened Schemas
  import opened LayoutFacts
  import opened Values
  import opened Graph
  import opened GraphFacts
  import opened Moving
  import opened Paste
  import opened Writer
  import opened WriterFrame
  import opened WriterFacts

  /** An element record held by `b` at or after `lo`. */
  ghost predicate ItemHeld(b: seq<byte>, lo: nat, e: TypeRepr, o: Obj) {
    o.ty == e && Owns(b, o) && WithinObj(o, lo, |b|) && o.pos < U32_LIMIT
  }

  /** The record stands for the element `v`. */
  ghost predicate ItemDone(e: TypeRepr, v: Value, o: Obj) {
    && Shape(o) && o.ty == e
    && Norm(e, v).Some? && Decode(o) == Ok(Norm(e, v).value)
    && (RebasableObj(o) <==> RebasableValue(e, v))
  }

  ghost predicate Apart(objs: seq<Obj>) {
    forall i, j :: 0 <= i < j < |objs| ==> Foot(objs[i].parts) !! Foot(objs[j].parts)
  }

  function Entry(at: nat, objs: seq<Obj>, i: nat): Part
    requires i < |objs|
  {
    Ptr(at + 4 * i, objs[i].pos, objs[i])
  }

  /** The entry slots of a pointer array starting at `at`. */
  function Entries(at: nat, objs: seq<Obj>): (r: seq<Part>)
    ensures |r| == |objs| && forall i :: 0 <= i < |r| ==> r[i] == Entry(at, objs, i)
  {
    seq(|objs|, i requires 0 <= i < |objs| => Entry(at, objs, i))
  }

  function ListObj(pos: nat, e: TypeRepr, objs: seq<Obj>): Obj {
    Obj(pos, TypeRepr.List(e), 0, [Raw(pos, Le(|objs|, 4), None)] + Entries(pos + 4, objs))
  }

  lemma ListParts(pos: nat, e: TypeRepr, objs: seq<Obj>)
    ensures var o := ListObj(pos, e, objs);
      && o.pos == pos && o.ty == TypeRepr.List(e) && o.size == 0
      && |o.parts| == 1 + |objs| && o.parts[0] == Raw(pos, Le(|objs|, 4), None)
  {
  }

  lemma ListPart(pos: nat, e: TypeRepr, objs: seq<Obj>, i: nat)
    requires 1 <= i <= |objs|
    ensures i < |ListObj(pos, e, objs).parts| && ListObj(pos, e, objs).parts[i] == Entry(pos + 4, objs, i - 1)
  {
  }

  lemma {:induction false} PatchWrites(b: seq<byte>, at: nat, offs: seq<nat>, i: nat)
    requires Fit(offs) && at + 4 * |offs| <= |b| && i < |offs|
    ensures PatchEntries(b, at, offs)[at + 4 * i..at + 4 * i + 4] == Le(offs[i], 4)
    decreases |offs|
  {
    hide Le, LeVal;
    var b1 := PutU32(b, at, offs[0]);
    var r := PatchEntries(b1, at + 4, offs[1..]);
    if i == 0 {
      PatchKeeps(b1, at + 4, offs[1..]);
      assert r[at..at + 4] == b1[at..at + 4] == Le(offs[0], 4);
    } else {
      PatchWrites(b1, at + 4, offs[1..], i - 1);
    }
  }

  lemma {:induction false} EntriesDecode(at: nat, e: TypeRepr, items: seq<Value>, objs: seq<Obj>)
    requires |items| == |objs| && forall i :: 0 <= i < |objs| ==> ItemDone(e, items[i], objs[i])
    ensures NormItems(e, items).Some? && DecodeParts(Entries(at, objs)) == Ok(NormItems(e, items).value)
    decreases |items|
  {
    hide Shape, Decode, Norm, RebasableValue, RebasableObj;
    if items != [] {
      assert ItemDone(e, items[0], objs[0]);
      assert Entries(at, objs)[1..] == Entries(at + 4, objs[1..]);
      EntriesDecode(at + 4, e, items[1..], objs[1..]);
      assert Entries(at, objs)[0] == Ptr(at, objs[0].pos, objs[0]);
    }
  }

  lemma ListShape(pos: nat, e: TypeRepr, items: seq<Value>, objs: seq<Obj>)
    requires e.Pointer?() && |items| == |objs| < U32_LIMIT
    requires forall i :: 0 <= i < |objs| ==> ItemDone(e, items[i], objs[i])
    ensures Shape(ListObj(pos, e, objs))
  {
    hide Le, LeVal, Decode, Norm, RebasableValue, RebasableObj;
    var o := ListObj(pos, e, objs);
    LeRoundTrip4(|objs|);
    forall i | 1 <= i < |o.parts|
      ensures EntryShape(o, e, i)
    {
      assert ItemDone(e, items[i - 1], objs[i - 1]);
      assert o.parts[i] == Entry(pos + 4, objs, i - 1);
    }
  }

  lemma ListDecodes(pos: nat, e: TypeRepr, items: seq<Value>, objs: seq<Obj>)
    requires e.Pointer?() && |items| == |objs| < U32_LIMIT
    requires forall i :: 0 <= i < |objs| ==> ItemDone(e, items[i], objs[i])
    requires Shape(ListObj(pos, e, objs))
    ensures Norm(TypeRepr.List(e), VList(items)).Some?
    ensures Decode(ListObj(pos, e, objs)) == Ok(Norm(TypeRepr.List(e), VList(items)).value)
  {
    hide Le, LeVal, Shape, ItemDone;
    EntriesDecode(pos + 4, e, items, objs);
    assert ListObj(pos, e, objs).parts[1..] == Entries(pos + 4, objs);
  }

  lemma {:induction false} AllRebasableIff(e: TypeRepr, items: seq<Value>)
    ensures AllRebasable(e, items) <==> forall i :: 0 <= i < |items| ==> RebasableValue(e, items[i])
    decreases |items|
  {
    hide RebasableValue;
    if items != [] {
      AllRebasableIff(e, items[1..]);
      assert forall i :: 0 <= i < |items[1..]| ==> items[1..][i] == items[i + 1];
      if forall i :: 0 <= i < |items[1..]| ==> RebasableValue(e, items[1..][i]) {
        assert forall i :: 1 <= i < |items| ==> items[i] == items[1..][i - 1];
      }
    }
  }

  /** A row of a scalar nest holds no pointer exactly when its elements are inline or missing. */
  lemma LeafyRow(e: TypeRepr, v: Value, o: Obj)
    requires ItemDone(e, v, o) && e.List? && ScalarNest(e)
    ensures Leafy(o.parts) <==> e.element.Scalar?() || v == VList([])
  {
    hide RebasableValue, RebasableObj;
    assert Shape(o);
    if !e.element.Scalar?() {
      if |o.parts| > 1 {
        assert EntryShape(o, e.element, 1);
        assert e.element.List? && SlotShape(o.parts[1], o.pos + 4, e.element);
      }
      assert |DecodeParts(o.parts[1..]).value| == |o.parts| - 1;
    }
  }

  predicate EntryRebasable(e: TypeRepr, v: Value) {
    if !ScalarNest(e) then RebasableValue(e, v) else e.List? && !e.element.Scalar?() ==> v == VList([])
  }

  lemma EntryRebasableIff(at: nat, e: TypeRepr, items: seq<Value>, objs: seq<Obj>, i: nat)
    requires i < |items| == |objs| && ItemDone(e, items[i], objs[i]) && e.Pointer?()
    ensures RebasablePart(Entry(at, objs, i), Descends(TypeRepr.List(e))) <==> EntryRebasable(e, items[i])
  {
    hide Decode, Norm, Shape, RebasableValue, Rebasable;
    assert Descends(TypeRepr.List(e)) == !ScalarNest(e);
    if ScalarNest(e) {
      LeafyRow(e, items[i], objs[i]);
    } else {
      assert RebasableObj(objs[i]) <==> RebasableValue(e, items[i]);
    }
  }

  lemma ListRebasable(pos: nat, e: TypeRepr, items: seq<Value>, objs: seq<Obj>)
    requires e.Pointer?() && |items| == |objs|
    requires forall i :: 0 <= i < |objs| ==> ItemDone(e, items[i], objs[i])
    ensures RebasableObj(ListObj(pos, e, objs)) <==> RebasableValue(TypeRepr.List(e), VList(items))
  {
    hide Le, ItemDone, RebasablePart, Rebasable, Entry;
    var o := ListObj(pos, e, objs);
    var d := Descends(o.ty);
    RebasableParts(o.parts, d);
    AllRebasableIff(e, items);
    assert RebasableValue(o.ty, VList(items)) <==> forall i :: 0 <= i < |items| ==> EntryRebasable(e, items[i]);
    assert RebasablePart(o.parts[0], d) by { RawRebasable(o.parts[0], d); }
    hide RebasableValue, EntryRebasable;
    forall i | 0 <= i < |objs|
      ensures RebasablePart(o.parts[i + 1], d) <==> EntryRebasable(e, items[i])
    {
      EntryRebasableIff(pos + 4, e, items, objs, i);
      assert o.parts[i + 1] == Entry(pos + 4, objs, i);
    }
    forall i | 1 <= i < |o.parts|
      ensures RebasablePart(o.parts[i], d) <==> EntryRebasable(e, items[i - 1])
    {
      assert o.parts[i] == o.parts[(i - 1) + 1];
    }
    if Rebasable(o.parts, d) {
      forall i | 0 <= i < |items| ensures EntryRebasable(e, items[i]) { assert RebasablePart(o.parts[i + 1], d); }
    }
  }

  lemma RawRebasable(x: Part, descends: bool)
    requires x.Raw?
    ensures RebasablePart(x, descends)
  {
  }

  /** A change below `lo`, or an append, disturbs no element record. */
  lemma ItemKept(mid: seq<byte>, b': seq<byte>, lo: nat, e: TypeRepr, o: Obj)
    requires ItemHeld(mid, lo, e, o) && |mid| <= |b'|
    requires forall i :: lo <= i < |mid| ==> b'[i] == mid[i]
    ensures ItemHeld(b', lo, e, o)
  {
    hide Shape, Good;
    FootWithin(o.parts, lo, |mid|);
    EncFrame(mid, b', o.parts);
    WithinWider(o.parts, lo, |mid|, lo, |b'|);
    WithinWider(o.parts, 0, |mid|, 0, |b'|);
  }

  lemma WithinLower(o: Obj, lo: nat, lo': nat, hi: nat)
    requires WithinObj(o, lo, hi) && lo' <= lo
    ensures WithinObj(o, lo', hi)
  {
    WithinWider(o.parts, lo, hi, lo', hi);
  }

  lemma HeldLower(b: seq<byte>, lo: nat, lo': nat, e: TypeRepr, o: Obj)
    requires ItemHeld(b, lo, e, o) && lo' <= lo
    ensures ItemHeld(b, lo', e, o)
    ensures forall c :: c in Foot(o.parts) ==> lo <= c
  {
    hide Owns;
    FootWithin(o.parts, lo, |b|);
    WithinLower(o, lo, lo', |b|);
  }

  /** No byte of the record lies in `[lo, hi)`. */
  ghost predicate Avoids(o: Obj, lo: nat, hi: nat) {
    forall c :: c in Foot(o.parts) ==> c < lo || hi <= c
  }

  lemma AvoidsBelow(b: seq<byte>, lo: nat, e: TypeRepr, o: Obj, from: nat)
    requires ItemHeld(b, lo, e, o)
    ensures Avoids(o, from, lo) && Avoids(o, |b|, from)
  {
    hide Shape, Enc, Linked, Good, Sep;
    FootWithin(o.parts, lo, |b|);
  }

  /** Entry `i` of the array whose header is at `pos` leads to its element record, outside the header. */
  ghost predicate EntryHeld(b: seq<byte>, lo: nat, pos: nat, e: TypeRepr, objs: seq<Obj>, i: nat)
    requires i < |objs|
  {
    && ItemHeld(b, lo, e, objs[i]) && Avoids(objs[i], pos, pos + 4 + 4 * |objs|)
    && pos + 8 + 4 * i <= |b| && b[pos + 4 + 4 * i..pos + 8 + 4 * i] == Le(objs[i].pos, 4)
  }

  lemma EntryPlaced(b: seq<byte>, lo: nat, pos: nat, e: TypeRepr, objs: seq<Obj>, i: nat)
    requires i < |objs| && lo <= pos && EntryHeld(b, lo, pos, e, objs, i)
    ensures PartOwned(b, lo, Entry(pos + 4, objs, i))
  {
    hide Le, Shape;
    var x := Entry(pos + 4, objs, i);
    assert EncPart(b, x) && LinkedPart(x) && SepPart(x) && WithinPart(x, lo, |b|);
  }

  lemma EntriesApart(b: seq<byte>, lo: nat, pos: nat, e: TypeRepr, objs: seq<Obj>, i: nat, j: nat)
    requires i < j < |objs| && EntryHeld(b, lo, pos, e, objs, i) && EntryHeld(b, lo, pos, e, objs, j) && Apart(objs)
    ensures FootPart(Entry(pos + 4, objs, i)) !! FootPart(Entry(pos + 4, objs, j))
  {
    hide Foot, ItemHeld;
    assert Foot(objs[i].parts) !! Foot(objs[j].parts);
  }

  lemma CountApart(b: seq<byte>, lo: nat, x: Part, e: TypeRepr, objs: seq<Obj>, i: nat)
    requires x.Raw? && |x.data| == 4 && i < |objs| && EntryHeld(b, lo, x.off, e, objs, i)
    ensures FootPart(x) !! FootPart(Entry(x.off + 4, objs, i))
  {
    hide Foot, ItemHeld;
  }

  /** A header whose slots lead to element records is an owned list, whether the records come before it
      or after it. */
  lemma ListOwned(lo: nat, b: seq<byte>, pos: nat, e: TypeRepr, objs: seq<Obj>)
    requires lo <= pos && pos + 4 + 4 * |objs| <= |b| && |objs| < U32_LIMIT
    requires Shape(ListObj(pos, e, objs)) && Good(TypeRepr.List(e))
    requires b[pos..pos + 4] == Le(|objs|, 4) && Apart(objs)
    requires forall i :: 0 <= i < |objs| ==> EntryHeld(b, lo, pos, e, objs, i)
    ensures var o := ListObj(pos, e, objs); Owns(b, o) && WithinObj(o, lo, |b|)
  {
    hide Shape, Le, EntryHeld, Apart, ListObj, Entry, FootPart, PartOwned;
    var o := ListObj(pos, e, objs);
    ListParts(pos, e, objs);
    assert PartOwned(b, lo, o.parts[0]) by { RawOwned(b, lo, o.parts[0]); }
    forall i | 1 <= i < |o.parts|
      ensures PartOwned(b, lo, o.parts[i])
    {
      ListPart(pos, e, objs, i);
      EntryPlaced(b, lo, pos, e, objs, i - 1);
    }
    forall i, j | 0 <= i < j < |o.parts|
      ensures FootPart(o.parts[i]) !! FootPart(o.parts[j])
    {
      ListPart(pos, e, objs, j);
      if i == 0 {
        CountApart(b, lo, o.parts[0], e, objs, j - 1);
      } else {
        ListPart(pos, e, objs, i);
        EntriesApart(b, lo, pos, e, objs, i - 1, j - 1);
      }
    }
    OwnsIntro(lo, b, o);
  }

  /** Header, element records and back-patched entries together are the encoded list. */
  lemma ListPlaced(b: seq<byte>, e: TypeRepr, items: seq<Value>, mid: seq<byte>, offs: seq<nat>, objs: seq<Obj>)
    requires Good(TypeRepr.List(e)) && e.Pointer?() && |items| == |objs| == |offs| < U32_LIMIT && Fit(offs)
    requires PadTo(b, 4) + Le(|items|, 4) + Zeros(4 * |items|) <= mid
    requires forall i :: 0 <= i < |objs| ==>
      && ItemHeld(mid, |PadTo(b, 4)| + 4 + 4 * |items|, e, objs[i])
      && ItemDone(e, items[i], objs[i]) && objs[i].pos == offs[i]
    requires Apart(objs)
    ensures var pos := |PadTo(b, 4)|;
      TargetDone(b, Done(PatchEntries(mid, pos + 4, offs), pos), TypeRepr.List(e), VList(items), ListObj(pos, e, objs))
  {
    hide Le, Shape, ItemHeld, ItemDone, Apart, Avoids, Decode, Norm, RebasableValue, RebasableObj, Owns, WithinObj,
      PatchEntries;
    var p := PadTo(b, 4);
    var pos, n := |p|, |items|;
    var lo := pos + 4 + 4 * n;
    var header := p + Le(n, 4) + Zeros(4 * n);
    var b' := PatchEntries(mid, pos + 4, offs);
    PatchKeeps(mid, pos + 4, offs);
    KeepsPrefix(p + Le(n, 4), mid, b', pos + 4, lo);
    assert b'[pos..pos + 4] == Le(n, 4);
    assert b <= b';
    forall i | 0 <= i < n
      ensures EntryHeld(b', |b|, pos, e, objs, i)
    {
      ItemKept(mid, b', lo, e, objs[i]);
      AvoidsBelow(b', lo, e, objs[i], pos);
      HeldLower(b', lo, |b|, e, objs[i]);
      PatchWrites(mid, pos + 4, offs, i);
    }
    ListShape(pos, e, items, objs);
    ListDecodes(pos, e, items, objs);
    ListRebasable(pos, e, items, objs);
    ListOwned(|b|, b', pos, e, objs);
  }
}
