/** What a successful write leaves behind: an encoded object that decodes to the value written. */
module WriterFacts {
  import opened Bytes
  import opened Wrappers
  import opened Schemas
  import opened Layout
  import opened LayoutFacts
  import opened Values
  import opened Reader
  import opened Graph
  import opened GraphFacts
  import opened Moving
  import opened Paste
  import opened Writer

  // ----- which values survive a paste -----

  /** Relocating the encoded value leaves no pointer out: the rows of lists nested three or more deep
      over an inline scalar are empty. */
  predicate RebasableValue(ty: TypeRepr, v: Value)
    decreases Depth(ty), 1
  {
    match ty
    case List(e) =>
      v.VList? ==>
        if ScalarNest(e) then
          e.List? && !e.element.Scalar?() ==> forall i :: 0 <= i < |v.items| ==> v.items[i] == VList([])
        else AllRebasable(e, v.items)
    case Schema(s) =>
      var raw := RecordValues(s, v);
      raw.Some? ==> FieldsRebasable(s.fields, raw.value)
    case Option(_) => ChoiceRebasable(ty, v)
    case Result(_, _) => ChoiceRebasable(ty, v)
    case Enum(_, _) => ChoiceRebasable(ty, v)
    case _ => true
  }

  predicate ChoiceRebasable(ty: TypeRepr, v: Value)
    decreases Depth(ty), 0
  {
    var c := VariantPayloadFor(ty, v);
    c.Some? && c.value.Carry? ==> RebasableValue(c.value.ty, c.value.value)
  }

  predicate AllRebasable(e: TypeRepr, items: seq<Value>)
    decreases Depth(e), 2, |items|
  {
    items != [] ==> RebasableValue(e, items[0]) && AllRebasable(e, items[1..])
  }

  predicate FieldsRebasable(fs: seq<Field>, raw: seq<Value>)
    requires |raw| == |fs|
    decreases FieldsDepth(fs), 2, |fs|
  {
    fs != [] ==> RebasableValue(fs[0].ty, raw[0]) && FieldsRebasable(fs[1..], raw[1..])
  }

  /** The value is written faithfully: strings fit a `u32` length, and every nested record, being
      pasted, is rebasable. */
  predicate Writable(ty: TypeRepr, v: Value)
    decreases Depth(ty), 1
  {
    match ty
    case String => v.VString? ==> |v.s| < U32_LIMIT
    case List(e) => v.VList? ==> AllWritable(e, v.items)
    case Schema(s) =>
      var raw := RecordValues(s, v);
      raw.Some? ==> FieldsRebasable(s.fields, raw.value) && FieldsWritable(s.fields, raw.value)
    case Option(_) => ChoiceWritable(ty, v)
    case Result(_, _) => ChoiceWritable(ty, v)
    case Enum(_, _) => ChoiceWritable(ty, v)
    case _ => true
  }

  predicate ChoiceWritable(ty: TypeRepr, v: Value)
    decreases Depth(ty), 0
  {
    var c := VariantPayloadFor(ty, v);
    c.Some? && c.value.Carry? ==> Writable(c.value.ty, c.value.value)
  }

  predicate AllWritable(e: TypeRepr, items: seq<Value>)
    decreases Depth(e), 2, |items|
  {
    items != [] ==> Writable(e, items[0]) && AllWritable(e, items[1..])
  }

  predicate FieldsWritable(fs: seq<Field>, raw: seq<Value>)
    requires |raw| == |fs|
    decreases FieldsDepth(fs), 2, |fs|
  {
    fs != [] ==> Writable(fs[0].ty, raw[0]) && FieldsWritable(fs[1..], raw[1..])
  }

  // ----- what a write establishes -----

  /** A tail append from `b` produced the object `o` for `v`. */
  ghost predicate TargetDone(b: seq<byte>, r: Appended, ty: TypeRepr, v: Value, o: Obj) {
    && r.Done? && b <= r.bytes
    && o.pos == r.off && o.ty == ty
    && Owns(r.bytes, o) && WithinObj(o, |b|, |r.bytes|)
    && Norm(ty, v).Some? && Decode(o) == Ok(Norm(ty, v).value)
    && (RebasableObj(o) <==> RebasableValue(ty, v))
  }

  /** A slot write from `b` to `b'` produced the part `x` for `v`. */
  ghost predicate SlotDone(b: seq<byte>, b': seq<byte>, slot: nat, ty: TypeRepr, v: Value, x: Part) {
    && HoldsSlot(b', x, slot, ty) && SepPart(x)
    && (x.Ptr? ==> WithinObj(x.target, |b|, |b'|))
    && Norm(ty, v).Some? && DecodePart(x) == Ok(Norm(ty, v).value)
    && (RebasablePart(x, true) <==> RebasableValue(ty, v))
  }

  // ----- from parts to lists of parts -----

  lemma {:induction false} AllParts(b: seq<byte>, ps: seq<Part>, lo: nat, hi: nat)
    requires forall i :: 0 <= i < |ps| ==> EncPart(b, ps[i]) && LinkedPart(ps[i]) && WithinPart(ps[i], lo, hi)
    ensures Enc(b, ps) && Linked(ps) && Within(ps, lo, hi)
    decreases |ps|
  {
    if ps != [] {
      AllParts(b, ps[1..], lo, hi);
    }
  }

  lemma {:induction false} InFoot(ps: seq<Part>, c: int)
    requires c in Foot(ps)
    ensures exists k :: 0 <= k < |ps| && c in FootPart(ps[k])
    decreases |ps|
  {
    if c !in FootPart(ps[0]) {
      InFoot(ps[1..], c);
      var k :| 0 <= k < |ps[1..]| && c in FootPart(ps[1..][k]);
      assert c in FootPart(ps[k + 1]);
    }
  }

  /** Pairwise disjoint parts are separate. */
  lemma {:induction false} PairwiseSep(ps: seq<Part>)
    requires forall i :: 0 <= i < |ps| ==> SepPart(ps[i])
    requires forall i, j :: 0 <= i < j < |ps| ==> FootPart(ps[i]) !! FootPart(ps[j])
    ensures Sep(ps)
    decreases |ps|
  {
    if ps != [] {
      PairwiseSep(ps[1..]);
      forall c | c in Foot(ps[1..])
        ensures c !in FootPart(ps[0])
      {
        InFoot(ps[1..], c);
        var k :| 0 <= k < |ps[1..]| && c in FootPart(ps[1..][k]);
        assert FootPart(ps[0]) !! FootPart(ps[k + 1]);
      }
    }
  }

  /** A part held by `b` at or after `lo`, its slot apart from the record behind it. */
  ghost predicate PartOwned(b: seq<byte>, lo: nat, x: Part) {
    EncPart(b, x) && LinkedPart(x) && WithinPart(x, lo, |b|) && SepPart(x)
  }

  lemma RawOwned(b: seq<byte>, lo: nat, x: Part)
    requires x.Raw? && lo <= x.off && x.off + |x.data| <= |b| && b[x.off..x.off + |x.data|] == x.data
    ensures PartOwned(b, lo, x)
  {
  }

  /** An object whose parts lie in the new bytes, encoded and apart, is owned by the buffer. */
  lemma OwnsIntro(lo: nat, b: seq<byte>, o: Obj)
    requires Shape(o) && Good(o.ty) && lo <= o.pos && o.pos + o.size <= |b|
    requires forall i :: 0 <= i < |o.parts| ==> PartOwned(b, lo, o.parts[i])
    requires forall i, j :: 0 <= i < j < |o.parts| ==> FootPart(o.parts[i]) !! FootPart(o.parts[j])
    ensures Owns(b, o) && WithinObj(o, lo, |b|)
  {
    hide Shape, EncPart, LinkedPart, FootPart, SepPart, WithinPart;
    AllParts(b, o.parts, lo, |b|);
    WithinWider(o.parts, lo, |b|, 0, |b|);
    PairwiseSep(o.parts);
  }

  // ----- strings and scalar lists -----

  lemma StringObj(pos: nat, s: Utf8) returns (o: Obj)
    requires |s| < U32_LIMIT
    ensures o == Obj(pos, TypeRepr.String, 0, [Raw(pos, Le(|s|, 4) + s, None)])
    ensures Shape(o) && Decode(o) == Ok(VString(s)) && RebasableObj(o)
  {
    var data := Le(|s|, 4) + s;
    o := Obj(pos, TypeRepr.String, 0, [Raw(pos, data, None)]);
    LeRoundTrip4(|s|);
    assert data[..4] == Le(|s|, 4) && data[4..] == s;
    RebasableParts(o.parts, true);
  }

  lemma StringPlaced(b: seq<byte>, s: Utf8) returns (o: Obj)
    requires |s| < U32_LIMIT
    ensures TargetDone(b, AppendTailRecord(b, |s|, s), TypeRepr.String, VString(s), o)
  {
    hide Le, LeVal, Shape, Decode, Rebasable;
    var p, data := PadTo(b, 4), Le(|s|, 4) + s;
    var bytes := AppendTailRecord(b, |s|, s).bytes;
    o := StringObj(|p|, s);
    assert bytes == p + data;
    RecordSlices(p, data, bytes, []);
    assert bytes + [] == bytes;
    OwnsIntro(|b|, bytes, o);
  }

  /** The payload of an inline list decodes to the normalised elements. */
  lemma {:induction false} ScalarPayloadDecodes(e: TypeRepr, items: seq<Value>)
    requires e.Scalar?() && ScalarPayload(e, items).Some?
    ensures NormItems(e, items) == Some(ScalarValues(e, ScalarPayload(e, items).value, |items|))
    decreases |items|
  {
    hide Le, LeVal, I64Bits, I64OfBits, F64OfInt;
    if items != [] {
      var head := ScalarBytes(e, items[0]).value;
      var payload := ScalarPayload(e, items).value;
      ScalarRoundTrip(e, items[0]);
      assert payload[..ElemSize(e)] == head;
      assert payload[ElemSize(e)..] == ScalarPayload(e, items[1..]).value;
      ScalarPayloadDecodes(e, items[1..]);
    }
  }

  lemma ScalarListObj(pos: nat, e: TypeRepr, items: seq<Value>) returns (o: Obj)
    requires e.Scalar?() && ScalarPayload(e, items).Some? && |items| < U32_LIMIT
    ensures o == Obj(pos, TypeRepr.List(e), 0, [
                       Raw(pos, Le(|items|, 4), None),
                       Raw(AlignUp(pos + 4, ElemAlign(e)), ScalarPayload(e, items).value, None)])
    ensures Shape(o) && RebasableObj(o)
    ensures Norm(o.ty, VList(items)).Some? && Decode(o) == Ok(Norm(o.ty, VList(items)).value)
  {
    hide Le, LeVal;
    o := Obj(pos, TypeRepr.List(e), 0, [
               Raw(pos, Le(|items|, 4), None),
               Raw(AlignUp(pos + 4, ElemAlign(e)), ScalarPayload(e, items).value, None)]);
    LeRoundTrip4(|items|);
    ScalarPayloadDecodes(e, items);
    RebasableParts(o.parts, false);
  }

  /** After a 4-aligned count, padding bytes to 4 pads nothing. */
  lemma PayloadStart(pos: nat, e: TypeRepr)
    requires e.Scalar?() && Aligned(pos, 4)
    ensures pos + 4 <= AlignUp(pos + 4, PayloadAlign(e)) == AlignUp(pos + 4, ElemAlign(e))
  {
  }

  lemma TwoRawsOwned(b: seq<byte>, b': seq<byte>, o: Obj)
    requires Shape(o) && Good(o.ty) && o.size == 0 && |o.parts| == 2
    requires o.parts[0].Raw? && o.parts[1].Raw? && EncPart(b', o.parts[0]) && EncPart(b', o.parts[1])
    requires |b| <= o.pos == o.parts[0].off && o.pos + |o.parts[0].data| <= o.parts[1].off
    ensures Owns(b', o) && WithinObj(o, |b|, |b'|)
  {
    hide Shape;
    RawOwned(b', |b|, o.parts[0]);
    RawOwned(b', |b|, o.parts[1]);
    hide PartOwned;
    OwnsIntro(|b|, b', o);
  }

  lemma RecordSlices(p: seq<byte>, count: seq<byte>, padded: seq<byte>, payload: seq<byte>)
    requires p + count <= padded
    ensures var bytes := padded + payload;
      bytes[|p|..|p| + |count|] == count && bytes[|padded|..|padded| + |payload|] == payload
  {
    assert padded[|p|..|p| + |count|] == (p + count)[|p|..|p| + |count|] == count;
  }

  lemma ScalarListPlaced(b: seq<byte>, e: TypeRepr, items: seq<Value>) returns (o: Obj)
    requires e.Scalar?() && ScalarPayload(e, items).Some? && |items| < U32_LIMIT
    ensures TargetDone(b, AppendTailRecordAligned(b, PayloadAlign(e), |items|, ScalarPayload(e, items).value),
                       TypeRepr.List(e), VList(items), o)
  {
    hide Le, LeVal, Shape, Decode, Rebasable, Norm, ScalarPayload, Owns, WithinObj;
    var p, count, payload := PadTo(b, 4), Le(|items|, 4), ScalarPayload(e, items).value;
    PayloadStart(|p|, e);
    o := ScalarListObj(|p|, e, items);
    hide AlignUp, Aligned, ElemAlign, PayloadAlign, ElemsSize;
    var bytes := PadTo(p + count, PayloadAlign(e)) + payload;
    RecordSlices(p, count, PadTo(p + count, PayloadAlign(e)), payload);
    TwoRawsOwned(b, bytes, o);
  }
}
