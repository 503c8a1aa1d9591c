/** Variant records byte by byte: which tag stands for which brand, when one is written and when one is
    read, and what the reader makes of a tag and its payload. */
module Variants {
  import opened Bytes
  import opened Wrappers
  import opened Schemas
  import opened Layout
  import opened LayoutFacts
  import opened Values
  import opened Reader
  import opened Writer
  import opened WriterFrame
  import opened WriteSteps
  import opened Normal

  /** The tag byte of the variant `brand` of `ty`. */
  ghost predicate TagNames(ty: TypeRepr, tag: byte, brand: string) {
    match ty
    case Option(_) => (tag == 0 && brand == "None") || (tag == 1 && brand == "Some")
    case Result(_, _) => (tag == 0 && brand == "Ok") || (tag == 1 && brand == "Err")
    case Enum(_, vs) => exists k :: 0 <= k < |vs| && vs[k].tag == tag && vs[k].name == brand
    case _ => false
  }

  /** The name variants of `ty` carry beside their brand. */
  function TypeName(ty: TypeRepr): string {
    if ty.Option? then "Option" else if ty.Result? then "Result" else if ty.Enum? then ty.name else ""
  }

  // ----- writing -----

  lemma ChoiceTag(ty: TypeRepr, v: Value)
    requires VariantPayloadFor(ty, v).Some?
    ensures v.VDict? && v.variantOf == Some(TypeName(ty)) && v.brand.Some?
    ensures TagNames(ty, VariantPayloadFor(ty, v).value.tag, v.brand.value)
  {
    if ty.Enum? { VariantNamed(ty.variants, v.brand.value); }
  }

  /** The first byte of an appended variant record is the tag the value's brand names. */
  lemma TagWritten(b: seq<byte>, ty: TypeRepr, v: Value, inList: bool)
    requires Good(ty) && ty.Variant?() && AppendTarget(b, ty, v, inList).Done?
    ensures var r := AppendTarget(b, ty, v, inList);
      && r.off < |r.bytes| && v.VDict? && v.brand.Some? && v.variantOf == Some(TypeName(ty))
      && TagNames(ty, r.bytes[r.off], v.brand.value)
  {
    hide WritePayload, Good, VariantPayloadFor, VariantAlignRuntime, TagNames;
    assert AppendTarget(b, ty, v, inList) == AppendVariant(b, ty, v);
    var c := VariantPayloadFor(ty, v).value;
    ChoiceTag(ty, v);
    var p := PadTo(b, VariantAlignRuntime(ty));
    if c.Carry? { PayloadKeepsTag(p + [c.tag], |p|, c.ty, c.value); }
  }

  lemma PayloadKeepsTag(b: seq<byte>, at: nat, pty: TypeRepr, v: Value)
    requires at + 1 == |b|
    ensures var w := WritePayload(b, at, pty, v); at < |w.bytes| && w.bytes[at] == b[at]
  {
    hide WriteSlot;
    PayloadSlotFits(at, pty);
    hide PayloadSlotOffset, PayloadSlotRuntime;
    var slot := PayloadSlotOffset(at, pty);
    var grown := GrowTo(b, slot + PayloadSlotRuntime(pty).0);
    SlotExtends(grown, slot, pty, v);
  }

  // ----- reading -----

  /** What a variant record at `p` reads as, by its tag. */
  ghost predicate VariantReads(b: seq<byte>, p: nat, ty: TypeRepr, w: Value) {
    p < |b| && w.VDict? && w.variantOf == Some(TypeName(ty)) &&
    match ty
    case Option(inner) =>
      || (b[p] == 0 && w.brand == Some("None") && w.m == map[])
      || (b[p] == 1 && w.brand == Some("Some") && PayloadReads(b, p, inner, "value", w.m))
    case Result(ok, err) =>
      || (b[p] == 0 && w.brand == Some("Ok") && PayloadReads(b, p, ok, "value", w.m))
      || (b[p] == 1 && w.brand == Some("Err") && PayloadReads(b, p, err, "error", w.m))
    case Enum(name, vs) =>
      exists k :: 0 <= k < |vs| && Tagged(vs, k, b[p]) && w.brand == Some(vs[k].name) &&
        if vs[k].fields == [] then w.m == map[]
        else
          var s := SchemaRepr(name + "." + vs[k].name, vs[k].fields, false);
          FieldAt(b, PayloadSlotOffset(p, TypeRepr.Schema(s)), TypeRepr.Schema(s)) == Ok(VDict(w.m, Some(s.name), None))
    case _ => false
  }

  /** Variant `k` is the first with that tag. */
  predicate Tagged(vs: seq<EnumVariant>, k: nat, tag: byte)
    requires k < |vs|
  {
    vs[k].tag == tag && forall j :: 0 <= j < k ==> vs[j].tag != tag
  }

  ghost predicate PayloadReads(b: seq<byte>, p: nat, pty: TypeRepr, key: string, m: map<string, Value>) {
    m.Keys == {key} && FieldAt(b, PayloadSlotOffset(p, pty), pty) == Ok(m[key])
  }

  lemma {:induction false} VariantTagged(vs: seq<EnumVariant>, tag: byte)
    ensures match FindVariantByTag(vs, tag)
      case None => forall k :: 0 <= k < |vs| ==> vs[k].tag != tag
      case Some(ev) => exists k :: 0 <= k < |vs| && vs[k] == ev && Tagged(vs, k, tag)
    decreases |vs|
  {
    if vs != [] && vs[0].tag != tag {
      VariantTagged(vs[1..], tag);
      if FindVariantByTag(vs[1..], tag).Some? {
        var k :| 0 <= k < |vs[1..]| && vs[1..][k] == FindVariantByTag(vs[1..], tag).value && Tagged(vs[1..], k, tag);
        assert vs[k + 1] == vs[1..][k];
        forall j | 0 <= j < k + 1 ensures vs[j].tag != tag {
          if j > 0 { assert vs[j] == vs[1..][j - 1]; }
        }
        assert Tagged(vs, k + 1, tag);
      } else {
        assert forall k :: 0 < k < |vs| ==> vs[k] == vs[1..][k - 1];
      }
    } else if vs != [] {
      assert Tagged(vs, 0, tag);
    }
  }

  lemma SingleKey(key: string, x: Value, m: map<string, Value>)
    ensures m == map[key := x] <==> m.Keys == {key} && m[key] == x
  {
    if m.Keys == {key} && m[key] == x { assert m == map[key := x]; }
  }

  /** On every buffer, the reader of a variant record succeeds exactly as its tag and payload say. */
  lemma VariantReadIff(b: seq<byte>, p: nat, ty: TypeRepr, w: Value)
    requires ty.Variant?()
    ensures VariantAt(b, p, ty) == Ok(w) <==> VariantReads(b, p, ty, w)
  {
    if p < |b| {
      if ty.Enum? { EnumReadIff(b, p, ty, w); } else { ChoiceReadIff(b, p, ty, w); }
    }
  }

  lemma ChoiceReadIff(b: seq<byte>, p: nat, ty: TypeRepr, w: Value)
    requires (ty.Option? || ty.Result?) && p < |b|
    ensures VariantAt(b, p, ty) == Ok(w) <==> VariantReads(b, p, ty, w)
  {
    hide FieldAt, PayloadSlotOffset;
    var sel := SelectPayload(ty, b[p]);
    if sel.Payload? {
      var v := FieldAt(b, PayloadSlotOffset(p, sel.ty), sel.ty);
      if v.Ok? && w.VDict? {
        SingleKey("value", v.value, w.m);
        SingleKey("error", v.value, w.m);
      }
    }
  }

  lemma EnumReadIff(b: seq<byte>, p: nat, ty: TypeRepr, w: Value)
    requires ty.Enum? && p < |b|
    ensures VariantAt(b, p, ty) == Ok(w) <==> VariantReads(b, p, ty, w)
  {
    hide FieldAt, PayloadSlotOffset;
    var vs := ty.variants;
    VariantTagged(vs, b[p]);
    if FindVariantByTag(vs, b[p]).Some? {
      var k :| 0 <= k < |vs| && vs[k] == FindVariantByTag(vs, b[p]).value && Tagged(vs, k, b[p]);
      forall j | 0 <= j < |vs| && Tagged(vs, j, b[p]) ensures j == k {}
      if vs[k].fields != [] {
        var s := SchemaRepr(ty.name + "." + vs[k].name, vs[k].fields, false);
        RecordSlotValue(b, PayloadSlotOffset(p, TypeRepr.Schema(s)), s);
      }
    }
  }

  /** A record slot reads as a dictionary branded with its schema. */
  lemma RecordSlotValue(b: seq<byte>, slot: nat, s: SchemaRepr)
    requires !s.isTuple
    ensures var r := FieldAt(b, slot, TypeRepr.Schema(s));
      r.Ok? ==> r.value.VDict? && r.value.brand == Some(s.name) && r.value.variantOf == None
  {
    hide LeVal, OffsetsFor, SlotsAt, Zip;
    if FieldAt(b, slot, TypeRepr.Schema(s)).Ok? {
      var p := U32At(b, slot);
      assert FieldAt(b, slot, TypeRepr.Schema(s)) == TargetAt(b, p, TypeRepr.Schema(s));
      assert TargetAt(b, p, TypeRepr.Schema(s)) == RecordAt(b, p, s);
    }
  }
}
