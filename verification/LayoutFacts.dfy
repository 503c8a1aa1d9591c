/** What every layout the offset pass accepts satisfies, and the run-time alignment rules. */
module LayoutFacts {
  import opened Bytes
  import opened Wrappers
  import opened Schemas
  import opened Layout

  predicate Layoutable(ty: TypeRepr) {
    FieldDecision(ty).Some?
  }

  function InlineSize(ty: TypeRepr): nat
    requires ty.Inline?()
  {
    if ty.Int? || ty.Float? then 8 else 1
  }

  /** The alignment a slot's kind asks of the record it points to. */
  function TailAlign(fo: FieldOffset): Alignment {
    if fo.kind.PointerIndirect? then fo.kind.tailAlignment else 1
  }

  /** End of the slot before field `i`; fields are packed from `cursor`. */
  function PrevEnd(fos: seq<FieldOffset>, cursor: nat, i: nat): nat
    requires i <= |fos|
  {
    if i == 0 then cursor else fos[i - 1].offset + fos[i - 1].size
  }

  /** Slot `i` describes field `i`, is aligned, and follows its predecessor with less padding than its alignment. */
  predicate SlotPlaced(fs: seq<Field>, fos: seq<FieldOffset>, cursor: nat, i: nat)
    requires i < |fs| == |fos|
  {
    && fos[i].name == fs[i].name
    && FieldDecision(fs[i].ty) == Some(Decision(fos[i].kind, fos[i].listElement))
    && fos[i].size == SlotSize(fos[i].kind)
    && fos[i].align == SlotAlign(fos[i].kind)
    && Aligned(fos[i].offset, fos[i].align)
    && PrevEnd(fos, cursor, i) <= fos[i].offset < PrevEnd(fos, cursor, i) + fos[i].align
  }

  lemma {:induction false} PlaceFacts(fs: seq<Field>, cursor: nat)
    requires Place(fs, cursor).Some?
    ensures forall i :: 0 <= i < |fs| ==> SlotPlaced(fs, Place(fs, cursor).value, cursor, i)
    decreases |fs|
  {
    if fs != [] {
      var fos := Place(fs, cursor).value;
      var next := fos[0].offset + fos[0].size;
      PlaceFacts(fs[1..], next);
      var rest := Place(fs[1..], next).value;
      assert fos[1..] == rest;
      forall i | 0 <= i < |fs|
        ensures SlotPlaced(fs, fos, cursor, i)
      {
        if i > 0 {
          assert SlotPlaced(fs[1..], rest, next, i - 1);
        }
      }
    }
  }

  /** Slots never overlap: an earlier slot ends before a later one starts. */
  lemma {:induction false} SlotsOrdered(fs: seq<Field>, fos: seq<FieldOffset>, i: nat, j: nat)
    requires |fs| == |fos| && forall k :: 0 <= k < |fs| ==> SlotPlaced(fs, fos, 0, k)
    requires i < j < |fs|
    ensures fos[i].offset + fos[i].size <= fos[j].offset
    decreases j - i
  {
    assert SlotPlaced(fs, fos, 0, j);
    if i + 1 < j {
      SlotsOrdered(fs, fos, i, j - 1);
      assert SlotPlaced(fs, fos, 0, j - 1);
    }
  }

  /** The whole contract of an offset table accepted for `fs`. */
  ghost predicate TableFor(fs: seq<Field>, t: OffsetTable) {
    && |t.fields| == |fs|
    && (forall i :: 0 <= i < |fs| ==> t.fields[i].name == fs[i].name)
    && (forall i :: 0 <= i < |fs| ==> SlotPlaced(fs, t.fields, 0, i))
    && (forall i, j :: 0 <= i < j < |fs| ==> t.fields[i].offset + t.fields[i].size <= t.fields[j].offset)
    && (forall i :: 0 <= i < |fs| ==> t.fields[i].offset + t.fields[i].size <= t.rootSize)
    && (forall i :: 0 <= i < |fs| ==> t.fields[i].align <= t.rootAlign)
    && Aligned(t.rootSize, t.rootAlign)
    && EndOf(t.fields) <= t.rootSize < EndOf(t.fields) + t.rootAlign
    && (t.rootAlign == 1 || exists i :: 0 <= i < |fs| && t.fields[i].align == t.rootAlign)
  }

  lemma {:induction false} AlignOfFacts(fos: seq<FieldOffset>)
    ensures forall i :: 0 <= i < |fos| ==> fos[i].align <= AlignOf(fos)
    ensures AlignOf(fos) == 1 || exists i :: 0 <= i < |fos| && fos[i].align == AlignOf(fos)
    decreases |fos|
  {
    if fos != [] {
      var front := fos[..|fos| - 1];
      AlignOfFacts(front);
      assert forall i :: 0 <= i < |front| ==> fos[i] == front[i];
    }
  }

  lemma LayoutCorrect(fs: seq<Field>)
    requires OffsetsFor(fs).Some?
    ensures TableFor(fs, OffsetsFor(fs).value)
  {
    var t := OffsetsFor(fs).value;
    PlaceFacts(fs, 0);
    AlignOfFacts(t.fields);
    forall i | 0 <= i < |fs|
      ensures t.fields[i].name == fs[i].name
    {
      assert SlotPlaced(fs, t.fields, 0, i);
    }
    forall i, j | 0 <= i < j < |fs|
      ensures t.fields[i].offset + t.fields[i].size <= t.fields[j].offset
    {
      SlotsOrdered(fs, t.fields, i, j);
    }
    forall i | 0 <= i < |fs|
      ensures t.fields[i].offset + t.fields[i].size <= t.rootSize
    {
      if i < |fs| - 1 {
        SlotsOrdered(fs, t.fields, i, |fs| - 1);
      }
    }
  }

  /** The slot the offset pass gives field `f` when the cursor stands at `cursor`. */
  function SlotFor(f: Field, d: Decision, cursor: nat): FieldOffset {
    var align := SlotAlign(d.kind);
    FieldOffset(f.name, AlignUp(cursor, align), SlotSize(d.kind), align, d.kind, d.listElement)
  }

  /** The offset pass as the source runs it: one loop over the fields. */
  method ComputeOffsets(fs: seq<Field>) returns (r: Option<OffsetTable>)
    ensures r == OffsetsFor(fs)
  {
    hide Place, AlignOf, EndOf;
    var fos: seq<FieldOffset> := [];
    var cursor: nat := 0;
    var maxAlign: Alignment := 1;
    var k := 0;
    PlaceStart(fs);
    while k < |fs|
      invariant 0 <= k <= |fs| && |fos| == k
      invariant maxAlign == AlignOf(fos) && cursor == EndOf(fos)
      invariant Place(fs, 0) == Prepend(fos, Place(fs[k..], cursor))
    {
      var d := FieldDecision(fs[k].ty);
      if d.None? {
        PlaceFails(fs, k, cursor);
        return None;
      }
      var fo := SlotFor(fs[k], d.value, cursor);
      PlaceStep(fs, fos, k, cursor);
      TableSnoc(fos, fo);
      fos := fos + [fo];
      cursor := fo.offset + fo.size;
      if fo.align > maxAlign {
        maxAlign := fo.align;
      }
      k := k + 1;
    }
    PlaceDone(fs, fos, cursor);
    r := Some(OffsetTable(fos, AlignUp(cursor, maxAlign), maxAlign));
  }

  lemma TableSnoc(fos: seq<FieldOffset>, fo: FieldOffset)
    ensures EndOf(fos + [fo]) == fo.offset + fo.size
    ensures AlignOf(fos + [fo]) == MaxAlign(AlignOf(fos), fo.align)
  {
    assert (fos + [fo])[..|fos|] == fos;
  }

  lemma PlaceStart(fs: seq<Field>)
    ensures Place(fs, 0) == Prepend([], Place(fs[0..], 0)) && AlignOf([]) == 1 && EndOf([]) == 0
  {
    assert fs[0..] == fs;
    PrependNil(Place(fs, 0));
  }

  lemma PlaceFails(fs: seq<Field>, k: nat, cursor: nat)
    requires k < |fs| && FieldDecision(fs[k].ty).None?
    ensures Place(fs[k..], cursor).None?
  {
  }

  lemma PlaceDone(fs: seq<Field>, fos: seq<FieldOffset>, cursor: nat)
    ensures Prepend(fos, Place(fs[|fs|..], cursor)) == Some(fos)
  {
    assert fs[|fs|..] == [] && fos + [] == fos;
  }

  lemma PlaceStep(fs: seq<Field>, fos: seq<FieldOffset>, k: nat, cursor: nat)
    requires k < |fs| && FieldDecision(fs[k].ty).Some?
    requires Place(fs, 0) == Prepend(fos, Place(fs[k..], cursor))
    ensures
      var fo := SlotFor(fs[k], FieldDecision(fs[k].ty).value, cursor);
      Place(fs, 0) == Prepend(fos + [fo], Place(fs[k + 1..], fo.offset + fo.size))
  {
    var fo := SlotFor(fs[k], FieldDecision(fs[k].ty).value, cursor);
    var rest := Place(fs[k + 1..], fo.offset + fo.size);
    assert Place(fs[k..], cursor) == Prepend([fo], rest) by {
      assert fs[k..][1..] == fs[k + 1..];
    }
    PrependSnoc(fos, fo, rest);
  }

  function FindOffset(fos: seq<FieldOffset>, name: string): (r: Option<FieldOffset>)
    ensures r.Some? ==> r.value in fos && r.value.name == name
  {
    if fos == [] then None
    else if fos[0].name == name then Some(fos[0])
    else FindOffset(fos[1..], name)
  }

  /** With distinct names, the slot found by a field's name is that field's slot. */
  lemma {:induction false} FindOffsetAt(fs: seq<Field>, fos: seq<FieldOffset>, i: nat)
    requires DistinctNames(fs) && |fos| == |fs| && i < |fs|
    requires forall k :: 0 <= k < |fs| ==> fos[k].name == fs[k].name
    ensures FindOffset(fos, fs[i].name) == Some(fos[i])
    decreases i
  {
    if i > 0 {
      assert fs[0].name != fs[i].name;
      FindOffsetAt(fs[1..], fos[1..], i - 1);
    }
  }

  // ----- which types are layoutable -----

  /** No closure anywhere, and no `List<Unit>`: exactly the types the layout accepts. */
  predicate Supported(ty: TypeRepr)
    decreases ty
  {
    match ty
    case Closure => false
    case List(e) => !e.Unit? && Supported(e)
    case Option(i) => Supported(i)
    case Result(o, e) => Supported(o) && Supported(e)
    case Enum(_, vs) => VariantsSupported(vs)
    case Schema(s) => FieldsSupported(s.fields)
    case _ => true
  }

  predicate FieldsSupported(fs: seq<Field>)
    decreases fs
  {
    fs != [] ==> Supported(fs[0].ty) && FieldsSupported(fs[1..])
  }

  predicate VariantsSupported(vs: seq<EnumVariant>)
    decreases vs
  {
    vs != [] ==> FieldsSupported(vs[0].fields) && VariantsSupported(vs[1..])
  }

  lemma {:induction false} LayoutableIffSupported(ty: TypeRepr)
    ensures Layoutable(ty) <==> Supported(ty)
    ensures Supported(ty) ==> TypeGraphAlignment(ty).Some?
    ensures ty.List? ==> (InnerListAlignment(ty).Some? <==> Supported(ty))
    decreases ty
  {
    match ty
    case List(e) =>
      LayoutableIffSupported(e);
      ListDecisionIff(e);
    case Schema(s) =>
      FieldsIffSupported(s.fields, 0);
      assert OffsetsFor(s.fields).Some? <==> Place(s.fields, 0).Some?;
      assert FieldDecision(ty).Some? <==> OffsetsFor(s.fields).Some?;
    case Option(_) => VariantIffSupported(ty);
    case Result(_, _) => VariantIffSupported(ty);
    case Enum(_, _) => VariantIffSupported(ty);
    case _ =>
  }

  lemma {:induction false} VariantIffSupported(ty: TypeRepr)
    requires ty.Variant?()
    ensures Layoutable(ty) <==> VariantAlignment(ty).Some?
    ensures TypeGraphAlignment(ty) == VariantAlignment(ty)
    ensures VariantAlignment(ty).Some? <==> Supported(ty)
    decreases ty, 0
  {
    var ps, d := VariantPayloadTypes(ty), Depth(ty);
    match ty
    case Option(i) =>
      LayoutableIffSupported(i);
      PayloadSlotIff(i);
      assert PayloadsAlignment(ps[1..], d).Some?;
    case Result(o, e) =>
      LayoutableIffSupported(o);
      LayoutableIffSupported(e);
      PayloadSlotIff(o);
      PayloadSlotIff(e);
      assert ps[1..] == [e] && ps[1..][1..] == [];
      assert PayloadsAlignment(ps[1..][1..], d).Some?;
      assert PayloadsAlignment(ps[1..], d).Some? <==> Supported(e);
    case Enum(name, vs) =>
      PayloadsIffSupported(name, vs, d);
  }

  lemma ListDecisionIff(e: TypeRepr)
    requires Layoutable(e) <==> Supported(e)
    requires e.List? ==> (InnerListAlignment(e).Some? <==> Supported(e))
    ensures ListDecision(e).Some? <==> !e.Unit? && Supported(e)
    ensures InnerListAlignment(e).Some? <==> !e.Unit? && Supported(e)
  {
    if e.List? {
      assert ListDecision(e).Some? <==> InnerListAlignment(e.element).Some?;
    }
  }

  lemma PayloadSlotIff(p: TypeRepr)
    requires Layoutable(p) <==> Supported(p)
    ensures VariantPayloadSlot(p).Some? <==> Supported(p)
  {
  }

  lemma {:induction false} FieldsIffSupported(fs: seq<Field>, cursor: nat)
    ensures Place(fs, cursor).Some? <==> FieldsSupported(fs)
    ensures FieldsSupported(fs) ==> FieldsGraphAlignment(fs).Some?
    decreases fs
  {
    if fs != [] {
      LayoutableIffSupported(fs[0].ty);
      var d := FieldDecision(fs[0].ty);
      var next := if d.Some? then AlignUp(cursor, SlotAlign(d.value.kind)) + SlotSize(d.value.kind) else 0;
      FieldsIffSupported(fs[1..], next);
    }
  }

  lemma {:induction false} PayloadsIffSupported(name: string, vs: seq<EnumVariant>, bound: nat)
    requires forall p :: p in EnumPayloadTypes(name, vs) ==> Depth(p) < bound
    ensures PayloadsAlignment(EnumPayloadTypes(name, vs), bound).Some? <==> VariantsSupported(vs)
    decreases vs
  {
    if vs != [] {
      var ps := EnumPayloadTypes(name, vs);
      var rest := EnumPayloadTypes(name, vs[1..]);
      FieldsIffSupported(vs[0].fields, 0);
      if vs[0].fields == [] {
        PayloadsIffSupported(name, vs[1..], bound);
      } else {
        var p := TypeRepr.Schema(PayloadSchema(name, vs[0]).value);
        assert ps[0] == p && ps[1..] == rest;
        assert forall q :: q in rest ==> q in ps;
        PayloadsIffSupported(name, vs[1..], bound);
        assert p.schema.fields == vs[0].fields;
        PayloadIff(p.schema);
        PayloadsStep(ps, bound);
      }
    }
  }

  lemma PayloadIff(s: SchemaRepr)
    requires OffsetsFor(s.fields).Some? <==> FieldsSupported(s.fields)
    requires FieldsSupported(s.fields) ==> FieldsGraphAlignment(s.fields).Some?
    ensures var p := TypeRepr.Schema(s);
      VariantPayloadSlot(p).Some? && TypeGraphAlignment(p).Some? <==> FieldsSupported(s.fields)
  {
    hide OffsetsFor, FieldsGraphAlignment, FieldsSupported;
    var p := TypeRepr.Schema(s);
    assert EnsureLayoutable(p) <==> OffsetsFor(s.fields).Some?;
  }

  lemma PayloadsStep(ps: seq<TypeRepr>, bound: nat)
    requires ps != [] && forall p :: p in ps ==> Depth(p) < bound
    ensures PayloadsAlignment(ps, bound).Some? <==>
      VariantPayloadSlot(ps[0]).Some? && TypeGraphAlignment(ps[0]).Some? && PayloadsAlignment(ps[1..], bound).Some?
  {
    hide VariantPayloadSlot, TypeGraphAlignment;
  }

  lemma {:induction false} FieldLayoutable(fs: seq<Field>, i: nat)
    requires FieldsSupported(fs) && i < |fs|
    ensures Supported(fs[i].ty)
    decreases i
  {
    if i > 0 { FieldLayoutable(fs[1..], i - 1); }
  }

  lemma {:induction false} VariantFieldsSupported(vs: seq<EnumVariant>, i: nat)
    requires VariantsSupported(vs) && i < |vs|
    ensures FieldsSupported(vs[i].fields)
    decreases i
  {
    if i > 0 { VariantFieldsSupported(vs[1..], i - 1); }
  }

  lemma PayloadSupported(ty: TypeRepr, tag: byte)
    requires Supported(ty)
    ensures SelectPayload(ty, tag).Payload? ==> Supported(SelectPayload(ty, tag).ty)
  {
    if ty.Enum? {
      var r := FindVariantByTag(ty.variants, tag);
      if r.Some? {
        var i :| 0 <= i < |ty.variants| && ty.variants[i] == r.value;
        VariantFieldsSupported(ty.variants, i);
      }
    }
  }

  lemma WideListDecision(e: TypeRepr)
    requires e.Int? || e.Float?
    ensures FieldDecision(TypeRepr.List(e)) == Some(Decision(PointerIndirect(8), Some(InlineFixed(8, 8))))
  {
  }

  /** The tail alignment of a list of 8-byte scalars is 8. */
  lemma WideListAlign(fs: seq<Field>, t: OffsetTable, k: nat)
    requires OffsetsFor(fs) == Some(t) && k < |fs|
    requires fs[k].ty == TypeRepr.List(TypeRepr.Int) || fs[k].ty == TypeRepr.List(TypeRepr.Float)
    ensures k < |t.fields| && t.fields[k].kind == PointerIndirect(8)
  {
    LayoutCorrect(fs);
    hide OffsetsFor, FieldDecision;
    WideListDecision(fs[k].ty.element);
    assert SlotPlaced(fs, t.fields, 0, k);
  }

  /** Types a buffer can be written and read with: layoutable, and names and tags are unambiguous. */
  predicate Good(ty: TypeRepr) {
    WellNamed(ty) && Supported(ty)
  }

  predicate GoodRecord(fs: seq<Field>) {
    RecordWellNamed(fs) && FieldsSupported(fs)
  }

  lemma SchemaGood(s: SchemaRepr)
    requires Good(TypeRepr.Schema(s))
    ensures GoodRecord(s.fields)
  {
  }

  lemma ElementGood(e: TypeRepr)
    requires Good(TypeRepr.List(e))
    ensures Good(e) && (e.Pointer?() || e.Scalar?())
  {
  }

  lemma NamesOf(fs: seq<Field>)
    requires GoodRecord(fs)
    ensures DistinctNames(fs)
  {
  }

  lemma GoodField(fs: seq<Field>, i: nat)
    requires GoodRecord(fs) && i < |fs|
    ensures Good(fs[i].ty)
  {
    FieldWellNamed(fs, i);
    FieldLayoutable(fs, i);
  }

  lemma GoodPayload(ty: TypeRepr, tag: byte)
    requires Good(ty) && SelectPayload(ty, tag).Payload?
    ensures Good(SelectPayload(ty, tag).ty)
  {
    PayloadWellNamed(ty, tag);
    PayloadSupported(ty, tag);
  }

  lemma GoodRecordLayout(fs: seq<Field>)
    requires GoodRecord(fs)
    ensures OffsetsFor(fs).Some?
  {
    FieldsIffSupported(fs, 0);
  }

  // ----- run-time alignment -----

  function PayloadSlotRuntime(ty: TypeRepr): (nat, Alignment) {
    if ty.Unit? || ty.Bool? then (1, 1)
    else if ty.Int? || ty.Float? then (8, 8)
    else (4, 4)
  }

  /** The strongest alignment any tail record reachable from `ty` needs after a paste. */
  function TypeGraphAlign(ty: TypeRepr): Alignment
    decreases Depth(ty), 1
  {
    match ty
    case List(e) =>
      if e.Int? || e.Float? then 8
      else if e.Bool? || e.String? then 1
      else TypeGraphAlign(e)
    case Schema(s) => FieldsGraphAlign(s.fields)
    case Option(_) => VariantAlignRuntime(ty)
    case Result(_, _) => VariantAlignRuntime(ty)
    case Enum(_, _) => VariantAlignRuntime(ty)
    case _ => 1
  }

  function FieldsGraphAlign(fs: seq<Field>): Alignment
    decreases FieldsDepth(fs), 2, |fs|
  {
    if fs == [] then 1 else MaxAlign(TypeGraphAlign(fs[0].ty), FieldsGraphAlign(fs[1..]))
  }

  function VariantAlignRuntime(ty: TypeRepr): (r: Alignment)
    ensures r >= 4
    decreases Depth(ty), 0
  {
    PayloadsAlignRuntime(VariantPayloadTypes(ty), Depth(ty))
  }

  function PayloadsAlignRuntime(ps: seq<TypeRepr>, bound: nat): (r: Alignment)
    requires forall p :: p in ps ==> Depth(p) < bound || (bound == 0 && ps == [])
    ensures r >= 4
    decreases bound, 0, |ps|
  {
    if ps == [] then 4
    else
      MaxAlign(MaxAlign(PayloadSlotRuntime(ps[0]).1, TypeGraphAlign(ps[0])), PayloadsAlignRuntime(ps[1..], bound))
  }

  /** Where a pasted record must start: its root alignment and its deep tail alignment. */
  function SchemaPasteAlign(t: OffsetTable, fs: seq<Field>): Alignment {
    MaxAlign(t.rootAlign, FieldsGraphAlign(fs))
  }

  /** Where the payload slot of the variant record at `pos` sits. */
  function PayloadSlotOffset(pos: nat, payload: TypeRepr): nat {
    AlignUp(pos + 1, PayloadSlotRuntime(payload).1)
  }

  /** A smaller alignment divides a larger one, and so whatever the larger one divides. */
  lemma AlignDivides(a: Alignment, b: Alignment, n: nat)
    requires a <= b && Aligned(n, b)
    ensures Aligned(n, a) && Aligned(b, a)
  {
    if b == 8 {
      assert n == 8 * (n / 8);
    }
  }

  /** The alignment promised at layout time covers the one the writer uses. */
  lemma VariantAlignmentCoversRuntime(ty: TypeRepr)
    requires VariantAlignment(ty).Some?
    ensures Aligned(VariantAlignment(ty).value, VariantAlignRuntime(ty))
  {
    PayloadsAlignCovers(VariantPayloadTypes(ty), Depth(ty));
    AlignDivides(VariantAlignRuntime(ty), VariantAlignment(ty).value, 0);
  }

  lemma {:induction false} GraphAlignmentCovers(ty: TypeRepr)
    requires TypeGraphAlignment(ty).Some?
    ensures TypeGraphAlignment(ty).value >= TypeGraphAlign(ty)
    decreases Depth(ty), 1
  {
    match ty
    case List(e) =>
      if !(e.Int? || e.Float? || e.Bool?) {
        GraphAlignmentCovers(e);
      }
    case Schema(s) =>
      FieldsAlignCovers(s.fields);
    case Option(_) => PayloadsAlignCovers(VariantPayloadTypes(ty), Depth(ty));
    case Result(_, _) => PayloadsAlignCovers(VariantPayloadTypes(ty), Depth(ty));
    case Enum(_, _) => PayloadsAlignCovers(VariantPayloadTypes(ty), Depth(ty));
    case _ =>
  }

  lemma {:induction false} FieldsAlignCovers(fs: seq<Field>)
    requires FieldsGraphAlignment(fs).Some?
    ensures FieldsGraphAlignment(fs).value >= FieldsGraphAlign(fs)
    decreases FieldsDepth(fs), 2, |fs|
  {
    if fs != [] {
      GraphAlignmentCovers(fs[0].ty);
      FieldsAlignCovers(fs[1..]);
    }
  }

  lemma {:induction false} PayloadsAlignCovers(ps: seq<TypeRepr>, bound: nat)
    requires forall p :: p in ps ==> Depth(p) < bound
    requires PayloadsAlignment(ps, bound).Some?
    ensures PayloadsAlignment(ps, bound).value >= PayloadsAlignRuntime(ps, bound)
    decreases bound, 0, |ps|
  {
    if ps != [] {
      GraphAlignmentCovers(ps[0]);
      PayloadsAlignCovers(ps[1..], bound);
    }
  }

  // ----- the deep alignment of a part divides that of the whole -----

  lemma {:induction false} FieldAlignDivides(fs: seq<Field>, i: nat)
    requires i < |fs|
    ensures TypeGraphAlign(fs[i].ty) <= FieldsGraphAlign(fs)
    decreases i
  {
    if i > 0 { FieldAlignDivides(fs[1..], i - 1); }
  }

  lemma {:induction false} PayloadAlignDivides(ps: seq<TypeRepr>, bound: nat, p: TypeRepr)
    requires forall q :: q in ps ==> Depth(q) < bound
    requires p in ps
    ensures TypeGraphAlign(p) <= PayloadsAlignRuntime(ps, bound)
    ensures PayloadSlotRuntime(p).1 <= PayloadsAlignRuntime(ps, bound)
    decreases |ps|
  {
    if p != ps[0] {
      PayloadAlignDivides(ps[1..], bound, p);
    }
  }

  lemma {:induction false} EnumPayloadListed(name: string, vs: seq<EnumVariant>, v: EnumVariant)
    requires v in vs && v.fields != []
    ensures TypeRepr.Schema(PayloadSchema(name, v).value) in EnumPayloadTypes(name, vs)
    decreases |vs|
  {
    if v != vs[0] { EnumPayloadListed(name, vs[1..], v); }
  }

  lemma SelectedAlignDivides(ty: TypeRepr, tag: byte)
    requires SelectPayload(ty, tag).Payload?
    ensures TypeGraphAlign(SelectPayload(ty, tag).ty) <= TypeGraphAlign(ty)
    ensures PayloadSlotRuntime(SelectPayload(ty, tag).ty).1 <= TypeGraphAlign(ty)
  {
    var p := SelectPayload(ty, tag).ty;
    if ty.Enum? {
      EnumPayloadListed(ty.name, ty.variants, FindVariantByTag(ty.variants, tag).value);
    }
    PayloadAlignDivides(VariantPayloadTypes(ty), Depth(ty), p);
  }

  /** The start alignment of a variant record as the source accumulates it, payload by payload. */
  method ComputeVariantAlignment(ty: TypeRepr) returns (r: Option<Alignment>)
    requires ty.Variant?()
    ensures r == VariantAlignment(ty)
  {
    hide VariantPayloadSlot, TypeGraphAlignment, PayloadsAlignment, VariantPayloadTypes;
    var ps := VariantPayloadTypes(ty);
    var align: Alignment := 4;
    assert ps[0..] == ps;
    for k := 0 to |ps|
      invariant align >= 4 && VariantAlignment(ty) == WithAlign(align, PayloadsAlignment(ps[k..], Depth(ty)))
    {
      PayloadsAlignStep(ps, k, Depth(ty), align);
      var slot := VariantPayloadSlot(ps[k]);
      if slot.None? { return None; }
      var graph := TypeGraphAlignment(ps[k]);
      if graph.None? { return None; }
      align := MaxAlign(align, MaxAlign(slot.value.1, graph.value));
    }
    PayloadsAlignNone(ps, Depth(ty));
    return Some(align);
  }

  function WithAlign(a: Alignment, r: Option<Alignment>): Option<Alignment> {
    if r.None? then None else Some(MaxAlign(a, r.value))
  }

  lemma PayloadsAlignStep(ps: seq<TypeRepr>, k: nat, bound: nat, a: Alignment)
    requires k < |ps| && forall p :: p in ps ==> Depth(p) < bound
    ensures var slot, graph := VariantPayloadSlot(ps[k]), TypeGraphAlignment(ps[k]);
      && (slot.None? || graph.None? ==> PayloadsAlignment(ps[k..], bound).None?)
      && (slot.Some? && graph.Some? ==>
            WithAlign(a, PayloadsAlignment(ps[k..], bound)) ==
            WithAlign(MaxAlign(a, MaxAlign(slot.value.1, graph.value)), PayloadsAlignment(ps[k + 1..], bound)))
  {
    hide VariantPayloadSlot, TypeGraphAlignment;
    assert ps[k..][0] == ps[k] && ps[k..][1..] == ps[k + 1..];
  }

  lemma PayloadsAlignNone(ps: seq<TypeRepr>, bound: nat)
    requires forall p :: p in ps ==> Depth(p) < bound
    ensures PayloadsAlignment(ps[|ps|..], bound) == Some(4)
  {
    assert ps[|ps|..] == [];
  }
}
