/** The offset table of a record, stated on its field types alone: what every slot's size, alignment, tail
    alignment and element kind are. The offset pass computes exactly this table. */
module LayoutSpec {
  import opened Wrappers
  import opened Schemas
  import opened Layout
  import opened LayoutFacts

  // ----- what a type asks for -----

  /** A slot is as wide as it is aligned. */
  function SlotWidthOf(ty: TypeRepr): Alignment {
    if ty.Unit? || ty.Bool? then 1 else if ty.Int? || ty.Float? then 8 else 4
  }

  /** An integer or a float occurs somewhere in the type. */
  ghost predicate Wide(ty: TypeRepr)
    decreases ty
  {
    match ty
    case Int => true
    case Float => true
    case List(e) => Wide(e)
    case Option(i) => Wide(i)
    case Result(o, e) => Wide(o) || Wide(e)
    case Enum(_, vs) => exists k, i :: 0 <= k < |vs| && 0 <= i < |vs[k].fields| && Wide(vs[k].fields[i].ty)
    case Schema(s) => exists i :: 0 <= i < |s.fields| && Wide(s.fields[i].ty)
    case _ => false
  }

  /** A variant or a record with a pointer occurs behind the type's lists. */
  ghost predicate Pointing(ty: TypeRepr)
    decreases ty
  {
    match ty
    case List(e) => Pointing(e)
    case Schema(s) => exists i :: 0 <= i < |s.fields| && s.fields[i].ty.Pointer?()
    case _ => ty.Variant?()
  }

  /** The strongest alignment anything reachable from the type has at layout time. */
  ghost function DeepAlignOf(ty: TypeRepr): Alignment {
    if Wide(ty) then 8 else if Pointing(ty) then 4 else 1
  }

  ghost function RootAlignOf(fs: seq<Field>): Alignment {
    if exists i :: 0 <= i < |fs| && SlotWidthOf(fs[i].ty) == 8 then 8
    else if exists i :: 0 <= i < |fs| && SlotWidthOf(fs[i].ty) == 4 then 4
    else 1
  }

  ghost function VariantAlignOf(ty: TypeRepr): Alignment {
    if Wide(ty) then 8 else 4
  }

  /** Where the record behind a pointer slot starts. */
  ghost function TailAlignOf(ty: TypeRepr): Alignment {
    match ty
    case List(e) => if e.Int? || e.Float? then 8 else 4
    case Schema(s) => RootAlignOf(s.fields)
    case _ => if ty.Variant?() then VariantAlignOf(ty) else 1
  }

  /** What the elements of a list are: inline, or behind an array of pointers. */
  ghost function ElementOf(ty: TypeRepr): Option<ListElementKind> {
    match ty
    case List(e) =>
      (match e
       case Int => Some(InlineFixed(8, 8))
       case Float => Some(InlineFixed(8, 8))
       case Bool => Some(InlineFixed(1, 1))
       case Schema(s) => Some(PointerArray(RootAlignOf(s.fields)))
       case List(i) => Some(PointerArray(if i.Int? || i.Float? then 8 else 4))
       case _ => Some(PointerArray(if e.Variant?() then VariantAlignOf(e) else 4)))
    case _ => None
  }

  ghost function KindOf(ty: TypeRepr): FieldKind {
    if ty.Inline?() then Inline(SlotWidthOf(ty), SlotWidthOf(ty)) else PointerIndirect(TailAlignOf(ty))
  }

  // ----- the table -----

  /** Slot `i` is what its field's type asks for, at the first aligned offset behind its predecessor. */
  ghost predicate SlotIs(fs: seq<Field>, fos: seq<FieldOffset>, i: nat)
    requires i < |fs| == |fos|
  {
    && fos[i].name == fs[i].name && fos[i].size == fos[i].align == SlotWidthOf(fs[i].ty)
    && fos[i].kind == KindOf(fs[i].ty) && fos[i].listElement == ElementOf(fs[i].ty)
    && Aligned(fos[i].offset, fos[i].align)
    && PrevEnd(fos, 0, i) <= fos[i].offset < PrevEnd(fos, 0, i) + fos[i].align
  }

  ghost predicate TableIs(fs: seq<Field>, t: OffsetTable) {
    && |t.fields| == |fs| && (forall i :: 0 <= i < |fs| ==> SlotIs(fs, t.fields, i))
    && t.rootAlign == RootAlignOf(fs) && Aligned(t.rootSize, t.rootAlign)
    && PrevEnd(t.fields, 0, |fs|) <= t.rootSize < PrevEnd(t.fields, 0, |fs|) + t.rootAlign
  }

  lemma AlignedOnce(n: nat, a: nat, b: nat, w: Alignment)
    requires Aligned(a, w) && Aligned(b, w) && n <= a < n + w && n <= b < n + w
    ensures a == b
  {
    if w == 8 {
      Once(n, a / 8, b / 8, 8);
    } else if w == 4 {
      Once(n, a / 4, b / 4, 4);
    }
  }

  /** Two multiples of a width less than the width apart are one. */
  lemma Once(n: nat, p: nat, q: nat, w: nat)
    requires (w == 8 || w == 4) && n <= w * p < n + w && n <= w * q < n + w
    ensures p == q
  {
    assert p < q ==> w * p + w <= w * q;
    assert q < p ==> w * q + w <= w * p;
  }

  /** There is only one such table. */
  lemma TableUnique(fs: seq<Field>, t: OffsetTable, u: OffsetTable)
    requires TableIs(fs, t) && TableIs(fs, u)
    ensures t == u
  {
    hide RootAlignOf;
    SlotsUnique(fs, t.fields, u.fields, |fs|);
    assert t.fields == u.fields;
    AlignedOnce(PrevEnd(t.fields, 0, |fs|), t.rootSize, u.rootSize, t.rootAlign);
  }

  lemma {:induction false} SlotsUnique(fs: seq<Field>, fos: seq<FieldOffset>, gos: seq<FieldOffset>, n: nat)
    requires |fos| == |gos| == |fs| && n <= |fs|
    requires forall i :: 0 <= i < |fs| ==> SlotIs(fs, fos, i) && SlotIs(fs, gos, i)
    ensures forall i :: 0 <= i < n ==> fos[i] == gos[i]
    decreases n
  {
    hide KindOf, ElementOf;
    if n > 0 {
      SlotsUnique(fs, fos, gos, n - 1);
      assert SlotIs(fs, fos, n - 1) && SlotIs(fs, gos, n - 1);
      AlignedOnce(PrevEnd(fos, 0, n - 1), fos[n - 1].offset, gos[n - 1].offset, fos[n - 1].align);
    }
  }

  // ----- the offset pass computes it -----

  /** Every accepted field: its slot is what the type asks for. */
  lemma {:induction false} DecisionIs(ty: TypeRepr)
    requires Supported(ty)
    ensures FieldDecision(ty) == Some(Decision(KindOf(ty), ElementOf(ty)))
    decreases Depth(ty), 10
  {
    match ty
    case List(e) =>
      if e.List? {
        assert Depth(e) == 1 + Depth(e.element);
        InnerListIs(e.element);
      }
      if e.Schema? {
        assert Depth(e) == 1 + FieldsDepth(e.schema.fields);
        RecordIs(e.schema.fields);
      }
      if e.Variant?() { VariantIs(e); }
    case Schema(s) => RecordIs(s.fields);
    case Option(_) => VariantIs(ty);
    case Result(_, _) => VariantIs(ty);
    case Enum(_, _) => VariantIs(ty);
    case _ =>
  }

  lemma {:induction false} InnerListIs(inner: TypeRepr)
    requires Supported(inner) && !inner.Unit?
    ensures InnerListAlignment(inner) == Some(if inner.Int? || inner.Float? then 8 else 4)
    decreases Depth(inner), 9
  {
    match inner
    case Schema(s) => RecordIs(s.fields);
    case List(d) => InnerListIs(d);
    case Option(_) => VariantIs(inner);
    case Result(_, _) => VariantIs(inner);
    case Enum(_, _) => VariantIs(inner);
    case _ =>
  }

  lemma {:induction false} FieldSupported(fs: seq<Field>, i: nat)
    requires FieldsSupported(fs) && i < |fs|
    ensures Supported(fs[i].ty)
    decreases i
  {
    if i > 0 { FieldSupported(fs[1..], i - 1); }
  }

  lemma {:induction false} RecordIs(fs: seq<Field>)
    requires FieldsSupported(fs)
    ensures OffsetsFor(fs).Some? && TableIs(fs, OffsetsFor(fs).value)
    decreases FieldsDepth(fs), 21
  {
    FieldsIffSupported(fs, 0);
    LayoutCorrect(fs);
    var t := OffsetsFor(fs).value;
    hide OffsetsFor, FieldDecision, KindOf, ElementOf, FieldsSupported;
    forall i | 0 <= i < |fs|
      ensures SlotIs(fs, t.fields, i) && t.fields[i].align == SlotWidthOf(fs[i].ty)
    {
      FieldSupported(fs, i);
      FieldDepth(fs, i);
      DecisionIs(fs[i].ty);
      assert SlotPlaced(fs, t.fields, 0, i);
      KindSize(fs[i].ty);
    }
    RootIs(fs, t);
  }

  lemma KindSize(ty: TypeRepr)
    requires Supported(ty)
    ensures SlotSize(KindOf(ty)) == SlotAlign(KindOf(ty)) == SlotWidthOf(ty)
  {
  }

  lemma RootIs(fs: seq<Field>, t: OffsetTable)
    requires TableFor(fs, t) && forall i :: 0 <= i < |fs| ==> t.fields[i].align == SlotWidthOf(fs[i].ty)
    ensures t.rootAlign == RootAlignOf(fs)
  {
    hide SlotPlaced, SlotWidthOf;
  }

  /** The deep alignment of a type, and of the fields of a record. */
  lemma {:induction false} GraphIs(ty: TypeRepr)
    requires Supported(ty)
    ensures TypeGraphAlignment(ty) == Some(DeepAlignOf(ty))
    decreases Depth(ty), 6
  {
    match ty
    case List(e) => GraphIs(e);
    case Schema(s) =>
      RecordIs(s.fields);
      FieldsGraphIs(s.fields);
      hide OffsetsFor, FieldsGraphAlignment;
      RecordDeep(s);
    case Option(_) => VariantIs(ty);
    case Result(_, _) => VariantIs(ty);
    case Enum(_, _) => VariantIs(ty);
    case _ =>
  }

  ghost function FieldsDeepOf(fs: seq<Field>): Alignment {
    if exists i :: 0 <= i < |fs| && Wide(fs[i].ty) then 8
    else if exists i :: 0 <= i < |fs| && Pointing(fs[i].ty) then 4
    else 1
  }

  lemma RecordDeep(s: SchemaRepr)
    requires FieldsSupported(s.fields)
    ensures MaxAlign(RootAlignOf(s.fields), FieldsDeepOf(s.fields)) == DeepAlignOf(TypeRepr.Schema(s))
  {
    var fs := s.fields;
    forall i | 0 <= i < |fs|
      ensures SlotWidthOf(fs[i].ty) == 8 ==> Wide(fs[i].ty)
      ensures Pointing(fs[i].ty) ==> fs[i].ty.Pointer?()
      ensures SlotWidthOf(fs[i].ty) == 4 <==> fs[i].ty.Pointer?()
    {
      FieldSupported(fs, i);
    }
    assert Wide(TypeRepr.Schema(s)) <==> exists i :: 0 <= i < |fs| && Wide(fs[i].ty);
    assert Pointing(TypeRepr.Schema(s)) <==> exists i :: 0 <= i < |fs| && fs[i].ty.Pointer?();
    hide Wide, Pointing, SlotWidthOf;
  }

  lemma {:induction false} FieldsGraphIs(fs: seq<Field>)
    requires FieldsSupported(fs)
    ensures FieldsGraphAlignment(fs) == Some(FieldsDeepOf(fs))
    decreases FieldsDepth(fs), 20, |fs|
  {
    hide Wide, Pointing, TypeGraphAlignment;
    if fs != [] {
      GraphIs(fs[0].ty);
      FieldsGraphIs(fs[1..]);
      assert forall i :: 0 < i < |fs| ==> fs[i] == fs[1..][i - 1];
      DeepCons(fs);
    }
  }

  lemma DeepCons(fs: seq<Field>)
    requires fs != []
    ensures FieldsDeepOf(fs) == MaxAlign(DeepAlignOf(fs[0].ty), FieldsDeepOf(fs[1..]))
  {
    hide Wide, Pointing;
    var rest := fs[1..];
    forall i | 0 <= i < |rest| ensures rest[i] == fs[i + 1] {}
    assert (exists i :: 0 <= i < |fs| && Wide(fs[i].ty)) <==>
        Wide(fs[0].ty) || exists i :: 0 <= i < |rest| && Wide(rest[i].ty) by {
      if i :| 0 < i < |fs| && Wide(fs[i].ty) { assert Wide(rest[i - 1].ty); }
    }
    assert (exists i :: 0 <= i < |fs| && Pointing(fs[i].ty)) <==>
      Pointing(fs[0].ty) || exists i :: 0 <= i < |rest| && Pointing(rest[i].ty) by {
      if i :| 0 < i < |fs| && Pointing(fs[i].ty) { assert Pointing(rest[i - 1].ty); }
    }
  }

  // ----- variants -----

  lemma {:induction false} VariantIs(ty: TypeRepr)
    requires Supported(ty) && ty.Variant?()
    ensures VariantAlignment(ty) == Some(VariantAlignOf(ty))
    decreases Depth(ty), 5
  {
    PayloadsSupported(ty);
    PayloadsIs(VariantPayloadTypes(ty), Depth(ty));
    WidePayload(ty);
  }

  lemma PayloadsSupported(ty: TypeRepr)
    requires Supported(ty) && ty.Variant?()
    ensures forall p :: p in VariantPayloadTypes(ty) ==> Supported(p)
  {
    if ty.Enum? { EnumPayloadsSupported(ty.name, ty.variants); }
  }

  lemma {:induction false} EnumPayloadsSupported(name: string, vs: seq<EnumVariant>)
    requires VariantsSupported(vs)
    ensures forall p :: p in EnumPayloadTypes(name, vs) ==> Supported(p)
    decreases |vs|
  {
    if vs != [] { EnumPayloadsSupported(name, vs[1..]); }
  }

  lemma {:induction false} PayloadsIs(ps: seq<TypeRepr>, bound: nat)
    requires forall p :: p in ps ==> Supported(p) && Depth(p) < bound
    ensures PayloadsAlignment(ps, bound) == Some(if exists p :: p in ps && Wide(p) then 8 else 4)
    decreases bound, 0, |ps|
  {
    hide Wide, Pointing, TypeGraphAlignment;
    if ps != [] {
      GraphIs(ps[0]);
      PayloadSlotIs(ps[0]);
      PayloadsIs(ps[1..], bound);
      assert forall p :: p in ps <==> p == ps[0] || p in ps[1..];
      WideSlot(ps[0]);
    }
  }

  lemma WideSlot(p: TypeRepr)
    ensures SlotWidthOf(p) == 8 ==> Wide(p)
  {
  }

  /** The payload slot of a variant is the slot of its type, at layout time and at run time. */
  lemma PayloadSlotIs(p: TypeRepr)
    requires Supported(p)
    ensures VariantPayloadSlot(p) == Some((SlotWidthOf(p), SlotWidthOf(p)))
    ensures PayloadSlotRuntime(p) == (SlotWidthOf(p), SlotWidthOf(p))
  {
    LayoutableIffSupported(p);
  }

  lemma WidePayload(ty: TypeRepr)
    requires ty.Variant?()
    ensures (exists p :: p in VariantPayloadTypes(ty) && Wide(p)) <==> Wide(ty)
  {
    match ty
    case Option(i) => assert i in VariantPayloadTypes(ty);
    case Result(o, e) => assert o in VariantPayloadTypes(ty) && e in VariantPayloadTypes(ty);
    case Enum(name, vs) => WideEnum(name, vs);
  }

  lemma {:induction false} WideEnum(name: string, vs: seq<EnumVariant>)
    ensures (exists p :: p in EnumPayloadTypes(name, vs) && Wide(p)) <==> Wide(TypeRepr.Enum(name, vs))
    decreases |vs|
  {
    if vs != [] {
      var rest := vs[1..];
      WideEnum(name, rest);
      var p := TypeRepr.Schema(SchemaRepr(name + "." + vs[0].name, vs[0].fields, false));
      assert EnumPayloadTypes(name, vs) ==
        (if vs[0].fields == [] then [] else [p]) + EnumPayloadTypes(name, rest);
      assert Wide(p) <==> exists i :: 0 <= i < |vs[0].fields| && Wide(vs[0].fields[i].ty);
      WideVariants(name, vs);
      hide Wide;
    }
  }

  lemma WideVariants(name: string, vs: seq<EnumVariant>)
    requires vs != []
    ensures Wide(TypeRepr.Enum(name, vs)) <==>
      (exists i :: 0 <= i < |vs[0].fields| && Wide(vs[0].fields[i].ty)) || Wide(TypeRepr.Enum(name, vs[1..]))
  {
    var rest := vs[1..];
    if k, i :| 0 < k < |vs| && 0 <= i < |vs[k].fields| && Wide(vs[k].fields[i].ty) {
      assert rest[k - 1] == vs[k] && Wide(rest[k - 1].fields[i].ty);
    }
    if k, i :| 0 <= k < |rest| && 0 <= i < |rest[k].fields| && Wide(rest[k].fields[i].ty) {
      assert rest[k] == vs[k + 1] && Wide(vs[k + 1].fields[i].ty);
    }
  }

  // ----- the theorem -----

  /** The offset pass succeeds exactly for supported fields, and then with exactly the table above. */
  lemma LayoutExact(fs: seq<Field>, t: OffsetTable)
    ensures OffsetsFor(fs) == Some(t) <==> FieldsSupported(fs) && TableIs(fs, t)
  {
    hide TableIs, FieldsSupported;
    if FieldsSupported(fs) {
      RecordIs(fs);
      if TableIs(fs, t) { TableUnique(fs, t, OffsetsFor(fs).value); }
    } else {
      FieldsIffSupported(fs, 0);
    }
  }

  // ----- the alignment a paste keeps at run time -----

  /** A list of 8-byte elements, or a variant with an 8-byte payload, is reachable: these bytes are found by
      rounding up from where their record starts. */
  ghost predicate WideTail(ty: TypeRepr)
    decreases ty
  {
    match ty
    case List(e) => e.Int? || e.Float? || WideTail(e)
    case Option(i) => i.Int? || i.Float? || WideTail(i)
    case Result(o, e) => o.Int? || o.Float? || WideTail(o) || e.Int? || e.Float? || WideTail(e)
    case Enum(_, vs) => exists k, i :: 0 <= k < |vs| && 0 <= i < |vs[k].fields| && WideTail(vs[k].fields[i].ty)
    case Schema(s) => exists i :: 0 <= i < |s.fields| && WideTail(s.fields[i].ty)
    case _ => false
  }

  /** A variant record is reachable. */
  ghost predicate VariantTail(ty: TypeRepr)
    decreases ty
  {
    match ty
    case List(e) => VariantTail(e)
    case Schema(s) => exists i :: 0 <= i < |s.fields| && VariantTail(s.fields[i].ty)
    case _ => ty.Variant?()
  }

  ghost function TailsAlignOf(fs: seq<Field>): Alignment {
    if exists i :: 0 <= i < |fs| && WideTail(fs[i].ty) then 8
    else if exists i :: 0 <= i < |fs| && VariantTail(fs[i].ty) then 4
    else 1
  }

  /** The alignment a paste keeps is 8 with a wide tail, else 4 with a variant, else 1. */
  lemma {:induction false} RuntimeIs(ty: TypeRepr)
    ensures TypeGraphAlign(ty) == if WideTail(ty) then 8 else if VariantTail(ty) then 4 else 1
    ensures ty.Variant?() ==> VariantAlignRuntime(ty) == if WideTail(ty) then 8 else 4
    decreases Depth(ty), 1
  {
    match ty
    case List(e) => RuntimeIs(e);
    case Schema(s) => FieldsRuntimeIs(s.fields);
    case Option(i) =>
      RuntimePayloadsIs([i], Depth(ty));
      assert i in [i];
    case Result(o, e) =>
      RuntimePayloadsIs([o, e], Depth(ty));
      assert o in [o, e] && e in [o, e];
    case Enum(name, vs) =>
      RuntimePayloadsIs(EnumPayloadTypes(name, vs), Depth(ty));
      WideTailEnum(name, vs);
    case _ =>
  }

  lemma {:induction false} FieldsRuntimeIs(fs: seq<Field>)
    ensures FieldsGraphAlign(fs) == TailsAlignOf(fs)
    decreases FieldsDepth(fs), 2, |fs|
  {
    hide WideTail, VariantTail, TypeGraphAlign;
    if fs != [] {
      RuntimeIs(fs[0].ty);
      var rest := fs[1..];
      FieldsRuntimeIs(rest);
      forall i | 0 <= i < |rest| ensures rest[i] == fs[i + 1] {}
      if i :| 0 < i < |fs| && WideTail(fs[i].ty) { assert WideTail(rest[i - 1].ty); }
      if i :| 0 < i < |fs| && VariantTail(fs[i].ty) { assert VariantTail(rest[i - 1].ty); }
    }
  }

  /** The payload itself is wide, or has a wide tail. */
  ghost predicate WidePayloadTail(p: TypeRepr) {
    p.Int? || p.Float? || WideTail(p)
  }

  lemma {:induction false} RuntimePayloadsIs(ps: seq<TypeRepr>, bound: nat)
    requires forall p :: p in ps ==> Depth(p) < bound
    ensures PayloadsAlignRuntime(ps, bound) == if exists p :: p in ps && WidePayloadTail(p) then 8 else 4
    decreases bound, 0, |ps|
  {
    hide WideTail, VariantTail, TypeGraphAlign;
    if ps != [] {
      RuntimeIs(ps[0]);
      RuntimePayloadsIs(ps[1..], bound);
      assert forall p :: p in ps <==> p == ps[0] || p in ps[1..];
    }
  }

  lemma {:induction false} WideTailEnum(name: string, vs: seq<EnumVariant>)
    ensures (exists p :: p in EnumPayloadTypes(name, vs) && WidePayloadTail(p)) <==> WideTail(TypeRepr.Enum(name, vs))
    decreases |vs|
  {
    if vs != [] {
      var rest := vs[1..];
      WideTailEnum(name, rest);
      var p := TypeRepr.Schema(SchemaRepr(name + "." + vs[0].name, vs[0].fields, false));
      assert EnumPayloadTypes(name, vs) ==
        if vs[0].fields == [] then EnumPayloadTypes(name, rest) else [p] + EnumPayloadTypes(name, rest);
      assert WideTail(p) <==> exists i :: 0 <= i < |vs[0].fields| && WideTail(vs[0].fields[i].ty);
      WideTailVariants(name, vs);
      hide WideTail, EnumPayloadTypes;
      assert WidePayloadTail(p) <==> WideTail(p);
      var ps, qs := EnumPayloadTypes(name, vs), EnumPayloadTypes(name, rest);
      if vs[0].fields != [] { assert p in ps && forall q :: q in ps <==> q == p || q in qs; }
    }
  }

  lemma WideTailVariants(name: string, vs: seq<EnumVariant>)
    requires vs != []
    ensures WideTail(TypeRepr.Enum(name, vs)) <==>
      (exists i :: 0 <= i < |vs[0].fields| && WideTail(vs[0].fields[i].ty)) || WideTail(TypeRepr.Enum(name, vs[1..]))
  {
    var rest := vs[1..];
    if k, i :| 0 < k < |vs| && 0 <= i < |vs[k].fields| && WideTail(vs[k].fields[i].ty) {
      assert rest[k - 1] == vs[k] && WideTail(rest[k - 1].fields[i].ty);
    }
    if k, i :| 0 <= k < |rest| && 0 <= i < |rest[k].fields| && WideTail(rest[k].fields[i].ty) {
      assert rest[k] == vs[k + 1] && WideTail(vs[k + 1].fields[i].ty);
    }
  }
}
