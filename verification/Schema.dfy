/** The canonical type descriptions the binary layout is driven by. */
module Schemas {
  import opened Bytes
  import opened Wrappers

  datatype TypeRepr =
    | Unit
    | Bool
    | Int
    | Float
    | String
    | List(element: TypeRepr)
    | Option(inner: TypeRepr)
    | Result(ok: TypeRepr, err: TypeRepr)
    | Enum(name: string, variants: seq<EnumVariant>)
    | Schema(schema: SchemaRepr)
    | Closure
  {
    /** Stored directly in a slot rather than behind a pointer. */
    predicate Inline?() { Unit? || Bool? || Int? || Float? }

    predicate Variant?() { Option? || Result? || Enum? }

    /** Stored in a tail record reached through a `u32` slot. */
    predicate Pointer?() { String? || List? || Schema? || Variant?() }

    /** An inline-fixed list element. */
    predicate Scalar?() { Bool? || Int? || Float? }
  }

  datatype Field = Field(name: string, ty: TypeRepr)

  datatype EnumVariant = EnumVariant(name: string, tag: byte, fields: seq<Field>, isTuple: bool)

  datatype SchemaRepr = SchemaRepr(name: string, fields: seq<Field>, isTuple: bool)

  function Max(a: nat, b: nat): nat {
    if a >= b then a else b
  }

  /** Nesting depth: how many tail records deep a value of the type can reach. */
  function Depth(ty: TypeRepr): nat
    decreases ty
  {
    match ty
    case List(e) => 1 + Depth(e)
    case Option(i) => 1 + Depth(i)
    case Result(o, e) => 1 + Max(Depth(o), Depth(e))
    case Enum(_, vs) => 1 + VariantsDepth(vs)
    case Schema(s) => 1 + FieldsDepth(s.fields)
    case _ => 0
  }

  function FieldsDepth(fs: seq<Field>): nat
    decreases fs
  {
    if fs == [] then 0 else Max(Depth(fs[0].ty), FieldsDepth(fs[1..]))
  }

  function VariantsDepth(vs: seq<EnumVariant>): nat
    decreases vs
  {
    if vs == [] then 0
    else Max(if vs[0].fields == [] then 0 else 1 + FieldsDepth(vs[0].fields), VariantsDepth(vs[1..]))
  }

  /** The record schema of a variant's payload; a unit variant has none. */
  function PayloadSchema(enumName: string, v: EnumVariant): Option<SchemaRepr> {
    if v.fields == [] then None
    else Some(SchemaRepr(enumName + "." + v.name, v.fields, false))
  }

  function FindVariantByTag(vs: seq<EnumVariant>, tag: byte): (r: Option<EnumVariant>)
    ensures r.Some? ==> r.value in vs && r.value.tag == tag
    ensures r.Some? && r.value.fields != [] ==> 1 + FieldsDepth(r.value.fields) <= VariantsDepth(vs)
  {
    if vs == [] then None
    else if vs[0].tag == tag then Some(vs[0])
    else FindVariantByTag(vs[1..], tag)
  }

  function FindVariantByName(vs: seq<EnumVariant>, name: string): (r: Option<EnumVariant>)
    ensures r.Some? ==> r.value in vs && r.value.name == name
    ensures r.Some? && r.value.fields != [] ==> 1 + FieldsDepth(r.value.fields) <= VariantsDepth(vs)
  {
    if vs == [] then None
    else if vs[0].name == name then Some(vs[0])
    else FindVariantByName(vs[1..], name)
  }

  function FindField(fs: seq<Field>, name: string): (r: Option<Field>)
    ensures r.Some? ==> r.value in fs && r.value.name == name && Depth(r.value.ty) <= FieldsDepth(fs)
  {
    if fs == [] then None
    else if fs[0].name == name then Some(fs[0])
    else FindField(fs[1..], name)
  }

  /** What a tag selects: nothing (invalid), a bare variant, or a payload type. */
  datatype Selected = BadTag | NoPayload | Payload(ty: TypeRepr)

  function SelectPayload(ty: TypeRepr, tag: byte): (r: Selected)
    ensures r.Payload? ==> Depth(r.ty) < Depth(ty)
    ensures r.BadTag? || ty.Variant?()
  {
    match ty
    case Option(inner) =>
      if tag == 0 then NoPayload
      else if tag == 1 then Payload(inner)
      else BadTag
    case Result(o, e) =>
      if tag == 0 then Payload(o)
      else if tag == 1 then Payload(e)
      else BadTag
    case Enum(name, vs) =>
      (match FindVariantByTag(vs, tag)
       case None => BadTag
       case Some(v) =>
         match PayloadSchema(name, v)
         case None => NoPayload
         case Some(s) => Payload(Schema(s)))
    case _ => BadTag
  }

  predicate DistinctNames(fs: seq<Field>) {
    forall i, j :: 0 <= i < j < |fs| ==> fs[i].name != fs[j].name
  }

  predicate DistinctTags(vs: seq<EnumVariant>) {
    forall i, j :: 0 <= i < j < |vs| ==> vs[i].tag != vs[j].tag
  }

  /** Field names are distinct in every record and tags are distinct in every enum. */
  predicate WellNamed(ty: TypeRepr)
    decreases ty
  {
    match ty
    case List(e) => WellNamed(e)
    case Option(i) => WellNamed(i)
    case Result(o, e) => WellNamed(o) && WellNamed(e)
    case Enum(_, vs) => DistinctTags(vs) && VariantsWellNamed(vs)
    case Schema(s) => DistinctNames(s.fields) && FieldsWellNamed(s.fields)
    case _ => true
  }

  predicate FieldsWellNamed(fs: seq<Field>)
    decreases fs
  {
    fs != [] ==> WellNamed(fs[0].ty) && FieldsWellNamed(fs[1..])
  }

  predicate VariantsWellNamed(vs: seq<EnumVariant>)
    decreases vs
  {
    vs != [] ==> DistinctNames(vs[0].fields) && FieldsWellNamed(vs[0].fields) && VariantsWellNamed(vs[1..])
  }

  predicate RecordWellNamed(fs: seq<Field>) {
    DistinctNames(fs) && FieldsWellNamed(fs)
  }

  lemma {:induction false} FieldWellNamed(fs: seq<Field>, i: nat)
    requires FieldsWellNamed(fs) && i < |fs|
    ensures WellNamed(fs[i].ty)
    decreases i
  {
    if i > 0 { FieldWellNamed(fs[1..], i - 1); }
  }

  lemma {:induction false} VariantWellNamed(vs: seq<EnumVariant>, i: nat)
    requires VariantsWellNamed(vs) && i < |vs|
    ensures RecordWellNamed(vs[i].fields)
    decreases i
  {
    if i > 0 { VariantWellNamed(vs[1..], i - 1); }
  }

  lemma PayloadWellNamed(ty: TypeRepr, tag: byte)
    requires WellNamed(ty)
    ensures SelectPayload(ty, tag).Payload? ==> WellNamed(SelectPayload(ty, tag).ty)
  {
    if ty.Enum? {
      var r := FindVariantByTag(ty.variants, tag);
      if r.Some? {
        var i :| 0 <= i < |ty.variants| && ty.variants[i] == r.value;
        VariantWellNamed(ty.variants, i);
      }
    }
  }

  /** With distinct names, looking a field up by its name finds that very field. */
  lemma {:induction false} FindFieldAt(fs: seq<Field>, i: nat)
    requires DistinctNames(fs) && i < |fs|
    ensures FindField(fs, fs[i].name) == Some(fs[i])
    decreases i
  {
    if i > 0 {
      assert fs[0].name != fs[i].name;
      FindFieldAt(fs[1..], i - 1);
    }
  }

  /** With distinct tags, the tag written for a variant selects that variant again. */
  lemma {:induction false} FindVariantAt(vs: seq<EnumVariant>, i: nat)
    requires DistinctTags(vs) && i < |vs|
    ensures FindVariantByTag(vs, vs[i].tag) == Some(vs[i])
    decreases i
  {
    if i > 0 {
      assert vs[0].tag != vs[i].tag;
      FindVariantAt(vs[1..], i - 1);
    }
  }

  lemma {:induction false} FieldDepth(fs: seq<Field>, k: nat)
    requires k < |fs|
    ensures Depth(fs[k].ty) <= FieldsDepth(fs)
    decreases k
  {
    hide Depth;
    if k > 0 {
      FieldDepth(fs[1..], k - 1);
    }
  }
}
