/** What a value reads back as, stated on the values alone: the same shape, the same brands, integers
    promoted where a float is declared, records branded with their schema and cut to its fields. The normal
    form every round trip speaks of is exactly this. */
module Normal {
  import opened Wrappers
  import opened Schemas
  import opened Values

  /** `w` is `v` as a value of type `ty` reads back. */
  ghost predicate ReadsBackAs(ty: TypeRepr, v: Value, w: Value)
    decreases ty
  {
    match ty
    case Unit => Branded(v, "Option", "None") && w == VDict(map[], Some("None"), Some("Option"))
    case Bool => v.VBool? && w == v
    case Int => v.VInt? && w == v
    case Float => w.VFloat? && (w == v || (v.VInt? && w.bits == F64OfInt(v.i)))
    case String => v.VString? && w == v
    case List(e) =>
      && !e.Unit? && v.VList? && w.VList? && |w.items| == |v.items|
      && forall i :: 0 <= i < |v.items| ==> ReadsBackAs(e, v.items[i], w.items[i])
    case Schema(s) =>
      if s.isTuple then
        && v.VTuple? && w.VTuple? && |v.elems| == |w.elems| == |s.fields|
        && forall i :: 0 <= i < |s.fields| ==> ReadsBackAs(s.fields[i].ty, v.elems[i], w.elems[i])
      else
        && v.VDict? && w.VDict? && w.brand == Some(s.name) && w.variantOf == None
        && KeysAre(w.m, s.fields)
        && forall i :: 0 <= i < |s.fields| ==>
             s.fields[i].name in v.m && ReadsBackAs(s.fields[i].ty, v.m[s.fields[i].name], w.m[s.fields[i].name])
    case Option(inner) =>
      && SameVariant(v, w, "Option")
      && ((v.brand == Some("None") && w.m == map[])
          || (v.brand == Some("Some") && OnlyKey(v.m, w.m, "value") && ReadsBackAs(inner, v.m["value"], w.m["value"])))
    case Result(ok, err) =>
      && SameVariant(v, w, "Result")
      && ((v.brand == Some("Ok") && OnlyKey(v.m, w.m, "value") && ReadsBackAs(ok, v.m["value"], w.m["value"]))
          || (v.brand == Some("Err") && OnlyKey(v.m, w.m, "error") && ReadsBackAs(err, v.m["error"], w.m["error"])))
    case Enum(name, vs) =>
      && SameVariant(v, w, name)
      && exists k :: 0 <= k < |vs| && Names(vs, k, v.brand) &&
           if vs[k].fields == [] then v.m == map[] && w.m == map[]
           else
             && KeysAre(w.m, vs[k].fields)
             && forall i :: 0 <= i < |vs[k].fields| ==>
                  && vs[k].fields[i].name in v.m
                  && ReadsBackAs(vs[k].fields[i].ty, v.m[vs[k].fields[i].name], w.m[vs[k].fields[i].name])
    case Closure => false
  }

  predicate Branded(v: Value, variantOf: string, brand: string) {
    v.VDict? && v.variantOf == Some(variantOf) && v.brand == Some(brand)
  }

  /** Both are variants of `name`, the same one. */
  predicate SameVariant(v: Value, w: Value, name: string) {
    && v.VDict? && w.VDict? && v.variantOf == Some(name) && w.variantOf == Some(name)
    && v.brand.Some? && w.brand == v.brand
  }

  /** `w` has the one key `key`, which `v` has too. */
  predicate OnlyKey(v: map<string, Value>, w: map<string, Value>, key: string) {
    key in v && w.Keys == {key}
  }

  /** Variant `k` is the first of that name. */
  predicate Names(vs: seq<EnumVariant>, k: nat, brand: Option<string>)
    requires k < |vs|
  {
    brand == Some(vs[k].name) && forall j :: 0 <= j < k ==> vs[j].name != vs[k].name
  }

  ghost predicate KeysAre(m: map<string, Value>, fs: seq<Field>) {
    forall key :: key in m <==> exists i :: 0 <= i < |fs| && fs[i].name == key
  }

  // ----- records -----

  /** The field values of a dictionary, by position. */
  lemma {:induction false} FieldValuesIff(fs: seq<Field>, m: map<string, Value>)
    ensures FieldValues(fs, m).Some? <==> forall i :: 0 <= i < |fs| ==> fs[i].name in m
    ensures FieldValues(fs, m).Some? ==> forall i :: 0 <= i < |fs| ==> FieldValues(fs, m).value[i] == m[fs[i].name]
    decreases |fs|
  {
    if fs != [] {
      FieldValuesIff(fs[1..], m);
      assert forall i :: 0 < i < |fs| ==> fs[i] == fs[1..][i - 1];
    }
  }

  lemma {:induction false} NormFieldsIff(fs: seq<Field>, raw: seq<Value>, ws: seq<Value>)
    requires |raw| == |ws| == |fs| && FieldsWellNamed(fs)
    ensures NormFields(fs, raw) == Some(ws) <==> forall i :: 0 <= i < |fs| ==> ReadsBackAs(fs[i].ty, raw[i], ws[i])
    decreases FieldsDepth(fs), 2, |fs|
  {
    hide ReadsBackAs, Norm;
    if fs != [] {
      NormIff(fs[0].ty, raw[0], ws[0]);
      NormFieldsIff(fs[1..], raw[1..], ws[1..]);
      assert ws == [ws[0]] + ws[1..];
      if NormFields(fs, raw) == Some(ws) {
        var head, rest := Norm(fs[0].ty, raw[0]).value, NormFields(fs[1..], raw[1..]).value;
        assert ([head] + rest)[0] == head && ([head] + rest)[1..] == rest;
      }
      assert forall i :: 0 < i < |fs| ==>
          fs[i] == fs[1..][i - 1] && raw[i] == raw[1..][i - 1] && ws[i] == ws[1..][i - 1];
      if forall i :: 0 <= i < |fs| ==> ReadsBackAs(fs[i].ty, raw[i], ws[i]) {
        forall i | 0 <= i < |fs[1..]|
          ensures ReadsBackAs(fs[1..][i].ty, raw[1..][i], ws[1..][i])
        {
          assert ReadsBackAs(fs[i + 1].ty, raw[i + 1], ws[i + 1]);
        }
      }
    }
  }

  lemma {:induction false} NormItemsIff(e: TypeRepr, items: seq<Value>, ws: seq<Value>)
    requires |items| == |ws| && WellNamed(e)
    ensures NormItems(e, items) == Some(ws) <==> forall i :: 0 <= i < |items| ==> ReadsBackAs(e, items[i], ws[i])
    decreases Depth(e), 2, |items|
  {
    hide ReadsBackAs, Norm;
    if items != [] {
      NormIff(e, items[0], ws[0]);
      NormItemsIff(e, items[1..], ws[1..]);
      assert ws == [ws[0]] + ws[1..];
      if NormItems(e, items) == Some(ws) {
        var head, rest := Norm(e, items[0]).value, NormItems(e, items[1..]).value;
        assert ([head] + rest)[0] == head && ([head] + rest)[1..] == rest;
      }
      assert forall i :: 0 < i < |items| ==> items[i] == items[1..][i - 1] && ws[i] == ws[1..][i - 1];
      if forall i :: 0 <= i < |items| ==> ReadsBackAs(e, items[i], ws[i]) {
        forall i | 0 <= i < |items[1..]|
          ensures ReadsBackAs(e, items[1..][i], ws[1..][i])
        {
          assert ReadsBackAs(e, items[i + 1], ws[i + 1]);
        }
      }
    }
  }

  /** A dictionary with the field names as keys is the record of its values. */
  lemma ZipOf(fs: seq<Field>, m: map<string, Value>) returns (ws: seq<Value>)
    requires DistinctNames(fs) && KeysAre(m, fs)
    ensures |ws| == |fs| && Zip(fs, ws) == m && forall i :: 0 <= i < |fs| ==> fs[i].name in m && ws[i] == m[fs[i].name]
  {
    hide Zip;
    forall i | 0 <= i < |fs| ensures fs[i].name in m {}
    ws := seq(|fs|, i requires 0 <= i < |fs| => m[fs[i].name]);
    ZipIs(fs, ws, m);
  }

  lemma ZipIs(fs: seq<Field>, ws: seq<Value>, m: map<string, Value>)
    requires DistinctNames(fs) && |ws| == |fs|
    ensures Zip(fs, ws) == m <==>
      KeysAre(m, fs) && forall i :: 0 <= i < |fs| ==> fs[i].name in m && m[fs[i].name] == ws[i]
  {
    hide Zip, DistinctNames;
    var z := Zip(fs, ws);
    forall i | 0 <= i < |fs| ensures fs[i].name in z && z[fs[i].name] == ws[i] { ZipAt(fs, ws, i); }
    forall key | key in z ensures exists i :: 0 <= i < |fs| && fs[i].name == key { ZipKeys(fs, ws, key); }
    if KeysAre(m, fs) && forall i :: 0 <= i < |fs| ==> fs[i].name in m && m[fs[i].name] == ws[i] {
      forall key ensures key in z <==> key in m {}
      forall key | key in z ensures z[key] == m[key] {
        var i :| 0 <= i < |fs| && fs[i].name == key;
      }
      assert z == m;
    }
  }

  /** A record held in a dictionary: the part records and enum payloads share. */
  lemma {:induction false} DictIff(fs: seq<Field>, m: map<string, Value>, wm: map<string, Value>)
    requires RecordWellNamed(fs)
    ensures
      var raw := FieldValues(fs, m);
      (raw.Some? && NormFields(fs, raw.value).Some? && wm == Zip(fs, NormFields(fs, raw.value).value)) <==>
        && KeysAre(wm, fs)
        && forall i :: 0 <= i < |fs| ==> fs[i].name in m && ReadsBackAs(fs[i].ty, m[fs[i].name], wm[fs[i].name])
    decreases FieldsDepth(fs), 3
  {
    hide ReadsBackAs, NormFields, Zip, DistinctNames, FieldsWellNamed;
    FieldValuesIff(fs, m);
    var raw := FieldValues(fs, m);
    if raw.Some? {
      if NormFields(fs, raw.value).Some? && wm == Zip(fs, NormFields(fs, raw.value).value) {
        var ws := NormFields(fs, raw.value).value;
        NormFieldsIff(fs, raw.value, ws);
        ZipIs(fs, ws, wm);
      }
      if KeysAre(wm, fs) && forall i :: 0 <= i < |fs| ==>
          fs[i].name in m && ReadsBackAs(fs[i].ty, m[fs[i].name], wm[fs[i].name]) {
        var ws := ZipOf(fs, wm);
        NormFieldsIff(fs, raw.value, ws);
      }
    }
  }

  // ----- the theorem -----

  /** The normal form is exactly what a value reads back as. */
  lemma {:induction false} NormIff(ty: TypeRepr, v: Value, w: Value)
    requires WellNamed(ty)
    ensures Norm(ty, v) == Some(w) <==> ReadsBackAs(ty, v, w)
    decreases Depth(ty), 1
  {
    hide Norm, ReadsBackAs;
    match ty
    case Unit => PlainIff(ty, v, w);
    case Bool => PlainIff(ty, v, w);
    case Int => PlainIff(ty, v, w);
    case Float => PlainIff(ty, v, w);
    case String => PlainIff(ty, v, w);
    case List(e) => ListIff(e, v, w);
    case Schema(s) => RecordIff(s, v, w);
    case Option(_) => OptionIff(ty, v, w);
    case Result(_, _) => ResultIff(ty, v, w);
    case Enum(_, _) => EnumIff(ty, v, w);
    case Closure => PlainIff(ty, v, w);
  }

  lemma PlainIff(ty: TypeRepr, v: Value, w: Value)
    requires ty.Inline?() || ty.String? || ty.Closure?
    ensures Norm(ty, v) == Some(w) <==> ReadsBackAs(ty, v, w)
  {
  }

  lemma {:induction false} ListIff(e: TypeRepr, v: Value, w: Value)
    requires WellNamed(e)
    ensures Norm(TypeRepr.List(e), v) == Some(w) <==> ReadsBackAs(TypeRepr.List(e), v, w)
    decreases 1 + Depth(e), 0
  {
    hide NormItems, WellNamed;
    if v.VList? && w.VList? && |v.items| == |w.items| { NormItemsIff(e, v.items, w.items); }
  }

  lemma {:induction false} RecordIff(s: SchemaRepr, v: Value, w: Value)
    requires WellNamed(TypeRepr.Schema(s))
    ensures Norm(TypeRepr.Schema(s), v) == Some(w) <==> ReadsBackAs(TypeRepr.Schema(s), v, w)
    decreases 1 + FieldsDepth(s.fields), 0
  {
    if s.isTuple { TupleIff(s, v, w); } else { DictRecordIff(s, v, w); }
  }

  lemma {:induction false} TupleIff(s: SchemaRepr, v: Value, w: Value)
    requires s.isTuple && RecordWellNamed(s.fields)
    ensures Norm(TypeRepr.Schema(s), v) == Some(w) <==> ReadsBackAs(TypeRepr.Schema(s), v, w)
    decreases FieldsDepth(s.fields), 4
  {
    hide NormFields, DistinctNames, FieldsWellNamed;
    if v.VTuple? && w.VTuple? && |v.elems| == |w.elems| == |s.fields| {
      NormFieldsIff(s.fields, v.elems, w.elems);
    }
  }

  lemma {:induction false} DictRecordIff(s: SchemaRepr, v: Value, w: Value)
    requires !s.isTuple && RecordWellNamed(s.fields)
    ensures Norm(TypeRepr.Schema(s), v) == Some(w) <==> ReadsBackAs(TypeRepr.Schema(s), v, w)
    decreases FieldsDepth(s.fields), 4
  {
    hide NormFields, Zip, KeysAre, DistinctNames, FieldsWellNamed, FieldValues;
    if v.VDict? && w.VDict? { DictIff(s.fields, v.m, w.m); }
  }

  /** A payload under one key. */
  lemma {:induction false} PayloadIff(inner: TypeRepr, x: Value, key: string, wm: map<string, Value>)
    requires WellNamed(inner)
    ensures (Norm(inner, x).Some? && wm == map[key := Norm(inner, x).value]) <==>
      wm.Keys == {key} && ReadsBackAs(inner, x, wm[key])
    decreases Depth(inner), 2
  {
    hide Norm, ReadsBackAs;
    if Norm(inner, x).Some? { NormIff(inner, x, Norm(inner, x).value); }
    if wm.Keys == {key} {
      NormIff(inner, x, wm[key]);
      assert wm == map[key := wm[key]];
    }
  }

  lemma NormOption(inner: TypeRepr, v: Value)
    ensures var ty := TypeRepr.Option(inner);
      if Branded(v, "Option", "None") then Norm(ty, v) == Some(VDict(map[], Some("None"), Some("Option")))
      else if Branded(v, "Option", "Some") && "value" in v.m then
        var p := Norm(inner, v.m["value"]);
        Norm(ty, v) == if p.None? then None else Some(VDict(map["value" := p.value], Some("Some"), Some("Option")))
      else Norm(ty, v) == None
  {
  }

  lemma {:induction false} OptionIff(ty: TypeRepr, v: Value, w: Value)
    requires WellNamed(ty) && ty.Option?
    ensures Norm(ty, v) == Some(w) <==> ReadsBackAs(ty, v, w)
    decreases Depth(ty), 0
  {
    hide Norm;
    NormOption(ty.inner, v);
    assert WellNamed(ty.inner);
    if Branded(v, "Option", "Some") && "value" in v.m && w.VDict? {
      PayloadIff(ty.inner, v.m["value"], "value", w.m);
    }
  }

  lemma NormResult(ok: TypeRepr, err: TypeRepr, v: Value)
    ensures var ty := TypeRepr.Result(ok, err);
      if Branded(v, "Result", "Ok") && "value" in v.m then
        var p := Norm(ok, v.m["value"]);
        Norm(ty, v) == if p.None? then None else Some(VDict(map["value" := p.value], Some("Ok"), Some("Result")))
      else if Branded(v, "Result", "Err") && "error" in v.m then
        var p := Norm(err, v.m["error"]);
        Norm(ty, v) == if p.None? then None else Some(VDict(map["error" := p.value], Some("Err"), Some("Result")))
      else Norm(ty, v) == None
  {
  }

  lemma {:induction false} ResultIff(ty: TypeRepr, v: Value, w: Value)
    requires WellNamed(ty) && ty.Result?
    ensures Norm(ty, v) == Some(w) <==> ReadsBackAs(ty, v, w)
    decreases Depth(ty), 0
  {
    hide Norm;
    NormResult(ty.ok, ty.err, v);
    assert WellNamed(ty.ok) && WellNamed(ty.err);
    if Branded(v, "Result", "Ok") && "value" in v.m && w.VDict? {
      PayloadIff(ty.ok, v.m["value"], "value", w.m);
    }
    if Branded(v, "Result", "Err") && "error" in v.m && w.VDict? {
      PayloadIff(ty.err, v.m["error"], "error", w.m);
    }
  }

  /** Looking a variant up by name finds the first of that name. */
  lemma {:induction false} VariantNamed(vs: seq<EnumVariant>, name: string)
    ensures match FindVariantByName(vs, name)
      case None => forall k :: 0 <= k < |vs| ==> vs[k].name != name
      case Some(ev) => exists k :: 0 <= k < |vs| && vs[k] == ev && Names(vs, k, Some(name))
    decreases |vs|
  {
    if vs != [] && vs[0].name != name {
      VariantNamed(vs[1..], name);
      if FindVariantByName(vs[1..], name).Some? {
        var k :| 0 <= k < |vs[1..]| && vs[1..][k] == FindVariantByName(vs[1..], name).value
          && Names(vs[1..], k, Some(name));
        assert vs[k + 1] == vs[1..][k];
        forall j | 0 <= j < k + 1 ensures vs[j].name != name {
          if j > 0 { assert vs[j] == vs[1..][j - 1]; }
        }
        assert Names(vs, k + 1, Some(name));
      } else {
        assert forall k :: 0 < k < |vs| ==> vs[k] == vs[1..][k - 1];
      }
    } else if vs != [] {
      assert Names(vs, 0, Some(name));
    }
  }

  /** The variant a name stands for, and its tag, which stands for no other. */
  lemma VariantOf(vs: seq<EnumVariant>, k: nat, name: string)
    requires k < |vs| && Names(vs, k, Some(name)) && DistinctTags(vs)
    ensures FindVariantByName(vs, name) == Some(vs[k]) && FindVariantByTag(vs, vs[k].tag) == Some(vs[k])
  {
    VariantNamed(vs, name);
    FindVariantAt(vs, k);
  }

  lemma NormEnum(name: string, vs: seq<EnumVariant>, k: nat, v: Value)
    requires DistinctTags(vs) && v.VDict? && k < |vs| && Names(vs, k, v.brand)
    ensures var ty, fs := TypeRepr.Enum(name, vs), vs[k].fields;
      if v.variantOf != Some(name) then Norm(ty, v) == None
      else if fs == [] then Norm(ty, v) == if v.m == map[] then Some(VDict(map[], v.brand, Some(name))) else None
      else
        var raw := FieldValues(fs, v.m);
        Norm(ty, v) ==
          if raw.Some? && NormFields(fs, raw.value).Some?
          then Some(VDict(Zip(fs, NormFields(fs, raw.value).value), v.brand, Some(name))) else None
  {
    hide NormFields, Zip, FieldValues, DistinctTags;
    VariantOf(vs, k, vs[k].name);
    if v.variantOf == Some(name) && vs[k].fields != [] {
      var s := PayloadSchema(name, vs[k]).value;
      assert VariantPayloadFor(TypeRepr.Enum(name, vs), v) == Some(Carry(vs[k].tag, TypeRepr.Schema(s), v));
      assert SelectPayload(TypeRepr.Enum(name, vs), vs[k].tag) == Payload(TypeRepr.Schema(s));
      var p := Norm(TypeRepr.Schema(s), v);
      assert Norm(TypeRepr.Enum(name, vs), v) ==
        if p.None? then None else WrapVariant(TypeRepr.Enum(name, vs), vs[k].tag, p.value);
    }
  }

  lemma NormEnumNone(name: string, vs: seq<EnumVariant>, v: Value)
    requires !v.VDict? || v.variantOf != Some(name) || v.brand.None? || forall k :: 0 <= k < |vs| ==>
      vs[k].name != v.brand.value
    ensures Norm(TypeRepr.Enum(name, vs), v) == None
  {
    if v.VDict? && v.brand.Some? { VariantNamed(vs, v.brand.value); }
  }

  lemma {:induction false} EnumIff(ty: TypeRepr, v: Value, w: Value)
    requires WellNamed(ty) && ty.Enum?
    ensures Norm(ty, v) == Some(w) <==> ReadsBackAs(ty, v, w)
    decreases Depth(ty), 0
  {
    hide Norm, NormFields, Zip, FieldValues;
    var name, vs := ty.name, ty.variants;
    if v.VDict? && v.variantOf == Some(name) && v.brand.Some? {
      VariantNamed(vs, v.brand.value);
      if FindVariantByName(vs, v.brand.value).None? {
        NormEnumNone(name, vs, v);
      } else {
        var k :| 0 <= k < |vs| && vs[k] == FindVariantByName(vs, v.brand.value).value && Names(vs, k, v.brand);
        EnumVariantIff(ty, k, v, w);
      }
    } else {
      NormEnumNone(name, vs, v);
    }
  }

  lemma {:induction false} EnumVariantIff(ty: TypeRepr, k: nat, v: Value, w: Value)
    requires WellNamed(ty) && ty.Enum? && k < |ty.variants|
    requires v.VDict? && v.variantOf == Some(ty.name) && Names(ty.variants, k, v.brand)
    ensures Norm(ty, v) == Some(w) <==> ReadsBackAs(ty, v, w)
    decreases Depth(ty), 0, 0
  {
    hide Norm, NormFields, Zip, FieldValues;
    var vs, fs := ty.variants, ty.variants[k].fields;
    NormEnum(ty.name, vs, k, v);
    VariantWellNamed(vs, k);
    if fs != [] { VariantDepth(vs, k); }
    forall j | 0 <= j < |vs| && Names(vs, j, v.brand) ensures j == k {}
    if fs != [] && w.VDict? { DictIff(fs, v.m, w.m); }
  }

  lemma {:induction false} VariantDepth(vs: seq<EnumVariant>, k: nat)
    requires k < |vs| && vs[k].fields != []
    ensures 1 + FieldsDepth(vs[k].fields) <= VariantsDepth(vs)
    decreases k
  {
    if k > 0 { VariantDepth(vs[1..], k - 1); }
  }
}
