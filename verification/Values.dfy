/** Runtime values, the value a write is expected to read back as, and the primitives behind both. */
module Values {
  import opened Bytes
  import opened Wrappers
  import opened Schemas

  // ----- UTF-8 (section 4 of RFC 3629) -----

  predicate Continuation(x: byte) { 0x80 <= x <= 0xBF }

  /** Byte length of the well-formed character at the front of `s`; 0 when there is none. */
  function Utf8Head(s: seq<byte>): (n: nat)
    ensures n <= |s|
  {
    if |s| >= 1 && s[0] <= 0x7F then 1
    else if |s| >= 2 && 0xC2 <= s[0] <= 0xDF && Continuation(s[1]) then 2
    else if |s| >= 3 && Continuation(s[2]) && (
           || (s[0] == 0xE0 && 0xA0 <= s[1] <= 0xBF)
           || (0xE1 <= s[0] <= 0xEC && Continuation(s[1]))
           || (s[0] == 0xED && 0x80 <= s[1] <= 0x9F)
           || (0xEE <= s[0] <= 0xEF && Continuation(s[1]))) then 3
    else if |s| >= 4 && Continuation(s[2]) && Continuation(s[3]) && (
           || (s[0] == 0xF0 && 0x90 <= s[1] <= 0xBF)
           || (0xF1 <= s[0] <= 0xF3 && Continuation(s[1]))
           || (s[0] == 0xF4 && 0x80 <= s[1] <= 0x8F)) then 4
    else 0
  }

  predicate ValidUtf8(s: seq<byte>)
    decreases |s|
  {
    s == [] || (Utf8Head(s) > 0 && ValidUtf8(s[Utf8Head(s)..]))
  }

  type Utf8 = s: seq<byte> | ValidUtf8(s) witness []

  // ----- Int to Float promotion: round to nearest, ties to even -----

  function Log2(n: nat): (e: nat)
    requires n > 0
  {
    if n == 1 then 0 else 1 + Log2(n / 2)
  }

  function Pow2(k: nat): (r: nat)
    ensures r > 0
  {
    if k == 0 then 1 else 2 * Pow2(k - 1)
  }

  /** The significand of `m` scaled to the 53 bits an IEEE-754 double carries. */
  function Significand(m: nat): int
    requires m > 0
  {
    var e := Log2(m);
    if e <= 52 then m * Pow2(52 - e)
    else
      var unit := Pow2(e - 52);
      var q, r := m / unit, m % unit;
      if 2 * r > unit || (2 * r == unit && q % 2 == 1) then q + 1 else q
  }

  /** The bit pattern of the double nearest to `v`: sign, biased exponent and significand, the
      significand's leading bit carrying into the exponent. */
  function F64OfInt(v: i64): u64 {
    if v == 0 then 0
    else
      var n: int := v;
      var m: nat := if n < 0 then -n else n;
      var sign: nat := if v < 0 then 0x8000_0000_0000_0000 else 0;
      (sign + (1022 + Log2(m)) * 0x10_0000_0000_0000 + Significand(m)) % 0x1_0000_0000_0000_0000
  }

  // ----- values -----

  datatype Value =
    | VBool(b: bool)
    | VInt(i: i64)
    | VFloat(bits: u64)
    | VString(s: Utf8)
    | VList(items: seq<Value>)
    | VTuple(elems: seq<Value>)
    | VDict(m: map<string, Value>, brand: Option<string>, variantOf: Option<string>)
    | VOther

  // Lists of plain values.

  function Ints(xs: seq<i64>): (r: seq<Value>)
    ensures |r| == |xs| && forall i :: 0 <= i < |r| ==> r[i] == VInt(xs[i])
  {
    seq(|xs|, i requires 0 <= i < |xs| => VInt(xs[i]))
  }

  function Floats(xs: seq<u64>): (r: seq<Value>)
    ensures |r| == |xs| && forall i :: 0 <= i < |r| ==> r[i] == VFloat(xs[i])
  {
    seq(|xs|, i requires 0 <= i < |xs| => VFloat(xs[i]))
  }

  function Bools(xs: seq<bool>): (r: seq<Value>)
    ensures |r| == |xs| && forall i :: 0 <= i < |r| ==> r[i] == VBool(xs[i])
  {
    seq(|xs|, i requires 0 <= i < |xs| => VBool(xs[i]))
  }

  function Strings(xs: seq<Utf8>): (r: seq<Value>)
    ensures |r| == |xs| && forall i :: 0 <= i < |r| ==> r[i] == VString(xs[i])
  {
    seq(|xs|, i requires 0 <= i < |xs| => VString(xs[i]))
  }

  function OptionNone(): Value {
    VDict(map[], Some("None"), Some("Option"))
  }

  predicate IsOptionNone(v: Value) {
    v.VDict? && v.variantOf == Some("Option") && v.brand == Some("None")
  }

  /** A record's field values keyed by field name; a repeated name keeps the last value. */
  function Zip(fs: seq<Field>, vals: seq<Value>): map<string, Value>
    requires |fs| == |vals|
  {
    if fs == [] then map[] else map[fs[0].name := vals[0]] + Zip(fs[1..], vals[1..])
  }

  /** A record value from its positional field values. */
  function Assemble(s: SchemaRepr, vals: seq<Value>): Value
    requires |vals| == |s.fields|
  {
    if s.isTuple then VTuple(vals) else VDict(Zip(s.fields, vals), Some(s.name), None)
  }

  lemma {:induction false} ZipAt(fs: seq<Field>, raw: seq<Value>, i: nat)
    requires DistinctNames(fs) && |raw| == |fs| && i < |fs|
    ensures fs[i].name in Zip(fs, raw) && Zip(fs, raw)[fs[i].name] == raw[i]
    decreases |fs|
  {
    if i > 0 {
      ZipAt(fs[1..], raw[1..], i - 1);
    } else if fs[0].name in Zip(fs[1..], raw[1..]) {
      ZipKeys(fs[1..], raw[1..], fs[0].name);
      assert false;
    }
  }

  lemma {:induction false} ZipKeys(fs: seq<Field>, raw: seq<Value>, name: string)
    requires |raw| == |fs| && name in Zip(fs, raw)
    ensures exists i :: 0 <= i < |fs| && fs[i].name == name
    decreases |fs|
  {
    if fs[0].name != name {
      ZipKeys(fs[1..], raw[1..], name);
      var i :| 0 <= i < |fs[1..]| && fs[1..][i].name == name;
      assert fs[i + 1].name == name;
    }
  }

  /** Records of one schema with the same value have the same field values. */
  lemma AssembleInjective(s: SchemaRepr, vals: seq<Value>, others: seq<Value>)
    requires DistinctNames(s.fields) && |vals| == |others| == |s.fields|
    ensures Assemble(s, vals) == Assemble(s, others) <==> vals == others
  {
    hide Zip;
    if !s.isTuple && Zip(s.fields, vals) == Zip(s.fields, others) {
      forall i | 0 <= i < |vals|
        ensures vals[i] == others[i]
      {
        ZipAt(s.fields, vals, i);
        ZipAt(s.fields, others, i);
      }
    }
  }

  /** The raw field values a record value supplies, by position. */
  function FieldValues(fs: seq<Field>, m: map<string, Value>): (r: Option<seq<Value>>)
    ensures r.Some? ==> |r.value| == |fs|
  {
    if fs == [] then Some([])
    else if fs[0].name !in m then None
    else
      var rest :- FieldValues(fs[1..], m);
      Some([m[fs[0].name]] + rest)
  }

  function RecordValues(s: SchemaRepr, v: Value): (r: Option<seq<Value>>)
    ensures r.Some? ==> |r.value| == |s.fields|
  {
    if s.isTuple then
      if v.VTuple? && |v.elems| == |s.fields| then Some(v.elems) else None
    else if v.VDict? then FieldValues(s.fields, v.m)
    else None
  }

  /** Tag and payload (type and value) a value marshals to as a variant record. */
  datatype VariantChoice = Bare(tag: byte) | Carry(tag: byte, ty: TypeRepr, value: Value)

  function VariantPayloadFor(ty: TypeRepr, v: Value): (r: Option<VariantChoice>)
    ensures r.Some? && r.value.Carry? ==> Depth(r.value.ty) < Depth(ty)
  {
    if !v.VDict? then None
    else
      match ty
      case Option(inner) =>
        if v.variantOf != Some("Option") then None
        else if v.brand == Some("None") then Some(Bare(0))
        else if v.brand == Some("Some") && "value" in v.m then Some(Carry(1, inner, v.m["value"]))
        else None
      case Result(o, e) =>
        if v.variantOf != Some("Result") then None
        else if v.brand == Some("Ok") && "value" in v.m then Some(Carry(0, o, v.m["value"]))
        else if v.brand == Some("Err") && "error" in v.m then Some(Carry(1, e, v.m["error"]))
        else None
      case Enum(name, vs) =>
        if v.variantOf != Some(name) || v.brand.None? then None
        else
          (match FindVariantByName(vs, v.brand.value)
           case None => None
           case Some(ev) =>
             match PayloadSchema(name, ev)
             case None => if v.m == map[] then Some(Bare(ev.tag)) else None
             case Some(s) => Some(Carry(ev.tag, TypeRepr.Schema(s), v)))
      case _ => None
  }

  /** The variant value a reader builds for a tag without payload. */
  function BareVariant(ty: TypeRepr, tag: byte): Value {
    if ty.Enum? then
      match FindVariantByTag(ty.variants, tag)
      case None => VOther
      case Some(v) => VDict(map[], Some(v.name), Some(ty.name))
    else OptionNone()
  }

  /** The variant value a reader builds around a decoded payload; `None` when the payload shape is wrong. */
  function WrapVariant(ty: TypeRepr, tag: byte, payload: Value): (r: Option<Value>)
    ensures !ty.Enum? && ty.Variant?() ==> r.Some?
  {
    match ty
    case Option(_) => Some(VDict(map["value" := payload], Some("Some"), Some("Option")))
    case Result(_, _) =>
      if tag == 0 then Some(VDict(map["value" := payload], Some("Ok"), Some("Result")))
      else Some(VDict(map["error" := payload], Some("Err"), Some("Result")))
    case Enum(enumName, vs) =>
      (match FindVariantByTag(vs, tag)
       case None => None
       case Some(v) => if payload.VDict? then Some(VDict(payload.m, Some(v.name), Some(enumName))) else None)
    case _ => None
  }

  /** The value `v` is expected to read back as through type `ty`: integers promoted to
      floats where a float is declared, undeclared keys dropped, records branded with their
      schema. `None` when the value does not conform to the type. */
  function Norm(ty: TypeRepr, v: Value): (r: Option<Value>)
    decreases Depth(ty), 1
  {
    match ty
    case Unit => if IsOptionNone(v) then Some(OptionNone()) else None
    case Bool => if v.VBool? then Some(v) else None
    case Int => if v.VInt? then Some(v) else None
    case Float =>
      if v.VFloat? then Some(v)
      else if v.VInt? then Some(VFloat(F64OfInt(v.i)))
      else None
    case String => if v.VString? then Some(v) else None
    case List(e) =>
      if !v.VList? || e.Unit? then None
      else
        var items :- NormItems(e, v.items);
        Some(VList(items))
    case Schema(s) =>
      var raw :- RecordValues(s, v);
      var vals :- NormFields(s.fields, raw);
      Some(Assemble(s, vals))
    case Closure => None
    case _ =>
      var c :- VariantPayloadFor(ty, v);
      NormChoice(ty, c)
  }

  function NormChoice(ty: TypeRepr, c: VariantChoice): (r: Option<Value>)
    requires c.Carry? ==> Depth(c.ty) < Depth(ty)
    decreases Depth(ty), 0
  {
    match SelectPayload(ty, c.tag)
    case BadTag => None
    case NoPayload => Some(BareVariant(ty, c.tag))
    case Payload(_) =>
      if c.Bare? then None
      else
        var p :- Norm(c.ty, c.value);
        WrapVariant(ty, c.tag, p)
  }

  function NormItems(e: TypeRepr, items: seq<Value>): (r: Option<seq<Value>>)
    ensures r.Some? ==> |r.value| == |items|
    decreases Depth(e), 2, |items|
  {
    if items == [] then Some([])
    else
      var head :- Norm(e, items[0]);
      var rest :- NormItems(e, items[1..]);
      Some([head] + rest)
  }

  function NormFields(fs: seq<Field>, raw: seq<Value>): (r: Option<seq<Value>>)
    requires |raw| == |fs|
    ensures r.Some? ==> |r.value| == |fs|
    decreases FieldsDepth(fs), 2, |fs|
  {
    if fs == [] then Some([])
    else
      var head :- Norm(fs[0].ty, raw[0]);
      var rest :- NormFields(fs[1..], raw[1..]);
      Some([head] + rest)
  }

  // ----- inline scalars -----

  /** The bytes an inline slot of type `ty` holds for `v`; a unit slot is left as it is. */
  function ScalarBytes(ty: TypeRepr, v: Value): (r: Option<seq<byte>>)
    ensures r.Some? ==> ty.Scalar?() && |r.value| == if ty.Bool? then 1 else 8
  {
    match ty
    case Int => if v.VInt? then Some(Le(I64Bits(v.i), 8)) else None
    case Float =>
      if v.VFloat? then Some(Le(v.bits, 8))
      else if v.VInt? then Some(Le(F64OfInt(v.i), 8))
      else None
    case Bool => if v.VBool? then Some([if v.b then 1 else 0]) else None
    case _ => None
  }

  /** The value an inline slot holding `data` decodes to. */
  function ScalarValue(ty: TypeRepr, data: seq<byte>): Value
    requires ty.Inline?() && |data| == (if ty.Int? || ty.Float? then 8 else 1)
  {
    match ty
    case Int => VInt(I64OfBits(U64Of(data)))
    case Float => VFloat(U64Of(data))
    case Bool => VBool(data[0] != 0)
    case Unit => OptionNone()
  }

  lemma ScalarRoundTrip(ty: TypeRepr, v: Value)
    requires ScalarBytes(ty, v).Some?
    ensures Norm(ty, v) == Some(ScalarValue(ty, ScalarBytes(ty, v).value))
  {
    match ty
    case Int => U64RoundTrip(I64Bits(v.i));
    case Float => if v.VInt? { U64RoundTrip(F64OfInt(v.i)); } else { U64RoundTrip(v.bits); }
    case Bool =>
  }
}
