/** Decoding by type from absolute offsets. */
module Reader {
  import opened Bytes
  import opened Wrappers
  import opened Schemas
  import opened Layout
  import opened LayoutFacts
  import opened Values

  datatype ReadError = Malformed | InvalidUtf8 | Unsupported

  type Read<T> = Result<T, ReadError>

  /** One decoded element in front of the rest; the first failure wins. */
  function Cons<T>(head: Read<T>, rest: Read<seq<T>>): (r: Read<seq<T>>)
    ensures r.Ok? <==> head.Ok? && rest.Ok?
    ensures r.Ok? ==> r.value == [head.value] + rest.value
  {
    if head.Err? then Err(head.error)
    else if rest.Err? then rest
    else Ok([head.value] + rest.value)
  }

  function SlotPointer(b: seq<byte>, off: nat): Read<nat> {
    if off + 4 > |b| then Err(Malformed) else Ok(U32At(b, off))
  }

  /** A `[len: u32][utf8]` record. */
  function StringAt(b: seq<byte>, p: nat): Read<Value> {
    var len :- SlotPointer(b, p);
    if p + 4 + len > |b| then Err(Malformed)
    else if !ValidUtf8(b[p + 4..p + 4 + len]) then Err(InvalidUtf8)
    else Ok(VString(b[p + 4..p + 4 + len]))
  }

  function ElemSize(e: TypeRepr): nat
    requires e.Scalar?()
  {
    if e.Bool? then 1 else 8
  }

  function ElemAlign(e: TypeRepr): Alignment
    requires e.Scalar?()
  {
    if e.Bool? then 1 else 8
  }

  /** Byte length of `n` inline elements. */
  function ElemsSize(e: TypeRepr, n: nat): nat
    requires e.Scalar?()
  {
    if e.Bool? then n else 8 * n
  }

  /** The values of `n` consecutive inline elements starting at `off`. */
  function ScalarsAt(b: seq<byte>, off: nat, n: nat, e: TypeRepr): (r: seq<Value>)
    requires e.Scalar?() && off + ElemsSize(e, n) <= |b|
    ensures |r| == n
    decreases n
  {
    if n == 0 then []
    else
      [ScalarValue(e, b[off..off + ElemSize(e)])] + ScalarsAt(b, off + ElemSize(e), n - 1, e)
  }

  /** A `[len][pad][payload]` list of inline scalars. */
  function ScalarListAt(b: seq<byte>, header: nat, e: TypeRepr): Read<seq<Value>>
    requires e.Scalar?()
  {
    var n :- SlotPointer(b, header);
    var start := AlignUp(header + 4, ElemAlign(e));
    if start + ElemsSize(e, n) > |b| then Err(Malformed)
    else Ok(ScalarsAt(b, start, n, e))
  }

  /** The slot of a field: inline scalars in place, everything else behind a pointer. */
  function FieldAt(b: seq<byte>, slot: nat, ty: TypeRepr): Read<Value>
    decreases Depth(ty), 4
  {
    if ty.Unit? then Ok(OptionNone())
    else if ty.Inline?() then
      if slot + InlineSize(ty) > |b| then Err(Malformed)
      else Ok(ScalarValue(ty, b[slot..slot + InlineSize(ty)]))
    else if ty.Closure? then Err(Unsupported)
    else if ty.Schema? && OffsetsFor(ty.schema.fields).None? then Err(Malformed)
    else
      var p :- SlotPointer(b, slot);
      TargetAt(b, p, ty)
  }

  /** The tail record of a pointer-indirect type at `p`. */
  function TargetAt(b: seq<byte>, p: nat, ty: TypeRepr): Read<Value>
    decreases Depth(ty), 3
  {
    match ty
    case String => StringAt(b, p)
    case List(e) =>
      var items :- ListAt(b, p, e);
      Ok(VList(items))
    case Schema(s) => RecordAt(b, p, s)
    case Option(_) => VariantAt(b, p, ty)
    case Result(_, _) => VariantAt(b, p, ty)
    case Enum(_, _) => VariantAt(b, p, ty)
    case _ => Err(Unsupported)
  }

  /** A list whose header sits at `header`. */
  function ListAt(b: seq<byte>, header: nat, e: TypeRepr): Read<seq<Value>>
    decreases Depth(e), 9
  {
    if e.Scalar?() then ScalarListAt(b, header, e)
    else if e.Unit? || e.Closure? then Err(Unsupported)
    else if e.Schema? && OffsetsFor(e.schema.fields).None? then Err(Malformed)
    else
      var n :- SlotPointer(b, header);
      if header + 4 + 4 * n > |b| then Err(Malformed)
      else EntriesAt(b, header + 4, n, e)
  }

  /** The elements behind `n` consecutive entry pointers starting at `off`. */
  function EntriesAt(b: seq<byte>, off: nat, n: nat, e: TypeRepr): (r: Read<seq<Value>>)
    ensures r.Ok? ==> |r.value| == n
    decreases Depth(e), 8, n
  {
    if n == 0 then Ok([])
    else
      var p :- SlotPointer(b, off);
      Cons(ElementAt(b, p, e), EntriesAt(b, off + 4, n - 1, e))
  }

  /** One list element; a record element must fit the buffer before any of its slots is read. */
  function ElementAt(b: seq<byte>, p: nat, e: TypeRepr): Read<Value>
    decreases Depth(e), 7
  {
    if e.Schema? then
      match OffsetsFor(e.schema.fields)
      case None => Err(Malformed)
      case Some(t) => if p + t.rootSize > |b| then Err(Malformed) else TargetAt(b, p, e)
    else TargetAt(b, p, e)
  }

  /** A record whose fixed area sits at `base`. */
  function RecordAt(b: seq<byte>, base: nat, s: SchemaRepr): Read<Value>
    decreases 1 + FieldsDepth(s.fields), 2
  {
    match OffsetsFor(s.fields)
    case None => Err(Malformed)
    case Some(t) =>
      var vals :- SlotsAt(b, base, t, s.fields);
      Ok(Assemble(s, vals))
  }

  /** The values of the fields `fs`, each at the slot its name has in `t`. */
  function SlotsAt(b: seq<byte>, base: nat, t: OffsetTable, fs: seq<Field>): (r: Read<seq<Value>>)
    ensures r.Ok? ==> |r.value| == |fs|
    decreases FieldsDepth(fs), 5, |fs|
  {
    if fs == [] then Ok([])
    else
      match FindOffset(t.fields, fs[0].name)
      case None => Err(Malformed)
      case Some(fo) =>
        Cons(FieldAt(b, base + fo.offset, fs[0].ty), SlotsAt(b, base, t, fs[1..]))
  }

  lemma SlotsAtStep(b: seq<byte>, base: nat, t: OffsetTable, fs: seq<Field>, k: nat)
    requires k < |fs| && FindOffset(t.fields, fs[k].name).Some?
    ensures SlotsAt(b, base, t, fs[k..]) ==
      Cons(FieldAt(b, base + FindOffset(t.fields, fs[k].name).value.offset, fs[k].ty), SlotsAt(b, base, t, fs[k + 1..]))
  {
    assert fs[k..][1..] == fs[k + 1..];
  }

  /** A tagged variant record at `p`. */
  function VariantAt(b: seq<byte>, p: nat, ty: TypeRepr): Read<Value>
    decreases Depth(ty), 2
  {
    if p + 1 > |b| then Err(Malformed)
    else
      match SelectPayload(ty, b[p])
      case BadTag => Err(Malformed)
      case NoPayload => Ok(BareVariant(ty, b[p]))
      case Payload(pty) =>
        var v :- FieldAt(b, PayloadSlotOffset(p, pty), pty);
        match WrapVariant(ty, b[p], v)
        case None => Err(Malformed)
        case Some(w) => Ok(w)
  }
}
