/** What writing a value does to a builder's bytes, as functions of the bytes before.

    Every function gives the bytes after a failed write too: a failure leaves behind whatever
    had been appended, with no slot patched. */
module Writer {
  import opened Bytes
  import opened Wrappers
  import opened Schemas
  import opened Layout
  import opened LayoutFacts
  import opened Values
  import opened Reader
  import opened Relocation

  /** A slot write. */
  datatype Wrote = Wrote(ok: bool, bytes: seq<byte>)

  /** A tail append: where the new record starts, if the append succeeded. */
  datatype Appended = Done(bytes: seq<byte>, off: nat) | Failed(bytes: seq<byte>)

  /** A run of list elements: the offsets of their records. */
  datatype AppendedItems = Items(bytes: seq<byte>, offs: seq<nat>) | ItemsFailed(bytes: seq<byte>)

  function PadTo(b: seq<byte>, a: Alignment): (r: seq<byte>)
    ensures |r| == AlignUp(|b|, a) && b <= r
  {
    b + Zeros(AlignUp(|b|, a) - |b|)
  }

  function GrowTo(b: seq<byte>, n: nat): (r: seq<byte>)
    ensures |r| == Max(|b|, n) && b <= r
  {
    if |b| < n then b + Zeros(n - |b|) else b
  }

  /** `[len: u32][payload]`, the length cast to 32 bits. */
  function AppendTailRecord(b: seq<byte>, len: nat, payload: seq<byte>): (r: Appended)
    ensures r.Done? && |b| <= |r.bytes|
  {
    var p := PadTo(b, 4);
    Done(p + Le(len, 4) + payload, |p|)
  }

  /** `[len: u32][pad][payload]` with the payload on its own alignment. */
  function AppendTailRecordAligned(b: seq<byte>, inner: Alignment, len: nat, payload: seq<byte>): (r: Appended)
    ensures r.Done? && |b| <= |r.bytes|
  {
    var p := PadTo(b, 4);
    Done(PadTo(p + Le(len, 4), inner) + payload, |p|)
  }

  function ScalarPayload(e: TypeRepr, items: seq<Value>): (r: Option<seq<byte>>)
    requires e.Scalar?()
    ensures r.Some? ==> |r.value| == ElemsSize(e, |items|)
  {
    if items == [] then Some([])
    else
      var head :- ScalarBytes(e, items[0]);
      var rest :- ScalarPayload(e, items[1..]);
      Some(head + rest)
  }

  /** Writes the pointer to a freshly appended record into its slot; an offset past `u32` is an error. */
  function WritePointer(r: Appended, slot: nat): (w: Wrote)
    ensures |w.bytes| == |r.bytes|
  {
    if r.Failed? then Wrote(false, r.bytes)
    else if r.off >= U32_LIMIT || slot + 4 > |r.bytes| then Wrote(false, r.bytes)
    else Wrote(true, PutU32(r.bytes, slot, r.off))
  }

  /** Writes `v` into the slot of type `ty` at `slot`. */
  function WriteSlot(b: seq<byte>, slot: nat, ty: TypeRepr, v: Value): (w: Wrote)
    ensures |b| <= |w.bytes|
    decreases Depth(ty), 4
  {
    if ty.Scalar?() then
      match ScalarBytes(ty, v)
      case None => Wrote(false, b)
      case Some(data) =>
        if slot + |data| > |b| then Wrote(false, b) else Wrote(true, Put(b, slot, data))
    else if ty.Unit? then Wrote(IsOptionNone(v), b)
    else WritePointer(AppendTarget(b, ty, v, false), slot)
  }

  /** Appends the tail record of a pointer-indirect value. Only list elements have their string
      length checked against `u32`. */
  function AppendTarget(b: seq<byte>, ty: TypeRepr, v: Value, inList: bool): (r: Appended)
    ensures |b| <= |r.bytes|
    decreases Depth(ty), 3
  {
    match ty
    case String =>
      if !v.VString? || (inList && |v.s| >= U32_LIMIT) then Failed(b)
      else AppendTailRecord(b, |v.s|, v.s)
    case List(e) => if v.VList? then AppendList(b, e, v.items) else Failed(b)
    case Schema(s) => AppendRecord(b, s, v)
    case Option(_) => AppendVariant(b, ty, v)
    case Result(_, _) => AppendVariant(b, ty, v)
    case Enum(_, _) => AppendVariant(b, ty, v)
    case _ => Failed(b)
  }

  function PayloadAlign(e: TypeRepr): Alignment
    requires e.Scalar?()
  {
    if e.Bool? then 4 else 8
  }

  function AppendList(b: seq<byte>, e: TypeRepr, items: seq<Value>): (r: Appended)
    ensures |b| <= |r.bytes|
    decreases Depth(e), 9
  {
    if |items| >= U32_LIMIT then Failed(b)
    else if e.Scalar?() then
      match ScalarPayload(e, items)
      case None => Failed(b)
      case Some(payload) => AppendTailRecordAligned(b, PayloadAlign(e), |items|, payload)
    else if !e.Pointer?() || (e.Schema? && OffsetsFor(e.schema.fields).None?) then Failed(b)
    else
      var p := PadTo(b, 4);
      match AppendItems(p + Le(|items|, 4) + Zeros(4 * |items|), e, items)
      case ItemsFailed(bytes) => Failed(bytes)
      case Items(bytes, offs) => Done(PatchEntries(bytes, |p| + 4, offs), |p|)
  }

  predicate Fit(offs: seq<nat>) {
    forall i :: 0 <= i < |offs| ==> offs[i] < U32_LIMIT
  }

  /** Appends the records of the elements one after the other. */
  function AppendItems(b: seq<byte>, e: TypeRepr, items: seq<Value>): (r: AppendedItems)
    ensures |b| <= |r.bytes|
    ensures r.Items? ==> |r.offs| == |items| && Fit(r.offs)
    decreases Depth(e), 8, |items|
  {
    if items == [] then Items(b, [])
    else
      match AppendTarget(b, e, items[0], true)
      case Failed(bytes) => ItemsFailed(bytes)
      case Done(bytes, off) =>
        if off >= U32_LIMIT then ItemsFailed(bytes)
        else
          match AppendItems(bytes, e, items[1..])
          case ItemsFailed(bytes') => ItemsFailed(bytes')
          case Items(bytes', offs) => Items(bytes', [off] + offs)
  }

  /** Back-patches the entry slots of a list header. */
  function PatchEntries(b: seq<byte>, at: nat, offs: seq<nat>): (r: seq<byte>)
    requires Fit(offs)
    ensures |r| == |b|
    decreases |offs|
  {
    if offs == [] || at + 4 > |b| then b
    else PatchEntries(PutU32(b, at, offs[0]), at + 4, offs[1..])
  }

  /** Builds the record in a detached buffer, rebases it and pastes it. */
  function AppendRecord(b: seq<byte>, s: SchemaRepr, v: Value): (r: Appended)
    ensures |b| <= |r.bytes|
    decreases 1 + FieldsDepth(s.fields), 2
  {
    match OffsetsFor(s.fields)
    case None => Failed(b)
    case Some(t) =>
      match BuildRecord(t, s, v)
      case None => Failed(b)
      case Some(child) => PasteAt(b, SchemaPasteAlign(t, s.fields), t, s.fields, child)
  }

  /** Pads to `align`, relocates the child there and appends it. */
  function PasteAt(b: seq<byte>, align: Alignment, t: OffsetTable, fs: seq<Field>, child: seq<byte>): (r: Appended)
    ensures |b| <= |r.bytes|
  {
    var p := PadTo(b, align);
    if |p| >= U32_LIMIT then Failed(p)
    else
      match RelocPointers(child, BuildSlots(t.fields, fs), 0, |p|)
      case None => Failed(p)
      case Some(moved) => Done(p + moved, |p|)
  }

  /** A detached record: the zeroed fixed area with every field written in order. */
  function BuildRecord(t: OffsetTable, s: SchemaRepr, v: Value): (r: Option<seq<byte>>)
    decreases FieldsDepth(s.fields), 7
  {
    var raw :- RecordValues(s, v);
    WriteFields(Zeros(t.rootSize), t, s.fields, raw)
  }

  function WriteFields(b: seq<byte>, t: OffsetTable, fs: seq<Field>, raw: seq<Value>): (r: Option<seq<byte>>)
    requires |raw| == |fs|
    decreases FieldsDepth(fs), 6, |fs|
  {
    if fs == [] then Some(b)
    else
      var fo :- FindOffset(t.fields, fs[0].name);
      var w := WriteSlot(b, fo.offset, fs[0].ty, raw[0]);
      if w.ok then WriteFields(w.bytes, t, fs[1..], raw[1..]) else None
  }

  function AppendVariant(b: seq<byte>, ty: TypeRepr, v: Value): (r: Appended)
    ensures |b| <= |r.bytes|
    decreases Depth(ty), 2
  {
    match VariantPayloadFor(ty, v)
    case None => Failed(b)
    case Some(c) =>
      var p := PadTo(b, VariantAlignRuntime(ty));
      var tagged := p + [c.tag];
      if c.Bare? then Done(tagged, |p|)
      else
        var w := WritePayload(tagged, |p|, c.ty, c.value);
        if w.ok then Done(w.bytes, |p|) else Failed(w.bytes)
  }

  /** Makes room for the payload slot of the variant record at `at` and writes it. */
  function WritePayload(b: seq<byte>, at: nat, pty: TypeRepr, v: Value): (w: Wrote)
    ensures |b| <= |w.bytes|
    decreases Depth(pty), 5
  {
    var slot := PayloadSlotOffset(at, pty);
    WriteSlot(GrowTo(b, slot + PayloadSlotRuntime(pty).0), slot, pty, v)
  }
}
