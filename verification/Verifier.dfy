/** The bounds verifier: a type-directed walk that certifies every span a reader will touch. */
module Verifier {
  import opened Bytes
  import opened Wrappers
  import opened Schemas
  import opened Layout
  import opened LayoutFacts

  /** A half-open byte window. */
  datatype Region = Region(start: nat, end: nat) {
    predicate Valid() { start <= end }

    predicate ContainsSpan(off: nat, len: nat) {
      start <= off && off + len <= end
    }
  }

  datatype RegionTag = Const | In | Out | Scratch

  /** The four arena windows in layout order: const data, input, output, scratch. */
  datatype MultiRegion = MultiRegion(constData: Region, input: Region, output: Region, scratch: Region) {
    predicate Valid() {
      constData.Valid() && input.Valid() && output.Valid() && scratch.Valid()
    }

    function MaxEnd(): nat {
      Max(Max(constData.end, input.end), Max(output.end, scratch.end))
    }

    function RegionOf(tag: RegionTag): Region {
      match tag
      case Const => constData
      case In => input
      case Out => output
      case Scratch => scratch
    }

    /** The first window that contains the whole span. */
    function ClassifySpan(off: nat, len: nat): (r: Option<RegionTag>)
    {
      if constData.ContainsSpan(off, len) then Some(Const)
      else if input.ContainsSpan(off, len) then Some(In)
      else if output.ContainsSpan(off, len) then Some(Out)
      else if scratch.ContainsSpan(off, len) then Some(Scratch)
      else None
    }
  }

  datatype Bounds = Single(region: Region) | Multi(multi: MultiRegion) {
    function RequiredLen(): nat {
      if Single? then region.end else multi.MaxEnd()
    }

    predicate AllowsSpan(off: nat, len: nat) {
      if Single? then region.ContainsSpan(off, len) else multi.ClassifySpan(off, len).Some?
    }
  }

  const MAX_DEPTH: nat := 64

  /** What a verifier walk carries: the bytes cover the bounds. */
  predicate Covers(b: seq<byte>, bounds: Bounds) {
    bounds.RequiredLen() <= |b|
  }

  lemma AllowedInRange(b: seq<byte>, bounds: Bounds, off: nat, len: nat)
    requires Covers(b, bounds) && bounds.AllowsSpan(off, len)
    ensures off + len <= |b|
  {
  }

  function VerifiedU32(b: seq<byte>, off: nat, bounds: Bounds): Option<nat>
    requires Covers(b, bounds)
  {
    if bounds.AllowsSpan(off, 4) then
      AllowedInRange(b, bounds, off, 4);
      Some(U32At(b, off))
    else None
  }

  /** The element layout of a list type, recomputed from the type. */
  function ListKind(ty: TypeRepr): Option<ListElementKind> {
    if !ty.List? then None
    else
      match FieldDecision(ty)
      case None => None
      case Some(d) => d.listElement
  }

  /** Entry point for a record. */
  predicate VerifyRecord(b: seq<byte>, fs: seq<Field>, t: OffsetTable, base: nat, bounds: Bounds) {
    Covers(b, bounds) && VerifyRecordInner(b, fs, t, base, bounds, 0)
  }

  /** Entry point for a bare value reached at `root`. */
  predicate VerifyValueAt(
    b: seq<byte>, ty: TypeRepr, kind: Option<ListElementKind>, root: nat, bounds: Bounds)
  {
    Covers(b, bounds) && VerifyTarget(b, ty, kind, root, bounds, 0)
  }

  predicate VerifyRecordInner(
    b: seq<byte>, fs: seq<Field>, t: OffsetTable, base: nat, bounds: Bounds, depth: nat)
    requires Covers(b, bounds)
    decreases FieldsDepth(fs), 9
  {
    && depth < MAX_DEPTH
    && bounds.AllowsSpan(base, t.rootSize)
    && VerifySlots(b, fs, t.fields, base, bounds, depth)
  }

  predicate VerifySlots(
    b: seq<byte>, fs: seq<Field>, fos: seq<FieldOffset>, base: nat, bounds: Bounds, depth: nat)
    requires Covers(b, bounds)
    decreases FieldsDepth(fs), 8, |fos|
  {
    fos != [] ==>
      && bounds.AllowsSpan(base + fos[0].offset, fos[0].size)
      && (fos[0].kind.PointerIndirect? ==>
            && var f := FindField(fs, fos[0].name);
            && f.Some?
            && var p := VerifiedU32(b, base + fos[0].offset, bounds);
            && p.Some?
            && VerifyTarget(b, f.value.ty, fos[0].listElement, p.value, bounds, depth))
      && VerifySlots(b, fs, fos[1..], base, bounds, depth)
  }

  predicate VerifyTarget(
    b: seq<byte>, ty: TypeRepr, kind: Option<ListElementKind>, p: nat, bounds: Bounds, depth: nat)
    requires Covers(b, bounds)
    decreases Depth(ty), 3
  {
    match ty
    case String =>
      var len := VerifiedU32(b, p, bounds);
      len.Some? && bounds.AllowsSpan(p + 4, len.value)
    case Schema(s) =>
      var t := OffsetsFor(s.fields);
      t.Some? && VerifyRecordInner(b, s.fields, t.value, p, bounds, depth + 1)
    case List(e) => VerifyList(b, e, kind, p, bounds, depth)
    case Option(_) => VerifyVariant(b, ty, p, bounds, depth)
    case Result(_, _) => VerifyVariant(b, ty, p, bounds, depth)
    case Enum(_, _) => VerifyVariant(b, ty, p, bounds, depth)
    case _ => false
  }

  predicate VerifyList(
    b: seq<byte>, e: TypeRepr, kind: Option<ListElementKind>, p: nat, bounds: Bounds, depth: nat)
    requires Covers(b, bounds)
    decreases Depth(e), 6
  {
    var n := VerifiedU32(b, p, bounds);
    n.Some? &&
    match kind
    case Some(InlineFixed(size, align)) =>
      bounds.AllowsSpan(AlignUp(p + 4, align), Times(n.value, size))
    case Some(PointerArray(_)) => VerifyEntries(b, e, p + 4, n.value, bounds, depth)
    case None => false
  }

  predicate VerifyEntries(b: seq<byte>, e: TypeRepr, off: nat, n: nat, bounds: Bounds, depth: nat)
    requires Covers(b, bounds)
    decreases Depth(e), 5, n
  {
    n > 0 ==>
      && var p := VerifiedU32(b, off, bounds);
      && p.Some?
      && VerifyTarget(b, e, ListKind(e), p.value, bounds, depth + 1)
      && VerifyEntries(b, e, off + 4, n - 1, bounds, depth)
  }

  predicate VerifyVariant(b: seq<byte>, ty: TypeRepr, p: nat, bounds: Bounds, depth: nat)
    requires Covers(b, bounds)
    decreases Depth(ty), 2
  {
    depth < MAX_DEPTH &&
    bounds.AllowsSpan(p, 1) &&
    (AllowedInRange(b, bounds, p, 1);
     match SelectPayload(ty, b[p])
     case BadTag => false
     case NoPayload => true
     case Payload(pty) =>
       var slot := PayloadSlotOffset(p, pty);
       && bounds.AllowsSpan(slot, PayloadSlotRuntime(pty).0)
       && !pty.Closure?
       && (pty.Pointer?() ==>
             && var q := VerifiedU32(b, slot, bounds);
             && q.Some?
             && VerifyTarget(b, pty, ListKind(pty), q.value, bounds, depth + 1)))
  }
}
