/** A write never disturbs what is already there: appends only extend the buffer, and a slot write
    changes its own slot, and only if it succeeds. */
module WriterFrame {
  import opened Bytes
  import opened Schemas
  import opened Layout
  import opened LayoutFacts
  import opened Values
  import opened Writer

  /** Bytes a slot of type `ty` occupies. */
  function SlotWidth(ty: TypeRepr): nat {
    if ty.Inline?() then InlineSize(ty) else 4
  }

  lemma {:induction false} PatchKeeps(b: seq<byte>, at: nat, offs: seq<nat>)
    requires Fit(offs)
    ensures var r := PatchEntries(b, at, offs);
      forall i :: 0 <= i < |b| && !(at <= i < at + 4 * |offs|) ==> r[i] == b[i]
    decreases |offs|
  {
    hide Le, LeVal;
    if offs != [] && at + 4 <= |b| {
      PatchKeeps(PutU32(b, at, offs[0]), at + 4, offs[1..]);
    }
  }

  /** A change past the end of a prefix keeps the prefix. */
  lemma KeepsPrefix(b: seq<byte>, b1: seq<byte>, b2: seq<byte>, lo: nat, hi: nat)
    requires b <= b1 && |b| <= lo && |b1| <= |b2|
    requires forall i :: 0 <= i < |b1| && !(lo <= i < hi) ==> b2[i] == b1[i]
    ensures b <= b2
  {
    assert b2[..|b|] == b;
  }

  /** Appending a value extends the buffer, whether the append succeeds or fails midway. */
  lemma {:induction false} AppendExtends(b: seq<byte>, ty: TypeRepr, v: Value, inList: bool)
    ensures b <= AppendTarget(b, ty, v, inList).bytes
    decreases Depth(ty), 3
  {
    match ty
    case String =>
    case List(e) => if v.VList? { ListExtends(b, e, v.items); }
    case Schema(s) =>
    case Option(_) => VariantExtends(b, ty, v);
    case Result(_, _) => VariantExtends(b, ty, v);
    case Enum(_, _) => VariantExtends(b, ty, v);
    case _ =>
  }

  lemma {:induction false} ListExtends(b: seq<byte>, e: TypeRepr, items: seq<Value>)
    ensures b <= AppendList(b, e, items).bytes
    decreases Depth(e), 9
  {
    hide Le, AppendItems, PatchEntries, ScalarPayload, OffsetsFor, AlignUp;
    if |items| < U32_LIMIT && e.Pointer?() {
      var p := PadTo(b, 4);
      var header := p + Le(|items|, 4) + Zeros(4 * |items|);
      ItemsExtend(header, e, items);
      var r := AppendItems(header, e, items);
      if r.Items? {
        PatchKeeps(r.bytes, |p| + 4, r.offs);
        KeepsPrefix(b, r.bytes, PatchEntries(r.bytes, |p| + 4, r.offs), |p| + 4, |p| + 4 + 4 * |r.offs|);
      }
    }
  }

  lemma {:induction false} ItemsExtend(b: seq<byte>, e: TypeRepr, items: seq<Value>)
    ensures b <= AppendItems(b, e, items).bytes
    decreases Depth(e), 8, |items|
  {
    if items != [] {
      AppendExtends(b, e, items[0], true);
      var r := AppendTarget(b, e, items[0], true);
      if r.Done? {
        ItemsExtend(r.bytes, e, items[1..]);
      }
    }
  }

  lemma {:induction false} VariantExtends(b: seq<byte>, ty: TypeRepr, v: Value)
    ensures b <= AppendVariant(b, ty, v).bytes
    decreases Depth(ty), 2
  {
    hide WritePayload, VariantAlignRuntime, VariantPayloadFor, AlignUp;
    var c := VariantPayloadFor(ty, v);
    if c.Some? && c.value.Carry? {
      var p := PadTo(b, VariantAlignRuntime(ty));
      PayloadExtends(p + [c.value.tag], |p|, c.value.ty, c.value.value);
    }
  }

  /** A payload slot lies past the tag, in bytes the write makes room for. */
  lemma {:induction false} PayloadExtends(b: seq<byte>, at: nat, pty: TypeRepr, v: Value)
    requires |b| == at + 1
    ensures b <= WritePayload(b, at, pty, v).bytes
    decreases Depth(pty), 5
  {
    hide WriteSlot;
    var slot := PayloadSlotOffset(at, pty);
    var grown := GrowTo(b, slot + PayloadSlotRuntime(pty).0);
    SlotExtends(grown, slot, pty, v);
    KeepsPrefix(b, grown, WriteSlot(grown, slot, pty, v).bytes, slot, slot + SlotWidth(pty));
  }

  /** A slot write keeps every byte before the old end except its slot, and keeps those too on failure. */
  lemma {:induction false} SlotExtends(b: seq<byte>, slot: nat, ty: TypeRepr, v: Value)
    ensures var w := WriteSlot(b, slot, ty, v);
      && (forall i :: 0 <= i < |b| && !(slot <= i < slot + SlotWidth(ty)) ==> w.bytes[i] == b[i])
      && (!w.ok ==> b <= w.bytes)
    decreases Depth(ty), 4
  {
    hide Le, LeVal;
    if !ty.Inline?() {
      AppendExtends(b, ty, v, false);
    }
  }
}
