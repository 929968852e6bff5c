/**
 * `Descriptor` of mitosis/src/descriptors.rs, the flat process descriptor a
 * parent publishes. Layout:
 *
 *   | RegDescriptor | FlatPageTable | VMA count (usize) | each VMA | RDMADescriptor |
 */
module Descriptors {
  import opened Wrappers
  import opened Bytes
  import opened Seqs
  import opened Components

  datatype Descriptor = Descriptor(
    regs: RegDescriptor,
    page_table: FlatPageTable,
    vma: seq<VMADescriptor>,
    machine_info: RDMADescriptor)

  /** Every `Vec` length is a usize. */
  predicate WellSized(d: Descriptor)
  {
    |d.page_table.entries| < U64_LIMIT && |d.vma| < U64_LIMIT
  }

  /** The layout `serialize` writes. */
  function Encode(d: Descriptor): (b: seq<byte>)
    requires WellSized(d)
    ensures |b| == SerializationBufLen(d)
  {
    EncodeReg(d.regs) + EncodeFlat(d.page_table) + EncodeVmaList(d.vma) + EncodeRdma(d.machine_info)
  }

  /** `serialization_buf_len`: the components' lengths, the VMA count and each VMA's fixed size. */
  function SerializationBufLen(d: Descriptor): nat
  {
    REG_SIZE + FlatLen(d.page_table) + USIZE_SIZE + |d.vma| * VMA_SIZE + RDMA_SIZE
  }

  /** What `deserialize` returns: each component in layout order, None as soon as one fails. */
  function Decode(b: seq<byte>): (r: Option<Descriptor>)
  {
    match DecodeReg(b)
    case None => None
    case Some(regs) =>
      var b1 := b[REG_SIZE..];
      match DecodeFlat(b1)
      case None => None
      case Some(pt) =>
        var b2 := b1[FlatLen(pt)..];
        match DecodeVmaList(b2)
        case None => None
        case Some((vmas, used)) =>
          match DecodeRdma(b2[used..])
          case None => None
          case Some(info) => Some(Descriptor(regs, pt, vmas, info))
  }

  /** `deserialize(serialize(d))` reproduces `d`, whatever follows it in the buffer. */
  lemma RoundTrip(d: Descriptor, rest: seq<byte>)
    requires WellSized(d)
    ensures Decode(Encode(d) + rest) == Some(d)
  {
    var flat := EncodeFlat(d.page_table);
    var vmas := EncodeVmaList(d.vma);
    var info := EncodeRdma(d.machine_info);
    var tail3 := info + rest;
    var tail2 := vmas + tail3;
    var tail1 := flat + tail2;
    assert Encode(d) + rest == EncodeReg(d.regs) + tail1 by {
      AppendAssoc(EncodeReg(d.regs) + flat + vmas, info, rest);
      AppendAssoc(EncodeReg(d.regs) + flat, vmas, tail3);
      AppendAssoc(EncodeReg(d.regs), flat, tail2);
    }
    RegRoundTrip(d.regs, tail1);
    DropPrefix(EncodeReg(d.regs), tail1);
    FlatRoundTrip(d.page_table, tail2);
    DropPrefix(flat, tail2);
    VmaListRoundTrip(d.vma, tail3);
    DropPrefix(vmas, tail3);
    RdmaRoundTrip(d.machine_info, rest);
  }

  /** A buffer too short for the registers, the page table, the VMAs or the machine info decodes to None. */
  lemma DecodeNeedsWholeLayout(b: seq<byte>)
    requires Decode(b).Some?
    ensures SerializationBufLen(Decode(b).value) <= |b|
  {
  }

  /** `lookup_pg_table`: the page table's translation of `virt`, if any. */
  function LookupPgTable(d: Descriptor, virt: u64): (r: Option<u64>)
    ensures r.Some? <==> exists i :: 0 <= i < |d.page_table.entries| && d.page_table.entries[i].virt == virt
  {
    Translate(d.page_table, virt)
  }

  /**
   * `serialize`: refuses (and writes nothing) when the window from `at` is
   * shorter than `serialization_buf_len`; otherwise writes the layout.
   */
  method Serialize(d: Descriptor, buf: array<byte>, at: nat) returns (ok: bool)
    requires WellSized(d) && at <= buf.Length
    modifies buf
    ensures ok <==> at + SerializationBufLen(d) <= buf.Length
    ensures ok ==> buf[at..at + SerializationBufLen(d)] == Encode(d)
    ensures ok ==> forall k :: 0 <= k < buf.Length && !(at <= k < at + SerializationBufLen(d)) ==> buf[k] == old(buf[k])
    ensures !ok ==> buf[..] == old(buf[..])
  {
    if buf.Length - at < SerializationBufLen(d) {
      return false;
    }
    WriteLayout(buf, at, EncodeReg(d.regs), EncodeFlat(d.page_table), d.vma, EncodeRdma(d.machine_info));
    ok := true;
  }

  /** The writes of `serialize` in layout order, each at the cursor the previous one left. */
  method WriteLayout(buf: array<byte>, at: nat, regs: seq<byte>, flat: seq<byte>, vma: seq<VMADescriptor>, info: seq<byte>)
    requires |vma| < U64_LIMIT
    requires at + |regs| + |flat| + |EncodeVmaList(vma)| + |info| <= buf.Length
    modifies buf
    ensures buf[at..at + |regs| + |flat| + |EncodeVmaList(vma)| + |info|] == regs + flat + EncodeVmaList(vma) + info
    ensures forall k :: 0 <= k < buf.Length && !(at <= k < at + |regs| + |flat| + |EncodeVmaList(vma)| + |info|) ==> buf[k] == old(buf[k])
  {
    WriteBytes(buf, at, regs);
    var cur := at + |regs|;
    Append(buf, at, cur, flat);
    cur := cur + |flat|;
    WriteVmaList(vma, buf, at, cur);
    cur := cur + |EncodeVmaList(vma)|;
    assert buf[at..cur] == regs + flat + EncodeVmaList(vma);
    Append(buf, at, cur, info);
  }

  /** `deserialize`: steps a cursor over the components in layout order. */
  method Deserialize(bytes: seq<byte>) returns (r: Option<Descriptor>)
    ensures r == Decode(bytes)
  {
    var cur := bytes;
    var regs := DecodeReg(cur);
    if regs.None? {
      return None;
    }
    cur := cur[REG_SIZE..];
    var pt := DecodeFlat(cur);
    if pt.None? {
      return None;
    }
    cur := cur[FlatLen(pt.value)..];
    var vmas := ReadVmaList(cur);
    if vmas.None? {
      return None;
    }
    cur := cur[vmas.value.1..];
    var info := DecodeRdma(cur);
    if info.None? {
      return None;
    }
    r := Some(Descriptor(regs.value, pt.value, vmas.value.0, info.value));
  }
}
