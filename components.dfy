/**
 * The sub-descriptors that Descriptor, FastDescriptor and ChildDescriptor are
 * built from. Their own source files (reg.rs, vma.rs, rdma.rs, page_table.rs)
 * are not part of this model, so each is a stand-in with the interface the
 * core relies on: a serialise/deserialise pair, a serialised length, and
 * (for VMADescriptor) `get_start`. RegDescriptor, VMADescriptor and
 * RDMADescriptor have a fixed serialised length; FlatPageTable is a count
 * followed by its (virtual, physical) pairs.
 */
module Components {
  import opened Wrappers
  import opened Bytes
  import opened Seqs

  /** Stand-in sizes of the fixed-length components, in bytes. */
  const REG_SIZE: nat := 168
  const VMA_REST_SIZE: nat := 24
  const VMA_SIZE: nat := 32
  const RDMA_SIZE: nat := 64

  type RegBytes = s: seq<byte> | |s| == REG_SIZE witness seq(REG_SIZE, _ => 0)
  type VmaRest = s: seq<byte> | |s| == VMA_REST_SIZE witness seq(VMA_REST_SIZE, _ => 0)
  type RdmaBytes = s: seq<byte> | |s| == RDMA_SIZE witness seq(RDMA_SIZE, _ => 0)

  /** The saved registers of a process. */
  datatype RegDescriptor = RegDescriptor(raw: RegBytes)

  /** One memory area: its start address and the rest of its fixed-size record. */
  datatype VMADescriptor = VMADescriptor(start: u64, rest: VmaRest) {
    function GetStart(): u64 { start }
  }

  /** Where the parent's memory can be read over RDMA. */
  datatype RDMADescriptor = RDMADescriptor(raw: RdmaBytes)

  /** One virtual-to-physical translation of a flat page table. */
  datatype Mapping = Mapping(virt: u64, phys: u64)

  /** The flat page table: translations in the order they were added. */
  datatype FlatPageTable = FlatPageTable(entries: seq<Mapping>)

  // ---- RegDescriptor ----

  function EncodeReg(r: RegDescriptor): (b: seq<byte>)
    ensures |b| == REG_SIZE
  {
    r.raw
  }

  function DecodeReg(b: seq<byte>): (r: Option<RegDescriptor>)
    ensures r.Some? <==> |b| >= REG_SIZE
    ensures r.Some? ==> EncodeReg(r.value) == b[..REG_SIZE]
  {
    if |b| >= REG_SIZE then Some(RegDescriptor(b[..REG_SIZE])) else None
  }

  lemma RegRoundTrip(r: RegDescriptor, rest: seq<byte>)
    ensures DecodeReg(EncodeReg(r) + rest) == Some(r)
  {
    assert (EncodeReg(r) + rest)[..REG_SIZE] == r.raw;
  }

  // ---- VMADescriptor ----

  function EncodeVma(v: VMADescriptor): (b: seq<byte>)
    ensures |b| == VMA_SIZE
  {
    U64Bytes(v.start) + v.rest
  }

  function DecodeVma(b: seq<byte>): (r: Option<VMADescriptor>)
    ensures r.Some? <==> |b| >= VMA_SIZE
  {
    if |b| >= VMA_SIZE then Some(VMADescriptor(ReadU64(b), b[U64_SIZE..VMA_SIZE])) else None
  }

  lemma VmaRoundTrip(v: VMADescriptor, rest: seq<byte>)
    ensures DecodeVma(EncodeVma(v) + rest) == Some(v)
  {
    var b := EncodeVma(v) + rest;
    assert b == U64Bytes(v.start) + (v.rest + rest);
    ReadU64Bytes(v.start, v.rest + rest);
    assert b[U64_SIZE..VMA_SIZE] == v.rest;
  }

  // ---- a usize count followed by that many VMADescriptors ----

  function VmaBytes(vs: seq<VMADescriptor>): (b: seq<byte>)
    ensures |b| == 32 * |vs|
  {
    if vs == [] then [] else VmaBytes(vs[..|vs| - 1]) + EncodeVma(vs[|vs| - 1])
  }

  /** The VMA part of a descriptor: the count, then each VMA in order. */
  function EncodeVmaList(vs: seq<VMADescriptor>): (b: seq<byte>)
    requires |vs| < U64_LIMIT
    ensures |b| == USIZE_SIZE + 32 * |vs|
  {
    U64Bytes(|vs|) + VmaBytes(vs)
  }

  function DecodeVmas(b: seq<byte>, n: nat): (vs: seq<VMADescriptor>)
    requires 32 * n <= |b|
    ensures |vs| == n
    ensures forall i :: 0 <= i < n ==> Some(vs[i]) == DecodeVma(b[32 * i..])
  {
    seq(n, i requires 0 <= i < n => DecodeVma(b[32 * i..]).value)
  }

  /**
   * Reading the count and then that many VMAs: the VMAs and the number of
   * bytes consumed, or None when the buffer runs out.
   */
  function DecodeVmaList(b: seq<byte>): (r: Option<(seq<VMADescriptor>, nat)>)
    ensures r.Some? ==> |b| >= USIZE_SIZE && |r.value.0| == ReadU64(b)
    ensures r.Some? ==> r.value.1 == USIZE_SIZE + 32 * |r.value.0| <= |b|
  {
    if |b| < 8 then None
    else
      var n := ReadU64(b);
      if |b| < 8 + 32 * n then None else Some((DecodeVmas(b[8..], n), 8 + 32 * n))
  }

  lemma {:induction false} VmaBytesAt(vs: seq<VMADescriptor>, i: nat, rest: seq<byte>)
    requires i < |vs|
    ensures DecodeVma((VmaBytes(vs) + rest)[32 * i..]) == Some(vs[i])
  {
    var init := vs[..|vs| - 1];
    var last := vs[|vs| - 1];
    if i < |init| {
      AppendAssoc(VmaBytes(init), EncodeVma(last), rest);
      VmaBytesAt(init, i, EncodeVma(last) + rest);
    } else {
      AppendAssoc(VmaBytes(init), EncodeVma(last), rest);
      DropPrefixAt(VmaBytes(init), EncodeVma(last) + rest, 32 * i);
      VmaRoundTrip(last, rest);
    }
  }

  lemma VmaListRoundTrip(vs: seq<VMADescriptor>, rest: seq<byte>)
    requires |vs| < U64_LIMIT
    ensures DecodeVmaList(EncodeVmaList(vs) + rest) == Some((vs, |EncodeVmaList(vs)|))
  {
    var b := EncodeVmaList(vs) + rest;
    var n := |vs|;
    AppendAssoc(U64Bytes(n), VmaBytes(vs), rest);
    ReadU64Bytes(n, VmaBytes(vs) + rest);
    DropPrefixAt(U64Bytes(n), VmaBytes(vs) + rest, 8);
    var ds := DecodeVmas(b[8..], n);
    forall i | 0 <= i < n
      ensures ds[i] == vs[i]
    {
      VmaBytesAt(vs, i, rest);
    }
    SameElements(ds, vs);
  }

  /**
   * The VMA loop of the serialisers, after the bytes `buf[at..cur]` already
   * written: the count, then each VMA's bytes.
   */
  method WriteVmaList(vs: seq<VMADescriptor>, buf: array<byte>, at: nat, cur: nat)
    requires |vs| < U64_LIMIT && at <= cur && cur + USIZE_SIZE + 32 * |vs| <= buf.Length
    modifies buf
    ensures buf[at..cur + USIZE_SIZE + 32 * |vs|] == old(buf[at..cur]) + EncodeVmaList(vs)
    ensures forall k :: 0 <= k < buf.Length && !(cur <= k < cur + USIZE_SIZE + 32 * |vs|) ==> buf[k] == old(buf[k])
  {
    ghost var prefix := buf[at..cur];
    Append(buf, at, cur, U64Bytes(|vs|));
    var c := cur + USIZE_SIZE;
    var i := 0;
    while i < |vs|
      invariant 0 <= i <= |vs| && c == cur + USIZE_SIZE + 32 * i
      invariant buf[at..c] == prefix + U64Bytes(|vs|) + VmaBytes(vs[..i])
      invariant forall k :: 0 <= k < buf.Length && !(cur <= k < c) ==> buf[k] == old(buf[k])
    {
      TakeSnoc(vs, i);
      AppendAssoc(prefix + U64Bytes(|vs|), VmaBytes(vs[..i]), EncodeVma(vs[i]));
      Append(buf, at, c, EncodeVma(vs[i]));
      c := c + VMA_SIZE;
      i := i + 1;
    }
    TakeAll(vs);
    AppendAssoc(prefix, U64Bytes(|vs|), VmaBytes(vs));
  }

  /** The VMA loop of the deserialisers: reads the count, then pushes each VMA in buffer order. */
  method ReadVmaList(bytes: seq<byte>) returns (r: Option<(seq<VMADescriptor>, nat)>)
    ensures r == DecodeVmaList(bytes)
  {
    if |bytes| < USIZE_SIZE {
      return None;
    }
    var count := ReadU64(bytes);
    var cur := bytes[USIZE_SIZE..];
    var vmas: seq<VMADescriptor> := [];
    var i := 0;
    while i < count
      invariant 0 <= i <= count && |vmas| == i
      invariant 8 + 32 * i <= |bytes| && cur == bytes[8 + 32 * i..]
      invariant forall j :: 0 <= j < i ==> Some(vmas[j]) == DecodeVma(bytes[8..][32 * j..])
    {
      var vma := DecodeVma(cur);
      if vma.None? {
        assert |bytes| < 8 + 32 * count;
        return None;
      }
      assert bytes[8..][32 * i..] == cur;
      vmas := vmas + [vma.value];
      cur := cur[VMA_SIZE..];
      i := i + 1;
    }
    assert vmas == DecodeVmas(bytes[8..], count);
    r := Some((vmas, USIZE_SIZE + VMA_SIZE * count));
  }

  // ---- RDMADescriptor ----

  function EncodeRdma(m: RDMADescriptor): (b: seq<byte>)
    ensures |b| == RDMA_SIZE
  {
    m.raw
  }

  function DecodeRdma(b: seq<byte>): (r: Option<RDMADescriptor>)
    ensures r.Some? <==> |b| >= RDMA_SIZE
    ensures r.Some? ==> EncodeRdma(r.value) == b[..RDMA_SIZE]
  {
    if |b| >= RDMA_SIZE then Some(RDMADescriptor(b[..RDMA_SIZE])) else None
  }

  lemma RdmaRoundTrip(m: RDMADescriptor, rest: seq<byte>)
    ensures DecodeRdma(EncodeRdma(m) + rest) == Some(m)
  {
    assert (EncodeRdma(m) + rest)[..RDMA_SIZE] == m.raw;
  }

  // ---- FlatPageTable ----

  /** `FlatPageTable::add_one`. */
  function AddMapping(t: FlatPageTable, virt: u64, phys: u64): (r: FlatPageTable)
    ensures |r.entries| == |t.entries| + 1
    ensures r.entries[..|t.entries|] == t.entries && r.entries[|t.entries|] == Mapping(virt, phys)
  {
    FlatPageTable(t.entries + [Mapping(virt, phys)])
  }

  /** The translation a table gives: a later entry for an address wins. */
  function Translation(entries: seq<Mapping>): map<u64, u64>
  {
    if entries == [] then map[]
    else Translation(entries[..|entries| - 1])[entries[|entries| - 1].virt := entries[|entries| - 1].phys]
  }

  /** `FlatPageTable::translate`. */
  function Translate(t: FlatPageTable, virt: u64): (r: Option<u64>)
    ensures r.Some? <==> exists i :: 0 <= i < |t.entries| && t.entries[i].virt == virt
  {
    TranslationDomain(t.entries, virt);
    var m := Translation(t.entries);
    if virt in m then Some(m[virt]) else None
  }

  lemma {:induction false} TranslationDomain(entries: seq<Mapping>, virt: u64)
    ensures virt in Translation(entries) <==> exists i :: 0 <= i < |entries| && entries[i].virt == virt
  {
    if entries != [] {
      var init := entries[..|entries| - 1];
      TranslationDomain(init, virt);
      if virt in Translation(init) {
        var i :| 0 <= i < |init| && init[i].virt == virt;
        assert entries[i].virt == virt;
      }
      if exists i :: 0 <= i < |entries| && entries[i].virt == virt {
        var i :| 0 <= i < |entries| && entries[i].virt == virt;
        if i < |init| { assert init[i].virt == virt; }
      }
    }
  }

  function MappingBytes(es: seq<Mapping>): (b: seq<byte>)
    ensures |b| == 2 * U64_SIZE * |es|
  {
    if es == [] then []
    else MappingBytes(es[..|es| - 1]) + U64Bytes(es[|es| - 1].virt) + U64Bytes(es[|es| - 1].phys)
  }

  function EncodeFlat(t: FlatPageTable): (b: seq<byte>)
    requires |t.entries| < U64_LIMIT
    ensures |b| == FlatLen(t)
  {
    U64Bytes(|t.entries|) + MappingBytes(t.entries)
  }

  /** `FlatPageTable::serialization_buf_len`. */
  function FlatLen(t: FlatPageTable): nat
  {
    USIZE_SIZE + 2 * U64_SIZE * |t.entries|
  }

  function DecodeFlat(b: seq<byte>): (r: Option<FlatPageTable>)
    ensures r.Some? ==> USIZE_SIZE <= |b| && |r.value.entries| == ReadU64(b)
    ensures r.Some? ==> FlatLen(r.value) <= |b|
  {
    if |b| < USIZE_SIZE then None
    else
      var n := ReadU64(b);
      if |b| < USIZE_SIZE + 2 * U64_SIZE * n then None
      else Some(FlatPageTable(seq(n, i requires 0 <= i < n =>
                  Mapping(ReadU64(b[USIZE_SIZE + 16 * i..]), ReadU64(b[USIZE_SIZE + 16 * i + 8..])))))
  }

  lemma {:induction false} MappingBytesAt(es: seq<Mapping>, i: nat, rest: seq<byte>)
    requires i < |es|
    ensures ReadU64((MappingBytes(es) + rest)[16 * i..]) == es[i].virt
    ensures ReadU64((MappingBytes(es) + rest)[16 * i + 8..]) == es[i].phys
  {
    var init := es[..|es| - 1];
    var last := es[|es| - 1];
    var b := MappingBytes(es) + rest;
    var pair := U64Bytes(last.virt) + U64Bytes(last.phys);
    AppendAssoc(MappingBytes(init), U64Bytes(last.virt), U64Bytes(last.phys));
    AppendAssoc(MappingBytes(init), pair, rest);
    if i < |init| {
      MappingBytesAt(init, i, pair + rest);
    } else {
      AppendAssoc(U64Bytes(last.virt), U64Bytes(last.phys), rest);
      DropPrefixAt(MappingBytes(init), pair + rest, 16 * i);
      ReadU64Bytes(last.virt, U64Bytes(last.phys) + rest);
      DropTwice(b, 16 * i, 8);
      DropPrefixAt(U64Bytes(last.virt), U64Bytes(last.phys) + rest, 8);
      ReadU64Bytes(last.phys, rest);
    }
  }

  /** The count and entry `i` read back from `EncodeFlat(t) + rest` at the offsets `DecodeFlat` uses. */
  lemma FlatEntryAt(t: FlatPageTable, rest: seq<byte>, i: nat)
    requires |t.entries| < U64_LIMIT && i < |t.entries|
    ensures ReadU64((EncodeFlat(t) + rest)[USIZE_SIZE + 16 * i..]) == t.entries[i].virt
    ensures ReadU64((EncodeFlat(t) + rest)[USIZE_SIZE + 16 * i + 8..]) == t.entries[i].phys
  {
    var b := EncodeFlat(t) + rest;
    var tail := MappingBytes(t.entries) + rest;
    AppendAssoc(U64Bytes(|t.entries|), MappingBytes(t.entries), rest);
    DropPrefix(U64Bytes(|t.entries|), tail);
    DropTwice(b, USIZE_SIZE, 16 * i);
    DropTwice(b, USIZE_SIZE, 16 * i + 8);
    MappingBytesAt(t.entries, i, rest);
  }

  lemma FlatRoundTrip(t: FlatPageTable, rest: seq<byte>)
    requires |t.entries| < U64_LIMIT
    ensures DecodeFlat(EncodeFlat(t) + rest) == Some(t)
  {
    var b := EncodeFlat(t) + rest;
    var n := |t.entries|;
    AppendAssoc(U64Bytes(n), MappingBytes(t.entries), rest);
    ReadU64Bytes(n, MappingBytes(t.entries) + rest);
    var r := DecodeFlat(b);
    assert r.Some?;
    forall i | 0 <= i < n
      ensures r.value.entries[i] == t.entries[i]
    {
      FlatEntryAt(t, rest, i);
    }
    SameElements(r.value.entries, t.entries);
  }
}
