/**
 * `VMAPageTable` of mitosis/src/descriptors/fast_descriptors.rs: the
 * (offset, physical address) pairs of one memory area, serialised in a
 * blocked layout:
 *
 *   | entry count (usize) | 4 zero bytes iff the count is odd |
 *   | all u32 offsets, in entry order | all u64 values, in entry order |
 */
module VmaPageTables {
  import opened Wrappers
  import opened Bytes
  import opened Seqs

  datatype PageEntry = PageEntry(offset: u32, value: u64)

  datatype VMAPageTable = VMAPageTable(entries: seq<PageEntry>)

  /** A `Vec`'s length is a usize. */
  predicate WellSized(t: VMAPageTable)
  {
    |t.entries| < U64_LIMIT
  }

  /** `table_len`. */
  function TableLen(t: VMAPageTable): nat
  {
    |t.entries|
  }

  /** `add_one`: pushes one entry at the end. */
  function AddOne(t: VMAPageTable, offset: u32, value: u64): (r: VMAPageTable)
    ensures TableLen(r) == TableLen(t) + 1
    ensures r.entries[..TableLen(t)] == t.entries
    ensures r.entries[TableLen(t)] == PageEntry(offset, value)
  {
    VMAPageTable(t.entries + [PageEntry(offset, value)])
  }

  /** The pad that keeps the u64 values 8-byte aligned. */
  function PadLen(count: nat): (r: nat)
    ensures r == 0 || r == U32_SIZE
  {
    if count % 2 == 1 then U32_SIZE else 0
  }

  /** The pad itself: a zero u32 after an odd count. */
  function Pad(count: nat): (p: seq<byte>)
    ensures |p| == PadLen(count)
  {
    if count % 2 == 1 then U32Bytes(0) else []
  }

  function OffsetBytes(es: seq<PageEntry>): (b: seq<byte>)
    ensures |b| == U32_SIZE * |es|
  {
    if es == [] then [] else OffsetBytes(es[..|es| - 1]) + U32Bytes(es[|es| - 1].offset)
  }

  function ValueBytes(es: seq<PageEntry>): (b: seq<byte>)
    ensures |b| == U64_SIZE * |es|
  {
    if es == [] then [] else ValueBytes(es[..|es| - 1]) + U64Bytes(es[|es| - 1].value)
  }

  /** The layout `serialize` writes. */
  function Encode(t: VMAPageTable): (b: seq<byte>)
    requires WellSized(t)
    ensures |b| == SerializationBufLen(t)
  {
    U64Bytes(TableLen(t)) + Pad(TableLen(t)) + OffsetBytes(t.entries) + ValueBytes(t.entries)
  }

  /** `serialization_buf_len`: 8 + 12 per entry, plus 4 when the count is odd. */
  function SerializationBufLen(t: VMAPageTable): (r: nat)
  {
    var base := USIZE_SIZE + TableLen(t) * (U32_SIZE + U64_SIZE);
    if TableLen(t) % 2 == 1 then base + U32_SIZE else base
  }

  /** Adding an entry to an even table adds 16 bytes (with the pad), to an odd one 8. */
  lemma AddOneBufLen(t: VMAPageTable, offset: u32, value: u64)
    ensures SerializationBufLen(AddOne(t, offset, value)) ==
            SerializationBufLen(t) + (if TableLen(t) % 2 == 0 then 16 else 8)
  {
  }

  /** The `n` entries whose offsets start at `base` and whose values follow them. */
  function DecodeEntries(b: seq<byte>, base: nat, n: nat): (es: seq<PageEntry>)
    requires base + 12 * n <= |b|
    ensures |es| == n
    ensures forall i :: 0 <= i < n ==> es[i] == PageEntry(ReadU32(b[base + 4 * i..]), ReadU64(b[base + 4 * n + 8 * i..]))
  {
    seq(n, i requires 0 <= i < n => PageEntry(ReadU32(b[base + 4 * i..]), ReadU64(b[base + 4 * n + 8 * i..])))
  }

  /** What `deserialize` returns, in closed form. */
  function Decode(b: seq<byte>): (r: Option<VMAPageTable>)
    ensures r.Some? ==> |b| >= USIZE_SIZE && TableLen(r.value) == ReadU64(b)
    ensures r.Some? ==> SerializationBufLen(r.value) <= |b|
  {
    if |b| < 8 then None
    else
      var n := ReadU64(b);
      var base := 8 + PadLen(n);
      if |b| < base + 12 * n then None
      else Some(VMAPageTable(DecodeEntries(b, base, n)))
  }

  /** Every way for the buffer to run out (count, pad, offsets or values) yields None. */
  lemma DecodeShort(b: seq<byte>)
    requires |b| < USIZE_SIZE || |b| < USIZE_SIZE + PadLen(ReadU64(b)) + 12 * ReadU64(b)
    ensures Decode(b) == None
  {
  }

  lemma {:induction false} OffsetBytesAt(es: seq<PageEntry>, i: nat, rest: seq<byte>)
    requires i < |es|
    ensures ReadU32((OffsetBytes(es) + rest)[4 * i..]) == es[i].offset
  {
    var init := es[..|es| - 1];
    var last := es[|es| - 1];
    if i < |init| {
      AppendAssoc(OffsetBytes(init), U32Bytes(last.offset), rest);
      OffsetBytesAt(init, i, U32Bytes(last.offset) + rest);
    } else {
      AppendAssoc(OffsetBytes(init), U32Bytes(last.offset), rest);
      DropPrefixAt(OffsetBytes(init), U32Bytes(last.offset) + rest, 4 * i);
      ReadU32Bytes(last.offset, rest);
    }
  }

  lemma {:induction false} ValueBytesAt(es: seq<PageEntry>, i: nat, rest: seq<byte>)
    requires i < |es|
    ensures ReadU64((ValueBytes(es) + rest)[8 * i..]) == es[i].value
  {
    var init := es[..|es| - 1];
    var last := es[|es| - 1];
    if i < |init| {
      AppendAssoc(ValueBytes(init), U64Bytes(last.value), rest);
      ValueBytesAt(init, i, U64Bytes(last.value) + rest);
    } else {
      AppendAssoc(ValueBytes(init), U64Bytes(last.value), rest);
      DropPrefixAt(ValueBytes(init), U64Bytes(last.value) + rest, 8 * i);
      ReadU64Bytes(last.value, rest);
    }
  }

  /** `Encode(t)` regrouped: the header (count and pad), then the offsets, then the values. */
  lemma EncodeSplit(t: VMAPageTable, rest: seq<byte>)
    requires WellSized(t)
    ensures Encode(t) + rest ==
            (U64Bytes(TableLen(t)) + Pad(TableLen(t))) + (OffsetBytes(t.entries) + (ValueBytes(t.entries) + rest))
  {
    var header := U64Bytes(TableLen(t)) + Pad(TableLen(t));
    AppendAssoc(header + OffsetBytes(t.entries), ValueBytes(t.entries), rest);
    AppendAssoc(header, OffsetBytes(t.entries), ValueBytes(t.entries) + rest);
  }

  /** In `Encode(t)`, entry `i`'s offset sits where `Decode` looks for it. */
  lemma EncodedOffsetAt(t: VMAPageTable, rest: seq<byte>, i: nat)
    requires WellSized(t) && i < TableLen(t)
    ensures ReadU32((Encode(t) + rest)[USIZE_SIZE + PadLen(TableLen(t)) + 4 * i..]) == t.entries[i].offset
  {
    var n := TableLen(t);
    var header := U64Bytes(n) + Pad(n);
    var tail := OffsetBytes(t.entries) + (ValueBytes(t.entries) + rest);
    EncodeSplit(t, rest);
    DropInto(header, tail, 4 * i, USIZE_SIZE + PadLen(n) + 4 * i);
    OffsetBytesAt(t.entries, i, ValueBytes(t.entries) + rest);
  }

  /** In `Encode(t)`, entry `i`'s value sits where `Decode` looks for it. */
  lemma EncodedValueAt(t: VMAPageTable, rest: seq<byte>, i: nat)
    requires WellSized(t) && i < TableLen(t)
    ensures ReadU64((Encode(t) + rest)[USIZE_SIZE + PadLen(TableLen(t)) + 4 * TableLen(t) + 8 * i..]) == t.entries[i].value
  {
    var n := TableLen(t);
    var header := U64Bytes(n) + Pad(n);
    var vals := ValueBytes(t.entries) + rest;
    var tail := OffsetBytes(t.entries) + vals;
    EncodeSplit(t, rest);
    DropInto(header, tail, 4 * n + 8 * i, USIZE_SIZE + PadLen(n) + 4 * n + 8 * i);
    DropInto(OffsetBytes(t.entries), vals, 8 * i, 4 * n + 8 * i);
    ValueBytesAt(t.entries, i, rest);
  }

  /** The count at the head of `Encode(t)` is `t`'s length. */
  lemma EncodedCount(t: VMAPageTable, rest: seq<byte>)
    requires WellSized(t)
    ensures |Encode(t) + rest| >= USIZE_SIZE && ReadU64(Encode(t) + rest) == TableLen(t)
  {
    var n := TableLen(t);
    var pad := Pad(n);
    var tail := pad + OffsetBytes(t.entries) + ValueBytes(t.entries) + rest;
    assert Encode(t) + rest == U64Bytes(n) + tail by {
      AppendAssoc(U64Bytes(n) + pad + OffsetBytes(t.entries), ValueBytes(t.entries), rest);
      AppendAssoc(U64Bytes(n) + pad, OffsetBytes(t.entries), ValueBytes(t.entries) + rest);
      AppendAssoc(U64Bytes(n), pad, OffsetBytes(t.entries) + (ValueBytes(t.entries) + rest));
      AppendAssoc(pad + OffsetBytes(t.entries), ValueBytes(t.entries), rest);
      AppendAssoc(pad, OffsetBytes(t.entries), ValueBytes(t.entries) + rest);
    }
    ReadU64Bytes(n, tail);
  }

  /** Read at the positions `Decode` uses, `Encode(t)` gives back `t`'s entries. */
  lemma EncodedEntries(t: VMAPageTable, rest: seq<byte>)
    requires WellSized(t)
    requires USIZE_SIZE + PadLen(TableLen(t)) + 12 * TableLen(t) <= |Encode(t) + rest|
    ensures DecodeEntries(Encode(t) + rest, USIZE_SIZE + PadLen(TableLen(t)), TableLen(t)) == t.entries
  {
    var es := DecodeEntries(Encode(t) + rest, USIZE_SIZE + PadLen(TableLen(t)), TableLen(t));
    forall i | 0 <= i < TableLen(t)
      ensures es[i] == t.entries[i]
    {
      EncodedOffsetAt(t, rest, i);
      EncodedValueAt(t, rest, i);
    }
  }

  /** `deserialize(serialize(t))` gives back the same entries in the same order. */
  lemma RoundTrip(t: VMAPageTable, rest: seq<byte>)
    requires WellSized(t)
    ensures Decode(Encode(t) + rest) == Some(t)
  {
    EncodedCount(t, rest);
    EncodedEntries(t, rest);
  }

  /** The first loop of `serialize`: every u32 offset, in entry order, after `buf[at..cur]`. */
  method WriteOffsets(es: seq<PageEntry>, buf: array<byte>, at: nat, cur: nat)
    requires at <= cur && cur + 4 * |es| <= buf.Length
    modifies buf
    ensures buf[at..cur + 4 * |es|] == old(buf[at..cur]) + OffsetBytes(es)
    ensures forall k :: 0 <= k < buf.Length && !(cur <= k < cur + 4 * |es|) ==> buf[k] == old(buf[k])
  {
    ghost var prefix := buf[at..cur];
    var c := cur;
    var i := 0;
    while i < |es|
      invariant 0 <= i <= |es| && c == cur + 4 * i
      invariant buf[at..c] == prefix + OffsetBytes(es[..i])
      invariant forall k :: 0 <= k < buf.Length && !(cur <= k < c) ==> buf[k] == old(buf[k])
    {
      TakeSnoc(es, i);
      AppendAssoc(prefix, OffsetBytes(es[..i]), U32Bytes(es[i].offset));
      Append(buf, at, c, U32Bytes(es[i].offset));
      c := c + U32_SIZE;
      i := i + 1;
    }
    TakeAll(es);
  }

  /** The second loop of `serialize`: every u64 value, in entry order, after `buf[at..cur]`. */
  method WriteValues(es: seq<PageEntry>, buf: array<byte>, at: nat, cur: nat)
    requires at <= cur && cur + 8 * |es| <= buf.Length
    modifies buf
    ensures buf[at..cur + 8 * |es|] == old(buf[at..cur]) + ValueBytes(es)
    ensures forall k :: 0 <= k < buf.Length && !(cur <= k < cur + 8 * |es|) ==> buf[k] == old(buf[k])
  {
    ghost var prefix := buf[at..cur];
    var c := cur;
    var i := 0;
    while i < |es|
      invariant 0 <= i <= |es| && c == cur + 8 * i
      invariant buf[at..c] == prefix + ValueBytes(es[..i])
      invariant forall k :: 0 <= k < buf.Length && !(cur <= k < c) ==> buf[k] == old(buf[k])
    {
      TakeSnoc(es, i);
      AppendAssoc(prefix, ValueBytes(es[..i]), U64Bytes(es[i].value));
      Append(buf, at, c, U64Bytes(es[i].value));
      c := c + U64_SIZE;
      i := i + 1;
    }
    TakeAll(es);
  }

  /**
   * `serialize`: refuses (and writes nothing) when the window from `at` is
   * shorter than `serialization_buf_len`; otherwise writes the count, the
   * pad, the offsets and then the values.
   */
  method Serialize(t: VMAPageTable, buf: array<byte>, at: nat) returns (ok: bool)
    requires WellSized(t) && at <= buf.Length
    modifies buf
    ensures ok <==> at + SerializationBufLen(t) <= buf.Length
    ensures ok ==> buf[at..at + SerializationBufLen(t)] == Encode(t)
    ensures ok ==> forall k :: 0 <= k < buf.Length && !(at <= k < at + SerializationBufLen(t)) ==> buf[k] == old(buf[k])
    ensures !ok ==> buf[..] == old(buf[..])
  {
    if buf.Length - at < SerializationBufLen(t) {
      return false;
    }
    WriteLayout(t.entries, buf, at);
    ok := true;
  }

  /** The writes of `serialize` in layout order, each at the cursor the previous one left. */
  method WriteLayout(es: seq<PageEntry>, buf: array<byte>, at: nat)
    requires |es| < U64_LIMIT && at + USIZE_SIZE + PadLen(|es|) + 12 * |es| <= buf.Length
    modifies buf
    ensures buf[at..at + USIZE_SIZE + PadLen(|es|) + 12 * |es|] ==
            U64Bytes(|es|) + Pad(|es|) + OffsetBytes(es) + ValueBytes(es)
    ensures forall k :: 0 <= k < buf.Length && !(at <= k < at + USIZE_SIZE + PadLen(|es|) + 12 * |es|) ==> buf[k] == old(buf[k])
  {
    var n := |es|;
    WriteHeader(n, buf, at);
    var cur := at + USIZE_SIZE + PadLen(n);
    WriteOffsets(es, buf, at, cur);
    cur := cur + 4 * n;
    WriteValues(es, buf, at, cur);
  }

  /** The count, then a zero u32 when the count is odd. */
  method WriteHeader(n: u64, buf: array<byte>, at: nat)
    requires at + USIZE_SIZE + PadLen(n) <= buf.Length
    modifies buf
    ensures buf[at..at + USIZE_SIZE + PadLen(n)] == U64Bytes(n) + Pad(n)
    ensures forall k :: 0 <= k < buf.Length && !(at <= k < at + USIZE_SIZE + PadLen(n)) ==> buf[k] == old(buf[k])
  {
    WriteBytes(buf, at, U64Bytes(n));
    if n % 2 == 1 {
      Append(buf, at, at + USIZE_SIZE, U32Bytes(0));
    } else {
      assert U64Bytes(n) + Pad(n) == U64Bytes(n);
    }
  }

  /** The first loop of `deserialize`: one entry per u32 offset, its value still 0. */
  method ReadOffsets(bytes: seq<byte>, count: nat) returns (res: Option<seq<PageEntry>>)
    ensures res.Some? <==> 4 * count <= |bytes|
    ensures res.Some? ==> |res.value| == count
    ensures res.Some? ==> forall j :: 0 <= j < count ==> res.value[j] == PageEntry(ReadU32(bytes[4 * j..]), 0)
  {
    var cur := bytes;
    var es: seq<PageEntry> := [];
    var i := 0;
    while i < count
      invariant 0 <= i <= count && |es| == i
      invariant 4 * i <= |bytes| && cur == bytes[4 * i..]
      invariant forall j :: 0 <= j < i ==> es[j] == PageEntry(ReadU32(bytes[4 * j..]), 0)
    {
      if |cur| < U32_SIZE {
        return None;
      }
      es := es + [PageEntry(ReadU32(cur), 0)];
      cur := cur[U32_SIZE..];
      i := i + 1;
    }
    res := Some(es);
  }

  /** The second loop of `deserialize`: overwrites entry i's value with the i-th u64. */
  method ReadValues(bytes: seq<byte>, es: seq<PageEntry>) returns (res: Option<seq<PageEntry>>)
    ensures res.Some? <==> 8 * |es| <= |bytes|
    ensures res.Some? ==> |res.value| == |es|
    ensures res.Some? ==> forall j :: 0 <= j < |es| ==> res.value[j] == es[j].(value := ReadU64(bytes[8 * j..]))
  {
    var cur := bytes;
    var out := es;
    var i := 0;
    while i < |es|
      invariant 0 <= i <= |es| && |out| == |es|
      invariant 8 * i <= |bytes| && cur == bytes[8 * i..]
      invariant forall j :: 0 <= j < i ==> out[j] == es[j].(value := ReadU64(bytes[8 * j..]))
      invariant forall j :: i <= j < |es| ==> out[j] == es[j]
    {
      if |cur| < U64_SIZE {
        return None;
      }
      out := out[i := out[i].(value := ReadU64(cur))];
      cur := cur[U64_SIZE..];
      i := i + 1;
    }
    res := Some(out);
  }

  /**
   * `deserialize`: reads the count, skips the pad, pushes one entry per
   * offset and then fills in the values; None as soon as the buffer runs out.
   */
  method Deserialize(bytes: seq<byte>) returns (r: Option<VMAPageTable>)
    ensures r == Decode(bytes)
  {
    var cur := bytes;
    if |cur| < USIZE_SIZE {
      return None;
    }
    var count := ReadU64(cur);
    cur := cur[USIZE_SIZE..];
    if count % 2 == 1 {
      if |cur| < U32_SIZE {
        return None;
      }
      cur := cur[U32_SIZE..];
    }
    ghost var base := USIZE_SIZE + PadLen(count);
    assert cur == bytes[base..];
    assert count == ReadU64(bytes);
    var offsets := ReadOffsets(cur, count);
    if offsets.None? {
      assert |bytes| < base + 12 * count;
      return None;
    }
    cur := cur[U32_SIZE * count..];
    var entries := ReadValues(cur, offsets.value);
    if entries.None? {
      assert |bytes| < base + 12 * count;
      return None;
    }
    LoopsDecodeEntries(bytes, base, count, offsets.value, entries.value);
    r := Some(VMAPageTable(entries.value));
  }

  /** What the two loops of `deserialize` build is the closed-form entry list. */
  lemma LoopsDecodeEntries(bytes: seq<byte>, base: nat, count: nat, offsets: seq<PageEntry>, entries: seq<PageEntry>)
    requires base + 12 * count <= |bytes|
    requires |offsets| == count
    requires forall j :: 0 <= j < count ==> offsets[j] == PageEntry(ReadU32(bytes[base..][4 * j..]), 0)
    requires |entries| == count
    requires forall j :: 0 <= j < count ==> entries[j] == offsets[j].(value := ReadU64(bytes[base..][4 * count..][8 * j..]))
    ensures entries == DecodeEntries(bytes, base, count)
  {
    forall j | 0 <= j < count
      ensures entries[j] == DecodeEntries(bytes, base, count)[j]
    {
      DropTwice(bytes, base, 4 * j);
      DropTwice(bytes, base, 4 * count);
      DropTwice(bytes[base..], 4 * count, 8 * j);
      DropTwice(bytes, base + 4 * count, 8 * j);
    }
  }
}
