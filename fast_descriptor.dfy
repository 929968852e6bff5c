/**
 * `FastDescriptor` of mitosis/src/descriptors/fast_descriptors.rs: the
 * descriptor whose page table is kept per memory area, one `VMAPageTable`
 * row for each VMA. Layout:
 *
 *   | RegDescriptor | row count (usize) | each row | VMA count (usize) | each VMA | RDMADescriptor |
 */
module FastDescriptors {
  import opened Wrappers
  import opened Bytes
  import opened Seqs
  import opened Components
  import PT = VmaPageTables
  import Descriptors

  datatype FastDescriptor = FastDescriptor(
    regs: RegDescriptor,
    page_table: seq<PT.VMAPageTable>,
    vma: seq<VMADescriptor>,
    machine_info: RDMADescriptor)

  predicate RowsWellSized(rows: seq<PT.VMAPageTable>)
  {
    |rows| < U64_LIMIT && forall i :: 0 <= i < |rows| ==> PT.WellSized(rows[i])
  }

  /** Every `Vec` length is a usize. */
  predicate WellSized(f: FastDescriptor)
  {
    RowsWellSized(f.page_table) && |f.vma| < U64_LIMIT
  }

  // ---- the rows ----

  /** The sum of the rows' `serialization_buf_len`. */
  function RowsLen(rows: seq<PT.VMAPageTable>): nat
  {
    if rows == [] then 0 else PT.SerializationBufLen(rows[0]) + RowsLen(rows[1..])
  }

  /** The rows' layouts back to back, in row order. */
  function RowsBytes(rows: seq<PT.VMAPageTable>): (b: seq<byte>)
    requires forall i :: 0 <= i < |rows| ==> PT.WellSized(rows[i])
    ensures |b| == RowsLen(rows)
  {
    if rows == [] then [] else PT.Encode(rows[0]) + RowsBytes(rows[1..])
  }

  lemma {:induction false} RowsLenSnoc(rows: seq<PT.VMAPageTable>, t: PT.VMAPageTable)
    ensures RowsLen(rows + [t]) == RowsLen(rows) + PT.SerializationBufLen(t)
  {
    if rows != [] {
      SnocTail(rows, t);
      RowsLenSnoc(rows[1..], t);
    } else {
      AppendNothing([t]);
    }
  }

  lemma {:induction false} RowsBytesSnoc(rows: seq<PT.VMAPageTable>, t: PT.VMAPageTable)
    requires forall i :: 0 <= i < |rows| ==> PT.WellSized(rows[i])
    requires PT.WellSized(t)
    ensures RowsBytes(rows + [t]) == RowsBytes(rows) + PT.Encode(t)
  {
    if rows != [] {
      SnocTail(rows, t);
      RowsBytesSnoc(rows[1..], t);
    } else {
      AppendNothing([t]);
    }
  }

  /** The page-table part: the row count, then each row. */
  function EncodeRows(rows: seq<PT.VMAPageTable>): (b: seq<byte>)
    requires RowsWellSized(rows)
    ensures |b| == USIZE_SIZE + RowsLen(rows)
  {
    U64Bytes(|rows|) + RowsBytes(rows)
  }

  /** The layout `serialize` writes. */
  function Encode(f: FastDescriptor): (b: seq<byte>)
    requires WellSized(f)
    ensures |b| == SerializationBufLen(f)
  {
    EncodeReg(f.regs) + EncodeRows(f.page_table) + EncodeVmaList(f.vma) + EncodeRdma(f.machine_info)
  }

  /** `serialization_buf_len`. */
  function SerializationBufLen(f: FastDescriptor): nat
  {
    REG_SIZE + (USIZE_SIZE + RowsLen(f.page_table)) + USIZE_SIZE + |f.vma| * VMA_SIZE + RDMA_SIZE
  }

  /**
   * `vma_pg_table_serialization_buf_len`: a usize for the row count plus
   * each row's own length, rows being of different lengths.
   */
  method VmaPgTableSerializationBufLen(rows: seq<PT.VMAPageTable>) returns (result: nat)
    ensures result == USIZE_SIZE + RowsLen(rows)
  {
    result := USIZE_SIZE;
    var i := 0;
    while i < |rows|
      invariant 0 <= i <= |rows|
      invariant result == USIZE_SIZE + RowsLen(rows[..i])
    {
      RowsLenSnoc(rows[..i], rows[i]);
      TakeSnoc(rows, i);
      result := result + PT.SerializationBufLen(rows[i]);
      i := i + 1;
    }
    TakeAll(rows);
  }

  // ---- decoding ----

  /**
   * Reading `n` rows one after the other, each starting where the previous
   * one's `serialization_buf_len` ends. The bytes consumed are the decoded
   * rows' `RowsLen`.
   */
  function DecodeRows(b: seq<byte>, n: nat): (r: Option<seq<PT.VMAPageTable>>)
    ensures r.Some? ==> |r.value| == n
    decreases n
  {
    if n == 0 then Some([])
    else
      match PT.Decode(b)
      case None => None
      case Some(t) =>
        match DecodeRows(b[PT.SerializationBufLen(t)..], n - 1)
        case None => None
        case Some(ts) => Some([t] + ts)
  }

  /** The page-table part of `deserialize`: the row count, then that many rows. */
  function DecodePageTables(b: seq<byte>): (r: Option<seq<PT.VMAPageTable>>)
    ensures r.Some? ==> USIZE_SIZE + RowsLen(r.value) <= |b|
  {
    if |b| < USIZE_SIZE then None
    else
      DecodeRowsLen(b[USIZE_SIZE..], ReadU64(b));
      DecodeRows(b[USIZE_SIZE..], ReadU64(b))
  }

  /** The rows a window decodes to fit in the window. */
  lemma {:induction false} DecodeRowsLen(b: seq<byte>, n: nat)
    ensures DecodeRows(b, n).Some? ==> RowsLen(DecodeRows(b, n).value) <= |b|
  {
    if n > 0 && PT.Decode(b).Some? {
      var t := PT.Decode(b).value;
      var b' := b[PT.SerializationBufLen(t)..];
      DecodeRowsLen(b', n - 1);
      if DecodeRows(b', n - 1).Some? {
        var ts := DecodeRows(b', n - 1).value;
        assert ([t] + ts)[0] == t && ([t] + ts)[1..] == ts;
      }
    }
  }

  /** What `deserialize` returns: each component in layout order, None as soon as one fails. */
  function Decode(b: seq<byte>): (r: Option<FastDescriptor>)
  {
    match DecodeReg(b)
    case None => None
    case Some(regs) =>
      var b1 := b[REG_SIZE..];
      match DecodePageTables(b1)
      case None => None
      case Some(rows) =>
        var b2 := b1[USIZE_SIZE + RowsLen(rows)..];
        match DecodeVmaList(b2)
        case None => None
        case Some((vmas, used)) =>
          match DecodeRdma(b2[used..])
          case None => None
          case Some(info) => Some(FastDescriptor(regs, rows, vmas, info))
  }

  // ---- round trip ----

  /** A row's layout followed by the layouts of the rows after it. */
  lemma RowsBytesCons(rows: seq<PT.VMAPageTable>, rest: seq<byte>)
    requires rows != [] && forall i :: 0 <= i < |rows| ==> PT.WellSized(rows[i])
    ensures RowsBytes(rows) + rest == PT.Encode(rows[0]) + (RowsBytes(rows[1..]) + rest)
  {
    AppendAssoc(PT.Encode(rows[0]), RowsBytes(rows[1..]), rest);
  }

  /** Decoding one more row in front of rows that decode. */
  lemma DecodeRowsCons(t: PT.VMAPageTable, tail: seq<byte>, n: nat, ts: seq<PT.VMAPageTable>)
    requires PT.WellSized(t) && n > 0 && DecodeRows(tail, n - 1) == Some(ts)
    ensures DecodeRows(PT.Encode(t) + tail, n) == Some([t] + ts)
  {
    PT.RoundTrip(t, tail);
    DropPrefix(PT.Encode(t), tail);
  }

  lemma {:induction false} RowsRoundTrip(rows: seq<PT.VMAPageTable>, rest: seq<byte>)
    requires forall i :: 0 <= i < |rows| ==> PT.WellSized(rows[i])
    ensures DecodeRows(RowsBytes(rows) + rest, |rows|) == Some(rows)
  {
    if rows != [] {
      RowsBytesCons(rows, rest);
      RowsRoundTrip(rows[1..], rest);
      DecodeRowsCons(rows[0], RowsBytes(rows[1..]) + rest, |rows|, rows[1..]);
      HeadTail(rows);
    } else {
      AppendNothing(rest);
    }
  }

  lemma PageTablesRoundTrip(rows: seq<PT.VMAPageTable>, rest: seq<byte>)
    requires RowsWellSized(rows)
    ensures DecodePageTables(EncodeRows(rows) + rest) == Some(rows)
  {
    AppendAssoc(U64Bytes(|rows|), RowsBytes(rows), rest);
    ReadU64Bytes(|rows|, RowsBytes(rows) + rest);
    DropPrefix(U64Bytes(|rows|), RowsBytes(rows) + rest);
    RowsRoundTrip(rows, rest);
  }

  /** `deserialize(serialize(f))` reproduces `f`, whatever follows it in the buffer. */
  lemma RoundTrip(f: FastDescriptor, rest: seq<byte>)
    requires WellSized(f)
    ensures Decode(Encode(f) + rest) == Some(f)
  {
    var rows := EncodeRows(f.page_table);
    var vmas := EncodeVmaList(f.vma);
    var info := EncodeRdma(f.machine_info);
    var tail3 := info + rest;
    var tail2 := vmas + tail3;
    var tail1 := rows + tail2;
    assert Encode(f) + rest == EncodeReg(f.regs) + tail1 by {
      AppendAssoc(EncodeReg(f.regs) + rows + vmas, info, rest);
      AppendAssoc(EncodeReg(f.regs) + rows, vmas, tail3);
      AppendAssoc(EncodeReg(f.regs), rows, tail2);
    }
    RegRoundTrip(f.regs, tail1);
    DropPrefix(EncodeReg(f.regs), tail1);
    PageTablesRoundTrip(f.page_table, tail2);
    DropPrefix(rows, tail2);
    VmaListRoundTrip(f.vma, tail3);
    DropPrefix(vmas, tail3);
    RdmaRoundTrip(f.machine_info, rest);
  }

  // ---- serialize ----

  /**
   * `serialize`: refuses (and writes nothing) when the window from `at` is
   * shorter than `serialization_buf_len`; otherwise writes the layout.
   */
  method Serialize(f: FastDescriptor, buf: array<byte>, at: nat) returns (ok: bool)
    requires WellSized(f) && at <= buf.Length
    modifies buf
    ensures ok <==> at + SerializationBufLen(f) <= buf.Length
    ensures ok ==> buf[at..at + SerializationBufLen(f)] == Encode(f)
    ensures ok ==> forall k :: 0 <= k < buf.Length && !(at <= k < at + SerializationBufLen(f)) ==> buf[k] == old(buf[k])
    ensures !ok ==> buf[..] == old(buf[..])
  {
    if buf.Length - at < SerializationBufLen(f) {
      return false;
    }
    WriteLayout(buf, at, EncodeReg(f.regs), f.page_table, f.vma, EncodeRdma(f.machine_info));
    ok := true;
  }

  /** The writes of `serialize` in layout order, each at the cursor the previous one left. */
  method WriteLayout(buf: array<byte>, at: nat, regs: seq<byte>, rows: seq<PT.VMAPageTable>, vma: seq<VMADescriptor>, info: seq<byte>)
    requires RowsWellSized(rows) && |vma| < U64_LIMIT
    requires at + |regs| + |EncodeRows(rows)| + |EncodeVmaList(vma)| + |info| <= buf.Length
    modifies buf
    ensures buf[at..at + |regs| + |EncodeRows(rows)| + |EncodeVmaList(vma)| + |info|] == regs + EncodeRows(rows) + EncodeVmaList(vma) + info
    ensures forall k :: 0 <= k < buf.Length && !(at <= k < at + |regs| + |EncodeRows(rows)| + |EncodeVmaList(vma)| + |info|) ==> buf[k] == old(buf[k])
  {
    ghost var rowsBytes := EncodeRows(rows);
    ghost var vmaBytes := EncodeVmaList(vma);
    WriteBytes(buf, at, regs);
    var cur := at + |regs|;
    WriteRows(rows, buf, at, cur, regs);
    cur := cur + USIZE_SIZE + RowsLen(rows);
    assert buf[at..cur] == regs + rowsBytes;
    WriteVmaList(vma, buf, at, cur);
    cur := cur + USIZE_SIZE + 32 * |vma|;
    assert buf[at..cur] == regs + rowsBytes + vmaBytes;
    Append(buf, at, cur, info);
  }

  /**
   * The row loop of `serialize`, after the bytes `buf[at..cur]` already
   * written: the count, then each row serialised at the cursor.
   */
  method WriteRows(rows: seq<PT.VMAPageTable>, buf: array<byte>, at: nat, cur: nat, ghost prefix: seq<byte>)
    requires RowsWellSized(rows) && at <= cur && cur + USIZE_SIZE + RowsLen(rows) <= buf.Length
    requires buf[at..cur] == prefix
    modifies buf
    ensures buf[at..cur + USIZE_SIZE + RowsLen(rows)] == prefix + EncodeRows(rows)
    ensures forall k :: 0 <= k < buf.Length && !(cur <= k < cur + USIZE_SIZE + RowsLen(rows)) ==> buf[k] == old(buf[k])
  {
    var count := U64Bytes(|rows|);
    Append(buf, at, cur, count);
    assert buf[at..cur + USIZE_SIZE] == prefix + count;
    WriteEachRow(rows, buf, at, cur + USIZE_SIZE, prefix + count);
    AppendAssoc(prefix, count, RowsBytes(rows));
  }

  /** The loop itself: each row serialised in turn after `buf[at..cur]`. */
  method WriteEachRow(rows: seq<PT.VMAPageTable>, buf: array<byte>, at: nat, cur: nat, ghost head: seq<byte>)
    requires RowsWellSized(rows) && at <= cur && cur + RowsLen(rows) <= buf.Length
    requires buf[at..cur] == head
    modifies buf
    ensures buf[at..cur + RowsLen(rows)] == head + RowsBytes(rows)
    ensures forall k :: 0 <= k < buf.Length && !(cur <= k < cur + RowsLen(rows)) ==> buf[k] == old(buf[k])
  {
    ghost var orig := buf[..];
    var c := cur;
    var i := 0;
    while i < |rows|
      invariant 0 <= i <= |rows| && c == cur + RowsLen(rows[..i]) && RowsLen(rows[..i]) <= RowsLen(rows)
      invariant buf[at..c] == head + RowsBytes(rows[..i])
      invariant forall k :: 0 <= k < buf.Length && !(cur <= k < c) ==> buf[k] == orig[k]
    {
      c := WriteRowAt(rows, i, buf, at, cur, c, head, orig);
      i := i + 1;
    }
    TakeAll(rows);
  }

  /**
   * One turn of the row loop: row `i` serialised at the cursor `c`, right
   * after the rows before it; the cursor moves past it.
   */
  method WriteRowAt(rows: seq<PT.VMAPageTable>, i: nat, buf: array<byte>, at: nat, cur: nat, c: nat,
                    ghost head: seq<byte>, ghost orig: seq<byte>) returns (next: nat)
    requires RowsWellSized(rows) && i < |rows| && at <= cur && cur + RowsLen(rows) <= buf.Length
    requires c == cur + RowsLen(rows[..i]) && RowsLen(rows[..i]) <= RowsLen(rows) && |orig| == buf.Length
    requires buf[at..c] == head + RowsBytes(rows[..i])
    requires forall k :: 0 <= k < buf.Length && !(cur <= k < c) ==> buf[k] == orig[k]
    modifies buf
    ensures next == cur + RowsLen(rows[..i + 1]) && RowsLen(rows[..i + 1]) <= RowsLen(rows)
    ensures buf[at..next] == head + RowsBytes(rows[..i + 1])
    ensures forall k :: 0 <= k < buf.Length && !(cur <= k < next) ==> buf[k] == orig[k]
  {
    ghost var written := RowsBytes(rows[..i]);
    RowsStep(rows, i);
    AppendRow(rows[i], buf, at, c, head, written);
    next := c + PT.SerializationBufLen(rows[i]);
    assert buf[at..next] == head + (written + PT.Encode(rows[i]));
  }

  /** `vma_pg_table.serialize(&mut cur)` on a window known to be large enough. */
  method AppendRow(t: PT.VMAPageTable, buf: array<byte>, at: nat, cur: nat, ghost head: seq<byte>, ghost written: seq<byte>)
    requires PT.WellSized(t) && at <= cur && cur + PT.SerializationBufLen(t) <= buf.Length
    requires buf[at..cur] == head + written
    modifies buf
    ensures buf[at..cur + PT.SerializationBufLen(t)] == head + (written + PT.Encode(t))
    ensures forall k :: 0 <= k < buf.Length && !(cur <= k < cur + PT.SerializationBufLen(t)) ==> buf[k] == old(buf[k])
  {
    var _ := PT.Serialize(t, buf, cur);
    assert buf[at..cur] == head + written;
    assert buf[at..cur + PT.SerializationBufLen(t)] == buf[at..cur] + buf[cur..cur + PT.SerializationBufLen(t)];
    AppendAssoc(head, written, PT.Encode(t));
  }

  /** One more row written: the bytes of the first `i + 1` rows, within the length of them all. */
  lemma RowsStep(rows: seq<PT.VMAPageTable>, i: nat)
    requires RowsWellSized(rows) && i < |rows|
    ensures RowsBytes(rows[..i + 1]) == RowsBytes(rows[..i]) + PT.Encode(rows[i])
    ensures RowsLen(rows[..i + 1]) == RowsLen(rows[..i]) + PT.SerializationBufLen(rows[i])
    ensures RowsLen(rows[..i + 1]) <= RowsLen(rows)
  {
    RowsPrefixLen(rows, i + 1);
    RowsPrefixSnoc(rows, i);
  }

  lemma RowsPrefixSnoc(rows: seq<PT.VMAPageTable>, i: nat)
    requires RowsWellSized(rows) && i < |rows|
    ensures RowsLen(rows[..i + 1]) == RowsLen(rows[..i]) + PT.SerializationBufLen(rows[i])
    ensures RowsBytes(rows[..i + 1]) == RowsBytes(rows[..i]) + PT.Encode(rows[i])
  {
    var p := rows[..i];
    var t := rows[i];
    TakeSnoc(rows, i);
    RowsLenSnoc(p, t);
    RowsBytesSnoc(p, t);
  }

  lemma {:induction false} RowsPrefixLen(rows: seq<PT.VMAPageTable>, i: nat)
    requires i <= |rows|
    ensures RowsLen(rows[..i]) <= RowsLen(rows)
  {
    if i > 0 {
      TakeTail(rows, i);
      RowsPrefixLen(rows[1..], i - 1);
    }
  }

  // ---- deserialize ----

  /** The rows `done` followed by what the remaining rows decode to. */
  function Prepend(done: seq<PT.VMAPageTable>, r: Option<seq<PT.VMAPageTable>>): Option<seq<PT.VMAPageTable>>
  {
    match r
    case None => None
    case Some(ts) => Some(done + ts)
  }

  lemma PrependNothing(r: Option<seq<PT.VMAPageTable>>)
    ensures Prepend([], r) == r
  {
    if r.Some? {
      AppendNothing(r.value);
    }
  }

  /**
   * The row loop as the loop runs it: `acc` holds the rows already pushed,
   * `b` is the cursor and `n` the rows still to read.
   */
  function ReadRowsFrom(b: seq<byte>, n: nat, acc: seq<PT.VMAPageTable>): (r: Option<seq<PT.VMAPageTable>>)
    decreases n, 1
  {
    if n == 0 then Some(acc) else ReadNextRow(b, n, acc)
  }

  /** A turn of the row loop with rows still to read. */
  function ReadNextRow(b: seq<byte>, n: nat, acc: seq<PT.VMAPageTable>): (r: Option<seq<PT.VMAPageTable>>)
    requires n > 0
    decreases n, 0
  {
    match PT.Decode(b)
    case None => None
    case Some(t) => ReadRowsFrom(b[PT.SerializationBufLen(t)..], n - 1, acc + [t])
  }

  /** Pushing rows onto `acc` reads the same rows as `DecodeRows`, after `acc`. */
  lemma {:induction false} ReadRowsFromDecodeRows(b: seq<byte>, n: nat, acc: seq<PT.VMAPageTable>)
    ensures ReadRowsFrom(b, n, acc) == Prepend(acc, DecodeRows(b, n))
  {
    if n == 0 {
      AppendNothing(acc);
    } else if PT.Decode(b).Some? {
      var t := PT.Decode(b).value;
      var b' := b[PT.SerializationBufLen(t)..];
      ReadRowsFromDecodeRows(b', n - 1, acc + [t]);
      ReadRowsFromStep(b, n, acc, t);
      DecodeRowsSomeStep(b, n, acc, t);
    } else {
      RowFails(b, n, acc);
    }
  }

  /** A row that does not decode fails both readings. */
  lemma RowFails(b: seq<byte>, n: nat, acc: seq<PT.VMAPageTable>)
    requires n > 0 && PT.Decode(b).None?
    ensures ReadRowsFrom(b, n, acc) == None && DecodeRows(b, n) == None
  {
  }

  lemma ReadRowsFromStep(b: seq<byte>, n: nat, acc: seq<PT.VMAPageTable>, t: PT.VMAPageTable)
    requires n > 0 && PT.Decode(b) == Some(t)
    ensures ReadRowsFrom(b, n, acc) == ReadRowsFrom(b[PT.SerializationBufLen(t)..], n - 1, acc + [t])
  {
  }

  lemma DecodeRowsSomeStep(b: seq<byte>, n: nat, acc: seq<PT.VMAPageTable>, t: PT.VMAPageTable)
    requires n > 0 && PT.Decode(b) == Some(t)
    ensures Prepend(acc, DecodeRows(b, n)) == Prepend(acc + [t], DecodeRows(b[PT.SerializationBufLen(t)..], n - 1))
  {
    var rest := DecodeRows(b[PT.SerializationBufLen(t)..], n - 1);
    if rest.Some? {
      AppendAssoc(acc, [t], rest.value);
    }
  }

  /** The page-table part of `deserialize`: reads the count, then the rows. */
  method ReadPageTables(bytes: seq<byte>) returns (r: Option<seq<PT.VMAPageTable>>)
    ensures r == DecodePageTables(bytes)
  {
    if |bytes| < USIZE_SIZE {
      return None;
    }
    var count := ReadU64(bytes);
    r := ReadRows(bytes[USIZE_SIZE..], count);
    ReadRowsAgree(bytes[USIZE_SIZE..], count, r);
  }

  /** The row loop of `deserialize`: pushes each row in buffer order, failing with the first row that fails. */
  method ReadRows(b0: seq<byte>, count: nat) returns (r: Option<seq<PT.VMAPageTable>>)
    ensures r == ReadRowsFrom(b0, count, [])
  {
    ghost var goal := ReadRowsFrom(b0, count, []);
    var cur := b0;
    var pt: seq<PT.VMAPageTable> := [];
    var left := count;
    while left > 0
      invariant goal == ReadRowsFrom(cur, left, pt)
    {
      var t, next := ReadRow(cur, left, pt);
      if t.None? {
        return None;
      }
      cur := next;
      pt := pt + [t.value];
      left := left - 1;
    }
    r := Some(pt);
  }

  /**
   * One turn of the row loop: `VMAPageTable::deserialize` at the cursor, and
   * `cursor += row.serialization_buf_len()` when it succeeds. The rows still
   * to read then read the same as before; a failing row fails them all.
   */
  method ReadRow(cur: seq<byte>, left: nat, pt: seq<PT.VMAPageTable>) returns (t: Option<PT.VMAPageTable>, next: seq<byte>)
    requires left > 0
    ensures t.None? ==> ReadRowsFrom(cur, left, pt) == None
    ensures t.Some? ==> ReadRowsFrom(cur, left, pt) == ReadRowsFrom(next, left - 1, pt + [t.value])
  {
    t := PT.Deserialize(cur);
    if t.None? {
      RowFails(cur, left, pt);
      return t, cur;
    }
    ReadRowsFromStep(cur, left, pt, t.value);
    next := cur[PT.SerializationBufLen(t.value)..];
  }

  /** What the row loop returns is what `DecodeRows` says the rows are. */
  lemma ReadRowsAgree(b: seq<byte>, n: nat, r: Option<seq<PT.VMAPageTable>>)
    requires ReadRowsFrom(b, n, []) == r
    ensures DecodeRows(b, n) == r
  {
    ReadRowsFromDecodeRows(b, n, []);
    PrependNothing(DecodeRows(b, n));
  }

  /** `deserialize`: steps a cursor over the components in layout order. */
  method Deserialize(bytes: seq<byte>) returns (r: Option<FastDescriptor>)
    ensures r == Decode(bytes)
  {
    var cur := bytes;
    var regs := DecodeReg(cur);
    if regs.None? {
      return None;
    }
    cur := cur[REG_SIZE..];
    var pt := ReadPageTables(cur);
    if pt.None? {
      return None;
    }
    cur := cur[USIZE_SIZE + RowsLen(pt.value)..];
    var vmas := ReadVmaList(cur);
    if vmas.None? {
      return None;
    }
    cur := cur[vmas.value.1..];
    var info := DecodeRdma(cur);
    if info.None? {
      return None;
    }
    r := Some(FastDescriptor(regs.value, pt.value, vmas.value.0, info.value));
  }

  // ---- to_descriptor ----

  /** The mappings one row contributes: each offset moved by the VMA's start (u64 wrap-around). */
  function RowMappings(es: seq<PT.PageEntry>, start: u64): (ms: seq<Mapping>)
    ensures |ms| == |es|
  {
    if es == [] then []
    else RowMappings(es[..|es| - 1], start) + [Mapping(WrappingAdd(es[|es| - 1].offset, start), es[|es| - 1].value)]
  }

  /** The number of entries in all rows. */
  function EntryCount(rows: seq<PT.VMAPageTable>): nat
  {
    if rows == [] then 0 else EntryCount(rows[..|rows| - 1]) + |rows[|rows| - 1].entries|
  }

  /** All rows' mappings, row `i` moved by VMA `i`'s start, in row order. */
  function Flatten(rows: seq<PT.VMAPageTable>, vmas: seq<VMADescriptor>): (ms: seq<Mapping>)
    requires |rows| <= |vmas|
    ensures |ms| == EntryCount(rows)
  {
    if rows == [] then []
    else Flatten(rows[..|rows| - 1], vmas) + RowMappings(rows[|rows| - 1].entries, vmas[|rows| - 1].GetStart())
  }

  /**
   * `to_descriptor`: entry `j` of row `i` becomes the mapping from its offset
   * plus VMA `i`'s start to its physical address; the other parts are copied.
   * Indexing `vma[vma_idx]` panics when there are more rows than VMAs.
   */
  method ToDescriptor(f: FastDescriptor) returns (d: Descriptors.Descriptor)
    requires |f.page_table| <= |f.vma|
    ensures d == Descriptors.Descriptor(f.regs, FlatPageTable(Flatten(f.page_table, f.vma)), f.vma, f.machine_info)
  {
    var page_table := FlatPageTable([]);
    var vmaIdx := 0;
    while vmaIdx < |f.page_table|
      invariant 0 <= vmaIdx <= |f.page_table|
      invariant page_table.entries == Flatten(f.page_table[..vmaIdx], f.vma)
    {
      var start := f.vma[vmaIdx].GetStart();
      var es := f.page_table[vmaIdx].entries;
      ghost var before := page_table.entries;
      var j := 0;
      while j < |es|
        invariant 0 <= j <= |es|
        invariant page_table.entries == before + RowMappings(es[..j], start)
      {
        page_table := AddMapping(page_table, WrappingAdd(es[j].offset, start), es[j].value);
        TakeSnoc(es, j);
        j := j + 1;
      }
      TakeAll(es);
      TakeSnoc(f.page_table, vmaIdx);
      vmaIdx := vmaIdx + 1;
    }
    TakeAll(f.page_table);
    d := Descriptors.Descriptor(f.regs, page_table, f.vma, f.machine_info);
  }

  lemma {:induction false} RowMappingsAt(es: seq<PT.PageEntry>, start: u64, j: nat)
    requires j < |es|
    ensures RowMappings(es, start)[j] == Mapping(WrappingAdd(es[j].offset, start), es[j].value)
  {
    if j < |es| - 1 {
      RowMappingsAt(es[..|es| - 1], start, j);
    }
  }

  /**
   * Rows in order and entries in order: entry `j` of row `i` lands right
   * after the entries of the rows before `i`.
   */
  lemma {:induction false} FlattenAt(rows: seq<PT.VMAPageTable>, vmas: seq<VMADescriptor>, i: nat, j: nat)
    requires |rows| <= |vmas| && i < |rows| && j < |rows[i].entries|
    ensures EntryCount(rows[..i]) + j < EntryCount(rows)
    ensures Flatten(rows, vmas)[EntryCount(rows[..i]) + j] ==
            Mapping(WrappingAdd(rows[i].entries[j].offset, vmas[i].GetStart()), rows[i].entries[j].value)
  {
    var init := rows[..|rows| - 1];
    if i < |rows| - 1 {
      assert init[..i] == rows[..i];
      FlattenAt(init, vmas, i, j);
    } else {
      assert rows[..i] == init;
      RowMappingsAt(rows[i].entries, vmas[i].GetStart(), j);
    }
  }
}
