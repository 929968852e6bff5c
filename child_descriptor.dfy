/**
 * `ChildDescriptor` of mitosis/src/descriptors/child.rs: the descriptor the
 * child rebuilds from the buffer its parent serialised. Only `deserialize`
 * and `lookup_pg_table` are modelled. The buffer is read as
 *
 *   | RegDescriptor | VMA count (usize) |
 *   | per VMA: VMADescriptor | page count (usize) | 4 pad bytes iff the count is odd |
 *   |          page count x (u32 offset, u64 physical address) |
 *   | RDMADescriptor |
 *
 * The pages are interleaved (offset, address) pairs, unlike the blocked
 * layout of `VMAPageTable`; page `offset` of a VMA is mapped at the VMA's
 * start plus `offset`.
 */
module ChildDescriptors {
  import opened Wrappers
  import opened Bytes
  import opened Seqs
  import opened Components
  import PT = VmaPageTables

  /** The remote page table: virtual page address to physical address. */
  type PageMap = map<u64, u64>

  datatype ChildDescriptor = ChildDescriptor(
    regs: RegDescriptor,
    page_table: PageMap,
    vma: seq<VMADescriptor>,
    machine_info: RDMADescriptor)

  /** Where a page of the VMA starting at `start` is mapped (`virt as u64 + vma_start`, wrapping). */
  function PageKey(e: PT.PageEntry, start: u64): u64
  {
    WrappingAdd(e.offset, start)
  }

  /** `pt.map` for each page in turn: a later page at the same address replaces an earlier one. */
  function MapPages(pt: PageMap, es: seq<PT.PageEntry>, start: u64): PageMap
    decreases |es|
  {
    if es == [] then pt else MapPages(pt[PageKey(es[0], start) := es[0].value], es[1..], start)
  }

  // ---- the reading, as the loops run it ----

  /**
   * The page loop: `k` pages still to read at the head of `b`, mapped into
   * `pt`. Each page is a u32 offset then a u64 address; the loop fails when
   * fewer than those 12 bytes remain.
   */
  function ReadPages(b: seq<byte>, k: nat, start: u64, pt: PageMap): Option<(PageMap, seq<byte>)>
    decreases k
  {
    if k == 0 then Some((pt, b))
    else if |b| < U32_SIZE + U64_SIZE then None
    else
      var virt := ReadU32(b);
      var phy := ReadU64(b[U32_SIZE..]);
      ReadPages(b[U32_SIZE + U64_SIZE..], k - 1, start, pt[WrappingAdd(virt, start) := phy])
  }

  /** `page_num`, then the u32 pad when it is odd: the count and the cursor after them. */
  function ReadPageCount(b: seq<byte>): Option<(nat, seq<byte>)>
  {
    if |b| < USIZE_SIZE then None
    else
      var n := ReadU64(b);
      var c := b[USIZE_SIZE..];
      if n % 2 == 1 then
        if |c| < U32_SIZE then None else Some((n, c[U32_SIZE..]))
      else Some((n, c))
  }

  /** One VMA: its descriptor, then its pages mapped into `pt`. */
  function ReadArea(b: seq<byte>, pt: PageMap): Option<(VMADescriptor, PageMap, seq<byte>)>
  {
    match DecodeVma(b)
    case None => None
    case Some(v) =>
      match ReadPageCount(b[VMA_SIZE..])
      case None => None
      case Some((n, c)) =>
        match ReadPages(c, n, v.GetStart(), pt)
        case None => None
        case Some((pt', c')) => Some((v, pt', c'))
  }

  /** The VMA loop: `n` VMAs still to read, `vmas` those pushed so far. */
  function ReadAreas(b: seq<byte>, n: nat, vmas: seq<VMADescriptor>, pt: PageMap): Option<(seq<VMADescriptor>, PageMap, seq<byte>)>
    decreases n
  {
    if n == 0 then Some((vmas, pt, b))
    else
      match ReadArea(b, pt)
      case None => None
      case Some((v, pt', c)) => ReadAreas(c, n - 1, vmas + [v], pt')
  }

  /** What `deserialize` returns: None as soon as a read or a truncation fails. */
  function Decode(b: seq<byte>): Option<ChildDescriptor>
  {
    match DecodeReg(b)
    case None => None
    case Some(regs) =>
      var b1 := b[REG_SIZE..];
      if |b1| < USIZE_SIZE then None
      else
        match ReadAreas(b1[USIZE_SIZE..], ReadU64(b1), [], map[])
        case None => None
        case Some((vmas, pt, c)) =>
          match DecodeRdma(c)
          case None => None
          case Some(info) => Some(ChildDescriptor(regs, pt, vmas, info))
  }

  /** `lookup_pg_table`: the page table's translation of `virt`, if it has one. */
  function LookupPgTable(c: ChildDescriptor, virt: u64): Option<u64>
  {
    if virt in c.page_table then Some(c.page_table[virt]) else None
  }

  // ---- one step of each loop ----

  lemma PagesStep(b: seq<byte>, k: nat, start: u64, pt: PageMap)
    requires k > 0 && |b| >= U32_SIZE + U64_SIZE
    ensures ReadPages(b, k, start, pt) ==
            ReadPages(b[U32_SIZE + U64_SIZE..], k - 1, start, pt[WrappingAdd(ReadU32(b), start) := ReadU64(b[U32_SIZE..])])
  {
  }

  lemma PagesFail(b: seq<byte>, k: nat, start: u64, pt: PageMap)
    requires k > 0 && |b| < U32_SIZE + U64_SIZE
    ensures ReadPages(b, k, start, pt) == None
  {
  }

  lemma AreasStep(b: seq<byte>, n: nat, vmas: seq<VMADescriptor>, pt: PageMap, v: VMADescriptor, pt': PageMap, c: seq<byte>)
    requires n > 0 && ReadArea(b, pt) == Some((v, pt', c))
    ensures ReadAreas(b, n, vmas, pt) == ReadAreas(c, n - 1, vmas + [v], pt')
  {
  }

  lemma AreasFail(b: seq<byte>, n: nat, vmas: seq<VMADescriptor>, pt: PageMap)
    requires n > 0 && ReadArea(b, pt).None?
    ensures ReadAreas(b, n, vmas, pt) == None
  {
  }

  /** How `ReadArea` ends, once the VMA and the page count have been read. */
  lemma AreaEnd(b: seq<byte>, pt: PageMap, v: VMADescriptor, n: nat, c: seq<byte>)
    requires DecodeVma(b) == Some(v) && ReadPageCount(b[VMA_SIZE..]) == Some((n, c))
    ensures ReadPages(c, n, v.GetStart(), pt).None? ==> ReadArea(b, pt).None?
    ensures ReadPages(c, n, v.GetStart(), pt).Some? ==>
              ReadArea(b, pt) == Some((v, ReadPages(c, n, v.GetStart(), pt).value.0, ReadPages(c, n, v.GetStart(), pt).value.1))
  {
  }

  // ---- deserialize ----

  /**
   * `deserialize`: regs, the VMA count, then per VMA its descriptor, its
   * page count, the pad and its pages (mapped as they are read), then the
   * machine info.
   */
  method Deserialize(bytes: seq<byte>) returns (r: Option<ChildDescriptor>)
    ensures r == Decode(bytes)
  {
    var cur := bytes;
    var regs := DecodeReg(cur);
    if regs.None? {
      return None;
    }
    cur := cur[REG_SIZE..];
    if |cur| < USIZE_SIZE {
      return None;
    }
    var count := ReadU64(cur);
    cur := cur[USIZE_SIZE..];
    ghost var goal := ReadAreas(cur, count, [], map[]);
    var pt: PageMap := map[];
    var vmas: seq<VMADescriptor> := [];
    var left := count;
    while left > 0
      invariant goal == ReadAreas(cur, left, vmas, pt)
    {
      var area := ReadAreaAt(cur, pt);
      if area.None? {
        AreasFail(cur, left, vmas, pt);
        return None;
      }
      var (vma, pt', next) := area.value;
      AreasStep(cur, left, vmas, pt, vma, pt', next);
      cur, pt, vmas, left := next, pt', vmas + [vma], left - 1;
    }
    var info := DecodeRdma(cur);
    if info.None? {
      return None;
    }
    r := Some(ChildDescriptor(regs.value, pt, vmas, info.value));
  }

  /** One turn of the VMA loop: the VMA, its page count and pad, then its pages mapped into `pt`. */
  method ReadAreaAt(b: seq<byte>, pt: PageMap) returns (r: Option<(VMADescriptor, PageMap, seq<byte>)>)
    ensures r == ReadArea(b, pt)
  {
    var vma := DecodeVma(b);
    if vma.None? {
      return None;
    }
    var pageNum, afterCount := ReadPageCountOf(b[VMA_SIZE..]);
    if pageNum.None? {
      return None;
    }
    var pages := ReadPagesAt(afterCount, pageNum.value, vma.value.GetStart(), pt);
    AreaEnd(b, pt, vma.value, pageNum.value, afterCount);
    if pages.None? {
      return None;
    }
    r := Some((vma.value, pages.value.0, pages.value.1));
  }

  /** The page loop: each page's offset, then its address, mapped at the offset plus the VMA's start. */
  method ReadPagesAt(b: seq<byte>, count: nat, start: u64, pt0: PageMap) returns (r: Option<(PageMap, seq<byte>)>)
    ensures r == ReadPages(b, count, start, pt0)
  {
    var cur := b;
    var pt: PageMap := pt0;
    var k := count;
    while k > 0
      invariant ReadPages(b, count, start, pt0) == ReadPages(cur, k, start, pt)
    {
      if |cur| < U32_SIZE {
        PagesFail(cur, k, start, pt);
        return None;
      }
      var virt := ReadU32(cur);
      ghost var page := cur;
      cur := cur[U32_SIZE..];
      if |cur| < U64_SIZE {
        PagesFail(page, k, start, pt);
        return None;
      }
      var phy := ReadU64(cur);
      cur := cur[U64_SIZE..];
      PagesStep(page, k, start, pt);
      DropTwice(page, U32_SIZE, U64_SIZE);
      pt := pt[WrappingAdd(virt, start) := phy];
      k := k - 1;
    }
    r := Some((pt, cur));
  }

  /** The page count and the pad after it, read at the cursor. */
  method ReadPageCountOf(b: seq<byte>) returns (n: Option<nat>, c: seq<byte>)
    ensures n.None? <==> ReadPageCount(b).None?
    ensures n.Some? ==> ReadPageCount(b) == Some((n.value, c))
  {
    if |b| < USIZE_SIZE {
      return None, b;
    }
    var pageNum := ReadU64(b);
    c := b[USIZE_SIZE..];
    if pageNum % 2 == 1 {
      if |c| < U32_SIZE {
        return None, c;
      }
      c := c[U32_SIZE..];
    }
    n := Some(pageNum);
  }

  // ---- what the parent writes, and the round trip ----

  /** One VMA and its pages, as the parent lays them out. */
  datatype Area = Area(vma: VMADescriptor, pages: seq<PT.PageEntry>)

  /** The parent's buffer: the descriptor's parts, with the pages grouped by VMA. */
  datatype Layout = Layout(regs: RegDescriptor, areas: seq<Area>, machine_info: RDMADescriptor)

  /** Every count is a usize. */
  predicate AreasWellSized(areas: seq<Area>)
  {
    forall i :: 0 <= i < |areas| ==> |areas[i].pages| < U64_LIMIT
  }

  predicate WellSized(l: Layout)
  {
    |l.areas| < U64_LIMIT && AreasWellSized(l.areas)
  }

  /** The interleaved pairs: each page's u32 offset, then its u64 address. */
  function PageBytes(es: seq<PT.PageEntry>): (b: seq<byte>)
    ensures |b| == (U32_SIZE + U64_SIZE) * |es|
  {
    if es == [] then [] else U32Bytes(es[0].offset) + U64Bytes(es[0].value) + PageBytes(es[1..])
  }

  function AreaBytes(a: Area): seq<byte>
    requires |a.pages| < U64_LIMIT
  {
    EncodeVma(a.vma) + U64Bytes(|a.pages|) + PT.Pad(|a.pages|) + PageBytes(a.pages)
  }

  function AreasBytes(areas: seq<Area>): seq<byte>
    requires AreasWellSized(areas)
  {
    if areas == [] then [] else AreaBytes(areas[0]) + AreasBytes(areas[1..])
  }

  function Encode(l: Layout): seq<byte>
    requires WellSized(l)
  {
    EncodeReg(l.regs) + U64Bytes(|l.areas|) + AreasBytes(l.areas) + EncodeRdma(l.machine_info)
  }

  /** The VMAs, in buffer order. */
  function Vmas(areas: seq<Area>): (vs: seq<VMADescriptor>)
    ensures |vs| == |areas|
    ensures forall i :: 0 <= i < |areas| ==> vs[i] == areas[i].vma
  {
    seq(|areas|, i requires 0 <= i < |areas| => areas[i].vma)
  }

  /** Every VMA's pages mapped in turn, in buffer order. */
  function MapAreas(pt: PageMap, areas: seq<Area>): PageMap
    decreases |areas|
  {
    if areas == [] then pt else MapAreas(MapPages(pt, areas[0].pages, areas[0].vma.GetStart()), areas[1..])
  }

  /** The descriptor the child should rebuild from `l`. */
  function Expected(l: Layout): ChildDescriptor
  {
    ChildDescriptor(l.regs, MapAreas(map[], l.areas), Vmas(l.areas), l.machine_info)
  }

  lemma {:induction false} PagesRoundTrip(es: seq<PT.PageEntry>, start: u64, pt: PageMap, rest: seq<byte>)
    ensures ReadPages(PageBytes(es) + rest, |es|, start, pt) == Some((MapPages(pt, es, start), rest))
  {
    if es != [] {
      var e := es[0];
      var tail := PageBytes(es[1..]) + rest;
      var b := PageBytes(es) + rest;
      assert b == U32Bytes(e.offset) + (U64Bytes(e.value) + tail) by {
        AppendAssoc(U32Bytes(e.offset) + U64Bytes(e.value), PageBytes(es[1..]), rest);
        AppendAssoc(U32Bytes(e.offset), U64Bytes(e.value), tail);
      }
      ReadU32Bytes(e.offset, U64Bytes(e.value) + tail);
      DropPrefixAt(U32Bytes(e.offset), U64Bytes(e.value) + tail, U32_SIZE);
      ReadU64Bytes(e.value, tail);
      DropPrefixAt(U64Bytes(e.value), tail, U64_SIZE);
      DropTwice(b, U32_SIZE, U64_SIZE);
      PagesStep(b, |es|, start, pt);
      PagesRoundTrip(es[1..], start, pt[PageKey(e, start) := e.value], rest);
    } else {
      AppendNothing(rest);
    }
  }

  /** The page count and the pad read back from their encoding. */
  lemma PageCountRoundTrip(n: u64, rest: seq<byte>)
    ensures ReadPageCount(U64Bytes(n) + PT.Pad(n) + rest) == Some((n, rest))
  {
    var b := U64Bytes(n) + PT.Pad(n) + rest;
    AppendAssoc(U64Bytes(n), PT.Pad(n), rest);
    ReadU64Bytes(n, PT.Pad(n) + rest);
    DropPrefixAt(U64Bytes(n), PT.Pad(n) + rest, USIZE_SIZE);
    if n % 2 == 1 {
      DropPrefixAt(PT.Pad(n), rest, U32_SIZE);
    } else {
      AppendNothing(rest);
    }
  }

  lemma AreaRoundTrip(a: Area, pt: PageMap, rest: seq<byte>)
    requires |a.pages| < U64_LIMIT
    ensures ReadArea(AreaBytes(a) + rest, pt) == Some((a.vma, MapPages(pt, a.pages, a.vma.GetStart()), rest))
  {
    var n := |a.pages|;
    var pages := PageBytes(a.pages) + rest;
    var count := U64Bytes(n) + PT.Pad(n) + pages;
    var b := AreaBytes(a) + rest;
    assert b == EncodeVma(a.vma) + count by {
      AppendAssoc(EncodeVma(a.vma) + U64Bytes(n) + PT.Pad(n), PageBytes(a.pages), rest);
      AppendAssoc(EncodeVma(a.vma) + U64Bytes(n), PT.Pad(n), pages);
      AppendAssoc(EncodeVma(a.vma), U64Bytes(n), PT.Pad(n) + pages);
      AppendAssoc(U64Bytes(n), PT.Pad(n), pages);
    }
    VmaRoundTrip(a.vma, count);
    DropPrefixAt(EncodeVma(a.vma), count, VMA_SIZE);
    PageCountRoundTrip(n, pages);
    PagesRoundTrip(a.pages, a.vma.GetStart(), pt, rest);
    AreaEnd(b, pt, a.vma, n, pages);
  }

  lemma {:induction false} AreasRoundTrip(areas: seq<Area>, vmas: seq<VMADescriptor>, pt: PageMap, rest: seq<byte>)
    requires AreasWellSized(areas)
    ensures ReadAreas(AreasBytes(areas) + rest, |areas|, vmas, pt) == Some((vmas + Vmas(areas), MapAreas(pt, areas), rest))
  {
    if areas != [] {
      var a := areas[0];
      var tail := AreasBytes(areas[1..]) + rest;
      var b := AreasBytes(areas) + rest;
      var pt' := MapPages(pt, a.pages, a.vma.GetStart());
      AppendAssoc(AreaBytes(a), AreasBytes(areas[1..]), rest);
      AreaRoundTrip(a, pt, tail);
      AreasStep(b, |areas|, vmas, pt, a.vma, pt', tail);
      AreasRoundTrip(areas[1..], vmas + [a.vma], pt', rest);
      VmasCons(areas);
      AppendAssoc(vmas, [a.vma], Vmas(areas[1..]));
    } else {
      AppendNothing(rest);
      AppendNothing(vmas);
    }
  }

  lemma VmasCons(areas: seq<Area>)
    requires areas != []
    ensures Vmas(areas) == [areas[0].vma] + Vmas(areas[1..])
  {
    SameElements(Vmas(areas), [areas[0].vma] + Vmas(areas[1..]));
  }

  /** The child rebuilds exactly the parent's descriptor, whatever follows it in the buffer. */
  lemma RoundTrip(l: Layout, rest: seq<byte>)
    requires WellSized(l)
    ensures Decode(Encode(l) + rest) == Some(Expected(l))
  {
    var info := EncodeRdma(l.machine_info) + rest;
    var areas := AreasBytes(l.areas) + info;
    var count := U64Bytes(|l.areas|) + areas;
    var b := Encode(l) + rest;
    assert b == EncodeReg(l.regs) + count by {
      AppendAssoc(EncodeReg(l.regs) + U64Bytes(|l.areas|) + AreasBytes(l.areas), EncodeRdma(l.machine_info), rest);
      AppendAssoc(EncodeReg(l.regs) + U64Bytes(|l.areas|), AreasBytes(l.areas), info);
      AppendAssoc(EncodeReg(l.regs), U64Bytes(|l.areas|), areas);
    }
    RegRoundTrip(l.regs, count);
    DropPrefixAt(EncodeReg(l.regs), count, REG_SIZE);
    ReadU64Bytes(|l.areas|, areas);
    DropPrefixAt(U64Bytes(|l.areas|), areas, USIZE_SIZE);
    AreasRoundTrip(l.areas, [], map[], info);
    AppendNothing(Vmas(l.areas));
    RdmaRoundTrip(l.machine_info, rest);
  }

  // ---- what the child ends up with ----

  /** The VMAs are pushed in buffer order: exactly `n` more than were already pushed. */
  lemma {:induction false} AreasCount(b: seq<byte>, n: nat, vmas: seq<VMADescriptor>, pt: PageMap)
    ensures ReadAreas(b, n, vmas, pt).Some? ==>
              |ReadAreas(b, n, vmas, pt).value.0| == |vmas| + n &&
              ReadAreas(b, n, vmas, pt).value.0[..|vmas|] == vmas
    decreases n
  {
    if n > 0 {
      match ReadArea(b, pt)
      case None =>
        AreasFail(b, n, vmas, pt);
      case Some((v, pt', c)) =>
        AreasStep(b, n, vmas, pt, v, pt', c);
        AreasCount(c, n - 1, vmas + [v], pt');
        if ReadAreas(c, n - 1, vmas + [v], pt').Some? {
          var r := ReadAreas(c, n - 1, vmas + [v], pt').value.0;
          PrefixOfPrefix(r, vmas + [v], |vmas|);
        }
    }
  }

  lemma PrefixOfPrefix<T>(r: seq<T>, p: seq<T>, k: nat)
    requires |p| <= |r| && r[..|p|] == p && k <= |p|
    ensures r[..k] == p[..k]
  {
  }

  /** A decoded descriptor holds exactly as many VMAs as the count in the buffer says. */
  lemma DecodedVmaCount(b: seq<byte>)
    requires Decode(b).Some?
    ensures |b| >= REG_SIZE + USIZE_SIZE && |Decode(b).value.vma| == ReadU64(b[REG_SIZE..])
  {
    var b1 := b[REG_SIZE..];
    AreasCount(b1[USIZE_SIZE..], ReadU64(b1), [], map[]);
  }

  /** Where page `j` of area `a` is mapped. */
  function AreaKey(a: Area, j: nat): u64
    requires j < |a.pages|
  {
    PageKey(a.pages[j], a.vma.GetStart())
  }

  lemma {:induction false} MapPagesHas(pt: PageMap, es: seq<PT.PageEntry>, start: u64, k: u64)
    ensures k in MapPages(pt, es, start) <==> k in pt || exists j :: 0 <= j < |es| && PageKey(es[j], start) == k
    decreases |es|
  {
    if es != [] {
      var pt' := pt[PageKey(es[0], start) := es[0].value];
      MapPagesHas(pt', es[1..], start, k);
      if exists j :: 0 <= j < |es[1..]| && PageKey(es[1..][j], start) == k {
        var j :| 0 <= j < |es[1..]| && PageKey(es[1..][j], start) == k;
        assert PageKey(es[j + 1], start) == k;
      }
      if exists j :: 0 <= j < |es| && PageKey(es[j], start) == k {
        var j :| 0 <= j < |es| && PageKey(es[j], start) == k;
        if j > 0 {
          assert PageKey(es[1..][j - 1], start) == k;
        }
      }
    }
  }

  /** Pages that all miss `k` leave its translation as it was. */
  lemma {:induction false} MapPagesOther(pt: PageMap, es: seq<PT.PageEntry>, start: u64, k: u64)
    requires forall j :: 0 <= j < |es| ==> PageKey(es[j], start) != k
    ensures k in MapPages(pt, es, start) <==> k in pt
    ensures k in pt ==> MapPages(pt, es, start)[k] == pt[k]
    decreases |es|
  {
    if es != [] {
      assert PageKey(es[0], start) != k;
      MapPagesOther(pt[PageKey(es[0], start) := es[0].value], es[1..], start, k);
    }
  }

  /** The last page mapped at an address decides its translation. */
  lemma {:induction false} MapPagesLast(pt: PageMap, es: seq<PT.PageEntry>, start: u64, j: nat)
    requires j < |es|
    requires forall j' :: j < j' < |es| ==> PageKey(es[j'], start) != PageKey(es[j], start)
    ensures PageKey(es[j], start) in MapPages(pt, es, start)
    ensures MapPages(pt, es, start)[PageKey(es[j], start)] == es[j].value
    decreases |es|
  {
    var pt' := pt[PageKey(es[0], start) := es[0].value];
    if j == 0 {
      MapPagesOther(pt', es[1..], start, PageKey(es[0], start));
    } else {
      MapPagesLast(pt', es[1..], start, j - 1);
    }
  }

  lemma {:induction false} MapAreasHas(pt: PageMap, areas: seq<Area>, k: u64)
    ensures k in MapAreas(pt, areas) <==>
            k in pt || exists i, j :: 0 <= i < |areas| && 0 <= j < |areas[i].pages| && AreaKey(areas[i], j) == k
    decreases |areas|
  {
    if areas != [] {
      var a := areas[0];
      var pt' := MapPages(pt, a.pages, a.vma.GetStart());
      MapAreasHas(pt', areas[1..], k);
      MapPagesHas(pt, a.pages, a.vma.GetStart(), k);
      if exists i, j :: 0 <= i < |areas[1..]| && 0 <= j < |areas[1..][i].pages| && AreaKey(areas[1..][i], j) == k {
        var i, j :| 0 <= i < |areas[1..]| && 0 <= j < |areas[1..][i].pages| && AreaKey(areas[1..][i], j) == k;
        assert AreaKey(areas[i + 1], j) == k;
      }
      if exists j :: 0 <= j < |a.pages| && PageKey(a.pages[j], a.vma.GetStart()) == k {
        var j :| 0 <= j < |a.pages| && PageKey(a.pages[j], a.vma.GetStart()) == k;
        assert AreaKey(areas[0], j) == k;
      }
      if exists i, j :: 0 <= i < |areas| && 0 <= j < |areas[i].pages| && AreaKey(areas[i], j) == k {
        var i, j :| 0 <= i < |areas| && 0 <= j < |areas[i].pages| && AreaKey(areas[i], j) == k;
        if i > 0 {
          assert AreaKey(areas[1..][i - 1], j) == k;
        } else {
          assert PageKey(a.pages[j], a.vma.GetStart()) == k;
        }
      }
    }
  }

  lemma {:induction false} MapAreasOther(pt: PageMap, areas: seq<Area>, k: u64)
    requires forall i, j :: 0 <= i < |areas| && 0 <= j < |areas[i].pages| ==> AreaKey(areas[i], j) != k
    ensures k in MapAreas(pt, areas) <==> k in pt
    ensures k in pt ==> MapAreas(pt, areas)[k] == pt[k]
    decreases |areas|
  {
    if areas != [] {
      var a := areas[0];
      forall j | 0 <= j < |a.pages|
        ensures PageKey(a.pages[j], a.vma.GetStart()) != k
      {
        assert AreaKey(areas[0], j) != k;
      }
      MapPagesOther(pt, a.pages, a.vma.GetStart(), k);
      forall i, j | 0 <= i < |areas[1..]| && 0 <= j < |areas[1..][i].pages|
        ensures AreaKey(areas[1..][i], j) != k
      {
        assert AreaKey(areas[i + 1], j) != k;
      }
      MapAreasOther(MapPages(pt, a.pages, a.vma.GetStart()), areas[1..], k);
    }
  }

  /** Page `j` of area `i` is the last page of the buffer mapped at its address. */
  predicate LastAt(areas: seq<Area>, i: nat, j: nat)
    requires i < |areas| && j < |areas[i].pages|
  {
    (forall j' :: j < j' < |areas[i].pages| ==> AreaKey(areas[i], j') != AreaKey(areas[i], j)) &&
    (forall i', j' :: i < i' < |areas| && 0 <= j' < |areas[i'].pages| ==> AreaKey(areas[i'], j') != AreaKey(areas[i], j))
  }

  lemma {:induction false} MapAreasLast(pt: PageMap, areas: seq<Area>, i: nat, j: nat)
    requires i < |areas| && j < |areas[i].pages| && LastAt(areas, i, j)
    ensures AreaKey(areas[i], j) in MapAreas(pt, areas)
    ensures MapAreas(pt, areas)[AreaKey(areas[i], j)] == areas[i].pages[j].value
    decreases |areas|
  {
    var a := areas[0];
    var pt' := MapPages(pt, a.pages, a.vma.GetStart());
    var k := AreaKey(areas[i], j);
    if i == 0 {
      forall j' | j < j' < |a.pages|
        ensures PageKey(a.pages[j'], a.vma.GetStart()) != PageKey(a.pages[j], a.vma.GetStart())
      {
        assert AreaKey(areas[0], j') != k;
      }
      MapPagesLast(pt, a.pages, a.vma.GetStart(), j);
      forall i', j' | 0 <= i' < |areas[1..]| && 0 <= j' < |areas[1..][i'].pages|
        ensures AreaKey(areas[1..][i'], j') != k
      {
        assert AreaKey(areas[i' + 1], j') != k;
      }
      MapAreasOther(pt', areas[1..], k);
    } else {
      assert areas[1..][i - 1] == areas[i];
      forall i', j' | i - 1 < i' < |areas[1..]| && 0 <= j' < |areas[1..][i'].pages|
        ensures AreaKey(areas[1..][i'], j') != k
      {
        assert AreaKey(areas[i' + 1], j') != k;
      }
      MapAreasLast(pt', areas[1..], i - 1, j);
    }
  }

  /** `lookup_pg_table` on the rebuilt descriptor: an address is unmapped iff no page of the buffer lands on it. */
  lemma LookupUnmapped(l: Layout, virt: u64)
    ensures LookupPgTable(Expected(l), virt) == None <==>
            forall i, j :: 0 <= i < |l.areas| && 0 <= j < |l.areas[i].pages| ==> AreaKey(l.areas[i], j) != virt
  {
    MapAreasHas(map[], l.areas, virt);
  }

  /** `lookup_pg_table` on the rebuilt descriptor: the last page of the buffer at an address gives its translation. */
  lemma LookupLast(l: Layout, i: nat, j: nat)
    requires i < |l.areas| && j < |l.areas[i].pages| && LastAt(l.areas, i, j)
    ensures LookupPgTable(Expected(l), AreaKey(l.areas[i], j)) == Some(l.areas[i].pages[j].value)
  {
    MapAreasLast(map[], l.areas, i, j);
  }
}
