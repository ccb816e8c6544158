/** The page-based memory pool of libcwmp/src/pool/mpool.c: its state and what every change of it keeps. */
module MpoolState {

  // Memory is a map from addresses to typed cells. A store erases every cell it overlaps, so an in-band
  // free-list record, a block header or a fence survives only when nothing writes over it: the geometric
  // invariant (all extents pairwise disjoint) is what keeps the lists readable.
  import opened Words

  const POINTER_SIZE := 8    // sizeof(void *)
  const BLOCK_HEADER := 32   // sizeof(mpool_block_t)
  const FREE_RECORD := 16    // sizeof(mpool_free_t), also MIN_ALLOCATION
  const FENCE_SIZE := 2
  const MAX_BITS := 30
  const NULL := 0
  const OS_PAGE := 4096      // getpagesize()

  // ----- size classes ----------------------------------------------------------------------

  function Pow2(k: nat): nat {
    if k == 0 then 1 else 2 * Pow2(k - 1)
  }

  lemma {:induction false} Pow2Monotonic(j: nat, k: nat)
    requires j <= k
    ensures 1 <= Pow2(j) <= Pow2(k)
  {
    if k == 0 {
    } else if j == k {
      Pow2Monotonic(j - 1, k - 1);
    } else {
      Pow2Monotonic(j, k - 1);
    }
  }

  /** Fills bit_array and finds the first classes that can hold a pointer and a free record. */
  method Startup() returns (bits: seq<nat>, minBitFreeNext: nat, minBitFreeSize: nat)
    ensures |bits| == MAX_BITS + 1 && forall k :: 0 <= k <= MAX_BITS ==> bits[k] == Pow2(k)
    ensures 0 < minBitFreeNext <= minBitFreeSize <= MAX_BITS
    ensures Pow2(minBitFreeNext - 1) < POINTER_SIZE <= Pow2(minBitFreeNext)
    ensures Pow2(minBitFreeSize - 1) < FREE_RECORD <= Pow2(minBitFreeSize)
    ensures minBitFreeNext == 3 && minBitFreeSize == 4
  {
    var size := 1;
    bits, minBitFreeNext, minBitFreeSize := [], 0, 0;
    for bitC := 0 to MAX_BITS + 1
      invariant |bits| == bitC && forall k :: 0 <= k < bitC ==> bits[k] == Pow2(k)
      invariant size == Pow2(bitC)
      invariant bitC >= 3 ==> size >= POINTER_SIZE
      invariant minBitFreeNext == (if bitC <= 3 then 0 else 3)
      invariant minBitFreeSize == (if bitC <= 4 then 0 else 4)
      invariant bitC == 0 ==> size == 1
      invariant bitC == 1 ==> size == 2
      invariant bitC == 2 ==> size == 4
      invariant bitC == 3 ==> size == 8
      invariant bitC >= 4 ==> size >= FREE_RECORD
    {
      bits := bits + [size];
      if minBitFreeNext == 0 && size >= POINTER_SIZE {
        minBitFreeNext := bitC;
      }
      if minBitFreeSize == 0 && size >= FREE_RECORD {
        minBitFreeSize := bitC;
      }
      size := size * 2;
    }
    SmallPowers();
  }

  lemma SmallPowers()
    ensures Pow2(0) == 1 && Pow2(1) == 2 && Pow2(2) == 4 && Pow2(3) == 8 && Pow2(4) == 16
  {
    assert Pow2(4) == 2 * Pow2(3) == 2 * 2 * Pow2(2);
  }

  /** The least class that is sure to be big enough; MAX_BITS + 1 when there is none. */
  method SizeToBits(size: nat) returns (bitC: nat)
    ensures bitC <= MAX_BITS + 1
    ensures bitC <= MAX_BITS ==> size <= Pow2(bitC)
    ensures forall k :: 0 <= k < bitC ==> Pow2(k) < size
  {
    bitC := 0;
    while bitC <= MAX_BITS
      invariant bitC <= MAX_BITS + 1
      invariant forall k :: 0 <= k < bitC ==> Pow2(k) < size
    {
      if size <= Pow2(bitC) {
        break;
      }
      bitC := bitC + 1;
    }
  }

  /** Chunks of `size` bytes belong on list k: the greatest power of two not above the size. */
  predicate InClass(k: int, size: nat) {
    0 <= k <= MAX_BITS && Pow2(k) <= size && (k < MAX_BITS ==> size < Pow2(k + 1))
  }

  method SizeToFreeBits(size: nat) returns (bitC: nat)
    ensures size == 0 ==> bitC == 0
    ensures size > 0 ==> InClass(bitC, size)
  {
    if size == 0 {
      return 0;
    }
    var k := 0;
    while k <= MAX_BITS
      invariant k <= MAX_BITS + 1
      invariant k > 0 ==> Pow2(k - 1) <= size
    {
      if size < Pow2(k) {
        break;
      }
      k := k + 1;
    }
    return k - 1;
  }

  /** A free chunk found by searching upward from size_to_bits(size) is big enough, although it
      was filed by size_to_free_bits; and no request reaches a list that has no free record. */
  lemma SearchIsSound(size: nat, start: nat, k: nat, chunk: nat)
    requires FREE_RECORD <= size
    requires start <= MAX_BITS ==> size <= Pow2(start)
    requires forall j :: 0 <= j < start ==> Pow2(j) < size
    requires start <= k && InClass(k, chunk)
    ensures size <= chunk && 4 <= k
  {
    Pow2Monotonic(start, k);
    SmallPowers();
    if start < 4 {
      Pow2Monotonic(start, 3);
      assert false;
    }
  }

  // ----- page arithmetic -------------------------------------------------------------------

  /** PAGES_IN_SIZE */
  function Pages(p: nat, size: nat): nat
    requires p > 0
  {
    (size + BLOCK_HEADER + p - 1) / p
  }

  /** SIZE_OF_PAGES */
  function SizeOfPages(p: nat, n: int): int {
    n * p
  }

  lemma SizeSplits(p: nat, m: int, n: int)
    ensures SizeOfPages(p, m - n) == SizeOfPages(p, m) - SizeOfPages(p, n)
    ensures SizeOfPages(p, 1) == p && SizeOfPages(p, m - 1) == SizeOfPages(p, m) - p
  {
    assert (m - n) * p == m * p - n * p;
  }

  lemma SizeMonotonic(p: nat, x: int, y: int)
    requires x <= y
    ensures SizeOfPages(p, x) <= SizeOfPages(p, y)
  {
  }

  lemma SizeAligned(p: nat, n: int)
    requires p % 8 == 0
    ensures SizeOfPages(p, n) % 8 == 0
  {
    var q := p / 8;
    assert p == 8 * q;
    assert n * p == 8 * (n * q);
    var t := n * q;
    assert (8 * t) % 8 == 0;
  }

  lemma PagesBounds(p: nat, size: nat)
    requires p > 0
    ensures 1 <= Pages(p, size)
    ensures SizeOfPages(p, Pages(p, size) - 1) < size + BLOCK_HEADER <= SizeOfPages(p, Pages(p, size))
  {
    var t := size + BLOCK_HEADER + p - 1;
    var q, r := t / p, t % p;
    assert t == q * p + r;
    assert (q - 1) * p == q * p - p;
  }

  lemma PagesUnique(p: nat, size: nat, n: int)
    requires p > 0 && SizeOfPages(p, n - 1) < size + BLOCK_HEADER <= SizeOfPages(p, n)
    ensures Pages(p, size) == n
  {
    hide Pages, SizeOfPages;
    PagesBounds(p, size);
    if Pages(p, size) < n {
      SizeMonotonic(p, Pages(p, size), n - 1);
    } else if Pages(p, size) > n {
      SizeMonotonic(p, n, Pages(p, size) - 1);
    }
  }

  lemma PagesMonotonic(p: nat, s: nat, t: nat)
    requires p > 0 && s <= t
    ensures Pages(p, s) <= Pages(p, t)
  {
    hide Pages, SizeOfPages;
    PagesBounds(p, s);
    PagesBounds(p, t);
    if Pages(p, t) < Pages(p, s) {
      SizeMonotonic(p, Pages(p, t), Pages(p, s) - 1);
    }
  }

  /** A run of n pages holds n pages' worth of user memory. */
  lemma PagesOfRun(p: nat, n: nat)
    requires p > BLOCK_HEADER && 1 <= n
    ensures p <= SizeOfPages(p, n) && Pages(p, SizeOfPages(p, n) - BLOCK_HEADER) == n
  {
    SizeMonotonic(p, 1, n);
    SizeSplits(p, n, 1);
    PagesUnique(p, SizeOfPages(p, n) - BLOCK_HEADER, n);
  }

  /** Rounding a request up to pointer size, as the loop at the head of get_space does. */
  function RoundUp(size: nat): nat {
    (size + POINTER_SIZE - 1) / POINTER_SIZE * POINTER_SIZE
  }

  /** Rounding never moves a request to another page count. */
  lemma RoundingKeepsPages(p: nat, size: nat)
    requires p > 0 && p % 8 == 0
    ensures Pages(p, RoundUp(size)) == Pages(p, size)
  {
    hide Pages, SizeOfPages;
    PagesBounds(p, size);
    SizeAligned(p, Pages(p, size));
    assert RoundUp(size) <= SizeOfPages(p, Pages(p, size)) - BLOCK_HEADER;
    PagesUnique(p, RoundUp(size), Pages(p, size));
  }

  // ----- extents ---------------------------------------------------------------------------

  datatype Settings = Settings(pageSize: nat, maxPages: nat, noFree: bool) {
    /** mpool_open accepts only multiples of the system page size; the page size is an unsigned int. */
    predicate Ok() {
      0 < pageSize < UNSIGNED_INT && pageSize % OS_PAGE == 0
    }

    function Fence(): nat {
      if noFree then 0 else FENCE_SIZE
    }

    /** MAX_BLOCK_USER_MEMORY */
    function MaxUser(): nat
      requires Ok()
    {
      pageSize - BLOCK_HEADER
    }

    /** What free_pointer files for `size` bytes: a whole run of pages once they exceed one. */
    function RealSize(size: nat): nat
      requires Ok()
    {
      if size > MaxUser() then
        PagesBounds(pageSize, size);
        SizeOfPages(pageSize, Pages(pageSize, size)) - BLOCK_HEADER
      else
        size
    }
  }

  type Config = s: Settings | s.Ok() witness Settings(OS_PAGE, 0, false)

  datatype Kind = Header(bounds: int) | Live(size: nat) | Chunk(bit: nat)
  datatype Ext = Ext(len: nat, kind: Kind, blk: int)

  datatype Cell =
    | HeaderCell(bounds: int, next: int)
    | FreeCell(next: int, size: nat)
    | NextCell(next: int)
    | FenceCell
    | ByteCell(value: int)

  function CellSize(cell: Cell): nat {
    match cell
    case HeaderCell(_, _) => BLOCK_HEADER
    case FreeCell(_, _) => FREE_RECORD
    case NextCell(_) => POINTER_SIZE
    case FenceCell => FENCE_SIZE
    case ByteCell(_) => 1
  }

  type Memory = map<int, Cell>

  predicate Apart(a: int, la: int, b: int, lb: int) {
    a + la <= b || b + lb <= a
  }

  /** Writes `cell` at `a`; every cell it overlaps is gone. */
  function Store(m: Memory, a: int, cell: Cell): Memory {
    (map x | x in m && Apart(x, CellSize(m[x]), a, CellSize(cell)) :: m[x])[a := cell]
  }

  /** Leaves `len` bytes at `a` without any known content. */
  function Forget(m: Memory, a: int, len: nat): Memory {
    map x | x in m && Apart(x, CellSize(m[x]), a, len) :: m[x]
  }

  predicate SameOutside(m: Memory, n: Memory, lo: int, hi: int) {
    forall x :: x in m && Apart(x, CellSize(m[x]), lo, hi - lo) ==> x in n && n[x] == m[x]
  }

  datatype View = View(own: map<int, Ext>, lists: seq<seq<int>>, blocks: seq<int>)
  datatype Heap = Heap(free: seq<int>, first: int, mem: Memory)

  function LiveOf(own: map<int, Ext>): map<int, nat> {
    map a | a in own && own[a].kind.Live? :: own[a].kind.size
  }

  function Head(s: seq<int>): int {
    if s == [] then NULL else s[0]
  }

  function NextOf(s: seq<int>, i: nat): int {
    if i + 1 < |s| then s[i + 1] else NULL
  }

  /** The bounds of a block lie a whole number of pages above its header, less than 2^32 bytes in all. */
  predicate WholePages(c: Config, blk: int, bounds: int)
  {
    c.pageSize <= bounds - blk < UNSIGNED_INT &&
    SizeOfPages(c.pageSize, Pages(c.pageSize, bounds - blk - BLOCK_HEADER)) == bounds - blk
  }

  /** An extent lies in its block, and one longer than a page's user memory is all of its block. */
  predicate Placed(c: Config, own: map<int, Ext>, a: int, e: Ext)
  {
    if e.kind.Header? then
      e.len == BLOCK_HEADER && e.blk == a && WholePages(c, a, e.kind.bounds)
    else
      && e.blk in own && own[e.blk].kind.Header?
      && e.blk + BLOCK_HEADER <= a && a + e.len <= own[e.blk].kind.bounds
      && (e.len > c.MaxUser() ==> a == e.blk + BLOCK_HEADER && a + e.len == own[e.blk].kind.bounds)
      && (e.kind.Live? ==> FREE_RECORD <= e.kind.size && e.len == c.RealSize(e.kind.size + c.Fence()))
  }

  ghost predicate Geometry(c: Config, own: map<int, Ext>)
  {
    && (forall a :: a in own ==> 0 < a && a % POINTER_SIZE == 0 && 1 <= own[a].len && Placed(c, own, a, own[a]))
    && (forall a, b :: a in own && b in own && a != b ==> Apart(a, own[a].len, b, own[b].len))
    && (forall a, b :: a in own && b in own && own[a].kind.Header? && own[b].kind.Header? && a != b ==>
          own[a].kind.bounds <= b || own[b].kind.bounds <= a)
  }

  /** The chunks of the pool are exactly the entries of the free lists, each filed by its size. */
  ghost predicate Filed(v: View) {
    && |v.lists| == MAX_BITS + 1
    && (forall k, i :: 0 <= k <= MAX_BITS && 0 <= i < |v.lists[k]| ==>
          v.lists[k][i] in v.own && v.own[v.lists[k][i]].kind == Chunk(k) && InClass(k, v.own[v.lists[k][i]].len))
    && (forall a :: a in v.own && v.own[a].kind.Chunk? ==>
          v.own[a].kind.bit <= MAX_BITS && a in v.lists[v.own[a].kind.bit])
    && (forall k, i, j :: 0 <= k <= MAX_BITS && 0 <= i < j < |v.lists[k]| ==> v.lists[k][i] != v.lists[k][j])
  }

  /** The record free_pointer copies into a chunk: a next pointer, with the size where it fits. */
  function Record(k: nat, next: int, len: nat): Cell {
    if k < 4 then NextCell(next) else FreeCell(next, len)
  }

  /** The i-th chunk of list k carries its record, which points at the next chunk of the list. */
  ghost predicate LinkAt(v: View, h: Heap, k: nat, i: nat)
    requires Filed(v) && k <= MAX_BITS && i < |v.lists[k]|
  {
    v.lists[k][i] in h.mem &&
    h.mem[v.lists[k][i]] == Record(k, NextOf(v.lists[k], i), v.own[v.lists[k][i]].len)
  }

  ghost predicate Linked(v: View, h: Heap)
    requires Filed(v)
  {
    && |h.free| == MAX_BITS + 1
    && (forall k :: 0 <= k <= MAX_BITS ==> h.free[k] == Head(v.lists[k]))
    && (forall k :: 0 <= k < 3 ==> |v.lists[k]| <= 1)
    && (forall k, i :: 3 <= k <= MAX_BITS && 0 <= i < |v.lists[k]| ==> LinkAt(v, h, k, i))
  }

  ghost predicate HeaderAt(v: View, h: Heap, i: nat)
    requires i < |v.blocks| && v.blocks[i] in v.own && v.own[v.blocks[i]].kind.Header?
  {
    v.blocks[i] in h.mem &&
    h.mem[v.blocks[i]] == HeaderCell(v.own[v.blocks[i]].kind.bounds, NextOf(v.blocks, i))
  }

  /** The block list starting at mp_first_p visits every block header once. */
  ghost predicate Chained(v: View, h: Heap) {
    && h.first == Head(v.blocks)
    && (forall i :: 0 <= i < |v.blocks| ==> v.blocks[i] in v.own && v.own[v.blocks[i]].kind.Header?)
    && (forall i :: 0 <= i < |v.blocks| ==> HeaderAt(v, h, i))
    && (forall i, j :: 0 <= i < j < |v.blocks| ==> v.blocks[i] != v.blocks[j])
    && (forall a :: a in v.own && v.own[a].kind.Header? ==> a in v.blocks)
  }

  ghost predicate Fenced(c: Config, v: View, h: Heap) {
    c.noFree || forall a :: a in v.own && v.own[a].kind.Live? ==>
      a + v.own[a].kind.size in h.mem && h.mem[a + v.own[a].kind.size] == FenceCell
  }

  ghost predicate Inv(c: Config, v: View, h: Heap) {
    Geometry(c, v.own) && Filed(v) && Linked(v, h) && Chained(v, h) && Fenced(c, v, h)
  }

  ghost predicate Outside(own: map<int, Ext>, lo: int, hi: int) {
    forall a :: a in own ==> Apart(a, own[a].len, lo, hi - lo)
  }

  ghost predicate OffChunks(own: map<int, Ext>, lo: int, hi: int) {
    forall a :: a in own && own[a].kind.Chunk? ==> Apart(a, own[a].len, lo, hi - lo)
  }

  ghost predicate OffHeaders(own: map<int, Ext>, lo: int, hi: int) {
    forall a :: a in own && own[a].kind.Header? ==> Apart(a, BLOCK_HEADER, lo, hi - lo)
  }

  ghost predicate OffFences(own: map<int, Ext>, lo: int, hi: int) {
    forall a :: a in own && own[a].kind.Live? ==> Apart(a + own[a].kind.size, FENCE_SIZE, lo, hi - lo)
  }

  /** A stretch of block `blk` that no extent touches. */
  ghost predicate Hole(own: map<int, Ext>, blk: int, lo: int, hi: int) {
    && blk in own && own[blk].kind.Header?
    && blk + BLOCK_HEADER <= lo < hi <= own[blk].kind.bounds
    && lo % POINTER_SIZE == 0
    && Outside(own, lo, hi)
  }

  /** Room for `len` bytes at `a`, which is the whole block when they exceed one page. */
  ghost predicate Room(c: Config, own: map<int, Ext>, blk: int, a: int, len: nat)
  {
    Hole(own, blk, a, a + len) &&
    (len > c.MaxUser() ==> a == blk + BLOCK_HEADER && a + len == own[blk].kind.bounds)
  }

  // ----- the primitive changes of state ----------------------------------------------------

  lemma StoreKeepsLinked(v: View, h: Heap, m: Memory, lo: int, hi: int)
    requires Filed(v) && Linked(v, h) && OffChunks(v.own, lo, hi) && SameOutside(h.mem, m, lo, hi)
    ensures Linked(v, h.(mem := m))
  {
    forall k, i | 3 <= k <= MAX_BITS && 0 <= i < |v.lists[k]|
      ensures LinkAt(v, h.(mem := m), k, i)
    {
      assert LinkAt(v, h, k, i);
      var a := v.lists[k][i];
      RecordFits(k, v.own[a].len, NextOf(v.lists[k], i));
      assert Apart(a, v.own[a].len, lo, hi - lo);
    }
  }

  lemma StoreKeepsChained(v: View, h: Heap, m: Memory, lo: int, hi: int)
    requires Chained(v, h) && OffHeaders(v.own, lo, hi) && SameOutside(h.mem, m, lo, hi)
    ensures Chained(v, h.(mem := m))
  {
    forall i | 0 <= i < |v.blocks|
      ensures HeaderAt(v, h.(mem := m), i)
    {
      assert HeaderAt(v, h, i);
    }
  }

  lemma StoreKeepsFenced(c: Config, v: View, h: Heap, m: Memory, lo: int, hi: int)
    requires Fenced(c, v, h) && (c.noFree || OffFences(v.own, lo, hi)) && SameOutside(h.mem, m, lo, hi)
    ensures Fenced(c, v, h.(mem := m))
  {
  }

  /** Writing where no extent lies, nor in a header, touches no record, header or fence. */
  lemma OutsideIsOff(c: Config, own: map<int, Ext>, lo: int, hi: int)
    requires Geometry(c, own) && Outside(own, lo, hi)
    ensures OffChunks(own, lo, hi) && OffHeaders(own, lo, hi) && (c.noFree || OffFences(own, lo, hi))
  {
    forall a | a in own
      ensures own[a].kind.Header? ==> Apart(a, BLOCK_HEADER, lo, hi - lo)
      ensures own[a].kind.Live? && !c.noFree ==> Apart(a + own[a].kind.size, FENCE_SIZE, lo, hi - lo)
    {
      LiveCovers(c, own, a);
      assert Apart(a, own[a].len, lo, hi - lo);
    }
  }

  /** The same for a client writing into its own bytes. */
  lemma OwnBytesAreOff(c: Config, own: map<int, Ext>, b: int, lo: int, hi: int)
    requires Geometry(c, own) && b in own && own[b].kind.Live? && b <= lo <= hi <= b + own[b].kind.size
    ensures OffChunks(own, lo, hi) && OffHeaders(own, lo, hi) && (c.noFree || OffFences(own, lo, hi))
  {
    LiveCovers(c, own, b);
    forall a | a in own
      ensures own[a].kind.Chunk? ==> Apart(a, own[a].len, lo, hi - lo)
      ensures own[a].kind.Header? ==> Apart(a, BLOCK_HEADER, lo, hi - lo)
      ensures own[a].kind.Live? && !c.noFree ==> Apart(a + own[a].kind.size, FENCE_SIZE, lo, hi - lo)
    {
      LiveCovers(c, own, a);
      assert a != b ==> Apart(a, own[a].len, b, own[b].len);
    }
  }

  lemma LiveCovers(c: Config, own: map<int, Ext>, a: int)
    requires Geometry(c, own) && a in own
    ensures own[a].kind.Live? ==> own[a].kind.size + c.Fence() <= own[a].len
    ensures own[a].kind.Header? ==> own[a].len == BLOCK_HEADER
  {
    assert Placed(c, own, a, own[a]);
    if own[a].kind.Live? {
      LiveLength(c, own[a].kind.size);
    }
  }

  lemma StoreOff(c: Config, v: View, h: Heap, m: Memory, lo: int, hi: int)
    requires Inv(c, v, h) && SameOutside(h.mem, m, lo, hi)
    requires OffChunks(v.own, lo, hi) && OffHeaders(v.own, lo, hi) && (c.noFree || OffFences(v.own, lo, hi))
    ensures Inv(c, v, h.(mem := m))
  {
    hide Geometry, Filed, Linked, Chained, Fenced, OffChunks, OffHeaders, OffFences, SameOutside;
    StoreKeepsLinked(v, h, m, lo, hi);
    StoreKeepsChained(v, h, m, lo, hi);
    StoreKeepsFenced(c, v, h, m, lo, hi);
  }

  /** Writing where no extent lies keeps every list, the block chain and every fence readable. */
  lemma StoreOutside(c: Config, v: View, h: Heap, m: Memory, lo: int, hi: int)
    requires Inv(c, v, h) && Outside(v.own, lo, hi) && SameOutside(h.mem, m, lo, hi)
    ensures Inv(c, v, h.(mem := m))
  {
    hide Geometry, Filed, Linked, Chained, Fenced, Outside, OffChunks, OffHeaders, OffFences, SameOutside;
    OutsideIsOff(c, v.own, lo, hi);
    StoreOff(c, v, h, m, lo, hi);
  }

  /** A client writing into its own bytes cannot disturb the pool. */
  lemma OwnWriteKeepsInv(c: Config, v: View, h: Heap, m: Memory, b: int, lo: int, hi: int)
    requires Inv(c, v, h) && b in v.own && v.own[b].kind.Live? && b <= lo <= hi <= b + v.own[b].kind.size
    requires SameOutside(h.mem, m, lo, hi)
    ensures Inv(c, v, h.(mem := m))
  {
    hide Geometry, Filed, Linked, Chained, Fenced, OffChunks, OffHeaders, OffFences, SameOutside;
    OwnBytesAreOff(c, v.own, b, lo, hi);
    StoreOff(c, v, h, m, lo, hi);
  }

  /** In-band records always fit in their chunk. */
  lemma RecordFits(k: nat, len: nat, next: int)
    requires 3 <= k && InClass(k, len)
    ensures CellSize(Record(k, next, len)) <= len
  {
    SmallPowers();
    Pow2Monotonic(if k < 4 then 3 else 4, k);
  }

  lemma LiveLength(c: Config, size: nat)
    ensures size + c.Fence() <= c.RealSize(size + c.Fence())
  {
    PagesBounds(c.pageSize, size + c.Fence());
  }

  /** A hole holds no extent, not even at its first address. */
  lemma HoleIsFree(c: Config, own: map<int, Ext>, blk: int, lo: int, hi: int)
    requires Geometry(c, own) && Hole(own, blk, lo, hi)
    ensures lo !in own && 0 < lo
  {
    assert lo in own ==> Apart(lo, own[lo].len, lo, hi - lo);
  }

  lemma PlaceKeepsGeometry(c: Config, own: map<int, Ext>, a: int, e: Ext)
    requires Geometry(c, own)
    requires !e.kind.Header? && 1 <= e.len && Hole(own, e.blk, a, a + e.len) && Placed(c, own, a, e)
    ensures a !in own && Geometry(c, own[a := e])
  {
    HoleIsFree(c, own, e.blk, a, a + e.len);
    var own' := own[a := e];
    forall x | x in own'
      ensures 0 < x && x % POINTER_SIZE == 0 && 1 <= own'[x].len && Placed(c, own', x, own'[x])
    {
      assert x != a ==> Placed(c, own, x, own[x]);
    }
  }

  lemma RemoveKeepsGeometry(c: Config, own: map<int, Ext>, a: int)
    requires Geometry(c, own) && a in own && !own[a].kind.Header?
    ensures Geometry(c, own - {a})
    ensures Room(c, own - {a}, own[a].blk, a, own[a].len)
  {
    var own' := own - {a};
    assert Placed(c, own, a, own[a]);
    forall x | x in own'
      ensures Placed(c, own', x, own'[x])
    {
      assert Placed(c, own, x, own[x]);
    }
  }

  /** Two views with the same headers, or the same live extents. */
  ghost predicate SameHeaders(v: View, w: View) {
    && v.blocks == w.blocks
    && (forall x :: x in v.own && v.own[x].kind.Header? ==> x in w.own && w.own[x] == v.own[x])
    && (forall x :: x in w.own && w.own[x].kind.Header? ==> x in v.own && v.own[x].kind.Header?)
  }

  ghost predicate SameLive(v: View, w: View) {
    forall x :: x in w.own && w.own[x].kind.Live? ==> x in v.own && v.own[x] == w.own[x]
  }

  lemma ChainedAgrees(v: View, w: View, h: Heap, free: seq<int>)
    requires Chained(v, h) && SameHeaders(v, w)
    ensures Chained(w, h.(free := free))
  {
    forall i | 0 <= i < |w.blocks|
      ensures w.blocks[i] in w.own && w.own[w.blocks[i]].kind.Header? && HeaderAt(w, h.(free := free), i)
    {
      assert HeaderAt(v, h, i);
    }
  }

  lemma FencedAgrees(c: Config, v: View, w: View, h: Heap, free: seq<int>)
    requires Fenced(c, v, h) && SameLive(v, w)
    ensures forall first :: Fenced(c, w, h.(free := free, first := first))
  {
  }

  // Filing a chunk at the head of list k.

  ghost function PushView(v: View, blk: int, a: int, len: nat, k: nat): View
    requires k < |v.lists|
  {
    View(v.own[a := Ext(len, Chunk(k), blk)], v.lists[k := [a] + v.lists[k]], v.blocks)
  }

  ghost function PushHeap(h: Heap, a: int, len: nat, k: nat): Heap
    requires k < |h.free|
  {
    Heap(h.free[k := a], h.first, if k < 3 then h.mem else Store(h.mem, a, Record(k, h.free[k], len)))
  }

  lemma PushKeepsFiled(v: View, blk: int, a: int, len: nat, k: nat)
    requires Filed(v) && a !in v.own && InClass(k, len)
    ensures Filed(PushView(v, blk, a, len, k))
  {
    var v' := PushView(v, blk, a, len, k);
    forall j, i | 0 <= j <= MAX_BITS && 0 <= i < |v'.lists[j]|
      ensures v'.lists[j][i] in v'.own && v'.own[v'.lists[j][i]].kind == Chunk(j) && InClass(j, v'.own[v'.lists[j][i]].len)
    {
      if j == k && i > 0 {
        assert v'.lists[j][i] == v.lists[j][i - 1];
      } else if j != k {
        assert v'.lists[j][i] == v.lists[j][i];
      }
    }
    forall x | x in v'.own && v'.own[x].kind.Chunk?
      ensures v'.own[x].kind.bit <= MAX_BITS && x in v'.lists[v'.own[x].kind.bit]
    {
      if x == a {
        assert v'.lists[k][0] == a;
      } else {
        var j := v.own[x].kind.bit;
        var i :| 0 <= i < |v.lists[j]| && v.lists[j][i] == x;
        assert v'.lists[j][if j == k then i + 1 else i] == x;
      }
    }
    forall j, i, l | 0 <= j <= MAX_BITS && 0 <= i < l < |v'.lists[j]|
      ensures v'.lists[j][i] != v'.lists[j][l]
    {
      if j == k {
        assert v'.lists[j][l] == v.lists[j][l - 1];
        if i > 0 {
          assert v'.lists[j][i] == v.lists[j][i - 1];
        }
      }
    }
  }

  lemma PushKeepsLinked(v: View, h: Heap, blk: int, a: int, len: nat, k: nat)
    requires Filed(v) && Linked(v, h) && a !in v.own && InClass(k, len)
    requires OffChunks(v.own, a, a + len) && Filed(PushView(v, blk, a, len, k))
    requires k < 3 ==> v.lists[k] == []
    ensures Linked(PushView(v, blk, a, len, k), PushHeap(h, a, len, k))
  {
    hide NextOf, Outside;
    var v', h' := PushView(v, blk, a, len, k), PushHeap(h, a, len, k);
    if k >= 3 {
      RecordFits(k, len, h.free[k]);
      StoreKeepsLinked(v, h, h'.mem, a, a + len);
    }
    forall j, i | 3 <= j <= MAX_BITS && 0 <= i < |v'.lists[j]|
      ensures LinkAt(v', h', j, i)
    {
      if j == k && i > 0 {
        assert LinkAt(v, h.(mem := h'.mem), j, i - 1);
        PrependedAt(v.lists[j], a, i);
      } else if j == k {
        PrependedAt(v.lists[j], a, 0);
      } else {
        assert LinkAt(v, h.(mem := h'.mem), j, i);
      }
    }
  }

  lemma PushKeepsInv(c: Config, v: View, h: Heap, blk: int, a: int, len: nat, k: nat)
    requires Inv(c, v, h) && 1 <= len && Room(c, v.own, blk, a, len) && InClass(k, len)
    requires k < 3 ==> v.lists[k] == []
    ensures Inv(c, PushView(v, blk, a, len, k), PushHeap(h, a, len, k))
  {
    hide Geometry, Chained, Fenced;
    var v', h' := PushView(v, blk, a, len, k), PushHeap(h, a, len, k);
    PlaceKeepsGeometry(c, v.own, a, Ext(len, Chunk(k), blk));
    PushKeepsFiled(v, blk, a, len, k);
    OutsideIsOff(c, v.own, a, a + len);
    PushKeepsLinked(v, h, blk, a, len, k);
    PushKeepsChainedFenced(c, v, h, blk, a, len, k);
  }

  lemma PushKeepsChainedFenced(c: Config, v: View, h: Heap, blk: int, a: int, len: nat, k: nat)
    requires Geometry(c, v.own) && Chained(v, h) && Fenced(c, v, h) && a !in v.own
    requires Outside(v.own, a, a + len) && InClass(k, len) && k < |v.lists| && k < |h.free|
    ensures Chained(PushView(v, blk, a, len, k), PushHeap(h, a, len, k))
    ensures Fenced(c, PushView(v, blk, a, len, k), PushHeap(h, a, len, k))
  {
    hide Geometry, Chained, Fenced, Outside, OffHeaders, OffFences;
    var w, h' := PushView(v, blk, a, len, k), PushHeap(h, a, len, k);
    if k >= 3 {
      RecordFits(k, len, h.free[k]);
      OutsideIsOff(c, v.own, a, a + len);
      StoreKeepsChained(v, h, h'.mem, a, a + len);
      StoreKeepsFenced(c, v, h, h'.mem, a, a + len);
    }
    ChainedAgrees(v, w, h.(mem := h'.mem), h'.free);
    FencedAgrees(c, v, w, h.(mem := h'.mem), h'.free);
  }

  // Taking the chunk at the head of list k off it.

  ghost function PopView(v: View, k: nat): View
    requires k < |v.lists| && v.lists[k] != []
  {
    View(v.own - {v.lists[k][0]}, v.lists[k := v.lists[k][1..]], v.blocks)
  }

  lemma PopKeepsFiled(v: View, k: nat)
    requires Filed(v) && k <= MAX_BITS && v.lists[k] != []
    ensures Filed(PopView(v, k))
  {
    var v', a := PopView(v, k), v.lists[k][0];
    forall j, i | 0 <= j <= MAX_BITS && 0 <= i < |v'.lists[j]|
      ensures v'.lists[j][i] in v'.own && v'.own[v'.lists[j][i]].kind == Chunk(j) && InClass(j, v'.own[v'.lists[j][i]].len)
    {
      var i' := if j == k then i + 1 else i;
      assert v'.lists[j][i] == v.lists[j][i'];
      assert v.own[v.lists[j][i']].kind == Chunk(j);
    }
    forall x | x in v'.own && v'.own[x].kind.Chunk?
      ensures v'.own[x].kind.bit <= MAX_BITS && x in v'.lists[v'.own[x].kind.bit]
    {
      var j := v.own[x].kind.bit;
      var i :| 0 <= i < |v.lists[j]| && v.lists[j][i] == x;
      if j == k {
        assert v'.lists[j][i - 1] == x;
      }
    }
  }

  lemma PopKeepsLinked(v: View, h: Heap, k: nat)
    requires Filed(v) && Linked(v, h) && 4 <= k <= MAX_BITS && v.lists[k] != [] && Filed(PopView(v, k))
    ensures LinkAt(v, h, k, 0)
    ensures Linked(PopView(v, k), h.(free := h.free[k := h.mem[v.lists[k][0]].next]))
  {
    assert LinkAt(v, h, k, 0);
    var v', h' := PopView(v, k), h.(free := h.free[k := h.mem[v.lists[k][0]].next]);
    forall j, i | 3 <= j <= MAX_BITS && 0 <= i < |v'.lists[j]|
      ensures LinkAt(v', h', j, i)
    {
      var i' := if j == k then i + 1 else i;
      assert LinkAt(v, h, j, i');
      assert v'.lists[j][i] == v.lists[j][i'];
      assert NextOf(v'.lists[j], i) == NextOf(v.lists[j], i');
    }
    assert NextOf(v.lists[k], 0) == Head(v'.lists[k]);
  }

  lemma PopKeepsInv(c: Config, v: View, h: Heap, k: nat)
    requires Inv(c, v, h) && 4 <= k <= MAX_BITS && v.lists[k] != []
    ensures v.lists[k][0] in v.own && h.free[k] == v.lists[k][0] && LinkAt(v, h, k, 0)
    ensures Inv(c, PopView(v, k), h.(free := h.free[k := h.mem[v.lists[k][0]].next]))
    ensures Room(c, PopView(v, k).own, v.own[v.lists[k][0]].blk, v.lists[k][0], v.own[v.lists[k][0]].len)
  {
    hide Geometry, Chained, Fenced, Hole;
    RemoveKeepsGeometry(c, v.own, v.lists[k][0]);
    PopKeepsFiled(v, k);
    PopKeepsLinked(v, h, k);
    var w, h' := PopView(v, k), h.(free := h.free[k := h.mem[v.lists[k][0]].next]);
    assert Chained(w, h') by {
      ChainedAgrees(v, w, h, h'.free);
    }
    assert Fenced(c, w, h') by {
      FencedAgrees(c, v, w, h, h'.free);
    }
  }

  // Handing out an extent: the fence goes just above the user's bytes.

  ghost function LiveView(c: Config, v: View, blk: int, a: int, size: nat): View
  {
    v.(own := v.own[a := Ext(c.RealSize(size + c.Fence()), Live(size), blk)])
  }

  function WriteMagic(c: Config, m: Memory, a: int): Memory {
    if c.noFree then m else Store(m, a, FenceCell)
  }

  lemma LiveKeepsInv(c: Config, v: View, h: Heap, blk: int, a: int, size: nat)
    requires Inv(c, v, h) && FREE_RECORD <= size
    requires Room(c, v.own, blk, a, c.RealSize(size + c.Fence()))
    ensures a !in v.own && Inv(c, LiveView(c, v, blk, a, size), h.(mem := WriteMagic(c, h.mem, a + size)))
  {
    var m := WriteMagic(c, h.mem, a + size);
    LiveLength(c, size);
    StoreOutside(c, v, h, m, a, a + c.RealSize(size + c.Fence()));
    ClaimKeepsInv(c, v, h.(mem := m), blk, a, size);
  }

  lemma ClaimKeepsInv(c: Config, v: View, h: Heap, blk: int, a: int, size: nat)
    requires Inv(c, v, h) && FREE_RECORD <= size
    requires Room(c, v.own, blk, a, c.RealSize(size + c.Fence()))
    requires c.noFree || (a + size in h.mem && h.mem[a + size] == FenceCell)
    ensures a !in v.own && Inv(c, LiveView(c, v, blk, a, size), h)
  {
    hide Geometry, Filed, Linked, Chained, Fenced, Outside;
    var w := LiveView(c, v, blk, a, size);
    assert Geometry(c, w.own) && a !in v.own by {
      PlaceKeepsGeometry(c, v.own, a, w.own[a]);
    }
    assert Filed(w) && Linked(w, h) by {
      LiveKeepsFiled(v, w, h, a);
    }
    assert Chained(w, h) by {
      ChainedAgrees(v, w, h, h.free);
    }
    assert Fenced(c, w, h) by {
      LiveKeepsFenced(c, v, w, h, a);
    }
  }

  lemma LiveKeepsFenced(c: Config, v: View, w: View, h: Heap, a: int)
    requires Fenced(c, v, h)
    requires a in w.own && w.own[a].kind.Live? && w.own == v.own[a := w.own[a]]
    requires c.noFree || (a + w.own[a].kind.size in h.mem && h.mem[a + w.own[a].kind.size] == FenceCell)
    ensures Fenced(c, w, h)
  {
  }

  lemma LiveKeepsFiled(v: View, w: View, h: Heap, a: int)
    requires Filed(v) && Linked(v, h) && a !in v.own && w.lists == v.lists
    requires a in w.own && w.own[a].kind.Live? && w.own == v.own[a := w.own[a]]
    ensures Filed(w) && Linked(w, h)
  {
    forall k, i | 0 <= k <= MAX_BITS && 0 <= i < |w.lists[k]|
      ensures w.lists[k][i] in w.own && w.own[w.lists[k][i]] == v.own[v.lists[k][i]]
    {
      assert v.lists[k][i] in v.own;
    }
    assert Filed(w);
    forall k, i | 3 <= k <= MAX_BITS && 0 <= i < |w.lists[k]|
      ensures LinkAt(w, h, k, i)
    {
      assert LinkAt(v, h, k, i);
    }
  }

  // Taking an extent back.

  lemma ReleaseKeepsInv(c: Config, v: View, h: Heap, a: int)
    requires Inv(c, v, h) && a in v.own && v.own[a].kind.Live?
    ensures Inv(c, v.(own := v.own - {a}), h)
    ensures Room(c, v.own - {a}, v.own[a].blk, a, v.own[a].len)
  {
    hide Geometry, Filed, Linked, Chained, Fenced, Outside;
    var w := v.(own := v.own - {a});
    assert Geometry(c, w.own) && Room(c, w.own, v.own[a].blk, a, v.own[a].len) by {
      RemoveKeepsGeometry(c, v.own, a);
    }
    assert Filed(w) && Linked(w, h) by {
      ReleaseKeepsFiled(v, w, h, a);
    }
    assert Chained(w, h) by {
      ChainedAgrees(v, w, h, h.free);
    }
    assert Fenced(c, w, h) by {
      FencedAgrees(c, v, w, h, h.free);
    }
  }

  lemma ReleaseKeepsFiled(v: View, w: View, h: Heap, a: int)
    requires Filed(v) && Linked(v, h) && a in v.own && v.own[a].kind.Live?
    requires w.lists == v.lists && w.own == v.own - {a}
    ensures Filed(w) && Linked(w, h)
  {
    forall k, i | 0 <= k <= MAX_BITS && 0 <= i < |w.lists[k]|
      ensures w.lists[k][i] in w.own && w.own[w.lists[k][i]] == v.own[v.lists[k][i]]
    {
      assert v.own[v.lists[k][i]].kind == Chunk(k);
    }
    assert Filed(w);
    forall k, i | 3 <= k <= MAX_BITS && 0 <= i < |w.lists[k]|
      ensures LinkAt(w, h, k, i)
    {
      assert LinkAt(v, h, k, i);
    }
  }

  // Adding a block of fresh pages at the front of the block list.

  /** No block of the pool touches [lo, hi). */
  ghost predicate OffPool(own: map<int, Ext>, lo: int, hi: int) {
    forall b :: b in own && own[b].kind.Header? ==> own[b].kind.bounds <= lo || hi <= b
  }

  ghost function BlockView(v: View, b: int, bounds: int): View {
    View(v.own[b := Ext(BLOCK_HEADER, Header(bounds), b)], v.lists, [b] + v.blocks)
  }

  ghost function BlockHeap(h: Heap, b: int, bounds: int): Heap {
    Heap(h.free, b, Store(h.mem, b, HeaderCell(bounds, h.first)))
  }

  lemma OffPoolIsOutside(c: Config, own: map<int, Ext>, lo: int, hi: int)
    requires Geometry(c, own) && OffPool(own, lo, hi)
    ensures Outside(own, lo, hi)
  {
    forall a | a in own
      ensures Apart(a, own[a].len, lo, hi - lo)
    {
      assert Placed(c, own, a, own[a]);
    }
  }

  lemma BlockKeepsGeometry(c: Config, own: map<int, Ext>, b: int, bounds: int)
    requires Geometry(c, own) && OffPool(own, b, bounds)
    requires 0 < b && b % POINTER_SIZE == 0 && WholePages(c, b, bounds)
    ensures b !in own
    ensures Geometry(c, own[b := Ext(BLOCK_HEADER, Header(bounds), b)])
    ensures Room(c, own[b := Ext(BLOCK_HEADER, Header(bounds), b)], b, b + BLOCK_HEADER, bounds - b - BLOCK_HEADER)
  {
    hide Pages, SizeOfPages;
    var own' := own[b := Ext(BLOCK_HEADER, Header(bounds), b)];
    OffPoolIsOutside(c, own, b, bounds);
    assert b in own ==> Apart(b, own[b].len, b, bounds - b);
    BlockKeepsPlaced(c, own, b, bounds);
    BlockKeepsApart(c, own, own', b);
  }

  lemma BlockKeepsPlaced(c: Config, own: map<int, Ext>, b: int, bounds: int)
    requires b !in own && 0 < b && b % POINTER_SIZE == 0 && WholePages(c, b, bounds)
    requires forall a :: a in own ==> 0 < a && a % POINTER_SIZE == 0 && 1 <= own[a].len && Placed(c, own, a, own[a])
    ensures var own' := own[b := Ext(BLOCK_HEADER, Header(bounds), b)];
      forall a :: a in own' ==> 0 < a && a % POINTER_SIZE == 0 && 1 <= own'[a].len && Placed(c, own', a, own'[a])
  {
    hide WholePages;
    var own' := own[b := Ext(BLOCK_HEADER, Header(bounds), b)];
    forall x | x in own'
      ensures 0 < x && x % POINTER_SIZE == 0 && 1 <= own'[x].len && Placed(c, own', x, own'[x])
    {
      assert x != b ==> Placed(c, own, x, own[x]);
    }
  }

  lemma BlockKeepsApart(c: Config, own: map<int, Ext>, own': map<int, Ext>, b: int)
    requires b in own' && own'[b].kind.Header? && own'[b].len == BLOCK_HEADER && own' == own[b := own'[b]]
    requires b !in own && Outside(own, b, own'[b].kind.bounds) && OffPool(own, b, own'[b].kind.bounds)
    requires b + BLOCK_HEADER <= own'[b].kind.bounds
    requires forall x, y :: x in own && y in own && x != y ==> Apart(x, own[x].len, y, own[y].len)
    requires forall x, y :: x in own && y in own && own[x].kind.Header? && own[y].kind.Header? && x != y ==>
      own[x].kind.bounds <= y || own[y].kind.bounds <= x
    ensures forall x, y :: x in own' && y in own' && x != y ==> Apart(x, own'[x].len, y, own'[y].len)
    ensures forall x, y :: x in own' && y in own' && own'[x].kind.Header? && own'[y].kind.Header? && x != y ==>
      own'[x].kind.bounds <= y || own'[y].kind.bounds <= x
  {
  }

  lemma BlockKeepsInv(c: Config, v: View, h: Heap, b: int, bounds: int)
    requires Inv(c, v, h) && OffPool(v.own, b, bounds)
    requires 0 < b && b % POINTER_SIZE == 0 && WholePages(c, b, bounds)
    ensures b !in v.own && Inv(c, BlockView(v, b, bounds), BlockHeap(h, b, bounds))
    ensures Room(c, BlockView(v, b, bounds).own, b, b + BLOCK_HEADER, bounds - b - BLOCK_HEADER)
  {
    hide Geometry, Filed, Linked, Chained, Fenced, Outside;
    var w, h' := BlockView(v, b, bounds), BlockHeap(h, b, bounds);
    assert Geometry(c, w.own) && b !in v.own && Room(c, w.own, b, b + BLOCK_HEADER, bounds - b - BLOCK_HEADER) by {
      BlockKeepsGeometry(c, v.own, b, bounds);
    }
    assert Inv(c, v, h.(mem := h'.mem)) by {
      OffPoolIsOutside(c, v.own, b, bounds);
      StoreOutside(c, v, h, h'.mem, b, bounds);
    }
    assert Filed(w) && Linked(w, h') by {
      HeaderKeepsFiled(v, w, h.(mem := h'.mem), h', b);
    }
    assert Chained(w, h') by {
      BlockKeepsChained(v, w, h.(mem := h'.mem), h', b, bounds);
    }
    assert Fenced(c, w, h') by {
      FencedAgrees(c, v, w, h.(mem := h'.mem), h'.free);
    }
  }

  lemma HeaderKeepsFiled(v: View, w: View, h: Heap, h': Heap, b: int)
    requires Filed(v) && Linked(v, h) && w.lists == v.lists && h'.free == h.free && h'.mem == h.mem
    requires b in w.own && w.own[b].kind.Header? && w.own == v.own[b := w.own[b]]
    requires b in v.own ==> v.own[b].kind.Header?
    ensures Filed(w) && Linked(w, h')
  {
    forall k, i | 0 <= k <= MAX_BITS && 0 <= i < |w.lists[k]|
      ensures w.lists[k][i] in w.own && w.own[w.lists[k][i]] == v.own[v.lists[k][i]]
    {
      assert v.own[v.lists[k][i]].kind == Chunk(k);
    }
    assert Filed(w);
    forall k, i | 3 <= k <= MAX_BITS && 0 <= i < |w.lists[k]|
      ensures LinkAt(w, h', k, i)
    {
      assert LinkAt(v, h, k, i);
    }
  }

  lemma PrependedAt(s: seq<int>, b: int, j: nat)
    requires j <= |s|
    ensures ([b] + s)[j] == if j == 0 then b else s[j - 1]
    ensures NextOf([b] + s, j) == if j == 0 then Head(s) else NextOf(s, j - 1)
  {
  }

  lemma BlockKeepsChained(v: View, w: View, h: Heap, h': Heap, b: int, bounds: int)
    requires Chained(v, h) && b !in v.own && w.blocks == [b] + v.blocks && h'.first == b && h'.mem == h.mem
    requires w.own == v.own[b := Ext(BLOCK_HEADER, Header(bounds), b)]
    requires b in h.mem && h.mem[b] == HeaderCell(bounds, h.first)
    ensures Chained(w, h')
  {
    forall j | 0 <= j < |w.blocks|
      ensures w.blocks[j] in w.own && w.own[w.blocks[j]].kind.Header? && HeaderAt(w, h', j)
    {
      PrependedAt(v.blocks, b, j);
      assert j > 0 ==> HeaderAt(v, h, j - 1);
    }
    forall a | a in w.own && w.own[a].kind.Header?
      ensures a in w.blocks
    {
      if a == b {
        PrependedAt(v.blocks, b, 0);
      } else {
        var j :| 0 <= j < |v.blocks| && v.blocks[j] == a;
        PrependedAt(v.blocks, b, j + 1);
      }
    }
    PrependedAt(v.blocks, b, 0);
    forall i, j | 0 <= i < j < |w.blocks|
      ensures w.blocks[i] != w.blocks[j]
    {
      PrependedAt(v.blocks, b, i);
      PrependedAt(v.blocks, b, j);
    }
  }

  // Splitting a run of pages whose user memory is all free.

  lemma SplitPages(c: Config, blk: int, bounds: int, n: nat)
    requires WholePages(c, blk, bounds) && blk % POINTER_SIZE == 0
    requires 1 <= n < Pages(c.pageSize, bounds - blk - BLOCK_HEADER)
    ensures var nb := blk + SizeOfPages(c.pageSize, n);
      nb % POINTER_SIZE == 0 && WholePages(c, blk, nb) && WholePages(c, nb, bounds)
  {
    hide Pages, SizeOfPages;
    var m := Pages(c.pageSize, bounds - blk - BLOCK_HEADER);
    SizeAligned(c.pageSize, n);
    PagesOfRun(c.pageSize, n);
    SizeSplits(c.pageSize, m, n);
    PagesOfRun(c.pageSize, m - n);
  }

  function InsertAfter(s: seq<int>, i: nat, x: int): seq<int>
    requires i < |s|
  {
    s[..i + 1] + [x] + s[i + 1..]
  }

  lemma InsertedAt(s: seq<int>, i: nat, x: int, j: nat)
    requires i < |s| && j <= |s|
    ensures |InsertAfter(s, i, x)| == |s| + 1
    ensures var t := InsertAfter(s, i, x);
      && t[j] == (if j <= i then s[j] else if j == i + 1 then x else s[j - 1])
      && NextOf(t, j) == (if j < i then NextOf(s, j) else if j == i then x else NextOf(s, j - 1))
  {
  }

  ghost function SplitOwn(own: map<int, Ext>, blk: int, nb: int): map<int, Ext>
    requires blk in own && own[blk].kind.Header?
  {
    own[blk := Ext(BLOCK_HEADER, Header(nb), blk)][nb := Ext(BLOCK_HEADER, Header(own[blk].kind.bounds), nb)]
  }

  ghost function SplitView(v: View, i: nat, nb: int): View
    requires i < |v.blocks| && v.blocks[i] in v.own && v.own[v.blocks[i]].kind.Header?
  {
    View(SplitOwn(v.own, v.blocks[i], nb), v.lists, InsertAfter(v.blocks, i, nb))
  }

  function SplitMemory(m: Memory, blk: int, nb: int): Memory
    requires blk in m && m[blk].HeaderCell?
  {
    Store(Store(m, nb, HeaderCell(m[blk].bounds, m[blk].next)), blk, HeaderCell(nb, nb))
  }

  /** Lowering the bounds of a block whose user memory is all free. */
  lemma ShrinkKeepsGeometry(c: Config, own: map<int, Ext>, blk: int, nb: int)
    requires Geometry(c, own) && blk in own && own[blk].kind.Header?
    requires Hole(own, blk, blk + BLOCK_HEADER, own[blk].kind.bounds)
    requires WholePages(c, blk, nb) && nb <= own[blk].kind.bounds
    ensures Geometry(c, own[blk := Ext(BLOCK_HEADER, Header(nb), blk)])
  {
    var own' := own[blk := Ext(BLOCK_HEADER, Header(nb), blk)];
    assert own[blk].len == BLOCK_HEADER && own[blk].blk == blk by {
      assert Placed(c, own, blk, own[blk]);
    }
    forall x | x in own'
      ensures 0 < x && x % POINTER_SIZE == 0 && 1 <= own'[x].len && Placed(c, own', x, own'[x])
    {
      ShrinkKeepsPlaced(c, own, blk, nb, x);
    }
    ShrinkKeepsApart(own, own', blk);
  }

  lemma ShrinkKeepsPlaced(c: Config, own: map<int, Ext>, blk: int, nb: int, x: int)
    requires blk in own && own[blk].kind.Header? && x in own && 0 < own[x].len
    requires Outside(own, blk + BLOCK_HEADER, own[blk].kind.bounds)
    requires Placed(c, own, x, own[x]) && WholePages(c, blk, nb)
    ensures var own' := own[blk := Ext(BLOCK_HEADER, Header(nb), blk)]; Placed(c, own', x, own'[x])
  {
    assert Apart(x, own[x].len, blk + BLOCK_HEADER, own[blk].kind.bounds - (blk + BLOCK_HEADER));
  }

  lemma ShrinkKeepsApart(own: map<int, Ext>, own': map<int, Ext>, blk: int)
    requires blk in own && own[blk].kind.Header? && blk in own' && own' == own[blk := own'[blk]]
    requires own'[blk].len == own[blk].len && own'[blk].kind.Header? && own'[blk].kind.bounds <= own[blk].kind.bounds
    requires forall a, b :: a in own && b in own && a != b ==> Apart(a, own[a].len, b, own[b].len)
    requires forall a, b :: a in own && b in own && own[a].kind.Header? && own[b].kind.Header? && a != b ==>
      own[a].kind.bounds <= b || own[b].kind.bounds <= a
    ensures forall a, b :: a in own' && b in own' && a != b ==> Apart(a, own'[a].len, b, own'[b].len)
    ensures forall a, b :: a in own' && b in own' && own'[a].kind.Header? && own'[b].kind.Header? && a != b ==>
      own'[a].kind.bounds <= b || own'[b].kind.bounds <= a
  {
  }

  lemma SplitKeepsGeometry(c: Config, own: map<int, Ext>, blk: int, nb: int)
    requires Geometry(c, own) && blk in own && own[blk].kind.Header?
    requires Hole(own, blk, blk + BLOCK_HEADER, own[blk].kind.bounds)
    requires nb % POINTER_SIZE == 0 && WholePages(c, blk, nb) && WholePages(c, nb, own[blk].kind.bounds)
    ensures nb !in own && Geometry(c, SplitOwn(own, blk, nb))
    ensures Room(c, SplitOwn(own, blk, nb), blk, blk + BLOCK_HEADER, nb - blk - BLOCK_HEADER)
    ensures Room(c, SplitOwn(own, blk, nb), nb, nb + BLOCK_HEADER, own[blk].kind.bounds - nb - BLOCK_HEADER)
  {
    var bounds := own[blk].kind.bounds;
    var own1 := own[blk := Ext(BLOCK_HEADER, Header(nb), blk)];
    ShrinkKeepsGeometry(c, own, blk, nb);
    assert OffPool(own1, nb, bounds) && 0 < nb by {
      assert Placed(c, own, blk, own[blk]);
    }
    BlockKeepsGeometry(c, own1, nb, bounds);
    SplitLeavesRoom(c, own, blk, nb);
  }

  lemma SplitLeavesRoom(c: Config, own: map<int, Ext>, blk: int, nb: int)
    requires blk in own && own[blk].kind.Header? && blk % POINTER_SIZE == 0
    requires blk + BLOCK_HEADER < nb < own[blk].kind.bounds && own[blk].len == BLOCK_HEADER
    requires Outside(own, blk + BLOCK_HEADER, own[blk].kind.bounds)
    ensures Room(c, SplitOwn(own, blk, nb), blk, blk + BLOCK_HEADER, nb - blk - BLOCK_HEADER)
  {
    var own' := SplitOwn(own, blk, nb);
    forall a | a in own'
      ensures Apart(a, own'[a].len, blk + BLOCK_HEADER, nb - (blk + BLOCK_HEADER))
    {
      if a != blk && a != nb {
        assert Apart(a, own[a].len, blk + BLOCK_HEADER, own[blk].kind.bounds - (blk + BLOCK_HEADER));
      }
    }
  }

  lemma SplitKeepsChained(v: View, h: Heap, m: Memory, i: nat, nb: int)
    requires Chained(v, h) && i < |v.blocks| && nb !in v.own
    requires forall j :: 0 <= j < |v.blocks| && j != i ==>
      v.blocks[j] in m && v.blocks[j] in h.mem && m[v.blocks[j]] == h.mem[v.blocks[j]]
    requires nb in m && m[nb] == HeaderCell(v.own[v.blocks[i]].kind.bounds, NextOf(v.blocks, i))
    requires v.blocks[i] in m && m[v.blocks[i]] == HeaderCell(nb, nb)
    ensures Chained(SplitView(v, i, nb), h.(mem := m))
  {
    hide InsertAfter, NextOf;
    InsertedAt(v.blocks, i, nb, 0);
    var w, h' := SplitView(v, i, nb), h.(mem := m);
    forall j | 0 <= j < |w.blocks|
      ensures w.blocks[j] in w.own && w.own[w.blocks[j]].kind.Header? && HeaderAt(w, h', j)
    {
      InsertedAt(v.blocks, i, nb, j);
      assert j != i + 1 ==> HeaderAt(v, h, if j <= i then j else j - 1);
    }
    forall a | a in w.own && w.own[a].kind.Header?
      ensures a in w.blocks
    {
      if a == nb {
        InsertedAt(v.blocks, i, nb, i + 1);
      } else {
        var j :| 0 <= j < |v.blocks| && v.blocks[j] == a;
        InsertedAt(v.blocks, i, nb, if j <= i then j else j + 1);
      }
    }
    InsertedAt(v.blocks, i, nb, 0);
    SplitKeepsDistinct(v, i, nb);
  }

  lemma SplitKeepsDistinct(v: View, i: nat, nb: int)
    requires i < |v.blocks| && nb !in v.own
    requires forall j :: 0 <= j < |v.blocks| ==> v.blocks[j] in v.own
    requires forall j, l :: 0 <= j < l < |v.blocks| ==> v.blocks[j] != v.blocks[l]
    ensures forall j, l :: 0 <= j < l < |v.blocks| + 1 ==>
      InsertAfter(v.blocks, i, nb)[j] != InsertAfter(v.blocks, i, nb)[l]
  {
    forall j, l | 0 <= j < l < |v.blocks| + 1
      ensures InsertAfter(v.blocks, i, nb)[j] != InsertAfter(v.blocks, i, nb)[l]
    {
      InsertedAt(v.blocks, i, nb, j);
      InsertedAt(v.blocks, i, nb, l);
    }
  }

  lemma SplitKeepsInv(c: Config, v: View, h: Heap, i: nat, nb: int)
    requires Inv(c, v, h) && i < |v.blocks| && v.blocks[i] in v.own && v.own[v.blocks[i]].kind.Header?
    requires var blk, bounds := v.blocks[i], v.own[v.blocks[i]].kind.bounds;
      && Hole(v.own, blk, blk + BLOCK_HEADER, bounds)
      && nb % POINTER_SIZE == 0 && WholePages(c, blk, nb) && WholePages(c, nb, bounds)
    ensures HeaderAt(v, h, i)
    ensures Inv(c, SplitView(v, i, nb), h.(mem := SplitMemory(h.mem, v.blocks[i], nb)))
  {
    hide Geometry, Filed, Linked, Fenced, Store;
    assert HeaderAt(v, h, i);
    var blk, bounds := v.blocks[i], v.own[v.blocks[i]].kind.bounds;
    var w, h' := SplitView(v, i, nb), h.(mem := SplitMemory(h.mem, v.blocks[i], nb));
    assert Geometry(c, w.own) && nb !in v.own by {
      SplitKeepsGeometry(c, v.own, blk, nb);
    }
    assert Outside(v.own, nb, nb + BLOCK_HEADER) by {
      HoleShrinks(v.own, blk + BLOCK_HEADER, bounds, nb, nb + BLOCK_HEADER);
    }
    assert Filed(w) && Linked(w, h') && Fenced(c, w, h') by {
      SplitKeepsUser(c, v, h, i, nb);
    }
    assert Chained(w, h') by {
      SplitKeepsHeaders(c, v, h, i, nb);
      SplitKeepsChained(v, h, h'.mem, i, nb);
    }
  }

  lemma SplitKeepsUser(c: Config, v: View, h: Heap, i: nat, nb: int)
    requires Geometry(c, v.own) && Filed(v) && Linked(v, h) && Fenced(c, v, h)
    requires i < |v.blocks| && v.blocks[i] in v.own && v.own[v.blocks[i]].kind.Header? && HeaderAt(v, h, i)
    requires nb !in v.own && Outside(v.own, nb, nb + BLOCK_HEADER)
    ensures var w, h' := SplitView(v, i, nb), h.(mem := SplitMemory(h.mem, v.blocks[i], nb));
      Filed(w) && Linked(w, h') && Fenced(c, w, h')
  {
    hide Geometry, Filed, Linked, Chained, Fenced, Outside, OffChunks, OffFences, OffHeaders;
    var blk, bounds := v.blocks[i], v.own[v.blocks[i]].kind.bounds;
    var m1 := Store(h.mem, nb, HeaderCell(bounds, NextOf(v.blocks, i)));
    var m := SplitMemory(h.mem, blk, nb);
    var w := SplitView(v, i, nb);
    HeaderIsOff(c, v.own, blk);
    OutsideIsOff(c, v.own, nb, nb + BLOCK_HEADER);
    assert Filed(w) && Linked(w, h.(mem := m)) by {
      StoreKeepsLinked(v, h, m1, nb, nb + BLOCK_HEADER);
      StoreKeepsLinked(v, h.(mem := m1), m, blk, blk + BLOCK_HEADER);
      SplitKeepsFiled(v, w, h.(mem := m), blk, nb);
    }
    assert Fenced(c, w, h.(mem := m)) by {
      StoreKeepsFenced(c, v, h, m1, nb, nb + BLOCK_HEADER);
      StoreKeepsFenced(c, v, h.(mem := m1), m, blk, blk + BLOCK_HEADER);
      FencedAgrees(c, v, w, h.(mem := m), h.free);
    }
  }

  lemma HoleShrinks(own: map<int, Ext>, lo: int, hi: int, lo': int, hi': int)
    requires Outside(own, lo, hi) && lo <= lo' <= hi' <= hi
    ensures Outside(own, lo', hi')
  {
    forall a | a in own
      ensures Apart(a, own[a].len, lo', hi' - lo')
    {
      assert Apart(a, own[a].len, lo, hi - lo);
    }
  }

  lemma HeaderIsOff(c: Config, own: map<int, Ext>, blk: int)
    requires Geometry(c, own) && blk in own && own[blk].kind.Header?
    ensures OffChunks(own, blk, blk + BLOCK_HEADER) && (c.noFree || OffFences(own, blk, blk + BLOCK_HEADER))
  {
    LiveCovers(c, own, blk);
    forall a | a in own && !own[a].kind.Header?
      ensures own[a].kind.Chunk? ==> Apart(a, own[a].len, blk, BLOCK_HEADER)
      ensures own[a].kind.Live? && !c.noFree ==> Apart(a + own[a].kind.size, FENCE_SIZE, blk, BLOCK_HEADER)
    {
      LiveCovers(c, own, a);
      assert Apart(a, own[a].len, blk, own[blk].len);
    }
  }

  lemma SplitKeepsFiled(v: View, w: View, h: Heap, blk: int, nb: int)
    requires Filed(v) && Linked(v, h) && blk in v.own && v.own[blk].kind.Header? && nb !in v.own
    requires w.lists == v.lists && w.own == SplitOwn(v.own, blk, nb)
    ensures Filed(w) && Linked(w, h)
  {
    var own1 := v.own[blk := Ext(BLOCK_HEADER, Header(nb), blk)];
    HeaderKeepsFiled(v, v.(own := own1), h, h, blk);
    HeaderKeepsFiled(v.(own := own1), w, h, h, nb);
  }

  lemma SplitKeepsHeaders(c: Config, v: View, h: Heap, i: nat, nb: int)
    requires Geometry(c, v.own) && Chained(v, h) && i < |v.blocks|
    requires v.blocks[i] + BLOCK_HEADER <= nb && Outside(v.own, nb, nb + BLOCK_HEADER)
    requires HeaderAt(v, h, i)
    ensures var m := SplitMemory(h.mem, v.blocks[i], nb);
      && (forall j :: 0 <= j < |v.blocks| && j != i ==>
            v.blocks[j] in m && v.blocks[j] in h.mem && m[v.blocks[j]] == h.mem[v.blocks[j]])
      && nb in m && m[nb] == HeaderCell(v.own[v.blocks[i]].kind.bounds, NextOf(v.blocks, i))
      && v.blocks[i] in m && m[v.blocks[i]] == HeaderCell(nb, nb)
  {
    var m := SplitMemory(h.mem, v.blocks[i], nb);
    forall j | 0 <= j < |v.blocks| && j != i
      ensures v.blocks[j] in m && v.blocks[j] in h.mem && m[v.blocks[j]] == h.mem[v.blocks[j]]
    {
      assert HeaderAt(v, h, j);
      assert Placed(c, v.own, v.blocks[j], v.own[v.blocks[j]]);
      assert Placed(c, v.own, v.blocks[i], v.own[v.blocks[i]]);
      assert Apart(v.blocks[j], v.own[v.blocks[j]].len, v.blocks[i], v.own[v.blocks[i]].len);
      assert Apart(v.blocks[j], v.own[v.blocks[j]].len, nb, nb + BLOCK_HEADER - nb);
    }
  }
}
