/** The operations of the page-based memory pool, libcwmp/src/pool/mpool.c. */
module Mpool {
  // The kernel is a parameter: `answer` is what mmap would return for the pages an operation may need, NULL
  // for a failure. Any page-aligned address range off the pool is a possible answer.
  import opened MpoolState
  import opened Words

  /** The error codes; TooSmall is none of them, but says that the code, without noticing, has computed an
      address with less room behind it than it was asked for. Nothing is promised of the pool after that. */
  datatype Error = NoError | ArgInvalid | ArgNull | IsFree | NoPages | NoMem | PoolOver | PntOver | TooSmall

  // ----- arithmetic facts about one request -------------------------------------------------

  lemma OnePage(c: Config, size: nat)
    ensures Pages(c.pageSize, size) == 1 <==> size <= c.MaxUser()
  {
    hide Pages, SizeOfPages;
    PagesBounds(c.pageSize, size);
    SizeSplits(c.pageSize, 1, 1);
    if size <= c.MaxUser() {
      PagesUnique(c.pageSize, size, 1);
    }
  }

  /** PAGES_IN_SIZE in the types of the code: the sum is an unsigned long, the quotient an unsigned int. */
  function PagesInSize(p: nat, size: nat): (n: nat)
    requires p > 0
    ensures n < UNSIGNED_INT
  {
    (size + BLOCK_HEADER + p - 1) % UNSIGNED_LONG / p % UNSIGNED_INT
  }

  /** SIZE_OF_PAGES for the pages of a new block: both operands are an unsigned int, and so is the product. */
  function PageBytes(p: nat, size: nat): (n: nat)
    requires p > 0
    ensures n < UNSIGNED_INT
  {
    Product(PagesInSize(p, size), p)
  }

  /** The product of two unsigned ints. */
  function Product(a: nat, b: nat): (n: nat)
    ensures n < UNSIGNED_INT
  {
    a * b % UNSIGNED_INT
  }

  /** The size that get_space looks for: the sum with the fence and the rounding are unsigned longs. */
  function Asked(byteSize: nat): (size: nat)
    ensures size < UNSIGNED_LONG
  {
    RoundUp(byteSize % UNSIGNED_LONG) % UNSIGNED_LONG
  }

  /** The pages for so many bytes come to less than 2^32 bytes. */
  predicate Fits(p: nat, size: nat)
    requires p > 0
  {
    SizeOfPages(p, Pages(p, size)) < UNSIGNED_INT
  }

  /** A new block covers the request exactly when its pages come to less than 2^32 bytes; otherwise it is
      mapped too small. */
  lemma CoversExactly(p: nat, size: nat)
    requires BLOCK_HEADER < p < UNSIGNED_INT && size < UNSIGNED_LONG
    ensures BLOCK_HEADER + size <= PageBytes(p, size) <==> Fits(p, size)
    ensures Fits(p, size) ==> PageBytes(p, size) == SizeOfPages(p, Pages(p, size))
    ensures size <= p - BLOCK_HEADER ==> Fits(p, size)
  {
    hide Pages;
    PagesBounds(p, size);
    if size + BLOCK_HEADER + p - 1 < UNSIGNED_LONG {
      SumStays(p, size);
      WrapFallsShort(Pages(p, size), p, BLOCK_HEADER + size);
      if size <= p - BLOCK_HEADER {
        SizeSplits(p, 1, 1);
        PagesUnique(p, size, 1);
      }
    }
  }

  lemma SumStays(p: nat, size: nat)
    requires p > 0 && size + BLOCK_HEADER + p - 1 < UNSIGNED_LONG
    ensures PagesInSize(p, size) == Pages(p, size) % UNSIGNED_INT
  {
  }

  lemma WrapFallsShort(n: nat, p: nat, t: nat)
    requires 2 <= p < UNSIGNED_INT && SizeOfPages(p, n - 1) < t <= SizeOfPages(p, n)
    ensures t <= n % UNSIGNED_INT * p % UNSIGNED_INT <==> SizeOfPages(p, n) < UNSIGNED_INT
    ensures SizeOfPages(p, n) < UNSIGNED_INT ==> n % UNSIGNED_INT * p % UNSIGNED_INT == SizeOfPages(p, n)
  {
    hide SizeOfPages;
    SizeSplits(p, n, 1);
    SizeIs(p, n);
    if SizeOfPages(p, n) < UNSIGNED_INT {
      assert n % UNSIGNED_INT == n;
    } else if t < UNSIGNED_INT {
      WrappedOnce(n, p);
    }
  }

  lemma SizeIs(p: nat, n: nat)
    ensures SizeOfPages(p, n) == n * p && (p >= 2 ==> 2 * n <= n * p)
  {
  }

  lemma WrappedOnce(n: nat, p: nat)
    requires n < UNSIGNED_INT <= n * p < 2 * UNSIGNED_INT
    ensures n % UNSIGNED_INT * p % UNSIGNED_INT == n * p - UNSIGNED_INT
  {
  }

  /** The default page size and a request of 4 GiB: 65537 pages, whose bytes wrap to those of one. */
  lemma FourGigabytes()
    ensures Pages(65536, 0x1_0000_0000) == 65537 && PageBytes(65536, 0x1_0000_0000) == 65536
    ensures !Fits(65536, 0x1_0000_0000)
  {
    PagesUnique(65536, 0x1_0000_0000, 65537);
  }

  /** For every request that fits an unsigned long, with every sum and product wrapped as the code's are: what
      get_space looks for and maps covers the request and its fence exactly when the pages for these come to
      less than 2^32 bytes. */
  lemma SumsCover(p: nat, byteSize: nat, fence: nat)
    requires p % OS_PAGE == 0 && 0 < p < UNSIGNED_INT && FREE_RECORD <= byteSize < UNSIGNED_LONG && fence <= FENCE_SIZE
    ensures var size := Asked(byteSize + fence);
            byteSize + fence <= size && BLOCK_HEADER + size <= PageBytes(p, size) <==> Fits(p, byteSize + fence)
    ensures Fits(p, byteSize + fence) ==> Asked(byteSize + fence) == RoundUp(byteSize + fence)
  {
    hide Pages, SizeOfPages, PageBytes;
    var size := Asked(byteSize + fence);
    PagesBounds(p, byteSize + fence);
    PagesAligned(p);
    RoundingKeepsPages(p, byteSize + fence);
    CoversExactly(p, size);
    AskedIs(byteSize + fence);
  }

  lemma PagesAligned(p: nat)
    requires p % OS_PAGE == 0
    ensures p % 8 == 0 && (p > 0 ==> OS_PAGE <= p)
  {
    var k := p / OS_PAGE;
    assert p == 8 * (512 * k);
  }

  /** The size looked for is the rounded request, unless that is 2^64 or more; then it is 0 or 8. */
  lemma AskedIs(n: nat)
    requires n < UNSIGNED_LONG + FENCE_SIZE
    ensures n <= UNSIGNED_LONG - POINTER_SIZE ==> n <= Asked(n) == RoundUp(n)
    ensures n > UNSIGNED_LONG - POINTER_SIZE ==> Asked(n) == if n == UNSIGNED_LONG + 1 then 8 else 0
  {
    RoundUpOf(n);
    RoundUpOf(n % UNSIGNED_LONG);
  }

  lemma RoundUpOf(n: nat)
    ensures n <= RoundUp(n) < n + POINTER_SIZE && RoundUp(n) % POINTER_SIZE == 0
  {
  }

  /** A sum that wraps makes for no page, or for one. */
  lemma PagesWrap(p: nat, size: nat)
    requires BLOCK_HEADER < p < UNSIGNED_INT && UNSIGNED_LONG <= size + BLOCK_HEADER + p - 1 && size < UNSIGNED_LONG
    ensures PagesInSize(p, size) == if size + BLOCK_HEADER - 1 < UNSIGNED_LONG then 0 else 1
  {
    var r := size + BLOCK_HEADER + p - 1 - UNSIGNED_LONG;
    TakenOff(r);
    NoneOrOne(r, p);
  }

  lemma TakenOff(r: nat)
    requires r < UNSIGNED_LONG
    ensures (UNSIGNED_LONG + r) % UNSIGNED_LONG == r
  {
  }

  lemma NoneOrOne(r: nat, p: nat)
    requires r < 2 * p
    ensures r / p == if r < p then 0 else 1
  {
    if r >= p {
      assert r == 1 * p + (r - p);
    }
  }

  /** What becomes of the requests whose sums wrap around an unsigned long: no page at all is mapped for them,
      or one, or the size looked for is 0 or 8. */
  lemma WrapsExactly(p: nat, n: nat)
    requires p % OS_PAGE == 0 && 0 < p < UNSIGNED_INT && UNSIGNED_LONG - p - BLOCK_HEADER < n < UNSIGNED_LONG + FENCE_SIZE
    ensures n <= UNSIGNED_LONG - BLOCK_HEADER ==> PageBytes(p, Asked(n)) == 0
    ensures UNSIGNED_LONG - BLOCK_HEADER < n <= UNSIGNED_LONG - POINTER_SIZE ==> PageBytes(p, Asked(n)) == p
    ensures UNSIGNED_LONG - POINTER_SIZE < n <==> Asked(n) < FREE_RECORD
  {
    hide PagesInSize, Asked, RoundUp;
    PagesAligned(p);
    AskedIs(n);
    RoundUpOf(n);
    if n <= UNSIGNED_LONG - POINTER_SIZE {
      PagesWrap(p, Asked(n));
    }
  }

  lemma AskedWraps(n: nat)
    ensures Asked(n % UNSIGNED_LONG) == Asked(n)
  {
  }

  /** A sum with the fence that wraps is one that no block covers, and the size looked for is then too small. */
  lemma NeverCovered(c: Config, n: nat)
    requires n < UNSIGNED_LONG + FENCE_SIZE
    ensures Asked(n) < FREE_RECORD && FREE_RECORD <= n ==> !Fits(c.pageSize, n)
    ensures n % UNSIGNED_LONG != n ==> Asked(n) < FREE_RECORD
  {
    hide Pages, SizeOfPages, Asked;
    AskedIs(n);
    RoundUpCovers(n);
    PagesBounds(c.pageSize, n);
  }

  /** The first request whose page count wraps to one page, with the default page size: its fence goes 33 bytes
      below the address, over the byte before the block and the first one of its header. For the request
      before it no page at all is mapped. */
  lemma FirstWrapped(addr: int)
    requires BLOCK_HEADER < addr < UNSIGNED_LONG
    ensures var n := UNSIGNED_LONG - 33;
            && PageBytes(65536, Asked(n - 1 + FENCE_SIZE)) == 0
            && PageBytes(65536, Asked(n + FENCE_SIZE)) == 65536 && !Fits(65536, n + FENCE_SIZE)
            && FenceAt(addr, n) == addr - BLOCK_HEADER - 1
  {
    WrapsExactly(65536, UNSIGNED_LONG - 34 + FENCE_SIZE);
    WrapsExactly(65536, UNSIGNED_LONG - 33 + FENCE_SIZE);
    PagesBounds(65536, UNSIGNED_LONG - 33 + FENCE_SIZE);
  }

  /** Where the fence goes: a pointer and an unsigned long are added. */
  function FenceAt(addr: int, size: nat): int {
    (addr + size) % UNSIGNED_LONG
  }

  /** What get_space has left over of a chunk with the request's page count is less than a page,
      so its unsigned int cannot truncate it. */
  lemma LeftoverBelowPage(p: nat, chunk: nat, size: nat)
    requires p > 0 && size <= chunk && Pages(p, chunk) == Pages(p, size)
    ensures chunk - size < p
  {
    hide Pages, SizeOfPages;
    PagesBounds(p, chunk);
    PagesBounds(p, size);
    SizeSplits(p, Pages(p, size), 1);
  }

  /** The page count recomputed at free from the user's size is that of the rounded request. */
  lemma RealSizeOfRounded(c: Config, size: nat)
    ensures c.RealSize(RoundUp(size)) == if size <= c.MaxUser() then RoundUp(size) else c.RealSize(size)
    ensures size <= c.MaxUser() <==> RoundUp(size) <= c.MaxUser()
  {
    hide Pages, SizeOfPages;
    RoundingKeepsPages(c.pageSize, size);
    OnePage(c, size);
    OnePage(c, RoundUp(size));
  }

  /** A chunk longer than one page's user memory is a whole run of pages. */
  lemma ChunkIsRun(c: Config, own: map<int, Ext>, blk: int, a: int, len: nat)
    requires Geometry(c, own) && Room(c, own, blk, a, len) && len > c.MaxUser()
    ensures a == blk + BLOCK_HEADER && own[blk].kind.bounds == blk + BLOCK_HEADER + len
    ensures WholePages(c, blk, own[blk].kind.bounds)
    ensures SizeOfPages(c.pageSize, Pages(c.pageSize, len)) == len + BLOCK_HEADER && c.RealSize(len) == len
  {
    hide Pages, SizeOfPages;
    assert Placed(c, own, blk, own[blk]);
  }

  // ----- frames -----------------------------------------------------------------------------

  predicate Covers(live: map<int, nat>, a: int, x: int) {
    a in live && a <= x < a + live[a]
  }

  predicate KeptAt(m: Memory, n: Memory, x: int) {
    x in m && m[x].ByteCell? ==> x in n && n[x] == m[x]
  }

  /** The bytes of the live extents are those of before. */
  ghost predicate BytesKept(live: map<int, nat>, m: Memory, n: Memory) {
    forall a, x :: Covers(live, a, x) ==> KeptAt(m, n, x)
  }

  lemma BytesKeptRefl(live: map<int, nat>, m: Memory)
    ensures BytesKept(live, m, m)
  {
  }

  lemma ByteIsKept(live: map<int, nat>, m: Memory, n: Memory, a: int, x: int)
    requires BytesKept(live, m, n) && Covers(live, a, x)
    ensures x in m && m[x].ByteCell? ==> x in n && n[x] == m[x]
  {
    assert Covers(live, a, x);
  }

  lemma BytesKeptTrans(live: map<int, nat>, m: Memory, n: Memory, o: Memory)
    requires BytesKept(live, m, n) && BytesKept(live, n, o)
    ensures BytesKept(live, m, o)
  {
    forall a, x | Covers(live, a, x)
      ensures KeptAt(m, o, x)
    {
      assert KeptAt(m, n, x) && KeptAt(n, o, x);
    }
  }

  ghost predicate LiveApart(own: map<int, Ext>, lo: int, hi: int) {
    forall a :: a in own && own[a].kind.Live? ==> Apart(a, own[a].len, lo, hi - lo)
  }

  lemma BytesOutside(c: Config, v: View, h: Heap, n: Memory, lo: int, hi: int)
    requires Inv(c, v, h) && SameOutside(h.mem, n, lo, hi) && LiveApart(v.own, lo, hi)
    ensures BytesKept(LiveOf(v.own), h.mem, n)
  {
    hide Filed, Linked, Chained, Fenced;
    forall a, x | Covers(LiveOf(v.own), a, x)
      ensures KeptAt(h.mem, n, x)
    {
      assert Placed(c, v.own, a, v.own[a]);
      LiveLength(c, v.own[a].kind.size);
    }
  }

  lemma BlockIsLiveApart(c: Config, own: map<int, Ext>, blk: int)
    requires Geometry(c, own) && blk in own && own[blk].kind.Header?
    requires Outside(own, blk + BLOCK_HEADER, own[blk].kind.bounds)
    ensures LiveApart(own, blk, own[blk].kind.bounds)
  {
    forall a | a in own && own[a].kind.Live?
      ensures Apart(a, own[a].len, blk, own[blk].kind.bounds - blk)
    {
      assert Placed(c, own, blk, own[blk]);
      assert Apart(a, own[a].len, blk + BLOCK_HEADER, own[blk].kind.bounds - (blk + BLOCK_HEADER));
      assert Apart(a, own[a].len, blk, own[blk].len);
    }
  }

  /** free_pointer filed the chunk, or dropped one too small for a link. */
  ghost predicate Freed(v: View, w: View, blk: int, a: int, len: nat) {
    && w.blocks == v.blocks
    && ((len < POINTER_SIZE && w.own == v.own)
        || (a in w.own && w.own[a].kind.Chunk? && w.own == v.own[a := Ext(len, w.own[a].kind, blk)]))
  }

  lemma FreedKeepsHole(v: View, w: View, blk: int, a: int, len: nat, b: int, lo: int, hi: int)
    requires Freed(v, w, blk, a, len) && Hole(v.own, b, lo, hi) && Apart(a, len, lo, hi - lo)
    requires a !in v.own
    ensures Hole(w.own, b, lo, hi) && w.own[b] == v.own[b]
  {
  }

  lemma FreedKeepsLive(v: View, w: View, blk: int, a: int, len: nat)
    requires Freed(v, w, blk, a, len) && a !in v.own
    ensures LiveOf(w.own) == LiveOf(v.own)
  {
  }

  lemma FreedKeepsRoom(c: Config, v: View, w: View, blk: int, a: int, len: nat, b: int, lo: int, n: nat)
    requires Freed(v, w, blk, a, len) && Room(c, v.own, b, lo, n) && Apart(a, len, lo, n) && a !in v.own
    ensures Room(c, w.own, b, lo, n) && b in w.own && w.own[b] == v.own[b] && LiveOf(w.own) == LiveOf(v.own)
  {
    FreedKeepsHole(v, w, blk, a, len, b, lo, lo + n);
    FreedKeepsLive(v, w, blk, a, len);
  }

  /** A change inside [lo, hi) that follows a change inside a wider range. */
  lemma FrameGrows(m: Memory, n: Memory, o: Memory, lo: int, hi: int, lo': int, hi': int)
    requires SameOutside(m, n, lo', hi') && SameOutside(n, o, lo, hi) && lo' <= lo && hi <= hi'
    ensures SameOutside(m, o, lo', hi')
  {
  }

  lemma RestIsRun(c: Config, v: View, h: Heap, blk: int, len: nat)
    requires Inv(c, v, h) && Room(c, v.own, blk, blk + BLOCK_HEADER, len)
    ensures c.RealSize(len) == len
  {
    if len > c.MaxUser() {
      ChunkIsRun(c, v.own, blk, blk + BLOCK_HEADER, len);
    }
  }

  /** Reading a block header gives the block's bounds. */
  lemma HeaderReadable(c: Config, v: View, h: Heap, b: int) returns (i: nat)
    requires Inv(c, v, h) && b in v.own && v.own[b].kind.Header?
    ensures i < |v.blocks| && v.blocks[i] == b && HeaderAt(v, h, i)
    ensures Placed(c, v.own, b, v.own[b]) && b % POINTER_SIZE == 0
  {
    i :| 0 <= i < |v.blocks| && v.blocks[i] == b;
    assert HeaderAt(v, h, i);
  }

  /** The whole effect of dividing a block whose user memory is all free. */
  lemma SplitFacts(c: Config, v: View, h: Heap, i: nat, blk: int, nb: int, bounds: int) returns (w: View, m: Memory)
    requires i < |v.blocks| && v.blocks[i] == blk && blk in v.own && v.own[blk].kind == Header(bounds)
    requires Hole(v.own, blk, blk + BLOCK_HEADER, bounds)
    requires nb % POINTER_SIZE == 0 && WholePages(c, blk, nb) && WholePages(c, nb, bounds)
    requires blk + BLOCK_HEADER <= nb && nb + BLOCK_HEADER <= bounds && Inv(c, v, h)
    ensures blk in h.mem && h.mem[blk].HeaderCell? && m == SplitMemory(h.mem, blk, nb)
    ensures Inv(c, w, h.(mem := m)) && LiveOf(w.own) == LiveOf(v.own) && SameOutside(h.mem, m, blk, bounds)
    ensures Room(c, w.own, blk, blk + BLOCK_HEADER, nb - (blk + BLOCK_HEADER))
    ensures Room(c, w.own, nb, nb + BLOCK_HEADER, bounds - (nb + BLOCK_HEADER))
    ensures blk in w.own && w.own[blk].kind == Header(nb) && nb in w.own && w.own[nb].kind == Header(bounds)
  {
    hide Geometry, Chained, Filed, Linked, Fenced, Pages, Hole, WholePages;
    SplitKeepsInv(c, v, h, i, nb);
    w, m := SplitView(v, i, nb), SplitMemory(h.mem, blk, nb);
    SplitKeepsGeometry(c, v.own, blk, nb);
    SplitKeepsLive(v, w, i, nb);
  }

  lemma SplitKeepsLive(v: View, w: View, i: nat, nb: int)
    requires i < |v.blocks| && v.blocks[i] in v.own && v.own[v.blocks[i]].kind.Header?
    requires nb !in v.own && w == SplitView(v, i, nb)
    ensures LiveOf(w.own) == LiveOf(v.own)
  {
  }

  lemma RoomNarrows(c: Config, own: map<int, Ext>, blk: int, lo: int, hi: int, a: int, len: nat)
    requires Hole(own, blk, lo, hi) && lo <= a && 1 <= len && a + len <= hi
    requires a % POINTER_SIZE == 0 && len <= c.MaxUser()
    ensures Room(c, own, blk, a, len)
  {
    HoleShrinks(own, lo, hi, a, a + len);
  }

  /** What filing a chunk makes of the pool: a small list that is not empty drops it. */
  ghost function FiledHeap(h: Heap, a: int, len: nat, k: nat): Heap
    requires k < |h.free|
  {
    if k >= 3 || h.free[k] == NULL then PushHeap(h, a, len, k) else h
  }

  ghost function FiledView(v: View, h: Heap, blk: int, a: int, len: nat, k: nat): View
    requires k < |h.free| && k < |v.lists|
  {
    if k >= 3 || h.free[k] == NULL then PushView(v, blk, a, len, k) else v
  }

  /** The chunk has been filed on the list of its class. */
  ghost predicate FiledAs(h: Heap, v: View, h': Heap, v': View, blk: int, a: int, len: nat) {
    exists k: nat :: InClass(k, len) && k < |h.free| && k < |v.lists| && h' == FiledHeap(h, a, len, k) && v' == FiledView(v, h, blk, a, len, k)
  }

  ghost predicate ChunkIs(own: map<int, Ext>, a: int, len: int) {
    a in own && own[a].kind.Chunk? && own[a].len == len
  }

  /** A chunk at the head of list k. */
  ghost predicate HeadOf(h: Heap, v: View, a: int, len: nat, k: nat) {
    InClass(k, len) && k < |h.free| && h.free[k] == a && ChunkIs(v.own, a, len) && v.own[a].kind == Chunk(k)
  }

  /** A chunk at the head of the list of its class, the other lists as they were. */
  ghost predicate PutOnList(h: Heap, h': Heap, v': View, a: int, len: nat) {
    exists k: nat :: HeadOf(h', v', a, len, k) && k < |h.free| && h'.free == h.free[k := a]
  }

  ghost predicate AtHead(h: Heap, v: View, a: int, len: nat) {
    exists k: nat :: HeadOf(h, v, a, len, k)
  }

  lemma PutIsHead(h: Heap, h': Heap, v': View, a: int, len: nat)
    requires PutOnList(h, h', v', a, len)
    ensures AtHead(h', v', a, len)
  {
    hide HeadOf;
  }

  lemma FiledIsPut(h: Heap, v: View, h': Heap, v': View, blk: int, a: int, len: nat)
    requires FiledAs(h, v, h', v', blk, a, len) && len >= POINTER_SIZE
    ensures PutOnList(h, h', v', a, len) && ChunkIs(v'.own, a, len)
    ensures forall b, n :: b != a && ChunkIs(v.own, b, n) ==> ChunkIs(v'.own, b, n)
  {
    var k: nat :| InClass(k, len) && k < |h.free| && k < |v.lists| && h' == FiledHeap(h, a, len, k) && v' == FiledView(v, h, blk, a, len, k);
    SmallPowers();
    if k < 3 {
      Pow2Monotonic(k + 1, 3);
      assert false;
    }
    assert HeadOf(h', v', a, len, k);
  }

  lemma FileFacts(c: Config, v: View, h: Heap, blk: int, a: int, len: nat, k: nat) returns (w: View)
    requires Inv(c, v, h) && 1 <= len && Room(c, v.own, blk, a, len) && InClass(k, len)
    ensures k < |h.free| && a !in v.own && h.free[k] != a
    ensures k < |v.lists| && w == FiledView(v, h, blk, a, len, k)
    ensures Inv(c, w, FiledHeap(h, a, len, k)) && Freed(v, w, blk, a, len)
    ensures SameOutside(h.mem, FiledHeap(h, a, len, k).mem, a, a + len)
  {
    hide Geometry, Chained, Fenced;
    HeadIsElsewhere(c, v, h, blk, a, len, k);
    if k >= 3 || h.free[k] == NULL {
      w := PushView(v, blk, a, len, k);
      assert Inv(c, w, PushHeap(h, a, len, k)) by {
        PushKeepsInv(c, v, h, blk, a, len, k);
      }
      if k >= 3 {
        RecordFits(k, len, h.free[k]);
      }
    } else {
      SmallPowers();
      Pow2Monotonic(k + 1, 3);
      w := v;
    }
  }

  /** What has been cut off: the later pages are one free chunk, and what one page has over is another. */
  ghost predicate CutFiled(c: Config, own: map<int, Ext>, addr: int, size: nat, len: int) {
    var next := addr - BLOCK_HEADER + SizeOfPages(c.pageSize, Pages(c.pageSize, size));
    && ChunkIs(own, next + BLOCK_HEADER, addr + len - (next + BLOCK_HEADER))
    && (Pages(c.pageSize, size) == 1 ==> addr + size == next || ChunkIs(own, addr + size, next - (addr + size)))
  }

  lemma CutIs(c: Config, own: map<int, Ext>, addr: int, size: nat, next: int, bounds: int)
    requires next == addr - BLOCK_HEADER + SizeOfPages(c.pageSize, Pages(c.pageSize, size))
    requires ChunkIs(own, next + BLOCK_HEADER, bounds - next - BLOCK_HEADER)
    requires Pages(c.pageSize, size) == 1 ==> addr + size == next || ChunkIs(own, addr + size, next - (addr + size))
    ensures CutFiled(c, own, addr, size, bounds - addr)
  {
    hide ChunkIs, Pages, SizeOfPages;
  }

  /** Whole words are left over, and at least one page behind them. */
  lemma CutAligned(c: Config, blk: int, next: int, n: nat, bounds: int, end: int)
    requires next == blk + SizeOfPages(c.pageSize, n) && blk % POINTER_SIZE == 0 && end % POINTER_SIZE == 0
    requires WholePages(c, next, bounds)
    ensures end < next ==> next - end >= POINTER_SIZE
    ensures bounds - next - BLOCK_HEADER >= POINTER_SIZE
  {
    hide SizeOfPages, Pages;
    PagesAligned(c.pageSize);
    SizeAligned(c.pageSize, n);
  }

  lemma HeadIsElsewhere(c: Config, v: View, h: Heap, blk: int, a: int, len: nat, k: nat)
    requires Geometry(c, v.own) && Filed(v) && Linked(v, h)
    requires 1 <= len && Room(c, v.own, blk, a, len) && k <= MAX_BITS
    ensures a !in v.own && h.free[k] != a
    ensures h.free[k] == NULL ==> v.lists[k] == []
  {
    HoleIsFree(c, v.own, blk, a, a + len);
    assert v.lists[k] != [] ==> v.lists[k][0] in v.own;
  }

  /** What a caller of mmap may be given: page-aligned addresses that are not the pool's. */
  ghost predicate KernelPages(own: map<int, Ext>, answer: int, len: int) {
    answer == NULL || (0 < answer && answer % OS_PAGE == 0 && OffPool(own, answer, answer + len))
  }

  lemma InvShape(c: Config, v: View, h: Heap)
    requires Inv(c, v, h)
    ensures |h.free| == |v.lists| == MAX_BITS + 1 && Geometry(c, v.own)
    ensures forall k :: 0 <= k <= MAX_BITS ==> (h.free[k] == NULL <==> v.lists[k] == [])
  {
    forall k | 0 <= k <= MAX_BITS && v.lists[k] != []
      ensures 0 < v.lists[k][0]
    {
      assert v.lists[k][0] in v.own;
    }
  }

  lemma PageAligned(c: Config, a: int)
    requires a % OS_PAGE == 0
    ensures a % POINTER_SIZE == 0 && OS_PAGE <= c.pageSize
  {
    var k := a / OS_PAGE;
    assert a == 8 * (512 * k);
  }

  /** A new block of `n` pages: its user memory is all room. */
  lemma BlockFacts(c: Config, v: View, h: Heap, b: int, n: nat) returns (w: View)
    requires Inv(c, v, h) && 1 <= n && b != NULL && KernelPages(v.own, b, SizeOfPages(c.pageSize, n))
    requires SizeOfPages(c.pageSize, n) < UNSIGNED_INT
    ensures var bounds := b + SizeOfPages(c.pageSize, n);
      && Inv(c, w, BlockHeap(h, b, bounds)) && LiveOf(w.own) == LiveOf(v.own)
      && Room(c, w.own, b, b + BLOCK_HEADER, bounds - b - BLOCK_HEADER)
      && BytesKept(LiveOf(v.own), h.mem, BlockHeap(h, b, bounds).mem)
  {
    hide Geometry, Filed, Linked, Chained, Fenced, Pages, SizeOfPages, Outside, Hole, OffPool, Store, SameOutside, LiveApart;
    PageAligned(c, b);
    var bounds := b + SizeOfPages(c.pageSize, n);
    PagesOfRun(c.pageSize, n);
    StoreFrame(h.mem, b, HeaderCell(bounds, h.first), b, bounds);
    BlockKeepsLive(v, b, bounds);
    BlockKeepsInv(c, v, h, b, bounds);
    w := BlockView(v, b, bounds);
    OffPoolIsOutside(c, v.own, b, bounds);
    OutsideIsLiveApart(v.own, b, bounds);
    BytesOutside(c, v, h, BlockHeap(h, b, bounds).mem, b, bounds);
  }

  lemma BlockKeepsLive(v: View, b: int, bounds: int)
    ensures b !in v.own ==> LiveOf(BlockView(v, b, bounds).own) == LiveOf(v.own)
  {
  }

  lemma StoreFrame(m: Memory, a: int, cell: Cell, lo: int, hi: int)
    requires lo <= a && a + CellSize(cell) <= hi
    ensures SameOutside(m, Store(m, a, cell), lo, hi)
  {
  }

  lemma StoredAt(m: Memory, a: int, cell: Cell)
    ensures a in Store(m, a, cell) && Store(m, a, cell)[a] == cell
  {
  }

  /** A fence behind a block leaves its header. */
  lemma HeaderStays(m: Memory, addr: int, size: nat)
    requires addr - BLOCK_HEADER in m && m[addr - BLOCK_HEADER].HeaderCell?
    ensures var n := Store(m, addr + size, FenceCell);
      addr - BLOCK_HEADER in n && n[addr - BLOCK_HEADER] == m[addr - BLOCK_HEADER]
  {
  }

  lemma OutsideIsLiveApart(own: map<int, Ext>, lo: int, hi: int)
    requires Outside(own, lo, hi)
    ensures LiveApart(own, lo, hi)
  {
  }

  /** Blocks and rounded requests are whole words, so that a block too small for one is too small before
      rounding. */
  lemma ShortByWords(c: Config, byteSize: nat, size: nat)
    requires size == RoundUp(byteSize) && PageBytes(c.pageSize, size) < BLOCK_HEADER + size
    ensures PageBytes(c.pageSize, size) < BLOCK_HEADER + byteSize
  {
    hide RoundUp, PagesInSize, Product;
    RoundUpOf(byteSize);
    PagesAligned(c.pageSize);
    ProductAligned(PagesInSize(c.pageSize, size), c.pageSize);
  }

  lemma ProductAligned(n: nat, p: nat)
    requires p % 8 == 0
    ensures Product(n, p) % 8 == 0
  {
    hide SizeOfPages;
    SizeIs(p, n);
    SizeAligned(p, n);
    WordsOf(SizeOfPages(p, n));
  }

  lemma WordsOf(t: int)
    requires t % 8 == 0
    ensures t % UNSIGNED_INT % 8 == 0
  {
  }

  /** Room found for a request of `size` rounded bytes; `left` of it is what one page has over. */
  ghost predicate Acquired(c: Config, own: map<int, Ext>, blk: int, addr: int, size: nat, left: nat, avail: nat) {
    && Room(c, own, blk, addr, avail) && size <= avail
    && (if size > c.MaxUser() then avail == c.RealSize(size) else avail <= c.MaxUser() && avail == size + left)
  }

  lemma NarrowFacts(c: Config, own: map<int, Ext>, blk: int, addr: int, size: nat, left: nat, avail: nat, byteSize: nat)
    requires Acquired(c, own, blk, addr, size, left, avail) && 0 < byteSize <= size == RoundUp(byteSize)
    ensures Room(c, own, blk, addr, c.RealSize(byteSize))
    ensures left > 0 && size <= c.MaxUser() ==>
      Room(c, own, blk, addr + size, c.RealSize(left)) && c.RealSize(left) == left && c.RealSize(byteSize) <= size
  {
    hide Pages, SizeOfPages, Outside, RoundUp;
    RealSizeOfRounded(c, byteSize);
    RoundUpIsNext(byteSize, size);
    if size <= c.MaxUser() {
      RoomNarrows(c, own, blk, addr, addr + avail, addr, byteSize);
      if left > 0 {
        RoomNarrows(c, own, blk, addr, addr + avail, addr + size, left);
      }
    }
  }

  /** What lies in a block comes to less than 2^32 bytes. */
  lemma RoomFits(c: Config, v: View, h: Heap, blk: int, addr: int, size: nat, left: nat, avail: nat)
    requires Inv(c, v, h) && Acquired(c, v.own, blk, addr, size, left, avail)
    ensures Fits(c.pageSize, size)
  {
    hide Pages, SizeOfPages, Filed, Linked, Chained, Fenced;
    CoversExactly(c.pageSize, size);
    assert Placed(c, v.own, blk, v.own[blk]);
  }

  lemma HoleIsPositive(c: Config, v: View, h: Heap, blk: int, lo: int, hi: int)
    requires Inv(c, v, h) && Hole(v.own, blk, lo, hi)
    ensures 0 < lo
  {
  }

  ghost predicate Zeroed(m: Memory, lo: int, hi: int) {
    forall x :: lo <= x < hi ==> x in m && m[x] == ByteCell(0)
  }

  lemma WriteFacts(c: Config, v: View, h: Heap, a: int, i: nat, cell: Cell)
    requires Inv(c, v, h) && a in LiveOf(v.own) && i < LiveOf(v.own)[a] && cell.ByteCell?
    ensures Inv(c, v, h.(mem := Store(h.mem, a + i, cell)))
    ensures BytesKept(LiveOf(v.own) - {a}, h.mem, Store(h.mem, a + i, cell))
  {
    hide Geometry, Filed, Linked, Chained, Fenced, SameOutside, Store;
    StoreFrame(h.mem, a + i, cell, a + i, a + i + 1);
    OwnWriteKeepsInv(c, v, h, Store(h.mem, a + i, cell), a, a + i, a + i + 1);
    OthersKept(c, v.own, h.mem, Store(h.mem, a + i, cell), a, a + i, a + i + 1);
  }

  /** A write into one live extent keeps the bytes of the others. */
  lemma OthersKept(c: Config, own: map<int, Ext>, m: Memory, n: Memory, a: int, lo: int, hi: int)
    requires Geometry(c, own) && a in LiveOf(own) && a <= lo <= hi <= a + LiveOf(own)[a] && SameOutside(m, n, lo, hi)
    ensures BytesKept(LiveOf(own) - {a}, m, n)
  {
    LiveCovers(c, own, a);
    forall b, x | Covers(LiveOf(own) - {a}, b, x)
      ensures KeptAt(m, n, x)
    {
      LiveCovers(c, own, b);
      assert Apart(b, own[b].len, a, own[a].len);
    }
  }

  lemma ForgetFacts(c: Config, v: View, h: Heap, a: int, i: nat)
    requires Inv(c, v, h) && a in LiveOf(v.own) && i < LiveOf(v.own)[a]
    ensures Inv(c, v, h.(mem := Forget(h.mem, a + i, 1)))
    ensures BytesKept(LiveOf(v.own) - {a}, h.mem, Forget(h.mem, a + i, 1))
  {
    hide Geometry, Filed, Linked, Chained, Fenced;
    OwnWriteKeepsInv(c, v, h, Forget(h.mem, a + i, 1), a, a + i, a + i + 1);
    OthersKept(c, v.own, h.mem, Forget(h.mem, a + i, 1), a, a + i, a + i + 1);
  }

  /** The first `k` bytes known at `src` in `m` are at `dst` in `n`. */
  ghost predicate Copied(m: Memory, n: Memory, src: int, dst: int, k: int) {
    forall x :: src <= x < src + k && x in m && m[x].ByteCell? ==> dst + (x - src) in n && n[dst + (x - src)] == m[x]
  }

  lemma NothingCopied(m: Memory, src: int, dst: int)
    ensures Copied(m, m, src, dst, 0)
  {
  }

  lemma CopyStep(live: map<int, nat>, m0: Memory, m: Memory, src: int, dst: int, i: nat)
    requires Copied(m0, m, src, dst, i) && BytesKept(live, m0, m) && src in live && i < live[src]
    ensures src + i in m && m[src + i].ByteCell? ==> Copied(m0, Store(m, dst + i, m[src + i]), src, dst, i + 1)
    ensures !(src + i in m && m[src + i].ByteCell?) ==> Copied(m0, Forget(m, dst + i, 1), src, dst, i + 1)
  {
    ByteIsKept(live, m0, m, src, src + i);
  }

  lemma CopiedFrom(live: map<int, nat>, m0: Memory, m1: Memory, m2: Memory, src: int, dst: int, k: nat)
    requires BytesKept(live, m0, m1) && src in live && k <= live[src] && Copied(m1, m2, src, dst, k)
    ensures Copied(m0, m2, src, dst, k)
  {
    forall x | src <= x < src + k && x in m0 && m0[x].ByteCell?
      ensures dst + (x - src) in m2 && m2[dst + (x - src)] == m0[x]
    {
      ByteIsKept(live, m0, m1, src, x);
    }
  }

  lemma CopiedTo(live: map<int, nat>, m0: Memory, m1: Memory, m2: Memory, src: int, dst: int, k: nat)
    requires Copied(m0, m1, src, dst, k) && dst in live && k <= live[dst] && BytesKept(live, m1, m2)
    ensures Copied(m0, m2, src, dst, k)
  {
    forall x | src <= x < src + k && x in m0 && m0[x].ByteCell?
      ensures dst + (x - src) in m2 && m2[dst + (x - src)] == m0[x]
    {
      ByteIsKept(live, m1, m2, dst, dst + (x - src));
    }
  }

  lemma BytesKeptFewer(live: map<int, nat>, fewer: map<int, nat>, m: Memory, n: Memory)
    requires BytesKept(live, m, n) && forall a :: a in fewer ==> a in live && fewer[a] == live[a]
    ensures BytesKept(fewer, m, n)
  {
    forall a, x | Covers(fewer, a, x)
      ensures KeptAt(m, n, x)
    {
      assert Covers(live, a, x);
    }
  }

  /** Releasing a live extent: all of it is room again, its fence and its block header are there. */
  lemma ReleaseFacts(c: Config, v: View, h: Heap, a: int, size: nat) returns (w: View, blk: int)
    requires Inv(c, v, h) && a in LiveOf(v.own) && LiveOf(v.own)[a] == Adjusted(size)
    ensures Inv(c, w, h) && LiveOf(w.own) == LiveOf(v.own) - {a} && a !in w.own
    ensures Room(c, w.own, blk, a, c.RealSize(Adjusted(size) + c.Fence()))
    ensures !c.noFree ==> a + Adjusted(size) in h.mem && h.mem[a + Adjusted(size)] == FenceCell
    ensures size > c.MaxUser() ==> a - BLOCK_HEADER in v.own && v.own[a - BLOCK_HEADER].kind.Header?
  {
    hide Filed, Linked, Chained;
    assert Placed(c, v.own, a, v.own[a]);
    ReleaseKeepsInv(c, v, h, a);
    w, blk := v.(own := v.own - {a}), v.own[a].blk;
    LiveCovers(c, v.own, a);
  }

  lemma RoomIsNew(c: Config, v: View, h: Heap, blk: int, a: int, len: nat)
    requires Inv(c, v, h) && Room(c, v.own, blk, a, len)
    ensures a !in v.own && a !in LiveOf(v.own)
  {
    hide Filed, Linked, Chained, Fenced;
    HoleIsFree(c, v.own, blk, a, a + len);
  }

  lemma ClaimFacts(c: Config, v: View, h: Heap, blk: int, a: int, size: nat) returns (w: View)
    requires Inv(c, v, h) && FREE_RECORD <= size && Room(c, v.own, blk, a, c.RealSize(size + c.Fence()))
    ensures Inv(c, w, h.(mem := WriteMagic(c, h.mem, a + size))) && LiveOf(w.own) == LiveOf(v.own)[a := size]
    ensures BytesKept(LiveOf(v.own), h.mem, WriteMagic(c, h.mem, a + size))
  {
    hide Geometry, Filed, Linked, Chained, Fenced, Store, Outside, SameOutside;
    LiveKeepsInv(c, v, h, blk, a, size);
    w := LiveView(c, v, blk, a, size);
    LiveLength(c, size);
    var hi := a + c.RealSize(size + c.Fence());
    StoreFrame(h.mem, a + size, FenceCell, a, if c.noFree then a + size + 2 else hi);
    SameOutsideRefl(h.mem, a, hi);
    HoleIsLiveApart(v.own, blk, a, hi);
    BytesOutside(c, v, h, WriteMagic(c, h.mem, a + size), a, hi);
  }

  lemma SameOutsideRefl(m: Memory, lo: int, hi: int)
    ensures SameOutside(m, m, lo, hi)
  {
  }

  lemma HoleIsLiveApart(own: map<int, Ext>, blk: int, lo: int, hi: int)
    requires Hole(own, blk, lo, hi)
    ensures LiveApart(own, lo, hi)
  {
  }

  lemma RoundUpCovers(byteSize: nat)
    ensures byteSize <= RoundUp(byteSize)
  {
  }

  lemma RealSizeCovers(c: Config, size: nat)
    ensures size <= c.RealSize(size)
  {
    PagesBounds(c.pageSize, size);
  }

  lemma RoundUpStep(size: nat)
    requires size % POINTER_SIZE > 0 && size < UNSIGNED_LONG
    ensures var next := (size + 1) % UNSIGNED_LONG;
            && Asked(next) == Asked(size) && 0 <= RoundUp(next) - next < RoundUp(size) - size
            && (next % POINTER_SIZE == 0 ==> RoundUp(next) == next)
  {
    hide Asked, RoundUp;
    RoundUpOf(size);
    RoundUpUnique(size + 1, RoundUp(size));
    RoundUpUnique(0, 0);
    AskedOf(size);
    AskedOf((size + 1) % UNSIGNED_LONG);
    RoundUpOf((size + 1) % UNSIGNED_LONG);
    if (size + 1) % POINTER_SIZE == 0 {
      RoundUpUnique(size + 1, size + 1);
    }
  }

  lemma RoundUpUnique(n: nat, m: nat)
    requires n <= m < n + POINTER_SIZE && m % POINTER_SIZE == 0
    ensures RoundUp(n) == m
  {
  }

  lemma AskedOf(n: nat)
    requires n < UNSIGNED_LONG
    ensures Asked(n) == RoundUp(n) % UNSIGNED_LONG
  {
  }

  lemma RoundUpIsNext(byteSize: nat, size: nat)
    requires byteSize <= size <= RoundUp(byteSize)
    ensures size % POINTER_SIZE == 0 <==> size == RoundUp(byteSize)
  {
  }

  lemma ChunkAt(c: Config, v: View, h: Heap, k: nat) returns (len: nat)
    requires Inv(c, v, h) && k <= MAX_BITS && h.free[k] != NULL
    ensures v.lists[k] != [] && InClass(k, len)
  {
    len := v.own[v.lists[k][0]].len;
  }

  /** A chunk with more pages than the request fills a run of pages, which can be divided. */
  lemma RunFacts(c: Config, v: View, h: Heap, blk: int, a: int, len: nat, size: nat)
    requires Inv(c, v, h) && Room(c, v.own, blk, a, len) && Pages(c.pageSize, size) < Pages(c.pageSize, len)
    ensures blk == a - BLOCK_HEADER && blk in v.own && v.own[blk].kind.Header?
    ensures v.own[blk].kind.bounds == a + len && Hole(v.own, blk, a, v.own[blk].kind.bounds)
    ensures LiveApart(v.own, blk, v.own[blk].kind.bounds)
  {
    hide Pages, SizeOfPages, Filed, Linked, Chained, Fenced;
    OnePage(c, len);
    PagesBounds(c.pageSize, size);
    ChunkIsRun(c, v.own, blk, a, len);
    BlockIsLiveApart(c, v.own, blk);
  }

  /** A chunk with as many pages as the request is, when these are several, exactly its run. */
  lemma SameRun(c: Config, v: View, h: Heap, blk: int, a: int, len: nat, size: nat)
    requires Inv(c, v, h) && Room(c, v.own, blk, a, len) && size <= len
    requires Pages(c.pageSize, len) <= Pages(c.pageSize, size)
    ensures if size > c.MaxUser() then len == c.RealSize(size) else len <= c.MaxUser()
    ensures len - size < c.pageSize
  {
    hide Pages, SizeOfPages, Filed, Linked, Chained, Fenced;
    PagesMonotonic(c.pageSize, size, len);
    LeftoverBelowPage(c.pageSize, len, size);
    OnePage(c, size);
    OnePage(c, len);
    if len > c.MaxUser() {
      ChunkIsRun(c, v.own, blk, a, len);
    }
  }

  /** Taking the first chunk of list k: all of it is room, and it is as long as its record says. */
  lemma PopFacts(c: Config, v: View, h: Heap, k: nat) returns (w: View, blk: int)
    requires Inv(c, v, h) && 4 <= k <= MAX_BITS && v.lists[k] != []
    ensures var a := h.free[k];
      && a in h.mem && h.mem[a].FreeCell? && InClass(k, h.mem[a].size)
      && Inv(c, w, h.(free := h.free[k := h.mem[a].next])) && LiveOf(w.own) == LiveOf(v.own)
      && Room(c, w.own, blk, a, h.mem[a].size) && ChunkIs(v.own, a, h.mem[a].size)
  {
    hide Geometry, Linked, Chained, Fenced, Hole;
    PopKeepsInv(c, v, h, k);
    w, blk := PopView(v, k), v.own[v.lists[k][0]].blk;
  }

  /** List `k` is the first, of those on which every chunk is big enough, that is not empty. */
  ghost predicate FirstIn(h: Heap, size: nat, k: nat) {
    && k <= MAX_BITS && |h.free| == MAX_BITS + 1 && size <= Pow2(k) && h.free[k] != NULL
    && forall j: nat :: j < k && size <= Pow2(j) ==> h.free[j] == NULL
  }

  /** All these lists are empty. */
  ghost predicate NoneIn(h: Heap, size: nat) {
    |h.free| == MAX_BITS + 1 && forall j: nat :: j <= MAX_BITS && size <= Pow2(j) ==> h.free[j] == NULL
  }

  /** The lists are asked first: the head of the first list that has one is taken, and no page; the kernel is asked
      when they have none. */
  ghost predicate Chosen(h: Heap, pageC: nat, size: nat, answer: int, ret: Error, addr: int, pageC': nat) {
    && (forall k: nat :: FirstIn(h, size, k) ==> ret == NoError && addr == h.free[k] && pageC' == pageC)
    && (NoneIn(h, size) && ret == NoError ==> addr == answer + BLOCK_HEADER)
  }

  /** Nothing is lost of what was taken, `len` bytes, but for less than a pointer. */
  ghost predicate RestFiled(c: Config, own: map<int, Ext>, addr: int, size: nat, len: nat) {
    if Pages(c.pageSize, len) > Pages(c.pageSize, size) then CutFiled(c, own, addr, size, len)
    else size <= c.MaxUser() ==> len - size < POINTER_SIZE || ChunkIs(own, addr + size, len - size)
  }

  /** The same for what a chunk of the lists had, or a new block. */
  ghost predicate RestTaken(c: Config, h: Heap, own: map<int, Ext>, own': map<int, Ext>, addr: int, size: nat) {
    if NoneIn(h, size) then
      var len := PageBytes(c.pageSize, size) - BLOCK_HEADER;
      len >= 0 && RestFiled(c, own', addr, size, len)
    else
      addr in own && RestFiled(c, own', addr, size, own[addr].len)
  }

  /** What get_space has still to hand back of the chunk it has taken, or of the new block. */
  ghost predicate RestLeft(c: Config, h: Heap, own: map<int, Ext>, own': map<int, Ext>, addr: int, size: nat, left: nat) {
    if NoneIn(h, size) then
      left == PageBytes(c.pageSize, size) - BLOCK_HEADER - size && Pages(c.pageSize, size + left) == Pages(c.pageSize, size)
    else
      && addr in own
      && if Pages(c.pageSize, own[addr].len) > Pages(c.pageSize, size) then left == 0 && CutFiled(c, own', addr, size, own[addr].len)
         else own[addr].len == size + left
  }

  lemma NoRest(c: Config, h: Heap, own: map<int, Ext>, own': map<int, Ext>, addr: int, size: nat, left: nat)
    requires RestLeft(c, h, own, own', addr, size, left) && (left == 0 || size > c.MaxUser())
    ensures RestTaken(c, h, own, own', addr, size)
  {
    hide Pages, PageBytes, NoneIn, CutFiled, ChunkIs;
  }

  lemma RestIsFiled(c: Config, h: Heap, own: map<int, Ext>, v: View, h1: Heap, v': View, h': Heap, blk: int, addr: int, size: nat, left: nat)
    requires RestLeft(c, h, own, v.own, addr, size, left) && 0 < left && size <= c.MaxUser()
    requires FiledAs(h1, v, h', v', blk, addr + size, c.RealSize(left)) && c.RealSize(left) == left
    ensures RestTaken(c, h, own, v'.own, addr, size)
  {
    hide Pages, PageBytes, NoneIn, CutFiled, ChunkIs, FiledAs;
    if left >= POINTER_SIZE {
      FiledIsPut(h1, v, h', v', blk, addr + size, left);
    }
  }

  /** A new block has the pages of the request and no more. */
  lemma OneRun(c: Config, size: nat)
    requires Fits(c.pageSize, size) && size < UNSIGNED_LONG
    ensures PageBytes(c.pageSize, size) >= BLOCK_HEADER + size
    ensures Pages(c.pageSize, PageBytes(c.pageSize, size) - BLOCK_HEADER) == Pages(c.pageSize, size)
  {
    hide Pages, SizeOfPages, PageBytes;
    CoversExactly(c.pageSize, size);
    PagesBounds(c.pageSize, size);
    PagesOfRun(c.pageSize, Pages(c.pageSize, size));
  }

  lemma SoughtIsSmall(c: Config, size: nat, k: nat, len: nat)
    requires InClass(k, len) && RoundUp(Adjusted(size) + c.Fence()) <= Pow2(k)
    ensures Asked(Adjusted(size) + c.Fence()) == RoundUp(Adjusted(size) + c.Fence()) >= FREE_RECORD
  {
    hide Pow2, Asked, RoundUp;
    var n := Adjusted(size) + c.Fence();
    RoundUpCovers(n);
    LastPower(k);
    AskedIs(n);
  }

  lemma LastPower(k: nat)
    requires k <= MAX_BITS
    ensures Pow2(k) <= 0x4000_0000
  {
    hide Pow2;
    PowerOf30();
    Pow2Monotonic(k, MAX_BITS);
  }

  lemma PowerOf30()
    ensures Pow2(30) == 0x4000_0000
  {
    assert Pow2(5) == 32;
    assert Pow2(10) == 32 * Pow2(5);
    assert Pow2(15) == 32 * Pow2(10);
    assert Pow2(20) == 32 * Pow2(15);
    assert Pow2(25) == 32 * Pow2(20);
    assert Pow2(30) == 32 * Pow2(25);
  }

  lemma HeadIsFirst(c: Config, h0: Heap, h: Heap, v: View, addr: int, len: nat, size: nat, k: nat)
    requires Inv(c, v, h) && PutOnList(h0, h, v, addr, len) && InClass(k, len) && 4 <= k
    requires Pow2(k - 1) < size <= Pow2(k) && addr != NULL
    ensures FirstIn(h, size, k) && h.free[k] == addr
  {
    hide Pow2, Geometry, Chained, Fenced, Filed, Linked;
    InvShape(c, v, h);
    var j: nat :| HeadOf(h, v, addr, len, j) && j < |h0.free| && h.free == h0.free[j := addr];
    OneClass(j, k, len);
    forall i: nat | i < k
      ensures Pow2(i) < size
    {
      Pow2Monotonic(i, k - 1);
    }
  }

  lemma OneClass(j: nat, k: nat, len: nat)
    requires InClass(j, len) && InClass(k, len)
    ensures j == k
  {
    hide Pow2;
    if j < k {
      Pow2Monotonic(j + 1, k);
    } else if k < j {
      Pow2Monotonic(k + 1, j);
    }
  }

  lemma ChosenFirst(h: Heap, pageC: nat, size: nat, answer: int, ret: Error, addr: int, pageC': nat, k: nat)
    requires Chosen(h, pageC, size, answer, ret, addr, pageC') && FirstIn(h, size, k)
    ensures ret == NoError && addr == h.free[k] && pageC' == pageC
  {
    hide FirstIn, NoneIn;
    assert k < |h.free| by {
      FirstFits(h, size, k);
    }
  }

  lemma FirstFits(h: Heap, size: nat, k: nat)
    requires FirstIn(h, size, k)
    ensures k < |h.free|
  {
  }

  lemma FirstIsOne(h: Heap, size: nat, start: nat, k: nat)
    requires |h.free| == MAX_BITS + 1 && start <= k
    requires start <= MAX_BITS ==> size <= Pow2(start)
    requires forall j :: 0 <= j < start ==> Pow2(j) < size
    requires forall j :: start <= j < k && j <= MAX_BITS ==> h.free[j] == NULL
    ensures k <= MAX_BITS && h.free[k] != NULL ==> FirstIn(h, size, k) && !NoneIn(h, size)
    ensures k <= MAX_BITS && h.free[k] != NULL ==> forall i: nat :: FirstIn(h, size, i) ==> i == k
    ensures k > MAX_BITS ==> NoneIn(h, size) && forall i: nat :: !FirstIn(h, size, i)
  {
    hide Pow2;
    if k <= MAX_BITS {
      Pow2Monotonic(start, k);
    }
  }

  // ----- statistics -------------------------------------------------------------------------

  ghost function Total(m: map<int, nat>): nat
    decreases |m|
  {
    if |m| == 0 then 0 else var a :| a in m.Items; a.1 + Total(m - {a.0})
  }

  lemma TotalOfNone()
    ensures Total(map[]) == 0
  {
  }

  lemma {:induction false} TotalRemove(m: map<int, nat>, a: int)
    requires a in m
    ensures Total(m) == m[a] + Total(m - {a})
    decreases |m|
  {
    var b, n := Picked(m);
    if b != a {
      TotalRemove(m - {b}, a);
      TotalRemove(m - {a}, b);
      assert m - {b} - {a} == m - {a} - {b};
    }
  }

  lemma Picked(m: map<int, nat>) returns (b: int, n: nat)
    requires m != map[]
    ensures b in m && m[b] == n && Total(m) == n + Total(m - {b}) && |m - {b}| < |m|
  {
    var item :| item in m.Items && Total(m) == item.1 + Total(m - {item.0});
    b, n := item.0, item.1;
    assert (m - {b}).Keys == m.Keys - {b};
  }

  lemma TotalAdd(m: map<int, nat>, a: int, n: nat)
    requires a !in m
    ensures Total(m[a := n]) == Total(m) + n && |m[a := n]| == |m| + 1
  {
    TotalRemove(m[a := n], a);
    assert m[a := n] - {a} == m;
  }

  /** The size the pool works with: at least a free record. */
  function Adjusted(size: nat): nat {
    if size < FREE_RECORD then FREE_RECORD else size
  }

  // ----- what the invariant says to a client --------------------------------------------------

  /** Live extents with their fences are pairwise disjoint, lie in the pool's pages, and touch
      neither a block header nor a free chunk. */
  lemma LiveIsSafe(c: Config, v: View, h: Heap, a: int, b: int)
    requires Inv(c, v, h) && a in LiveOf(v.own) && b in v.own && a != b
    ensures a % POINTER_SIZE == 0
    ensures v.own[b].kind.Live? ==> Apart(a, LiveOf(v.own)[a] + c.Fence(), b, v.own[b].kind.size + c.Fence())
    ensures v.own[b].kind.Header? ==> Apart(a, LiveOf(v.own)[a] + c.Fence(), b, BLOCK_HEADER)
    ensures v.own[b].kind.Chunk? ==> Apart(a, LiveOf(v.own)[a] + c.Fence(), b, v.own[b].len)
    ensures exists blk :: (blk in v.own && v.own[blk].kind.Header? && blk + BLOCK_HEADER <= a
      && a + LiveOf(v.own)[a] + c.Fence() <= v.own[blk].kind.bounds)
  {
    LiveCovers(c, v.own, a);
    LiveCovers(c, v.own, b);
    assert Placed(c, v.own, a, v.own[a]);
    assert Apart(a, v.own[a].len, b, v.own[b].len);
    var blk := v.own[a].blk;
    assert blk in v.own && v.own[blk].kind.Header?;
  }

  /** A free chunk longer than one page's user memory is a whole block, and its list is found by
      its size. */
  lemma ChunkIsTiled(c: Config, v: View, h: Heap, a: int)
    requires Inv(c, v, h) && a in v.own && v.own[a].kind.Chunk?
    ensures InClass(v.own[a].kind.bit, v.own[a].len)
    ensures v.own[a].len > c.MaxUser() ==>
      var blk := a - BLOCK_HEADER;
      blk in v.own && v.own[blk].kind == Header(a + v.own[a].len) && WholePages(c, blk, a + v.own[a].len)
  {
    hide Linked, Chained, Fenced, Pages, SizeOfPages;
    assert Placed(c, v.own, a, v.own[a]);
    assert Placed(c, v.own, v.own[a].blk, v.own[v.own[a].blk]);
    var k := v.own[a].kind.bit;
    var i :| 0 <= i < |v.lists[k]| && v.lists[k][i] == a;
  }

  // ----- clearing -----------------------------------------------------------------------------

  /** All the user memory of a block is room. */
  ghost predicate Vacant(c: Config, own: map<int, Ext>, b: int) {
    b in own && own[b].kind.Header? && b + BLOCK_HEADER <= own[b].kind.bounds &&
    Room(c, own, b, b + BLOCK_HEADER, own[b].kind.bounds - (b + BLOCK_HEADER))
  }

  /** All the user memory of a block is one free chunk. */
  ghost predicate Whole(own: map<int, Ext>, b: int) {
    && b in own && own[b].kind.Header? && b + BLOCK_HEADER in own && own[b + BLOCK_HEADER].kind.Chunk?
    && b + BLOCK_HEADER + own[b + BLOCK_HEADER].len == own[b].kind.bounds
  }

  ghost function HeadersOf(own: map<int, Ext>): map<int, Ext> {
    map a | a in own && own[a].kind.Header? :: own[a]
  }

  /** Forgetting every list and every live extent leaves the blocks, all vacant. */
  lemma ResetFacts(c: Config, v: View, h: Heap, h': Heap) returns (w: View)
    requires Inv(c, v, h) && h'.first == h.first && h'.mem == h.mem && |h'.free| == MAX_BITS + 1
    requires forall k :: 0 <= k <= MAX_BITS ==> h'.free[k] == NULL
    ensures Inv(c, w, h') && w.blocks == v.blocks && LiveOf(w.own) == map[]
    ensures forall j :: 0 <= j < |w.blocks| ==> Vacant(c, w.own, w.blocks[j])
    ensures h.first == Head(w.blocks) && (h.first != NULL <==> w.blocks != [])
  {
    hide Pages, SizeOfPages, Geometry;
    w := View(HeadersOf(v.own), seq(MAX_BITS + 1, _ => []), v.blocks);
    ResetKeepsGeometry(c, v.own);
    HeadIsNull(c, v, h);
    ChainedAgrees(v, w, h, h'.free);
  }

  lemma HeadIsNull(c: Config, v: View, h: Heap)
    requires Inv(c, v, h)
    ensures h.first == Head(v.blocks) && (h.first != NULL <==> v.blocks != [])
  {
    hide Filed, Linked, Fenced, Pages, SizeOfPages;
    assert v.blocks != [] ==> v.blocks[0] in v.own;
  }

  lemma ResetKeepsGeometry(c: Config, own: map<int, Ext>)
    requires Geometry(c, own)
    ensures Geometry(c, HeadersOf(own))
    ensures forall b :: b in HeadersOf(own) ==> Vacant(c, HeadersOf(own), b)
  {
    hide WholePages;
    var own' := HeadersOf(own);
    forall a | a in own'
      ensures Placed(c, own', a, own'[a]) && Vacant(c, own', a)
    {
      assert Placed(c, own, a, own[a]);
      HeadersApart(c, own, a);
    }
  }

  lemma HeadersApart(c: Config, own: map<int, Ext>, a: int)
    requires Geometry(c, own) && a in own && own[a].kind.Header?
    ensures Vacant(c, HeadersOf(own), a)
  {
    hide Pages, SizeOfPages;
    assert Placed(c, own, a, own[a]);
    forall b | b in HeadersOf(own)
      ensures Apart(b, own[b].len, a + BLOCK_HEADER, own[a].kind.bounds - (a + BLOCK_HEADER))
    {
      assert Placed(c, own, b, own[b]);
    }
  }

  lemma BlockHeaderAt(c: Config, v: View, h: Heap, i: nat)
    requires Inv(c, v, h) && i < |v.blocks|
    ensures var b := v.blocks[i];
      b in v.own && v.own[b].kind.Header? && b in h.mem && h.mem[b] == HeaderCell(v.own[b].kind.bounds, NextOf(v.blocks, i))
    ensures i + 1 < |v.blocks| ==> v.blocks[i + 1] != NULL
  {
    assert HeaderAt(v, h, i);
    assert i + 1 < |v.blocks| ==> v.blocks[i + 1] in v.own;
  }

  lemma VacantRoom(c: Config, v: View, h: Heap, b: int)
    requires Inv(c, v, h) && Vacant(c, v.own, b)
    ensures var len := v.own[b].kind.bounds - (b + BLOCK_HEADER);
      POINTER_SIZE <= len && c.RealSize(len) == len && Room(c, v.own, b, b + BLOCK_HEADER, len)
  {
    hide Filed, Linked, Chained, Fenced, Pages, SizeOfPages;
    assert Placed(c, v.own, b, v.own[b]);
    var len := v.own[b].kind.bounds - (b + BLOCK_HEADER);
    if len > c.MaxUser() {
      ChunkIsRun(c, v.own, b, b + BLOCK_HEADER, len);
    }
  }

  lemma AllWhole(own: map<int, Ext>, blocks: seq<int>)
    requires forall j :: 0 <= j < |blocks| ==> Whole(own, blocks[j])
    ensures forall b :: b in blocks ==> Whole(own, b)
  {
  }

  lemma ClearStep(c: Config, v: View, h: Heap, w: View, i: nat, len: nat)
    requires Inv(c, v, h) && i < |v.blocks| && LiveOf(v.own) == map[]
    requires forall j :: i <= j < |v.blocks| ==> Vacant(c, v.own, v.blocks[j])
    requires forall j :: 0 <= j < i ==> Whole(v.own, v.blocks[j])
    requires Vacant(c, v.own, v.blocks[i]) && len == v.own[v.blocks[i]].kind.bounds - (v.blocks[i] + BLOCK_HEADER)
    requires POINTER_SIZE <= len && Freed(v, w, v.blocks[i], v.blocks[i] + BLOCK_HEADER, len)
    ensures LiveOf(w.own) == map[] && w.blocks == v.blocks
    ensures forall j :: i < j < |w.blocks| ==> Vacant(c, w.own, w.blocks[j])
    ensures forall j :: 0 <= j <= i ==> Whole(w.own, w.blocks[j])
  {
    hide Filed, Linked, Fenced, Pages, SizeOfPages, Hole;
    var b := v.blocks[i];
    VacantRoom(c, v, h, b);
    HoleIsFree(c, v.own, b, b + BLOCK_HEADER, b + BLOCK_HEADER + len);
    FreedKeepsLive(v, w, b, b + BLOCK_HEADER, len);
    assert Whole(w.own, b);
    forall j | 0 <= j < |v.blocks| && j != i
      ensures if j < i then Whole(w.own, w.blocks[j]) else Vacant(c, w.own, w.blocks[j])
    {
      OtherBlock(c, v, w, b, len, v.blocks[j]);
    }
  }

  lemma OtherBlock(c: Config, v: View, w: View, b: int, len: nat, d: int)
    requires Geometry(c, v.own) && b in v.own && v.own[b].kind.Header? && len == v.own[b].kind.bounds - (b + BLOCK_HEADER)
    requires Freed(v, w, b, b + BLOCK_HEADER, len) && b + BLOCK_HEADER !in v.own
    requires d != b && d in v.own && v.own[d].kind.Header?
    ensures Whole(v.own, d) ==> Whole(w.own, d)
    ensures Vacant(c, v.own, d) ==> Vacant(c, w.own, d)
  {
    hide Hole, Placed;
    if Vacant(c, v.own, d) {
      FreedKeepsRoom(c, v, w, b, b + BLOCK_HEADER, len, d, d + BLOCK_HEADER, v.own[d].kind.bounds - (d + BLOCK_HEADER));
    }
  }

  class Pool {
    const c: Config
    var h: Heap
    var pageC: nat
    var allocC: nat            // mp_alloc_c
    var userAlloc: nat         // mp_user_alloc
    var maxAlloc: nat          // mp_max_alloc
    ghost var v: View
    ghost var staleC: nat      // allocations and bytes that mpool_clear left in the statistics
    ghost var staleBytes: nat

    ghost predicate InvNow()
      reads this`h, this`v
    {
      Inv(c, v, h)
    }

    ghost function Live(): map<int, nat>
      reads this`v
    {
      LiveOf(v.own)
    }

    ghost predicate Valid()
      reads this
    {
      && InvNow()
      && allocC == |Live()| + staleC
      && userAlloc == Total(Live()) + staleBytes
      && userAlloc <= maxAlloc
    }

    /** What get_space looks for when a client asks for `size` bytes. */
    function Sought(size: nat): nat {
      Asked(Adjusted(size) + c.Fence())
    }

    /** What the kernel may answer to a request that needs `size` user bytes. */
    ghost predicate Answer(answer: int, size: nat)
      reads this`v
    {
      KernelPages(v.own, answer, PageBytes(c.pageSize, Sought(size)))
    }

    /** The requests that a new block covers (CoversExactly). */
    predicate Holds(size: nat) {
      Fits(c.pageSize, Adjusted(size) + c.Fence())
    }

    /** `addr` is the start of a block that ends before `size` bytes are over. */
    predicate Short(addr: int, size: nat)
      reads this`h
    {
      && addr - BLOCK_HEADER in h.mem && h.mem[addr - BLOCK_HEADER].HeaderCell?
      && h.mem[addr - BLOCK_HEADER].bounds < addr + size
    }

    constructor (c: Config, pageC: nat)
      ensures Valid() && this.c == c && Live() == map[] && v.own == map[] && allocC == userAlloc == 0
    {
      this.c, this.pageC := c, pageC;
      h := Heap(seq(MAX_BITS + 1, _ => NULL), NULL, map[]);
      allocC, userAlloc, maxAlloc, staleC, staleBytes := 0, 0, 0, 0, 0;
      v := View(map[], seq(MAX_BITS + 1, _ => []), []);
    }

    /** Files `size` bytes at `addr`. */
    method FreePointer(addr: int, size: nat, ghost blk: int) returns (ret: Error)
      requires InvNow()
      requires size > 0 ==> Room(c, v.own, blk, addr, c.RealSize(size))
      modifies this`h, this`v
      ensures InvNow() && ret == NoError
      ensures size == 0 ==> v == old(v) && h == old(h)
      ensures size > 0 ==> addr !in old(v.own) && Freed(old(v), v, blk, addr, c.RealSize(size))
      ensures size > 0 ==> FiledAs(old(h), old(v), h, v, blk, addr, c.RealSize(size))
      ensures size > 0 ==> SameOutside(old(h.mem), h.mem, addr, addr + c.RealSize(size))
    {
      hide Inv, Geometry, Hole, SameOutside, Freed, Store;
      if size == 0 {
        return NoError;
      }
      var realSize := size;
      if size > c.MaxUser() {
        PagesBounds(c.pageSize, size);
        realSize := SizeOfPages(c.pageSize, Pages(c.pageSize, size)) - BLOCK_HEADER;
      }
      assert realSize == c.RealSize(size);
      var bitN := SizeToFreeBits(realSize);
      ghost var w := FileFacts(c, v, h, blk, addr, realSize, bitN);
      if h.free[bitN] == addr {
        return IsFree;
      }
      v := w;
      if bitN < 3 {
        // no space for a next pointer: only an empty list takes the chunk
        if h.free[bitN] == NULL {
          h := h.(free := h.free[bitN := addr]);
        }
      } else if bitN < 4 {
        h := h.(free := h.free[bitN := addr], mem := Store(h.mem, addr, NextCell(h.free[bitN])));
      } else {
        h := h.(free := h.free[bitN := addr], mem := Store(h.mem, addr, FreeCell(h.free[bitN], realSize)));
      }
      return NoError;
    }

    /** Divides the block whose user memory starts at `freeAddr`, keeping the pages of `size`. */
    method SplitBlock(freeAddr: int, size: nat) returns (ret: Error)
      requires InvNow() && 1 <= size && size % POINTER_SIZE == 0
      requires var blk := freeAddr - BLOCK_HEADER;
        && blk in v.own && v.own[blk].kind.Header? && Hole(v.own, blk, freeAddr, v.own[blk].kind.bounds)
        && Pages(c.pageSize, size) < Pages(c.pageSize, v.own[blk].kind.bounds - freeAddr)
      modifies this`h, this`v
      ensures InvNow() && ret == NoError && LiveOf(v.own) == LiveOf(old(v.own))
      ensures Room(c, v.own, freeAddr - BLOCK_HEADER, freeAddr, c.RealSize(size))
      ensures CutFiled(c, v.own, freeAddr, size, old(v.own[freeAddr - BLOCK_HEADER].kind.bounds) - freeAddr)
      ensures SameOutside(old(h.mem), h.mem, freeAddr - BLOCK_HEADER, old(v.own[freeAddr - BLOCK_HEADER].kind.bounds))
    {
      hide Inv, Geometry, Hole, SameOutside, Freed, Store, Pages, SizeOfPages, LiveOf, FiledAs, CutFiled, ChunkIs, PutOnList;
      var blockP := freeAddr - BLOCK_HEADER;
      ghost var bounds := v.own[blockP].kind.bounds;
      ghost var i := HeaderReadable(c, v, h, blockP);
      if !(blockP in h.mem && h.mem[blockP].HeaderCell?) {
        return PoolOver;
      }
      var pageN := Pages(c.pageSize, size);
      PagesBounds(c.pageSize, size);
      SplitPages(c, blockP, bounds, pageN);
      var newBlock := blockP + SizeOfPages(c.pageSize, pageN) % UNSIGNED_INT;
      assert newBlock == blockP + SizeOfPages(c.pageSize, pageN);
      OnePage(c, size);
      ghost var w, m' := SplitFacts(c, v, h, i, blockP, newBlock, bounds);
      ghost var m, restLen := h.mem, bounds - newBlock - BLOCK_HEADER;
      h := h.(mem := Store(h.mem, newBlock, HeaderCell(h.mem[blockP].bounds, h.mem[blockP].next)));
      h := h.(mem := Store(h.mem, blockP, HeaderCell(newBlock, newBlock)));
      v := w;
      CutAligned(c, blockP, newBlock, pageN, bounds, freeAddr + size);
      if pageN == 1 {
        // only a block of one page hands its own rest back
        var endP := freeAddr + size;
        SizeSplits(c.pageSize, 1, 1);
        ghost var v1, h1, m1 := v, h, h.mem;
        RoomNarrows(c, v1.own, blockP, freeAddr, newBlock, freeAddr, size);
        if endP < newBlock {
          RoomNarrows(c, v1.own, blockP, freeAddr, newBlock, endP, newBlock - endP);
        }
        ret := FreePointer(endP, newBlock - endP, blockP);
        if ret != NoError {
          return;
        }
        if endP < newBlock {
          FiledIsPut(h1, v1, h, v, blockP, endP, newBlock - endP);
          FreedKeepsRoom(c, v1, v, blockP, endP, newBlock - endP, blockP, freeAddr, size);
          FreedKeepsRoom(c, v1, v, blockP, endP, newBlock - endP, newBlock, newBlock + BLOCK_HEADER, restLen);
          FrameGrows(m, m1, h.mem, endP, newBlock, blockP, bounds);
        }
      }
      assert Room(c, v.own, blockP, freeAddr, c.RealSize(size));
      ghost var v2, h2, m2 := v, h, h.mem;
      assert v2.own[newBlock].kind.bounds == bounds;
      ghost var i2 := HeaderReadable(c, v, h, newBlock);
      RestIsRun(c, v, h, newBlock, restLen);
      ret := FreePointer(newBlock + BLOCK_HEADER, h.mem[newBlock].bounds - (newBlock + BLOCK_HEADER), newBlock);
      FreedKeepsRoom(c, v2, v, newBlock, newBlock + BLOCK_HEADER, restLen, blockP, freeAddr, c.RealSize(size));
      FrameGrows(m, m2, h.mem, newBlock + BLOCK_HEADER, bounds, blockP, bounds);
      FiledIsPut(h2, v2, h, v, newBlock, newBlock + BLOCK_HEADER, restLen);
      CutIs(c, v.own, freeAddr, size, newBlock, bounds);
    }

    /** New pages from the kernel, unless the pool may not grow: as many bytes as the product of an unsigned
        int comes to. */
    method AllocPages(pageN: nat, answer: int) returns (mem: int, ret: Error)
      requires pageN < UNSIGNED_INT && KernelPages(v.own, answer, Product(pageN, c.pageSize))
      modifies this`pageC
      ensures mem == (if c.maxPages > 0 && old(pageC) >= c.maxPages then NULL else answer)
      ensures pageC == if mem == NULL then old(pageC) else (old(pageC) + pageN) % UNSIGNED_INT
      ensures mem != NULL ==> OffPool(v.own, mem, mem + Product(pageN, c.pageSize))
      ensures ret == if mem != NULL then NoError else if 0 < c.maxPages <= old(pageC) then NoPages else NoMem
    {
      if c.maxPages > 0 && pageC >= c.maxPages {
        return NULL, NoPages;
      }
      if answer == NULL {
        return NULL, NoMem;
      }
      pageC := (pageC + pageN) % UNSIGNED_INT;
      return answer, NoError;
    }

    /** A block of new pages for `size` bytes, or one that is too small for them. */
    method NewBlock(size: nat, answer: int) returns (addr: int, ret: Error, left: nat, ghost blk: int, ghost avail: nat)
      requires InvNow() && size < UNSIGNED_LONG && KernelPages(v.own, answer, PageBytes(c.pageSize, size))
      modifies this`h, this`v, this`pageC
      ensures ret != TooSmall ==> InvNow() && LiveOf(v.own) == LiveOf(old(v.own)) && BytesKept(LiveOf(v.own), old(h.mem), h.mem)
      ensures ret == NoError ==> Acquired(c, v.own, blk, addr, size, left, avail) && left < c.pageSize
      ensures addr == NULL ==> (ret == NoPages || ret == NoMem) && v == old(v) && h == old(h) && pageC == old(pageC)
      ensures addr == NULL ==> answer == NULL || 0 < c.maxPages <= pageC
      ensures addr != NULL ==> ret == (if Fits(c.pageSize, size) then NoError else TooSmall) && addr == answer + BLOCK_HEADER
      ensures ret == NoError ==> left == PageBytes(c.pageSize, size) - BLOCK_HEADER - size
      ensures ret == TooSmall ==>
        addr != NULL && Short(addr, size) && h.mem[addr - BLOCK_HEADER].bounds == addr - BLOCK_HEADER + PageBytes(c.pageSize, size)
    {
      hide Inv, Geometry, Outside, BytesKept, Store, Pages, SizeOfPages, LiveOf, OffPool, Product, PagesInSize, Fits, Room;
      BytesKeptRefl(LiveOf(v.own), h.mem);
      left, blk, avail := 0, 0, 0;
      var pageN := PagesInSize(c.pageSize, size);
      PagesBounds(c.pageSize, size);
      CoversExactly(c.pageSize, size);
      OnePage(c, size);
      SizeSplits(c.pageSize, Pages(c.pageSize, size), 1);
      var blockP;
      blockP, ret := AllocPages(pageN, answer);
      if blockP == NULL {
        return NULL, ret, 0, 0, 0;
      }
      ghost var w := v;
      if Fits(c.pageSize, size) {
        w := BlockFacts(c, v, h, blockP, Pages(c.pageSize, size));
      }
      var bounds := blockP + Product(pageN, c.pageSize);
      StoredAt(h.mem, blockP, HeaderCell(bounds, h.first));
      h := Heap(h.free, blockP, Store(h.mem, blockP, HeaderCell(bounds, h.first)));
      addr := blockP + BLOCK_HEADER;
      left := (bounds - (addr + size)) % UNSIGNED_INT;
      if bounds < addr + size {
        ret := TooSmall; // the code does not look
      } else {
        v, blk, avail := w, blockP, bounds - addr;
      }
    }

    /** The first chunk of list `bitC`, cut down to the pages of `size` bytes when it has more. */
    method TakeChunk(size: nat, start: nat, bitC: nat) returns (addr: int, ret: Error, left: nat, ghost blk: int, ghost avail: nat)
      requires InvNow() && FREE_RECORD <= size && size % POINTER_SIZE == 0
      requires start <= bitC <= MAX_BITS && size <= Pow2(start) && forall k :: 0 <= k < start ==> Pow2(k) < size
      requires |h.free| == MAX_BITS + 1 && h.free[bitC] != NULL
      modifies this`h, this`v
      ensures InvNow() && LiveOf(v.own) == LiveOf(old(v.own)) && BytesKept(LiveOf(v.own), old(h.mem), h.mem)
      ensures ret == NoError && addr != NULL && Acquired(c, v.own, blk, addr, size, left, avail) && left < c.pageSize
      ensures addr == old(h.free[bitC]) && addr in old(v.own)
      ensures var len := old(v.own)[addr].len;
              if Pages(c.pageSize, len) > Pages(c.pageSize, size) then left == 0 && CutFiled(c, v.own, addr, size, len)
              else len == size + left
    {
      hide Inv, Geometry, Outside, BytesKept, Pages, SizeOfPages, LiveOf, SameOutside, Pow2, InClass, CutFiled;
      BytesKeptRefl(LiveOf(v.own), h.mem);
      RealSizeCovers(c, size);
      left, blk, avail := 0, 0, 0;
      addr := h.free[bitC];
      ghost var chunk := ChunkAt(c, v, h, bitC);
      SearchIsSound(size, start, bitC, chunk);
      if bitC < 3 {
        assert false; // the lists of single addresses are never searched
      } else {
        ghost var w;
        w, blk := PopFacts(c, v, h, bitC);
        var record := h.mem[addr];
        SearchIsSound(size, start, bitC, record.size);
        h := h.(free := h.free[bitC := record.next]);
        v := w;
        HoleIsPositive(c, v, h, blk, addr, addr + record.size);
        if Pages(c.pageSize, record.size) > Pages(c.pageSize, size) {
          RunFacts(c, v, h, blk, addr, record.size, size);
          ghost var v1, h1 := v, h;
          ret := SplitBlock(addr, size);
          if ret != NoError {
            addr := NULL;
            return;
          }
          BytesOutside(c, v1, h1, h.mem, blk, v1.own[blk].kind.bounds);
          // the rest of the chunk was taken care of in SplitBlock
          left, avail := 0, c.RealSize(size);
        } else {
          SameRun(c, v, h, blk, addr, record.size, size);
          ret, left, avail := NoError, (record.size - size) % UNSIGNED_INT, record.size;
        }
      }
    }

    /** The loop at the head of get_space; an unsigned long wraps to zero. */
    method RoundedSize(byteSize: nat) returns (size: nat)
      requires byteSize < UNSIGNED_LONG
      ensures size == Asked(byteSize)
    {
      hide RoundUp;
      size := byteSize;
      RoundUpCovers(size);
      RoundUpIsNext(size, size);
      while size % POINTER_SIZE > 0
        invariant size < UNSIGNED_LONG && Asked(size) == Asked(byteSize) && size <= RoundUp(size)
        invariant size % POINTER_SIZE == 0 ==> RoundUp(size) == size
        decreases RoundUp(size) - size
      {
        RoundUpStep(size);
        size := (size + 1) % UNSIGNED_LONG;
      }
    }

    /** Room for `byteSize` bytes: from the free lists when they have some, else from new pages. A size that
        has wrapped to 0 or 8 is less than a free record: what is then read off a list was never written as
        one, and the pool may be left in any state. */
    method GetSpace(byteSize: nat, answer: int) returns (addr: int, ret: Error, ghost blk: int)
      requires InvNow() && byteSize < UNSIGNED_LONG
      requires KernelPages(v.own, answer, PageBytes(c.pageSize, Asked(byteSize)))
      modifies this`h, this`v, this`pageC
      ensures ret != TooSmall ==> InvNow() && LiveOf(v.own) == LiveOf(old(v.own)) && BytesKept(LiveOf(v.own), old(h.mem), h.mem)
      ensures ret != TooSmall ==> (ret == NoError <==> addr != NULL)
      ensures ret == NoError ==> FREE_RECORD <= Asked(byteSize) && Fits(c.pageSize, byteSize)
      ensures ret == NoError ==> Room(c, v.own, blk, addr, c.RealSize(byteSize))
      ensures ret != NoError && ret != TooSmall ==> v == old(v) && h == old(h) && pageC == old(pageC)
      ensures ret != NoError && ret != TooSmall ==> answer == NULL || 0 < c.maxPages <= pageC
      ensures ret == TooSmall ==> Asked(byteSize) < FREE_RECORD || (!Fits(c.pageSize, byteSize) && addr != NULL && Short(addr, byteSize))
      ensures FREE_RECORD <= Asked(byteSize) ==> Chosen(old(h), old(pageC), Asked(byteSize), answer, ret, addr, pageC)
      ensures ret == NoError ==> RestTaken(c, old(h), old(v.own), v.own, addr, Asked(byteSize))
    {
      hide Chosen, RestTaken, Inv, Geometry, Hole, Freed, SameOutside, BytesKept, Store, Pages, SizeOfPages, LiveOf, RoundUp, OffPool, Pow2, PageBytes, Asked, Fits, Acquired, Room;
      BytesKeptRefl(LiveOf(v.own), h.mem);
      var size := RoundedSize(byteSize);
      if size < FREE_RECORD {
        addr, h, v, pageC, blk := *, *, *, *, *;
        return addr, TooSmall, blk;
      }
      AskedIs(byteSize);
      RoundUpOf(byteSize);
      addr, ret, blk := FindSpace(byteSize, size, answer);
    }

    /** The loop of get_space and the two ways on: a chunk off the lists, upward from the first class that is sure
        to be big enough, or a new block. */
    method Pick(size: nat, answer: int) returns (addr: int, ret: Error, left: nat, ghost blk: int, ghost avail: nat)
      requires InvNow() && FREE_RECORD <= size < UNSIGNED_LONG && size % POINTER_SIZE == 0
      requires KernelPages(v.own, answer, PageBytes(c.pageSize, size))
      modifies this`h, this`v, this`pageC
      ensures ret != TooSmall ==> InvNow() && LiveOf(v.own) == LiveOf(old(v.own)) && BytesKept(LiveOf(v.own), old(h.mem), h.mem)
      ensures ret == NoError ==> addr != NULL && Acquired(c, v.own, blk, addr, size, left, avail) && left < c.pageSize
      ensures addr == NULL ==> (ret == NoPages || ret == NoMem) && v == old(v) && h == old(h) && pageC == old(pageC)
      ensures addr == NULL ==> answer == NULL || 0 < c.maxPages <= pageC
      ensures addr != NULL ==> ret == NoError || ret == TooSmall
      ensures ret == TooSmall ==>
        && !Fits(c.pageSize, size) && addr != NULL && Short(addr, size)
        && h.mem[addr - BLOCK_HEADER].bounds == addr - BLOCK_HEADER + PageBytes(c.pageSize, size)
      ensures Chosen(old(h), old(pageC), size, answer, ret, addr, pageC)
      ensures ret == NoError ==> RestLeft(c, old(h), old(v.own), v.own, addr, size, left)
    {
      hide Inv, Geometry, Hole, BytesKept, Pages, SizeOfPages, LiveOf, OffPool, Pow2, PageBytes, FirstIn, NoneIn, CutFiled, Acquired, Short, Fits;
      InvShape(c, v, h);
      var start := SizeToBits(size);
      var bitC := start;
      while bitC <= MAX_BITS
        invariant start <= bitC <= MAX_BITS + 1
        invariant forall j :: start <= j < bitC ==> h.free[j] == NULL
        modifies {}
      {
        if h.free[bitC] != NULL {
          break;
        }
        bitC := bitC + 1;
      }
      FirstIsOne(h, size, start, bitC);
      if bitC > MAX_BITS {
        addr, ret, left, blk, avail := NewBlock(size, answer);
        if ret == NoError {
          OneRun(c, size);
        }
      } else {
        addr, ret, left, blk, avail := TakeChunk(size, start, bitC);
      }
    }

    /** The rest of get_space. */
    method FindSpace(byteSize: nat, size: nat, answer: int) returns (addr: int, ret: Error, ghost blk: int)
      requires InvNow() && FREE_RECORD <= size < UNSIGNED_LONG && 0 < byteSize <= size == RoundUp(byteSize)
      requires KernelPages(v.own, answer, PageBytes(c.pageSize, size))
      modifies this`h, this`v, this`pageC
      ensures ret != TooSmall ==> InvNow() && LiveOf(v.own) == LiveOf(old(v.own)) && BytesKept(LiveOf(v.own), old(h.mem), h.mem)
      ensures ret != TooSmall ==> (ret == NoError <==> addr != NULL)
      ensures ret == NoError ==> Room(c, v.own, blk, addr, c.RealSize(byteSize)) && Fits(c.pageSize, byteSize)
      ensures ret != NoError && ret != TooSmall ==> v == old(v) && h == old(h) && pageC == old(pageC)
      ensures ret != NoError && ret != TooSmall ==> answer == NULL || 0 < c.maxPages <= pageC
      ensures ret == TooSmall ==> !Fits(c.pageSize, byteSize) && addr != NULL && Short(addr, byteSize)
      ensures Chosen(old(h), old(pageC), size, answer, ret, addr, pageC)
      ensures ret == NoError ==> RestTaken(c, old(h), old(v.own), v.own, addr, size)
    {
      hide Inv, Geometry, Hole, Freed, SameOutside, BytesKept, Store, Pages, SizeOfPages, LiveOf, RoundUp, OffPool, PageBytes, Chosen, RestLeft, RestTaken, FiledAs;
      RoundingKeepsPages(c.pageSize, byteSize);
      RealSizeOfRounded(c, byteSize);
      RoundUpIsNext(byteSize, size);
      ghost var live, h0, own := LiveOf(v.own), h, v.own;
      var left: nat;
      ghost var avail;
      addr, ret, left, blk, avail := Pick(size, answer);
      if addr == NULL {
        return;
      }
      if ret == TooSmall {
        // more than a page, so that nothing is given back
        CoversExactly(c.pageSize, size);
        ShortByWords(c, byteSize, size);
        return;
      }
      RoomFits(c, v, h, blk, addr, size, left, avail);
      NarrowFacts(c, v.own, blk, addr, size, left, avail, byteSize);

      // what is left of a single page goes back on the lists
      if left > 0 && size <= c.MaxUser() {
        ghost var v1, h1 := v, h;
        ret := FreePointer(addr + size, left, blk);
        if ret != NoError {
          return NULL, ret, 0;
        }
        FreedKeepsRoom(c, v1, v, blk, addr + size, left, blk, addr, c.RealSize(byteSize));
        HoleIsLiveApart(v1.own, blk, addr + size, addr + size + left);
        BytesOutside(c, v1, h1, h.mem, addr + size, addr + size + left);
        BytesKeptTrans(live, h0.mem, h1.mem, h.mem);
        RestIsFiled(c, h0, own, v1, h1, v, h, blk, addr, size, left);
      } else {
        NoRest(c, h0, own, v.own, addr, size, left);
      }
    }

    /** alloc_mem: one live extent more, or nothing; or, for a request that a new block does not cover, an
        address with too little room, and a fence somewhere else. */
    method AllocMem(byteSize: nat, answer: int) returns (addr: int, ret: Error)
      requires Valid() && byteSize < UNSIGNED_LONG && Answer(answer, byteSize)
      modifies this
      ensures ret != TooSmall ==>
        Valid() && staleC == old(staleC) && staleBytes == old(staleBytes) && BytesKept(old(Live()), old(h.mem), h.mem)
      ensures ret != TooSmall ==> (ret == NoError <==> addr != NULL)
      ensures ret == NoError ==> addr !in old(Live()) && Live() == old(Live())[addr := Adjusted(byteSize)] && Holds(byteSize)
      ensures ret != NoError && ret != TooSmall ==> v == old(v) && h == old(h) && (answer == NULL || 0 < c.maxPages <= pageC)
      ensures ret == TooSmall ==> !Holds(byteSize)
      ensures ret == TooSmall && FREE_RECORD <= Sought(byteSize) ==> addr != NULL
      ensures ret == TooSmall && FREE_RECORD <= Sought(byteSize) && 0 < addr && addr + Adjusted(byteSize) < UNSIGNED_LONG ==>
        Short(addr, Adjusted(byteSize) + c.Fence())
      ensures FREE_RECORD <= Sought(byteSize) ==> Chosen(old(h), old(pageC), Sought(byteSize), answer, ret, addr, pageC)
      ensures ret == NoError ==> maxAlloc == if old(maxAlloc) < userAlloc then userAlloc else old(maxAlloc)
    {
      hide Chosen, RestTaken, Inv, Geometry, BytesKept, Pages, SizeOfPages, LiveOf, Outside, Hole, OffPool, Total, Store, Fits, Asked, PageBytes, Room;
      BytesKeptRefl(Live(), h.mem);
      var size := if byteSize < FREE_RECORD then FREE_RECORD else byteSize;
      var fence := if c.noFree then 0 else FENCE_SIZE;
      ghost var live, m, blk := Live(), h.mem, 0;
      AskedWraps(size + fence);
      NeverCovered(c, size + fence);
      addr, ret, blk := GetSpace((size + fence) % UNSIGNED_LONG, answer);
      if addr == NULL {
        return;
      }
      if ret == TooSmall {
        FenceOff(addr, size);
        return;
      }
      RoomIsNew(c, v, h, blk, addr, c.RealSize(size + fence));
      ghost var w := ClaimFacts(c, v, h, blk, addr, size);
      BytesKeptTrans(live, m, h.mem, WriteMagic(c, h.mem, addr + size));
      TotalAdd(live, addr, size);
      if !c.noFree {
        h := h.(mem := Store(h.mem, addr + size, FenceCell));
      }
      v := w;
      CountAlloc(size);
    }

    /** The statistics. */
    method CountAlloc(size: nat)
      modifies this`allocC, this`userAlloc, this`maxAlloc
      ensures allocC == old(allocC) + 1 && userAlloc == old(userAlloc) + size
      ensures maxAlloc == if old(maxAlloc) < userAlloc then userAlloc else old(maxAlloc)
    {
      allocC := allocC + 1;
      userAlloc := userAlloc + size;
      if userAlloc > maxAlloc {
        maxAlloc := userAlloc;
      }
    }

    /** What alloc_mem does with an address that has too little room: the same. */
    method FenceOff(addr: int, size: nat)
      modifies this
      ensures old(Short(addr, size + c.Fence())) && 0 < addr && addr + size < UNSIGNED_LONG ==> Short(addr, size + c.Fence())
      ensures pageC == old(pageC)
    {
      if !c.noFree {
        if addr - BLOCK_HEADER in h.mem && h.mem[addr - BLOCK_HEADER].HeaderCell? {
          HeaderStays(h.mem, addr, size);
        }
        h := h.(mem := Store(h.mem, FenceAt(addr, size), FenceCell));
      }
      CountAlloc(size);
    }

    /** mpool_alloc */
    method Alloc(byteSize: nat, answer: int) returns (addr: int, ret: Error)
      requires Valid() && byteSize < UNSIGNED_LONG && Answer(answer, byteSize)
      modifies this
      ensures ret != TooSmall ==> Valid() && BytesKept(old(Live()), old(h.mem), h.mem)
      ensures ret != TooSmall ==> (ret == NoError <==> addr != NULL)
      ensures byteSize == 0 ==> addr == NULL && ret == ArgInvalid
      ensures byteSize > 0 && ret != NoError && ret != TooSmall ==> answer == NULL || 0 < c.maxPages <= pageC
      ensures ret != NoError && ret != TooSmall ==> v == old(v) && h == old(h)
      ensures ret == NoError ==> addr !in old(Live()) && Live() == old(Live())[addr := Adjusted(byteSize)] && Holds(byteSize)
      ensures ret == TooSmall ==> !Holds(byteSize)
      ensures ret == TooSmall && FREE_RECORD <= Sought(byteSize) ==> addr != NULL
      ensures byteSize > 0 && FREE_RECORD <= Sought(byteSize) ==>
        Chosen(old(h), old(pageC), Sought(byteSize), answer, ret, addr, pageC)
      ensures ret == NoError ==> maxAlloc == if old(maxAlloc) < userAlloc then userAlloc else old(maxAlloc)
    {
      hide Inv, BytesKept, Chosen;
      BytesKeptRefl(Live(), h.mem);
      if byteSize == 0 {
        return NULL, ArgInvalid;
      }
      addr, ret := AllocMem(byteSize, answer);
    }

    /** mpool_calloc; the product wraps as unsigned long does. It ends here at an address with too little
        room, which the code goes on to clear. */
    method Calloc(eleN: nat, eleSize: nat, answer: int) returns (addr: int, ret: Error)
      requires Valid() && Answer(answer, eleN * eleSize % UNSIGNED_LONG)
      modifies this
      ensures ret != TooSmall ==> Valid() && BytesKept(old(Live()), old(h.mem), h.mem)
      ensures ret != TooSmall ==> (ret == NoError <==> addr != NULL)
      ensures eleN == 0 || eleSize == 0 ==> addr == NULL && ret == ArgInvalid
      ensures ret != NoError && ret != TooSmall ==> v == old(v) && h == old(h)
      ensures ret == NoError ==> addr !in old(Live()) && Live() == old(Live())[addr := Adjusted(eleN * eleSize % UNSIGNED_LONG)]
      ensures ret == NoError ==> Holds(eleN * eleSize % UNSIGNED_LONG)
      ensures ret == NoError ==> Zeroed(h.mem, addr, addr + eleN * eleSize % UNSIGNED_LONG)
      ensures ret == TooSmall ==> !Holds(eleN * eleSize % UNSIGNED_LONG)
    {
      hide Inv, BytesKept, Pages, SizeOfPages, LiveOf, Total;
      BytesKeptRefl(Live(), h.mem);
      if eleN == 0 || eleSize == 0 {
        return NULL, ArgInvalid;
      }
      var byteSize := eleN * eleSize % UNSIGNED_LONG;
      addr, ret := AllocMem(byteSize, answer);
      if ret == NoError {
        ghost var live, m := old(Live()), h.mem;
        Fill(addr, byteSize);
        assert Live() - {addr} == live;
        BytesKeptTrans(live, old(h.mem), m, h.mem);
      }
    }

    /** memset(addr, 0, n) on bytes of one live extent. */
    method Fill(addr: int, n: nat)
      requires InvNow() && addr in Live() && n <= Live()[addr]
      modifies this`h
      ensures InvNow()
      ensures Zeroed(h.mem, addr, addr + n)
      ensures BytesKept(Live() - {addr}, old(h.mem), h.mem)
    {
      hide Inv, BytesKept, LiveOf;
      BytesKeptRefl(Live() - {addr}, h.mem);
      for i := 0 to n
        invariant InvNow() && BytesKept(Live() - {addr}, old(h.mem), h.mem)
        invariant Zeroed(h.mem, addr, addr + i)
      {
        ghost var m := h.mem;
        WriteFacts(c, v, h, addr, i, ByteCell(0));
        h := h.(mem := Store(h.mem, addr + i, ByteCell(0)));
        BytesKeptTrans(Live() - {addr}, old(h.mem), m, h.mem);
      }
    }

    /** A client writes one of its bytes. */
    method Write(addr: int, i: nat, value: int)
      requires Valid() && addr in Live() && i < Live()[addr]
      modifies this`h
      ensures Valid() && addr + i in h.mem && h.mem[addr + i] == ByteCell(value)
      ensures BytesKept(Live() - {addr}, old(h.mem), h.mem)
    {
      hide Inv, BytesKept, LiveOf, Total;
      WriteFacts(c, v, h, addr, i, ByteCell(value));
      h := h.(mem := Store(h.mem, addr + i, ByteCell(value)));
    }

    /** Puts the extent of a client back on the lists; `size` is what the client asked for. */
    method FreeMem(addr: int, size: nat) returns (ret: Error)
      requires Valid() && addr in Live() && Live()[addr] == Adjusted(size)
      modifies this
      ensures Valid() && staleC == old(staleC) && staleBytes == old(staleBytes)
      ensures ret == NoError && Live() == old(Live()) - {addr} && pageC == old(pageC) && maxAlloc == old(maxAlloc)
      ensures BytesKept(Live(), old(h.mem), h.mem)
      ensures PutOnList(old(h), h, v, addr, c.RealSize(Adjusted(size) + c.Fence()))
    {
      hide Inv, Geometry, BytesKept, LiveOf, Outside, Total, Pages, SizeOfPages, SameOutside, Freed, Store, PutOnList, FiledAs;
      ghost var w, blk := ReleaseFacts(c, v, h, addr, size);
      if size > c.MaxUser() {
        ghost var i := HeaderReadable(c, v, h, addr - BLOCK_HEADER);
        if !(addr - BLOCK_HEADER in h.mem && h.mem[addr - BLOCK_HEADER].HeaderCell?) {
          return PoolOver;
        }
      }
      var oldSize := if size < FREE_RECORD then FREE_RECORD else size;
      var fence := 0;
      if !c.noFree {
        if !(addr + oldSize in h.mem && h.mem[addr + oldSize] == FenceCell) {
          return PntOver;
        }
        fence := FENCE_SIZE;
      }
      ghost var h1 := h;
      v := w;
      ret := FreePointer(addr, oldSize + fence, blk);
      if ret != NoError {
        return;
      }
      RealSizeCovers(c, oldSize + fence);
      FiledIsPut(h1, w, h, v, blk, addr, c.RealSize(oldSize + fence));
      FreedKeepsLive(w, v, blk, addr, c.RealSize(oldSize + fence));
      HoleIsLiveApart(w.own, blk, addr, addr + c.RealSize(oldSize + fence));
      BytesOutside(c, w, h1, h.mem, addr, addr + c.RealSize(oldSize + fence));
      TotalRemove(old(Live()), addr);
      userAlloc := userAlloc - oldSize;
      allocC := allocC - 1;
    }

    /** mpool_free */
    method Free(addr: int, size: nat) returns (ret: Error)
      requires Valid()
      requires addr != NULL && size > 0 ==> addr in Live() && Live()[addr] == Adjusted(size)
      modifies this
      ensures Valid()
      ensures addr == NULL ==> ret == ArgNull && v == old(v) && h == old(h)
      ensures addr != NULL && size == 0 ==> ret == ArgInvalid && v == old(v) && h == old(h)
      ensures addr != NULL && size > 0 ==>
        ret == NoError && Live() == old(Live()) - {addr} && BytesKept(Live(), old(h.mem), h.mem)
      ensures addr != NULL && size > 0 ==>
        pageC == old(pageC) && PutOnList(old(h), h, v, addr, c.RealSize(Adjusted(size) + c.Fence()))
    {
      hide Inv, BytesKept, LiveOf, Total, PutOnList;
      if addr == NULL {
        return ArgNull;
      }
      if size == 0 {
        return ArgInvalid;
      }
      ret := FreeMem(addr, size);
    }

    /** What has been freed is given again: to the next request whose size, with the fence and rounded up, lies in
        the class below. No page is taken for it. */
    method FreeThenAlloc(addr: int, size: nat, newSize: nat, answer: int, ghost k: nat) returns (again: int, ret: Error)
      requires Valid() && addr in Live() && Live()[addr] == Adjusted(size) && size > 0 && addr != NULL
      requires 0 < newSize < UNSIGNED_LONG && answer == NULL
      requires 4 <= k && InClass(k, c.RealSize(Adjusted(size) + c.Fence()))
      requires Pow2(k - 1) < RoundUp(Adjusted(newSize) + c.Fence()) <= Pow2(k)
      modifies this
      ensures Valid() && ret == NoError && again == addr && pageC == old(pageC)
      ensures Live() == old(Live())[addr := Adjusted(newSize)]
    {
      hide Inv, BytesKept, LiveOf, Total, PutOnList, Chosen, FirstIn, Asked, RoundUp, Pow2, Fits, Pages, SizeOfPages, InClass;
      ghost var h0 := h;
      ret := Free(addr, size);
      SoughtIsSmall(c, newSize, k, c.RealSize(Adjusted(size) + c.Fence()));
      HeadIsFirst(c, h0, h, v, addr, c.RealSize(Adjusted(size) + c.Fence()), Sought(newSize), k);
      ghost var h1, pages := h, pageC;
      again, ret := Alloc(newSize, answer);
      ChosenFirst(h1, pages, Sought(newSize), answer, ret, again, pageC, k);
    }

    /** memcpy(dst, src, n) into a live extent from other bytes. */
    method CopyBytes(dst: int, src: int, n: nat)
      requires InvNow() && dst in Live() && src in Live() && dst != src && n <= Live()[dst] && n <= Live()[src]
      modifies this`h
      ensures InvNow() && BytesKept(Live() - {dst}, old(h.mem), h.mem)
      ensures Copied(old(h.mem), h.mem, src, dst, n)
    {
      hide Inv, BytesKept, LiveOf, Store, Forget, Copied;
      ghost var others, m0 := Live() - {dst}, h.mem;
      BytesKeptRefl(others, m0);
      NothingCopied(m0, src, dst);
      for i := 0 to n
        invariant InvNow() && BytesKept(others, m0, h.mem) && Copied(m0, h.mem, src, dst, i)
      {
        ghost var m := h.mem;
        CopyStep(others, m0, m, src, dst, i);
        if src + i in h.mem && h.mem[src + i].ByteCell? {
          WriteFacts(c, v, h, dst, i, h.mem[src + i]);
          h := h.(mem := Store(h.mem, dst + i, h.mem[src + i]));
        } else {
          ForgetFacts(c, v, h, dst, i);
          h := h.(mem := Forget(h.mem, dst + i, 1));
        }
        BytesKeptTrans(others, m0, m, h.mem);
      }
    }

    /** mpool_resize; it ends here at an address with too little room, to which the code goes on to copy. */
    method Resize(oldAddr: int, oldSize: nat, newSize: nat, answer: int) returns (addr: int, ret: Error)
      requires Valid() && newSize < UNSIGNED_LONG && Answer(answer, newSize)
      requires oldAddr != NULL && oldSize > 0 ==> oldAddr in Live() && Live()[oldAddr] == Adjusted(oldSize)
      modifies this
      ensures ret != TooSmall ==> Valid() && (ret == NoError <==> addr != NULL)
      ensures oldAddr == NULL ==> addr == NULL && ret == ArgNull
      ensures oldAddr != NULL && oldSize == 0 ==> addr == NULL && ret == ArgInvalid
      ensures ret != NoError && ret != TooSmall ==> v == old(v) && h == old(h)
      ensures ret == NoError ==> addr !in old(Live()) && Live() == old(Live())[addr := Adjusted(newSize)] - {oldAddr}
      ensures ret == NoError ==> Holds(newSize) && BytesKept(old(Live()) - {oldAddr}, old(h.mem), h.mem)
      ensures ret == NoError ==> Copied(old(h.mem), h.mem, oldAddr, addr, if newSize > oldSize then oldSize else newSize)
      ensures ret == TooSmall ==> !Holds(newSize)
      ensures ret == NoError ==> AtHead(h, v, oldAddr, c.RealSize(Adjusted(oldSize) + c.Fence()))
    {
      hide Inv, BytesKept, LiveOf, Copied, Total, Pages, SizeOfPages, PutOnList, AtHead, Chosen;
      if oldAddr == NULL {
        return NULL, ArgNull;
      }
      if oldSize == 0 {
        return NULL, ArgInvalid;
      }
      ghost var w, blk := ReleaseFacts(c, v, h, oldAddr, oldSize);
      if oldSize > c.MaxUser() {
        ghost var i := HeaderReadable(c, v, h, oldAddr - BLOCK_HEADER);
        if !(oldAddr - BLOCK_HEADER in h.mem && h.mem[oldAddr - BLOCK_HEADER].HeaderCell?) {
          return NULL, PoolOver;
        }
      }
      var adjusted := if oldSize < FREE_RECORD then FREE_RECORD else oldSize;
      if !c.noFree {
        if !(oldAddr + adjusted in h.mem && h.mem[oldAddr + adjusted] == FenceCell) {
          return NULL, PntOver;
        }
      }
      ghost var live, m0 := Live(), h.mem;
      addr, ret := AllocMem(newSize, answer);
      if addr == NULL || ret == TooSmall {
        return;
      }
      ghost var m1 := h.mem;
      var copySize := if newSize > oldSize then oldSize else newSize;
      CopyBytes(addr, oldAddr, copySize);
      ghost var m2, h2 := h.mem, h;
      assert Live() - {addr} == live;
      BytesKeptTrans(live, m0, m1, m2);
      CopiedFrom(live, m0, m1, m2, oldAddr, addr, copySize);
      ret := FreeMem(oldAddr, oldSize);
      if ret != NoError {
        return NULL, ret;
      }
      PutIsHead(h2, h, v, oldAddr, c.RealSize(Adjusted(oldSize) + c.Fence()));
      CopiedTo(Live(), m0, m2, h.mem, oldAddr, addr, copySize);
      BytesKeptFewer(live, live - {oldAddr}, m0, m2);
      BytesKeptFewer(Live(), live - {oldAddr}, m2, h.mem);
      BytesKeptTrans(live - {oldAddr}, m0, m2, h.mem);
      return addr, NoError;
    }

    /** mpool_clear: every block's user memory becomes one free chunk; the statistics stay. */
    method Clear() returns (ret: Error)
      requires Valid()
      modifies this
      ensures Valid() && ret == NoError && Live() == map[] && v.blocks == old(v.blocks)
      ensures allocC == old(allocC) && userAlloc == old(userAlloc)
      ensures forall b :: b in v.blocks ==> Whole(v.own, b)
    {
      hide Inv, LiveOf, Total, Freed, Vacant, Whole;
      ghost var blocks := v.blocks;
      InvShape(c, v, h);
      for bitN := 0 to MAX_BITS + 1
        invariant |h.free| == MAX_BITS + 1 && h.first == old(h.first) && h.mem == old(h.mem) && v == old(v)
        invariant forall k :: 0 <= k < bitN ==> h.free[k] == NULL
        modifies this`h
      {
        h := h.(free := h.free[bitN := NULL]);
      }
      v := ResetFacts(c, v, old(h), h);
      var blockP := h.first;
      ghost var i := 0;
      while blockP != NULL
        invariant InvNow() && v.blocks == blocks && LiveOf(v.own) == map[]
        invariant i <= |blocks| && (blockP != NULL <==> i < |blocks|) && (i < |blocks| ==> blockP == blocks[i])
        invariant forall j :: i <= j < |blocks| ==> Vacant(c, v.own, blocks[j])
        invariant forall j :: 0 <= j < i ==> Whole(v.own, blocks[j])
        decreases |blocks| - i
        modifies this`h, this`v
      {
        BlockHeaderAt(c, v, h, i);
        if !(blockP in h.mem && h.mem[blockP].HeaderCell?) {
          return PoolOver;
        }
        var firstP := blockP + BLOCK_HEADER;
        ghost var v1, h1, len := v, h, h.mem[blockP].bounds - firstP;
        VacantRoom(c, v, h, blockP);
        ret := FreePointer(firstP, h.mem[blockP].bounds - firstP, blockP);
        ClearStep(c, v1, h1, v, i, len);
        BlockHeaderAt(c, v, h, i);
        blockP := h.mem[blockP].next;
        i := i + 1;
      }
      staleC, staleBytes := allocC, userAlloc;
      TotalOfNone();
      AllWhole(v.own, blocks);
      return NoError;
    }
  }
}
