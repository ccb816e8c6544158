/** The chained arena of libcwmp/src/pool/pool.c over an integer address space, on a 64-bit target. */
module Pool {
  // Pieces are cut from blocks; larger ones come from malloc and are remembered in the arena.
  import opened Words

  const ALIGNMENT := 8
  /** sizeof(pool_t), sizeof(pool_data_t) and sizeof(pool_large_t) */
  const POOL_HEADER := 72
  const BLOCK_HEADER := 24
  const CELL_SIZE := 16
  const MAX_ALLOC_FROM_POOL := 1024 * 512 - 1

  /** pool_align */
  function Align(d: nat): (r: nat)
    ensures r % ALIGNMENT == 0 && d <= r < d + ALIGNMENT
  {
    (d + ALIGNMENT - 1) / ALIGNMENT * ALIGNMENT
  }

  /** pool_align of a size_t: the sum wraps for the seven largest. */
  function AlignWord(d: nat): (r: nat)
    requires d < UNSIGNED_LONG
    ensures r == if d <= UNSIGNED_LONG - ALIGNMENT then Align(d) else 0
  {
    (d + ALIGNMENT - 1) % UNSIGNED_LONG / ALIGNMENT * ALIGNMENT
  }

  /** The largest piece that is cut from a block, as pool_create computes it for any size. */
  function MaxOf(size: nat): nat
    requires size < UNSIGNED_LONG
  {
    var room := (size - POOL_HEADER) % UNSIGNED_LONG;
    if room < MAX_ALLOC_FROM_POOL then room else MAX_ALLOC_FROM_POOL
  }

  /** The sizes for which the header fits, and the cell of a large allocation is a piece that is cut from a
      block. Below, the header is written behind the end, or the cell is large itself, and has a cell that is
      (Arena.PallocLarge). */
  lemma SizeSuits(size: nat)
    requires size < UNSIGNED_LONG
    ensures POOL_HEADER <= size && CELL_SIZE <= MaxOf(size) <==> size >= 88
    ensures POOL_HEADER <= size < POOL_HEADER + CELL_SIZE ==> MaxOf(size) < AlignWord(CELL_SIZE)
    ensures size < POOL_HEADER ==> MaxOf(size) == MAX_ALLOC_FROM_POOL
  {
  }

  /** A request is cut from a block exactly when, rounded up, it is no longer than the pool behind its header and no
      longer than 524280 bytes. */
  lemma CutsExactly(size: nat, request: nat)
    requires POOL_HEADER <= size < UNSIGNED_LONG && request <= UNSIGNED_LONG - ALIGNMENT
    ensures AlignWord(request) <= MaxOf(size) <==> Align(request) <= size - 72 && request <= 524280
  {
  }

  lemma AlignedStays(d: nat)
    requires d % ALIGNMENT == 0
    ensures Align(d) == d
  {
  }

  // ----- regions and pieces -------------------------------------------------------------------------

  /** What malloc has given and not got back: its length, and up to where it is used. */
  datatype Region = Region(len: nat, top: nat)

  /** What the pool has given away: its length, and the region it lies in. */
  datatype Piece = Piece(len: nat, home: nat)

  predicate RegionsApart(regions: map<nat, Region>) {
    forall a, b :: a in regions && b in regions && a < b ==> a + regions[a].len <= b
  }

  predicate RegionsOk(regions: map<nat, Region>) {
    RegionsApart(regions) && forall a :: a in regions ==>
                                           a > 0 && a % ALIGNMENT == 0 && regions[a].len > 0 && a <= regions[a].top <= a + regions[a].len
  }

  predicate PieceOk(regions: map<nat, Region>, a: nat, p: Piece) {
    p.home in regions && p.home <= a && a + p.len <= regions[p.home].top && a % ALIGNMENT == 0 && p.len > 0
  }

  /** Every piece lies in the used part of its region, and no two overlap. */
  predicate PiecesOk(regions: map<nat, Region>, given: map<nat, Piece>) {
    && (forall a :: a in given ==> PieceOk(regions, a, given[a]))
    && (forall a, b :: a in given && b in given && a < b ==> a + given[a].len <= b)
  }

  /** A region that malloc may return next, or null. */
  predicate Fresh(regions: map<nat, Region>, at: nat, len: nat) {
    at == 0 || (at % ALIGNMENT == 0 && forall a :: a in regions ==> a + regions[a].len <= at || at + len <= a)
  }

  lemma FreshKeeps(regions: map<nat, Region>, given: map<nat, Piece>, at: nat, r: Region)
    requires RegionsOk(regions) && PiecesOk(regions, given) && at > 0 && Fresh(regions, at, r.len)
    requires at <= r.top <= at + r.len && r.len > 0
    ensures at !in regions && RegionsOk(regions[at := r]) && PiecesOk(regions[at := r], given)
  {
    forall a | a in given ensures PieceOk(regions[at := r], a, given[a]) {
      assert PieceOk(regions, a, given[a]);
    }
  }

  /** A piece from the unused part of a region overlaps nothing. */
  lemma GiveKeeps(regions: map<nat, Region>, given: map<nat, Piece>, home: nat, len: nat)
    requires RegionsOk(regions) && PiecesOk(regions, given) && home in regions && len > 0
    requires regions[home].top + len <= home + regions[home].len && regions[home].top % ALIGNMENT == 0
    ensures var top := regions[home].top;
            var r := regions[home := Region(regions[home].len, top + len)];
            RegionsOk(r) && PiecesOk(r, given[top := Piece(len, home)]) && top !in given
  {
    var top := regions[home].top;
    var r := regions[home := Region(regions[home].len, top + len)];
    var g := given[top := Piece(len, home)];
    forall a | a in given ensures a + given[a].len <= top || top + len <= a {
      assert PieceOk(regions, a, given[a]);
    }
    forall a | a in g ensures PieceOk(r, a, g[a]) {
      if a != top {
        assert PieceOk(regions, a, given[a]);
      }
    }
  }

  /** A region goes back, with every piece that lies in it. */
  lemma WithoutHome(regions: map<nat, Region>, given: map<nat, Piece>, home: nat)
    requires RegionsOk(regions) && PiecesOk(regions, given)
    ensures RegionsOk(Dropped(regions, home)) && PiecesOk(Dropped(regions, home), Elsewhere(given, home))
  {
    forall a | a in Elsewhere(given, home) ensures PieceOk(Dropped(regions, home), a, given[a]) {
      assert PieceOk(regions, a, given[a]);
    }
  }

  function Dropped(regions: map<nat, Region>, at: nat): map<nat, Region> {
    map a | a in regions && a != at :: regions[a]
  }

  function Elsewhere(given: map<nat, Piece>, home: nat): map<nat, Piece> {
    map a | a in given && given[a].home != home :: given[a]
  }

  // ----- the state, without its pointers ------------------------------------------------------------

  /** The blocks with their bases and last pointers, the large allocations (zero when given back), and the
      regions and pieces. */
  datatype View = View(size: nat, blocks: seq<(nat, nat)>, allocs: seq<nat>, regions: map<nat, Region>, given: map<nat, Piece>)

  predicate BlockOk(v: View, i: nat)
    requires i < |v.blocks|
  {
    var (base, last) := v.blocks[i];
    && base in v.regions && v.regions[base] == Region(v.size, last)
    && last % ALIGNMENT == 0 && base + (if i == 0 then POOL_HEADER else BLOCK_HEADER) <= last
  }

  predicate AllocOk(v: View, i: nat)
    requires i < |v.allocs|
  {
    var a := v.allocs[i];
    a != 0 ==> a in v.regions && v.regions[a].top == a + v.regions[a].len
  }

  /** No region is held twice. */
  predicate HeldOnce(v: View) {
    && (forall i, j :: 0 <= i < j < |v.blocks| ==> v.blocks[i].0 != v.blocks[j].0)
    && (forall i, j :: 0 <= i < j < |v.allocs| && v.allocs[i] != 0 ==> v.allocs[i] != v.allocs[j])
    && (forall i, j :: 0 <= i < |v.blocks| && 0 <= j < |v.allocs| ==> v.blocks[i].0 != v.allocs[j])
  }

  predicate IsBlock(v: View, a: nat) {
    exists i :: 0 <= i < |v.blocks| && v.blocks[i].0 == a
  }

  /** Every region is a block or a large allocation; no memory is forgotten. */
  predicate AllHeld(v: View) {
    forall a :: a in v.regions ==> IsBlock(v, a) || a in v.allocs
  }

  predicate Sound(v: View) {
    && v.size >= POOL_HEADER && v.blocks != []
    && (forall i :: 0 <= i < |v.blocks| ==> BlockOk(v, i)) && (forall i :: 0 <= i < |v.allocs| ==> AllocOk(v, i))
    && HeldOnce(v) && AllHeld(v) && RegionsOk(v.regions) && PiecesOk(v.regions, v.given)
  }

  lemma SoundParts(v: View)
    requires Sound(v)
    ensures RegionsOk(v.regions) && PiecesOk(v.regions, v.given) && HeldOnce(v) && AllHeld(v) && v.blocks != []
    ensures v.size >= POOL_HEADER
  {
  }

  lemma BlockIs(v: View, i: nat)
    requires Sound(v) && i < |v.blocks|
    ensures BlockOk(v, i) && v.blocks[i].0 > 0 && v.blocks[i].1 <= v.blocks[i].0 + v.size
  {
    hide PiecesOk, AllHeld, HeldOnce;
    assert BlockOk(v, i);
  }

  lemma HeldAreRegions(v: View)
    requires Sound(v)
    ensures forall i :: 0 <= i < |v.blocks| ==> v.blocks[i].0 in v.regions && v.blocks[i].0 > 0
    ensures forall i :: 0 <= i < |v.allocs| ==> v.allocs[i] == 0 || v.allocs[i] in v.regions
  {
    forall i | 0 <= i < |v.blocks| ensures v.blocks[i].0 in v.regions && v.blocks[i].0 > 0 {
      BlockIs(v, i);
    }
    forall i | 0 <= i < |v.allocs| ensures v.allocs[i] == 0 || v.allocs[i] in v.regions {
      assert AllocOk(v, i);
    }
  }

  /** What has been given away is aligned, lies in the used part of a block or of a large allocation that is
      still held, and overlaps nothing else that has been given away. */
  lemma PieceIsSafe(v: View, a: nat, b: nat)
    requires Sound(v) && a in v.given && b in v.given && a != b
    ensures a % ALIGNMENT == 0 && (a + v.given[a].len <= b || b + v.given[b].len <= a)
    ensures var home := v.given[a].home;
            && home in v.regions && home <= a && a + v.given[a].len <= v.regions[home].top
            && (IsBlock(v, home) || home in v.allocs)
  {
    SoundParts(v);
    assert PieceOk(v.regions, a, v.given[a]);
  }

  /** `n` bytes more of block `i` are in use. */
  function Taken(v: View, i: nat, n: nat): View
    requires i < |v.blocks|
  {
    var (base, last) := v.blocks[i];
    v.(blocks := v.blocks[i := (base, last + n)], regions := v.regions[base := Region(v.size, last + n)],
       given := v.given[last := Piece(n, base)])
  }

  /** Blocks stay blocks when others join them. */
  lemma StillHeld(v: View, r: View)
    requires AllHeld(v) && |v.blocks| <= |r.blocks| && r.allocs == v.allocs
    requires forall j :: 0 <= j < |v.blocks| ==> r.blocks[j].0 == v.blocks[j].0
    requires forall a :: a in r.regions ==> a in v.regions || IsBlock(r, a)
    ensures AllHeld(r)
  {
    forall a | a in r.regions && IsBlock(v, a) ensures IsBlock(r, a) {
      var j :| 0 <= j < |v.blocks| && v.blocks[j].0 == a;
      assert r.blocks[j].0 == a;
    }
  }

  lemma TakenSound(v: View, i: nat, n: nat)
    requires Sound(v) && i < |v.blocks| && n > 0 && n % ALIGNMENT == 0 && v.blocks[i].1 + n <= v.blocks[i].0 + v.size
    ensures Sound(Taken(v, i, n)) && v.blocks[i].1 !in v.given
  {
    hide RegionsOk, PiecesOk, AllHeld;
    SoundParts(v);
    assert BlockOk(v, i);
    var r := Taken(v, i, n);
    GiveKeeps(v.regions, v.given, v.blocks[i].0, n);
    forall j | 0 <= j < |r.blocks| ensures BlockOk(r, j) {
      assert BlockOk(v, j);
    }
    forall j | 0 <= j < |r.allocs| ensures AllocOk(r, j) {
      assert AllocOk(v, j);
    }
    StillHeld(v, r);
  }

  /** A region from malloc becomes the last block. */
  function Grown(v: View, got: nat): View {
    v.(blocks := v.blocks + [(got, got + BLOCK_HEADER)], regions := v.regions[got := Region(v.size, got + BLOCK_HEADER)])
  }

  lemma GrownSound(v: View, got: nat)
    requires Sound(v) && got > 0 && Fresh(v.regions, got, v.size)
    ensures Sound(Grown(v, got)) && got !in v.regions
  {
    hide RegionsOk, PiecesOk, Fresh, AllHeld;
    SoundParts(v);
    FreshKeeps(v.regions, v.given, got, Region(v.size, got + BLOCK_HEADER));
    FreshIs(v.regions, got, v.size);
    var r := Grown(v, got);
    forall j | 0 <= j < |r.blocks| ensures BlockOk(r, j) {
      assert j < |v.blocks| ==> BlockOk(v, j);
    }
    forall j | 0 <= j < |r.allocs| ensures AllocOk(r, j) {
      assert AllocOk(v, j);
    }
    HeldAreRegions(v);
    assert r.blocks[|v.blocks|].0 == got;
    StillHeld(v, r);
  }

  lemma FreshIs(regions: map<nat, Region>, at: nat, len: nat)
    requires Fresh(regions, at, len)
    ensures at == 0 || at % ALIGNMENT == 0
  {
  }

  /** A region from malloc becomes a large allocation. */
  function Enlarged(v: View, n: nat, got: nat): View {
    v.(allocs := [got] + v.allocs, regions := v.regions[got := Region(n, got + n)], given := v.given[got := Piece(n, got)])
  }

  lemma EnlargedSound(v: View, n: nat, got: nat)
    requires Sound(v) && got > 0 && n > 0 && Fresh(v.regions, got, n)
    ensures Sound(Enlarged(v, n, got)) && got !in v.regions && got !in v.given
  {
    hide RegionsOk, PiecesOk, Fresh;
    SoundParts(v);
    FreshKeeps(v.regions, v.given, got, Region(n, got));
    FreshIs(v.regions, got, n);
    var m := v.regions[got := Region(n, got)];
    GiveKeeps(m, v.given, got, n);
    assert m[got := Region(n, got + n)] == v.regions[got := Region(n, got + n)];
    var r := Enlarged(v, n, got);
    forall j | 0 <= j < |r.blocks| ensures BlockOk(r, j) {
      assert BlockOk(v, j);
    }
    forall j | 0 <= j < |r.allocs| ensures AllocOk(r, j) {
      assert j > 0 ==> AllocOk(v, j - 1);
    }
    EnlargedOnce(v, n, got);
    forall a | a in r.regions ensures IsBlock(r, a) || a in r.allocs {
      if a == got {
        assert r.allocs[0] == a;
      } else if IsBlock(v, a) {
        var j :| 0 <= j < |v.blocks| && v.blocks[j].0 == a;
        assert r.blocks[j].0 == a;
      } else {
        var j :| 0 <= j < |v.allocs| && v.allocs[j] == a;
        assert r.allocs[j + 1] == a;
      }
    }
  }

  lemma EnlargedOnce(v: View, n: nat, got: nat)
    requires Sound(v) && got > 0 && got !in v.regions
    ensures HeldOnce(Enlarged(v, n, got))
  {
    hide RegionsOk, PiecesOk, AllHeld;
    HeldAreRegions(v);
    var r := Enlarged(v, n, got);
    assert forall j :: 0 < j < |r.allocs| ==> r.allocs[j] == v.allocs[j - 1];
  }

  /** A large allocation is given back. */
  function Freed(v: View, i: nat): View
    requires i < |v.allocs|
  {
    v.(allocs := v.allocs[i := 0], regions := Dropped(v.regions, v.allocs[i]), given := Elsewhere(v.given, v.allocs[i]))
  }

  lemma FreedSound(v: View, i: nat)
    requires Sound(v) && i < |v.allocs| && v.allocs[i] != 0
    ensures Sound(Freed(v, i)) && v.allocs[i] in v.regions
  {
    hide RegionsOk, PiecesOk;
    SoundParts(v);
    var a, r := v.allocs[i], Freed(v, i);
    assert AllocOk(v, i);
    WithoutHome(v.regions, v.given, a);
    forall j | 0 <= j < |r.blocks| ensures BlockOk(r, j) {
      assert BlockOk(v, j);
    }
    forall j | 0 <= j < |r.allocs| ensures AllocOk(r, j) {
      assert AllocOk(v, j);
    }
    FreedOnce(v, i);
    forall b | b in r.regions ensures IsBlock(r, b) || b in r.allocs {
      if IsBlock(v, b) {
        var j :| 0 <= j < |v.blocks| && v.blocks[j].0 == b;
        assert r.blocks[j].0 == b;
      } else {
        var j :| 0 <= j < |v.allocs| && v.allocs[j] == b;
        assert r.allocs[j] == b;
      }
    }
  }

  lemma FreedOnce(v: View, i: nat)
    requires Sound(v) && i < |v.allocs|
    ensures HeldOnce(Freed(v, i))
  {
    hide RegionsOk, PiecesOk, AllHeld;
    var r := Freed(v, i);
    forall j, k | 0 <= j < |r.blocks| && 0 <= k < |r.allocs| ensures r.blocks[j].0 != r.allocs[k] {
      BlockIs(v, j);
    }
  }

  /** A pool with one block and nothing given away. */
  function Bare(size: nat, base: nat): View {
    View(size, [(base, base + POOL_HEADER)], [], map[base := Region(size, base + POOL_HEADER)], map[])
  }

  lemma BareSound(size: nat, base: nat)
    requires size >= POOL_HEADER && base > 0 && base % ALIGNMENT == 0
    ensures Sound(Bare(size, base))
  {
    assert Bare(size, base).blocks[0].0 == base;
  }

  // ----- the pool -------------------------------------------------------------------------------------

  class Block {
    const base: nat
    const end: nat
    var last: nat
    var next: Block?

    constructor (base: nat, end: nat, last: nat)
      ensures this.base == base && this.end == end && this.last == last && next == null
    {
      this.base, this.end, this.last, next := base, end, last, null;
    }
  }

  class Cell {
    var alloc: nat
    var next: Cell?

    constructor (alloc: nat, next: Cell?)
      ensures this.alloc == alloc && this.next == next
    {
      this.alloc, this.next := alloc, next;
    }
  }

  function BlockAt(chain: seq<Block>, i: nat): Block? {
    if i < |chain| then chain[i] else null
  }

  function CellAt(cells: seq<Cell>, i: nat): Cell? {
    if i < |cells| then cells[i] else null
  }

  ghost function BlocksOf(chain: seq<Block>): (s: seq<(nat, nat)>)
    reads chain
    ensures |s| == |chain| && forall i :: 0 <= i < |s| ==> s[i] == (chain[i].base, chain[i].last)
  {
    if chain == [] then [] else BlocksOf(chain[..|chain| - 1]) + [(chain[|chain| - 1].base, chain[|chain| - 1].last)]
  }

  ghost function AllocsOf(cells: seq<Cell>): (s: seq<nat>)
    reads cells
    ensures |s| == |cells| && forall i :: 0 <= i < |s| ==> s[i] == cells[i].alloc
  {
    if cells == [] then [] else AllocsOf(cells[..|cells| - 1]) + [cells[|cells| - 1].alloc]
  }

  /** The block has room for `n` bytes. */
  predicate Roomy(b: Block, n: nat)
    reads b
  {
    b.end - b.last >= n
  }

  /** Block `i` is the first one with room from block `from` on; when none has room it is behind the last. */
  ghost predicate FirstRoom(chain: seq<Block>, from: nat, i: nat, n: nat)
    reads chain
  {
    && from <= i <= |chain| && (forall j :: from <= j < i ==> !Roomy(chain[j], n))
    && (i < |chain| ==> Roomy(chain[i], n))
  }

  /** Where the next searches start: behind the last block, of those from `from` on, that has less room than a word,
      the last block of all apart. */
  ghost predicate Candidate(chain: seq<Block>, from: nat, j: nat)
    reads chain
  {
    && from <= j < |chain| && (j > from ==> !Roomy(chain[j - 1], ALIGNMENT))
    && (forall k :: j <= k < |chain| - 1 ==> Roomy(chain[k], ALIGNMENT))
  }

  lemma FirstRoomBounds(chain: seq<Block>, from: nat, i: nat, n: nat)
    requires FirstRoom(chain, from, i, n)
    ensures i <= |chain|
  {
  }

  ghost predicate ChainLinked(chain: seq<Block>, size: nat)
    reads chain
  {
    && (forall i :: 0 <= i < |chain| ==> chain[i].next == BlockAt(chain, i + 1) && chain[i].end == chain[i].base + size)
    && (forall i, j :: 0 <= i < j < |chain| ==> chain[i] != chain[j])
  }

  ghost predicate CellsLinked(cells: seq<Cell>)
    reads cells
  {
    && (forall i :: 0 <= i < |cells| ==> cells[i].next == CellAt(cells, i + 1))
    && (forall i, j :: 0 <= i < j < |cells| ==> cells[i] != cells[j])
  }

  lemma OneBlock(b: Block, size: nat)
    requires b.next == null && b.end == b.base + size
    ensures BlocksOf([b]) == [(b.base, b.last)] && AllocsOf([]) == [] && ChainLinked([b], size)
  {
  }

  class Arena {
    const size: nat
    const max: nat
    const head: Block
    var current: Block
    var large: Cell?
    /** The blocks and the cells in the order of their links. */
    ghost var chain: seq<Block>
    ghost var cells: seq<Cell>
    ghost var regions: map<nat, Region>
    ghost var given: map<nat, Piece>

    ghost function State(): View
      reads this, chain, cells
    {
      View(size, BlocksOf(chain), AllocsOf(cells), regions, given)
    }

    ghost predicate Valid()
      reads this, chain, cells
    {
      && size < UNSIGNED_LONG && max == MaxOf(size)
      && chain != [] && chain[0] == head && current in chain && large == CellAt(cells, 0)
      && ChainLinked(chain, size) && CellsLinked(cells) && Sound(State())
    }

    /** pool_create behind its allocation, for the sizes that hold the header. */
    constructor (size: nat, got: nat)
      requires POOL_HEADER <= size < UNSIGNED_LONG && got > 0 && got % ALIGNMENT == 0
      ensures Valid() && State() == Bare(size, got) && fresh(head) && chain == [head] && cells == []
    {
      hide Sound, BlocksOf, AllocsOf, ChainLinked, CellsLinked;
      this.size := size;
      max := MaxOf(size);
      AlignedStays(got + POOL_HEADER);
      var b := new Block(got, got + size, Align(got + POOL_HEADER));
      head, current, large := b, b, null;
      chain, cells, given := [b], [], map[];
      regions := map[got := Region(size, got + POOL_HEADER)];
      new;
      BareSound(size, got);
      OneBlock(head, size);
      NoCells();
      assert State() == Bare(size, got);
    }

    /** pool_create: nothing when malloc refuses. */
    static method Create(size: nat, got: nat) returns (pool: Arena?)
      requires POOL_HEADER <= size < UNSIGNED_LONG && got % ALIGNMENT == 0
      ensures pool == null <==> got == 0
      ensures pool != null ==> fresh(pool) && fresh(pool.head) && pool.Valid() && pool.State() == Bare(size, got)
    {
      pool := null;
      if got != 0 {
        pool := new Arena(size, got);
      }
    }

    lemma Facts()
      requires Valid()
      ensures chain != [] && chain[0] == head && ChainLinked(chain, size) && CellsLinked(cells) && Sound(State())
      ensures POOL_HEADER <= size && max <= size - POOL_HEADER && large == CellAt(cells, 0)
      ensures exists i: nat :: i < |chain| && chain[i] == current
    {
      hide Sound, ChainLinked, CellsLinked;
      assert State().size == size;
      SoundParts(State());
    }

    // ----- pool_palloc ----------------------------------------------------------------------------------

    /** What malloc may answer, call after call, to an allocation of `n` bytes: for the piece or its block, and
        for the block of its cell. There may be any number of answers when the cell is large itself. */
    ghost predicate AnswersOk(n: nat, answers: seq<nat>)
      reads this
    {
      if n <= max then answers != [] && Fresh(regions, answers[0], size)
      else if max < CELL_SIZE then true
      else
        && |answers| >= 2 && Fresh(regions, answers[0], n)
        && var (got, got2) := (answers[0], answers[1]);
        (got != 0 ==> Fresh(regions, got2, size) && (got2 == 0 || got2 + size <= got || got + n <= got2))
    }

    /** Everything given before is kept. */
    ghost predicate KeptGiven(before: map<nat, Piece>)
      reads this
    {
      forall a :: a in before ==> a in given && given[a] == before[a]
    }

    /** The last pointer of a block moves on. */
    method TakeFrom(p: Block, ghost i: nat, n: nat) returns (m: nat)
      requires Valid() && i < |chain| && p == chain[i] && n % ALIGNMENT == 0 && p.last + n <= p.end
      modifies this`regions, this`given, p`last
      ensures Valid() && m == old(p.last) && m % ALIGNMENT == 0 && m > 0 && KeptGiven(old(given))
      ensures n > 0 ==> m in given && m !in old(given) && given[m].len == n
      ensures n == 0 ==> given == old(given) && regions == old(regions)
      ensures p.last == m + n
      ensures regions.Keys == old(regions).Keys && forall a :: a in regions ==> regions[a].len == old(regions)[a].len
    {
      hide Sound, Taken, BlocksOf, AllocsOf, ChainLinked, CellsLinked;
      Facts();
      BlockIs(State(), i);
      ghost var v := State();
      AlignedStays(p.last);
      m := Align(p.last);
      EndIs(chain, size, i);
      if n > 0 {
        TakenSound(v, i, n);
        MoveLast(p, m + n, chain, cells, i, size);
        regions := regions[p.base := Region(size, m + n)];
        given := given[m := Piece(n, p.base)];
        TakenIs(v, State(), i, n);
      }
    }

    static method MoveLast(p: Block, last: nat, ghost chain: seq<Block>, ghost cells: seq<Cell>, ghost i: nat, ghost size: nat)
      requires i < |chain| && p == chain[i] && ChainLinked(chain, size) && CellsLinked(cells)
      modifies p`last
      ensures ChainLinked(chain, size) && CellsLinked(cells) && AllocsOf(cells) == old(AllocsOf(cells))
      ensures BlocksOf(chain) == old(BlocksOf(chain))[i := (p.base, last)]
    {
      p.last := last;
      assert AllocsOf(cells) == old(AllocsOf(cells));
    }

    /** The first block from the current one on that has room. */
    method FindRoom(n: nat, ghost from: nat) returns (p: Block?, ghost i: nat)
      requires Valid() && from < |chain| && chain[from] == current
      ensures FirstRoom(chain, from, i, n) && p == BlockAt(chain, i)
      ensures p != null ==> i < |chain| && p == chain[i] && p.last + n <= p.end
      ensures n == 0 ==> p != null
    {
      hide Sound, ChainLinked, CellsLinked, AllocsOf;
      Facts();
      i := from;
      p := current;
      while p != null
        invariant i <= |chain| && p == BlockAt(chain, i) && (n == 0 ==> p != null)
        invariant from <= i && forall j :: from <= j < i ==> !Roomy(chain[j], n)
        decreases |chain| - i
      {
        BlockIs(State(), i);
        EndIs(chain, size, i);
        if p.end - p.last >= n {
          return;
        }
        NextOf(chain, size, i);
        p := p.next;
        i := i + 1;
      }
    }

    /** pool_palloc: aligned, overlapping nothing, and null only when malloc has failed. For the seven
        largest requests the rounding wraps to zero: an address comes back, with no bytes behind it. It does
        not come back from a large request to a pool of less than 88 bytes as long as malloc answers, and then
        with null. */
    method Palloc(request: nat, answers: seq<nat>) returns (m: nat, done: bool, ghost from: nat, ghost i: nat, ghost j: nat)
      requires Valid() && request < UNSIGNED_LONG && AnswersOk(AlignWord(request), answers)
      modifies this, chain
      ensures Valid() && old(chain) <= chain && KeptGiven(old(given)) && fresh(set b | b in chain && b !in old(chain))
      ensures done <==> AlignWord(request) <= max || POOL_HEADER + CELL_SIZE <= size || 0 in answers
      ensures AlignWord(request) > max && size < POOL_HEADER + CELL_SIZE ==>
        m == 0 && State() == old(State()) && chain == old(chain) && cells == old(cells)
      ensures m == 0 ==> !done || 0 in answers
      ensures m != 0 ==> m % ALIGNMENT == 0
      ensures m != 0 && 0 < request <= UNSIGNED_LONG - ALIGNMENT ==> m in given && m !in old(given) && given[m].len == Align(request)
      ensures request == 0 || request > UNSIGNED_LONG - ALIGNMENT ==> m != 0 && given == old(given) && regions == old(regions)
      ensures AlignWord(request) <= max ==> cells == old(cells)
      ensures forall a :: a in regions ==> a in old(regions) || a in answers
      ensures AlignWord(request) <= max ==>
        from < |old(chain)| && old(chain)[from] == old(current) && old(FirstRoom(chain, from, i, AlignWord(request)))
      ensures AlignWord(request) <= max && i < |old(chain)| ==>
        m == old(chain[i].last) && chain == old(chain) && current == old(current) && regions.Keys == old(regions).Keys
        && chain[i].last == m + AlignWord(request)
      ensures AlignWord(request) <= max && i == |old(chain)| && m != 0 ==> chain[|chain| - 1].last == m + AlignWord(request)
      ensures AlignWord(request) <= max && i == |old(chain)| && m != 0 ==>
        m == answers[0] + 24 && |chain| == |old(chain)| + 1 && j < |old(chain)| && old(Candidate(chain, from, j)) && current == chain[j]
    {
      hide Sound, ChainLinked, CellsLinked, Fresh, BlocksOf, AllocsOf, FirstRoom, Candidate;
      SizeSuits(size);
      Facts();
      from, i, j := 0, 0, 0;
      var n := AlignWord(request);
      if n <= max {
        from :| from < |chain| && chain[from] == current;
        m, i, j := PallocSmall(n, answers[0], from);
        done := true;
      } else {
        m, done := PallocLarge(n, answers);
      }
    }

    /** The search from the current block on, and a new block when none has room. */
    method PallocSmall(n: nat, got: nat, ghost from: nat) returns (m: nat, ghost i: nat, ghost j: nat)
      requires Valid() && n % ALIGNMENT == 0 && n <= max && Fresh(regions, got, size) && from < |chain| && chain[from] == current
      modifies this, chain
      ensures Valid() && old(chain) <= chain && cells == old(cells) && KeptGiven(old(given)) && fresh(set b | b in chain && b !in old(chain))
      ensures m == 0 ==> got == 0
      ensures n == 0 ==> m != 0 && given == old(given) && regions == old(regions)
      ensures m != 0 ==> m % ALIGNMENT == 0
      ensures m != 0 && n > 0 ==> m in given && m !in old(given) && given[m].len == n
      ensures forall a :: a in regions ==> (a in old(regions) && regions[a].len == old(regions)[a].len) || (a == got && a > 0 && regions[a].len == size)
      ensures old(FirstRoom(chain, from, i, n)) && i <= |old(chain)|
      ensures i < |old(chain)| ==>
        m == old(chain[i].last) && chain == old(chain) && current == old(current) && regions.Keys == old(regions).Keys
        && chain[i].last == m + n
      ensures i == |old(chain)| && m != 0 ==> chain[|chain| - 1].last == m + n
      ensures i == |old(chain)| && m != 0 ==>
        m == got + BLOCK_HEADER && |chain| == |old(chain)| + 1 && j < |old(chain)| && old(Candidate(chain, from, j)) && current == chain[j]
    {
      hide Sound, ChainLinked, CellsLinked, Fresh, FirstRoom, Candidate;
      var p;
      j := 0;
      p, i := FindRoom(n, from);
      FirstRoomBounds(chain, from, i, n);
      if p != null {
        m := TakeFrom(p, i, n);
      } else {
        m, j := PallocBlock(n, got, from);
      }
    }

    /** The walk of pool_palloc_block to the last block; the candidate for the next searches stays a block
        of the chain. */
    method FindTail(ghost from: nat) returns (p: Block, candidate: Block, ghost j: nat)
      requires Valid() && from < |chain| && chain[from] == current
      ensures p == chain[|chain| - 1] && candidate in chain
      ensures Candidate(chain, from, j) && j < |chain| && candidate == chain[j]
    {
      hide Sound, ChainLinked, CellsLinked;
      Facts();
      ghost var i := from;
      j := from;
      p, candidate := current, current;
      NextOf(chain, size, i);
      while p.next != null
        invariant i < |chain| && p == chain[i] && candidate in chain && p.next == BlockAt(chain, i + 1)
        invariant from <= j <= i && candidate == chain[j] && (j > from ==> !Roomy(chain[j - 1], ALIGNMENT))
        invariant forall k :: j <= k < i ==> Roomy(chain[k], ALIGNMENT)
        decreases |chain| - i
      {
        BlockIs(State(), i);
        if p.end - p.last < ALIGNMENT {
          candidate := p.next;
          j := i + 1;
          assert candidate == chain[i + 1];
        }
        p := p.next;
        i := i + 1;
        NextOf(chain, size, i);
      }
    }

    /** pool_palloc_block: a new block, linked behind the last, with the piece at its start. */
    method PallocBlock(n: nat, got: nat, ghost from: nat) returns (m: nat, ghost j: nat)
      requires Valid() && n % ALIGNMENT == 0 && n <= max && Fresh(regions, got, size) && from < |chain| && chain[from] == current
      modifies this, chain
      ensures Valid() && old(chain) <= chain && cells == old(cells) && KeptGiven(old(given)) && fresh(set b | b in chain && b !in old(chain))
      ensures m == 0 <==> got == 0
      ensures m != 0 ==> m % ALIGNMENT == 0 && |chain| == |old(chain)| + 1 && chain[|chain| - 1].base == got
      ensures m != 0 ==> chain[|chain| - 1].last == m + n
      ensures m != 0 ==> m == got + BLOCK_HEADER && j < |old(chain)| && old(Candidate(chain, from, j)) && current == chain[j]
      ensures m != 0 && n > 0 ==> m in given && m !in old(given) && given[m].len == n
      ensures forall a :: a in regions ==> (a in old(regions) && regions[a].len == old(regions)[a].len) || (a == got && a > 0 && regions[a].len == size)
    {
      hide Sound, Fresh, Grown, BlocksOf, AllocsOf, ChainLinked, CellsLinked, Candidate;
      if got == 0 {
        return 0, 0;
      }
      m, j := NewBlock(n, got, from);
    }

    method NewBlock(n: nat, got: nat, ghost from: nat) returns (m: nat, ghost j: nat)
      requires Valid() && n % ALIGNMENT == 0 && n <= max && Fresh(regions, got, size) && got > 0 && from < |chain| && chain[from] == current
      modifies this, chain
      ensures Valid() && old(chain) <= chain && cells == old(cells) && KeptGiven(old(given)) && fresh(set b | b in chain && b !in old(chain))
      ensures m > 0 && m % ALIGNMENT == 0 && |chain| == |old(chain)| + 1 && chain[|chain| - 1].base == got
      ensures chain[|chain| - 1].last == m + n
      ensures m == got + BLOCK_HEADER && j < |old(chain)| && old(Candidate(chain, from, j)) && current == chain[j]
      ensures n > 0 ==> m in given && m !in old(given) && given[m].len == n
      ensures forall a :: a in regions ==> (a in old(regions) && regions[a].len == old(regions)[a].len) || (a == got && a > 0 && regions[a].len == size)
    {
      hide Sound, Fresh, Grown, BlocksOf, AllocsOf, ChainLinked, CellsLinked, Candidate;
      var newp;
      newp, j := AddBlock(got, from);
      Facts();
      MaxFits(n, size, max);
      m := TakeFrom(newp, |chain| - 1, n);
    }

    method AddBlock(got: nat, ghost from: nat) returns (newp: Block, ghost j: nat)
      requires Valid() && Fresh(regions, got, size) && got > 0 && from < |chain| && chain[from] == current
      modifies this`chain, this`current, this`regions, chain
      ensures Valid() && chain == old(chain) + [newp] && fresh(newp)
      ensures newp.base == got && newp.end == got + size && newp.last == got + BLOCK_HEADER
      ensures regions == old(regions)[got := Region(size, got + BLOCK_HEADER)] && got !in old(regions)
      ensures old(Candidate(chain, from, j)) && j < |old(chain)| && current == chain[j]
    {
      hide Sound, Fresh, Grown, BlocksOf, AllocsOf, ChainLinked, CellsLinked, Candidate;
      Facts();
      ghost var v := State();
      GrownSound(v, got);
      var p, candidate;
      p, candidate, j := FindTail(from);
      newp := NewLast(p, got, chain, cells, size);
      current := candidate;
      chain := chain + [newp];
      regions := regions[got := Region(size, got + BLOCK_HEADER)];
      GrownIs(v, State(), got);
    }

    static method NewLast(p: Block, got: nat, ghost chain: seq<Block>, ghost cells: seq<Cell>, size: nat) returns (newp: Block)
      requires chain != [] && p == chain[|chain| - 1] && ChainLinked(chain, size) && CellsLinked(cells)
      modifies p`next
      ensures fresh(newp) && newp.base == got && newp.end == got + size && newp.last == got + BLOCK_HEADER
      ensures ChainLinked(chain + [newp], size) && CellsLinked(cells) && AllocsOf(cells) == old(AllocsOf(cells))
      ensures BlocksOf(chain + [newp]) == old(BlocksOf(chain)) + [(got, got + BLOCK_HEADER)]
    {
      hide BlocksOf, AllocsOf, ChainLinked, CellsLinked;
      newp := new Block(got, got + size, got + BLOCK_HEADER);
      LinkBlock(p, newp, chain, cells, size);
    }

    /** The links of a new block. */
    static method LinkBlock(p: Block, newp: Block, ghost chain: seq<Block>, ghost cells: seq<Cell>, ghost size: nat)
      requires chain != [] && p == chain[|chain| - 1] && ChainLinked(chain, size) && CellsLinked(cells)
      requires newp !in chain && newp.next == null && newp.end == newp.base + size
      modifies p`next
      ensures ChainLinked(chain + [newp], size) && CellsLinked(cells) && AllocsOf(cells) == old(AllocsOf(cells))
      ensures BlocksOf(chain + [newp]) == old(BlocksOf(chain)) + [(newp.base, newp.last)]
    {
      p.next := newp;
      assert AllocsOf(cells) == old(AllocsOf(cells));
    }

    /** pool_palloc_large: the region is malloc's, and its cell a piece of the pool. A cell that is large
        itself asks for another one, until malloc refuses; then every region goes back. */
    method PallocLarge(n: nat, answers: seq<nat>) returns (p: nat, done: bool)
      requires Valid() && n % ALIGNMENT == 0 && n > max && AnswersOk(n, answers)
      modifies this, chain
      ensures Valid() && old(chain) <= chain && KeptGiven(old(given)) && fresh(set b | b in chain && b !in old(chain))
      ensures done <==> CELL_SIZE <= max || 0 in answers
      ensures max < CELL_SIZE ==> p == 0 && State() == old(State()) && chain == old(chain) && cells == old(cells)
      ensures p == 0 ==> !done || 0 in answers
      ensures p != 0 ==> p == answers[0] && p % ALIGNMENT == 0 && p in given && p !in old(given) && given[p].len == n
      ensures forall a :: a in regions ==> a in old(regions) || a in answers
      decreases |answers|
    {
      hide Sound, ChainLinked, CellsLinked, BlocksOf, AllocsOf, Fresh, FirstRoom, Candidate;
      Facts();
      if answers == [] {
        return 0, false;
      }
      if answers[0] == 0 {
        return 0, true;
      }
      if CELL_SIZE > max {
        p, done := PallocLarge(CELL_SIZE, answers[1..]);
        return;
      }
      ghost var before := regions;
      ghost var from: nat, i, j :| from < |chain| && chain[from] == current && i == j == 0;
      var room;
      room, i, j := PallocSmall(CELL_SIZE, answers[1], from);
      if room == 0 {
        return 0, true;
      }
      FreshStill(before, regions, answers[0], n, answers[1], size);
      AddCell(n, answers[0]);
      p, done := answers[0], true;
    }

    /** The region is remembered in a new cell at the head of the list. */
    method AddCell(n: nat, got: nat)
      requires Valid() && n > 0 && got > 0 && Fresh(regions, got, n)
      modifies this`large, this`cells, this`regions, this`given
      ensures Valid() && got % ALIGNMENT == 0 && got !in old(given) && given == old(given)[got := Piece(n, got)]
      ensures regions == old(regions)[got := Region(n, got + n)]
    {
      hide Sound, Enlarged, ChainLinked, CellsLinked, BlocksOf, AllocsOf, Fresh;
      Facts();
      ghost var v := State();
      EnlargedSound(v, n, got);
      FreshIs(regions, got, n);
      var cell := new Cell(got, large);
      CellsMore(cells, cell);
      large := cell;
      cells := [cell] + cells;
      regions := regions[got := Region(n, got + n)];
      given := given[got := Piece(n, got)];
      EnlargedIs(v, State(), n, got);
    }

    // ----- giving back ------------------------------------------------------------------------------------

    /** FREE: a region that malloc has given and not got back yet. */
    method Free(a: nat)
      requires a in regions
      modifies this`regions, this`given
      ensures regions == Dropped(old(regions), a) && given == Elsewhere(old(given), a)
    {
      regions := Dropped(regions, a);
      given := Elsewhere(given, a);
    }

    /** pool_pfree: a large allocation is given back, once; anything else is refused. For the null pointer
        it finds a cell that is empty already, if there is one. */
    method Pfree(p: nat) returns (ret: int)
      requires Valid()
      modifies this`regions, this`given, cells
      ensures Valid() && chain == old(chain) && cells == old(cells)
      ensures ret == if p in old(AllocsOf(cells)) then 0 else -1
      ensures ret == 0 && p != 0 ==> p in old(regions) && regions == Dropped(old(regions), p) && given == Elsewhere(old(given), p)
      ensures ret == 0 && p != 0 ==> p !in AllocsOf(cells)
      ensures ret != 0 || p == 0 ==> regions == old(regions) && given == old(given) && AllocsOf(cells) == old(AllocsOf(cells))
    {
      hide Sound, ChainLinked;
      Facts();
      var l := large;
      ghost var i := 0;
      while l != null
        invariant i <= |cells| && l == CellAt(cells, i) && forall j :: 0 <= j < i ==> cells[j].alloc != p
        decreases |cells| - i
      {
        if p == l.alloc {
          assert p == AllocsOf(cells)[i];
          if p != 0 {
            FreeCell(l, i);
          }
          return 0;
        }
        l := l.next;
        i := i + 1;
      }
      ret := -1;
    }

    method FreeCell(l: Cell, ghost i: nat)
      requires Valid() && i < |cells| && l == cells[i] && l.alloc != 0
      modifies this`regions, this`given, l`alloc
      ensures Valid() && old(l.alloc) in old(regions) && AllocsOf(cells) == old(AllocsOf(cells))[i := 0]
      ensures regions == Dropped(old(regions), old(l.alloc)) && given == Elsewhere(old(given), old(l.alloc))
      ensures old(l.alloc) !in AllocsOf(cells)
    {
      hide Sound, ChainLinked, CellsLinked, BlocksOf, AllocsOf, Freed;
      Facts();
      ghost var v := State();
      FreedSound(v, i);
      GoneFrom(v, i);
      Free(l.alloc);
      EmptyCell(l, chain, cells, i, size);
      FreedIs(v, State(), i);
    }

    static method EmptyCell(l: Cell, ghost chain: seq<Block>, ghost cells: seq<Cell>, ghost i: nat, ghost size: nat)
      requires i < |cells| && l == cells[i] && ChainLinked(chain, size) && CellsLinked(cells)
      modifies l`alloc
      ensures ChainLinked(chain, size) && CellsLinked(cells) && BlocksOf(chain) == old(BlocksOf(chain))
      ensures AllocsOf(cells) == old(AllocsOf(cells))[i := 0]
    {
      l.alloc := 0;
      assert BlocksOf(chain) == old(BlocksOf(chain));
    }

    /** The first loop of pool_clear and pool_destroy: every large allocation still held goes back, once. */
    method FreeLarges()
      requires Valid()
      modifies this`regions, this`given
      ensures forall a :: a in regions <==> IsBlock(old(State()), a)
    {
      hide Sound, ChainLinked, BlocksOf, AllocsOf, Freed;
      Facts();
      var l := large;
      ghost var i, v := 0, State();
      while l != null
        invariant i <= |cells| && l == CellAt(cells, i) && Sound(v) && v.blocks == old(State()).blocks
        invariant |v.allocs| == |cells| && forall j :: i <= j < |cells| ==> v.allocs[j] == cells[j].alloc
        invariant (forall j :: 0 <= j < i ==> v.allocs[j] == 0) && v.regions == regions && v.given == given
        decreases |cells| - i
        modifies this`regions, this`given
      {
        if l.alloc != 0 {
          FreedSound(v, i);
          FreedHas(v, i);
          Free(l.alloc);
          v := Freed(v, i);
        }
        l := l.next;
        i := i + 1;
      }
      OnlyBlocks(v);
      assert v.blocks == old(State()).blocks;
    }

    /** The blocks from `k` on go back, in the order of their links; each is left before it goes. */
    method FreeBlocks(first: Block?, ghost k: nat)
      requires ChainLinked(chain, size) && k <= |chain| && first == BlockAt(chain, k) && CanFree(chain, regions, k)
      modifies this`regions, this`given
      ensures forall a :: a in regions <==> a in old(regions) && !Among(chain, k, |chain|, a)
    {
      hide Among, ChainLinked, CanFree;
      var p := first;
      ghost var i := k;
      NoneAmong(chain, k);
      while p != null
        invariant k <= i <= |chain| && p == BlockAt(chain, i) && CanFree(chain, regions, i)
        invariant forall a :: a in regions <==> a in old(regions) && !Among(chain, k, i, a)
        decreases |chain| - i
        modifies this`regions, this`given
      {
        NextOf(chain, size, i);
        CanFreeStep(chain, regions, i);
        AmongStep(chain, k, i);
        var n := p.next;
        Free(p.base);
        p := n;
        i := i + 1;
      }
    }

    /** All that pool_clear and pool_destroy give back: the large allocations, and the blocks from `k` on. */
    method Release(first: Block?, ghost k: nat)
      requires Valid() && k <= |chain| && first == BlockAt(chain, k)
      modifies this`regions, this`given
      ensures forall a :: a in regions <==> Among(chain, 0, k, a)
    {
      hide Sound, BlocksOf, AllocsOf, ChainLinked, CellsLinked, Among, CanFree;
      Facts();
      ghost var v := State();
      FreeLarges();
      BlocksCanFree(v, chain, regions, k);
      FreeBlocks(first, k);
      AmongAll(v, chain, k);
    }

    /** pool_clear: everything goes back but the first block, which is empty again. */
    method Clear()
      requires Valid()
      modifies this, chain
      ensures Valid() && State() == Bare(size, head.base) && chain == [head] && cells == []
    {
      hide Sound, BlocksOf, AllocsOf, ChainLinked, CellsLinked, Among;
      Facts();
      AlignedBase(State());
      SoundParts(State());
      NextOf(chain, size, 0);
      EndIs(chain, size, 0);
      Release(head.next, 1);
      OneAmong(chain);
      assert forall a :: a in regions <==> a == head.base;
      head.last := head.base + POOL_HEADER;
      head.next := null;
      current := head;
      large := null;
      chain, cells, given := [head], [], map[];
      regions := map[head.base := Region(size, head.last)];
      OneBlock(head, size);
      NoCells();
      BareSound(size, head.base);
      assert State() == Bare(size, head.base);
    }

    /** pool_destroy: malloc has got back everything it had given, each region once. */
    method Destroy()
      requires Valid()
      modifies this`regions, this`given
      ensures regions == map[]
    {
      hide Sound, BlocksOf, AllocsOf, ChainLinked, CellsLinked, Among;
      Facts();
      NoneAmong(chain, 0);
      Release(head, 0);
      NoRegions(regions);
    }
  }

  /** `a` is the base of one of the blocks from `lo` to `hi`. */
  ghost predicate Among(chain: seq<Block>, lo: nat, hi: nat, a: nat)
    requires hi <= |chain|
  {
    exists j :: lo <= j < hi && chain[j].base == a
  }

  lemma NoneAmong(chain: seq<Block>, k: nat)
    requires k <= |chain|
    ensures forall a :: !Among(chain, k, k, a)
  {
  }

  lemma OneAmong(chain: seq<Block>)
    requires chain != []
    ensures forall a :: Among(chain, 0, 1, a) <==> a == chain[0].base
  {
  }

  lemma AmongStep(chain: seq<Block>, lo: nat, i: nat)
    requires lo <= i < |chain|
    ensures forall a :: Among(chain, lo, i + 1, a) <==> Among(chain, lo, i, a) || a == chain[i].base
  {
  }

  /** The blocks from `k` on are still held, and are different regions. */
  ghost predicate CanFree(chain: seq<Block>, regions: map<nat, Region>, k: nat) {
    && (forall i :: k <= i < |chain| ==> chain[i].base in regions)
    && (forall i, j :: k <= i < j < |chain| ==> chain[i].base != chain[j].base)
  }

  lemma CanFreeStep(chain: seq<Block>, regions: map<nat, Region>, i: nat)
    requires CanFree(chain, regions, i) && i < |chain|
    ensures chain[i].base in regions && CanFree(chain, Dropped(regions, chain[i].base), i + 1)
  {
  }

  lemma NextOf(chain: seq<Block>, size: nat, i: nat)
    requires ChainLinked(chain, size) && i < |chain|
    ensures chain[i].next == BlockAt(chain, i + 1)
  {
  }

  lemma NoCells()
    ensures CellsLinked([])
  {
  }

  lemma NoRegions(regions: map<nat, Region>)
    requires forall a: nat :: a !in regions
    ensures regions == map[]
  {
  }

  lemma BlocksCanFree(v: View, chain: seq<Block>, regions: map<nat, Region>, k: nat)
    requires Sound(v) && |v.blocks| == |chain| && k <= |chain| && forall i :: 0 <= i < |chain| ==> v.blocks[i].0 == chain[i].base
    requires forall a :: a in regions <==> IsBlock(v, a)
    ensures CanFree(chain, regions, k)
  {
    SoundParts(v);
    forall i | k <= i < |chain| ensures chain[i].base in regions {
      assert IsBlock(v, v.blocks[i].0);
    }
  }

  /** The regions that are blocks, but none of those from `k` on, are those before it. */
  lemma AmongAll(v: View, chain: seq<Block>, k: nat)
    requires Sound(v) && |v.blocks| == |chain| && k <= |chain| && forall i :: 0 <= i < |chain| ==> v.blocks[i].0 == chain[i].base
    ensures forall a :: IsBlock(v, a) && !Among(chain, k, |chain|, a) <==> Among(chain, 0, k, a)
  {
    SoundParts(v);
    forall a ensures IsBlock(v, a) && !Among(chain, k, |chain|, a) <==> Among(chain, 0, k, a) {
      if Among(chain, 0, k, a) {
        var j :| 0 <= j < k && chain[j].base == a;
        assert v.blocks[j].0 == a;
      }
    }
  }

  lemma GoneFrom(v: View, i: nat)
    requires Sound(v) && i < |v.allocs| && v.allocs[i] != 0
    ensures v.allocs[i] !in v.allocs[i := 0]
  {
    SoundParts(v);
  }

  lemma FreedIs(v: View, w: View, i: nat)
    requires i < |v.allocs| && w.size == v.size && w.blocks == v.blocks && w.allocs == v.allocs[i := 0]
    requires w.regions == Dropped(v.regions, v.allocs[i]) && w.given == Elsewhere(v.given, v.allocs[i])
    ensures w == Freed(v, i)
  {
  }

  lemma FreedHas(v: View, i: nat)
    requires i < |v.allocs|
    ensures Freed(v, i).allocs == v.allocs[i := 0] && Freed(v, i).blocks == v.blocks
    ensures Freed(v, i).regions == Dropped(v.regions, v.allocs[i]) && Freed(v, i).given == Elsewhere(v.given, v.allocs[i])
  {
  }

  /** With every large allocation back, the regions are the blocks. */
  lemma OnlyBlocks(v: View)
    requires Sound(v) && forall j :: 0 <= j < |v.allocs| ==> v.allocs[j] == 0
    ensures forall a :: a in v.regions <==> IsBlock(v, a)
  {
    SoundParts(v);
    HeldAreRegions(v);
    forall a | a in v.regions ensures IsBlock(v, a) {
      assert a > 0;
    }
  }

  lemma AlignedBase(v: View)
    requires Sound(v)
    ensures v.blocks != [] && v.blocks[0].0 > 0 && v.blocks[0].0 % ALIGNMENT == 0
  {
    SoundParts(v);
    HeldAreRegions(v);
  }

  lemma EndIs(chain: seq<Block>, size: nat, i: nat)
    requires ChainLinked(chain, size) && i < |chain|
    ensures chain[i].end == chain[i].base + size
  {
  }

  lemma MaxFits(n: nat, size: nat, max: nat)
    requires size >= POOL_HEADER && n <= max <= size - POOL_HEADER
    ensures BLOCK_HEADER + n <= size
  {
  }

  lemma FreshStill(before: map<nat, Region>, after: map<nat, Region>, got: nat, n: nat, got2: nat, size: nat)
    requires Fresh(before, got, n) && (got2 == 0 || got2 + size <= got || got + n <= got2)
    requires forall a :: a in after ==> (a in before && after[a].len == before[a].len) || (a == got2 && a > 0 && after[a].len == size)
    ensures Fresh(after, got, n)
  {
  }

  lemma CellsMore(cells: seq<Cell>, c: Cell)
    requires CellsLinked(cells) && c !in cells && c.next == CellAt(cells, 0)
    ensures CellsLinked([c] + cells)
  {
  }

  lemma TakenIs(v: View, w: View, i: nat, n: nat)
    requires i < |v.blocks| == |w.blocks| && w.size == v.size && w.allocs == v.allocs
    requires w.blocks[i] == (v.blocks[i].0, v.blocks[i].1 + n) && forall j :: 0 <= j < |v.blocks| && j != i ==> w.blocks[j] == v.blocks[j]
    requires w.regions == v.regions[v.blocks[i].0 := Region(v.size, v.blocks[i].1 + n)]
    requires w.given == v.given[v.blocks[i].1 := Piece(n, v.blocks[i].0)]
    ensures w == Taken(v, i, n)
  {
    assert w.blocks == Taken(v, i, n).blocks;
  }

  lemma GrownIs(v: View, w: View, got: nat)
    requires |w.blocks| == |v.blocks| + 1 && w.size == v.size && w.allocs == v.allocs && w.given == v.given
    requires w.blocks[|v.blocks|] == (got, got + BLOCK_HEADER) && forall j :: 0 <= j < |v.blocks| ==> w.blocks[j] == v.blocks[j]
    requires w.regions == v.regions[got := Region(v.size, got + BLOCK_HEADER)]
    ensures w == Grown(v, got)
  {
    assert w.blocks == Grown(v, got).blocks;
  }

  lemma EnlargedIs(v: View, w: View, n: nat, got: nat)
    requires w.size == v.size && w.blocks == v.blocks && |w.allocs| == |v.allocs| + 1
    requires w.allocs[0] == got && forall j :: 0 <= j < |v.allocs| ==> w.allocs[j + 1] == v.allocs[j]
    requires w.regions == v.regions[got := Region(n, got + n)] && w.given == v.given[got := Piece(n, got)]
    ensures w == Enlarged(v, n, got)
  {
    assert w.allocs == Enlarged(v, n, got).allocs;
  }
}
