/** The operations of libcwmp/src/memory.c on the address space of Memory. malloc always succeeds; what it
    returns is a parameter. */
module MemoryAllocator {
  import opened Memory

  function Bytes(size: nat, nobjs: nat): nat {
    size * nobjs
  }

  /** What malloc is asked for when the arena cannot give one block of this size. */
  function BytesToGet(size: nat, nobjs: nat, heapSize: nat): nat {
    2 * Bytes(size, nobjs) + RoundUp(heapSize / 16)
  }

  /** malloc is asked for twice the blocks, and a sixteenth of all that it has given, in whole words; for the first
      block of a size that is room for twenty. */
  lemma GrowthIs(size: nat, nobjs: nat, heapSize: nat)
    requires size % 8 == 0
    ensures var n := BytesToGet(size, nobjs, heapSize);
            n % 8 == 0 && 2 * (size * nobjs) + heapSize / 16 <= n < 2 * (size * nobjs) + heapSize / 16 + 8
    ensures BytesToGet(size, NOBJS, 0) == 20 * size
  {
    Multiple(size, nobjs);
    WordsTwice(Bytes(size, nobjs), RoundUp(heapSize / 16));
  }

  lemma WordsTwice(a: nat, b: nat)
    requires a % 8 == 0 && b % 8 == 0
    ensures (2 * a + b) % 8 == 0
  {
    var x, y := a / 8, b / 8;
    assert 2 * a + b == ALIGN * (2 * x + y);
    Eighth(2 * x + y);
  }

  /** How many blocks a chunk holds: all that are asked for when the arena has more room than they take or has to be
      filled again, which it has when it is no longer than one block; otherwise as many as it has room for. */
  function Got(left: int, size: nat, nobjs: nat): int
    requires size > 0
  {
    if left > Bytes(size, nobjs) || left <= size then nobjs else left / size
  }

  /** A small block is the first of the list of its size; nothing else has changed. */
  predicate PutFirst(a: Arena, b: Arena, ptr: nat, n: nat)
    requires n > 0
  {
    if n > MAX_BYTES then b == a
    else
      var k := FreeListIndex(n);
      k < |a.lists| && b == a.(lists := a.lists[k := [ptr] + a.lists[k]])
  }

  lemma GotIs(left: int, size: nat, nobjs: nat)
    requires size > 0
    ensures left > Bytes(size, nobjs) || left <= size ==> Got(left, size, nobjs) == nobjs
    ensures size < left <= Bytes(size, nobjs) ==> Got(left, size, nobjs) == left / size
  {
  }

  /** The blocks of a chunk behind the first. */
  function Behind(chunk: nat, n: nat, count: nat): seq<nat> {
    seq(count, i requires 0 <= i < count => chunk + n * (i + 1))
  }

  lemma {:induction false} BuildLists(s: Space, k: nat, chunk: nat, count: nat)
    requires |s.heads| == |s.lists| == FREELISTS && k < FREELISTS && s.lists[k] == []
    ensures Build(s, k, chunk + 8 * (k + 1), count).lists == s.lists[k := Behind(chunk, 8 * (k + 1), count)]
    decreases count
  {
    var n := 8 * (k + 1);
    if count == 0 {
      assert s.lists[k := []] == s.lists;
    } else {
      BuildLists(s, k, chunk + n, count - 1);
      BehindSteps(chunk, n, count);
    }
  }

  lemma BehindSteps(chunk: nat, n: nat, count: nat)
    requires count > 0
    ensures Behind(chunk, n, count) == [chunk + n] + Behind(chunk + n, n, count - 1)
  {
    var s, t := Behind(chunk, n, count), [chunk + n] + Behind(chunk + n, n, count - 1);
    forall i | 0 <= i < count
      ensures s[i] == t[i]
    {
      if i > 0 {
        assert n * (i + 1) == n + n * i;
      }
    }
  }

  /** The size of the block behind a request. */
  function BlockSize(n: nat): nat {
    if n > MAX_BYTES then n else RoundUp(n)
  }

  /** Two memories that differ between two addresses only. */
  ghost predicate SameOutside(mem0: map<nat, nat>, mem1: map<nat, nat>, lo: nat, hi: nat) {
    forall at: nat :: at < lo || hi <= at ==> SameAt(mem0, mem1, at)
  }

  ghost predicate SameAt(mem0: map<nat, nat>, mem1: map<nat, nat>, at: nat) {
    (at in mem0 <==> at in mem1) && (at in mem0 ==> mem0[at] == mem1[at])
  }

  /** No word of a live block has changed. */
  ghost predicate LiveSame(own: map<nat, Extent>, mem0: map<nat, nat>, mem1: map<nat, nat>) {
    forall a, at: nat :: a in own && own[a].kind == Live && a <= at < a + own[a].len ==> SameAt(mem0, mem1, at)
  }

  lemma LiveIsOutside(own: map<nat, Extent>, mem0: map<nat, nat>, mem1: map<nat, nat>, lo: nat, hi: nat)
    requires SameOutside(mem0, mem1, lo, hi) && (lo < hi ==> Clear(own, lo, hi))
    ensures LiveSame(own, mem0, mem1)
  {
  }

  lemma LiveTwice(own: map<nat, Extent>, own1: map<nat, Extent>, mem0: map<nat, nat>, mem1: map<nat, nat>, mem2: map<nat, nat>)
    requires LiveSame(own, mem0, mem1) && LiveSame(own1, mem1, mem2)
    requires forall a :: a in own && own[a].kind == Live ==> a in own1 && own1[a] == own[a]
    ensures LiveSame(own, mem0, mem2)
  {
    forall a, at: nat | a in own && own[a].kind == Live && a <= at < a + own[a].len ensures SameAt(mem0, mem2, at) {
      assert SameAt(mem0, mem1, at) && SameAt(mem1, mem2, at);
    }
  }

  lemma {:induction false} LinkAllOutside(mem: map<nat, nat>, first: nat, n: nat, count: nat)
    requires n > 0
    ensures SameOutside(mem, LinkAll(mem, first, n, count), first, first + Span(n, count))
    decreases count
  {
    if count > 0 {
      var m := mem[first := if count == 1 then 0 else first + n];
      LinkAllOutside(m, first + n, n, count - 1);
      forall at: nat | at < first || first + Span(n, count) <= at ensures SameAt(mem, LinkAll(mem, first, n, count), at) {
        assert SameAt(m, LinkAll(mem, first, n, count), at);
      }
    }
  }

  function Copied(src: map<nat, nat>, dst: map<nat, nat>, from: nat, to: nat, words: nat): map<nat, nat> {
    if words == 0 then dst
    else
      var d := Copied(src, dst, from, to, words - 1);
      if from + 8 * (words - 1) in src then d[to + 8 * (words - 1) := src[from + 8 * (words - 1)]] else d
  }

  lemma {:induction false} CopiedReads(src: map<nat, nat>, dst: map<nat, nat>, from: nat, to: nat, words: nat, w: nat)
    requires w < words && from + 8 * w in src
    ensures to + 8 * w in Copied(src, dst, from, to, words) && Copied(src, dst, from, to, words)[to + 8 * w] == src[from + 8 * w]
  {
    if w < words - 1 {
      CopiedReads(src, dst, from, to, words - 1, w);
    }
  }

  lemma {:induction false} CopiedOutside(src: map<nat, nat>, dst: map<nat, nat>, from: nat, to: nat, words: nat)
    ensures SameOutside(dst, Copied(src, dst, from, to, words), to, to + 8 * words)
  {
    if words > 0 {
      CopiedOutside(src, dst, from, to, words - 1);
      forall at: nat | at < to || to + 8 * words <= at ensures SameAt(dst, Copied(src, dst, from, to, words), at) {
        assert SameAt(dst, Copied(src, dst, from, to, words - 1), at);
      }
    }
  }

  /** Copying into a live block leaves the lists alone. */
  lemma {:induction false} CopiedSound(s: Space, src: map<nat, nat>, from: nat, to: nat, words: nat)
    requires Sound(s) && to in s.own && s.own[to].kind == Live && 8 * words <= s.own[to].len
    ensures Sound(s.(mem := Copied(src, s.mem, from, to, words)))
  {
    if words > 0 {
      CopiedSound(s, src, from, to, words - 1);
      var r := s.(mem := Copied(src, s.mem, from, to, words - 1));
      if from + 8 * (words - 1) in src {
        OwnerWrites(r, to, to + 8 * (words - 1), src[from + 8 * (words - 1)]);
      }
    }
  }

  datatype Arena = Arena(start: nat, end: nat, heap: nat, lists: seq<seq<nat>>)

  /** The chunk is the start of the arena, or of a new one when there is no more than one block left; what was left
      is then on the lists. */
  predicate Chunked(a: Arena, leftover: seq<seq<nat>>, b: Arena, size: nat, nobjs: nat, got: nat, chunk: nat, count: nat)
    requires size > 0
  {
    var short := a.end - a.start <= size;
    var n := BytesToGet(size, nobjs, a.heap);
    && count == Got(a.end - a.start, size, nobjs) && chunk == (if short then got else a.start)
    && b == Arena(chunk + Bytes(size, count), if short then got + n else a.end, a.heap + if short then n else 0,
                  if short then leftover else a.lists)
  }

  lemma TakenChunk(a: Arena, leftover: seq<seq<nat>>, size: nat, nobjs: nat, got: nat, count: nat)
    requires size > 0 && nobjs > 0 && a.end - a.start > size
    requires count == if a.end - a.start > Bytes(size, nobjs) then nobjs else (a.end - a.start) / size
    ensures Chunked(a, leftover, a.(start := a.start + Bytes(size, count)), size, nobjs, got, a.start, count)
  {
    hide Bytes;
  }

  lemma GrowthIs8(size: nat, nobjs: nat, heapSize: nat)
    ensures BytesToGet(size, nobjs, heapSize) == 2 * Bytes(size, nobjs) + RoundUp(heapSize / 16)
  {
    hide Bytes, RoundUp;
  }

  /** Once the arena has been filled, the chunk is its start, with all the blocks. */
  lemma GrownChunk(a: Arena, leftover: seq<seq<nat>>, again: seq<seq<nat>>, b: Arena, size: nat, nobjs: nat, got: nat, chunk: nat, count: nat)
    requires size > 0 && nobjs > 0 && a.end - a.start <= size
    requires var n := BytesToGet(size, nobjs, a.heap);
             Chunked(Arena(got, got + n, a.heap + n, leftover), again, b, size, nobjs, got, chunk, count)
    ensures Chunked(a, leftover, b, size, nobjs, got, chunk, count)
  {
    hide Bytes, RoundUp;
    Multiple1(size, nobjs);
  }

  lemma Multiple1(size: nat, n: nat)
    requires n > 0
    ensures size <= Bytes(size, n)
  {
    Times(1, n, size);
  }

  class Allocator {
    var startFree: nat
    var endFree: nat
    var heapSize: nat
    const freeList: array<nat>
    var mem: map<nat, nat>
    ghost var own: map<nat, Extent>
    ghost var lists: seq<seq<nat>>

    ghost function State(): (s: Space)
      reads this, freeList
    {
      Space(startFree, endFree, freeList[..], mem, own, lists)
    }

    ghost predicate Valid()
      reads this, freeList
    {
      Sound(State())
    }

    constructor ()
      ensures Valid() && own == map[] && fresh(freeList)
    {
      startFree, endFree, heapSize := 0, 0, 0;
      freeList := new nat[FREELISTS](_ => 0);
      mem, own, lists := map[], map[], seq(FREELISTS, _ => []);
    }

    /** Whether a block of this size makes the allocator call malloc, when its list is empty. */
    predicate ArenaShort(size: nat)
      reads this
    {
      endFree - startFree <= size
    }

    /** What is left of the arena goes on the list of its size. */
    ghost function LeftoverListed(): map<nat, Extent>
      reads this
    {
      if startFree < endFree then own[startFree := Extent(endFree - startFree, Free(FreeListIndex(endFree - startFree)))] else own
    }

    ghost function Now(): Arena
      reads this
    {
      Arena(startFree, endFree, heapSize, lists)
    }

    ghost function LeftoverLists(): seq<seq<nat>>
      reads this
    {
      if startFree < endFree && FreeListIndex(endFree - startFree) < |lists| then
        var k := FreeListIndex(endFree - startFree);
        lists[k := [startFree] + lists[k]]
      else lists
    }

    /** TRSafecwmp_chunk_tAlloc: as many blocks as the arena has, up to `nobjs`; when it has not got one, the
        rest of it goes on a list and malloc fills it, once. */
    method ChunkAlloc(size: nat, nobjs: nat, got: nat) returns (chunk: nat, count: nat)
      requires Valid() && 0 < size <= MAX_BYTES && size % ALIGN == 0 && 0 < nobjs
      requires ArenaShort(size) ==> Region(own, startFree, endFree, got, BytesToGet(size, nobjs, heapSize))
      modifies this, freeList
      ensures Valid() && chunk > 0 && chunk % ALIGN == 0 && 0 < count <= nobjs
      ensures Clear(own, chunk, chunk + Bytes(size, count)) && (endFree <= chunk || chunk + Bytes(size, count) <= startFree)
      ensures own == if old(ArenaShort(size)) then old(LeftoverListed()) else old(own)
      ensures SameOutside(old(mem), mem, old(startFree), old(endFree))
      ensures !old(ArenaShort(size)) ==> mem == old(mem)
      ensures Chunked(old(Now()), old(LeftoverLists()), Now(), size, nobjs, got, chunk, count)
      decreases if endFree - startFree > Bytes(size, nobjs) then 0 else 1, 1
    {
      hide Sound, Apart, Aligned, Clear, Push, Bytes, BytesToGet, RoundUp, SameOutside, LeftoverLists, LeftoverListed, Chunked;
      SameSelf(mem, startFree, endFree);
      SoundArena(State());
      var totalBytes := Bytes(size, nobjs);
      var bytesLeft := endFree - startFree;
      Multiple(size, nobjs);
      if bytesLeft > totalBytes {
        count := nobjs;
        chunk := Take(totalBytes);
        TakenChunk(old(Now()), old(LeftoverLists()), size, nobjs, got, count);
      } else if bytesLeft > size {
        count := bytesLeft / size;
        Fits(bytesLeft, size, nobjs);
        totalBytes := Bytes(size, count);
        Multiple(size, count);
        chunk := Take(totalBytes);
        TakenChunk(old(Now()), old(LeftoverLists()), size, nobjs, got, count);
      } else {
        chunk, count := GrowFirst(size, nobjs, got);
      }
    }

    /** The last branch, with its second call. */
    method GrowFirst(size: nat, nobjs: nat, got: nat) returns (chunk: nat, count: nat)
      requires Valid() && 0 < size <= MAX_BYTES && size % ALIGN == 0 && 0 < nobjs && ArenaShort(size)
      requires Region(own, startFree, endFree, got, BytesToGet(size, nobjs, heapSize))
      modifies this, freeList
      ensures Valid() && chunk > 0 && chunk % ALIGN == 0 && 0 < count <= nobjs
      ensures Clear(own, chunk, chunk + Bytes(size, count)) && (endFree <= chunk || chunk + Bytes(size, count) <= startFree)
      ensures own == old(LeftoverListed()) && SameOutside(old(mem), mem, old(startFree), old(endFree))
      ensures Chunked(old(Now()), old(LeftoverLists()), Now(), size, nobjs, got, chunk, count)
      decreases 1, 0
    {
      hide Sound, Apart, Aligned, Clear, Push, Bytes, BytesToGet, RoundUp, SameOutside, LeftoverLists, LeftoverListed, Chunked;
      SoundArena(State());
      var totalBytes := Bytes(size, nobjs);
      Multiple(size, nobjs);
      GrowthIs8(size, nobjs, heapSize);
      var bytesToGet := 2 * totalBytes + RoundUp(heapSize / 16);
      WordsTwice(totalBytes, RoundUp(heapSize / 16));
      Grow(totalBytes, bytesToGet, got);
      ghost var grown, again := mem, LeftoverLists();
      chunk, count := ChunkAlloc(size, nobjs, got);
      assert mem == grown;
      GrownChunk(old(Now()), old(LeftoverLists()), again, Now(), size, nobjs, got, chunk, count);
    }

    /** `total` bytes from the start of the arena. */
    method Take(total: nat) returns (chunk: nat)
      requires Valid() && 0 < total && startFree + total <= endFree && total % ALIGN == 0
      modifies this`startFree
      ensures Valid() && chunk == old(startFree) > 0 && chunk % ALIGN == 0 && startFree == chunk + total
      ensures Clear(own, chunk, chunk + total)
    {
      hide Sound, Clear;
      TakeFacts(State(), total);
      chunk := startFree;
      startFree := startFree + total;
    }

    /** The rest of the arena goes on its list, and malloc gives a new arena. */
    method Grow(totalBytes: nat, bytesToGet: nat, got: nat)
      requires Valid() && endFree - startFree <= MAX_BYTES && bytesToGet % ALIGN == 0
      requires Region(own, startFree, endFree, got, bytesToGet)
      modifies this, freeList
      ensures Valid() && startFree == got && endFree == got + bytesToGet
      ensures own == old(LeftoverListed()) && SameOutside(old(mem), mem, old(startFree), old(endFree))
      ensures heapSize == old(heapSize) + bytesToGet && lists == old(LeftoverLists())
    {
      hide Sound, Apart, Aligned, Clear, RoundUp, SameOutside;
      SameSelf(mem, startFree, endFree);
      SoundArena(State());
      var bytesLeft := endFree - startFree;
      ghost var s := State();
      if bytesLeft > 0 {
        var k := FreeListIndex(bytesLeft);
        LeftoverSound(s, k);
        mem := mem[startFree := freeList[k]];
        freeList[k] := startFree;
        own := own[startFree := Extent(8 * (k + 1), Free(k))];
        lists := lists[k := [startFree] + lists[k]];
        StoredOne(s.mem, startFree, s.heads[k], startFree, endFree);
        assert State() == Push(s, k, startFree);
        LeftoverClear(s, got, bytesToGet, Extent(8 * (k + 1), Free(k)));
      }
      NewArena(State(), got, bytesToGet, s);
      startFree := got;
      heapSize := heapSize + bytesToGet;
      endFree := startFree + bytesToGet;
    }

    /** How much the next allocation of `n` bytes asks malloc for. */
    ghost function Demand(n: nat): nat
      requires n > 0 && |lists| == FREELISTS
      reads this
    {
      if n > MAX_BYTES then n
      else
        SmallIndex(n);
        if lists[FreeListIndex(n)] != [] || !ArenaShort(RoundUp(n)) then 0
        else BytesToGet(RoundUp(n), NOBJS, heapSize)
    }

    /** The state after a refill: the chunk comes from the arena, or from a new one; its first block is given away, and
        the others are the list. */
    ghost predicate Filled(before: Arena, leftover: seq<seq<nat>>, n: nat, got: nat, result: nat)
      requires n > 0
      reads this
    {
      exists count: nat, was: Arena ::
        && Chunked(before, leftover, was, n, NOBJS, got, result, count) && count > 0 && FreeListIndex(n) < |was.lists|
        && Now() == if count == 1 then was else was.(lists := was.lists[FreeListIndex(n) := Behind(result, n, count - 1)])
    }

    /** TRSafeRefill: the first block of the chunk is given away, and the others become the list. */
    method Refill(n: nat, got: nat) returns (result: nat)
      requires Valid() && 0 < n <= MAX_BYTES && n % ALIGN == 0 && lists[FreeListIndex(n)] == []
      requires ArenaShort(n) ==> Region(own, startFree, endFree, got, BytesToGet(n, NOBJS, heapSize))
      modifies this, freeList
      ensures Valid() && result !in old(own) && result in own && own[result] == Extent(n, Live)
      ensures forall a :: a in old(own) ==> a in own && own[a] == old(own)[a]
      ensures forall a :: a in own && a !in old(own) && a != result ==> own[a].kind != Live
      ensures LiveSame(old(own), old(mem), mem)
      ensures Filled(old(Now()), old(LeftoverLists()), n, got, result)
    {
      hide Sound, Apart, Aligned, Clear, Bytes, Listed, LiveSame, SameOutside, Region, Forget, RoundUp, Behind, BytesToGet, FreeListIndex, Chunked;
      ghost var s := State();
      SmallIndex(n);
      SoundArena(s);
      ArenaIsClear(s);
      var chunk, nobjs := ChunkAlloc(n, NOBJS, got);
      ghost var middle, was := State(), Now();
      SoundArena(middle);
      LiveIsOutside(s.own, s.mem, mem, s.start, s.end);
      LeftoverKeeps(s, middle.own, n);
      result := chunk;
      BytesSplit(n, nobjs);
      if nobjs == 1 {
        UseChunk(middle, chunk, n);
        own := own[chunk := Extent(n, Live)];
      } else {
        FillList(chunk, n, nobjs);
        LiveIsOutside(middle.own, middle.mem, mem, chunk, chunk + Bytes(n, nobjs));
        LiveTwice(s.own, middle.own, s.mem, middle.mem, mem);
        ForgetKeeps(s, middle.own, own, FreeListIndex(n));
      }
      assert Now() == if nobjs == 1 then was else was.(lists := was.lists[FreeListIndex(n) := Behind(result, n, nobjs - 1)]);
    }

    /** The list is overwritten with the blocks of the chunk behind the first. */
    method FillList(chunk: nat, n: nat, nobjs: nat)
      requires Valid() && 0 < n <= MAX_BYTES && n % ALIGN == 0 && nobjs >= 2 && chunk > 0 && chunk % ALIGN == 0
      requires Clear(own, chunk, chunk + Bytes(n, nobjs)) && (endFree <= chunk || chunk + Bytes(n, nobjs) <= startFree)
      modifies this`mem, this`own, this`lists, freeList
      ensures Valid() && chunk !in old(own) && chunk in own && own[chunk] == Extent(n, Live)
      ensures forall a :: a in old(own) ==> a in own && own[a] == Forget(old(own), FreeListIndex(n))[a]
      ensures forall a :: a in own && a !in old(own) && a != chunk ==> own[a].kind != Live
      ensures SameOutside(old(mem), mem, chunk, chunk + Bytes(n, nobjs))
      ensures FreeListIndex(n) < |old(lists)| && lists == old(lists)[FreeListIndex(n) := Behind(chunk, n, nobjs - 1)]
    {
      hide Sound, Clear, Bytes, Build, LinkAll, Forget, Behind;
      BytesSplit(n, nobjs);
      LinkAllOutside(mem, chunk + n, n, nobjs - 1);
      ghost var k, s := FreeListIndex(n), State();
      SmallIndex(n);
      KeepsFirst(s, k, chunk, n, nobjs);
      ghost var lost := s.(own := Forget(s.own, k), lists := s.lists[k := []], heads := s.heads[k := 0]);
      ghost var built := Build(lost, k, chunk + n, nobjs - 1);
      LinkAllBuilds(lost, k, chunk + n, nobjs - 1);
      BuildLists(lost, k, chunk, nobjs - 1);
      freeList[FreeListIndex(n)] := chunk + n;
      LinkLoop(chunk, n, nobjs);
      own := built.own[chunk := Extent(n, Live)];
      lists := built.lists;
      assert freeList[..] == built.heads;
      assert State() == built.(own := built.own[chunk := Extent(n, Live)]);
    }

    /** The loop of TRSafeRefill. */
    method LinkLoop(chunk: nat, n: nat, nobjs: nat)
      requires nobjs >= 2 && n > 0
      modifies this`mem
      ensures mem == LinkAll(old(mem), chunk + n, n, nobjs - 1)
    {
      var next: nat, i, more := chunk + n, 1, true;
      while more
        invariant 1 <= i <= nobjs && (more ==> i < nobjs)
        invariant LinkAll(old(mem), chunk + n, n, nobjs - 1) == if more then LinkAll(mem, next, n, nobjs - i) else mem
        decreases more, nobjs - i
      {
        var current := next;
        next := next + n;
        if nobjs - 1 == i {
          mem := mem[current := 0];
          more := false;
        } else {
          mem := mem[current := next];
          i := i + 1;
        }
      }
    }

    /** The blocks in use before are in use after, and one more. */
    ghost predicate OneMore(before: map<nat, Extent>, result: nat, n: nat)
      reads this
    {
      && result in own && own[result] == Extent(BlockSize(n), Live)
      && (result in before ==> before[result].kind != Live)
      && (forall a :: a in before && before[a].kind == Live ==> a in own && own[a] == before[a])
      && (forall a :: a in own && own[a].kind == Live && a != result ==> a in before && before[a] == own[a])
    }

    /** Where a block comes from: from malloc when it is large; off the list of its size when that has one, without
        any other change; from the arena otherwise. */
    ghost predicate Served(before: Arena, leftover: seq<seq<nat>>, mem0: map<nat, nat>, n: nat, got: nat, result: nat)
      requires n > 0
      reads this
    {
      if n > 128 then result == got && Now() == before
      else
        var k := FreeListIndex(n);
        && k < |before.lists|
        && if before.lists[k] != [] then
             && mem == mem0 && result == before.lists[k][0]
             && Now() == before.(lists := before.lists[k := before.lists[k][1..]])
           else Filled(before, leftover, RoundUp(n), got, result)
    }

    /** TRAllocate, for at least one byte: a block that no live block overlaps. */
    method Allocate(n: nat, got: nat) returns (result: nat)
      requires Valid() && n > 0 && |lists| == FREELISTS
      requires Demand(n) > 0 ==> Region(own, startFree, endFree, got, Demand(n))
      modifies this, freeList
      ensures Valid() && OneMore(old(own), result, n) && LiveSame(old(own), old(mem), mem)
      ensures Served(old(Now()), old(LeftoverLists()), old(mem), n, got, result)
    {
      hide Sound, Apart, Aligned, Clear, Listed, Linked, LiveSame, Bytes, BytesToGet, Behind;
      SoundArena(State());
      LiveSelf(own, mem);
      if n > MAX_BYTES {
        UseRegion(State(), got, n);
        own := own[got := Extent(n, Live)];
        return got;
      }
      SmallIndex(n);
      var k := FreeListIndex(n);
      HeadTells(State(), k);
      var res := freeList[k];
      if res == 0 {
        MoreThanNothing(RoundUp(n), heapSize);
        result := Refill(RoundUp(n), got);
      } else {
        FirstIsHead(State(), k);
        PopSound(State(), k);
        ghost var popped := Pop(State(), k);
        freeList[k] := mem[res];
        own := own[res := Extent(8 * (k + 1), Live)];
        lists := lists[k := lists[k][1..]];
        assert State() == popped;
        result := res;
      }
    }

    /** TRDeallocate, with the size that was allocated. */
    method Deallocate(ptr: nat, n: nat)
      requires Valid() && n > 0 && ptr in own && own[ptr] == Extent(BlockSize(n), Live)
      modifies this, freeList
      ensures Valid() && (ptr in own ==> n <= MAX_BYTES && own[ptr] == Extent(BlockSize(n), Free(FreeListIndex(n))))
      ensures forall a :: a in old(own) && a != ptr ==> a in own && own[a] == old(own)[a]
      ensures forall a :: a in own && a != ptr ==> a in old(own)
      ensures SameOutside(old(mem), mem, ptr, ptr + 1)
      ensures PutFirst(old(Now()), Now(), ptr, n)
    {
      hide Sound, Apart, Aligned, Clear, Listed, Linked;
      SoundArena(State());
      if n > MAX_BYTES {
        DropSound(State(), ptr);
        own := Without(own, ptr);
      } else {
        SmallIndex(n);
        var k := FreeListIndex(n);
        PushSound(State(), k, ptr);
        ghost var pushed := Push(State(), k, ptr);
        mem := mem[ptr := freeList[k]];
        freeList[k] := ptr;
        own := own[ptr := Extent(8 * (k + 1), Free(k))];
        lists := lists[k := [ptr] + lists[k]];
        assert State() == pushed;
      }
    }

    /** What was given back last is given first: to the next request that rounds up to the same size, without malloc. */
    method GiveAgain(ptr: nat, n: nat, m: nat) returns (result: nat)
      requires Valid() && 0 < n <= MAX_BYTES && ptr in own && own[ptr] == Extent(BlockSize(n), Live)
      requires 0 < m <= MAX_BYTES && RoundUp(m) == RoundUp(n)
      modifies this, freeList
      ensures Valid() && result == ptr && ptr in own && own[ptr] == Extent(RoundUp(m), Live) && Now() == old(Now())
      ensures forall a :: a in old(own) && a != ptr && old(own)[a].kind == Live ==> a in own && own[a] == old(own)[a]
    {
      hide Sound, RoundUp, FreeListIndex, LiveSame, SameOutside;
      SmallIndex(n);
      SmallIndex(m);
      SoundArena(State());
      Deallocate(ptr, n);
      SoundArena(State());
      ghost var l := lists[FreeListIndex(m)];
      assert l[0] == ptr;
      result := Allocate(m, 0);
    }

    /** A rest of the arena as long as one block is not given away as one: it goes on the list of its size, behind the
        blocks of a new arena, and is lost when these are more than one. */
    method ExactFit(n: nat, got: nat) returns (result: nat)
      requires Valid() && 0 < n <= MAX_BYTES && |lists| == FREELISTS && FreeListIndex(n) < |lists| && lists[FreeListIndex(n)] == []
      requires endFree - startFree == RoundUp(n) && Region(own, startFree, endFree, got, BytesToGet(RoundUp(n), 10, heapSize))
      modifies this, freeList
      ensures Valid() && result == got && startFree == got + 10 * RoundUp(n)
      ensures lists == old(lists)[FreeListIndex(n) := Behind(got, RoundUp(n), 9)]
    {
      hide Sound, RoundUp, FreeListIndex, LiveSame, BytesToGet, Region, Behind;
      SmallIndex(n);
      MoreThanNothing(RoundUp(n), heapSize);
      result := Allocate(n, got);
      BytesSplit(RoundUp(n), 10);
    }

    /** A store by the owner of a live block. */
    method Write(ptr: nat, offset: nat, v: nat)
      requires Valid() && ptr in own && own[ptr].kind == Live && offset < own[ptr].len
      modifies this`mem
      ensures Valid() && mem == old(mem)[ptr + offset := v]
    {
      hide Sound;
      OwnerWrites(State(), ptr, ptr + offset, v);
      mem := mem[ptr + offset := v];
    }

    /** The words of the old block that the new one has room for. */
    ghost predicate Kept(mem0: map<nat, nat>, ptr: nat, result: nat, copySize: nat)
      reads this
    {
      forall w: nat :: 8 * (w + 1) <= copySize && ptr + 8 * w in mem0 ==>
                         result + 8 * w in mem && mem[result + 8 * w] == mem0[ptr + 8 * w]
    }

    /** TRReallocate: the words that both blocks have room for are kept, and no other live block is touched. */
    method Reallocate(ptr: nat, oldSize: nat, newSize: nat, got: nat) returns (result: nat)
      requires Valid() && oldSize > 0 && newSize > 0 && |lists| == FREELISTS && ptr in own && own[ptr] == Extent(BlockSize(oldSize), Live)
      requires oldSize > MAX_BYTES && newSize > MAX_BYTES ==> Region(Without(own, ptr), startFree, endFree, got, newSize)
      requires !(oldSize > MAX_BYTES && newSize > MAX_BYTES) && Demand(newSize) > 0 ==> Region(own, startFree, endFree, got, Demand(newSize))
      modifies this, freeList
      ensures Valid() && result in own && own[result] == Extent(BlockSize(newSize), Live)
      ensures forall a :: a in old(own) && a != ptr && old(own)[a].kind == Live ==> a in own && own[a] == old(own)[a]
      ensures result != ptr && ptr in own ==> own[ptr].kind != Live
      ensures forall a :: a in own && own[a].kind == Live && a != result ==> a in old(own) && a != ptr && old(own)[a] == own[a]
      ensures LiveSame(Without(old(own), ptr), old(mem), mem)
      ensures Kept(old(mem), ptr, result, if newSize > oldSize then oldSize else newSize)
    {
      hide Sound;
      if oldSize > MAX_BYTES && newSize > MAX_BYTES {
        result := Move(ptr, oldSize, newSize, got);
      } else if RoundUp(oldSize) == RoundUp(newSize) {
        LiveSelf(Without(own, ptr), mem);
        result := ptr;
      } else {
        result := CopyToNew(ptr, oldSize, newSize, got);
      }
    }

    /** realloc */
    method Move(ptr: nat, oldSize: nat, newSize: nat, got: nat) returns (result: nat)
      requires Valid() && oldSize > MAX_BYTES && newSize > MAX_BYTES && ptr in own && own[ptr] == Extent(oldSize, Live)
      requires Region(Without(own, ptr), startFree, endFree, got, newSize)
      modifies this`mem, this`own
      ensures Valid() && result in own && own[result] == Extent(newSize, Live)
      ensures forall a :: a in old(own) && a != ptr ==> a in own && own[a] == old(own)[a]
      ensures result != ptr ==> ptr !in own
      ensures forall a :: a in own && own[a].kind == Live && a != result ==> a in old(own) && a != ptr && old(own)[a] == own[a]
      ensures LiveSame(Without(old(own), ptr), old(mem), mem)
      ensures Kept(old(mem), ptr, result, if newSize > oldSize then oldSize else newSize)
    {
      hide Sound, Apart, Aligned, Clear, Copied, Region;
      var copySize := if newSize > oldSize then oldSize else newSize;
      MoveSound(State(), ptr, got, newSize, copySize / 8);
      CopiedAll(mem, mem, ptr, got, copySize / 8);
      CopiedOutside(mem, mem, ptr, got, copySize / 8);
      RegionIsOutside(Without(own, ptr), mem, Copied(mem, mem, ptr, got, copySize / 8), startFree, endFree, got, newSize, copySize / 8);
      own := Without(own, ptr)[got := Extent(newSize, Live)];
      mem := Copied(mem, mem, ptr, got, copySize / 8);
      result := got;
    }

    /** A new block, into which the old one is copied before it is given back. */
    method CopyToNew(ptr: nat, oldSize: nat, newSize: nat, got: nat) returns (result: nat)
      requires Valid() && oldSize > 0 && newSize > 0 && |lists| == FREELISTS && ptr in own && own[ptr] == Extent(BlockSize(oldSize), Live)
      requires Demand(newSize) > 0 ==> Region(own, startFree, endFree, got, Demand(newSize))
      modifies this, freeList
      ensures Valid() && result != ptr && result in own && own[result] == Extent(BlockSize(newSize), Live)
      ensures forall a :: a in old(own) && a != ptr && old(own)[a].kind == Live ==> a in own && own[a] == old(own)[a]
      ensures ptr in own ==> own[ptr].kind != Live
      ensures forall a :: a in own && own[a].kind == Live && a != result ==> a in old(own) && a != ptr && old(own)[a] == own[a]
      ensures LiveSame(Without(old(own), ptr), old(mem), mem)
      ensures Kept(old(mem), ptr, result, if newSize > oldSize then oldSize else newSize)
    {
      hide Sound, Apart, LiveSame, SameOutside, Region, Served, FreeListIndex, BytesToGet, Bytes, RoundUp, Without;
      ghost var mem0, others := mem, Without(own, ptr);
      WithoutIs(own, ptr);
      result := Allocate(newSize, got);
      ghost var mem1, own1 := mem, own;
      CopyInto(ptr, oldSize, newSize, result);
      LiveFewer(old(own), others, mem0, mem1);
      WithoutTwo(own1, ptr, result);
      LiveTwice(others, WithoutBoth(own1, ptr, result), mem0, mem1, mem);
      KeptThrough(mem0, mem1, mem, old(own), ptr, result, BlockSize(oldSize), if newSize > oldSize then oldSize else newSize);
    }

    /** The old block is copied into the new one and given back. */
    method CopyInto(ptr: nat, oldSize: nat, newSize: nat, result: nat)
      requires Valid() && oldSize > 0 && newSize > 0 && result != ptr
      requires ptr in own && own[ptr] == Extent(BlockSize(oldSize), Live) && result in own && own[result] == Extent(BlockSize(newSize), Live)
      modifies this, freeList
      ensures Valid() && (ptr in own ==> own[ptr].kind != Live)
      ensures forall a :: a in old(own) && a != ptr ==> a in own && own[a] == old(own)[a]
      ensures forall a :: a in own && a != ptr ==> a in old(own)
      ensures LiveSame(WithoutBoth(old(own), ptr, result), old(mem), mem)
      ensures forall w: nat :: 8 * (w + 1) <= (if newSize > oldSize then oldSize else newSize) && ptr + 8 * w in old(mem) ==>
                                 result + 8 * w in mem && mem[result + 8 * w] == old(mem)[ptr + 8 * w]
    {
      hide Sound, Apart, Copied, LiveSame, SameOutside, PutFirst, FreeListIndex, RoundUp, Without;
      ghost var mem1, own1 := mem, own;
      var copySize := if newSize > oldSize then oldSize else newSize;
      BlockCovers(oldSize);
      BlockCovers(newSize);
      CopiedSound(State(), mem, ptr, result, copySize / 8);
      CopiedAll(mem1, mem1, ptr, result, copySize / 8);
      CopiedOutside(mem1, mem1, ptr, result, copySize / 8);
      mem := Copied(mem, mem, ptr, result, copySize / 8);
      ghost var mem2 := mem;
      SoundArena(State());
      LiveApart(own, ptr, result);
      OthersStay(own1, result, mem1, mem2, result, result + 8 * (copySize / 8));
      Deallocate(ptr, oldSize);
      OthersStay(own1, ptr, mem2, mem, ptr, ptr + 1);
      BothStay(own1, ptr, result, mem1, mem2, mem);
      KeptWords(mem1, mem2, mem, ptr, result, BlockSize(oldSize), BlockSize(newSize), copySize);
    }
  }

  lemma BlockCovers(n: nat)
    ensures n <= BlockSize(n)
  {
  }

  function WithoutBoth(own: map<nat, Extent>, a: nat, b: nat): map<nat, Extent> {
    map x | x in own && x != a && x != b :: own[x]
  }

  lemma WithoutIs(own: map<nat, Extent>, ptr: nat)
    ensures forall a :: a in Without(own, ptr) <==> a in own && a != ptr
    ensures forall a :: a in Without(own, ptr) ==> Without(own, ptr)[a] == own[a]
  {
  }

  lemma WithoutTwo(own: map<nat, Extent>, ptr: nat, result: nat)
    ensures forall a :: a in WithoutBoth(own, ptr, result) <==> a in own && a != ptr && a != result
    ensures forall a :: a in WithoutBoth(own, ptr, result) ==> WithoutBoth(own, ptr, result)[a] == own[a]
  {
  }

  lemma BothStay(own: map<nat, Extent>, ptr: nat, result: nat, mem1: map<nat, nat>, mem2: map<nat, nat>, mem3: map<nat, nat>)
    requires LiveSame(Without(own, result), mem1, mem2) && LiveSame(Without(own, ptr), mem2, mem3)
    ensures LiveSame(WithoutBoth(own, ptr, result), mem1, mem3)
  {
    LiveFewer(Without(own, result), WithoutBoth(own, ptr, result), mem1, mem2);
    LiveFewer(Without(own, ptr), WithoutBoth(own, ptr, result), mem2, mem3);
    LiveTwice(WithoutBoth(own, ptr, result), WithoutBoth(own, ptr, result), mem1, mem2, mem3);
  }

  /** What was copied of the old block is what was in it before the new one was allocated. */
  lemma KeptThrough(mem0: map<nat, nat>, mem1: map<nat, nat>, mem3: map<nat, nat>, own: map<nat, Extent>, ptr: nat, result: nat, len: nat, copySize: nat)
    requires ptr in own && own[ptr] == Extent(len, Live) && LiveSame(own, mem0, mem1) && copySize <= len
    requires forall w: nat :: 8 * (w + 1) <= copySize && ptr + 8 * w in mem1 ==> result + 8 * w in mem3 && mem3[result + 8 * w] == mem1[ptr + 8 * w]
    ensures forall w: nat :: 8 * (w + 1) <= copySize && ptr + 8 * w in mem0 ==> result + 8 * w in mem3 && mem3[result + 8 * w] == mem0[ptr + 8 * w]
  {
    forall w: nat | 8 * (w + 1) <= copySize && ptr + 8 * w in mem0
      ensures result + 8 * w in mem3 && mem3[result + 8 * w] == mem0[ptr + 8 * w]
    {
      assert SameAt(mem0, mem1, ptr + 8 * w);
    }
  }

  function Without(own: map<nat, Extent>, ptr: nat): map<nat, Extent> {
    map x | x in own && x != ptr :: own[x]
  }

  lemma LiveApart(own: map<nat, Extent>, a: nat, b: nat)
    requires Apart(own) && a in own && b in own && a != b
    ensures a + own[a].len <= b || b + own[b].len <= a
  {
  }

  lemma LiveFewer(own: map<nat, Extent>, fewer: map<nat, Extent>, mem0: map<nat, nat>, mem1: map<nat, nat>)
    requires LiveSame(own, mem0, mem1) && forall a :: a in fewer ==> a in own && own[a] == fewer[a]
    ensures LiveSame(fewer, mem0, mem1)
  {
  }

  /** What changes inside one block changes no other. */
  lemma OthersStay(own: map<nat, Extent>, x: nat, mem0: map<nat, nat>, mem1: map<nat, nat>, lo: nat, hi: nat)
    requires Apart(own) && x in own && x <= lo <= hi <= x + own[x].len && SameOutside(mem0, mem1, lo, hi)
    ensures LiveSame(Without(own, x), mem0, mem1)
  {
    forall a, at: nat | a in Without(own, x) && own[a].kind == Live && a <= at < a + own[a].len ensures SameAt(mem0, mem1, at) {
      LiveApart(own, a, x);
    }
  }

  lemma RegionIsOutside(own: map<nat, Extent>, mem0: map<nat, nat>, mem1: map<nat, nat>, start: nat, end: nat, got: nat, n: nat, words: nat)
    requires Region(own, start, end, got, n) && 8 * words <= n && SameOutside(mem0, mem1, got, got + 8 * words)
    ensures LiveSame(own, mem0, mem1)
  {
    forall a, at: nat | a in own && own[a].kind == Live && a <= at < a + own[a].len ensures SameAt(mem0, mem1, at) {
      assert a + own[a].len <= got || got + n <= a;
    }
  }

  lemma LiveSelf(own: map<nat, Extent>, mem: map<nat, nat>)
    ensures LiveSame(own, mem, mem)
  {
  }

  /** A region from malloc comes into use. */
  lemma UseRegion(s: Space, got: nat, n: nat)
    requires Sound(s) && n > 0 && Region(s.own, s.start, s.end, got, n)
    ensures got !in s.own && Sound(s.(own := s.own[got := Extent(n, Live)]))
  {
    SoundArena(s);
    CutKeeps(s.own, got, got + n, n, Live);
    ArenaClear(s, got, Extent(n, Live));
    UseSound(s, got, Extent(n, Live));
  }

  lemma FirstIsHead(s: Space, k: nat)
    requires Sound(s) && k < FREELISTS && s.lists[k] != []
    ensures s.heads[k] == s.lists[k][0]
  {
    assert ListOk(s, k);
  }

  lemma MoreThanNothing(size: nat, heapSize: nat)
    requires size > 0
    ensures BytesToGet(size, NOBJS, heapSize) > 0
  {
    Times(1, NOBJS, size);
  }

  /** realloc of a block that malloc gave: it may move, or stay where it is. */
  lemma MoveSound(s: Space, ptr: nat, got: nat, n: nat, words: nat)
    requires Sound(s) && ptr in s.own && s.own[ptr].kind == Live && n > 0 && 8 * words <= n
    requires Region(Without(s.own, ptr), s.start, s.end, got, n)
    ensures got !in Without(s.own, ptr)
    ensures Sound(s.(own := Without(s.own, ptr)[got := Extent(n, Live)], mem := Copied(s.mem, s.mem, ptr, got, words)))
  {
    DropSound(s, ptr);
    var r := s.(own := Without(s.own, ptr));
    UseRegion(r, got, n);
    CopiedSound(r.(own := r.own[got := Extent(n, Live)]), s.mem, ptr, got, words);
  }

  lemma CopiedAll(src: map<nat, nat>, dst: map<nat, nat>, from: nat, to: nat, words: nat)
    ensures forall w: nat :: w < words && from + 8 * w in src ==>
                to + 8 * w in Copied(src, dst, from, to, words) && Copied(src, dst, from, to, words)[to + 8 * w] == src[from + 8 * w]
  {
    forall w: nat | w < words && from + 8 * w in src
      ensures to + 8 * w in Copied(src, dst, from, to, words) && Copied(src, dst, from, to, words)[to + 8 * w] == src[from + 8 * w]
    {
      CopiedReads(src, dst, from, to, words, w);
    }
  }

  /** Of the words copied, none has been lost on the way. */
  lemma KeptWords(mem1: map<nat, nat>, mem2: map<nat, nat>, mem3: map<nat, nat>, ptr: nat, result: nat, oldLen: nat, newLen: nat, copySize: nat)
    requires copySize <= oldLen && copySize <= newLen && oldLen > 0
    requires ptr + oldLen <= result || result + newLen <= ptr
    requires forall w: nat :: w < copySize / 8 && ptr + 8 * w in mem1 ==> result + 8 * w in mem2 && mem2[result + 8 * w] == mem1[ptr + 8 * w]
    requires SameOutside(mem2, mem3, ptr, ptr + 1)
    ensures forall w: nat :: 8 * (w + 1) <= copySize && ptr + 8 * w in mem1 ==>
                result + 8 * w in mem3 && mem3[result + 8 * w] == mem1[ptr + 8 * w]
  {
    forall w: nat | 8 * (w + 1) <= copySize && ptr + 8 * w in mem1
      ensures result + 8 * w in mem3 && mem3[result + 8 * w] == mem1[ptr + 8 * w]
    {
      assert w < copySize / 8;
      assert SameAt(mem2, mem3, result + 8 * w);
    }
  }

  /** A stretch taken from the start of the arena. */
  lemma TakeFacts(s: Space, n: nat)
    requires Sound(s) && s.start + n <= s.end && n % ALIGN == 0 && n > 0
    ensures Sound(s.(start := s.start + n)) && Clear(s.own, s.start, s.start + n) && s.start > 0 && s.start % ALIGN == 0
  {
    ArenaSound(s, s.start + n, s.end);
  }

  /** The arena is emptied into a list. */
  lemma LeftoverSound(s: Space, k: nat)
    requires Sound(s) && s.start < s.end && s.end - s.start == 8 * (k + 1) && k < FREELISTS
    ensures Sound(Push(s, k, s.start).(start := s.end, end := s.end)) && s.start !in s.own
  {
    ArenaSound(s, s.end, s.end);
    CutPush(s.(start := s.end), k, s.start);
  }

  lemma LeftoverClear(s: Space, got: nat, len: nat, e: Extent)
    requires s.start < s.end && e.len == s.end - s.start && Region(s.own, s.start, s.end, got, len)
    ensures Clear(s.own[s.start := e], got, got + len)
  {
  }

  lemma NewArena(s: Space, got: nat, len: nat, was: Space)
    requires Sound(s.(start := s.end)) && got > 0 && got % ALIGN == 0 && len % ALIGN == 0 && Clear(s.own, got, got + len)
    ensures Sound(s.(start := got, end := got + len))
  {
    ArenaSound(s.(start := s.end), got, got + len);
  }

  lemma StoredOne(mem: map<nat, nat>, at: nat, v: nat, lo: nat, hi: nat)
    requires lo <= at < hi
    ensures SameOutside(mem, mem[at := v], lo, hi)
  {
  }

  lemma SameSelf(mem: map<nat, nat>, lo: nat, hi: nat)
    ensures SameOutside(mem, mem, lo, hi)
  {
  }

  lemma LeftoverNew(s: Space)
    requires ArenaOk(s) && Aligned(s.own) && s.start < s.end
    ensures s.start !in s.own
  {
  }

  lemma ArenaIsClear(s: Space)
    requires ArenaOk(s)
    ensures s.start < s.end ==> Clear(s.own, s.start, s.end)
  {
  }

  /** The rest of the arena is new on the lists, and everything else is as it was. */
  lemma LeftoverKeeps(s: Space, own: map<nat, Extent>, n: nat)
    requires Sound(s)
    requires own == s.own || (s.start < s.end && own == s.own[s.start := Extent(s.end - s.start, Free(FreeListIndex(s.end - s.start)))])
    ensures forall a :: a in s.own ==> a in own && own[a] == s.own[a]
    ensures forall a :: a in own && a !in s.own ==> own[a].kind != Live
  {
    if s.start < s.end {
      LeftoverNew(s);
    }
  }

  /** Forgetting a list that was empty loses only what has just been put on it. */
  lemma ForgetKeeps(s: Space, middle: map<nat, Extent>, own: map<nat, Extent>, k: nat)
    requires Sound(s) && k < FREELISTS && s.lists[k] == []
    requires forall a :: a in s.own ==> a in middle && middle[a] == s.own[a]
    requires forall a :: a in middle && a !in s.own ==> middle[a].kind != Live
    requires forall a :: a in middle ==> a in own && own[a] == Forget(middle, k)[a]
    ensures forall a :: a in s.own ==> a in own && own[a] == s.own[a]
    ensures forall a :: a in middle && a !in s.own ==> own[a].kind != Live
  {
    NoneListed(s, k);
  }

  lemma BytesSplit(n: nat, nobjs: nat)
    requires nobjs > 0
    ensures Bytes(n, nobjs) == n + Bytes(n, nobjs - 1) && Bytes(n, nobjs - 1) == Span(n, nobjs - 1)
  {
    SpanIs(n, nobjs - 1);
  }

  lemma UseChunk(s: Space, chunk: nat, n: nat)
    requires Sound(s) && chunk > 0 && chunk % ALIGN == 0 && n > 0 && Clear(s.own, chunk, chunk + n)
    requires s.end <= chunk || chunk + n <= s.start
    ensures chunk !in s.own && Sound(s.(own := s.own[chunk := Extent(n, Live)]))
  {
    var e := Extent(n, Live);
    CutKeeps(s.own, chunk, chunk + n, n, Live);
    ArenaClear(s, chunk, e);
    UseSound(s, chunk, e);
  }

  /** The list is forgotten, the other blocks of the chunk become the list, and the first is live. */
  lemma KeepsFirst(s: Space, k: nat, chunk: nat, n: nat, nobjs: nat)
    requires Sound(s) && k < FREELISTS && n == 8 * (k + 1) && nobjs >= 2 && chunk > 0 && chunk % ALIGN == 0
    requires Clear(s.own, chunk, chunk + Bytes(n, nobjs)) && (s.end <= chunk || chunk + Bytes(n, nobjs) <= s.start)
    ensures var lost := s.(own := Forget(s.own, k), lists := s.lists[k := []], heads := s.heads[k := 0]);
            var built := Build(lost, k, chunk + n, nobjs - 1);
            && |s.heads| == |s.lists| == FREELISTS
            && Sound(built.(own := built.own[chunk := Extent(n, Live)])) && chunk !in built.own
            && (forall a :: a in built.own && a !in s.own ==> built.own[a].kind == Free(k))
            && (forall a :: a in s.own ==> a in built.own)
            && (forall a :: a in s.own ==> built.own[a] == Forget(s.own, k)[a])
  {
    hide Sound, Apart, Aligned, Build, Bytes, Listed, Linked, ListOk;
    SoundArena(s);
    BytesSplit(n, nobjs);
    ForgetSound(s, k);
    var lost := s.(own := Forget(s.own, k), lists := s.lists[k := []], heads := s.heads[k := 0]);
    ClearParts(lost.own, chunk, n, Bytes(n, nobjs));
    BuildSound(lost, k, chunk + n, nobjs - 1);
    UseChunk(Build(lost, k, chunk + n, nobjs - 1), chunk, n);
  }

  lemma ClearParts(own: map<nat, Extent>, at: nat, n: nat, total: nat)
    requires Clear(own, at, at + total) && n <= total
    ensures Clear(own, at, at + n) && Clear(own, at + n, at + total)
  {
  }

  /** The blocks that would be forgotten with an empty list: none. */
  lemma NoneListed(s: Space, k: nat)
    requires Sound(s) && k < FREELISTS && s.lists[k] == []
    ensures forall a :: a in s.own ==> s.own[a].kind != Free(k)
  {
    assert ListOk(s, k);
  }

  lemma Multiple(size: nat, n: nat)
    requires size % ALIGN == 0
    ensures Bytes(size, n) % ALIGN == 0 && (n > 0 ==> size <= Bytes(size, n))
  {
    var q := size / ALIGN;
    assert size == ALIGN * q;
    EightTimes(q, n);
    Eighth(q * n);
    if n > 0 {
      Times(1, n, size);
    }
  }

  lemma EightTimes(q: nat, n: nat)
    ensures ALIGN * q * n == ALIGN * (q * n)
  {
  }

  lemma Eighth(m: nat)
    ensures ALIGN * m % ALIGN == 0
  {
  }

  lemma Fits(left: nat, size: nat, nobjs: nat)
    requires size < left <= Bytes(size, nobjs)
    ensures 0 < left / size <= nobjs && Bytes(size, left / size) <= left
  {
    Division(left, size);
    if left / size > nobjs {
      Times(nobjs + 1, left / size, size);
    }
  }

  lemma Division(x: nat, q: nat)
    requires q > 0
    ensures x == q * (x / q) + x % q
  {
  }

  lemma Times(a: nat, b: nat, c: nat)
    requires a <= b
    ensures c * a <= c * b
  {
  }
}
