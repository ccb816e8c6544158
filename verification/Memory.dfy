/** The size-class allocator of libcwmp/src/memory.c over an integer address space. */
module Memory {
  // Blocks of one size per free list, linked through their own first word, cut from an arena that malloc
  // refills.

  const ALIGN := 8
  const MAX_BYTES := 128
  const FREELISTS := 32
  const NOBJS := 10

  /** TRSafeRoundUp */
  function RoundUp(bytes: nat): (r: nat)
    ensures r % ALIGN == 0 && bytes <= r < bytes + ALIGN
  {
    (bytes + ALIGN - 1) / ALIGN * ALIGN
  }

  /** TRSafeFreeListIndex; for no bytes at all it wraps, and no list has that index. */
  function FreeListIndex(bytes: nat): (k: nat)
    requires bytes > 0
    ensures 8 * (k + 1) == RoundUp(bytes)
  {
    (bytes + ALIGN - 1) / ALIGN - 1
  }

  lemma SmallIndex(bytes: nat)
    requires 0 < bytes <= MAX_BYTES
    ensures FreeListIndex(bytes) < 16 && RoundUp(bytes) <= MAX_BYTES && FreeListIndex(RoundUp(bytes)) == FreeListIndex(bytes)
  {
  }

  /** What an address is used for. Lost blocks are on no list any more and belong to nobody. */
  datatype Kind = Live | Free(k: nat) | Lost

  datatype Extent = Extent(len: nat, kind: Kind)

  /** All extents are apart. */
  predicate Apart(own: map<nat, Extent>) {
    forall a, b :: a in own && b in own && a < b ==> a + own[a].len <= b
  }

  predicate Clear(own: map<nat, Extent>, start: nat, end: nat) {
    forall a :: a in own ==> a + own[a].len <= start || end <= a
  }

  predicate Aligned(own: map<nat, Extent>) {
    forall a :: a in own ==> a > 0 && a % ALIGN == 0 && own[a].len > 0
  }

  /** Exactly the blocks of a list are marked as such, and they have the size of the list. */
  predicate Listed(own: map<nat, Extent>, list: seq<nat>, k: nat) {
    && (forall i :: 0 <= i < |list| ==> list[i] in own && own[list[i]] == Extent(8 * (k + 1), Free(k)))
    && (forall i, j :: 0 <= i < j < |list| ==> list[i] != list[j])
    && (forall a :: a in own && own[a].kind == Free(k) ==> a in list)
  }

  function Head(list: seq<nat>, i: nat): nat {
    if i < |list| then list[i] else 0
  }

  /** The first word of each block of a list links to the next. */
  predicate Linked(mem: map<nat, nat>, list: seq<nat>) {
    forall i :: 0 <= i < |list| ==> list[i] in mem && mem[list[i]] == Head(list, i + 1)
  }

  /** A region that malloc may return: aligned, and apart from everything in use. */
  predicate Region(own: map<nat, Extent>, start: nat, end: nat, at: nat, len: nat) {
    && at > 0 && at % ALIGN == 0 && len > 0 && Clear(own, at, at + len)
    && (end <= at || at + len <= start || start == end)
  }

  // ----- the address space ------------------------------------------------------------------------------

  lemma ClearKey(own: map<nat, Extent>, start: nat, end: nat)
    requires Clear(own, start, end) && Aligned(own) && start < end
    ensures start !in own
  {
  }

  /** A block cut from a clear stretch keeps everything apart. */
  lemma CutKeeps(own: map<nat, Extent>, start: nat, end: nat, len: nat, kind: Kind)
    requires Apart(own) && Aligned(own) && Clear(own, start, end) && 0 < len && start + len <= end
    requires start > 0 && start % ALIGN == 0
    ensures start !in own
    ensures var o := own[start := Extent(len, kind)];
            Apart(o) && Aligned(o) && Clear(o, start + len, end)
  {
    ClearKey(own, start, end);
  }

  lemma RemarkKeeps(own: map<nat, Extent>, a: nat, kind: Kind)
    requires Apart(own) && Aligned(own) && a in own
    ensures Apart(own[a := own[a].(kind := kind)]) && Aligned(own[a := own[a].(kind := kind)])
    ensures forall s: nat, e: nat :: Clear(own, s, e) ==> Clear(own[a := own[a].(kind := kind)], s, e)
  {
    var o := own[a := own[a].(kind := kind)];
    assert forall b :: b in o ==> b in own && o[b].len == own[b].len;
    forall s: nat, e: nat | Clear(own, s, e) ensures Clear(o, s, e) {
    }
  }

  // ----- the lists ------------------------------------------------------------------------------------------

  lemma PushKeeps(own: map<nat, Extent>, list: seq<nat>, k: nat, a: nat, mem: map<nat, nat>)
    requires Listed(own, list, k) && Linked(mem, list)
    requires a !in own || own[a].kind != Free(k)
    ensures var o := own[a := Extent(8 * (k + 1), Free(k))];
            Listed(o, [a] + list, k) && Linked(mem[a := Head(list, 0)], [a] + list)
  {
    var o := own[a := Extent(8 * (k + 1), Free(k))];
    var l := [a] + list;
    assert forall i :: 0 <= i < |list| ==> list[i] != a;
    assert forall b :: b in list ==> b in l;
    forall b | b in o && o[b].kind == Free(k) ensures b in l {
      if b != a {
        assert b in list;
      } else {
        assert l[0] == a;
      }
    }
    forall i | 0 <= i < |l| ensures mem[a := Head(list, 0)][l[i]] == Head(l, i + 1) {
      if i > 0 {
        assert l[i] == list[i - 1];
      }
    }
  }

  lemma PopKeeps(own: map<nat, Extent>, list: seq<nat>, k: nat, kind: Kind, mem: map<nat, nat>)
    requires Listed(own, list, k) && Linked(mem, list) && list != [] && kind != Free(k)
    ensures var o := own[list[0] := Extent(8 * (k + 1), kind)];
            Listed(o, list[1..], k) && Linked(mem, list[1..]) && mem[list[0]] == Head(list[1..], 0)
  {
    PopListed(own, list, k, kind);
    PopLinked(mem, list);
  }

  lemma PopLinked(mem: map<nat, nat>, list: seq<nat>)
    requires Linked(mem, list) && list != []
    ensures Linked(mem, list[1..]) && mem[list[0]] == Head(list[1..], 0)
  {
    forall i | 0 <= i < |list| - 1 ensures list[1..][i] in mem && mem[list[1..][i]] == Head(list[1..], i + 1) {
      assert list[1..][i] == list[i + 1];
    }
  }

  lemma PopListed(own: map<nat, Extent>, list: seq<nat>, k: nat, kind: Kind)
    requires Listed(own, list, k) && list != [] && kind != Free(k)
    ensures Listed(own[list[0] := Extent(8 * (k + 1), kind)], list[1..], k)
  {
    var o, tail := own[list[0] := Extent(8 * (k + 1), kind)], list[1..];
    forall b | b in o && o[b].kind == Free(k) ensures b in tail {
      InTail(list, b);
    }
  }

  lemma InTail(list: seq<nat>, b: nat)
    requires b in list && b != list[0]
    ensures b in list[1..]
  {
    var i :| 0 <= i < |list| && list[i] == b;
    assert list[1..][i - 1] == b;
  }

  /** A list is not concerned by an address that is on none and goes on none of its blocks. */
  lemma OtherKeeps(own: map<nat, Extent>, list: seq<nat>, k: nat, a: nat, e: Extent)
    requires Listed(own, list, k) && (a !in own || own[a].kind != Free(k)) && e.kind != Free(k)
    ensures Listed(own[a := e], list, k) && a !in list
  {
  }

  lemma WriteKeeps(mem: map<nat, nat>, list: seq<nat>, a: nat, v: nat)
    requires Linked(mem, list) && a !in list
    ensures Linked(mem[a := v], list)
  {
  }

  // ----- the whole state ----------------------------------------------------------------------------------

  /** The arena, the heads of the lists and the words in memory; and, as ghosts, what every address is used
      for and which blocks are on which list. */
  datatype Space = Space(start: nat, end: nat, heads: seq<nat>, mem: map<nat, nat>, own: map<nat, Extent>, lists: seq<seq<nat>>)

  predicate ListOk(s: Space, k: nat)
    requires k < |s.lists| && k < |s.heads|
  {
    Listed(s.own, s.lists[k], k) && Linked(s.mem, s.lists[k]) && s.heads[k] == Head(s.lists[k], 0)
  }

  predicate ArenaOk(s: Space) {
    s.start <= s.end && s.start % ALIGN == 0 && s.end % ALIGN == 0 && (s.start < s.end ==> s.start > 0 && Clear(s.own, s.start, s.end))
  }

  /** Live blocks, free blocks and the arena are apart, and every list holds exactly the free blocks of its
      size. */
  predicate Sound(s: Space) {
    && |s.heads| == |s.lists| == FREELISTS && Apart(s.own) && Aligned(s.own) && ArenaOk(s)
    && (forall k :: 0 <= k < FREELISTS ==> ListOk(s, k))
    && (forall a :: a in s.own && s.own[a].kind.Free? ==> s.own[a].kind.k < FREELISTS)
  }

  /** Puts a block of the right size on list `k`. */
  function Push(s: Space, k: nat, a: nat): Space
    requires |s.heads| == |s.lists| == FREELISTS && k < FREELISTS
  {
    s.(heads := s.heads[k := a], mem := s.mem[a := s.heads[k]],
       own := s.own[a := Extent(8 * (k + 1), Free(k))], lists := s.lists[k := [a] + s.lists[k]])
  }

  /** Takes the first block from list `k`. */
  function Pop(s: Space, k: nat): Space
    requires |s.heads| == |s.lists| == FREELISTS && k < FREELISTS && s.lists[k] != [] && s.heads[k] in s.mem
  {
    s.(heads := s.heads[k := s.mem[s.heads[k]]],
       own := s.own[s.heads[k] := Extent(8 * (k + 1), Live)], lists := s.lists[k := s.lists[k][1..]])
  }

  lemma PushSound(s: Space, k: nat, a: nat)
    requires Sound(s) && k < FREELISTS
    requires a in s.own && !s.own[a].kind.Free? && s.own[a].len == 8 * (k + 1)
    ensures Sound(Push(s, k, a))
  {
    hide Apart, Aligned, Clear, Listed, Linked, Head;
    var r := Push(s, k, a);
    var e := Extent(8 * (k + 1), Free(k));
    RemarkKeeps(s.own, a, Free(k));
    assert s.own[a].(kind := Free(k)) == e;
    forall j | 0 <= j < FREELISTS ensures ListOk(r, j) {
      assert ListOk(s, j);
      if j == k {
        PushKeeps(s.own, s.lists[k], k, a, s.mem);
        HeadOf(a, s.lists[k]);
      } else {
        OtherKeeps(s.own, s.lists[j], j, a, e);
        WriteKeeps(s.mem, s.lists[j], a, s.heads[k]);
      }
    }
  }

  lemma HeadOf(a: nat, list: seq<nat>)
    ensures Head([a] + list, 0) == a
  {
  }

  lemma PopSound(s: Space, k: nat)
    requires Sound(s) && k < FREELISTS && s.lists[k] != []
    ensures s.heads[k] in s.mem && s.heads[k] in s.own && s.own[s.heads[k]] == Extent(8 * (k + 1), Free(k)) && s.heads[k] > 0
    ensures Sound(Pop(s, k))
  {
    hide Apart, Aligned, Clear;
    assert ListOk(s, k);
    var a, e := s.heads[k], Extent(8 * (k + 1), Live);
    AlignedAt(s.own, a);
    PopKeeps(s.own, s.lists[k], k, Live, s.mem);
    var r := Pop(s, k);
    RemarkKeeps(s.own, a, Live);
    forall j | 0 <= j < FREELISTS ensures ListOk(r, j) {
      assert ListOk(s, j);
      if j != k {
        OtherKeeps(s.own, s.lists[j], j, a, e);
      }
    }
  }

  lemma AlignedAt(own: map<nat, Extent>, a: nat)
    requires Aligned(own) && a in own
    ensures a > 0 && a % ALIGN == 0 && own[a].len > 0
  {
  }

  /** An empty list, as its head says. */
  lemma HeadTells(s: Space, k: nat)
    requires Sound(s) && k < FREELISTS
    ensures s.heads[k] == 0 <==> s.lists[k] == []
  {
    assert ListOk(s, k);
  }

  /** A block that is on no list changes its use, or a new one comes into use, from outside the arena. */
  lemma UseSound(s: Space, a: nat, e: Extent)
    requires Sound(s) && !e.kind.Free? && (a in s.own ==> !s.own[a].kind.Free?)
    requires Apart(s.own[a := e]) && Aligned(s.own[a := e]) && ArenaOk(s.(own := s.own[a := e]))
    ensures Sound(s.(own := s.own[a := e]))
  {
    hide Apart, Aligned, Clear, Listed, Linked;
    var r := s.(own := s.own[a := e]);
    forall j | 0 <= j < FREELISTS ensures ListOk(r, j) {
      assert ListOk(s, j);
      OtherKeeps(s.own, s.lists[j], j, a, e);
    }
  }

  /** A block that nobody uses any more, given back to malloc. */
  lemma DropSound(s: Space, a: nat)
    requires Sound(s) && a in s.own && s.own[a].kind == Live
    ensures Sound(s.(own := map x | x in s.own && x != a :: s.own[x]))
  {
    hide Linked;
    var o := map x | x in s.own && x != a :: s.own[x];
    var r := s.(own := o);
    forall j | 0 <= j < FREELISTS ensures ListOk(r, j) {
      assert ListOk(s, j);
    }
  }

  lemma ArenaSound(s: Space, start: nat, end: nat)
    requires Sound(s) && ArenaOk(s.(start := start, end := end))
    ensures Sound(s.(start := start, end := end))
  {
    hide Apart, Aligned, Clear, Listed, Linked;
    var r := s.(start := start, end := end);
    forall j | 0 <= j < FREELISTS ensures ListOk(r, j) {
      assert ListOk(s, j);
    }
  }

  /** The owner of a live block may write any word of it. */
  lemma OwnerWrites(s: Space, a: nat, at: nat, v: nat)
    requires Sound(s) && a in s.own && s.own[a].kind == Live && a <= at < a + s.own[a].len
    ensures Sound(s.(mem := s.mem[at := v]))
  {
    hide Linked;
    var r := s.(mem := s.mem[at := v]);
    forall j | 0 <= j < FREELISTS ensures ListOk(r, j) {
      assert ListOk(s, j);
      WriteKeeps(s.mem, s.lists[j], at, v);
    }
  }

  /** Two live blocks never overlap, and none overlaps a free block or the arena. */
  lemma LiveIsApart(s: Space, a: nat, b: nat)
    requires Sound(s) && a in s.own && b in s.own && a != b
    ensures a + s.own[a].len <= b || b + s.own[b].len <= a
    ensures s.start < s.end ==> a + s.own[a].len <= s.start || s.end <= a
    ensures s.own[a].kind.Free? ==> s.own[a].len == 8 * (s.own[a].kind.k + 1) && a in s.lists[s.own[a].kind.k]
  {
    if s.own[a].kind.Free? {
      var k := s.own[a].kind.k;
      assert ListOk(s, k);
      var i :| 0 <= i < |s.lists[k]| && s.lists[k][i] == a;
    }
  }

  // ----- cutting a chunk into a list --------------------------------------------------------------------

  /** Blocks of a list that are forgotten, because its head is overwritten. */
  function Forget(own: map<nat, Extent>, k: nat): map<nat, Extent> {
    map a | a in own :: if own[a].kind == Free(k) then own[a].(kind := Lost) else own[a]
  }

  /** `count` blocks of list `k` from `first` on, each linked to the next. */
  function Build(s: Space, k: nat, first: nat, count: nat): (r: Space)
    requires |s.heads| == |s.lists| == FREELISTS && k < FREELISTS
    ensures |r.heads| == |r.lists| == FREELISTS && r.start == s.start && r.end == s.end
    decreases count
  {
    if count == 0 then s else Push(Build(s, k, first + 8 * (k + 1), count - 1), k, first)
  }

  /** The words that the loop of TRSafeRefill writes. */
  function LinkAll(mem: map<nat, nat>, first: nat, n: nat, count: nat): map<nat, nat>
    decreases count
  {
    if count == 0 then mem
    else LinkAll(mem[first := if count == 1 then 0 else first + n], first + n, n, count - 1)
  }

  lemma {:induction false} LinkAllKeeps(mem: map<nat, nat>, a: nat, v: nat, first: nat, n: nat, count: nat)
    requires a < first && n > 0
    ensures LinkAll(mem[a := v], first, n, count) == LinkAll(mem, first, n, count)[a := v]
    decreases count
  {
    if count > 0 {
      var w := if count == 1 then 0 else first + n;
      assert mem[a := v][first := w] == mem[first := w][a := v];
      LinkAllKeeps(mem[first := w], a, v, first + n, n, count - 1);
    }
  }

  /** The loop links the blocks as pushing them from the last one on would. */
  lemma {:induction false} LinkAllBuilds(s: Space, k: nat, first: nat, count: nat)
    requires |s.heads| == |s.lists| == FREELISTS && k < FREELISTS && s.heads[k] == 0
    ensures Build(s, k, first, count).mem == LinkAll(s.mem, first, 8 * (k + 1), count)
    ensures |Build(s, k, first, count).heads| == FREELISTS
    ensures Build(s, k, first, count).heads == s.heads[k := if count == 0 then 0 else first]
    decreases count
  {
    if count > 0 {
      var n := 8 * (k + 1);
      LinkAllBuilds(s, k, first + n, count - 1);
      LinkAllKeeps(s.mem, first, if count == 1 then 0 else first + n, first + n, n, count - 1);
    }
  }

  function Span(n: nat, count: nat): (r: nat) {
    if count == 0 then 0 else n + Span(n, count - 1)
  }

  lemma {:induction false} SpanIs(n: nat, count: nat)
    ensures Span(n, count) == n * count
  {
    if count > 0 {
      SpanIs(n, count - 1);
    }
  }

  /** The new blocks are apart from each other and from everything else. */
  lemma {:induction false} BuildSound(s: Space, k: nat, first: nat, count: nat)
    requires Sound(s) && k < FREELISTS && first > 0 && first % ALIGN == 0
    requires Clear(s.own, first, first + Span(8 * (k + 1), count))
    requires s.start == s.end || s.end <= first || first + Span(8 * (k + 1), count) <= s.start
    ensures var r := Build(s, k, first, count);
            && Sound(r) && r.start == s.start && r.end == s.end
            && (forall a :: a in r.own && a !in s.own ==> r.own[a].kind == Free(k))
            && (forall a :: a in s.own ==> a in r.own)
            && (forall a :: a in s.own ==> r.own[a] == s.own[a])
            && (forall lo: nat, hi: nat :: hi <= first && Clear(s.own, lo, hi) ==> Clear(r.own, lo, hi))
    decreases count
  {
    hide Sound, Apart, Aligned;
    if count > 0 {
      var n := 8 * (k + 1);
      assert first + Span(n, count) == first + n + Span(n, count - 1);
      SoundArena(s);
      BuildSound(s, k, first + n, count - 1);
      var m := Build(s, k, first + n, count - 1);
      assert Clear(s.own, first, first + n);
      CutPush(m, k, first);
    }
  }

  lemma SoundArena(s: Space)
    requires Sound(s)
    ensures ArenaOk(s) && Apart(s.own) && Aligned(s.own) && |s.heads| == |s.lists| == FREELISTS
  {
  }

  /** A block is cut from a clear stretch and put on its list. */
  lemma CutPush(s: Space, k: nat, a: nat)
    requires Sound(s) && k < FREELISTS && a > 0 && a % ALIGN == 0 && Clear(s.own, a, a + 8 * (k + 1))
    requires s.start == s.end || s.end <= a || a + 8 * (k + 1) <= s.start
    ensures a !in s.own && Sound(Push(s, k, a))
  {
    hide Sound, Apart, Aligned, Clear;
    SoundArena(s);
    var e := Extent(8 * (k + 1), Live);
    CutKeeps(s.own, a, a + 8 * (k + 1), 8 * (k + 1), Live);
    ArenaClear(s, a, e);
    UseSound(s, a, e);
    var r := s.(own := s.own[a := e]);
    PushSound(r, k, a);
    assert r.own[a := Extent(8 * (k + 1), Free(k))] == s.own[a := Extent(8 * (k + 1), Free(k))];
    assert Push(r, k, a) == Push(s, k, a);
  }

  lemma ArenaClear(s: Space, a: nat, e: Extent)
    requires ArenaOk(s) && (s.start == s.end || s.end <= a || a + e.len <= s.start)
    ensures ArenaOk(s.(own := s.own[a := e]))
  {
  }

  /** Forgetting the blocks of a list makes them lost, and nothing worse. */
  lemma ForgetSound(s: Space, k: nat)
    requires Sound(s) && k < FREELISTS
    ensures Sound(s.(own := Forget(s.own, k), lists := s.lists[k := []], heads := s.heads[k := 0]))
    ensures forall lo: nat, hi: nat :: Clear(s.own, lo, hi) ==> Clear(Forget(s.own, k), lo, hi)
  {
    var r := s.(own := Forget(s.own, k), lists := s.lists[k := []], heads := s.heads[k := 0]);
    forall j | 0 <= j < FREELISTS ensures ListOk(r, j) {
      assert ListOk(s, j);
    }
  }
}
