/** The chained hash table of libcwmp/src/hashtab.c with the string keys of libcwmp/src/paratab.c: it
    refines a finite map. */
module Hashtab {
  import opened Bits
  import opened Words

  datatype Option<T> = None | Some(value: T)

  // ----- paratab.c ----------------------------------------------------------------------------------

  /** A byte as a signed char, widened to 32 bits. */
  function Widened(c: char): Word {
    if c as int < 128 then c as int else if c as int < 256 then UNSIGNED_INT - 256 + c as int else 0
  }

  function HashFrom(key: string, val: Word): Word {
    if key == "" then val else HashFrom(key[1..], Xor(RotateLeft(val, 4), Widened(key[0])))
  }

  lemma {:induction false} CombineBelow(x: nat, y: nat, n: nat)
    ensures Combine(Conjunction, x, y, n) <= y
  {
    if n > 0 {
      CombineBelow(x / 2, y / 2, n - 1);
    }
  }

  /** Every character turns the value left by four bits and is then combined with it. */
  lemma {:induction false} HashAppends(key: string, c: char, val: Word)
    ensures HashFrom(key + [c], val) == Xor(RotateLeft(HashFrom(key, val), 4), Widened(c))
  {
    hide Xor, RotateLeft, Widened;
    if key == "" {
      assert "" + [c] == [c] && [c][1..] == "";
    } else {
      assert (key + [c])[1..] == key[1..] + [c];
      HashAppends(key[1..], c, Xor(RotateLeft(val, 4), Widened(key[0])));
    }
  }

  /** In a table whose size is a power of two the slot is the remainder of the value. */
  lemma HashMasks(key: string, size: Word, k: nat)
    requires size == Power2(k) && k < 32
    ensures ParaHash(key, size) == HashFrom(key, 0) % size
    ensures ParaHash("", size) == 0
  {
    hide HashFrom;
    MaskTakes(HashFrom(key, 0), k, 32);
    MaskTakes(0, k, 32);
    NothingHashed();
  }

  lemma NothingHashed()
    ensures HashFrom("", 0) == 0
  {
  }

  lemma {:induction false} MaskTakes(x: nat, k: nat, n: nat)
    requires k <= n
    ensures Combine(Conjunction, x, Power2(k) - 1, n) == x % Power2(k)
  {
    if n == 0 {
    } else if k == 0 {
      MaskNothing(x, n);
    } else {
      MaskTakes(x / 2, k - 1, n - 1);
      LowBit(x, Power2(k - 1));
    }
  }

  lemma {:induction false} MaskNothing(x: nat, n: nat)
    ensures Combine(Conjunction, x, 0, n) == 0
  {
    if n > 0 {
      MaskNothing(x / 2, n - 1);
    }
  }

  lemma LowBit(x: nat, p: nat)
    requires p > 0
    ensures x % (2 * p) == x % 2 + 2 * (x / 2 % p)
    ensures (2 * p - 1) % 2 == 1 && (2 * p - 1) / 2 == p - 1
  {
    var h, l := x / 2 / p, x / 2 % p;
    Division(x / 2, p);
    assert x == 2 * (x / 2) + x % 2;
    assert 2 * (h * p + l) + x % 2 == h * (2 * p) + (2 * l + x % 2);
    Quotient(h, 2 * l + x % 2, 2 * p);
  }

  /** parahash: always a slot of the table, whatever its size. */
  function ParaHash(key: string, size: Word): (slot: Word)
    requires size > 0
    ensures slot < size
  {
    CombineBelow(HashFrom(key, 0), size - 1, 32);
    And(HashFrom(key, 0), size - 1)
  }

  /** parahash */
  method Parahash(key: string, size: Word) returns (slot: Word)
    requires size > 0
    ensures slot == ParaHash(key, size)
  {
    hide Xor, RotateLeft, And;
    var val, p := 0, 0;
    assert key[0..] == key;
    while p < |key|
      invariant 0 <= p <= |key| && 0 <= val < UNSIGNED_INT && HashFrom(key[p..], val) == HashFrom(key, 0)
    {
      assert key[p..][1..] == key[p + 1..];
      val := Xor(RotateLeft(val, 4), Widened(key[p]));
      p := p + 1;
    }
    slot := And(val, size - 1);
  }

  /** strcmp */
  function Compare(a: string, b: string): int {
    if a == "" && b == "" then 0
    else if a == "" then -1
    else if b == "" then 1
    else if a[0] != b[0] then a[0] as int - b[0] as int
    else Compare(a[1..], b[1..])
  }

  lemma {:induction false} CompareEqual(a: string, b: string)
    ensures Compare(a, b) == 0 <==> a == b
  {
    if a != "" && b != "" && a[0] == b[0] {
      CompareEqual(a[1..], b[1..]);
      assert a == [a[0]] + a[1..] && b == [b[0]] + b[1..];
    }
  }

  /** The first difference decides, and a string is above its own beginnings. */
  lemma {:induction false} CompareDecides(p: string, a: char, s: string, b: char, t: string)
    ensures a < b ==> Compare(p + [a] + s, p + [b] + t) < 0
    ensures Compare(p, p + [a] + s) < 0
  {
    if p == "" {
      assert p + [a] + s == [a] + s && p + [b] + t == [b] + t;
    } else {
      assert (p + [a] + s)[1..] == p[1..] + [a] + s && (p + [b] + t)[1..] == p[1..] + [b] + t;
      CompareDecides(p[1..], a, s, b, t);
    }
  }

  lemma {:induction false} CompareTurns(a: string, b: string)
    ensures Compare(a, b) < 0 <==> Compare(b, a) > 0
  {
    if a != "" && b != "" && a[0] == b[0] {
      CompareTurns(a[1..], b[1..]);
    }
  }

  lemma {:induction false} CompareChains(a: string, b: string, c: string)
    requires Compare(a, b) < 0 && Compare(b, c) < 0
    ensures Compare(a, c) < 0
  {
    if a != "" && b != "" && c != "" && a[0] == b[0] == c[0] {
      CompareChains(a[1..], b[1..], c[1..]);
    }
  }

  // ----- chains ---------------------------------------------------------------------------------------

  class Node<V> {
    const key: string
    const datum: V
    var next: Node?<V>

    constructor (key: string, datum: V)
      ensures this.key == key && this.datum == datum && next == null
    {
      this.key, this.datum, next := key, datum, null;
    }
  }

  ghost predicate Sorted<V>(c: seq<Node<V>>) {
    forall j, k :: 0 <= j < k < |c| ==> Compare(c[j].key, c[k].key) < 0
  }

  function NodeAt<V>(c: seq<Node<V>>, j: nat): Node?<V> {
    if j < |c| then c[j] else null
  }

  ghost predicate Linked<V>(first: Node?<V>, c: seq<Node<V>>)
    reads c
  {
    first == NodeAt(c, 0) && forall j :: 0 <= j < |c| ==> c[j].next == NodeAt(c, j + 1)
  }

  ghost predicate Has<V>(c: seq<Node<V>>, key: string) {
    exists j :: 0 <= j < |c| && c[j].key == key
  }

  /** In a sorted chain the search may stop at the first key that is not below. */
  lemma StopsRightly<V>(c: seq<Node<V>>, key: string, j: nat)
    requires Sorted(c) && j <= |c|
    requires forall k :: 0 <= k < j ==> Compare(key, c[k].key) > 0
    requires j < |c| ==> Compare(key, c[j].key) <= 0
    ensures Has(c, key) <==> j < |c| && c[j].key == key
  {
    if Has(c, key) {
      var k :| 0 <= k < |c| && c[k].key == key;
      CompareEqual(key, key);
      if j < k {
        CompareTurns(c[j].key, c[k].key);
      }
    }
    if j < |c| {
      CompareEqual(key, c[j].key);
    }
  }

  function Inserted<T>(s: seq<T>, j: nat, x: T): seq<T>
    requires j <= |s|
  {
    s[..j] + [x] + s[j..]
  }

  lemma InsertSorted<V>(c: seq<Node<V>>, n: Node<V>, j: nat)
    requires Sorted(c) && j <= |c|
    requires forall k :: 0 <= k < j ==> Compare(n.key, c[k].key) > 0
    requires j < |c| ==> Compare(n.key, c[j].key) < 0
    ensures Sorted(Inserted(c, j, n))
  {
    var r := Inserted(c, j, n);
    forall a, b | 0 <= a < b < |r| ensures Compare(r[a].key, r[b].key) < 0 {
      if a == j {
        if j < b - 1 {
          CompareChains(n.key, c[j].key, c[b - 1].key);
        }
      } else if b == j {
        CompareTurns(c[a].key, n.key);
      }
    }
  }

  lemma InsertHas<V>(c: seq<Node<V>>, n: Node<V>, j: nat, key: string)
    requires j <= |c|
    ensures Has(Inserted(c, j, n), key) <==> Has(c, key) || n.key == key
  {
    var r := Inserted(c, j, n);
    if Has(c, key) {
      var k :| 0 <= k < |c| && c[k].key == key;
      assert r[if k < j then k else k + 1].key == key;
    }
    assert r[j] == n;
  }

  // ----- the table ------------------------------------------------------------------------------------

  const MAX_NODES := 0xffff_ffff

  class Table<V(==)> {
    const htable: array<Node?<V>>
    const size: Word
    var nel: Word
    ghost var chains: seq<seq<Node<V>>>
    /** The map that the table stands for. */
    ghost var contents: map<string, V>

    ghost predicate ChainOk(b: nat)
      requires b < |chains|
      reads this
    {
      Sorted(chains[b]) && forall j :: 0 <= j < |chains[b]| ==>
                                         size > 0 && ParaHash(chains[b][j].key, size) == b && chains[b][j].key in contents
                                         && contents[chains[b][j].key] == chains[b][j].datum
    }

    ghost predicate Valid()
      reads this, htable, NodesOf(chains)
    {
      && 0 < size == htable.Length == |chains|
      && (forall b :: 0 <= b < |chains| ==> ChainOk(b))
      && (forall b :: 0 <= b < |chains| ==> Linked(htable[b], chains[b]))
      && (forall key :: key in contents ==> Has(chains[ParaHash(key, size)], key))
      && nel == |contents|
    }

    /** hashtab_create */
    constructor (size: Word)
      requires size > 0
      ensures Valid() && contents == map[] && this.size == size && fresh(htable) && NodesOf(chains) == {}
    {
      this.size, nel := size, 0;
      htable := new Node?<V>[size](_ => null);
      chains, contents := seq(size, _ => []), map[];
    }

    lemma Slots()
      requires Valid()
      ensures 0 < size == htable.Length == |chains| && nel == |contents|
    {
    }

    lemma Bucket(b: nat)
      requires Valid() && b < |chains|
      ensures b < htable.Length && ChainOk(b) && Linked(htable[b], chains[b])
    {
    }

    lemma Buckets()
      requires Valid()
      ensures forall b :: 0 <= b < |chains| ==> Linked(htable[b], chains[b])
    {
    }

    lemma BucketHas(key: string)
      requires Valid()
      ensures size > 0 && ParaHash(key, size) < |chains|
      ensures Has(chains[ParaHash(key, size)], key) <==> key in contents
    {
      var b := ParaHash(key, size);
      assert ChainOk(b);
    }

    /** The walk along a chain to the first key that is not below. */
    static method Walk(first: Node?<V>, key: string, ghost c: seq<Node<V>>) returns (prev: Node?<V>, cur: Node?<V>, ghost j: nat)
      requires Linked(first, c)
      ensures j <= |c| && cur == NodeAt(c, j) && prev == (if j > 0 then c[j - 1] else null)
      ensures forall k :: 0 <= k < j ==> Compare(key, c[k].key) > 0
      ensures cur != null ==> Compare(key, cur.key) <= 0
    {
      hide Compare;
      prev, cur, j := null, first, 0;
      while cur != null && Compare(key, cur.key) > 0
        invariant j <= |c| && cur == NodeAt(c, j) && prev == (if j > 0 then c[j - 1] else null)
        invariant forall k :: 0 <= k < j ==> Compare(key, c[k].key) > 0
        decreases |c| - j
      {
        prev := cur;
        cur := cur.next;
        j := j + 1;
      }
    }

    lemma SortedChain(b: nat)
      requires b < |chains| && ChainOk(b)
      ensures Sorted(chains[b])
      ensures forall j :: 0 <= j < |chains[b]| ==>
                            chains[b][j].key in contents && contents[chains[b][j].key] == chains[b][j].datum
    {
      hide Sorted;
    }

    /** hashtab_search */
    method Search(key: string) returns (datum: Option<V>)
      requires Valid()
      ensures datum == if key in contents then Some(contents[key]) else None
    {
      hide ParaHash, Valid, Compare, Sorted, Has, Linked;
      Slots();
      BucketHas(key);
      Bucket(ParaHash(key, size));
      var hvalue := Parahash(key, size);
      var prev, cur;
      ghost var j;
      prev, cur, j := Walk(htable[hvalue], key, chains[hvalue]);
      SortedChain(hvalue);
      StopsRightly(chains[hvalue], key, j);
      if cur == null || Compare(key, cur.key) != 0 {
        if cur != null {
          CompareEqual(key, cur.key);
        }
        return None;
      }
      CompareEqual(key, cur.key);
      datum := Some(cur.datum);
    }

    /** hashtab_insert: it fails on a key that is present, and on a full table. */
    method Insert(key: string, datum: V) returns (ret: int)
      requires Valid()
      modifies this, htable, NodesOf(chains)
      ensures Valid()
      ensures ret == if old(nel) == MAX_NODES then -3 else if key in old(contents) then -2 else 0
      ensures contents == if ret == 0 then old(contents)[key := datum] else old(contents)
      ensures NodesOf(old(chains)) <= NodesOf(chains) && fresh(NodesOf(chains) - NodesOf(old(chains)))
    {
      hide ParaHash, Compare, Sorted, Has, Valid, Linked;
      Slots();
      if nel == MAX_NODES {
        return -3;
      }
      BucketHas(key);
      Bucket(ParaHash(key, size));
      var hvalue := Parahash(key, size);
      var prev, cur;
      ghost var j;
      prev, cur, j := Walk(htable[hvalue], key, chains[hvalue]);
      SortedChain(hvalue);
      StopsRightly(chains[hvalue], key, j);
      if cur != null {
        CompareEqual(key, cur.key);
        if Compare(key, cur.key) == 0 {
          return -2;
        }
      }
      Link(key, datum, hvalue, prev, j);
      ret := 0;
    }

    /** The new node, behind `prev` or at the head of its chain. */
    method Link(key: string, datum: V, b: nat, prev: Node?<V>, ghost j: nat)
      requires Valid() && b < |chains| && b == ParaHash(key, size) && nel < MAX_NODES && key !in contents
      requires j <= |chains[b]| && prev == (if j > 0 then chains[b][j - 1] else null)
      requires forall k :: 0 <= k < j ==> Compare(key, chains[b][k].key) > 0
      requires j < |chains[b]| ==> Compare(key, chains[b][j].key) < 0
      modifies this, htable, NodesOf(chains)
      ensures Valid() && contents == old(contents)[key := datum]
      ensures NodesOf(old(chains)) <= NodesOf(chains) && fresh(NodesOf(chains) - NodesOf(old(chains)))
    {
      hide ParaHash, Compare, Sorted, Has, Linked;
      Apart(b, j);
      ghost var was := chains;
      assert ChainOk(b);
      var newnode := Splice(key, datum, b, prev, j);
      InsertSorted(was[b], newnode, j);
      forall a | 0 <= a < |was| ensures ChainOk(a) {
        assert old(ChainOk(a));
      }
      NodesExtend(was, b, j, newnode);
      Extend(b, j, newnode, Inserted(was[b], j, newnode));
    }

    /** The pointers of the new node; all other chains stay linked. */
    method Splice(key: string, datum: V, b: nat, prev: Node?<V>, ghost j: nat) returns (newnode: Node<V>)
      requires b < |chains| == htable.Length && forall a :: 0 <= a < |chains| ==> Linked(htable[a], chains[a])
      requires j <= |chains[b]| && prev == (if j > 0 then chains[b][j - 1] else null)
      requires j > 0 ==> forall a, k :: 0 <= a < |chains| && 0 <= k < |chains[a]| && chains[a][k] == chains[b][j - 1] ==> a == b && k == j - 1
      modifies htable, NodesOf(chains)
      ensures fresh(newnode) && newnode.key == key && newnode.datum == datum
      ensures Linked(htable[b], Inserted(chains[b], j, newnode))
      ensures forall a :: 0 <= a < |chains| && a != b ==> Linked(htable[a], chains[a])
    {
      ghost var c := chains[b];
      assert Linked(htable[b], c);
      if prev != null {
        newnode := SpliceBehind(key, datum, prev, htable[b], c, j);
      } else {
        newnode := new Node<V>(key, datum);
        newnode.next := htable[b];
        htable[b] := newnode;
        FirstLinked(newnode, c);
      }
      forall a | 0 <= a < |chains| && a != b ensures Linked(htable[a], chains[a]) {
        assert old(Linked(htable[a], chains[a]));
      }
    }

    static lemma FirstLinked(n: Node<V>, c: seq<Node<V>>)
      requires Linked(n.next, c)
      ensures Linked(n, Inserted(c, 0, n))
    {
      var r := Inserted(c, 0, n);
      forall k | 0 <= k < |r| ensures r[k].next == NodeAt(r, k + 1) {
      }
    }

    static method SpliceBehind(key: string, datum: V, prev: Node<V>, first: Node?<V>, ghost c: seq<Node<V>>, ghost j: nat) returns (newnode: Node<V>)
      requires 0 < j <= |c| && prev == c[j - 1] && Linked(first, c)
      requires forall k :: 0 <= k < |c| && c[k] == prev ==> k == j - 1
      modifies prev`next
      ensures fresh(newnode) && newnode.key == key && newnode.datum == datum
      ensures Linked(first, Inserted(c, j, newnode))
    {
      newnode := new Node<V>(key, datum);
      newnode.next := prev.next;
      prev.next := newnode;
      ghost var r := Inserted(c, j, newnode);
      forall k | 0 <= k < |r| ensures r[k].next == NodeAt(r, k + 1) {
        if k < j - 1 {
          assert r[k] == c[k] && old(c[k].next) == c[k + 1];
        } else if k > j {
          assert r[k] == c[k - 1] && old(c[k - 1].next) == NodeAt(c, k);
        }
      }
    }

    /** The count and the ghost map of the table with one node more. */
    method Extend(b: nat, ghost j: nat, newnode: Node<V>, ghost longer: seq<Node<V>>)
      requires 0 < size == htable.Length == |chains| && b < |chains| && j <= |chains[b]| && longer == Inserted(chains[b], j, newnode)
      requires newnode.key !in contents && ParaHash(newnode.key, size) == b && nel == |contents| && nel < MAX_NODES
      requires Sorted(longer) && Linked(htable[b], longer) && forall a :: 0 <= a < |chains| ==> ChainOk(a)
      requires forall a :: 0 <= a < |chains| && a != b ==> Linked(htable[a], chains[a])
      requires forall key :: key in contents ==> Has(chains[ParaHash(key, size)], key)
      modifies this
      ensures Valid() && contents == old(contents)[newnode.key := newnode.datum]
      ensures chains == old(chains)[b := longer]
    {
      hide ParaHash, Compare, Sorted, Has, Linked;
      ghost var was := chains;
      nel := nel + 1;
      chains := chains[b := longer];
      contents := contents[newnode.key := newnode.datum];
      forall a | 0 <= a < |chains| ensures ChainOk(a) {
        assert old(ChainOk(a));
      }
      forall key | key in contents ensures Has(chains[ParaHash(key, size)], key) {
        InsertHas(was[b], newnode, j, key);
      }
    }

    /** A node stands in one place of one chain only. */
    lemma Apart(b: nat, j: nat)
      requires Valid() && b < |chains|
      ensures 0 < j <= |chains[b]| ==>
                forall a, k :: 0 <= a < |chains| && 0 <= k < |chains[a]| && chains[a][k] == chains[b][j - 1] ==> a == b && k == j - 1
    {
      if 0 < j <= |chains[b]| {
        forall a, k | 0 <= a < |chains| && 0 <= k < |chains[a]| && chains[a][k] == chains[b][j - 1] ensures a == b && k == j - 1 {
          assert ChainOk(a) && ChainOk(b);
          CompareEqual(chains[a][k].key, chains[a][k].key);
        }
      }
    }
  }

  ghost function NodesOf<V>(chains: seq<seq<Node<V>>>): set<Node<V>> {
    set b, j | 0 <= b < |chains| && 0 <= j < |chains[b]| :: chains[b][j]
  }

  lemma NodesExtend<V>(chains: seq<seq<Node<V>>>, b: nat, j: nat, n: Node<V>)
    requires b < |chains| && j <= |chains[b]|
    ensures NodesOf(chains[b := Inserted(chains[b], j, n)]) == NodesOf(chains) + {n}
  {
    var c := Inserted(chains[b], j, n);
    var r := chains[b := c];
    forall x | x in NodesOf(chains) ensures x in NodesOf(r) {
      var a, k :| 0 <= a < |chains| && 0 <= k < |chains[a]| && chains[a][k] == x;
      if a == b {
        assert r[a][if k < j then k else k + 1] == x;
      } else {
        assert r[a][k] == x;
      }
    }
    assert r[b][j] == n;
    forall x | x in NodesOf(r) ensures x in NodesOf(chains) || x == n {
      var a, k :| 0 <= a < |r| && 0 <= k < |r[a]| && r[a][k] == x;
      if a == b && k != j {
        assert x == chains[b][if k < j then k else k - 1];
      } else if a != b {
        assert x == chains[a][k];
      }
    }
  }

  // ----- walking over all entries -----------------------------------------------------------------------

  /** The entries of the first chains, in the order in which they stand. */
  function Flat<V>(chains: seq<seq<Node<V>>>): seq<Node<V>> {
    if chains == [] then [] else Flat(chains[..|chains| - 1]) + chains[|chains| - 1]
  }

  /** What hashtab_map returns and the entries it has visited: all of them while `apply` returns zero. */
  function Visit<V>(s: seq<Node<V>>, apply: (string, V) -> int): (r: (int, nat))
    ensures r.1 <= |s|
  {
    if s == [] then (0, 0)
    else
      var ret := apply(s[0].key, s[0].datum);
      if ret != 0 then (ret, 1) else (Visit(s[1..], apply).0, 1 + Visit(s[1..], apply).1)
  }

  lemma {:induction false} VisitJoins<V>(a: seq<Node<V>>, b: seq<Node<V>>, apply: (string, V) -> int)
    ensures Visit(a + b, apply) ==
            if Visit(a, apply).0 != 0 then Visit(a, apply) else (Visit(b, apply).0, |a| + Visit(b, apply).1)
  {
    if a == [] {
      assert a + b == b;
    } else {
      assert (a + b)[1..] == a[1..] + b;
      VisitJoins(a[1..], b, apply);
    }
  }

  /** A visit that is not stopped has seen every entry; one that is has seen them up to the one it stops at. */
  lemma {:induction false} VisitMeans<V>(s: seq<Node<V>>, apply: (string, V) -> int)
    ensures var (ret, n) := Visit(s, apply);
            && (forall k :: 0 <= k < n - (if ret == 0 then 0 else 1) ==> apply(s[k].key, s[k].datum) == 0)
            && (if ret == 0 then n == |s| else n > 0 && ret == apply(s[n - 1].key, s[n - 1].datum))
  {
    if s != [] {
      VisitMeans(s[1..], apply);
    }
  }

  method VisitChain<V>(first: Node?<V>, ghost c: seq<Node<V>>, apply: (string, V) -> int) returns (ret: int, ghost visited: nat)
    requires Linked(first, c)
    ensures (ret, visited) == Visit(c, apply)
  {
    var cur := first;
    visited, ret := 0, 0;
    assert c[0..] == c;
    while cur != null
      invariant visited <= |c| && cur == NodeAt(c, visited) && ret == 0
      invariant Visit(c, apply) == (Visit(c[visited..], apply).0, visited + Visit(c[visited..], apply).1)
      decreases |c| - visited
    {
      assert c[visited..][1..] == c[visited + 1..];
      ret := apply(cur.key, cur.datum);
      visited := visited + 1;
      if ret != 0 {
        return;
      }
      cur := cur.next;
    }
  }

  lemma FlatNothing<V>()
    ensures Flat<V>([]) == []
  {
  }

  lemma VisitNothing<V>(apply: (string, V) -> int)
    ensures Visit([], apply) == (0, 0)
  {
  }

  /** hashtab_map */
  method Map<V>(h: Table<V>, apply: (string, V) -> int) returns (ret: int, ghost visited: nat)
    requires h.Valid()
    ensures (ret, visited) == Visit(Flat(h.chains), apply)
  {
    hide Table.Valid, Table.ChainOk, Visit, Flat;
    h.Slots();
    h.Buckets();
    FlatNothing<V>();
    VisitNothing(apply);
    visited, ret := 0, 0;
    var i := 0;
    assert h.chains[..0] == [];
    while i < h.size
      invariant 0 <= i <= h.size && ret == 0 && (ret, visited) == Visit(Flat(h.chains[..i]), apply)
      invariant forall b :: 0 <= b < h.size ==> Linked(h.htable[b], h.chains[b])
    {
      FlatStep(h.chains, i);
      VisitJoins(Flat(h.chains[..i]), h.chains[i], apply);
      VisitMeans(Flat(h.chains[..i]), apply);
      ghost var n;
      ret, n := VisitChain(h.htable[i], h.chains[i], apply);
      visited := visited + n;
      i := i + 1;
      if ret != 0 {
        FlatStarts(h.chains, i);
        VisitJoins(Flat(h.chains[..i]), Flat(h.chains)[|Flat(h.chains[..i])|..], apply);
        assert Flat(h.chains) == Flat(h.chains[..i]) + Flat(h.chains)[|Flat(h.chains[..i])|..];
        return;
      }
    }
    assert h.chains[..h.size] == h.chains;
  }

  lemma FlatStep<V>(chains: seq<seq<Node<V>>>, i: nat)
    requires i < |chains|
    ensures Flat(chains[..i + 1]) == Flat(chains[..i]) + chains[i]
  {
    assert chains[..i + 1][..i] == chains[..i];
  }

  lemma {:induction false} FlatStarts<V>(chains: seq<seq<Node<V>>>, i: nat)
    requires i <= |chains|
    ensures Flat(chains[..i]) <= Flat(chains)
    decreases |chains|
  {
    if i == |chains| {
      assert chains[..i] == chains;
    } else {
      var shorter := chains[..|chains| - 1];
      assert shorter[..i] == chains[..i];
      FlatStarts(shorter, i);
    }
  }

  lemma {:induction false} FlatPlace<V>(chains: seq<seq<Node<V>>>, k: nat) returns (b: nat, j: nat)
    requires k < |Flat(chains)|
    ensures b < |chains| && j < |chains[b]| && chains[b][j] == Flat(chains)[k] && k == |Flat(chains[..b])| + j
  {
    var last := |chains| - 1;
    var before := Flat(chains[..last]);
    if k < |before| {
      b, j := FlatPlace(chains[..last], k);
      assert chains[..last][..b] == chains[..b];
    } else {
      b, j := last, k - |before|;
    }
  }

  lemma {:induction false} FlatGrows<V>(chains: seq<seq<Node<V>>>, a: nat, b: nat)
    requires a < b <= |chains|
    ensures |Flat(chains[..a])| + |chains[a]| <= |Flat(chains[..b])|
    decreases b
  {
    FlatStep(chains, b - 1);
    if a < b - 1 {
      FlatGrows(chains, a, b - 1);
    }
  }

  /** Every entry of the map is visited, and visited once. */
  lemma VisitedOnce<V>(h: Table<V>, key: string)
    requires h.Valid()
    ensures key in h.contents <==> exists k :: 0 <= k < |Flat(h.chains)| && Flat(h.chains)[k].key == key
    ensures forall k, l :: 0 <= k < l < |Flat(h.chains)| ==> Flat(h.chains)[k].key != Flat(h.chains)[l].key
  {
    hide Table.Valid, Table.ChainOk, Linked, Flat, ParaHash;
    var s := Flat(h.chains);
    h.Slots();
    h.BucketHas(key);
    if key in h.contents {
      var b := ParaHash(key, h.size);
      var j :| 0 <= j < |h.chains[b]| && h.chains[b][j].key == key;
      FlatStep(h.chains, b);
      FlatStarts(h.chains, b + 1);
      assert s[|Flat(h.chains[..b])| + j].key == key;
    }
    if k :| 0 <= k < |s| && s[k].key == key {
      var b, j := FlatPlace(h.chains, k);
      h.Bucket(b);
      h.SortedChain(b);
    }
    forall k, l | 0 <= k < l < |s| ensures s[k].key != s[l].key {
      NotTwice(h, k, l);
    }
  }

  lemma NotTwice<V>(h: Table<V>, k: nat, l: nat)
    requires h.Valid() && k < l < |Flat(h.chains)|
    ensures Flat(h.chains)[k].key != Flat(h.chains)[l].key
  {
    hide Table.Valid, Linked, Flat, ParaHash;
    var b, j := FlatPlace(h.chains, k);
    var c, i := FlatPlace(h.chains, l);
    h.Bucket(b);
    h.Bucket(c);
    CompareEqual(h.chains[b][j].key, h.chains[c][i].key);
  }

  method ChainLength<V>(first: Node?<V>, ghost c: seq<Node<V>>) returns (chainLen: nat)
    requires Linked(first, c)
    ensures chainLen == |c|
  {
    var cur := first;
    chainLen := 0;
    while cur != null
      invariant chainLen <= |c| && cur == NodeAt(c, chainLen)
      decreases |c| - chainLen
    {
      chainLen := chainLen + 1;
      cur := cur.next;
    }
  }

  function InUse<V>(chains: seq<seq<Node<V>>>): nat {
    if chains == [] then 0 else InUse(chains[..|chains| - 1]) + if chains[|chains| - 1] == [] then 0 else 1
  }

  /** They are the chains that are not empty. */
  lemma {:induction false} InUseCounts<V>(chains: seq<seq<Node<V>>>)
    ensures InUse(chains) == |UsedSlots(chains)|
    decreases |chains|
  {
    if chains != [] {
      var n := |chains| - 1;
      InUseCounts(chains[..n]);
      assert UsedSlots(chains) == UsedSlots(chains[..n]) + if chains[n] == [] then {} else {n};
    }
  }

  ghost function UsedSlots<V>(chains: seq<seq<Node<V>>>): set<nat> {
    set b: nat | b < |chains| && chains[b] != []
  }

  lemma InUseNothing<V>()
    ensures InUse<V>([]) == 0
  {
  }

  lemma InUseStep<V>(chains: seq<seq<Node<V>>>, i: nat)
    requires i < |chains|
    ensures InUse(chains[..i + 1]) == InUse(chains[..i]) + if chains[i] == [] then 0 else 1
  {
    assert chains[..i + 1][..i] == chains[..i];
  }

  /** hashtab_stat: the chains in use, and the length of the longest. */
  method Stat<V>(h: Table<V>) returns (slotsUsed: nat, longest: nat)
    requires h.Valid()
    ensures slotsUsed == |UsedSlots(h.chains)|
    ensures forall b :: 0 <= b < |h.chains| ==> |h.chains[b]| <= longest
    ensures exists b :: 0 <= b < |h.chains| && |h.chains[b]| == longest
  {
    hide Table.Valid, Table.ChainOk, InUse;
    h.Slots();
    h.Buckets();
    InUseNothing<V>();
    slotsUsed, longest := 0, 0;
    ghost var at := 0;
    var i := 0;
    while i < h.size
      invariant 0 <= i <= h.size && slotsUsed == InUse(h.chains[..i])
      invariant forall b :: 0 <= b < h.size ==> Linked(h.htable[b], h.chains[b])
      invariant forall b :: 0 <= b < i ==> |h.chains[b]| <= longest
      invariant longest > 0 ==> 0 <= at < i && |h.chains[at]| == longest
    {
      InUseStep(h.chains, i);
      LinkedFirst(h.htable[i], h.chains[i]);
      if h.htable[i] != null {
        slotsUsed := slotsUsed + 1;
        var chainLen := ChainLength(h.htable[i], h.chains[i]);
        if chainLen > longest {
          longest := chainLen;
          at := i;
        }
      }
      i := i + 1;
    }
    assert h.chains[..h.size] == h.chains;
    InUseCounts(h.chains);
    if longest == 0 {
      assert |h.chains[0]| == 0;
    }
  }

  lemma LinkedFirst<V>(first: Node?<V>, c: seq<Node<V>>)
    requires Linked(first, c)
    ensures first == null <==> c == []
  {
  }
}
