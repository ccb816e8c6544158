/** Ordered forests: the parents, the children in order and the depth of every node, and what moving a
    node does to them. The pointers of libcwmp/src/xmlet/node.c stand for such a forest.

    A forest is sound when parents and children agree, no node is twice in a list, and every child is
    one deeper than its parent. Depth is what rules out cycles: the path from a node to its root gets
    shorter with every step.

    Reaches is the ancestor test of the library, which follows later siblings too. */
module XmlShape {

  datatype Option<+T> = None | Some(value: T)

  datatype Shape<T> = Shape(nodes: set<T>, up: map<T, Option<T>>, kids: map<T, seq<T>>, depth: map<T, nat>)

  ghost predicate Distinct<T>(s: seq<T>) {
    forall i, j :: 0 <= i < j < |s| ==> s[i] != s[j]
  }

  ghost predicate NodeOk<T>(t: Shape<T>, x: T)
    requires t.up.Keys == t.nodes && t.kids.Keys == t.nodes && t.depth.Keys == t.nodes && x in t.nodes
  {
    && Distinct(t.kids[x])
    && (t.up[x].Some? ==> t.up[x].value in t.nodes && x in t.kids[t.up[x].value] && t.depth[x] == t.depth[t.up[x].value] + 1)
    && (t.up[x].None? ==> t.depth[x] == 0)
  }

  /** Parents and children name each other, no node is a child twice, and depths count from the roots,
      so that there is no cycle. */
  ghost predicate Sound<T>(t: Shape<T>) {
    && t.up.Keys == t.nodes && t.kids.Keys == t.nodes && t.depth.Keys == t.nodes
    && (forall x :: x in t.nodes ==> NodeOk(t, x))
    && (forall p, x :: p in t.nodes && x in t.kids[p] ==> x in t.nodes && t.up[x] == Some(p))
  }

  // The parts of Sound, one node at a time.

  lemma SoundMaps<T>(t: Shape<T>)
    requires Sound(t)
    ensures t.up.Keys == t.nodes && t.kids.Keys == t.nodes && t.depth.Keys == t.nodes
  {
  }

  lemma SoundNode<T>(t: Shape<T>, x: T)
    requires Sound(t) && x in t.nodes
    ensures t.up.Keys == t.nodes && t.kids.Keys == t.nodes && t.depth.Keys == t.nodes && Distinct(t.kids[x])
    ensures t.up[x].Some? ==> t.up[x].value in t.nodes && x in t.kids[t.up[x].value] && t.depth[x] == t.depth[t.up[x].value] + 1
    ensures t.up[x].None? ==> t.depth[x] == 0
  {
    hide Distinct;
    assert NodeOk(t, x);
  }

  lemma SoundKid<T>(t: Shape<T>, p: T, x: T)
    requires Sound(t) && p in t.nodes && x in t.kids[p]
    ensures t.up.Keys == t.nodes && x in t.nodes && t.up[x] == Some(p)
  {
    hide Distinct, NodeOk;
  }

  /** `y` is `a` or below it. */
  ghost predicate Under<T>(t: Shape<T>, y: T, a: T)
    requires Sound(t) && y in t.nodes
    decreases t.depth[y]
  {
    y == a || (t.up[y].Some? && Under(t, t.up[y].value, a))
  }

  lemma {:induction false} UnderDeeper<T>(t: Shape<T>, y: T, a: T)
    requires Sound(t) && y in t.nodes && Under(t, y, a)
    ensures a in t.nodes && (y == a || t.depth[y] > t.depth[a])
    decreases t.depth[y]
  {
    if y != a {
      UnderDeeper(t, t.up[y].value, a);
    }
  }

  lemma {:induction false} UnderTransitive<T>(t: Shape<T>, y: T, b: T, a: T)
    requires Sound(t) && y in t.nodes && Under(t, y, b) && b in t.nodes && Under(t, b, a)
    ensures Under(t, y, a)
    decreases t.depth[y]
  {
    if y != b {
      UnderTransitive(t, t.up[y].value, b, a);
    }
  }

  /** Below a node is the node itself, and what is below one of its children. */
  lemma {:induction false} UnderChild<T>(t: Shape<T>, y: T, a: T) returns (c: T)
    requires Sound(t) && y in t.nodes && Under(t, y, a) && y != a
    ensures a in t.nodes && c in t.kids[a] && Under(t, y, c)
    decreases t.depth[y]
  {
    var p := t.up[y].value;
    if p == a {
      c := y;
    } else {
      c := UnderChild(t, p, a);
    }
  }

  // ----- lists of children ----------------------------------------------------------------------

  function IndexOf<T(==)>(s: seq<T>, x: T): (i: nat)
    requires x in s
    ensures i < |s| && s[i] == x
  {
    if s[0] == x then 0 else 1 + IndexOf(s[1..], x)
  }

  lemma IndexIs<T>(s: seq<T>, i: nat)
    requires Distinct(s) && i < |s|
    ensures s[i] in s && IndexOf(s, s[i]) == i
  {
  }

  lemma DistinctAt<T>(s: seq<T>, i: nat, j: nat)
    requires Distinct(s) && i < j < |s|
    ensures s[i] != s[j]
  {
  }

  function Inserted<T>(s: seq<T>, i: nat, x: T): (r: seq<T>)
    requires i <= |s|
    ensures |r| == |s| + 1
  {
    s[..i] + [x] + s[i..]
  }

  function Removed<T>(s: seq<T>, i: nat): (r: seq<T>)
    requires i < |s|
    ensures |r| == |s| - 1
  {
    s[..i] + s[i + 1..]
  }

  lemma InsertedHas<T>(s: seq<T>, i: nat, x: T)
    requires i <= |s| && Distinct(s) && x !in s
    ensures Distinct(Inserted(s, i, x))
    ensures forall y :: y in Inserted(s, i, x) <==> y in s || y == x
  {
    var r := Inserted(s, i, x);
    forall y | y in s ensures y in r {
      var k :| 0 <= k < |s| && s[k] == y;
      assert r[if k < i then k else k + 1] == y;
    }
    assert r[i] == x;
  }

  lemma RemovedHas<T>(s: seq<T>, i: nat)
    requires i < |s| && Distinct(s)
    ensures Distinct(Removed(s, i))
    ensures forall y :: y in Removed(s, i) <==> y in s && y != s[i]
  {
    var r := Removed(s, i);
    forall y | y in s && y != s[i] ensures y in r {
      var k :| 0 <= k < |s| && s[k] == y;
      assert r[if k < i then k else k - 1] == y;
    }
  }

  function At<T>(s: seq<T>, i: int): Option<T> {
    if 0 <= i < |s| then Some(s[i]) else None
  }

  function Around<T(==)>(s: seq<T>, x: T, d: int): Option<T>
    requires x in s
  {
    At(s, IndexOf(s, x) + d)
  }

  /** The neighbours that are left when a list loses its element `c`. */
  lemma RemovedAround<T>(s: seq<T>, c: T, x: T)
    requires Distinct(s) && c in s && x in s && x != c
    ensures var r := Removed(s, IndexOf(s, c));
            && x in r
            && Around(r, x, 1) == (if Around(s, x, 1) == Some(c) then Around(s, c, 1) else Around(s, x, 1))
            && Around(r, x, -1) == (if Around(s, x, -1) == Some(c) then Around(s, c, -1) else Around(s, x, -1))
  {
    hide IndexOf;
    var i, k := IndexOf(s, c), IndexOf(s, x);
    var r, k' := Removed(s, i), if k < i then k else k - 1;
    RemovedHas(s, i);
    assert r[k'] == x;
    IndexIs(r, k');
    if k + 1 < |s| {
      IndexIs(s, k + 1);
    }
    if k > 0 {
      IndexIs(s, k - 1);
    }
  }

  /** The neighbours in a list that has got `c` at place `i`. */
  lemma InsertedAround<T>(s: seq<T>, i: nat, c: T, x: T)
    requires Distinct(s) && i <= |s| && c !in s && (x in s || x == c)
    ensures var r := Inserted(s, i, c);
            && x in r
            && Around(r, x, 1) == (if x == c then At(s, i) else if Some(x) == At(s, i - 1) then Some(c) else Around(s, x, 1))
            && Around(r, x, -1) == (if x == c then At(s, i - 1) else if Some(x) == At(s, i) then Some(c) else Around(s, x, -1))
  {
    hide IndexOf;
    var r := Inserted(s, i, c);
    InsertedHas(s, i, c);
    if x == c {
      assert r[i] == c;
      IndexIs(r, i);
    } else {
      var k := IndexOf(s, x);
      var k' := if k < i then k else k + 1;
      assert r[k'] == x;
      IndexIs(r, k');
      if i < |s| {
        IndexIs(s, i);
      }
      if i > 0 {
        IndexIs(s, i - 1);
      }
    }
  }

  // ----- moving a node ----------------------------------------------------------------------------

  ghost function Deepened<T>(t: Shape<T>, c: T, d: int): map<T, nat>
    requires Sound(t) && c in t.nodes && d + t.depth[c] >= 0
  {
    map x | x in t.nodes :: if Under(t, x, c) then DeeperBy(t, x, c, d) else t.depth[x]
  }

  ghost function DeeperBy<T>(t: Shape<T>, x: T, c: T, d: int): nat
    requires Sound(t) && c in t.nodes && x in t.nodes && Under(t, x, c) && d + t.depth[c] >= 0
  {
    UnderDeeper(t, x, c);
    t.depth[x] + d
  }

  /** The forest with `c` taken from its parent, together with what is below it. */
  ghost function Detach<T>(t: Shape<T>, c: T): Shape<T>
    requires Sound(t) && c in t.nodes && t.up[c].Some?
  {
    var p := t.up[c].value;
    var depth: int := t.depth[c];
    Shape(
      t.nodes,
      t.up[c := None],
      t.kids[p := Removed(t.kids[p], IndexOf(t.kids[p], c))],
      Deepened(t, c, -depth)
    )
  }

  /** The forest with the root `c` as child `i` of `p`. */
  ghost function Attach<T>(t: Shape<T>, p: T, i: nat, c: T): Shape<T>
    requires Sound(t) && c in t.nodes && p in t.nodes && t.up[c].None? && i <= |t.kids[p]|
  {
    Shape(
      t.nodes,
      t.up[c := Some(p)],
      t.kids[p := Inserted(t.kids[p], i, c)],
      Deepened(t, c, t.depth[p] + 1)
    )
  }

  lemma UnderStep<T>(t: Shape<T>, x: T, c: T)
    requires Sound(t) && x in t.nodes
    ensures Under(t, x, c) <==> x == c || (t.up[x].Some? && Under(t, t.up[x].value, c))
  {
  }

  lemma ParentNotUnder<T>(t: Shape<T>, c: T)
    requires Sound(t) && c in t.nodes && t.up[c].Some?
    ensures !Under(t, t.up[c].value, c)
  {
    if Under(t, t.up[c].value, c) {
      UnderDeeper(t, t.up[c].value, c);
    }
  }

  lemma DeepenedAt<T>(t: Shape<T>, c: T, d: int, x: T)
    requires Sound(t) && c in t.nodes && d + t.depth[c] >= 0 && x in t.nodes
    ensures Deepened(t, c, d).Keys == t.nodes && t.depth.Keys == t.nodes
    ensures Deepened(t, c, d)[x] == if Under(t, x, c) then t.depth[x] + d else t.depth[x]
  {
    hide Under;
  }

  lemma RemovedOne<T>(s: seq<T>, i: nat, y: T)
    requires i < |s| && Distinct(s)
    ensures y in Removed(s, i) <==> y in s && y != s[i]
  {
    RemovedHas(s, i);
  }

  lemma InsertedOne<T>(s: seq<T>, i: nat, x: T, y: T)
    requires i <= |s| && Distinct(s) && x !in s
    ensures y in Inserted(s, i, x) <==> y in s || y == x
  {
    InsertedHas(s, i, x);
  }

  lemma DetachKid<T>(t: Shape<T>, c: T, q: T, x: T)
    requires Sound(t) && c in t.nodes && t.up[c].Some? && q in t.nodes && t.kids.Keys == t.nodes
    ensures Detach(t, c).kids.Keys == t.nodes
    ensures x in Detach(t, c).kids[q] <==> x in t.kids[q] && x != c
  {
    hide Sound, Under, IndexOf, Removed, Distinct, Deepened;
    SoundNode(t, c);
    var p := t.up[c].value;
    SoundNode(t, p);
    RemovedOne(t.kids[p], IndexOf(t.kids[p], c), x);
    if q != p && c in t.kids[q] {
      SoundKid(t, q, c);
    }
  }

  lemma DetachNode<T>(t: Shape<T>, c: T, x: T)
    requires Sound(t) && c in t.nodes && t.up[c].Some? && x in t.nodes
    ensures var r := Detach(t, c);
            r.up.Keys == t.nodes && r.kids.Keys == t.nodes && r.depth.Keys == t.nodes && NodeOk(r, x)
  {
    hide Sound, Under, IndexOf, Removed, Distinct, Deepened;
    SoundNode(t, c);
    SoundNode(t, x);
    var p, depth: int := t.up[c].value, t.depth[c];
    SoundNode(t, p);
    RemovedHas(t.kids[p], IndexOf(t.kids[p], c));
    ParentNotUnder(t, c);
    UnderStep(t, x, c);
    DeepenedAt(t, c, -depth, x);
    if t.up[x].Some? {
      var q := t.up[x].value;
      DeepenedAt(t, c, -depth, q);
      DetachKid(t, c, q, x);
    }
  }

  lemma DetachSound<T>(t: Shape<T>, c: T)
    requires Sound(t) && c in t.nodes && t.up[c].Some?
    ensures Sound(Detach(t, c))
  {
    hide Under, IndexOf, Removed, Distinct, Deepened, NodeOk;
    SoundMaps(t);
    var r := Detach(t, c);
    DetachNode(t, c, c);
    forall x | x in t.nodes ensures NodeOk(r, x) {
      DetachNode(t, c, x);
    }
    forall q, x | q in t.nodes && x in r.kids[q] ensures x in t.nodes && r.up[x] == Some(q) {
      DetachKid(t, c, q, x);
      SoundKid(t, q, x);
    }
  }

  lemma AttachKid<T>(t: Shape<T>, p: T, i: nat, c: T, q: T, x: T)
    requires Sound(t) && c in t.nodes && p in t.nodes && t.up[c].None? && i <= |t.kids[p]| && q in t.nodes
    ensures t.kids.Keys == t.nodes == Attach(t, p, i, c).kids.Keys
    ensures x in Attach(t, p, i, c).kids[q] <==> x in t.kids[q] || (q == p && x == c)
  {
    hide Sound, Under, Inserted, Distinct, Deepened;
    SoundNode(t, p);
    RootIsNoChild(t, c);
    InsertedOne(t.kids[p], i, c, x);
  }

  lemma AttachNode<T>(t: Shape<T>, p: T, i: nat, c: T, x: T)
    requires Sound(t) && c in t.nodes && p in t.nodes && t.up[c].None? && i <= |t.kids[p]| && !Under(t, p, c) && x in t.nodes
    ensures var r := Attach(t, p, i, c);
            r.up.Keys == t.nodes && r.kids.Keys == t.nodes && r.depth.Keys == t.nodes && NodeOk(r, x)
  {
    hide Sound, Under, Inserted, Distinct, Deepened;
    SoundNode(t, p);
    SoundNode(t, c);
    SoundNode(t, x);
    var depth: int := t.depth[p] + 1;
    RootIsNoChild(t, c);
    InsertedHas(t.kids[p], i, c);
    UnderStep(t, x, c);
    DeepenedAt(t, c, depth, x);
    DeepenedAt(t, c, depth, p);
    if t.up[x].Some? {
      var q := t.up[x].value;
      DeepenedAt(t, c, depth, q);
      AttachKid(t, p, i, c, q, x);
    } else {
      AttachKid(t, p, i, c, p, x);
    }
  }

  lemma AttachSound<T>(t: Shape<T>, p: T, i: nat, c: T)
    requires Sound(t) && c in t.nodes && p in t.nodes && t.up[c].None? && i <= |t.kids[p]| && !Under(t, p, c)
    ensures Sound(Attach(t, p, i, c))
  {
    hide Under, Inserted, Distinct, Deepened, NodeOk;
    SoundMaps(t);
    var r := Attach(t, p, i, c);
    AttachNode(t, p, i, c, c);
    forall x | x in t.nodes ensures NodeOk(r, x) {
      AttachNode(t, p, i, c, x);
    }
    forall q, x | q in t.nodes && x in r.kids[q] ensures x in t.nodes && r.up[x] == Some(q) {
      AttachKid(t, p, i, c, q, x);
      if x in t.kids[q] {
        SoundKid(t, q, x);
        RootIsNoChild(t, c);
      }
    }
  }

  lemma RootIsNoChild<T>(t: Shape<T>, c: T)
    requires Sound(t) && c in t.nodes && t.up[c].None?
    ensures forall p :: p in t.nodes ==> c !in t.kids[p]
  {
    hide Distinct, NodeOk;
  }

  /** Taking a node away changes no other node's ancestors. */
  lemma {:induction false} DetachUnder<T>(t: Shape<T>, c: T, y: T)
    requires Sound(t) && c in t.nodes && t.up[c].Some? && y in t.nodes && Sound(Detach(t, c))
    ensures Under(Detach(t, c), y, c) <==> Under(t, y, c)
    decreases t.depth[y]
  {
    var r := Detach(t, c);
    assert r.up[y] == if y == c then None else t.up[y];
    if y != c && t.up[y].Some? {
      DetachUnder(t, c, t.up[y].value);
    }
  }

  /** A node can be put back where it was taken from: both moves together change nothing. */
  lemma DetachThenAttach<T>(t: Shape<T>, c: T)
    requires Sound(t) && c in t.nodes && t.up[c].Some?
    ensures Sound(Detach(t, c))
    ensures Attach(Detach(t, c), t.up[c].value, IndexOf(t.kids[t.up[c].value], c), c) == t
  {
    hide Sound, Under, Deepened, Distinct, IndexOf;
    SoundNode(t, c);
    DetachSound(t, c);
    var p, r := t.up[c].value, Detach(t, c);
    var i := IndexOf(t.kids[p], c);
    var back := Attach(r, p, i, c);
    var depth: int := t.depth[c];
    SoundNode(r, c);
    assert back.kids[p] == t.kids[p];
    assert back.kids == t.kids;
    assert back.up == t.up;
    ParentNotUnder(t, c);
    DetachUnder(t, c, p);
    DeepenedAt(t, c, -depth, p);
    DeepenedAt(r, c, r.depth[p] + 1, c);
    SoundMaps(t);
    forall x | x in t.nodes ensures back.depth[x] == t.depth[x] {
      DetachUnder(t, c, x);
      DeepenedAt(t, c, -depth, x);
      DeepenedAt(r, c, r.depth[p] + 1, x);
    }
    assert back.depth == t.depth;
  }

  // ----- siblings -----------------------------------------------------------------------------------

  ghost function Beside<T>(t: Shape<T>, x: T, d: int): Option<T>
    requires Sound(t) && x in t.nodes
  {
    if t.up[x].None? then None else Around(t.kids[t.up[x].value], x, d)
  }

  ghost function Next<T>(t: Shape<T>, x: T): Option<T>
    requires Sound(t) && x in t.nodes
  {
    Beside(t, x, 1)
  }

  ghost function Prev<T>(t: Shape<T>, x: T): Option<T>
    requires Sound(t) && x in t.nodes
  {
    Beside(t, x, -1)
  }

  ghost function First<T>(t: Shape<T>, x: T): Option<T>
    requires Sound(t) && x in t.nodes
  {
    At(t.kids[x], 0)
  }

  /** Only the neighbours of the place where a child is put see a new sibling. */
  lemma AttachBeside<T>(t: Shape<T>, p: T, i: nat, c: T, x: T)
    requires Sound(t) && c in t.nodes && p in t.nodes && t.up[c].None? && i <= |t.kids[p]| && !Under(t, p, c)
    requires x in t.nodes && Sound(Attach(t, p, i, c))
    ensures var s, r := t.kids[p], Attach(t, p, i, c);
            && Next(r, x) == (if x == c then At(s, i) else if Some(x) == At(s, i - 1) then Some(c) else Next(t, x))
            && Prev(r, x) == (if x == c then At(s, i - 1) else if Some(x) == At(s, i) then Some(c) else Prev(t, x))
            && First(r, x) == (if x == p && i == 0 then Some(c) else First(t, x))
  {
    hide Sound, Under, Deepened, Distinct, Around;
    SoundNode(t, x);
    SoundNode(t, p);
    SoundNode(t, c);
    var s := t.kids[p];
    RootIsNoChild(t, c);
    if x == c || t.up[x] == Some(p) {
      InsertedAround(s, i, c, x);
    } else {
      if i < |s| {
        SoundKid(t, p, s[i]);
      }
      if i > 0 {
        SoundKid(t, p, s[i - 1]);
      }
    }
  }

  /** Only the neighbours of a child that is taken away see a new sibling. */
  lemma DetachBeside<T>(t: Shape<T>, c: T, x: T)
    requires Sound(t) && c in t.nodes && t.up[c].Some? && x in t.nodes && Sound(Detach(t, c))
    ensures var r := Detach(t, c);
            && Next(r, x) == (if x == c then None else if Next(t, x) == Some(c) then Next(t, c) else Next(t, x))
            && Prev(r, x) == (if x == c then None else if Prev(t, x) == Some(c) then Prev(t, c) else Prev(t, x))
  {
    hide Sound, Under, Deepened, Distinct, Around, Removed;
    SoundNode(t, x);
    SoundNode(t, c);
    var p := t.up[c].value;
    SoundNode(t, p);
    if x != c && t.up[x] == Some(p) {
      RemovedAround(t.kids[p], c, x);
    } else if x != c && t.up[x].Some? {
      NextPrev(t, x);
    }
  }

  lemma DetachFirst<T>(t: Shape<T>, c: T, x: T)
    requires Sound(t) && c in t.nodes && t.up[c].Some? && x in t.nodes && Sound(Detach(t, c))
    ensures First(Detach(t, c), x) == if First(t, x) == Some(c) then Next(t, c) else First(t, x)
  {
    hide Sound, Under, Deepened, Distinct;
    SoundNode(t, x);
    SoundNode(t, c);
    var p := t.up[c].value;
    SoundNode(t, p);
    var s := t.kids[p];
    if x != p && t.kids[x] != [] {
      SoundKid(t, x, t.kids[x][0]);
    } else if x == p {
      IndexIs(s, 0);
    }
  }

  lemma NextPrev<T>(t: Shape<T>, x: T)
    requires Sound(t) && x in t.nodes
    ensures Next(t, x).Some? ==> Next(t, x).value in t.nodes && Prev(t, Next(t, x).value) == Some(x) && t.up[Next(t, x).value] == t.up[x] && Next(t, x).value != x
    ensures Prev(t, x).Some? ==> Prev(t, x).value in t.nodes && Next(t, Prev(t, x).value) == Some(x) && t.up[Prev(t, x).value] == t.up[x] && Prev(t, x).value != x
  {
    hide Sound, Distinct;
    SoundNode(t, x);
    if t.up[x].Some? {
      var s := t.kids[t.up[x].value];
      var i := IndexOf(s, x);
      SoundNode(t, t.up[x].value);
      if i + 1 < |s| {
        IndexIs(s, i + 1);
        SoundKid(t, t.up[x].value, s[i + 1]);
        DistinctAt(s, i, i + 1);
      }
      if i > 0 {
        IndexIs(s, i - 1);
        SoundKid(t, t.up[x].value, s[i - 1]);
        DistinctAt(s, i - 1, i);
      }
    }
  }

  // ----- the ancestor test --------------------------------------------------------------------------

  /** A node and the siblings behind it. */
  ghost function FromHere<T>(t: Shape<T>, a: T): seq<T>
    requires Sound(t) && a in t.nodes
  {
    if t.up[a].None? then [a] else t.kids[t.up[a].value][IndexOf(t.kids[t.up[a].value], a)..]
  }

  ghost predicate UnderAny<T>(t: Shape<T>, y: T, s: seq<T>)
    requires Sound(t) && y in t.nodes
  {
    exists a :: a in s && Under(t, y, a)
  }

  /** What XmlNodeIsAncestor answers: the parent of `x` is below `a`, or below a later sibling of it. */
  ghost predicate Reaches<T>(t: Shape<T>, a: T, x: T)
    requires Sound(t) && a in t.nodes && x in t.nodes
  {
    t.up[x].Some? && UnderAny(t, t.up[x].value, FromHere(t, a))
  }

  lemma FromHereSteps<T>(t: Shape<T>, a: T)
    requires Sound(t) && a in t.nodes
    ensures FromHere(t, a) == [a] + (if Next(t, a).Some? && Next(t, a).value in t.nodes then FromHere(t, Next(t, a).value) else [])
    ensures First(t, a).Some? ==> First(t, a).value in t.nodes && FromHere(t, First(t, a).value) == t.kids[a]
  {
    hide Sound, Distinct;
    SoundNode(t, a);
    if t.up[a].Some? {
      var s := t.kids[t.up[a].value];
      var i := IndexOf(s, a);
      SoundNode(t, t.up[a].value);
      if i + 1 < |s| {
        IndexIs(s, i + 1);
        SoundKid(t, t.up[a].value, s[i + 1]);
      }
    }
    if t.kids[a] != [] {
      IndexIs(t.kids[a], 0);
      SoundKid(t, a, t.kids[a][0]);
    }
  }

  /** Below one of the children of a node, or the node itself: below the node. */
  lemma UnderSplit<T>(t: Shape<T>, y: T, a: T)
    requires Sound(t) && y in t.nodes && a in t.nodes
    ensures Under(t, y, a) <==> y == a || (First(t, a).Some? && UnderAny(t, y, t.kids[a]))
  {
    hide Sound, Under;
    SoundNode(t, a);
    UnderStep(t, a, a);
    if Under(t, y, a) && y != a {
      var c := UnderChild(t, y, a);
    }
    if UnderAny(t, y, t.kids[a]) {
      var c :| c in t.kids[a] && Under(t, y, c);
      SoundKid(t, a, c);
      UnderStep(t, c, a);
      UnderTransitive(t, y, c, a);
    }
  }

  lemma UnderAnyJoin<T>(t: Shape<T>, y: T, a: T, s: seq<T>)
    requires Sound(t) && y in t.nodes
    ensures UnderAny(t, y, [a] + s) <==> Under(t, y, a) || UnderAny(t, y, s)
  {
    hide Sound, Under;
    if Under(t, y, a) {
      assert a in [a] + s;
    }
    if UnderAny(t, y, s) {
      var b :| b in s && Under(t, y, b);
      assert b in [a] + s;
    }
  }

  /** One call of the test: the parent is the node, or the call on its first child or on its next
      sibling finds it. */
  lemma ReachesStep<T>(t: Shape<T>, a: T, x: T)
    requires Sound(t) && a in t.nodes && x in t.nodes
    ensures First(t, a).Some? ==> First(t, a).value in t.nodes
    ensures Next(t, a).Some? ==> Next(t, a).value in t.nodes
    ensures Reaches(t, a, x) <==>
              || t.up[x] == Some(a)
              || (First(t, a).Some? && Reaches(t, First(t, a).value, x))
              || (Next(t, a).Some? && Reaches(t, Next(t, a).value, x))
  {
    hide Sound, Under, UnderAny, FromHere, Next, First;
    SoundNode(t, x);
    NextPrev(t, a);
    FromHereSteps(t, a);
    if t.up[x].Some? {
      var y := t.up[x].value;
      UnderSplit(t, y, a);
      UnderAnyJoin(t, y, a, if Next(t, a).Some? then FromHere(t, Next(t, a).value) else []);
      UnderNone(t, y);
    }
  }

  lemma UnderNone<T>(t: Shape<T>, y: T)
    requires Sound(t) && y in t.nodes
    ensures !UnderAny(t, y, [])
  {
  }

  /** A proper ancestor is always found. */
  lemma AncestorReaches<T>(t: Shape<T>, a: T, x: T)
    requires Sound(t) && a in t.nodes && x in t.nodes
    ensures Under(t, x, a) && x != a ==> Reaches(t, a, x)
  {
    FromHereSteps(t, a);
    assert a in FromHere(t, a);
  }

  /** Of a detached node, and of a node's own child, nothing else is found. */
  lemma ReachesExactly<T>(t: Shape<T>, a: T, x: T)
    requires Sound(t) && a in t.nodes && x in t.nodes
    requires t.up[a].None? || t.up[a] == Some(x)
    ensures Reaches(t, a, x) <==> Under(t, x, a) && x != a
  {
    hide Sound, Under;
    SoundNode(t, a);
    SoundNode(t, x);
    AncestorReaches(t, a, x);
    if Reaches(t, a, x) {
      var y := t.up[x].value;
      var b :| b in FromHere(t, a) && Under(t, y, b);
      UnderDeeper(t, y, b);
      SoundNode(t, y);
      if t.up[a].None? {
        UnderStep(t, x, a);
      } else {
        SoundKid(t, x, b);
        SoundNode(t, b);
      }
    }
  }

  /** Putting a node before a child and taking that child away replaces it in the list of children, and
      changes no other list. */
  lemma ReplaceKids<T>(t: Shape<T>, p: T, c: T, child: T)
    requires Sound(t) && c in t.nodes && p in t.nodes && t.kids.Keys == t.nodes == t.up.Keys
    requires t.up[c].None? && child in t.kids[p] && !Under(t, p, c)
    ensures var a := Attach(t, p, IndexOf(t.kids[p], child), c);
            && Sound(a) && child in a.nodes && child in a.up && a.up[child] == Some(p)
            && Detach(a, child).kids == t.kids[p := t.kids[p][IndexOf(t.kids[p], child) := c]]
  {
    hide Sound, Under, Deepened, Distinct, IndexOf;
    var s, i := t.kids[p], IndexOf(t.kids[p], child);
    AttachSound(t, p, i, c);
    var a := Attach(t, p, i, c);
    SoundNode(a, p);
    SoundKid(t, p, child);
    RootIsNoChild(t, c);
    assert a.kids[p][i + 1] == child;
    IndexIs(a.kids[p], i + 1);
    assert Removed(a.kids[p], i + 1) == s[i := c];
  }

  /** A root appended to a list of children is the last of it; a child appended again is moved there. */
  lemma AppendKids<T>(t: Shape<T>, p: T, c: T)
    requires Sound(t) && c in t.nodes && p in t.nodes && t.kids.Keys == t.nodes == t.up.Keys
    ensures t.up[c].None? ==> Attach(t, p, |t.kids[p]|, c).kids == t.kids[p := t.kids[p] + [c]]
    ensures t.up[c] == Some(p) ==>
              var r := Detach(t, c);
              && Sound(r) && p in r.kids && r.up[c] == None
              && Attach(r, p, |r.kids[p]|, c).kids == t.kids[p := Removed(t.kids[p], IndexOf(t.kids[p], c)) + [c]]
  {
    hide Sound, Under, Deepened, Distinct, IndexOf;
    if t.up[c].None? {
      assert Inserted(t.kids[p], |t.kids[p]|, c) == t.kids[p] + [c];
    } else if t.up[c] == Some(p) {
      DetachSound(t, c);
      SoundNode(t, c);
      var s := Detach(t, c).kids[p];
      assert Inserted(s, |s|, c) == s + [c];
    }
  }
}
