/** The tree surgery of libcwmp/src/xmlet/node.c on nodes with a parent, a first child and doubly linked
    siblings.

    `t` is the forest the pointers stand for: Links(t) says that parent, first child and both siblings of
    every node are those of the forest. An operation that succeeds either ends in Links of the forest it
    promises, or no forest at all fits the pointers any more; the contracts say exactly when which is the
    case. */
module XmlNodes {
  import opened XmlShape

  datatype NodeType =
    | Invalid | Element | Attribute | Text | CdataSection | EntityReference | Entity
    | ProcessingInstruction | Comment | Document | DocumentType | DocumentFragment | Notation

  /** The error codes; AssertionFailed is none of them, but the end of a program that asks whether null is a
      child. */
  datatype Code = Ok | HierarchyRequestErr | WrongDocumentErr | NotFoundErr | InvalidParameter | AssertionFailed

  class XmlNode {
    var nodeType: NodeType
    var parentNode: XmlNode?
    var firstChild: XmlNode?
    var prevSibling: XmlNode?
    var nextSibling: XmlNode?
    var ownerDocument: XmlNode?

    constructor (nodeType: NodeType, ownerDocument: XmlNode?)
      ensures this.nodeType == nodeType && this.ownerDocument == ownerDocument
      ensures parentNode == firstChild == prevSibling == nextSibling == null
    {
      this.nodeType, this.ownerDocument := nodeType, ownerDocument;
      parentNode, firstChild, prevSibling, nextSibling := null, null, null, null;
    }
  }

  function Opt(x: XmlNode?): Option<XmlNode> {
    if x == null then None else Some(x)
  }

  ghost predicate LinkedAt(t: Shape<XmlNode>, x: XmlNode)
    requires Sound(t) && x in t.nodes
    reads x
  {
    && Opt(x.parentNode) == t.up[x] && Opt(x.firstChild) == First(t, x)
    && Opt(x.prevSibling) == Prev(t, x) && Opt(x.nextSibling) == Next(t, x)
  }

  /** The pointers of all nodes stand for the forest `t`. */
  ghost predicate Links(t: Shape<XmlNode>)
    reads t.nodes
  {
    Sound(t) && forall x :: x in t.nodes ==> LinkedAt(t, x)
  }

  lemma LinksAt(t: Shape<XmlNode>, x: XmlNode)
    requires Links(t) && x in t.nodes
    ensures Sound(t) && LinkedAt(t, x) && t.up.Keys == t.nodes && t.kids.Keys == t.nodes
    ensures Opt(x.parentNode) == t.up[x] && Opt(x.firstChild) == First(t, x)
    ensures Opt(x.prevSibling) == Prev(t, x) && Opt(x.nextSibling) == Next(t, x)
  {
    SoundMaps(t);
  }

  // ----- tests ------------------------------------------------------------------------------------

  /** XmlNodeIsAncestor: it searches `ancestor`, and its later siblings too. */
  method IsAncestor(ancestor: XmlNode?, toFind: XmlNode?, ghost t: Shape<XmlNode>) returns (found: bool)
    requires Links(t) && (ancestor != null ==> ancestor in t.nodes) && (toFind != null ==> toFind in t.nodes)
    ensures found == (ancestor != null && toFind != null && Reaches(t, ancestor, toFind))
    decreases if ancestor == null then 0 else Height(t) - DepthOf(t, ancestor), if ancestor == null then 0 else |FromHere(t, ancestor)|
  {
    hide Sound, Links, Reaches, FromHere, First, Next, Prev;
    found := false;
    if ancestor != null && toFind != null {
      LinksAt(t, toFind);
      LinksAt(t, ancestor);
      ReachesStep(t, ancestor, toFind);
      FromHereSteps(t, ancestor);
      HeightSteps(t, ancestor);
      if toFind.parentNode == ancestor {
        return true;
      } else {
        found := IsAncestor(ancestor.firstChild, toFind, t);
        if !found {
          found := IsAncestor(ancestor.nextSibling, toFind, t);
        }
      }
    }
  }

  ghost function DepthOf(t: Shape<XmlNode>, x: XmlNode): nat
    requires Sound(t) && x in t.nodes
  {
    t.depth[x]
  }

  ghost function MaxDepth(s: set<XmlNode>, depth: map<XmlNode, nat>): (m: nat)
    requires s <= depth.Keys
    ensures forall x :: x in s ==> depth[x] <= m
  {
    if s == {} then 0
    else
      var x :| x in s;
      var m := MaxDepth(s - {x}, depth);
      if depth[x] > m then depth[x] else m
  }

  ghost function Height(t: Shape<XmlNode>): (h: nat)
    requires Sound(t)
    ensures forall x :: x in t.nodes ==> DepthOf(t, x) <= h
  {
    MaxDepth(t.nodes, t.depth)
  }

  lemma HeightSteps(t: Shape<XmlNode>, a: XmlNode)
    requires Sound(t) && a in t.nodes
    ensures First(t, a).Some? ==> First(t, a).value in t.nodes && DepthOf(t, First(t, a).value) == DepthOf(t, a) + 1
    ensures Next(t, a).Some? ==> Next(t, a).value in t.nodes && DepthOf(t, Next(t, a).value) == DepthOf(t, a)
  {
    hide Sound, Next;
    SoundNode(t, a);
    NextPrev(t, a);
    if First(t, a).Some? {
      SoundKid(t, a, First(t, a).value);
      SoundNode(t, First(t, a).value);
    }
    if Next(t, a).Some? {
      SoundNode(t, Next(t, a).value);
    }
  }

  /** XmlNodeAllowChildren */
  predicate AllowChildren(parent: NodeType, child: NodeType) {
    match parent
    case Attribute => false
    case Text => false
    case CdataSection => false
    case Element => child != Attribute && child != Document
    case Document => child == Element
    case _ => true
  }

  // ----- XmlNodeRemoveChild -----------------------------------------------------------------------

  /** `c` is a root of `t`, but says that `p` is its parent and that it is its own sibling. */
  ghost predicate Knotted(t: Shape<XmlNode>, p: XmlNode, c: XmlNode)
    reads t.nodes
  {
    && Sound(t) && p in t.nodes && c in t.nodes && p != c && t.up.Keys == t.nodes && t.up[c].None?
    && (forall x :: x in t.nodes && x != c ==> LinkedAt(t, x))
    && c.parentNode == p && c.prevSibling == c && c.nextSibling == c && Opt(c.firstChild) == First(t, c)
  }

  /** The assignments of XmlNodeRemoveChild. */
  method Unlink(p: XmlNode, c: XmlNode, ghost nodes: set<XmlNode>)
    requires p in nodes && c in nodes && p != c
    requires (c.prevSibling != null ==> c.prevSibling in nodes) && (c.nextSibling != null ==> c.nextSibling in nodes)
    modifies nodes
    ensures c.parentNode == c.prevSibling == c.nextSibling == null && c.firstChild == old(c.firstChild)
    ensures forall x :: x in nodes && x != c ==> x.parentNode == old(x.parentNode)
    ensures forall x :: x in nodes && x != c ==> x.nextSibling == if x == old(c.prevSibling) then old(c.nextSibling) else old(x.nextSibling)
    ensures forall x :: x in nodes && x != c ==> x.prevSibling == if x == old(c.nextSibling) then old(c.prevSibling) else old(x.prevSibling)
    ensures forall x :: x in nodes && x != c ==> x.firstChild == if x == p && old(p.firstChild) == c then old(c.nextSibling) else old(x.firstChild)
    ensures forall x :: x in nodes ==> x.nodeType == old(x.nodeType) && x.ownerDocument == old(x.ownerDocument)
  {
    if c.prevSibling != null {
      c.prevSibling.nextSibling := c.nextSibling;
    }
    if p.firstChild == c {
      p.firstChild := c.nextSibling;
    }
    if c.nextSibling != null {
      c.nextSibling.prevSibling := c.prevSibling;
    }
    c.nextSibling := null;
    c.prevSibling := null;
    c.parentNode := null;
  }

  /** Enough to follow the pointers of a child that is to be removed. */
  ghost predicate Loose(nodes: set<XmlNode>, p: XmlNode?, c: XmlNode?)
    reads nodes
  {
    && p != null && c != null && p != c && p in nodes && c in nodes
    && (c.prevSibling != null ==> c.prevSibling in nodes) && (c.nextSibling != null ==> c.nextSibling in nodes)
  }

  /** XmlNodeRemoveChild. The pointers change at the node, at its neighbours and at its parent only; when
      they stand for a forest they stand for the one without the child, and a node that had been made
      its own sibling is unlinked too. */
  method RemoveChild(nodeptr: XmlNode?, oldChild: XmlNode?, ghost t: Shape<XmlNode>) returns (ret: Code, returnNode: XmlNode?)
    requires Links(t) || Loose(t.nodes, nodeptr, oldChild)
    requires (nodeptr != null ==> nodeptr in t.nodes) && (oldChild != null ==> oldChild in t.nodes)
    modifies t.nodes
    ensures ret == if nodeptr == null || oldChild == null then InvalidParameter
                   else if old(oldChild.parentNode) != nodeptr then NotFoundErr
                   else Ok
    ensures ret == Ok ==> returnNode == oldChild
    ensures ret == Ok && old(Links(t)) ==> Sound(t) && t.up[oldChild] == Some(nodeptr) && Links(Detach(t, oldChild))
    ensures ret == Ok && old(Knotted(t, nodeptr, oldChild)) ==> Links(t)
    ensures ret == Ok ==> forall x :: x in t.nodes && x != oldChild ==> x.parentNode == old(x.parentNode)
    ensures ret == Ok ==> forall x :: x in t.nodes && x != oldChild && x != old(oldChild.prevSibling) ==> x.nextSibling == old(x.nextSibling)
    ensures ret == Ok ==> forall x :: x in t.nodes && x != nodeptr ==> x.firstChild == old(x.firstChild)
    ensures forall x :: x in t.nodes ==> x.nodeType == old(x.nodeType) && x.ownerDocument == old(x.ownerDocument)
    ensures ret != Ok ==> unchanged(t.nodes)
  {
    returnNode := null;
    if nodeptr == null || oldChild == null {
      return InvalidParameter, null;
    }
    if oldChild.parentNode != nodeptr {
      return NotFoundErr, null;
    }
    RemoveLinked(nodeptr, oldChild, t);
    return Ok, oldChild;
  }

  method RemoveLinked(nodeptr: XmlNode, oldChild: XmlNode, ghost t: Shape<XmlNode>)
    requires Links(t) || Loose(t.nodes, nodeptr, oldChild)
    requires nodeptr in t.nodes && oldChild in t.nodes && oldChild.parentNode == nodeptr
    modifies t.nodes
    ensures old(Links(t)) ==> Sound(t) && t.up[oldChild] == Some(nodeptr) && Links(Detach(t, oldChild))
    ensures old(Knotted(t, nodeptr, oldChild)) ==> Links(t)
    ensures forall x :: x in t.nodes && x != oldChild ==> x.parentNode == old(x.parentNode)
    ensures forall x :: x in t.nodes && x != oldChild && x != old(oldChild.prevSibling) ==> x.nextSibling == old(x.nextSibling)
    ensures forall x :: x in t.nodes && x != nodeptr ==> x.firstChild == old(x.firstChild)
    ensures forall x :: x in t.nodes ==> x.nodeType == old(x.nodeType) && x.ownerDocument == old(x.ownerDocument)
  {
    hide Sound, First, Next, Prev, Detach;
    ghost var linked, knotted := Links(t), Knotted(t, nodeptr, oldChild);
    if linked || knotted {
      RemovalFacts(t, nodeptr, oldChild);
    }
    Unlink(nodeptr, oldChild, t.nodes);
    if linked {
      DetachedNodes(t, oldChild);
      DetachedAt(t, oldChild, oldChild);
      forall x | x in t.nodes ensures x != oldChild ==> Skips(t, nodeptr, oldChild, x) {
        assert old(LinkedAt(t, x));
        if x != oldChild {
          SkipsFrom(t, nodeptr, oldChild, x, old(x.nextSibling), old(x.prevSibling), old(x.firstChild), old(oldChild.nextSibling), old(oldChild.prevSibling));
        }
      }
      Unlinked(t, nodeptr, oldChild);
    }
    if knotted {
      forall x | x in t.nodes ensures x != oldChild ==> LinkedAt(t, x) {
        assert x != oldChild ==> old(LinkedAt(t, x));
      }
      Unknotted(t, oldChild);
    }
  }

  /** The pointers of `x` skip its sibling `c`. */
  ghost predicate Skips(t: Shape<XmlNode>, p: XmlNode, c: XmlNode, x: XmlNode)
    requires Sound(t) && c in t.nodes && x in t.nodes
    reads x
  {
    && Opt(x.parentNode) == t.up[x]
    && Opt(x.nextSibling) == (if Next(t, x) == Some(c) then Next(t, c) else Next(t, x))
    && Opt(x.prevSibling) == (if Prev(t, x) == Some(c) then Prev(t, c) else Prev(t, x))
    && Opt(x.firstChild) == if First(t, x) == Some(c) then Next(t, c) else First(t, x)
  }

  /** From what the pointers were, and what has been assigned to them. */
  lemma SkipsFrom(t: Shape<XmlNode>, p: XmlNode, c: XmlNode, x: XmlNode, next: XmlNode?, prev: XmlNode?, first: XmlNode?, after: XmlNode?, before: XmlNode?)
    requires Sound(t) && c in t.nodes && x in t.nodes && x != c && t.up.Keys == t.nodes && t.up[c] == Some(p) && Sound(Detach(t, c))
    requires Opt(x.parentNode) == t.up[x] && Opt(next) == Next(t, x) && Opt(prev) == Prev(t, x) && Opt(first) == First(t, x)
    requires Opt(after) == Next(t, c) && Opt(before) == Prev(t, c)
    requires x.nextSibling == if x == before then after else next
    requires x.prevSibling == if x == after then before else prev
    requires x.firstChild == if x == p && first == c then after else first
    ensures Skips(t, p, c, x)
  {
    hide Sound, Next, Prev, First, Detach;
    DetachedAt(t, c, x);
  }

  /** After the assignments of XmlNodeRemoveChild the pointers stand for the forest without the child. */
  lemma Unlinked(t: Shape<XmlNode>, p: XmlNode, c: XmlNode)
    requires Sound(t) && t.up.Keys == t.nodes && c in t.nodes && t.up[c] == Some(p)
    requires forall x :: x in t.nodes && x != c ==> Skips(t, p, c, x)
    requires c.parentNode == c.prevSibling == c.nextSibling == null && Opt(c.firstChild) == First(t, c) && First(t, c) != Some(c)
    ensures Links(Detach(t, c))
  {
    hide First, Next, Prev;
    DetachedNodes(t, c);
    var r := Detach(t, c);
    forall x | x in t.nodes ensures LinkedAt(r, x) {
      DetachedAt(t, c, x);
    }
    LinksIntro(r);
  }

  lemma Unknotted(t: Shape<XmlNode>, c: XmlNode)
    requires Sound(t) && c in t.nodes && t.up.Keys == t.nodes && t.up[c].None?
    requires forall x :: x in t.nodes && x != c ==> LinkedAt(t, x)
    requires c.parentNode == c.prevSibling == c.nextSibling == null && Opt(c.firstChild) == First(t, c)
    ensures Links(t)
  {
    RootBeside(t, c);
  }

  lemma DetachedNodes(t: Shape<XmlNode>, c: XmlNode)
    requires Sound(t) && c in t.nodes && t.up.Keys == t.nodes && t.up[c].Some?
    ensures Sound(Detach(t, c)) && Detach(t, c).nodes == t.nodes
  {
    DetachSound(t, c);
  }

  lemma DetachedAt(t: Shape<XmlNode>, c: XmlNode, x: XmlNode)
    requires Sound(t) && c in t.nodes && t.up.Keys == t.nodes && t.up[c].Some? && x in t.nodes && Sound(Detach(t, c))
    ensures var r := Detach(t, c);
            && r.up.Keys == t.nodes == r.nodes && r.up[x] == (if x == c then None else t.up[x])
            && Next(r, x) == (if x == c then None else if Next(t, x) == Some(c) then Next(t, c) else Next(t, x))
            && Prev(r, x) == (if x == c then None else if Prev(t, x) == Some(c) then Prev(t, c) else Prev(t, x))
            && First(r, x) == (if First(t, x) == Some(c) then Next(t, c) else First(t, x))
    ensures Next(t, x) == Some(c) <==> Prev(t, c) == Some(x)
    ensures Prev(t, x) == Some(c) <==> Next(t, c) == Some(x)
    ensures First(t, x) == Some(c) ==> t.up[c] == Some(x)
  {
    hide Sound, Next, Prev, First;
    DetachBeside(t, c, x);
    DetachFirst(t, c, x);
    NextPrev(t, c);
    NextPrev(t, x);
    FirstIsKid(t, x);
  }

  lemma FirstIsKid(t: Shape<XmlNode>, x: XmlNode)
    requires Sound(t) && x in t.nodes
    ensures t.up.Keys == t.nodes
    ensures First(t, x).Some? ==> First(t, x).value in t.nodes && t.up[First(t, x).value] == Some(x)
  {
    hide Sound;
    SoundNode(t, x);
    if First(t, x).Some? {
      SoundKid(t, x, First(t, x).value);
    }
  }

  lemma RootBeside(t: Shape<XmlNode>, c: XmlNode)
    requires Sound(t) && c in t.nodes && t.up.Keys == t.nodes && t.up[c].None?
    ensures Next(t, c) == None && Prev(t, c) == None
  {
  }

  /** What the removal needs of the pointers it follows. */
  lemma RemovalFacts(t: Shape<XmlNode>, p: XmlNode, c: XmlNode)
    requires p in t.nodes && c in t.nodes && c.parentNode == p && (Links(t) || Knotted(t, p, c))
    ensures Sound(t) && t.up.Keys == t.nodes && LinkedAt(t, p) && p != c
    ensures Links(t) ==> t.up[c] == Some(p) && LinkedAt(t, c)
    ensures c.prevSibling != null ==> c.prevSibling in t.nodes
    ensures c.nextSibling != null ==> c.nextSibling in t.nodes
    ensures Links(t) ==> c.prevSibling != c && c.nextSibling != c
    ensures Knotted(t, p, c) ==> p.firstChild != c
  {
    hide Sound, Next, Prev, First;
    if Links(t) {
      LinksAt(t, p);
      LinksAt(t, c);
      NextPrev(t, c);
      SoundNode(t, c);
    }
    if Knotted(t, p, c) {
      FirstIsKid(t, p);
    }
  }

  // ----- XmlNodeAppendChild ---------------------------------------------------------------------------

  /** The forest without the node's place among the children of `p`, if it has one there. */
  ghost function Freed(t: Shape<XmlNode>, p: XmlNode, c: XmlNode): Shape<XmlNode>
    requires Sound(t) && c in t.nodes
  {
    if t.up[c] == Some(p) then Detach(t, c) else t
  }

  lemma FreedIs(t: Shape<XmlNode>, p: XmlNode, c: XmlNode)
    requires Sound(t) && c in t.nodes && p in t.nodes && c != p && !Reaches(t, c, p)
    requires t.up.Keys == t.nodes && (t.up[c] == None || t.up[c] == Some(p))
    ensures var r := Freed(t, p, c);
            Sound(r) && r.nodes == t.nodes && r.up.Keys == t.nodes == r.kids.Keys && r.up[c] == None && !Under(r, p, c)
  {
    hide Sound, Under, Reaches;
    if t.up[c] == Some(p) {
      DetachSound(t, c);
      DetachUnder(t, c, p);
      ParentNotUnder(t, c);
    } else {
      AncestorReaches(t, c, p);
    }
    SoundMaps(Freed(t, p, c));
  }

  /** When a node keeps its place elsewhere, or becomes its own parent, there is no forest any more. */
  lemma Misplaced(r: Shape<XmlNode>, p: XmlNode, c: XmlNode, q: XmlNode, b: XmlNode?)
    requires p in r.nodes && c in r.nodes && q in r.nodes && (b != null ==> b in r.nodes)
    requires c.parentNode == p
    requires p == c || (q != p && (q.firstChild == c || (b != null && b.parentNode == q && b.nextSibling == c)))
    ensures !Links(r)
  {
    hide Sound, Next, Prev, First, Links;
    if Links(r) {
      LinksAt(r, c);
      SoundNode(r, c);
      LinksAt(r, q);
      FirstIsKid(r, q);
      if b != null {
        LinksAt(r, b);
        NextPrev(r, b);
      }
    }
  }

  /** When may `c` become a child of `p` without leaving a place it still holds? */
  ghost predicate Free(t: Shape<XmlNode>, p: XmlNode, c: XmlNode)
    requires Sound(t) && c in t.nodes && t.up.Keys == t.nodes
  {
    c != p && (t.up[c] == None || t.up[c] == Some(p))
  }

  /** The node before `c`, or the parent whose first child it is, still holds it. */
  lemma StillHeld(t: Shape<XmlNode>, c: XmlNode)
    requires Links(t) && c in t.nodes && c.parentNode != null
    ensures c.parentNode in t.nodes
    ensures c.prevSibling == null ==> c.parentNode.firstChild == c
    ensures c.prevSibling != null ==>
              c.prevSibling in t.nodes && c.prevSibling.parentNode == c.parentNode && c.prevSibling.nextSibling == c && c.prevSibling != c
  {
    hide Sound, Next, First, Prev;
    LinksAt(t, c);
    SoundNode(t, c);
    NextPrev(t, c);
    var q := c.parentNode;
    LinksAt(t, q);
    if c.prevSibling == null {
      FirstOf(t, c);
    } else {
      LinksAt(t, c.prevSibling);
    }
  }

  lemma FirstOf(t: Shape<XmlNode>, c: XmlNode)
    requires Sound(t) && c in t.nodes && t.up.Keys == t.nodes && t.up[c].Some? && Prev(t, c) == None && t.up[c].value in t.nodes
    ensures First(t, t.up[c].value) == Some(c)
  {
    hide Sound, Distinct;
    SoundNode(t, c);
  }

  /** What the caller of XmlNodeAppendChild gets back. */
  ghost predicate AppendCode(t: Shape<XmlNode>, p: XmlNode, c: XmlNode, ret: Code)
    requires Sound(t) && p in t.nodes && c in t.nodes
    reads p, c
  {
    ret == if c.ownerDocument != null && p.ownerDocument != c.ownerDocument then WrongDocumentErr
           else if Reaches(t, c, p) then HierarchyRequestErr
           else if !AllowChildren(p.nodeType, c.nodeType) then HierarchyRequestErr
           else Ok
  }

  /** XmlNodeAppendChild. When it succeeds, the pointers stand for the forest in which the node is the
      last child, exactly when the node was free: no child elsewhere, and not its own parent to be. */
  method AppendChild(nodeptr: XmlNode?, newChild: XmlNode?, ghost t: Shape<XmlNode>) returns (ret: Code)
    requires Links(t) && (nodeptr != null ==> nodeptr in t.nodes) && (newChild != null ==> newChild in t.nodes)
    modifies t.nodes
    ensures if nodeptr == null || newChild == null then ret == InvalidParameter else old(AppendCode(t, nodeptr, newChild, ret))
    ensures ret != Ok ==> unchanged(t.nodes)
    ensures ret == Ok ==> Appended(t, nodeptr, newChild)
    ensures ret == Ok && !Free(t, nodeptr, newChild) ==> forall s: Shape<XmlNode> :: s.nodes == t.nodes ==> !Links(s)
    ensures forall x :: x in t.nodes ==> x.nodeType == old(x.nodeType)
    ensures ret == Ok ==> newChild.ownerDocument == old(nodeptr.ownerDocument)
    ensures forall x :: x in t.nodes && x != newChild ==> x.ownerDocument == old(x.ownerDocument)
  {
    hide Sound, First, Next, Prev, Links, Reaches, Under, Appended;
    if nodeptr == null || newChild == null {
      return InvalidParameter;
    }
    LinksAt(t, nodeptr);
    LinksAt(t, newChild);
    if newChild.ownerDocument != null && nodeptr.ownerDocument != newChild.ownerDocument {
      return WrongDocumentErr;
    }
    var above := IsAncestor(newChild, nodeptr, t);
    if above {
      return HierarchyRequestErr;
    }
    if !AllowChildren(nodeptr.nodeType, newChild.nodeType) {
      return HierarchyRequestErr;
    }
    FreeIs(t, nodeptr, newChild);
    if newChild.parentNode == nodeptr || (newChild.parentNode == null && newChild != nodeptr) {
      AppendFree(nodeptr, newChild, t);
    } else {
      AppendHeld(nodeptr, newChild, t);
      HeldAppended(t, nodeptr, newChild);
    }
    return Ok;
  }

  /** The node is the last child in the new forest. */
  ghost predicate Appended(t: Shape<XmlNode>, p: XmlNode, c: XmlNode)
    requires Sound(t) && p in t.nodes && c in t.nodes
    reads t.nodes
  {
    SoundMaps(t);
    Free(t, p, c) ==>
      var r := Freed(t, p, c);
      Sound(r) && p in r.kids && r.up.Keys == t.nodes && r.up[c] == None && Links(Attach(r, p, |r.kids[p]|, c))
  }

  lemma HeldAppended(t: Shape<XmlNode>, p: XmlNode, c: XmlNode)
    requires Sound(t) && p in t.nodes && c in t.nodes && t.up.Keys == t.nodes && !Free(t, p, c)
    ensures Appended(t, p, c)
  {
  }

  lemma FreeIs(t: Shape<XmlNode>, p: XmlNode, c: XmlNode)
    requires Links(t) && p in t.nodes && c in t.nodes
    ensures Sound(t) && t.up.Keys == t.nodes
    ensures Free(t, p, c) <==> c.parentNode == p || (c.parentNode == null && c != p)
  {
    hide Links, First, Next, Prev, Sound;
    LinksAt(t, c);
    SoundNode(t, c);
  }

  /** The end of XmlNodeAppendChild for a node that is detached, or a child already. */
  method AppendFree(nodeptr: XmlNode, newChild: XmlNode, ghost t: Shape<XmlNode>)
    requires Links(t) && nodeptr in t.nodes && newChild in t.nodes && t.up.Keys == t.nodes
    requires Free(t, nodeptr, newChild) && !Reaches(t, newChild, nodeptr)
    modifies t.nodes
    ensures Sound(t) && Appended(t, nodeptr, newChild)
    ensures newChild.ownerDocument == old(nodeptr.ownerDocument)
    ensures forall x :: x in t.nodes ==> x.nodeType == old(x.nodeType) && (x != newChild ==> x.ownerDocument == old(x.ownerDocument))
  {
    hide Sound, First, Next, Prev, Reaches, Under, Links;
    LinksAt(t, newChild);
    FreedIs(t, nodeptr, newChild);
    if newChild.parentNode == nodeptr {
      var code, _ := RemoveChild(nodeptr, newChild, t);
    }
    LinkLast(nodeptr, newChild, Freed(t, nodeptr, newChild));
  }

  /** A root becomes the last child. */
  method LinkLast(nodeptr: XmlNode, newChild: XmlNode, ghost r: Shape<XmlNode>)
    requires Links(r) && nodeptr in r.nodes && newChild in r.nodes && r.up.Keys == r.nodes == r.kids.Keys
    requires r.up[newChild] == None && newChild != nodeptr && !Under(r, nodeptr, newChild)
    modifies r.nodes
    ensures Links(Attach(r, nodeptr, |r.kids[nodeptr]|, newChild))
    ensures newChild.ownerDocument == old(nodeptr.ownerDocument)
    ensures forall x :: x in r.nodes ==> x.nodeType == old(x.nodeType) && (x != newChild ==> x.ownerDocument == old(x.ownerDocument))
  {
    hide Sound, First, Next, Prev, Under, At;
    var prev := LastOrNull(nodeptr, r);
    ghost var i := |r.kids[nodeptr]|;
    LastFacts(r, nodeptr, newChild, prev);
    SetLast(nodeptr, newChild, prev, r.nodes);
    forall x | x in r.nodes ensures x != newChild ==> Meets(r, nodeptr, i, newChild, x) {
      assert old(LinkedAt(r, x));
      if x != newChild {
        MeetsFrom(r, nodeptr, i, newChild, x, old(x.nextSibling), old(x.prevSibling), old(x.firstChild));
      }
    }
    LinkedIn(r, nodeptr, i, newChild);
  }

  lemma LastFacts(r: Shape<XmlNode>, p: XmlNode, c: XmlNode, prev: XmlNode?)
    requires Links(r) && p in r.nodes && c in r.nodes && r.up.Keys == r.nodes == r.kids.Keys && r.up[c] == None
    requires Opt(prev) == At(r.kids[p], |r.kids[p]| - 1) && (prev != null ==> prev in r.nodes && prev.parentNode == p)
    ensures At(r.kids[p], |r.kids[p]|) == None && (prev == null <==> |r.kids[p]| == 0) && prev != c
    ensures c.prevSibling == c.nextSibling == null && Opt(c.firstChild) == First(r, c)
  {
    hide Sound, First, Next, Prev;
    LinksAt(r, c);
    RootBeside(r, c);
    if prev != null {
      LinksAt(r, prev);
    }
  }

  /** The same for a node that has its place elsewhere, or is to be its own parent. */
  method AppendHeld(nodeptr: XmlNode, newChild: XmlNode, ghost t: Shape<XmlNode>)
    requires Links(t) && nodeptr in t.nodes && newChild in t.nodes && t.up.Keys == t.nodes && !Free(t, nodeptr, newChild)
    modifies t.nodes
    ensures forall s: Shape<XmlNode> :: s.nodes == t.nodes ==> !Links(s)
    ensures newChild.ownerDocument == old(nodeptr.ownerDocument)
    ensures forall x :: x in t.nodes ==> x.nodeType == old(x.nodeType) && (x != newChild ==> x.ownerDocument == old(x.ownerDocument))
  {
    hide Sound, First, Next, Prev, Links;
    LinksAt(t, newChild);
    ghost var q, b := newChild.parentNode, newChild.prevSibling;
    SoundNode(t, newChild);
    if q != null {
      StillHeld(t, newChild);
    } else {
      RootBeside(t, newChild);
    }
    var prev := LastOrNull(nodeptr, t);
    SetLast(nodeptr, newChild, prev, t.nodes);
    forall s: Shape<XmlNode> | s.nodes == t.nodes ensures !Links(s) {
      Misplaced(s, nodeptr, newChild, if q == null then nodeptr else q, b);
    }
  }

  /** The walk along the siblings to the last child. */
  method LastChild(nodeptr: XmlNode, ghost r: Shape<XmlNode>) returns (prev: XmlNode)
    requires Links(r) && nodeptr in r.nodes && nodeptr.firstChild != null
    ensures r.kids.Keys == r.nodes && prev in r.nodes && r.kids[nodeptr] != [] && r.kids[nodeptr][|r.kids[nodeptr]| - 1] == prev
    ensures prev.parentNode == nodeptr
  {
    hide Sound, Links, Next, Prev;
    LinksAt(r, nodeptr);
    FirstIsKid(r, nodeptr);
    prev := nodeptr.firstChild;
    LinksAt(r, prev);
    var next := prev.nextSibling;
    while next != null
      invariant prev in r.nodes && r.up[prev] == Some(nodeptr) && Opt(next) == Next(r, prev)
      decreases |FromHere(r, prev)|
    {
      NextPrev(r, prev);
      FromHereSteps(r, prev);
      prev := next;
      LinksAt(r, prev);
      next := prev.nextSibling;
    }
    LastOf(r, prev);
    LinksAt(r, prev);
  }

  lemma LastOf(t: Shape<XmlNode>, x: XmlNode)
    requires Sound(t) && x in t.nodes && t.up.Keys == t.nodes == t.kids.Keys && t.up[x].Some? && Next(t, x) == None
    ensures t.up[x].value in t.nodes
    ensures var s := t.kids[t.up[x].value]; s != [] && s[|s| - 1] == x
  {
    SoundNode(t, x);
  }

  /** The assignments of XmlNodeAppendChild, behind the last child when there is one. */
  method SetLast(p: XmlNode, c: XmlNode, prev: XmlNode?, ghost nodes: set<XmlNode>)
    requires p in nodes && c in nodes && (prev != null ==> prev in nodes && prev != c)
    modifies nodes
    ensures c.parentNode == p && c.nextSibling == old(c.nextSibling) && c.prevSibling == if prev == null then old(c.prevSibling) else prev
    ensures c != p ==> c.firstChild == old(c.firstChild)
    ensures forall x :: x in nodes && x != c ==> x.parentNode == old(x.parentNode) && x.prevSibling == old(x.prevSibling)
    ensures forall x :: x in nodes && x != c ==> x.nextSibling == if x == prev then c else old(x.nextSibling)
    ensures forall x :: x in nodes && x != c ==> x.firstChild == if x == p && prev == null then c else old(x.firstChild)
    ensures c.ownerDocument == old(p.ownerDocument)
    ensures forall x :: x in nodes ==> x.nodeType == old(x.nodeType) && (x != c ==> x.ownerDocument == old(x.ownerDocument))
  {
    c.parentNode := p;
    c.ownerDocument := p.ownerDocument;
    if prev == null {
      p.firstChild := c;
    } else {
      prev.nextSibling := c;
      c.prevSibling := prev;
    }
  }

  /** The last of the children, if there are any. */
  method LastOrNull(nodeptr: XmlNode, ghost r: Shape<XmlNode>) returns (prev: XmlNode?)
    requires Links(r) && nodeptr in r.nodes
    ensures Sound(r) && r.kids.Keys == r.nodes == r.up.Keys && Opt(prev) == At(r.kids[nodeptr], |r.kids[nodeptr]| - 1)
    ensures prev != null ==> prev in r.nodes && prev.parentNode == nodeptr
  {
    hide Sound, Next, Prev;
    LinksAt(r, nodeptr);
    prev := null;
    if nodeptr.firstChild != null {
      prev := LastChild(nodeptr, r);
    }
  }

  /** After the pointers of a new child `c` and of its neighbours are set, they stand for the forest in
      which it is child `i` of `p`. */
  lemma LinkedIn(r: Shape<XmlNode>, p: XmlNode, i: nat, c: XmlNode)
    requires Sound(r) && p in r.nodes && c in r.nodes && p != c
    requires r.up.Keys == r.nodes == r.kids.Keys && r.up[c] == None && i <= |r.kids[p]| && !Under(r, p, c)
    requires forall x :: x in r.nodes && x != c ==> Meets(r, p, i, c, x)
    requires c.parentNode == p && Opt(c.firstChild) == First(r, c)
    requires Opt(c.prevSibling) == At(r.kids[p], i - 1) && Opt(c.nextSibling) == At(r.kids[p], i)
    ensures Links(Attach(r, p, i, c))
  {
    hide First, Next, Prev, Under, Sound;
    AttachSound(r, p, i, c);
    AttachNodes(r, p, i, c);
    var a := Attach(r, p, i, c);
    SoundMaps(a);
    forall x | x in a.nodes ensures LinkedAt(a, x) {
      AttachBeside(r, p, i, c, x);
    }
    LinksIntro(a);
  }

  /** From what the pointers were, and what has been assigned to them. */
  lemma MeetsFrom(r: Shape<XmlNode>, p: XmlNode, i: nat, c: XmlNode, x: XmlNode, next: XmlNode?, prev: XmlNode?, first: XmlNode?)
    requires Sound(r) && p in r.nodes && x in r.nodes && r.kids.Keys == r.nodes == r.up.Keys && i <= |r.kids[p]|
    requires Opt(x.parentNode) == r.up[x] && Opt(next) == Next(r, x) && Opt(prev) == Prev(r, x) && Opt(first) == First(r, x)
    requires x.nextSibling == if Some(x) == At(r.kids[p], i - 1) then c else next
    requires x.prevSibling == if Some(x) == At(r.kids[p], i) then c else prev
    requires x.firstChild == if x == p && i == 0 then c else first
    ensures Meets(r, p, i, c, x)
  {
    hide Sound, Next, Prev, First;
  }

  /** The pointers of `x` take the new child `i` of `p` into account. */
  ghost predicate Meets(r: Shape<XmlNode>, p: XmlNode, i: nat, c: XmlNode, x: XmlNode)
    requires Sound(r) && p in r.nodes && x in r.nodes && i <= |r.kids[p]|
    reads x
  {
    && Opt(x.parentNode) == r.up[x]
    && Opt(x.nextSibling) == (if Some(x) == At(r.kids[p], i - 1) then Some(c) else Next(r, x))
    && Opt(x.prevSibling) == (if Some(x) == At(r.kids[p], i) then Some(c) else Prev(r, x))
    && Opt(x.firstChild) == if x == p && i == 0 then Some(c) else First(r, x)
  }

  lemma AttachNodes(t: Shape<XmlNode>, p: XmlNode, i: nat, c: XmlNode)
    requires Sound(t) && c in t.nodes && p in t.nodes && t.up.Keys == t.nodes == t.kids.Keys && t.up[c] == None && i <= |t.kids[p]|
    ensures Attach(t, p, i, c).nodes == t.nodes && Attach(t, p, i, c).up == t.up[c := Some(p)]
  {
  }

  lemma LinksIntro(t: Shape<XmlNode>)
    requires Sound(t) && forall x :: x in t.nodes ==> LinkedAt(t, x)
    ensures Links(t)
  {
  }

  // ----- XmlNodeInsertBefore --------------------------------------------------------------------------

  /** What the caller of XmlNodeInsertBefore gets back. */
  ghost predicate InsertCode(t: Shape<XmlNode>, p: XmlNode, c: XmlNode, ref: XmlNode?, ret: Code)
    requires Sound(t) && p in t.nodes && c in t.nodes
    reads p, c, ref
  {
    ret == if !AllowChildren(p.nodeType, c.nodeType) then HierarchyRequestErr
           else if Reaches(t, c, p) then HierarchyRequestErr
           else if p.ownerDocument != c.ownerDocument then WrongDocumentErr
           else if ref == null then AssertionFailed
           else if ref.parentNode != p then NotFoundErr
           else Ok
  }

  /** The assignments of XmlNodeInsertBefore. */
  method SetBefore(p: XmlNode, c: XmlNode, ref: XmlNode, ghost nodes: set<XmlNode>)
    requires p in nodes && c in nodes && ref in nodes && p != ref
    requires ref.prevSibling != null ==> ref.prevSibling in nodes && ref.prevSibling != c
    modifies nodes
    ensures c.parentNode == p && c.nextSibling == ref
    ensures c != ref ==> c.prevSibling == if old(ref.prevSibling) == null then old(c.prevSibling) else old(ref.prevSibling)
    ensures c == ref && old(ref.prevSibling) == null ==> c.prevSibling == c
    ensures c != p ==> c.firstChild == old(c.firstChild)
    ensures forall x :: x in nodes && x != c ==> x.parentNode == old(x.parentNode)
    ensures forall x :: x in nodes && x != c ==> x.nextSibling == if x == old(ref.prevSibling) then c else old(x.nextSibling)
    ensures forall x :: x in nodes && x != c ==> x.prevSibling == if x == ref then c else old(x.prevSibling)
    ensures forall x :: x in nodes && x != c ==>
              x.firstChild == if x == p && c != ref && old(ref.prevSibling) == null && old(c.prevSibling) == null then c else old(x.firstChild)
    ensures forall x :: x in nodes ==> x.nodeType == old(x.nodeType) && x.ownerDocument == old(x.ownerDocument)
  {
    c.nextSibling := ref;
    if ref.prevSibling != null {
      ref.prevSibling.nextSibling := c;
      c.prevSibling := ref.prevSibling;
    }
    ref.prevSibling := c;
    if c.prevSibling == null {
      p.firstChild := c;
    }
    c.parentNode := p;
  }

  /** The node is the child before `ref` in the new forest; a node put before itself is knotted. */
  ghost predicate InsertedBefore(t: Shape<XmlNode>, p: XmlNode, c: XmlNode, ref: XmlNode)
    requires Sound(t) && p in t.nodes && c in t.nodes
    reads t.nodes
  {
    SoundMaps(t);
    Free(t, p, c) ==>
      if c == ref then t.up[c].Some? && Knotted(Detach(t, c), p, c)
      else
        var r := Freed(t, p, c);
        && Sound(r) && p in r.kids && r.up.Keys == t.nodes && r.up[c] == None && ref in r.kids[p]
        && Links(Attach(r, p, IndexOf(r.kids[p], ref), c))
  }

  /** XmlNodeInsertBefore. Without a reference child it fails an assertion exactly when the tests before
      have passed, and never appends. When it succeeds, the pointers stand for the forest in which the node
      is the child before the reference, exactly when the node was free and is not the reference itself. */
  method InsertBefore(nodeptr: XmlNode?, newChild: XmlNode?, refChild: XmlNode?, ghost t: Shape<XmlNode>) returns (ret: Code)
    requires Links(t) && (nodeptr != null ==> nodeptr in t.nodes) && (newChild != null ==> newChild in t.nodes)
    requires refChild != null ==> refChild in t.nodes
    modifies t.nodes
    ensures if nodeptr == null || newChild == null then ret == InvalidParameter else old(InsertCode(t, nodeptr, newChild, refChild, ret))
    ensures ret != Ok ==> unchanged(t.nodes)
    ensures ret == Ok ==> refChild != null && InsertedBefore(t, nodeptr, newChild, refChild) && refChild.parentNode == nodeptr != refChild
    ensures ret == Ok && (!Free(t, nodeptr, newChild) || newChild == refChild) ==>
              forall s: Shape<XmlNode> :: s.nodes == t.nodes ==> !Links(s)
    ensures ret == Ok && !Free(t, nodeptr, newChild) ==> HeldBefore(t.nodes, nodeptr, newChild, refChild)
    ensures forall x :: x in t.nodes ==> x.nodeType == old(x.nodeType) && x.ownerDocument == old(x.ownerDocument)
  {
    hide Sound, First, Next, Prev, Links, Reaches, Under, InsertedBefore, HeldBefore;
    if nodeptr == null || newChild == null {
      return InvalidParameter;
    }
    LinksAt(t, nodeptr);
    LinksAt(t, newChild);
    if !AllowChildren(nodeptr.nodeType, newChild.nodeType) {
      return HierarchyRequestErr;
    }
    var above := IsAncestor(newChild, nodeptr, t);
    if above {
      return HierarchyRequestErr;
    }
    if nodeptr.ownerDocument != newChild.ownerDocument {
      return WrongDocumentErr;
    }
    if refChild == null {
      return AssertionFailed;
    }
    if refChild.parentNode != nodeptr {
      return NotFoundErr;
    }
    FreeIs(t, nodeptr, newChild);
    if newChild == refChild {
      InsertSelf(nodeptr, newChild, t);
    } else if newChild.parentNode == nodeptr || (newChild.parentNode == null && newChild != nodeptr) {
      InsertFree(nodeptr, newChild, refChild, t);
    } else {
      InsertHeld(nodeptr, newChild, refChild, t);
      HeldInserted(t, nodeptr, newChild, refChild);
    }
    return Ok;
  }

  lemma HeldInserted(t: Shape<XmlNode>, p: XmlNode, c: XmlNode, ref: XmlNode)
    requires Sound(t) && p in t.nodes && c in t.nodes && t.up.Keys == t.nodes && !Free(t, p, c)
    ensures InsertedBefore(t, p, c, ref)
  {
  }

  method InsertFree(nodeptr: XmlNode, newChild: XmlNode, refChild: XmlNode, ghost t: Shape<XmlNode>)
    requires Links(t) && nodeptr in t.nodes && newChild in t.nodes && refChild in t.nodes && t.up.Keys == t.nodes
    requires Free(t, nodeptr, newChild) && !Reaches(t, newChild, nodeptr) && refChild.parentNode == nodeptr && newChild != refChild
    modifies t.nodes
    ensures Sound(t) && InsertedBefore(t, nodeptr, newChild, refChild) && refChild.parentNode == nodeptr != refChild
    ensures forall x :: x in t.nodes ==> x.nodeType == old(x.nodeType) && x.ownerDocument == old(x.ownerDocument)
  {
    hide Sound, First, Next, Prev, Reaches, Under, Links;
    LinksAt(t, newChild);
    LinksAt(t, refChild);
    FreedIs(t, nodeptr, newChild);
    FreedKeeps(t, nodeptr, newChild, refChild);
    if newChild.parentNode == nodeptr {
      var code, _ := RemoveChild(nodeptr, newChild, t);
    }
    LinkBefore(nodeptr, newChild, refChild, Freed(t, nodeptr, newChild));
  }

  lemma FreedKeeps(t: Shape<XmlNode>, p: XmlNode, c: XmlNode, ref: XmlNode)
    requires Sound(t) && c in t.nodes && p in t.nodes && ref in t.nodes && ref != c && t.up.Keys == t.nodes && t.up[ref] == Some(p)
    requires Sound(Freed(t, p, c))
    ensures p in Freed(t, p, c).kids && ref in Freed(t, p, c).kids[p]
  {
    hide Sound;
    SoundMaps(t);
    SoundNode(t, ref);
    if t.up[c] == Some(p) {
      DetachKid(t, c, p, ref);
    }
  }

  /** A root becomes the child before `ref`. */
  method LinkBefore(nodeptr: XmlNode, newChild: XmlNode, refChild: XmlNode, ghost r: Shape<XmlNode>)
    requires Links(r) && nodeptr in r.nodes && newChild in r.nodes && r.up.Keys == r.nodes == r.kids.Keys
    requires r.up[newChild] == None && newChild != nodeptr && !Under(r, nodeptr, newChild)
    requires refChild in r.kids[nodeptr] && refChild != newChild
    modifies r.nodes
    ensures Links(Attach(r, nodeptr, IndexOf(r.kids[nodeptr], refChild), newChild))
    ensures refChild.parentNode == nodeptr != refChild
    ensures forall x :: x in r.nodes ==> x.nodeType == old(x.nodeType) && x.ownerDocument == old(x.ownerDocument)
  {
    hide Sound, First, Next, Prev, Under, At, IndexOf;
    BeforeFacts(r, nodeptr, newChild, refChild);
    ghost var i := IndexOf(r.kids[nodeptr], refChild);
    SetBefore(nodeptr, newChild, refChild, r.nodes);
    forall x | x in r.nodes ensures x != newChild ==> Meets(r, nodeptr, i, newChild, x) {
      assert old(LinkedAt(r, x));
      if x != newChild {
        MeetsFrom(r, nodeptr, i, newChild, x, old(x.nextSibling), old(x.prevSibling), old(x.firstChild));
      }
    }
    LinkedIn(r, nodeptr, i, newChild);
  }

  lemma BeforeFacts(r: Shape<XmlNode>, p: XmlNode, c: XmlNode, ref: XmlNode)
    requires Links(r) && p in r.nodes && c in r.nodes && r.up.Keys == r.nodes == r.kids.Keys
    requires r.up[c] == None && ref in r.kids[p] && ref != c
    ensures ref in r.nodes && ref != p && ref.parentNode == p && c.prevSibling == null && Opt(c.firstChild) == First(r, c)
    ensures At(r.kids[p], IndexOf(r.kids[p], ref)) == Some(ref)
    ensures Opt(ref.prevSibling) == At(r.kids[p], IndexOf(r.kids[p], ref) - 1)
    ensures ref.prevSibling == null <==> IndexOf(r.kids[p], ref) == 0
    ensures ref.prevSibling != null ==> ref.prevSibling in r.nodes && ref.prevSibling != c
  {
    hide Sound, First, Next;
    SoundKid(r, p, ref);
    SoundNode(r, ref);
    LinksAt(r, ref);
    LinksAt(r, c);
    NextPrev(r, ref);
    RootBeside(r, c);
  }

  /** A node put before itself: first removed, and then its own sibling. */
  method InsertSelf(nodeptr: XmlNode, newChild: XmlNode, ghost t: Shape<XmlNode>)
    requires Links(t) && nodeptr in t.nodes && newChild in t.nodes && t.up.Keys == t.nodes && newChild.parentNode == nodeptr
    modifies t.nodes
    ensures Sound(t) && InsertedBefore(t, nodeptr, newChild, newChild) && Free(t, nodeptr, newChild)
    ensures newChild.parentNode == nodeptr != newChild
    ensures forall s: Shape<XmlNode> :: s.nodes == t.nodes ==> !Links(s)
    ensures forall x :: x in t.nodes ==> x.nodeType == old(x.nodeType) && x.ownerDocument == old(x.ownerDocument)
  {
    hide Sound, First, Next, Prev, Detach, Links;
    LinksAt(t, newChild);
    SoundNode(t, newChild);
    DetachedNodes(t, newChild);
    DetachedAt(t, newChild, newChild);
    var code, _ := RemoveChild(nodeptr, newChild, t);
    KnotSelf(nodeptr, newChild, Detach(t, newChild));
    forall s: Shape<XmlNode> | s.nodes == t.nodes ensures !Links(s) {
      SelfIsNoForest(s, newChild);
    }
  }

  method KnotSelf(p: XmlNode, c: XmlNode, ghost r: Shape<XmlNode>)
    requires Links(r) && p in r.nodes && c in r.nodes && r.up.Keys == r.nodes && r.up[c] == None && p != c
    modifies r.nodes
    ensures Knotted(r, p, c)
    ensures forall x :: x in r.nodes ==> x.nodeType == old(x.nodeType) && x.ownerDocument == old(x.ownerDocument)
  {
    hide Sound, First, Next, Prev;
    LinksAt(r, c);
    RootBeside(r, c);
    SetBefore(p, c, c, r.nodes);
    forall x | x in r.nodes ensures x != c ==> LinkedAt(r, x) {
      assert old(LinkedAt(r, x));
    }
  }

  lemma SelfIsNoForest(s: Shape<XmlNode>, c: XmlNode)
    requires c in s.nodes && c.nextSibling == c
    ensures !Links(s)
  {
    hide Sound, First, Next, Prev, Links;
    if Links(s) {
      LinksAt(s, c);
      NextPrev(s, c);
    }
  }

  /** What is left when a node is put before `ref` while it has its place elsewhere: it is held there. */
  ghost predicate HeldBefore(nodes: set<XmlNode>, p: XmlNode, c: XmlNode, ref: XmlNode)
    requires p in nodes && c in nodes && ref in nodes
    reads nodes
  {
    && c.parentNode == p && ref != p && ref != c && ref.parentNode == p && ref.prevSibling == c
    && (ref.nextSibling != null ==> ref.nextSibling in nodes)
    && (p == c || exists q :: q in nodes && HeldBy(nodes, p, c, q))
  }

  ghost predicate HeldBy(nodes: set<XmlNode>, p: XmlNode, c: XmlNode, q: XmlNode)
    requires q in nodes
    reads nodes
  {
    q != p && (q.firstChild == c || exists b :: b in nodes && b != c && b.parentNode == q && b.nextSibling == c)
  }

  method InsertHeld(nodeptr: XmlNode, newChild: XmlNode, refChild: XmlNode, ghost t: Shape<XmlNode>)
    requires Links(t) && nodeptr in t.nodes && newChild in t.nodes && refChild in t.nodes && t.up.Keys == t.nodes
    requires !Free(t, nodeptr, newChild) && refChild.parentNode == nodeptr
    modifies t.nodes
    ensures HeldBefore(t.nodes, nodeptr, newChild, refChild) && refChild.parentNode == nodeptr != refChild
    ensures forall s: Shape<XmlNode> :: s.nodes == t.nodes ==> !Links(s)
    ensures forall x :: x in t.nodes ==> x.nodeType == old(x.nodeType) && x.ownerDocument == old(x.ownerDocument)
  {
    hide Sound, First, Next, Prev, Links, HeldBy;
    LinksAt(t, newChild);
    LinksAt(t, refChild);
    SoundNode(t, newChild);
    SoundNode(t, refChild);
    NextPrev(t, refChild);
    ghost var q, b := newChild.parentNode, newChild.prevSibling;
    if q != null {
      StillHeld(t, newChild);
    } else {
      RootBeside(t, newChild);
    }
    if refChild.prevSibling != null {
      LinksAt(t, refChild.prevSibling);
    }
    SetBefore(nodeptr, newChild, refChild, t.nodes);
    if q != null {
      HeldThere(t.nodes, nodeptr, newChild, q, b);
    }
    HeldIsNoForest(t.nodes, nodeptr, newChild, refChild);
  }

  lemma HeldThere(nodes: set<XmlNode>, p: XmlNode, c: XmlNode, q: XmlNode, b: XmlNode?)
    requires q in nodes && q != p
    requires q.firstChild == c || (b != null && b in nodes && b != c && b.parentNode == q && b.nextSibling == c)
    ensures HeldBy(nodes, p, c, q)
  {
  }

  lemma HeldIsNoForest(nodes: set<XmlNode>, p: XmlNode, c: XmlNode, ref: XmlNode)
    requires p in nodes && c in nodes && c.parentNode == p
    requires p == c || exists q :: q in nodes && HeldBy(nodes, p, c, q)
    ensures forall s: Shape<XmlNode> :: s.nodes == nodes ==> !Links(s)
  {
    hide Links;
    forall s: Shape<XmlNode> | s.nodes == nodes ensures !Links(s) {
      if p == c {
        Misplaced(s, p, c, p, null);
      } else {
        var q :| q in nodes && HeldBy(nodes, p, c, q);
        if q.firstChild == c {
          Misplaced(s, p, c, q, null);
        } else {
          var b :| b in nodes && b != c && b.parentNode == q && b.nextSibling == c;
          Misplaced(s, p, c, q, b);
        }
      }
    }
  }

  // ----- XmlNodeReplaceChild --------------------------------------------------------------------------

  /** The node is in the place of `oldChild`, which is detached; a child replaced by itself is gone. */
  ghost predicate Replaced(t: Shape<XmlNode>, p: XmlNode, c: XmlNode, oldChild: XmlNode)
    requires Sound(t) && p in t.nodes && c in t.nodes
    reads t.nodes
  {
    SoundMaps(t);
    Free(t, p, c) ==>
      if c == oldChild then t.up[c].Some? && Links(Detach(t, c))
      else
        var r := Freed(t, p, c);
        && Sound(r) && p in r.kids && r.up.Keys == t.nodes && r.up[c] == None && oldChild in r.kids[p]
        && var a := Attach(r, p, IndexOf(r.kids[p], oldChild), c);
        && Sound(a) && oldChild in a.nodes && oldChild in a.up && a.up[oldChild].Some?
        && Links(Detach(a, oldChild))
  }

  /** XmlNodeReplaceChild. */
  method ReplaceChild(nodeptr: XmlNode?, newChild: XmlNode?, oldChild: XmlNode?, ghost t: Shape<XmlNode>) returns (ret: Code, returnNode: XmlNode?)
    requires Links(t) && (nodeptr != null ==> nodeptr in t.nodes) && (newChild != null ==> newChild in t.nodes)
    requires oldChild != null ==> oldChild in t.nodes
    modifies t.nodes
    ensures if nodeptr == null || newChild == null || oldChild == null then ret == InvalidParameter
            else old(InsertCode(t, nodeptr, newChild, oldChild, ret))
    ensures ret != Ok ==> unchanged(t.nodes)
    ensures ret == Ok ==> returnNode == oldChild && Replaced(t, nodeptr, newChild, oldChild)
    ensures ret == Ok && !Free(t, nodeptr, newChild) ==> forall s: Shape<XmlNode> :: s.nodes == t.nodes ==> !Links(s)
    ensures forall x :: x in t.nodes ==> x.nodeType == old(x.nodeType) && x.ownerDocument == old(x.ownerDocument)
  {
    hide Sound, First, Next, Prev, Links, Reaches, Under, InsertedBefore, HeldBefore, Replaced, Knotted;
    returnNode := null;
    if nodeptr == null || newChild == null || oldChild == null {
      return InvalidParameter, null;
    }
    var above := IsAncestor(newChild, nodeptr, t);
    if above {
      return HierarchyRequestErr, null;
    }
    if !AllowChildren(nodeptr.nodeType, newChild.nodeType) {
      return HierarchyRequestErr, null;
    }
    if nodeptr.ownerDocument != newChild.ownerDocument {
      return WrongDocumentErr, null;
    }
    if oldChild.parentNode != nodeptr {
      return NotFoundErr, null;
    }
    LinksAt(t, oldChild);
    ret := InsertBefore(nodeptr, newChild, oldChild, t);
    if ret != Ok {
      return ret, null;
    }
    ret, returnNode := RemoveReplaced(nodeptr, newChild, oldChild, t);
  }

  method RemoveReplaced(nodeptr: XmlNode, newChild: XmlNode, oldChild: XmlNode, ghost t: Shape<XmlNode>) returns (ret: Code, returnNode: XmlNode?)
    requires Sound(t) && t.up.Keys == t.nodes && nodeptr in t.nodes && newChild in t.nodes && oldChild in t.nodes && t.up[oldChild] == Some(nodeptr)
    requires oldChild.parentNode == nodeptr != oldChild && InsertedBefore(t, nodeptr, newChild, oldChild)
    requires !Free(t, nodeptr, newChild) ==> HeldBefore(t.nodes, nodeptr, newChild, oldChild)
    modifies t.nodes
    ensures ret == Ok && returnNode == oldChild && Replaced(t, nodeptr, newChild, oldChild)
    ensures !Free(t, nodeptr, newChild) ==> forall s: Shape<XmlNode> :: s.nodes == t.nodes ==> !Links(s)
    ensures forall x :: x in t.nodes ==> x.nodeType == old(x.nodeType) && x.ownerDocument == old(x.ownerDocument)
  {
    hide Sound, First, Next, Prev, Links, Reaches, Under;
    ghost var free := Free(t, nodeptr, newChild);
    ghost var now := t;
    if free && newChild == oldChild {
      now := Detach(t, newChild);
    } else if free {
      ghost var r := Freed(t, nodeptr, newChild);
      now := Attach(r, nodeptr, IndexOf(r.kids[nodeptr], oldChild), newChild);
    }
    ghost var q, b: XmlNode? := nodeptr, null;
    if !free && nodeptr != newChild {
      q :| q in t.nodes && HeldBy(t.nodes, nodeptr, newChild, q);
      if q.firstChild != newChild {
        b :| b in t.nodes && b != newChild && b.parentNode == q && b.nextSibling == newChild;
      }
    }
    ret, returnNode := RemoveChild(nodeptr, oldChild, now);
    if !free {
      forall s: Shape<XmlNode> | s.nodes == t.nodes ensures !Links(s) {
        Misplaced(s, nodeptr, newChild, q, b);
      }
    }
  }
}
