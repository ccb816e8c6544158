/** Which node may become a child of which, type by type (libcwmp/src/xmlet/node.c:639-674), and where it is
    afterwards. */
module XmlTables {
  import opened XmlShape
  import opened XmlNodes

  lemma Detached(t: Shape<XmlNode>, p: XmlNode, c: XmlNode)
    requires Links(t) && p in t.nodes && c in t.nodes && c.parentNode == null && c != p
    ensures Sound(t) && t.up.Keys == t.nodes == t.kids.Keys && t.up[c] == None && Free(t, p, c) && Freed(t, p, c) == t
    ensures Reaches(t, c, p) <==> Under(t, p, c)
  {
    hide Sound, Reaches, Under, First, Next, Prev, Links;
    LinksAt(t, c);
    SoundMaps(t);
    ReachesExactly(t, c, p);
  }

  /** XmlNodeAppendChild of a detached node that is no ancestor, with the same document: it succeeds for the types
      of the table, and the node is then the last child; otherwise nothing changes. */
  method AppendDetached(p: XmlNode, c: XmlNode, ghost t: Shape<XmlNode>) returns (ret: Code, ghost s: Shape<XmlNode>)
    requires Links(t) && p in t.nodes && c in t.nodes && c.parentNode == null && c != p && !Under(t, p, c)
    requires c.ownerDocument == null || c.ownerDocument == p.ownerDocument
    modifies t.nodes
    ensures p.nodeType == Element ==> (ret == Ok <==> c.nodeType !in {Attribute, Document})
    ensures p.nodeType == Document ==> (ret == Ok <==> c.nodeType == Element)
    ensures p.nodeType in {Attribute, Text, CdataSection} ==> ret != Ok
    ensures p.nodeType !in {Element, Document, Attribute, Text, CdataSection} ==> ret == Ok
    ensures ret == Ok ==> Links(s) && p in t.kids && s.kids == t.kids[p := t.kids[p] + [c]]
    ensures ret == Ok ==> c.parentNode == p && c.ownerDocument == p.ownerDocument && c.nextSibling == null
    ensures ret != Ok ==> ret == HierarchyRequestErr && unchanged(t.nodes)
  {
    hide Sound, Reaches, Under, First, Next, Prev, Links;
    s := t;
    Detached(t, p, c);
    ret := AppendChild(p, c, t);
    if ret == Ok {
      AppendKids(t, p, c);
      s := Attach(t, p, |t.kids[p]|, c);
      AttachNodes(t, p, |t.kids[p]|, c);
      LinksAt(s, c);
      LastHasNoNext(s, p, c);
    }
  }

  lemma LastHasNoNext(s: Shape<XmlNode>, p: XmlNode, c: XmlNode)
    requires Sound(s) && p in s.nodes && c in s.nodes && s.up.Keys == s.nodes == s.kids.Keys && s.up[c] == Some(p)
    requires s.kids[p] != [] && s.kids[p][|s.kids[p]| - 1] == c
    ensures Next(s, c) == None
  {
    SoundNode(s, p);
    IndexIs(s.kids[p], |s.kids[p]| - 1);
  }

  /** The errors of XmlNodeAppendChild that are no matter of types: a node of another document is refused first, and
      an ancestor next. */
  method AppendRefused(p: XmlNode, c: XmlNode, ghost t: Shape<XmlNode>) returns (ret: Code)
    requires Links(t) && p in t.nodes && c in t.nodes && c.parentNode == null && c != p
    requires (c.ownerDocument != null && c.ownerDocument != p.ownerDocument) || Under(t, p, c)
    modifies t.nodes
    ensures ret == if old(c.ownerDocument != null && c.ownerDocument != p.ownerDocument) then WrongDocumentErr else HierarchyRequestErr
    ensures unchanged(t.nodes)
  {
    hide Sound, Reaches, Under, First, Next, Prev, Links;
    Detached(t, p, c);
    ret := AppendChild(p, c, t);
  }

  /** XmlNodeInsertBefore of a detached node before a child of the node, in the same way: it is then the child before
      the reference, and all others keep their order. */
  method InsertDetached(p: XmlNode, c: XmlNode, ref: XmlNode, ghost t: Shape<XmlNode>) returns (ret: Code, ghost s: Shape<XmlNode>)
    requires Links(t) && p in t.nodes && c in t.nodes && ref in t.nodes && c.parentNode == null && c != p && !Under(t, p, c)
    requires c.ownerDocument == p.ownerDocument && ref.parentNode == p
    modifies t.nodes
    ensures p.nodeType == Element ==> (ret == Ok <==> c.nodeType !in {Attribute, Document})
    ensures p.nodeType == Document ==> (ret == Ok <==> c.nodeType == Element)
    ensures p.nodeType in {Attribute, Text, CdataSection} ==> ret != Ok
    ensures p.nodeType !in {Element, Document, Attribute, Text, CdataSection} ==> ret == Ok
    ensures ret == Ok ==> Links(s) && PutBefore(t, s, p, c, ref) && c.nextSibling == ref && ref.prevSibling == c
    ensures ret != Ok ==> ret == HierarchyRequestErr && unchanged(t.nodes)
  {
    hide Sound, Reaches, Under, First, Next, Prev, Links, InsertedBefore, PutBefore, HeldBefore;
    s := t;
    Detached(t, p, c);
    Kid(t, p, ref);
    ret := InsertBefore(p, c, ref, t);
    if ret == Ok {
      s := InsertedAs(t, p, c, ref);
    }
  }

  lemma InsertedAs(t: Shape<XmlNode>, p: XmlNode, c: XmlNode, ref: XmlNode) returns (s: Shape<XmlNode>)
    requires Sound(t) && p in t.nodes && c in t.nodes && t.up.Keys == t.nodes == t.kids.Keys && ref in t.kids[p]
    requires t.up[c] == None && Free(t, p, c) && c != ref && InsertedBefore(t, p, c, ref)
    ensures Links(s) && PutBefore(t, s, p, c, ref) && c.nextSibling == ref && ref.prevSibling == c
  {
    hide Sound, Reaches, Under, First, Next, Prev, Links, IndexOf;
    var i := IndexOf(t.kids[p], ref);
    s := Attach(t, p, i, c);
    AttachNodes(t, p, i, c);
    assert t.kids[p][..i] + [c] + t.kids[p][i..] == t.kids[p][..i] + [c, ref] + t.kids[p][i + 1..];
    LinksAt(s, c);
    NextIs(s, p, c, i);
    LinksAt(s, ref);
  }

  /** The children of `p` are as before but for `c`, which is just before `ref`; those of all others are as before. */
  ghost predicate PutBefore(t: Shape<XmlNode>, s: Shape<XmlNode>, p: XmlNode, c: XmlNode, ref: XmlNode) {
    && p in t.kids && ref in t.kids[p]
    && var i := IndexOf(t.kids[p], ref);
       s.kids == t.kids[p := t.kids[p][..i] + [c, ref] + t.kids[p][i + 1..]]
  }

  lemma Kid(t: Shape<XmlNode>, p: XmlNode, ref: XmlNode)
    requires Links(t) && ref in t.nodes && p in t.nodes && ref.parentNode == p
    ensures Sound(t) && t.kids.Keys == t.nodes && ref in t.kids[p]
  {
    hide Sound, First, Next, Prev;
    LinksAt(t, ref);
    SoundNode(t, ref);
  }

  lemma NextIs(s: Shape<XmlNode>, p: XmlNode, c: XmlNode, i: nat)
    requires Sound(s) && p in s.nodes && c in s.nodes && s.up.Keys == s.nodes == s.kids.Keys && s.up[c] == Some(p)
    requires i + 1 < |s.kids[p]| && s.kids[p][i] == c
    ensures Next(s, c) == Some(s.kids[p][i + 1]) && s.kids[p][i + 1] in s.nodes && Prev(s, s.kids[p][i + 1]) == Some(c)
  {
    hide Sound, Distinct;
    SoundNode(s, p);
    IndexIs(s.kids[p], i);
    SoundKid(s, p, s.kids[p][i + 1]);
    IndexIs(s.kids[p], i + 1);
  }

  /** XmlNodeReplaceChild by a detached node, in the same way: it takes the place of the child, which is detached. */
  method ReplaceDetached(p: XmlNode, c: XmlNode, child: XmlNode, ghost t: Shape<XmlNode>)
    returns (ret: Code, returned: XmlNode?, ghost s: Shape<XmlNode>)
    requires Links(t) && p in t.nodes && c in t.nodes && child in t.nodes && c.parentNode == null && c != p && !Under(t, p, c)
    requires c.ownerDocument == p.ownerDocument && child.parentNode == p
    modifies t.nodes
    ensures p.nodeType == Element ==> (ret == Ok <==> c.nodeType !in {Attribute, Document})
    ensures p.nodeType == Document ==> (ret == Ok <==> c.nodeType == Element)
    ensures p.nodeType in {Attribute, Text, CdataSection} ==> ret != Ok
    ensures p.nodeType !in {Element, Document, Attribute, Text, CdataSection} ==> ret == Ok
    ensures ret == Ok ==> Links(s) && PutInPlace(t, s, p, c, child)
    ensures ret == Ok ==> child.parentNode == null && c.parentNode == p && returned == child
    ensures ret != Ok ==> ret == HierarchyRequestErr && unchanged(t.nodes)
  {
    hide Sound, Reaches, Under, First, Next, Prev, Links, Replaced, PutInPlace;
    s := t;
    Detached(t, p, c);
    Kid(t, p, child);
    ret, returned := ReplaceChild(p, c, child, t);
    if ret == Ok {
      s := ReplacedAs(t, p, c, child);
    }
  }

  /** The children of `p` are as before but for `c` in the place of `child`; those of all others are as before. */
  ghost predicate PutInPlace(t: Shape<XmlNode>, s: Shape<XmlNode>, p: XmlNode, c: XmlNode, child: XmlNode) {
    p in t.kids && child in t.kids[p] && s.kids == t.kids[p := t.kids[p][IndexOf(t.kids[p], child) := c]]
  }

  lemma ReplacedAs(t: Shape<XmlNode>, p: XmlNode, c: XmlNode, child: XmlNode) returns (s: Shape<XmlNode>)
    requires Sound(t) && p in t.nodes && c in t.nodes && t.up.Keys == t.nodes == t.kids.Keys && child in t.kids[p] && child in t.nodes
    requires t.up[c] == None && Free(t, p, c) && c != child && Replaced(t, p, c, child) && !Under(t, p, c)
    ensures Links(s) && PutInPlace(t, s, p, c, child) && child.parentNode == null && c.parentNode == p
  {
    hide Sound, Reaches, Under, First, Next, Prev, Links, IndexOf;
    ReplaceKids(t, p, c, child);
    var a := Attach(t, p, IndexOf(t.kids[p], child), c);
    s := Detach(a, child);
    AttachNodes(t, p, IndexOf(t.kids[p], child), c);
    DetachedParts(a, child);
    LinksAt(s, c);
    LinksAt(s, child);
  }

  lemma DetachedParts(a: Shape<XmlNode>, child: XmlNode)
    requires Sound(a) && child in a.nodes && a.up.Keys == a.nodes && a.up[child].Some?
    ensures Detach(a, child).nodes == a.nodes && Detach(a, child).up == a.up[child := None]
  {
  }

  /** The errors of the other two that are no matter of types, in the order in which they are found: an ancestor,
      another document, a reference that is no child. */
  method InsertRefused(p: XmlNode, c: XmlNode, ref: XmlNode, replace: bool, ghost t: Shape<XmlNode>) returns (ret: Code)
    requires Links(t) && p in t.nodes && c in t.nodes && ref in t.nodes && c.parentNode == null && c != p
    requires p.nodeType == Element && c.nodeType !in {Attribute, Document}
    requires Under(t, p, c) || c.ownerDocument != p.ownerDocument || ref.parentNode != p
    modifies t.nodes
    ensures ret == old(if Under(t, p, c) then HierarchyRequestErr
                       else if c.ownerDocument != p.ownerDocument then WrongDocumentErr
                       else NotFoundErr)
    ensures unchanged(t.nodes)
  {
    hide Sound, Reaches, Under, First, Next, Prev, Links;
    Detached(t, p, c);
    if replace {
      var returned;
      ret, returned := ReplaceChild(p, c, ref, t);
    } else {
      ret := InsertBefore(p, c, ref, t);
    }
  }

  /** Without a reference child XmlNodeInsertBefore does not append: it asks whether null is a child. */
  method InsertNowhere(p: XmlNode, c: XmlNode, ghost t: Shape<XmlNode>) returns (ret: Code)
    requires Links(t) && p in t.nodes && c in t.nodes && c.parentNode == null && c != p && !Under(t, p, c)
    requires p.nodeType == Element && c.nodeType !in {Attribute, Document} && c.ownerDocument == p.ownerDocument
    modifies t.nodes
    ensures ret == AssertionFailed && unchanged(t.nodes)
  {
    hide Sound, Reaches, Under, First, Next, Prev, Links;
    Detached(t, p, c);
    ret := InsertBefore(p, c, null, t);
  }
}
