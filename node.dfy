/** The scene-graph bookkeeping of NodeC: the parent link of each node and the children list
  * of its parent, which setParent keeps in step. */
module Nodes {
  import opened Lists

  /** A node of the scene graph, with the two fields setParent maintains. */
  class NodeC {
    var children: seq<NodeC>
    var parent: NodeC?

    /** A fresh node has no parent and no children. */
    constructor()
      ensures children == [] && parent == null
    {
      children := [];
      parent := null;
    }

    /** The children list of node n after this node moves from oldParent to newParent: the
      * old parent loses its first link to this node, the new one gains a link at the end. */
    ghost function ChildrenAfter(n: NodeC, oldChildren: seq<NodeC>, oldParent: NodeC?, newParent: NodeC?): seq<NodeC>
    {
      (if n == oldParent then RemoveFirst(oldChildren, this) else oldChildren) +
      (if n == newParent then [this] else [])
    }

    /** setParent: detaches this node from its parent, if any, attaches it to newParent, if
      * that is not null, and records newParent as the parent. Only the children lists of the
      * old and the new parent change, and only this node's parent. */
    method SetParent(newParent: NodeC?)
      modifies this, parent, newParent
      ensures parent == newParent
      ensures children == ChildrenAfter(this, old(children), old(parent), newParent)
      ensures old(parent) != null ==>
        old(parent).children == ChildrenAfter(old(parent), old(parent.children), old(parent), newParent)
      ensures newParent != null ==>
        newParent.children == ChildrenAfter(newParent, old(newParent.children), old(parent), newParent)
      ensures old(parent) != null && old(parent) != this ==> old(parent).parent == old(parent.parent)
      ensures newParent != null && newParent != this ==> newParent.parent == old(newParent.parent)
    {
      if parent != null {
        RemoveChild(parent, this);
      }
      if newParent != null {
        AddChild(newParent, this);
      }
      parent := newParent;
    }
  }

  /** The removal half of setParent: indexOf, then splice of one element when found. */
  method RemoveChild(p: NodeC, child: NodeC)
    modifies p
    ensures p.children == RemoveFirst(old(p.children), child)
    ensures p.parent == old(p.parent)
  {
    var ndx := IndexOf(p.children, child);
    if ndx >= 0 {
      SplicePresent(p.children, child);
      p.children := p.children[..ndx] + p.children[ndx + 1..];
    } else {
      SpliceAbsent(p.children, child);
    }
  }

  /** The push half of setParent. */
  method AddChild(p: NodeC, child: NodeC)
    modifies p
    ensures p.children == old(p.children) + [child]
    ensures p.parent == old(p.parent)
  {
    p.children := p.children + [child];
  }

  /** After setParent(p) with p not null, this node is the last child of p, and the children
    * of p before it are p's old children, less this node's first link when p was the old
    * parent too. */
  lemma AttachedLast(node: NodeC, oldChildren: seq<NodeC>, oldParent: NodeC?, p: NodeC)
    ensures |node.ChildrenAfter(p, oldChildren, oldParent, p)| >= 1
    ensures node.ChildrenAfter(p, oldChildren, oldParent, p)[|node.ChildrenAfter(p, oldChildren, oldParent, p)| - 1] == node
    ensures p != oldParent ==> node.ChildrenAfter(p, oldChildren, oldParent, p) == oldChildren + [node]
  {
  }

  /** The old parent, when it is not the new one, holds one link fewer to the node and its
    * other children in their old order. */
  lemma DetachedOnce(node: NodeC, oldChildren: seq<NodeC>, oldParent: NodeC, newParent: NodeC?)
    requires oldParent != newParent && node in oldChildren
    ensures multiset(node.ChildrenAfter(oldParent, oldChildren, oldParent, newParent)) ==
      multiset(oldChildren) - multiset{node}
    ensures node.ChildrenAfter(oldParent, oldChildren, oldParent, newParent) ==
      oldChildren[..IndexOf(oldChildren, node)] + oldChildren[IndexOf(oldChildren, node) + 1..]
  {
    RemoveFirstCounts(oldChildren, node);
    SplicePresent(oldChildren, node);
    assert node.ChildrenAfter(oldParent, oldChildren, oldParent, newParent) == RemoveFirst(oldChildren, node);
  }

  /** The setParent test: a node moved from one parent to another ends up the only child of
    * the second, the first is left without children and neither parent gains a parent. */
  method SetParentScenario() returns (node: NodeC, parent: NodeC, newParent: NodeC)
    ensures newParent.children == [node] && node.parent == newParent
    ensures parent.children == [] && node.children == []
    ensures parent.parent == null && newParent.parent == null
  {
    node := new NodeC();
    parent := new NodeC();
    newParent := new NodeC();
    node.SetParent(parent);
    assert parent.children == [node];
    node.SetParent(newParent);
  }
}
