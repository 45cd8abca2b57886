/**
 * `NC22TreeNode`: a tree whose nodes point to their parent, with a
 * pre-order cursor (`current`) that consumes each node's children as it
 * walks them.  The parent link is fixed at construction; a ghost copy of
 * the chain of ancestors (root first) gives the recursive reads their
 * termination measure, and a ghost set `nodes` stands for the whole tree.
 */
module TreeNodes {
  import DataStore

  class NC22TreeNode {
    const parent: NC22TreeNode?
    const item: DataStore.SimpleDataStore
    /** The ancestors, root first, ending with `parent`. */
    ghost const ancestors: seq<NC22TreeNode>
    var children: seq<NC22TreeNode>
    var currentChild: NC22TreeNode?
    var displayed: bool
    var splited: bool

    /** The ghost chain of ancestors follows the parent links all the way up. */
    ghost predicate Chain()
      decreases |ancestors|
    {
      if parent == null then ancestors == []
      else ancestors == parent.ancestors + [parent] && parent.Chain()
    }

    /** The nodes of `nodes` that sit in this node's subtree, itself included. */
    ghost function Below(nodes: set<NC22TreeNode>): set<NC22TreeNode>
    {
      set n | n in nodes && (n == this || this in n.ancestors)
    }

    /**
     * A new node.  With a parent, the node is appended to the parent's
     * children; every other field of the parent is left as it was.
     */
    constructor (ghost nodes: set<NC22TreeNode>, parent: NC22TreeNode?, item: DataStore.SimpleDataStore)
      requires Tree(nodes) && (parent != null ==> parent in nodes)
      modifies if parent == null then {} else {parent}
      ensures this.parent == parent && this.item == item
      ensures children == [] && currentChild == null && !displayed && !splited
      ensures parent != null ==> parent.children == old(parent.children) + [this]
      ensures parent != null ==> parent.currentChild == old(parent.currentChild)
                                 && parent.displayed == old(parent.displayed)
                                 && parent.splited == old(parent.splited)
      ensures Tree(nodes + {this})
    {
      this.parent := parent;
      this.item := item;
      ancestors := if parent == null then [] else parent.ancestors + [parent];
      children := [];
      currentChild := null;
      displayed := false;
      splited := false;
      new;
      if parent != null {
        parent.AddChild(this);
      }
    }

    /** `addChild($child)`: the child goes last. */
    method AddChild(child: NC22TreeNode)
      modifies this
      ensures children == old(children) + [child]
      ensures currentChild == old(currentChild) && displayed == old(displayed) && splited == old(splited)
    {
      children := children + [child];
    }

    /** `getRoot()`: the top of the parent chain. */
    function Root(): (r: NC22TreeNode)
      requires Chain()
      decreases |ancestors|
      ensures r.parent == null
      ensures r == if ancestors == [] then this else ancestors[0]
    {
      if parent == null then this else parent.Root()
    }

    /** `getPath()`: the nodes from the root down to this one. */
    function Path(): (r: seq<NC22TreeNode>)
      requires Chain()
      decreases |ancestors|
      ensures r == ancestors + [this]
      ensures r[0] == Root() && r[|r| - 1] == this
    {
      if parent == null then [this] else parent.Path() + [this]
    }

    /** `getLevel()`: the number of steps up to the root. */
    function Level(): (r: nat)
      requires Chain()
      decreases |ancestors|
      ensures r == |Path()| - 1
      ensures r == 0 <==> parent == null
    {
      if parent == null then 0 else parent.Level() + 1
    }

    /** `isRoot()`: no parent; equivalently, the node is its own root. */
    function IsRoot(): (r: bool)
      requires Chain()
      ensures r <==> Root() == this
      ensures r <==> Level() == 0
    {
      AncestorsLinked(this);
      parent == null
    }

    /** `haveNext()`. */
    predicate HaveNext()
      reads this
    {
      children != []
    }

    /** `getItem()`: hands out the item and marks the node displayed. */
    method GetItem() returns (r: DataStore.SimpleDataStore)
      modifies this
      ensures r == item && displayed
      ensures children == old(children) && currentChild == old(currentChild) && splited == old(splited)
    {
      displayed := true;
      r := item;
    }

    /** `next()`: the first remaining child becomes the current child and is returned. */
    method Next(ghost nodes: set<NC22TreeNode>) returns (r: NC22TreeNode)
      requires HaveNext()
      requires this in nodes && Tree(nodes)
      modifies this
      ensures Tree(nodes)
      ensures r == old(children)[0] && currentChild == r && children == old(children)[1..]
      ensures HaveNext() <==> |old(children)| > 1
      ensures displayed == old(displayed) && splited == old(splited)
    {
      r := children[0];
      children := children[1..];
      currentChild := r;
    }

    /** `initCurrentChild()`: picks the first child when there is no current child yet. */
    method InitCurrentChild(ghost nodes: set<NC22TreeNode>) returns (r: bool)
      requires this in nodes && Tree(nodes)
      modifies this
      ensures Tree(nodes)
      ensures r <==> old(currentChild) != null || old(children) != []
      ensures r <==> currentChild != null
      ensures old(currentChild) == null && old(children) != []
              ==> currentChild == old(children)[0] && children == old(children)[1..]
      ensures old(currentChild) != null || old(children) == []
              ==> currentChild == old(currentChild) && children == old(children)
      ensures displayed == old(displayed) && splited == old(splited)
    {
      if currentChild == null {
        if !HaveNext() {
          return false;
        }
        var _ := Next(nodes);
      }
      return true;
    }

    /**
     * `current()`: the next node of the pre-order walk.  An undisplayed node
     * is its own current node; otherwise the node is marked split, its
     * current child is asked first, and when that yields nothing the next
     * remaining child is taken.  Nothing (null) comes back only from a
     * displayed node without remaining children whose current child, if
     * any, is itself displayed and exhausted.
     */
    method Current(ghost nodes: set<NC22TreeNode>) returns (r: NC22TreeNode?)
      requires this in nodes && Tree(nodes)
      modifies Below(nodes)
      decreases Below(nodes)
      ensures Tree(nodes)
      ensures r == this <==> !old(displayed)
      ensures !old(displayed) ==> unchanged(Below(nodes))
      ensures old(displayed) ==> displayed && splited
      ensures r == null ==> old(displayed) && !HaveNext()
      ensures r == null ==> currentChild == null || (currentChild.displayed && !currentChild.HaveNext())
      ensures r != null ==> r in Below(nodes)
      ensures |children| <= |old(children)| && children == old(children)[|old(children)| - |children|..]
    {
      if !displayed {
        return this;
      }
      splited := true;
      var ok := InitCurrentChild(nodes);
      if ok {
        var child := currentChild;
        ChildBelow(nodes, this, child);
        var next := child.Current(nodes);
        if next != null {
          return next;
        }
      }
      if !HaveNext() {
        return null;
      }
      r := Next(nodes);
      ChildBelow(nodes, this, r);
    }
  }

  /**
   * `nodes` is a whole tree: closed under the parent, child and
   * current-child links, and every child points back to its parent.
   */
  ghost predicate Tree(nodes: set<NC22TreeNode>)
    reads nodes
  {
    forall n :: n in nodes ==>
      n.Chain()
      && (n.parent != null ==> n.parent in nodes)
      && (forall c :: c in n.children ==> c in nodes && c.parent == n)
      && (n.currentChild != null ==> n.currentChild in nodes && n.currentChild.parent == n)
  }

  /** Each ancestor's own chain is the part of the chain above it. */
  lemma {:induction false} AncestorsLinked(n: NC22TreeNode)
    requires n.Chain()
    ensures forall i :: 0 <= i < |n.ancestors| ==>
              n.ancestors[i].Chain() && n.ancestors[i].ancestors == n.ancestors[..i]
    decreases |n.ancestors|
  {
    if n.parent != null {
      var p := n.parent;
      AncestorsLinked(p);
      forall i | 0 <= i < |n.ancestors|
        ensures n.ancestors[i].Chain() && n.ancestors[i].ancestors == n.ancestors[..i]
      {
        if i < |p.ancestors| {
          assert n.ancestors[i] == p.ancestors[i];
          assert n.ancestors[..i] == p.ancestors[..i];
        } else {
          assert n.ancestors[i] == p;
          assert n.ancestors[..i] == p.ancestors;
        }
      }
    }
  }

  /** A child's subtree lies strictly inside its parent's and leaves the parent out. */
  lemma ChildBelow(nodes: set<NC22TreeNode>, x: NC22TreeNode, c: NC22TreeNode)
    requires Tree(nodes) && x in nodes && c in nodes && c.parent == x
    ensures c.Below(nodes) < x.Below(nodes)
    ensures x !in c.Below(nodes)
    ensures c in x.Below(nodes)
  {
    assert c.ancestors == x.ancestors + [x];
    AncestorsLinked(x);
    assert c !in x.ancestors;
    assert x in x.Below(nodes);
    forall n | n in c.Below(nodes)
      ensures n in x.Below(nodes)
    {
      if n != c {
        AncestorsLinked(n);
        var i :| 0 <= i < |n.ancestors| && n.ancestors[i] == c;
        assert n.ancestors[..i] == c.ancestors;
        assert x in n.ancestors[..i];
      }
    }
  }
}
