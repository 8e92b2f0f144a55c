/** The flattening of a query's where tree into its leaf lookups
    (`_traverse` and `get_where_nodes`). A where node's children are either
    nested where nodes or leaves; the leaf type is left generic. */
module Utils {

  datatype WhereNode<L> = WhereNode(children: seq<WhereChild<L>>)

  datatype WhereChild<L> = Leaf(value: L) | Inner(node: WhereNode<L>)

  /** `list(_traverse(node))`: what the generator yields. */
  function Traverse<L>(node: WhereNode<L>): seq<L>
    decreases node, 1
  {
    TraverseFrom(node, 0)
  }

  /** What the loop over `node.children` yields from child `i` on: a leaf
      child is yielded, a nested node is traversed. */
  function TraverseFrom<L>(node: WhereNode<L>, i: nat): seq<L>
    requires i <= |node.children|
    decreases node, 0, |node.children| - i
  {
    if i == |node.children| then []
    else
      (match node.children[i]
        case Leaf(v) => [v]
        case Inner(n) => Traverse(n)) + TraverseFrom(node, i + 1)
  }

  /** The number of leaves in the tree. */
  function LeafCount<L>(node: WhereNode<L>): nat
    decreases node, 1
  {
    LeafCountFrom(node, 0)
  }

  function LeafCountFrom<L>(node: WhereNode<L>, i: nat): nat
    requires i <= |node.children|
    decreases node, 0, |node.children| - i
  {
    if i == |node.children| then 0
    else
      (match node.children[i]
        case Leaf(_) => 1
        case Inner(n) => LeafCount(n)) + LeafCountFrom(node, i + 1)
  }

  /** `x` is a leaf somewhere in the tree. */
  ghost predicate HasLeaf<L>(node: WhereNode<L>, x: L)
    decreases node
  {
    exists i | 0 <= i < |node.children| ::
      node.children[i] == Leaf(x) || (node.children[i].Inner? && HasLeaf(node.children[i].node, x))
  }

  /** `x` is a leaf under one of the children from `i` on. */
  ghost predicate HasLeafFrom<L>(node: WhereNode<L>, i: nat, x: L)
    requires i <= |node.children|
  {
    exists j | i <= j < |node.children| ::
      node.children[j] == Leaf(x) || (node.children[j].Inner? && HasLeaf(node.children[j].node, x))
  }

  /** One item is yielded per leaf. */
  lemma {:induction false} TraverseLength<L>(node: WhereNode<L>)
    ensures |Traverse(node)| == LeafCount(node)
    decreases node, 1
  {
    TraverseFromLength(node, 0);
  }

  lemma {:induction false} TraverseFromLength<L>(node: WhereNode<L>, i: nat)
    requires i <= |node.children|
    ensures |TraverseFrom(node, i)| == LeafCountFrom(node, i)
    decreases node, 0, |node.children| - i
  {
    if i < |node.children| {
      TraverseFromLength(node, i + 1);
      match node.children[i]
      case Leaf(_) =>
      case Inner(n) => TraverseLength(n);
    }
  }

  /** Exactly the leaves of the tree are yielded: every yielded item is a
      leaf of the tree, and every leaf is yielded. */
  lemma {:induction false} TraverseYieldsLeaves<L>(node: WhereNode<L>, x: L)
    ensures x in Traverse(node) <==> HasLeaf(node, x)
    decreases node, 1
  {
    TraverseFromYieldsLeaves(node, 0, x);
  }

  lemma {:induction false} TraverseFromYieldsLeaves<L>(node: WhereNode<L>, i: nat, x: L)
    requires i <= |node.children|
    ensures x in TraverseFrom(node, i) <==> HasLeafFrom(node, i, x)
    decreases node, 0, |node.children| - i
  {
    if i < |node.children| {
      TraverseFromYieldsLeaves(node, i + 1, x);
      var c := node.children[i];
      match c
      case Leaf(v) =>
        if x == v {
          assert HasLeafFrom(node, i, x) by { assert node.children[i] == Leaf(x); }
        } else if HasLeafFrom(node, i, x) {
          var j :| i <= j < |node.children| &&
            (node.children[j] == Leaf(x) || (node.children[j].Inner? && HasLeaf(node.children[j].node, x)));
          assert j != i;
        }
      case Inner(n) =>
        TraverseYieldsLeaves(n, x);
        if HasLeafFrom(node, i, x) && !HasLeaf(n, x) {
          var j :| i <= j < |node.children| &&
            (node.children[j] == Leaf(x) || (node.children[j].Inner? && HasLeaf(node.children[j].node, x)));
          assert j != i;
        }
    }
  }

  /** Shifting: traversing the children of `a + b` from position `|a| + j`
      is traversing the children of `b` from `j`. */
  lemma {:induction false} TraverseFromShift<L>(a: seq<WhereChild<L>>, b: seq<WhereChild<L>>, j: nat)
    requires j <= |b|
    ensures TraverseFrom(WhereNode(a + b), |a| + j) == TraverseFrom(WhereNode(b), j)
    decreases |b| - j
  {
    if j < |b| {
      assert (a + b)[|a| + j] == b[j];
      TraverseFromShift(a, b, j + 1);
    }
  }

  lemma {:induction false} TraverseFromAppend<L>(a: seq<WhereChild<L>>, b: seq<WhereChild<L>>, i: nat)
    requires i <= |a|
    ensures TraverseFrom(WhereNode(a + b), i) == TraverseFrom(WhereNode(a), i) + Traverse(WhereNode(b))
    decreases |a| - i
  {
    if i == |a| {
      TraverseFromShift(a, b, 0);
    } else {
      assert (a + b)[i] == a[i];
      TraverseFromAppend(a, b, i + 1);
    }
  }

  /** Depth first, left to right: the leaves under the children `a + b`
      are those under `a` followed by those under `b`. */
  lemma TraverseConcat<L>(a: seq<WhereChild<L>>, b: seq<WhereChild<L>>)
    ensures Traverse(WhereNode(a + b)) == Traverse(WhereNode(a)) + Traverse(WhereNode(b))
  {
    TraverseFromAppend(a, b, 0);
  }

  /** A leaf child contributes itself and a nested node contributes its own
      traversal, in place. */
  lemma {:induction false} TraverseChild<L>(before: seq<WhereChild<L>>, c: WhereChild<L>, after: seq<WhereChild<L>>)
    ensures Traverse(WhereNode(before + [c] + after)) ==
      Traverse(WhereNode(before)) + (if c.Leaf? then [c.value] else Traverse(c.node)) + Traverse(WhereNode(after))
  {
    TraverseConcat(before + [c], after);
    TraverseConcat(before, [c]);
    assert TraverseFrom(WhereNode([c]), 1) == [];
  }
}
