/** The generic binary tree the parser builds and the code generator walks
    (src/bintree.rs). */
module Bintree {

  datatype BinTree<T> = Nil | Node(val: T, left: BinTree<T>, right: BinTree<T>)

  /** The values `postorder` hands to its callback, in the order it hands them
      over: left subtree, right subtree, then the node itself. */
  function Postorder<T>(t: BinTree<T>): (s: seq<T>)
    ensures s == [] <==> t == Nil
  {
    match t
    case Nil => []
    case Node(v, l, r) => Postorder(l) + Postorder(r) + [v]
  }

  /** `postorder` hands over the root's own value last. */
  lemma PostorderEndsAtRoot<T>(t: BinTree<T>)
    requires t.Node?
    ensures |Postorder(t)| > 0 && Postorder(t)[|Postorder(t)| - 1] == t.val
  {
  }

  /** The number of `Node`s in `t`. */
  function Size<T>(t: BinTree<T>): nat {
    match t
    case Nil => 0
    case Node(_, l, r) => Size(l) + Size(r) + 1
  }

  /** The values stored in `t`, counted with multiplicity and in no order. */
  function Values<T>(t: BinTree<T>): multiset<T> {
    match t
    case Nil => multiset{}
    case Node(v, l, r) => multiset{v} + Values(l) + Values(r)
  }

  /** `new_leaf(k)`: a node holding `k` with two empty subtrees. */
  function NewLeaf<T>(k: T): (t: BinTree<T>)
    ensures Postorder(t) == [k] && Size(t) == 1
    ensures t.Node? && t.val == k && t.left == Nil && t.right == Nil
  {
    NewNode(k, Nil, Nil)
  }

  /** `new_node(k, l, r)`: `k` over `l` on the left and `r` on the right. */
  function NewNode<T>(k: T, l: BinTree<T>, r: BinTree<T>): (t: BinTree<T>)
    ensures t.Node? && t.val == k && t.left == l && t.right == r
    ensures Postorder(t) == Postorder(l) + Postorder(r) + [k]
    ensures Size(t) == Size(l) + Size(r) + 1
  {
    Node(k, l, r)
  }

  /** The traversal hands over one value per node. */
  lemma {:induction false} PostorderLength<T>(t: BinTree<T>)
    ensures |Postorder(t)| == Size(t)
  {
    match t
    case Nil =>
    case Node(_, l, r) =>
      PostorderLength(l);
      PostorderLength(r);
  }

  /** The traversal hands over every stored value, each exactly once. */
  lemma {:induction false} PostorderValues<T>(t: BinTree<T>)
    ensures multiset(Postorder(t)) == Values(t)
  {
    match t
    case Nil =>
    case Node(v, l, r) =>
      PostorderValues(l);
      PostorderValues(r);
      calc {
        multiset(Postorder(t));
        multiset(Postorder(l) + Postorder(r) + [v]);
        multiset(Postorder(l)) + multiset(Postorder(r)) + multiset{v};
        Values(l) + Values(r) + multiset{v};
      }
  }

}
