/**
 * A node of the unstructured binary tree: its three optional neighbours, the
 * predicates on its children, and the shallow equality and hash key that look
 * at the node's own item and the items of its direct neighbours only.
 */
module Tree {
  import opened Wrappers

  /**
   * A tree node. The neighbours are held as values, so a parent link is a
   * copy of the parent rather than a pointer back to it.
   */
  datatype Node<T> = Node(item: T, left: Option<Node<T>>, parent: Option<Node<T>>, right: Option<Node<T>>)

  /** `Node(item, parent=None, left=None, right=None)`. */
  function NewNode<T>(item: T, parent: Option<Node<T>> := None, left: Option<Node<T>> := None,
                      right: Option<Node<T>> := None): (n: Node<T>)
    ensures n.item == item && n.parent == parent && n.left == left && n.right == right
  {
    Node(item, left, parent, right)
  }

  /** Two optional nodes agree when both are absent, or both are present with equal items. */
  predicate CompareItems<T(==)>(a: Option<Node<T>>, b: Option<Node<T>>)
  {
    if a.None? && b.None? then true
    else if a.None? || b.None? then false
    else a.value.item == b.value.item
  }

  /** The item of an optional node, or nothing when the node is absent. */
  function GetItem<T>(n: Option<Node<T>>): Option<T>
  {
    if n.Some? then Some(n.value.item) else None
  }

  /** Node equality: own items equal and every neighbour pair agrees by `CompareItems`. */
  predicate Equal<T(==)>(a: Node<T>, b: Node<T>)
  {
    && a.item == b.item
    && CompareItems(a.left, b.left)
    && CompareItems(a.parent, b.parent)
    && CompareItems(a.right, b.right)
  }

  /** The tuple `__hash__` hashes: the node's item and the items of its neighbours. */
  function HashKey<T>(n: Node<T>): (T, Option<T>, Option<T>, Option<T>)
  {
    (n.item, GetItem(n.left), GetItem(n.parent), GetItem(n.right))
  }

  predicate IsFull<T>(n: Node<T>)
  {
    n.left.Some? && n.right.Some?
  }

  predicate IsLeaf<T>(n: Node<T>)
  {
    n.left.None? && n.right.None?
  }

  predicate IsNode<T>(n: Node<T>)
  {
    n.left.Some? || n.right.Some?
  }

  /** How many children a node has: the reference the three predicates are checked against. */
  function ChildCount<T>(n: Node<T>): (c: nat)
    ensures c <= 2
  {
    (if n.left.Some? then 1 else 0) + (if n.right.Some? then 1 else 0)
  }

  // ---------------------------------------------------------------------
  // Comparing neighbours

  /** Two optional nodes agree exactly when their items, absent or not, are the same. */
  lemma CompareItemsByItem<T>(a: Option<Node<T>>, b: Option<Node<T>>)
    ensures CompareItems(a, b) <==> GetItem(a) == GetItem(b)
  {
  }

  /** Absent neighbours agree, and an absent one never agrees with a present one. */
  lemma CompareItemsCases<T>(a: Option<Node<T>>, b: Option<Node<T>>)
    ensures a.None? && b.None? ==> CompareItems(a, b)
    ensures a.None? != b.None? ==> !CompareItems(a, b)
    ensures a.Some? && b.Some? ==> (CompareItems(a, b) <==> a.value.item == b.value.item)
  {
  }

  // ---------------------------------------------------------------------
  // Equality and hashing

  /** Equal nodes hash alike, and nodes with the same hash key are equal. */
  lemma EqualIffHashKey<T>(a: Node<T>, b: Node<T>)
    ensures Equal(a, b) <==> HashKey(a) == HashKey(b)
  {
    CompareItemsByItem(a.left, b.left);
    CompareItemsByItem(a.parent, b.parent);
    CompareItemsByItem(a.right, b.right);
  }

  lemma EqualReflexive<T>(a: Node<T>)
    ensures Equal(a, a)
  {
  }

  lemma EqualSymmetric<T>(a: Node<T>, b: Node<T>)
    ensures Equal(a, b) <==> Equal(b, a)
  {
  }

  lemma EqualTransitive<T>(a: Node<T>, b: Node<T>, c: Node<T>)
    requires Equal(a, b) && Equal(b, c)
    ensures Equal(a, c)
  {
    EqualIffHashKey(a, b);
    EqualIffHashKey(b, c);
    EqualIffHashKey(a, c);
  }

  /**
   * Equality is shallow: relinking a node to other neighbours that carry the
   * same items, whatever lies beyond them, gives an equal node.
   */
  lemma EqualIgnoresDepth<T>(a: Node<T>, left: Option<Node<T>>, parent: Option<Node<T>>, right: Option<Node<T>>)
    requires GetItem(left) == GetItem(a.left)
    requires GetItem(parent) == GetItem(a.parent)
    requires GetItem(right) == GetItem(a.right)
    ensures Equal(a, Node(a.item, left, parent, right))
  {
    EqualIffHashKey(a, Node(a.item, left, parent, right));
  }

  /** Two nodes whose left children differ only in a grandchild are equal, yet not the same tree. */
  lemma ShallowExample()
    ensures var deep := Node(1, Some(Node(2, Some(Node(3, None, None, None)), None, None)), None, None);
            var flat := Node(1, Some(Node(2, None, None, None)), None, None);
            Equal(deep, flat) && deep != flat
  {
    var deep := Node(1, Some(Node(2, Some(Node(3, None, None, None)), None, None)), None, None);
    var flat := Node(1, Some(Node(2, None, None, None)), None, None);
    assert deep.left.value.left != flat.left.value.left;
  }

  // ---------------------------------------------------------------------
  // Children

  lemma IsLeafByCount<T>(n: Node<T>)
    ensures IsLeaf(n) <==> ChildCount(n) == 0
  {
  }

  lemma IsFullByCount<T>(n: Node<T>)
    ensures IsFull(n) <==> ChildCount(n) == 2
  {
  }

  lemma IsNodeByCount<T>(n: Node<T>)
    ensures IsNode(n) <==> ChildCount(n) >= 1
  {
  }

  /** `is_node` is the negation of `is_leaf`, and a full node is a node. */
  lemma NodeLeafFull<T>(n: Node<T>)
    ensures IsNode(n) <==> !IsLeaf(n)
    ensures IsFull(n) ==> IsNode(n)
    ensures !(IsFull(n) && IsLeaf(n))
  {
  }

  /** A freshly built node has no parent and no children, so it is a leaf. */
  lemma NewNodeIsLeaf<T>(item: T)
    ensures NewNode(item).parent.None?
    ensures IsLeaf(NewNode(item)) && !IsNode(NewNode(item)) && !IsFull(NewNode(item))
  {
  }

  /** The test suite's nodes: a bare node is a leaf, one child makes it neither leaf nor full, two make it full. */
  lemma ChildExamples()
    ensures var root := NewNode(32);
            var oneChild := NewNode(32, left := Some(NewNode(100, parent := Some(root))));
            var twoChildren := NewNode(32, left := Some(NewNode(100, parent := Some(root))),
                                       right := Some(NewNode(300, parent := Some(root))));
            && IsLeaf(root) && !IsLeaf(oneChild) && !IsFull(oneChild) && IsFull(twoChildren)
  {
  }
}
