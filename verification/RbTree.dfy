/** Red-black trees with parent links: linking a node in and rebalancing (rbtree.c, include/rbtree.h). */
module RbTrees {

  class RbNode<E> {
    const entry: E  // what the node is embedded in
    var red: bool
    var parent: RbNode?<E>
    var left: RbNode?<E>
    var right: RbNode?<E>

    constructor (entry: E)
      ensures this.entry == entry
    {
      this.entry := entry;
      red, parent, left, right := true, null, null, null;
    }
  }

  // Which link a new node goes into: the root's, or one of its parent's.
  datatype Link = RootLink | LeftLink | RightLink

  class RbRoot<E> {
    var node: RbNode?<E>

    ghost var shape: Tree<E>
    ghost var height: nat
    ghost var repr: set<RbNode<E>>

    /** A proper red-black tree hangs off this root. */
    ghost predicate Valid()
      reads this, repr
    {
      && repr == Nodes(shape)
      && Rep(shape, node, null)
      && Balanced(shape, height)
      && !IsRed(shape)
    }

    constructor ()
      ensures Valid() && shape == Nil && repr == {}
    {
      node := null;
      shape, height, repr := Nil, 0, {};
    }

    /** Links a node in at a free place and rebalances: the tree is proper again, and its nodes are the old ones in
        their old order with the new one at that place. */
    method LinkAndBalance(n: RbNode<E>, parent: RbNode?<E>, link: Link, ghost p: Path<E>)
      requires Whole(p, Nil, null, this) && PathNodes(p) == repr && n !in repr
      requires PathBalanced(p, 0) && RootBlack(p)
      requires parent == Parent(p) && link == LinkOf(p)
      modifies this, repr, n
      ensures Valid() && repr == old(repr) + {n}
      ensures InOrder(shape) == Before(p) + [n] + After(p)
    {
      hide Rep, RepPath, Nodes, PathNodes, Balanced, PathBalanced, Before, After, InOrder, RootBlack;
      Free(p, this);
      n.parent, n.red := parent, true;
      n.left, n.right := null, null;
      match link {
        case RootLink => node := n;
        case LeftLink => parent.left := n;
        case RightLink => parent.right := n;
      }
      RepPathFold(p, n, this);
      ghost var t := Leaf(p, n);
      shape, height := InsertColor(n, this, p, t, 0);
      repr := Nodes(shape);
    }
  }

  ghost function LinkOf<E>(p: Path<E>): Link {
    match p
    case Top => RootLink
    case InLeft(_, _, _, _) => LeftLink
    case InRight(_, _, _, _) => RightLink
  }

  // A free place, taken apart.
  lemma {:induction false} Free<E>(p: Path<E>, root: RbRoot<E>)
    requires Whole(p, Nil, null, root)
    ensures p != Top ==>
      var x := p.node;
      && Parent(p) == x && x in PathNodes(p)
      && x.red == p.red && x.parent == Parent(p.up)
      && (if p.InLeft? then x.left else x.right) == null
      && Rep(Other(p), if p.InLeft? then x.right else x.left, x) && RepPath(p.up, x, root)
      && x !in Nodes(Other(p)) && x !in PathNodes(p.up) && Nodes(Other(p)) !! PathNodes(p.up)
      && Nodes(Other(p)) <= PathNodes(p) && PathNodes(p.up) <= PathNodes(p)
  {
    RepPathNode(p, null, root);
  }

  // A new red node without children.
  lemma Leaf<E>(p: Path<E>, n: RbNode<E>) returns (t: Tree<E>)
    requires n.parent == Parent(p) && n.red && n.left == null && n.right == null
    requires n !in PathNodes(p) && PathBalanced(p, 0) && RootBlack(p)
    ensures Rep(t, n, Parent(p)) && Nodes(t) == {n} && InOrder(t) == [n] && Pending(p, t, 0)
  {
    t := Node(Nil, n, true, Nil);
  }

  // The shape of a tree in the heap.
  datatype Tree<!E> = Nil | Node(left: Tree<E>, node: RbNode<E>, red: bool, right: Tree<E>)

  // A tree with one subtree cut out: the way from there up to the root.
  datatype Path<!E> =
    | Top
    | InLeft(up: Path<E>, node: RbNode<E>, red: bool, right: Tree<E>)
    | InRight(left: Tree<E>, node: RbNode<E>, red: bool, up: Path<E>)

  ghost function Nodes<E>(t: Tree<E>): set<RbNode<E>> {
    match t
    case Nil => {}
    case Node(l, x, _, r) => Nodes(l) + {x} + Nodes(r)
  }

  ghost function PathNodes<E>(p: Path<E>): set<RbNode<E>> {
    match p
    case Top => {}
    case InLeft(up, x, _, r) => PathNodes(up) + {x} + Nodes(r)
    case InRight(l, x, _, up) => PathNodes(up) + {x} + Nodes(l)
  }

  // The heap below a link holds a tree.
  ghost predicate Rep<E>(t: Tree<E>, n: RbNode?<E>, parent: RbNode?<E>)
    reads Nodes(t)
  {
    match t
    case Nil => n == null
    case Node(l, x, red, r) =>
      && n == x && x.parent == parent && x.red == red
      && x !in Nodes(l) && x !in Nodes(r) && Nodes(l) !! Nodes(r)
      && Rep(l, x.left, x) && Rep(r, x.right, x)
  }

  ghost function Parent<E>(p: Path<E>): RbNode?<E> {
    match p
    case Top => null
    case InLeft(_, x, _, _) => x
    case InRight(_, x, _, _) => x
  }

  // The heap around a link to n holds the rest of a tree.
  ghost predicate RepPath<E>(p: Path<E>, n: RbNode?<E>, root: RbRoot<E>)
    reads PathNodes(p), root
  {
    match p
    case Top => root.node == n
    case InLeft(up, x, red, r) =>
      && x.left == n && x.red == red && x.parent == Parent(up)
      && x !in Nodes(r) && x !in PathNodes(up) && Nodes(r) !! PathNodes(up)
      && Rep(r, x.right, x) && RepPath(up, x, root)
    case InRight(l, x, red, up) =>
      && x.right == n && x.red == red && x.parent == Parent(up)
      && x !in Nodes(l) && x !in PathNodes(up) && Nodes(l) !! PathNodes(up)
      && Rep(l, x.left, x) && RepPath(up, x, root)
  }

  // A whole tree, seen from one of its links.
  ghost predicate Whole<E>(p: Path<E>, t: Tree<E>, n: RbNode?<E>, root: RbRoot<E>)
    reads PathNodes(p), Nodes(t), root
  {
    Rep(t, n, Parent(p)) && RepPath(p, n, root) && PathNodes(p) !! Nodes(t)
  }

  lemma {:induction false} RepRoot<E>(t: Tree<E>, n: RbNode?<E>, parent: RbNode?<E>)
    requires Rep(t, n, parent)
    ensures n != null <==> t.Node?
    ensures n != null ==> n in Nodes(t) && n == t.node
  {
  }

  // One level of a tree in the heap.
  lemma {:induction false} RepNode<E>(t: Tree<E>, n: RbNode?<E>, parent: RbNode?<E>)
    requires Rep(t, n, parent) && t.Node?
    ensures n != null && n == t.node && n.parent == parent && n.red == t.red
    ensures n !in Nodes(t.left) && n !in Nodes(t.right) && Nodes(t.left) !! Nodes(t.right)
    ensures Rep(t.left, n.left, n) && Rep(t.right, n.right, n)
    ensures Nodes(t) == Nodes(t.left) + {n} + Nodes(t.right)
  {
  }

  lemma {:induction false} RepFold<E>(l: Tree<E>, n: RbNode<E>, red: bool, r: Tree<E>, parent: RbNode?<E>)
    requires n.parent == parent && n.red == red
    requires n !in Nodes(l) && n !in Nodes(r) && Nodes(l) !! Nodes(r)
    requires Rep(l, n.left, n) && Rep(r, n.right, n)
    ensures Rep(Node(l, n, red, r), n, parent)
  {
  }

  // One level of the rest of a tree.
  lemma {:induction false} RepPathNode<E>(p: Path<E>, n: RbNode?<E>, root: RbRoot<E>)
    requires RepPath(p, n, root)
    ensures p.Top? ==> root.node == n
    ensures p != Top ==>
      var x, other := p.node, if p.InLeft? then p.right else p.left;
      && x.red == p.red && x.parent == Parent(p.up)
      && (if p.InLeft? then x.left else x.right) == n
      && x !in Nodes(other) && x !in PathNodes(p.up) && Nodes(other) !! PathNodes(p.up)
      && Rep(other, if p.InLeft? then x.right else x.left, x) && RepPath(p.up, x, root)
      && PathNodes(p) == PathNodes(p.up) + {x} + Nodes(other)
  {
  }

  lemma {:induction false} RepPathFold<E>(p: Path<E>, n: RbNode?<E>, root: RbRoot<E>)
    requires p.Top? ==> root.node == n
    requires p != Top ==>
      var x, other := p.node, if p.InLeft? then p.right else p.left;
      && x.red == p.red && x.parent == Parent(p.up)
      && (if p.InLeft? then x.left else x.right) == n
      && x !in Nodes(other) && x !in PathNodes(p.up) && Nodes(other) !! PathNodes(p.up)
      && Rep(other, if p.InLeft? then x.right else x.left, x) && RepPath(p.up, x, root)
    ensures RepPath(p, n, root)
  {
  }

  // The subtree that hangs off the node above a link.
  ghost function Other<E>(p: Path<E>): Tree<E> {
    match p
    case Top => Nil
    case InLeft(_, _, _, r) => r
    case InRight(l, _, _, _) => l
  }

  ghost function Up<E>(p: Path<E>): Path<E> {
    match p
    case Top => Top
    case InLeft(up, _, _, _) => up
    case InRight(_, _, _, up) => up
  }

  lemma {:induction false} RepNil<E>(n: RbNode?<E>, parent: RbNode?<E>)
    ensures Rep(Nil, n, parent) <==> n == null
  {
  }

  // Makes the link to a subtree point to the new root of that subtree.
  method Relink<E>(was: RbNode<E>, now: RbNode<E>, parent: RbNode?<E>, root: RbRoot<E>, ghost p: Path<E>,
                   ghost t: Tree<E>)
    requires RepPath(p, was, root) && parent == Parent(p)
    requires Rep(t, now, parent) && was in Nodes(t) && PathNodes(p) !! Nodes(t)
    modifies PathNodes(p), root
    ensures Whole(p, t, now, root)
  {
    hide Rep, RepPath, Nodes, PathNodes;
    OpenPath(p, was, root);
    ghost var inPath := PathNodes(p);
    if parent != null {
      assert parent in inPath;
      if was == parent.left {
        parent.left := now;
      } else {
        parent.right := now;
      }
    } else {
      root.node := now;
    }
    RepPathFold(p, now, root);
  }

  // The level above a link, taken apart.
  lemma {:induction false} OpenPath<E>(p: Path<E>, n: RbNode<E>, root: RbRoot<E>)
    requires RepPath(p, n, root) && n !in PathNodes(p)
    ensures p.Top? ==> Parent(p) == null && root.node == n
    ensures p != Top ==>
      var x := p.node;
      && Parent(p) == x && x in PathNodes(p)
      && x.red == p.red && x.parent == Parent(p.up)
      && (if p.InLeft? then x.left == n && x.right != n else x.right == n && x.left != n)
      && Rep(Other(p), if p.InLeft? then x.right else x.left, x) && RepPath(p.up, x, root)
      && x !in Nodes(Other(p)) && x !in PathNodes(p.up) && Nodes(Other(p)) !! PathNodes(p.up)
  {
    RepPathNode(p, n, root);
    if p != Top {
      RepRoot(Other(p), if p.InLeft? then p.node.right else p.node.left, p.node);
    }
  }

  // A tree ready for a rotation to the left, taken apart.
  lemma {:induction false} OpenLeft<E>(p: Path<E>, t: Tree<E>, node: RbNode<E>, root: RbRoot<E>)
    requires Whole(p, t, node, root) && t.Node? && t.right.Node?
    ensures var right := node.right;
      var a, b, d := t.left, t.right.left, t.right.right;
      && right != null && right == t.right.node && right != node
      && node.parent == Parent(p) && node.red == t.red && right.red == t.right.red
      && Rep(a, node.left, node) && Rep(d, right.right, right) && Rep(b, right.left, right)
      && node !in Nodes(a) && node !in Nodes(b) && node !in Nodes(d)
      && right !in Nodes(a) && right !in Nodes(b) && right !in Nodes(d)
      && Nodes(a) !! Nodes(b)
      && Nodes(a) <= Nodes(t) && Nodes(b) <= Nodes(t) && Nodes(d) <= Nodes(t) && node in Nodes(t) && right in Nodes(t)
      && Nodes(Node(a, node, t.red, b)) !! Nodes(d) && right !in Nodes(Node(a, node, t.red, b))
      && Nodes(Node(Node(a, node, t.red, b), right, t.right.red, d)) == Nodes(t)
    ensures OpenMiddle(t.right.left, t.right.node.left, t, t.left, t.right.right, node, t.right.node)
  {
    RepNode(t, node, Parent(p));
    RepNode(t.right, node.right, node);
    RepRoot(t.right.left, node.right.left, node.right);
    if t.right.left.Node? {
      RepNode(t.right.left, node.right.left, node.right);
    }
  }

  // The subtree that changes sides in a rotation, apart from everything else that is touched.
  ghost predicate OpenMiddle<E>(b: Tree<E>, below: RbNode?<E>, t: Tree<E>, a: Tree<E>, d: Tree<E>,
                                x: RbNode<E>, y: RbNode<E>)
    reads Nodes(b)
  {
    && (b.Nil? <==> below == null)
    && (b.Node? ==>
          && below == b.node && b.node in Nodes(b) && b.node.red == b.red && b.node in Nodes(t) && b.node != x
          && b.node != y
          && b.node !in Nodes(a) && b.node !in Nodes(d)
          && b.node !in Nodes(b.left) && b.node !in Nodes(b.right) && Nodes(b.left) !! Nodes(b.right)
          && Nodes(b.left) <= Nodes(b) && Nodes(b.right) <= Nodes(b)
          && Rep(b.left, b.node.left, b.node) && Rep(b.right, b.node.right, b.node)
          && x !in Nodes(b.left) && x !in Nodes(b.right) && y !in Nodes(b.left) && y !in Nodes(b.right))
  }

  method RotateLeft<E>(node: RbNode<E>, root: RbRoot<E>, ghost p: Path<E>, ghost t: Tree<E>)
    requires Whole(p, t, node, root) && t.Node? && t.right.Node?
    modifies PathNodes(p), Nodes(t), root
    ensures var y := t.right;
      Whole(p, Node(Node(t.left, node, t.red, y.left), y.node, y.red, y.right), y.node, root)
  {
    hide Rep, RepPath, Nodes, PathNodes;
    var right, parent := node.right, node.parent;
    ghost var a, b, d := t.left, t.right.left, t.right.right;
    OpenLeft(p, t, node, root);
    ghost var t' := Node(Node(a, node, t.red, b), right, t.right.red, d);
    node.right := right.left;
    if node.right != null {
      right.left.parent := node;
      RepFold(b.left, b.node, b.red, b.right, node);
    } else {
      RepNil(node.right, node);
    }
    right.left := node;
    right.parent := parent;
    node.parent := right;
    RepFold(a, node, t.red, b, right);
    RepFold(Node(a, node, t.red, b), right, t.right.red, d, parent);
    Relink(node, right, parent, root, p, t');
  }

  // A tree ready for a rotation to the right, taken apart.
  lemma {:induction false} OpenRight<E>(p: Path<E>, t: Tree<E>, node: RbNode<E>, root: RbRoot<E>)
    requires Whole(p, t, node, root) && t.Node? && t.left.Node?
    ensures var left := node.left;
      var a, b, d := t.right, t.left.right, t.left.left;
      && left != null && left == t.left.node && left != node
      && node.parent == Parent(p) && node.red == t.red && left.red == t.left.red
      && Rep(a, node.right, node) && Rep(d, left.left, left) && Rep(b, left.right, left)
      && node !in Nodes(a) && node !in Nodes(b) && node !in Nodes(d)
      && left !in Nodes(a) && left !in Nodes(b) && left !in Nodes(d)
      && Nodes(a) !! Nodes(b)
      && Nodes(a) <= Nodes(t) && Nodes(b) <= Nodes(t) && Nodes(d) <= Nodes(t) && node in Nodes(t) && left in Nodes(t)
      && Nodes(Node(b, node, t.red, a)) !! Nodes(d) && left !in Nodes(Node(b, node, t.red, a))
      && Nodes(Node(d, left, t.left.red, Node(b, node, t.red, a))) == Nodes(t)
    ensures OpenMiddle(t.left.right, t.left.node.right, t, t.right, t.left.left, node, t.left.node)
  {
    RepNode(t, node, Parent(p));
    RepNode(t.left, node.left, node);
    RepRoot(t.left.right, node.left.right, node.left);
    if t.left.right.Node? {
      RepNode(t.left.right, node.left.right, node.left);
    }
  }

  method RotateRight<E>(node: RbNode<E>, root: RbRoot<E>, ghost p: Path<E>, ghost t: Tree<E>)
    requires Whole(p, t, node, root) && t.Node? && t.left.Node?
    modifies PathNodes(p), Nodes(t), root
    ensures var y := t.left;
      Whole(p, Node(y.left, y.node, y.red, Node(y.right, node, t.red, t.right)), y.node, root)
  {
    hide Rep, RepPath, Nodes, PathNodes;
    var left, parent := node.left, node.parent;
    ghost var a, b, d := t.right, t.left.right, t.left.left;
    OpenRight(p, t, node, root);
    ghost var t' := Node(d, left, t.left.red, Node(b, node, t.red, a));
    node.left := left.right;
    if node.left != null {
      left.right.parent := node;
      RepFold(b.left, b.node, b.red, b.right, node);
    } else {
      RepNil(node.left, node);
    }
    left.right := node;
    left.parent := parent;
    node.parent := left;
    RepFold(b, node, t.red, a, left);
    RepFold(d, left, t.left.red, Node(b, node, t.red, a), parent);
    Relink(node, left, parent, root, p, t');
  }

  ghost function Paint<E>(t: Tree<E>, red: bool): Tree<E> {
    match t
    case Nil => Nil
    case Node(l, x, _, r) => Node(l, x, red, r)
  }

  method SetRed<E>(n: RbNode<E>, red: bool, ghost root: RbRoot<E>, ghost p: Path<E>, ghost t: Tree<E>)
    requires Whole(p, t, n, root) && t.Node?
    modifies n
    ensures Whole(p, Paint(t, red), n, root)
  {
    hide Rep, RepPath, Nodes, PathNodes;
    RepNode(t, n, Parent(p));
    SameNodes(t, red);
    n.red := red;
    RepFold(t.left, n, red, t.right, Parent(p));
  }

  lemma {:induction false} SameNodes<E>(t: Tree<E>, red: bool)
    requires t.Node?
    ensures Nodes(Paint(t, red)) == Nodes(t) && t.node in Nodes(t)
  {
  }

  // A subtree and the node above it, as one tree.
  ghost function Join<E>(p: Path<E>, t: Tree<E>): (r: Tree<E>)
    requires p != Top
    ensures r.Node?
  {
    if p.InLeft? then Node(t, p.node, p.red, p.right) else Node(p.left, p.node, p.red, t)
  }

  // The same heap seen from one level further up.
  lemma {:induction false} GoUp<E>(p: Path<E>, t: Tree<E>, n: RbNode?<E>, root: RbRoot<E>)
    requires Whole(p, t, n, root) && p != Top
    ensures Whole(p.up, Join(p, t), p.node, root)
    ensures PathNodes(p.up) + Nodes(Join(p, t)) == PathNodes(p) + Nodes(t)
  {
  }

  // ... and from one level further down.
  lemma {:induction false} GoLeft<E>(p: Path<E>, t: Tree<E>, n: RbNode<E>, root: RbRoot<E>)
    requires Whole(p, t, n, root) && t.Node?
    ensures Whole(InLeft(p, n, t.red, t.right), t.left, n.left, root)
    ensures PathNodes(InLeft(p, n, t.red, t.right)) + Nodes(t.left) == PathNodes(p) + Nodes(t)
    ensures n == t.node && (if t.left.Node? then n.left == t.left.node else n.left == null)
  {
    RepRoot(t.left, n.left, n);
  }

  lemma {:induction false} GoRight<E>(p: Path<E>, t: Tree<E>, n: RbNode<E>, root: RbRoot<E>)
    requires Whole(p, t, n, root) && t.Node?
    ensures Whole(InRight(t.left, n, t.red, p), t.right, n.right, root)
    ensures PathNodes(InRight(t.left, n, t.red, p)) + Nodes(t.right) == PathNodes(p) + Nodes(t)
    ensures n == t.node && (if t.right.Node? then n.right == t.right.node else n.right == null)
  {
    RepRoot(t.right, n.right, n);
  }

  // The nodes of a tree in order.
  ghost function InOrder<E>(t: Tree<E>): seq<RbNode<E>> {
    match t
    case Nil => []
    case Node(l, x, _, r) => InOrder(l) + [x] + InOrder(r)
  }

  ghost function Before<E>(p: Path<E>): seq<RbNode<E>> {
    match p
    case Top => []
    case InLeft(up, _, _, _) => Before(up)
    case InRight(l, x, _, up) => Before(up) + (InOrder(l) + [x])
  }

  ghost function After<E>(p: Path<E>): seq<RbNode<E>> {
    match p
    case Top => []
    case InLeft(up, x, _, r) => [x] + InOrder(r) + After(up)
    case InRight(_, _, _, up) => After(up)
  }

  // The nodes of a whole tree in order.
  ghost function Order<E>(p: Path<E>, t: Tree<E>): seq<RbNode<E>> {
    Before(p) + InOrder(t) + After(p)
  }

  lemma GoUpOrder<E>(p: Path<E>, t: Tree<E>)
    requires p != Top
    ensures Order(p.up, Join(p, t)) == Order(p, t)
  {
    var b, a := Before(p.up), After(p.up);
    if p.InLeft? {
      assert b + (InOrder(t) + [p.node] + InOrder(p.right)) + a == b + InOrder(t) + ([p.node] + InOrder(p.right) + a);
    } else {
      assert b + (InOrder(p.left) + [p.node] + InOrder(t)) + a == b + (InOrder(p.left) + [p.node]) + InOrder(t) + a;
    }
  }

  predicate IsRed<E>(t: Tree<E>) {
    t.Node? && t.red
  }

  /** The laws of a red-black tree: no red node has a red child, and every way down
      from the root has the same number of black nodes, here h. */
  predicate Balanced<E>(t: Tree<E>, h: nat) {
    match t
    case Nil => h == 0
    case Node(l, _, red, r) =>
      if red then !IsRed(l) && !IsRed(r) && Balanced(l, h) && Balanced(r, h)
      else h > 0 && Balanced(l, h - 1) && Balanced(r, h - 1)
  }

  predicate PathRed<E>(p: Path<E>) {
    p != Top && p.red
  }

  // The laws for the rest of a tree, around a subtree of black height h.
  predicate PathBalanced<E>(p: Path<E>, h: nat) {
    match p
    case Top => true
    case InLeft(up, _, red, r) =>
      Balanced(r, h) && (red ==> !IsRed(r) && !PathRed(up)) && PathBalanced(up, if red then h else h + 1)
    case InRight(l, _, red, up) =>
      Balanced(l, h) && (red ==> !IsRed(l) && !PathRed(up)) && PathBalanced(up, if red then h else h + 1)
  }

  // The root is black, unless it is the subtree itself.
  predicate RootBlack<E>(p: Path<E>) {
    p != Top ==> if p.up == Top then !p.red else RootBlack(p.up)
  }

  function Depth<E>(p: Path<E>): nat {
    if p == Top then 0 else 1 + Depth(p.up)
  }

  ghost function Plug<E>(p: Path<E>, t: Tree<E>): Tree<E>
    decreases Depth(p)
  {
    if p == Top then t else Plug(p.up, Join(p, t))
  }

  lemma {:induction false} PlugWhole<E>(p: Path<E>, t: Tree<E>, n: RbNode?<E>, root: RbRoot<E>)
    requires Whole(p, t, n, root)
    ensures Whole(Top, Plug(p, t), root.node, root)
    ensures Order(Top, Plug(p, t)) == Order(p, t)
    ensures Nodes(Plug(p, t)) == PathNodes(p) + Nodes(t)
    decreases Depth(p)
  {
    if p != Top {
      GoUp(p, t, n, root);
      GoUpOrder(p, t);
      PlugWhole(p.up, Join(p, t), p.node, root);
    }
  }

  lemma {:induction false} PlugBalanced<E>(p: Path<E>, t: Tree<E>, h: nat) returns (k: nat)
    requires Balanced(t, h) && PathBalanced(p, h) && RootBlack(p) && (IsRed(t) ==> !PathRed(p))
    ensures Balanced(Plug(p, t), k) && (IsRed(Plug(p, t)) ==> p == Top)
    decreases Depth(p)
  {
    if p == Top {
      k := h;
    } else {
      k := PlugBalanced(p.up, Join(p, t), if p.red then h else h + 1);
    }
  }

  lemma {:induction false} RotationOrder<E>(a: Tree<E>, x: RbNode<E>, b: Tree<E>, y: RbNode<E>, d: Tree<E>, c1: bool,
                                            c2: bool, c3: bool, c4: bool)
    ensures InOrder(Node(Node(a, x, c1, b), y, c2, d)) == InOrder(Node(a, x, c3, Node(b, y, c4, d)))
    ensures Nodes(Node(Node(a, x, c1, b), y, c2, d)) == Nodes(Node(a, x, c3, Node(b, y, c4, d)))
  {
    assert InOrder(a) + [x] + InOrder(b) + [y] + InOrder(d) == InOrder(a) + [x] + (InOrder(b) + [y] + InOrder(d));
  }

  // Where the rebalancing stands: all laws hold, except that the red subtree may hang off a red node.
  ghost predicate Pending<E>(p: Path<E>, t: Tree<E>, h: nat) {
    IsRed(t) && Balanced(t, h) && PathBalanced(p, h) && RootBlack(p)
  }

  // What a step of the rebalancing does not change.
  ghost predicate SameTree<E>(p: Path<E>, t: Tree<E>, p': Path<E>, t': Tree<E>) {
    Order(p', t') == Order(p, t) && PathNodes(p') + Nodes(t') == PathNodes(p) + Nodes(t)
  }

  // A red node has a black node above it.
  lemma {:induction false} BelowRed<E>(p: Path<E>, t: Tree<E>, h: nat)
    requires Pending(p, t, h) && PathRed(p)
    ensures p.up != Top && !p.up.red && PathBalanced(p.up, h)
    ensures Balanced(Other(p), h) && !IsRed(Other(p))
    ensures Balanced(Other(p.up), h) && PathBalanced(p.up.up, h + 1) && RootBlack(p.up.up)
  {
    assert RootBlack(p.up);
  }

  // Both children of a black node red: they become black, and the node red.
  ghost function Recolored<E>(p: Path<E>, t: Tree<E>): Tree<E>
    requires PathRed(p) && p.up != Top && Other(p.up).Node?
  {
    var parent, uncle := Paint(Join(p, t), false), Paint(Other(p.up), false);
    if p.up.InLeft? then Node(parent, p.up.node, true, uncle) else Node(uncle, p.up.node, true, parent)
  }

  lemma RecolorOk<E>(p: Path<E>, t: Tree<E>, h: nat)
    requires Pending(p, t, h) && PathRed(p) && p.up != Top && IsRed(Other(p.up))
    ensures Pending(p.up.up, Recolored(p, t), h + 1)
    ensures SameTree(p, t, p.up.up, Recolored(p, t))
  {
    BelowRed(p, t, h);
    RecolorSame(p, t);
  }

  lemma RecolorSame<E>(p: Path<E>, t: Tree<E>)
    requires PathRed(p) && p.up != Top && Other(p.up).Node?
    ensures SameTree(p, t, p.up.up, Recolored(p, t))
  {
    hide InOrder, Nodes, Before, After, PathNodes;
    var up, u, tp := p.up, Other(p.up), Join(p, t);
    JoinSame(p, t);
    JoinSame(up, tp);
    PaintSame(u, false);
    PaintSame(tp, false);
    RecoloredNodes(p, t);
    SameInside(up.up, Join(up, tp), Recolored(p, t));
  }

  lemma RecoloredNodes<E>(p: Path<E>, t: Tree<E>)
    requires PathRed(p) && p.up != Top && Other(p.up).Node?
    ensures InOrder(Recolored(p, t)) == InOrder(Join(p.up, Join(p, t)))
    ensures Nodes(Recolored(p, t)) == Nodes(Join(p.up, Join(p, t)))
  {
    PaintSame(Other(p.up), false);
    PaintSame(Join(p, t), false);
  }

  lemma {:induction false} PaintSame<E>(t: Tree<E>, red: bool)
    ensures InOrder(Paint(t, red)) == InOrder(t) && Nodes(Paint(t, red)) == Nodes(t)
  {
  }

  method Recolor<E>(parent: RbNode<E>, gparent: RbNode<E>, uncle: RbNode<E>, root: RbRoot<E>,
                    ghost p: Path<E>, ghost t: Tree<E>, ghost n: RbNode<E>)
    requires Whole(p, t, n, root) && PathRed(p) && p.up != Top && !p.up.red && IsRed(Other(p.up))
    requires parent == p.node && gparent == p.up.node && uncle == Other(p.up).node
    modifies PathNodes(p), Nodes(t)
    ensures Whole(p.up.up, Recolored(p, t), gparent, root)
  {
    hide Whole, Nodes, PathNodes;
    ghost var up, tp, u := p.up, Join(p, t), Other(p.up);
    ghost var all := PathNodes(p) + Nodes(t);
    ghost var u', tp' := Paint(u, false), Paint(tp, false);
    GoUp(p, t, n, root);
    GoUp(up, tp, parent, root);
    ghost var toUncle := if up.InLeft? then InRight(tp, gparent, false, up.up) else InLeft(up.up, gparent, false, tp);
    if up.InLeft? {
      GoRight(up.up, Join(up, tp), gparent, root);
    } else {
      GoLeft(up.up, Join(up, tp), gparent, root);
    }
    SetRedIn(uncle, false, root, toUncle, u, all);
    GoUp(toUncle, u', uncle, root);
    ghost var toParent := if up.InLeft? then InLeft(up.up, gparent, false, u') else InRight(u', gparent, false, up.up);
    if up.InLeft? {
      GoLeft(up.up, Join(toUncle, u'), gparent, root);
    } else {
      GoRight(up.up, Join(toUncle, u'), gparent, root);
    }
    SetRedIn(parent, false, root, toParent, tp, all);
    GoUp(toParent, tp', parent, root);
    SetRedIn(gparent, true, root, up.up, Join(toParent, tp'), all);
  }

  // Colouring a node of a known whole tree.
  method SetRedIn<E>(n: RbNode<E>, red: bool, ghost root: RbRoot<E>, ghost p: Path<E>, ghost t: Tree<E>,
                     ghost all: set<RbNode<E>>)
    requires Whole(p, t, n, root) && t.Node? && PathNodes(p) + Nodes(t) == all
    modifies all
    ensures Whole(p, Paint(t, red), n, root) && PathNodes(p) + Nodes(Paint(t, red)) == all
  {
    RepNode(t, n, Parent(p));
    SameNodes(t, red);
    SetRed(n, red, root, p, t);
  }

  /** The case of a red node in the left half of its grandparent, whose other half is black at the root: one or two
      rotations put a black node above it. */
  method FixLeft<E>(node: RbNode<E>, parent: RbNode<E>, gparent: RbNode<E>, root: RbRoot<E>,
                    ghost p: Path<E>, ghost t: Tree<E>, ghost h: nat)
    returns (n: RbNode<E>, ghost p': Path<E>, ghost t': Tree<E>)
    requires Whole(p, t, node, root) && Pending(p, t, h) && PathRed(p) && p.up.InLeft? && !IsRed(p.up.right)
    requires parent == p.node && gparent == p.up.node
    modifies PathNodes(p), Nodes(t), root
    ensures Whole(p', t', n, root) && Pending(p', t', h) && !PathRed(p') && SameTree(p, t, p', t')
  {
    hide Whole, Nodes, PathNodes, Balanced, PathBalanced, Before, After, InOrder;
    ghost var all, up, u := PathNodes(p) + Nodes(t), p.up, p.up.right;
    ghost var tp := Join(p, t);
    GoUp(p, t, node, root);
    ChildSide(p, t, node, root);
    var q := parent;
    n := node;
    BelowRed(p, t, h);
    FixedLeftOk(p, t, h);
    FixedLeftSame(p, t);
    if parent.right == node {
      RotateLeft(parent, root, up, tp);
      RotationOrder(p.left, parent, t.left, node, t.right, true, true, true, true);
      tp := Node(Node(p.left, parent, true, t.left), node, true, t.right);
      n, q := parent, node;
    }
    SetRedIn(q, false, root, up, tp, all);
    tp := Paint(tp, false);
    GoUp(up, tp, q, root);
    SetRedIn(gparent, true, root, up.up, Node(tp, gparent, false, u), all);
    RotateRight(gparent, root, up.up, Node(tp, gparent, true, u));
    RotationOrder(tp.left, q, tp.right, gparent, u, false, true, false, true);
    t', p' := tp.left, InLeft(up.up, q, false, Node(tp.right, gparent, true, u));
    GoLeft(up.up, Node(tp.left, q, false, Node(tp.right, gparent, true, u)), q, root);
  }

  // On which side of its parent a node is.
  lemma ChildSide<E>(p: Path<E>, t: Tree<E>, n: RbNode<E>, root: RbRoot<E>)
    requires Whole(p, t, n, root) && p != Top
    ensures p.InLeft? <==> p.node.left == n
    ensures p.InRight? <==> p.node.right == n
    ensures t.Node? && t.node == n
  {
    RepRoot(t, n, Parent(p));
    OpenPath(p, n, root);
  }

  // The tree the rotations make of a red node in the left half: its parent's subtree first,
  ghost function Straightened<E>(p: Path<E>, t: Tree<E>): Tree<E>
    requires p != Top && t.Node?
  {
    if p.InLeft? then Node(t, p.node, false, p.right)
    else Node(Node(p.left, p.node, true, t.left), t.node, false, t.right)
  }

  // ... then the grandparent's.
  ghost function FixedLeft<E>(p: Path<E>, t: Tree<E>): Path<E>
    requires PathRed(p) && p.up.InLeft? && t.Node?
  {
    var q := Straightened(p, t);
    InLeft(p.up.up, q.node, false, Node(q.right, p.up.node, true, p.up.right))
  }

  lemma FixedLeftOk<E>(p: Path<E>, t: Tree<E>, h: nat)
    requires Pending(p, t, h) && PathRed(p) && p.up.InLeft? && !IsRed(p.up.right)
    ensures Pending(FixedLeft(p, t), Straightened(p, t).left, h)
  {
    BelowRed(p, t, h);
  }

  lemma StraightenedSame<E>(p: Path<E>, t: Tree<E>)
    requires PathRed(p) && IsRed(t)
    ensures InOrder(Straightened(p, t)) == InOrder(Join(p, t)) && Nodes(Straightened(p, t)) == Nodes(Join(p, t))
  {
    if p.InRight? {
      RotationOrder(p.left, p.node, t.left, t.node, t.right, true, false, true, true);
    }
  }

  lemma FixedLeftSame<E>(p: Path<E>, t: Tree<E>)
    requires PathRed(p) && p.up.InLeft? && IsRed(t) && !p.up.red
    ensures SameTree(p, t, FixedLeft(p, t), Straightened(p, t).left)
  {
    hide InOrder, Nodes, Before, After, PathNodes;
    var up, q := p.up, Straightened(p, t);
    StraightenedSame(p, t);
    JoinSame(p, t);
    JoinSame(up, Join(p, t));
    SameInside(up, Join(p, t), q);
    JoinSame(up, q);
    RotationOrder(q.left, q.node, q.right, up.node, up.right, q.red, up.red, false, true);
    var p' := FixedLeft(p, t);
    JoinSame(p', q.left);
    assert Join(p', q.left) == Node(q.left, q.node, false, Node(q.right, up.node, true, up.right));
    SameInside(up.up, Join(up, q), Join(p', q.left));
  }

  lemma JoinSame<E>(p: Path<E>, t: Tree<E>)
    requires p != Top
    ensures SameTree(p, t, p.up, Join(p, t))
  {
    GoUpOrder(p, t);
  }

  lemma {:induction false} SameInside<E>(p: Path<E>, t: Tree<E>, t': Tree<E>)
    requires InOrder(t') == InOrder(t) && Nodes(t') == Nodes(t)
    ensures SameTree(p, t, p, t')
  {
  }

  /** The mirror case: a red node in the right half of its grandparent. */
  method FixRight<E>(node: RbNode<E>, parent: RbNode<E>, gparent: RbNode<E>, root: RbRoot<E>,
                     ghost p: Path<E>, ghost t: Tree<E>, ghost h: nat)
    returns (n: RbNode<E>, ghost p': Path<E>, ghost t': Tree<E>)
    requires Whole(p, t, node, root) && Pending(p, t, h) && PathRed(p) && p.up.InRight? && !IsRed(p.up.left)
    requires parent == p.node && gparent == p.up.node
    modifies PathNodes(p), Nodes(t), root
    ensures Whole(p', t', n, root) && Pending(p', t', h) && !PathRed(p') && SameTree(p, t, p', t')
  {
    hide Whole, Nodes, PathNodes, Balanced, PathBalanced, Before, After, InOrder;
    ghost var all, up, u := PathNodes(p) + Nodes(t), p.up, p.up.left;
    ghost var tp := Join(p, t);
    GoUp(p, t, node, root);
    ChildSide(p, t, node, root);
    var q := parent;
    n := node;
    BelowRed(p, t, h);
    FixedRightOk(p, t, h);
    FixedRightSame(p, t);
    if parent.left == node {
      RotateRight(parent, root, up, tp);
      RotationOrder(t.left, node, t.right, parent, p.right, true, true, true, true);
      tp := Node(t.left, node, true, Node(t.right, parent, true, p.right));
      n, q := parent, node;
    }
    SetRedIn(q, false, root, up, tp, all);
    tp := Paint(tp, false);
    GoUp(up, tp, q, root);
    SetRedIn(gparent, true, root, up.up, Node(u, gparent, false, tp), all);
    RotateLeft(gparent, root, up.up, Node(u, gparent, true, tp));
    RotationOrder(u, gparent, tp.left, q, tp.right, true, false, true, false);
    t', p' := tp.right, InRight(Node(u, gparent, true, tp.left), q, false, up.up);
    GoRight(up.up, Node(Node(u, gparent, true, tp.left), q, false, tp.right), q, root);
  }

  ghost function StraightenedRight<E>(p: Path<E>, t: Tree<E>): Tree<E>
    requires p != Top && t.Node?
  {
    if p.InRight? then Node(p.left, p.node, false, t)
    else Node(t.left, t.node, false, Node(t.right, p.node, true, p.right))
  }

  ghost function FixedRight<E>(p: Path<E>, t: Tree<E>): Path<E>
    requires PathRed(p) && p.up.InRight? && t.Node?
  {
    var q := StraightenedRight(p, t);
    InRight(Node(p.up.left, p.up.node, true, q.left), q.node, false, p.up.up)
  }

  lemma FixedRightOk<E>(p: Path<E>, t: Tree<E>, h: nat)
    requires Pending(p, t, h) && PathRed(p) && p.up.InRight? && !IsRed(p.up.left)
    ensures Pending(FixedRight(p, t), StraightenedRight(p, t).right, h)
  {
    BelowRed(p, t, h);
  }

  lemma StraightenedRightSame<E>(p: Path<E>, t: Tree<E>)
    requires PathRed(p) && IsRed(t)
    ensures InOrder(StraightenedRight(p, t)) == InOrder(Join(p, t))
    ensures Nodes(StraightenedRight(p, t)) == Nodes(Join(p, t))
  {
    if p.InLeft? {
      RotationOrder(t.left, t.node, t.right, p.node, p.right, true, true, false, true);
    }
  }

  lemma FixedRightSame<E>(p: Path<E>, t: Tree<E>)
    requires PathRed(p) && p.up.InRight? && IsRed(t) && !p.up.red
    ensures SameTree(p, t, FixedRight(p, t), StraightenedRight(p, t).right)
  {
    hide InOrder, Nodes, Before, After, PathNodes;
    var up, q := p.up, StraightenedRight(p, t);
    StraightenedRightSame(p, t);
    JoinSame(p, t);
    JoinSame(up, Join(p, t));
    SameInside(up, Join(p, t), q);
    JoinSame(up, q);
    RotationOrder(up.left, up.node, q.left, q.node, q.right, true, false, up.red, q.red);
    var p' := FixedRight(p, t);
    JoinSame(p', q.right);
    assert Join(p', q.right) == Node(Node(up.left, up.node, true, q.left), q.node, false, q.right);
    SameInside(up.up, Join(up, q), Join(p', q.right));
  }

  // The nodes around a node whose parent is red.
  lemma {:induction false} Family<E>(p: Path<E>, t: Tree<E>, n: RbNode<E>, root: RbRoot<E>)
    requires Whole(p, t, n, root) && IsRed(t)
    ensures n == t.node && n.parent == Parent(p)
    ensures p != Top ==>
      && p.node.red == p.red && p.node.parent == Parent(p.up) && p.node in PathNodes(p)
    ensures p != Top && p.up != Top ==>
      && var g := p.up.node;
      && (p.up.InLeft? <==> p.node == g.left)
      && g in PathNodes(p)
      && var u := if p.up.InLeft? then g.right else g.left;
      && (u == null <==> Other(p.up).Nil?)
      && (u != null ==> u == Other(p.up).node && u.red == Other(p.up).red && u in PathNodes(p))
  {
    RepNode(t, n, Parent(p));
    OpenPath(p, n, root);
    if p != Top && p.up != Top {
      OpenPath(p.up, p.node, root);
      var u := if p.up.InLeft? then p.up.node.right else p.up.node.left;
      RepRoot(Other(p.up), u, p.up.node);
      if Other(p.up).Node? {
        RepNode(Other(p.up), u, p.up.node);
      }
    }
  }

  /** Rebalances a tree around a node that was just linked in red. The tree keeps its nodes and their order and
      ends up a red-black tree with a black root. */
  method InsertColor<E>(x: RbNode<E>, root: RbRoot<E>, ghost at: Path<E>, ghost sub: Tree<E>, ghost height: nat)
    returns (ghost w: Tree<E>, ghost h: nat)
    requires Whole(at, sub, x, root) && Pending(at, sub, height)
    modifies PathNodes(at), Nodes(sub), root
    ensures Rep(w, root.node, null) && InOrder(w) == Order(at, sub) && Nodes(w) == PathNodes(at) + Nodes(sub)
    ensures Balanced(w, h) && !IsRed(w)
  {
    hide Whole, Nodes, PathNodes, Balanced, PathBalanced, Before, After, InOrder, RootBlack, Rep, RepPath;
    ghost var p, t, all := at, sub, PathNodes(at) + Nodes(sub);
    h := height;
    var node: RbNode<E> := x;
    while true
      invariant Whole(p, t, node, root) && Pending(p, t, h) && SameTree(at, sub, p, t)
      decreases if PathRed(p) then Depth(p) else 0
    {
      Family(p, t, node, root);
      var parent := node.parent;
      if parent == null || !parent.red {
        break;
      }
      BelowRed(p, t, h);
      assert Depth(p) == 1 + Depth(p.up) && Depth(p.up) == 1 + Depth(p.up.up);
      var gparent := parent.parent;
      if parent == gparent.left {
        var uncle := gparent.right;
        if uncle != null && uncle.red {
          RecolorOk(p, t, h);
          Recolor(parent, gparent, uncle, root, p, t, node);
          p, t, h := p.up.up, Recolored(p, t), h + 1;
          node := gparent;
          continue;
        }
        node, p, t := FixLeft(node, parent, gparent, root, p, t, h);
      } else {
        var uncle := gparent.left;
        if uncle != null && uncle.red {
          RecolorOk(p, t, h);
          Recolor(parent, gparent, uncle, root, p, t, node);
          p, t, h := p.up.up, Recolored(p, t), h + 1;
          node := gparent;
          continue;
        }
        node, p, t := FixRight(node, parent, gparent, root, p, t, h);
      }
    }
    w, h := Finished(p, t, node, root, h);
    SetRedIn(root.node, false, root, Top, w, all);
    w, h := PaintRoot(w, root.node, root, h);
  }

  lemma Finished<E>(p: Path<E>, t: Tree<E>, n: RbNode<E>, root: RbRoot<E>, h: nat) returns (w: Tree<E>, k: nat)
    requires Whole(p, t, n, root) && Pending(p, t, h) && !PathRed(p)
    ensures Whole(Top, w, root.node, root) && w.Node? && root.node != null && Balanced(w, k)
    ensures PathNodes<E>(Top) + Nodes(w) == PathNodes(p) + Nodes(t)
    ensures InOrder(w) == Order(p, t)
  {
    w := Plug(p, t);
    PlugWhole(p, t, n, root);
    k := PlugBalanced(p, t, h);
    PlugNode(p, t);
    RepRoot(w, root.node, null);
    assert [] + InOrder(w) + [] == InOrder(w);
  }

  lemma {:induction false} PlugNode<E>(p: Path<E>, t: Tree<E>)
    requires t.Node?
    ensures Plug(p, t).Node?
    decreases Depth(p)
  {
    if p != Top {
      PlugNode(p.up, Join(p, t));
    }
  }

  lemma PaintRoot<E>(w: Tree<E>, n: RbNode<E>, root: RbRoot<E>, h: nat) returns (w': Tree<E>, k: nat)
    requires w.Node? && Balanced(w, h) && Whole(Top, Paint(w, false), n, root)
    ensures w' == Paint(w, false) && Rep(w', root.node, null) && root.node == n
    ensures InOrder(w') == InOrder(w) && Nodes(w') == Nodes(w) && PathNodes<E>(Top) == {}
    ensures Balanced(w', k) && !IsRed(w')
  {
    w' := Paint(w, false);
    k := if w.red then h + 1 else h;
  }
}
