/** Ids for kernel objects, found through a tree of trees (kcmp-ids.c, file-ids.c). */
module KcmpIds {
  import opened RbTrees

  const TWO_32: nat := 0x1_0000_0000

  datatype Elem = Elem(pid: int, genid: nat, idx: nat)

  // The order sys_kcmp() reports: negative, zero or positive.
  type Order3 = (Elem, Elem) -> int

  ghost predicate TotalPreorder(cmp: Order3) {
    && (forall a, b :: cmp(a, b) < 0 <==> cmp(b, a) > 0)
    && (forall a, b, c :: cmp(a, b) <= 0 && cmp(b, c) <= 0 ==> cmp(a, c) <= 0)
  }

  // One object looks the same to fstat.
  ghost predicate SameGenid(cmp: Order3) {
    forall a, b :: cmp(a, b) == 0 ==> a.genid == b.genid
  }

  // The counter as an id, a number of 32 bits.
  function IdAt(subid: nat): nat {
    subid % TWO_32
  }

  // Where the counter is through with its 32 bits the ids begin again.
  lemma IdsRepeat(k: nat)
    requires 0 < k < TWO_32
    ensures IdAt(TWO_32) == 0 && IdAt(TWO_32 + k) == IdAt(k) == k
  {
  }

  lemma CounterEnds()
    ensures TWO_32 == 0x1_0000_0000
  {
  }

  class KidEntry {
    const elem: Elem
    const subid: nat
    const subtreeRoot: RbRoot<KidEntry>

    constructor (elem: Elem, subid: nat, subtreeRoot: RbRoot<KidEntry>)
      ensures this.elem == elem && this.subid == subid && this.subtreeRoot == subtreeRoot
    {
      this.elem, this.subid, this.subtreeRoot := elem, subid, subtreeRoot;
    }
  }

  type KNode = RbNode<KidEntry>

  // How a sought element compares with a node: negative sends the search to the left.
  type Probe = KNode -> int

  // The nodes of a tree, in order, compare positive first, then at most one zero, then negative.
  ghost predicate Separates(s: seq<KNode>, f: Probe) {
    forall i, j :: 0 <= i < j < |s| ==> (f(s[j]) >= 0 ==> f(s[i]) > 0) && (f(s[i]) <= 0 ==> f(s[j]) < 0)
  }

  // A search has come to a place with only positive nodes before it and only negative ones after it.
  ghost predicate Narrowed(p: Path<KidEntry>, f: Probe) {
    && (forall x :: x in Before(p) ==> f(x) > 0)
    && (forall x :: x in After(p) ==> f(x) < 0)
  }

  // The laws of a proper tree around a subtree.
  ghost predicate ProperAt(p: Path<KidEntry>, t: Tree<KidEntry>) {
    && (exists h: nat :: Balanced(t, h) && PathBalanced(p, h))
    && (IsRed(t) ==> p != Top && !PathRed(p))
    && RootBlack(p)
  }

  lemma ProperLeft(p: Path<KidEntry>, t: Tree<KidEntry>)
    requires ProperAt(p, t) && t.Node?
    ensures ProperAt(InLeft(p, t.node, t.red, t.right), t.left)
  {
    var h: nat :| Balanced(t, h) && PathBalanced(p, h);
    var h' := if t.red then h else h - 1;
    assert Balanced(t.left, h') && PathBalanced(InLeft(p, t.node, t.red, t.right), h');
  }

  lemma ProperRight(p: Path<KidEntry>, t: Tree<KidEntry>)
    requires ProperAt(p, t) && t.Node?
    ensures ProperAt(InRight(t.left, t.node, t.red, p), t.right)
  {
    var h: nat :| Balanced(t, h) && PathBalanced(p, h);
    var h' := if t.red then h else h - 1;
    assert Balanced(t.right, h') && PathBalanced(InRight(t.left, t.node, t.red, p), h');
  }

  lemma NarrowLeft(p: Path<KidEntry>, t: Tree<KidEntry>, f: Probe)
    requires t.Node? && Separates(Order(p, t), f) && Narrowed(p, f) && f(t.node) < 0
    ensures Narrowed(InLeft(p, t.node, t.red, t.right), f)
  {
    var b, l, r, a := Before(p), InOrder(t.left), InOrder(t.right), After(p);
    var s := Order(p, t);
    assert s == b + (l + [t.node] + r) + a;
    var k := |b| + |l|;
    assert s[k] == t.node;
    forall x | x in r
      ensures f(x) < 0
    {
      var i :| 0 <= i < |r| && r[i] == x;
      assert s[k + 1 + i] == x;
    }
  }

  lemma NarrowRight(p: Path<KidEntry>, t: Tree<KidEntry>, f: Probe)
    requires t.Node? && Separates(Order(p, t), f) && Narrowed(p, f) && f(t.node) > 0
    ensures Narrowed(InRight(t.left, t.node, t.red, p), f)
  {
    var b, l, r, a := Before(p), InOrder(t.left), InOrder(t.right), After(p);
    var s := Order(p, t);
    assert s == b + (l + [t.node] + r) + a;
    var k := |b| + |l|;
    assert s[k] == t.node;
    forall x | x in l
      ensures f(x) > 0
    {
      var i :| 0 <= i < |l| && l[i] == x;
      assert s[|b| + i] == x;
    }
  }

  // Where a search stands.
  ghost predicate SearchingAt(p: Path<KidEntry>, t: Tree<KidEntry>, n: RbNode?<KidEntry>, root: RbRoot<KidEntry>,
                              f: Probe)
    reads root, PathNodes(p), Nodes(t)
  {
    && Whole(p, t, n, root)
    && PathNodes(p) + Nodes(t) == root.repr
    && Order(p, t) == InOrder(root.shape)
    && Separates(Order(p, t), f)
    && Narrowed(p, f)
    && ProperAt(p, t)
  }

  lemma StartSearch(root: RbRoot<KidEntry>, f: Probe)
    requires root.Valid() && Separates(InOrder(root.shape), f)
    ensures SearchingAt(Top, root.shape, root.node, root, f)
  {
    assert [] + InOrder(root.shape) + [] == InOrder(root.shape);
    assert Balanced(root.shape, root.height) && PathBalanced<KidEntry>(Top, root.height);
  }

  lemma SearchLeft(p: Path<KidEntry>, t: Tree<KidEntry>, n: KNode, root: RbRoot<KidEntry>, f: Probe)
    requires SearchingAt(p, t, n, root, f) && f(n) < 0
    ensures t.Node? && SearchingAt(InLeft(p, n, t.red, t.right), t.left, n.left, root, f)
  {
    RepRoot(t, n, Parent(p));
    hide Rep, RepPath, Nodes, PathNodes, Separates, Narrowed, ProperAt, Order;
    GoLeft(p, t, n, root);
    GoUpOrder(InLeft(p, n, t.red, t.right), t.left);
    NarrowLeft(p, t, f);
    ProperLeft(p, t);
  }

  lemma SearchRight(p: Path<KidEntry>, t: Tree<KidEntry>, n: KNode, root: RbRoot<KidEntry>, f: Probe)
    requires SearchingAt(p, t, n, root, f) && f(n) > 0
    ensures t.Node? && SearchingAt(InRight(t.left, n, t.red, p), t.right, n.right, root, f)
  {
    RepRoot(t, n, Parent(p));
    hide Rep, RepPath, Nodes, PathNodes, Separates, Narrowed, ProperAt, Order;
    GoRight(p, t, n, root);
    GoUpOrder(InRight(t.left, n, t.red, p), t.right);
    NarrowRight(p, t, f);
    ProperRight(p, t);
  }

  // A search that ended at a free place: nothing in the tree compares equal, and a node can be linked in there.
  lemma {:induction false} NotFound(p: Path<KidEntry>, t: Tree<KidEntry>, root: RbRoot<KidEntry>, f: Probe)
    requires SearchingAt(p, t, null, root, f)
    ensures t == Nil && PathNodes(p) == root.repr && PathBalanced(p, 0) && RootBlack(p)
    ensures Before(p) + After(p) == InOrder(root.shape)
    ensures forall x :: x in InOrder(root.shape) ==> f(x) != 0
  {
    RepRoot(t, null, Parent(p));
    assert Before(p) + [] + After(p) == Before(p) + After(p);
  }

  // The main tree is sorted by genid.
  ghost predicate ByGenid(s: seq<KNode>) {
    forall i, j :: 0 <= i < j < |s| ==> s[i].entry.elem.genid < s[j].entry.elem.genid
  }

  // A subtree is sorted by the order of the kernel, the greatest first.
  ghost predicate ByKcmp(s: seq<KNode>, cmp: Order3) {
    forall i, j :: 0 <= i < j < |s| ==> cmp(s[i].entry.elem, s[j].entry.elem) > 0
  }

  function GenProbe(elem: Elem): Probe {
    (x: KNode) => elem.genid - x.entry.elem.genid
  }

  function SubProbe(elem: Elem, cmp: Order3): Probe {
    (x: KNode) => cmp(x.entry.elem, elem)
  }

  lemma GenSeparates(s: seq<KNode>, elem: Elem)
    requires ByGenid(s)
    ensures Separates(s, GenProbe(elem))
  {
  }

  lemma SubSeparates(s: seq<KNode>, elem: Elem, cmp: Order3)
    requires TotalPreorder(cmp) && ByKcmp(s, cmp)
    ensures Separates(s, SubProbe(elem, cmp))
  {
    var f := SubProbe(elem, cmp);
    forall i, j | 0 <= i < j < |s|
      ensures (f(s[j]) >= 0 ==> f(s[i]) > 0) && (f(s[i]) <= 0 ==> f(s[j]) < 0)
    {
      Between(cmp, s[i].entry.elem, s[j].entry.elem, elem);
    }
  }

  lemma Between(cmp: Order3, a: Elem, b: Elem, c: Elem)
    requires TotalPreorder(cmp) && cmp(a, b) > 0
    ensures cmp(b, c) >= 0 ==> cmp(a, c) > 0
    ensures cmp(a, c) <= 0 ==> cmp(b, c) < 0
  {
    assert cmp(b, c) >= 0 ==> cmp(c, b) <= 0;
  }

  // A node in its place keeps the order.
  lemma GenInserted(b: seq<KNode>, n: KNode, a: seq<KNode>)
    requires ByGenid(b + a)
    requires forall x :: x in b ==> GenProbe(n.entry.elem)(x) > 0
    requires forall x :: x in a ==> GenProbe(n.entry.elem)(x) < 0
    ensures ByGenid(b + [n] + a)
  {
    var s, t := b + [n] + a, b + a;
    forall i, j | 0 <= i < j < |s|
      ensures s[i].entry.elem.genid < s[j].entry.elem.genid
    {
      Shifted(b, n, a, i);
      Shifted(b, n, a, j);
    }
  }

  lemma Shifted(b: seq<KNode>, n: KNode, a: seq<KNode>, i: nat)
    requires i < |b + [n] + a|
    ensures var s, t := b + [n] + a, b + a;
      if i < |b| then s[i] == t[i] && s[i] in b
      else if i == |b| then s[i] == n
      else s[i] == t[i - 1] && s[i] in a
  {
    if i > |b| {
      assert (b + [n] + a)[i] == a[i - |b| - 1];
    }
  }

  lemma SubInserted(b: seq<KNode>, n: KNode, a: seq<KNode>, cmp: Order3)
    requires TotalPreorder(cmp) && ByKcmp(b + a, cmp)
    requires forall x :: x in b ==> SubProbe(n.entry.elem, cmp)(x) > 0
    requires forall x :: x in a ==> SubProbe(n.entry.elem, cmp)(x) < 0
    ensures ByKcmp(b + [n] + a, cmp)
  {
    var s, t := b + [n] + a, b + a;
    forall i, j | 0 <= i < j < |s|
      ensures cmp(s[i].entry.elem, s[j].entry.elem) > 0
    {
      Shifted(b, n, a, i);
      Shifted(b, n, a, j);
    }
  }

  // A subtree: proper, sorted, of one genid.
  ghost predicate SubOk(e: KidEntry, cmp: Order3)
    reads e.subtreeRoot, e.subtreeRoot.repr
  {
    && e.subtreeRoot.Valid()
    && ByKcmp(InOrder(e.subtreeRoot.shape), cmp)
    && forall y :: y in e.subtreeRoot.repr ==> y.entry.elem.genid == e.elem.genid
  }

  lemma {:induction false} InOrderNodes(t: Tree<KidEntry>, x: KNode)
    ensures x in InOrder(t) <==> x in Nodes(t)
  {
    if t.Node? {
      InOrderNodes(t.left, x);
      InOrderNodes(t.right, x);
    }
  }

  // Where an entry is: a node of the main tree, and a node of the subtree there.
  datatype Home = Home(main: KNode, sub: KNode)

  // A free place where something can be linked in that compares with the nodes of a tree as f says.
  ghost predicate FreePlace(root: RbRoot<KidEntry>, p: Path<KidEntry>, parent: RbNode?<KidEntry>, link: Link, f: Probe)
    reads root, PathNodes(p)
  {
    && Whole(p, Nil, null, root) && PathNodes(p) == root.repr
    && PathBalanced(p, 0) && RootBlack(p)
    && parent == Parent(p) && link == LinkOf(p)
    && Before(p) + After(p) == InOrder(root.shape)
    && Narrowed(p, f)
    && forall x :: x in root.repr ==> f(x) != 0
  }

  lemma SearchEnds(p: Path<KidEntry>, t: Tree<KidEntry>, root: RbRoot<KidEntry>, f: Probe)
    requires SearchingAt(p, t, null, root, f) && root.Valid()
    ensures FreePlace(root, p, Parent(p), LinkOf(p), f)
  {
    hide Separates, ProperAt, Balanced, Narrowed, Rep, RepPath;
    RepRoot(t, null, Parent(p));
    NotFound(p, t, root, f);
    forall x | x in root.repr
      ensures f(x) != 0
    {
      InOrderNodes(root.shape, x);
    }
  }

  lemma SearchNode(p: Path<KidEntry>, t: Tree<KidEntry>, n: KNode, root: RbRoot<KidEntry>, f: Probe)
    requires SearchingAt(p, t, n, root, f)
    ensures t.Node? && n in root.repr
  {
    RepRoot(t, n, Parent(p));
  }

  // The search in a subtree.
  method FindSub(sub: RbRoot<KidEntry>, elem: Elem, cmp: Order3)
    returns (node: RbNode?<KidEntry>, parent: RbNode?<KidEntry>, link: Link, ghost p: Path<KidEntry>)
    requires sub.Valid() && TotalPreorder(cmp) && ByKcmp(InOrder(sub.shape), cmp)
    ensures node != null ==> node in sub.repr && cmp(node.entry.elem, elem) == 0
    ensures node == null ==> FreePlace(sub, p, parent, link, SubProbe(elem, cmp))
  {
    hide Rep, RepPath, SearchingAt, Separates, Balanced, InOrder, Nodes, PathNodes, FreePlace, TotalPreorder, ByKcmp;
    node, parent, link := sub.node, null, RootLink;
    ghost var f := SubProbe(elem, cmp);
    ghost var t := sub.shape;
    p := Top;
    SubSeparates(InOrder(sub.shape), elem, cmp);
    StartSearch(sub, f);
    while node != null
      invariant SearchingAt(p, t, node, sub, f)
      invariant parent == Parent(p) && link == LinkOf(p)
      decreases t
    {
      SearchNode(p, t, node, sub, f);
      var ret := cmp(node.entry.elem, elem);
      if ret < 0 {
        SearchLeft(p, t, node, sub, f);
        p, t := InLeft(p, node, t.red, t.right), t.left;
        parent, node, link := node, node.left, LeftLink;
      } else if ret > 0 {
        SearchRight(p, t, node, sub, f);
        p, t := InRight(t.left, node, t.red, p), t.right;
        parent, node, link := node, node.right, RightLink;
      } else {
        return;
      }
    }
    SearchEnds(p, t, sub, f);
  }

  // The search in the main tree.
  method FindGen(root: RbRoot<KidEntry>, elem: Elem)
    returns (node: RbNode?<KidEntry>, parent: RbNode?<KidEntry>, link: Link, ghost p: Path<KidEntry>)
    requires root.Valid() && ByGenid(InOrder(root.shape))
    ensures node != null ==> node in root.repr && node.entry.elem.genid == elem.genid
    ensures node == null ==> FreePlace(root, p, parent, link, GenProbe(elem))
  {
    hide Rep, RepPath, SearchingAt, Separates, Balanced, InOrder, Nodes, PathNodes, FreePlace, ByGenid;
    node, parent, link := root.node, null, RootLink;
    ghost var f := GenProbe(elem);
    ghost var t := root.shape;
    p := Top;
    GenSeparates(InOrder(root.shape), elem);
    StartSearch(root, f);
    while node != null
      invariant SearchingAt(p, t, node, root, f)
      invariant parent == Parent(p) && link == LinkOf(p)
      decreases t
    {
      SearchNode(p, t, node, root, f);
      if elem.genid < node.entry.elem.genid {
        SearchLeft(p, t, node, root, f);
        p, t := InLeft(p, node, t.red, t.right), t.left;
        parent, node, link := node, node.left, LeftLink;
      } else if elem.genid > node.entry.elem.genid {
        SearchRight(p, t, node, root, f);
        p, t := InRight(t.left, node, t.red, p), t.right;
        parent, node, link := node, node.right, RightLink;
      } else {
        return;
      }
    }
    SearchEnds(p, t, root, f);
  }

  // A node is linked into a subtree, at a place a search for it came to.
  method LinkSub(e: KidEntry, n: KNode, parent: RbNode?<KidEntry>, link: Link, ghost p: Path<KidEntry>,
                 ghost cmp: Order3)
    requires TotalPreorder(cmp) && SubOk(e, cmp)
    requires n !in e.subtreeRoot.repr && n.entry.elem.genid == e.elem.genid
    requires FreePlace(e.subtreeRoot, p, parent, link, SubProbe(n.entry.elem, cmp))
    modifies e.subtreeRoot, e.subtreeRoot.repr, n
    ensures SubOk(e, cmp) && e.subtreeRoot.repr == old(e.subtreeRoot.repr) + {n}
  {
    hide Rep, RepPath, Nodes, PathNodes, Balanced, PathBalanced, Before, After, InOrder, RootBlack, TotalPreorder,
         ByKcmp;
    SubInserted(Before(p), n, After(p), cmp);
    e.subtreeRoot.LinkAndBalance(n, parent, link, p);
  }

  // The subtree nodes under each main node.
  type Subtrees = map<KNode, set<KNode>>

  // All trees are apart from one another.
  ghost predicate Apart(root: RbRoot<KidEntry>, subs: Subtrees) {
    && (forall x :: x in subs ==> x.entry.subtreeRoot != root && subs[x] !! subs.Keys)
    && (forall x, y :: x in subs && y in subs && x != y ==>
          x.entry.subtreeRoot != y.entry.subtreeRoot && subs[x] !! subs[y])
  }

  /** The entries are the nodes of the subtrees; they differ in object and in id. */
  ghost predicate EntriesOk(subs: Subtrees, homes: map<KidEntry, Home>, subid: nat, specials: set<nat>, cmp: Order3) {
    && (forall x, y :: x in subs && y in subs[x] ==> y.entry in homes && homes[y.entry] == Home(x, y))
    && (forall e :: e in homes ==>
          && homes[e].main in subs && homes[e].sub in subs[homes[e].main] && homes[e].sub.entry == e
          && 0 < e.subid < subid && e.subid !in specials)
    && (forall e, e' :: e in homes && e' in homes && e != e' ==> e.subid != e'.subid && cmp(e.elem, e'.elem) != 0)
  }

  ghost predicate Recorded(homes: map<KidEntry, Home>, cmp: Order3, elem: Elem, id: nat) {
    exists e :: e in homes && e.subid == id && cmp(e.elem, elem) == 0
  }

  /** Every id given out is that of the entry of its object. */
  ghost predicate HistoryOk(history: seq<(Elem, nat)>, homes: map<KidEntry, Home>, subid: nat, specials: set<nat>,
                            cmp: Order3)
  {
    && (forall h :: h in history ==> Recorded(homes, cmp, h.0, h.1))
    && (forall e :: e in homes ==> (e.elem, e.subid) in history)
    && (forall i :: i in specials ==> i < subid)
  }

  lemma HistoryGrows(history: seq<(Elem, nat)>, homes: map<KidEntry, Home>, subid: nat, specials: set<nat>,
                     cmp: Order3, e: KidEntry, h: Home)
    requires HistoryOk(history, homes, subid, specials, cmp) && e !in homes && cmp(e.elem, e.elem) == 0
    ensures HistoryOk(history + [(e.elem, e.subid)], homes[e := h], subid + 1, specials, cmp)
  {
    var homes' := homes[e := h];
    assert Recorded(homes', cmp, e.elem, e.subid);
    forall g | g in history
      ensures Recorded(homes', cmp, g.0, g.1)
    {
      var e' :| e' in homes && e'.subid == g.1 && cmp(e'.elem, g.0) == 0;
      assert e' in homes';
    }
  }

  // An object that is known is given its id again.
  lemma HistoryRepeats(history: seq<(Elem, nat)>, homes: map<KidEntry, Home>, subid: nat, specials: set<nat>,
                       cmp: Order3, elem: Elem, id: nat)
    requires HistoryOk(history, homes, subid, specials, cmp) && Recorded(homes, cmp, elem, id)
    ensures HistoryOk(history + [(elem, id)], homes, subid, specials, cmp)
  {
  }

  lemma SpecialsBelow(history: seq<(Elem, nat)>, homes: map<KidEntry, Home>, subid: nat, specials: set<nat>,
                      cmp: Order3)
    requires HistoryOk(history, homes, subid, specials, cmp)
    ensures subid !in specials
  {
  }

  lemma SelfCompare(cmp: Order3, a: Elem)
    requires TotalPreorder(cmp)
    ensures cmp(a, a) == 0
  {
  }

  // A new entry joins.
  lemma EntriesGrow(subs: Subtrees, homes: map<KidEntry, Home>, subid: nat, specials: set<nat>, cmp: Order3,
                    e: KidEntry, x: KNode, y: KNode)
    requires EntriesOk(subs, homes, subid, specials, cmp) && TotalPreorder(cmp)
    requires e !in homes && y.entry == e && e.subid == subid && 0 < subid && subid !in specials
    requires x in subs ==> y !in subs[x]
    requires forall e' :: e' in homes ==> cmp(e'.elem, e.elem) != 0
    ensures var subs' := subs[x := if x in subs then subs[x] + {y} else {y}];
            EntriesOk(subs', homes[e := Home(x, y)], subid + 1, specials, cmp)
  {
    forall e' | e' in homes
      ensures cmp(e.elem, e'.elem) != 0
    {
      assert cmp(e'.elem, e.elem) != 0;
    }
  }

  class KidTree {
    const flaky: bool  // whether allocations may fail
    const cmp: Order3
    const root: RbRoot<KidEntry>
    var subid: nat

    ghost var homes: map<KidEntry, Home>      // the entries, and where they are
    ghost var history: seq<(Elem, nat)>       // the ids given out
    ghost var specials: set<nat>              // the special ids given out
    ghost var Repr: set<object>

    ghost predicate Owned()
      reads `Repr, Repr
    {
      && root in Repr && root.repr <= Repr
      && forall x :: x in root.repr ==> x.entry.subtreeRoot in Repr && x.entry.subtreeRoot.repr <= Repr
    }

    // The nodes of the subtree under each node of the main tree.
    ghost function Subs(): Subtrees
      requires Owned()
      reads `Repr, Repr
    {
      map x | x in root.repr :: x.entry.subtreeRoot.repr
    }

    // The main tree and the subtrees are proper and sorted.
    ghost predicate TreesOk()
      requires Owned()
      reads `Repr, Repr
    {
      && root.Valid() && ByGenid(InOrder(root.shape))
      && forall x :: x in root.repr ==> SubOk(x.entry, cmp)
    }

    ghost predicate Valid()
      reads this, Repr
    {
      && TotalPreorder(cmp) && SameGenid(cmp)
      && 0 < subid <= TWO_32 && this !in Repr
      && Owned() && TreesOk() && Apart(root, Subs())
      && EntriesOk(Subs(), homes, subid, specials, cmp) && HistoryOk(history, homes, subid, specials, cmp)
    }

    constructor (cmp: Order3, flaky: bool)
      requires TotalPreorder(cmp) && SameGenid(cmp)
      ensures Valid() && this.cmp == cmp && this.flaky == flaky && history == [] && specials == {} && subid == 1
    {
      this.cmp, this.flaky := cmp, flaky;
      root := new RbRoot<KidEntry>();
      subid := 1;
      homes, history, specials := map[], [], {};
      new;
      Repr := {root};
    }
  
    /** A new entry with the next id, alone in its subtree; there may be no memory for it.
        An id of zero, after the last one of 32 bits, is a BUG in the program and an error here. */
    method AllocKidEntry(elem: Elem) returns (e: KidEntry?, node: RbNode?<KidEntry>, subNode: RbNode?<KidEntry>)
      requires 0 < subid <= TWO_32
      modifies `subid
      ensures e == null <==> subid == old(subid)
      ensures e == null ==> flaky || subid == TWO_32
      ensures subid <= TWO_32
      ensures e != null ==>
        && node != null && subNode != null && node != subNode
        && fresh(e) && fresh(node) && fresh(subNode) && fresh(e.subtreeRoot)
        && e.elem == elem && e.subid == old(subid) && subid == old(subid) + 1
        && node.entry == e && subNode.entry == e
        && e.subtreeRoot.Valid() && e.subtreeRoot.repr == {subNode} && InOrder(e.subtreeRoot.shape) == [subNode]
    {
      var failed: bool := *;
      if (flaky && failed) || IdAt(subid) == 0 {
        return null, null, null;
      }
      var sub := new RbRoot<KidEntry>();
      e := new KidEntry(elem, IdAt(subid), sub);
      subid := subid + 1;
      node := new RbNode<KidEntry>(e);
      subNode := new RbNode<KidEntry>(e);
      sub.LinkAndBalance(subNode, null, RootLink, Top);
      assert [] + [subNode] + [] == [subNode];
    }

    // An object is known if and only if its subtree has it.
    lemma NotKnown(x: KNode, elem: Elem)
      requires Valid() && x in root.repr && x.entry.elem.genid == elem.genid
      requires forall y :: y in x.entry.subtreeRoot.repr ==> cmp(y.entry.elem, elem) != 0
      ensures forall e :: e in homes ==> cmp(e.elem, elem) != 0
    {
      forall e | e in homes
        ensures cmp(e.elem, elem) != 0
      {
        var h := homes[e];
        if h.main != x {
          GenidsDiffer(root.shape, h.main, x);
        }
      }
    }

    // What is known of a node of the main tree,
    lemma AtMain(x: KNode)
      requires Valid() && x in root.repr
      ensures x.entry.subtreeRoot in Repr && SubOk(x.entry, cmp)
      ensures x.entry.subtreeRoot.Valid() && ByKcmp(InOrder(x.entry.subtreeRoot.shape), cmp)
    {
    }

    // ... and of a node of a subtree.
    lemma AtSub(x: KNode, y: KNode, elem: Elem)
      requires Owned() && EntriesOk(Subs(), homes, subid, specials, cmp)
      requires x in root.repr && y in x.entry.subtreeRoot.repr && cmp(y.entry.elem, elem) == 0
      ensures y.entry in homes && 0 < y.entry.subid && Recorded(homes, cmp, elem, y.entry.subid)
    {
      assert x in Subs() && y in Subs()[x];
    }

    // The object was seen before.
    ghost predicate Seen(elem: Elem)
      reads this
    {
      exists h :: h in history && cmp(h.0, elem) == 0
    }

    lemma SeenIsKnown(elem: Elem)
      requires Valid()
      ensures Seen(elem) <==> exists e :: e in homes && cmp(e.elem, elem) == 0
    {
      if h :| h in history && cmp(h.0, elem) == 0 {
        assert Recorded(homes, cmp, h.0, h.1);
        var e :| e in homes && e.subid == h.1 && cmp(e.elem, h.0) == 0;
        SameObject(cmp, e.elem, h.0, elem);
      }
      if e :| e in homes && cmp(e.elem, elem) == 0 {
        assert (e.elem, e.subid) in history;
      }
    }

    /** Looks an object up in the subtree of its genid: the id of its entry if it has one, else a new entry. */
    method GenerateSub(x: KNode, elem: Elem) returns (id: nat, isNew: bool)
      requires Valid() && x in root.repr && x.entry.elem.genid == elem.genid
      modifies this, Repr
      ensures Valid() && fresh(Repr - old(Repr)) && specials == old(specials)
      ensures history == if id == 0 then old(history) else old(history) + [(elem, id)]
      ensures id == 0 ==> flaky || subid == TWO_32
      ensures isNew ==> id == old(subid) && subid == old(subid) + 1
      ensures id != 0 ==> (isNew <==> !old(Seen(elem)))
    {
      hide SubOk, ByGenid, TotalPreorder, SameGenid, FreePlace, TreesOk, EntriesOk, Owned, Recorded, Apart, Subs,
           HistoryOk;
      AtMain(x);
      SeenIsKnown(elem);
      var sub := x.entry.subtreeRoot;
      var node, parent, link;
      ghost var p;
      node, parent, link, p := FindSub(sub, elem, cmp);
      if node != null {
        id, isNew := node.entry.subid, false;
        AtSub(x, node, elem);
        HistoryRepeats(history, homes, subid, specials, cmp, elem, id);
        history := history + [(elem, id)];
        return;
      }
      FreeMeans(sub, p, parent, link, SubProbe(elem, cmp));
      NotKnown(x, elem);
      id, isNew := AddSub(x, elem, parent, link, p);
    }

    // A new entry goes into a subtree.
    method AddSub(x: KNode, elem: Elem, parent: RbNode?<KidEntry>, link: Link, ghost p: Path<KidEntry>)
      returns (id: nat, isNew: bool)
      requires Valid() && x in root.repr && x.entry.elem.genid == elem.genid
      requires FreePlace(x.entry.subtreeRoot, p, parent, link, SubProbe(elem, cmp))
      requires PathNodes(p) == x.entry.subtreeRoot.repr
      requires forall e :: e in homes ==> cmp(e.elem, elem) != 0
      modifies this, Repr
      ensures Valid() && fresh(Repr - old(Repr)) && specials == old(specials)
      ensures history == if id == 0 then old(history) else old(history) + [(elem, id)]
      ensures id == 0 ==> flaky || subid == TWO_32
      ensures isNew <==> id != 0
      ensures isNew ==> id == old(subid) && subid == old(subid) + 1
    {
      hide ByGenid, TotalPreorder, SameGenid, FreePlace, EntriesOk, HistoryOk, SubOk, Apart, PathNodes, TreesOk,
           Owned, Subs;
      ghost var subs := Subs();
      SubsAllocated(x);
      var e, mainNode, newNode := AllocKidEntry(elem);
      if e == null {
        return 0, false;
      }
      var subNode: KNode := newNode;
      LinkUnder(x, subNode, parent, link, p);
      SpecialsBelow(history, homes, old(subid), specials, cmp);
      EntriesGrow(subs, homes, old(subid), specials, cmp, e, x, subNode);
      SelfCompare(cmp, elem);
      HistoryGrows(history, homes, old(subid), specials, cmp, e, Home(x, subNode));
      homes := homes[e := Home(x, subNode)];
      id, isNew := e.subid, true;
      history := history + [(elem, id)];
    }

    // What is under a main node is owned by the tree.
    lemma SubsAllocated(x: KNode)
      requires Owned() && x in root.repr
      ensures x.entry.subtreeRoot in Repr && x.entry.subtreeRoot.repr <= Repr
      ensures x in Subs() && Subs()[x] == x.entry.subtreeRoot.repr
    {
    }

    // A node is linked into the subtree under a main node; the other trees are left alone.
    method LinkUnder(x: KNode, n: KNode, parent: RbNode?<KidEntry>, link: Link, ghost p: Path<KidEntry>)
      requires TotalPreorder(cmp) && this !in Repr && Owned() && TreesOk() && Apart(root, Subs())
      requires x in root.repr && n !in Repr && n.entry.elem.genid == x.entry.elem.genid
      requires FreePlace(x.entry.subtreeRoot, p, parent, link, SubProbe(n.entry.elem, cmp))
      modifies `Repr, x.entry.subtreeRoot, x.entry.subtreeRoot.repr, n
      ensures Repr == old(Repr) + {n}
      ensures Owned() && TreesOk() && x in old(Subs()) && Subs() == old(Subs())[x := old(Subs())[x] + {n}]
      ensures Apart(root, Subs())
    {
      hide ByGenid, TotalPreorder, FreePlace, SubOk, Apart, PathNodes, Rep, Balanced, Nodes, InOrder;
      ghost var subs := Subs();
      ApartMeans(root, subs, x);
      ApartGrows(root, subs, x, n);
      LinkSub(x.entry, n, parent, link, p, cmp);
      Repr := Repr + {n};
      assert Subs() == subs[x := subs[x] + {n}];
    }

    // A node with a subtree of its own is linked into the main tree; the subtrees are left alone.
    method LinkMain(n: KNode, sub: KNode, parent: RbNode?<KidEntry>, link: Link, ghost p: Path<KidEntry>)
      requires this !in Repr && Owned() && TreesOk() && Apart(root, Subs())
      requires n !in Repr && sub !in Repr && n != sub && n.entry.subtreeRoot !in Repr && SubOk(n.entry, cmp)
      requires n.entry.subtreeRoot.repr == {sub}
      requires FreePlace(root, p, parent, link, GenProbe(n.entry.elem))
      modifies `Repr, root, root.repr, n
      ensures Repr == old(Repr) + {n, sub, n.entry.subtreeRoot}
      ensures Owned() && TreesOk() && n !in old(Subs()) && Subs() == old(Subs())[n := {sub}]
      ensures Apart(root, Subs())
    {
      hide ByGenid, FreePlace, SubOk, Apart, PathNodes, Rep, Balanced, Nodes, InOrder, RepPath, PathBalanced, Before,
           After,
           RootBlack;
      ghost var subs := Subs();
      ApartFromMain(root, subs);
      ApartJoins(root, subs, n, sub);
      LinkGen(root, n, parent, link, p);
      Repr := Repr + {n, sub, n.entry.subtreeRoot};
      assert Subs() == subs[n := {sub}];
    }

    /** Looks an object up: its id if it was seen before, else a new one; zero if there is no memory. */
    method GenerateGen(elem: Elem) returns (id: nat, isNew: bool)
      requires Valid()
      modifies this, Repr
      ensures Valid() && fresh(Repr - old(Repr)) && specials == old(specials)
      ensures history == if id == 0 then old(history) else old(history) + [(elem, id)]
      ensures id == 0 ==> flaky || subid == TWO_32
      ensures isNew ==> id == old(subid) && subid == old(subid) + 1
      ensures id != 0 ==> (isNew <==> !old(Seen(elem)))
    {
      hide SubOk, ByGenid, TotalPreorder, SameGenid, FreePlace, EntriesOk, Owned, Recorded, Apart, Subs, HistoryOk,
           Rep, Balanced, Nodes, InOrder, PathNodes;
      SeenIsKnown(elem);
      var node, parent, link;
      ghost var p;
      node, parent, link, p := FindGen(root, elem);
      if node != null {
        id, isNew := GenerateSub(node, elem);
        return;
      }
      FreeMeans(root, p, parent, link, GenProbe(elem));
      GenNotKnown(elem);
      id, isNew := AddMain(elem, parent, link, p);
    }

    // A genid that no main node has belongs to no known object.
    lemma GenNotKnown(elem: Elem)
      requires Valid() && forall x :: x in root.repr ==> GenProbe(elem)(x) != 0
      ensures forall e :: e in homes ==> cmp(e.elem, elem) != 0
    {
      forall e | e in homes
        ensures cmp(e.elem, elem) != 0
      {
        var h := homes[e];
        assert h.main in Subs() && h.sub in Subs()[h.main];
        AtMain(h.main);
        assert GenProbe(elem)(h.main) != 0;
        assert h.sub.entry.elem.genid == h.main.entry.elem.genid;
      }
    }

    // A new entry with a new main node.
    method AddMain(elem: Elem, parent: RbNode?<KidEntry>, link: Link, ghost p: Path<KidEntry>)
      returns (id: nat, isNew: bool)
      requires Valid()
      requires FreePlace(root, p, parent, link, GenProbe(elem)) && PathNodes(p) == root.repr
      requires forall e :: e in homes ==> cmp(e.elem, elem) != 0
      modifies this, Repr
      ensures Valid() && fresh(Repr - old(Repr)) && specials == old(specials)
      ensures history == if id == 0 then old(history) else old(history) + [(elem, id)]
      ensures id == 0 ==> flaky || subid == TWO_32
      ensures isNew <==> id != 0
      ensures isNew ==> id == old(subid) && subid == old(subid) + 1
    {
      hide ByGenid, TotalPreorder, SameGenid, FreePlace, EntriesOk, HistoryOk, SubOk, Apart, PathNodes, TreesOk, Subs,
           Rep, Balanced, Nodes, InOrder;
      ghost var subs := Subs();
      var e, mainNode, newNode := AllocKidEntry(elem);
      if e == null {
        return 0, false;
      }
      var n: KNode, subNode: KNode := mainNode, newNode;
      AloneOk(e, subNode, cmp);
      LinkMain(n, subNode, parent, link, p);
      SpecialsBelow(history, homes, old(subid), specials, cmp);
      EntriesGrow(subs, homes, old(subid), specials, cmp, e, n, subNode);
      SelfCompare(cmp, elem);
      HistoryGrows(history, homes, old(subid), specials, cmp, e, Home(n, subNode));
      homes := homes[e := Home(n, subNode)];
      id, isNew := e.subid, true;
      history := history + [(elem, id)];
    }

    // The next number of the counter, whatever it is.
    method DrawSpecial() returns (id: nat)
      modifies `subid
      ensures id == IdAt(old(subid)) && subid == old(subid) + 1
    {
      id := IdAt(subid);
      subid := subid + 1;
    }

    /** Once the counter is through with its 32 bits the next special id is zero, and those after it are the ids of
        the objects again, each of which is drawn a second time. */
    method SpecialAgain(k: nat, ghost i: nat) returns (first: nat, id: nat)
      requires Valid() && subid == 0x1_0000_0000 && i < |history| && history[i].1 == k
      modifies `subid
      ensures first == 0 && id == history[i].1 && history == old(history)
    {
      hide *;
      CounterEnds();
      IdsBelow(i);
      first := DrawSpecial();
      id := first;
      while subid <= TWO_32 + k
        invariant TWO_32 < subid <= TWO_32 + k + 1 && id == IdAt(subid - 1)
      {
        id := DrawSpecial();
      }
      IdsRepeat(k);
    }

    lemma IdsBelow(i: nat)
      requires Valid() && i < |history|
      ensures 0 < history[i].1 < subid
    {
      assert history[i] in history;
    }

    /** An id for something that is no kernel object of this kind, from the same counter. */
    method GenerateSpecial() returns (id: nat)
      requires Valid() && subid < TWO_32
      modifies `subid, `specials
      ensures Valid() && subid == old(subid) + 1 && Repr == old(Repr) && history == old(history)
      ensures id == old(subid) && id !in old(specials) && specials == old(specials) + {id}
    {
      hide TreesOk, Apart, Subs, Owned, TotalPreorder, SameGenid, EntriesOk;
      SpecialJoins(Subs(), history, homes, subid, specials, cmp);
      id := DrawSpecial();
      specials := specials + {id};
    }

    /** The ids given out so far: equal for two objects exactly when the kernel says they are one,
        and never a special id. */
    lemma IdsAgree(i: nat, j: nat)
      requires Valid() && i < |history| && j < |history|
      ensures history[i].1 == history[j].1 <==> cmp(history[i].0, history[j].0) == 0
      ensures history[i].1 !in specials
    {
      var (a, k) := history[i];
      var (b, l) := history[j];
      assert history[i] in history && history[j] in history;
      assert Recorded(homes, cmp, a, k) && Recorded(homes, cmp, b, l);
      var e :| e in homes && e.subid == k && cmp(e.elem, a) == 0;
      var e' :| e' in homes && e'.subid == l && cmp(e'.elem, b) == 0;
      SameSide(cmp, e.elem, a, e'.elem, b);
      SelfCompare(cmp, e.elem);
    }

    /** Replaces the stat-based id of a file by its id here; reports whether that is new. */
    method FdIdGenerate(pid: int, fd: nat, statId: nat) returns (ret: int, id: nat)
      requires Valid()
      modifies this, Repr
      ensures Valid() && fresh(Repr - old(Repr)) && specials == old(specials)
      ensures var elem := Elem(pid, statId, fd);
        if ret < 0 then ret == -ENOMEM && (flaky || subid == TWO_32) && id == statId && history == old(history)
        else history == old(history) + [(elem, id)] && ret == if old(Seen(elem)) then 0 else 1
    {
      hide Valid;
      var isNew;
      id, isNew := GenerateGen(Elem(pid, statId, fd));
      if id == 0 {
        return -ENOMEM, statId;
      }
      ret := if isNew then 1 else 0;
    }
  }

  const ENOMEM: int := 12

  lemma SpecialJoins(subs: Subtrees, history: seq<(Elem, nat)>, homes: map<KidEntry, Home>, subid: nat,
                     specials: set<nat>,
                     cmp: Order3)
    requires EntriesOk(subs, homes, subid, specials, cmp) && HistoryOk(history, homes, subid, specials, cmp)
    ensures EntriesOk(subs, homes, subid + 1, specials + {subid}, cmp)
    ensures HistoryOk(history, homes, subid + 1, specials + {subid}, cmp)
    ensures subid !in specials
  {
  }

  // Objects compare as the entries that stand for them.
  lemma SameSide(cmp: Order3, a: Elem, a': Elem, b: Elem, b': Elem)
    requires TotalPreorder(cmp) && cmp(a, a') == 0 && cmp(b, b') == 0
    ensures cmp(a, b) == 0 <==> cmp(a', b') == 0
  {
    assert cmp(a', a) == 0 && cmp(b', b) == 0;
    if cmp(a, b) == 0 {
      SameObject(cmp, a', a, b);
      SameObject(cmp, a', b, b');
    }
    if cmp(a', b') == 0 {
      SameObject(cmp, a, a', b');
      SameObject(cmp, a, b', b);
    }
  }

  lemma AloneOk(e: KidEntry, sub: KNode, cmp: Order3)
    requires e.subtreeRoot.Valid() && e.subtreeRoot.repr == {sub} && InOrder(e.subtreeRoot.shape) == [sub]
    requires sub.entry == e
    ensures SubOk(e, cmp)
  {
  }

  method LinkGen(root: RbRoot<KidEntry>, n: KNode, parent: RbNode?<KidEntry>, link: Link, ghost p: Path<KidEntry>)
    requires root.Valid() && ByGenid(InOrder(root.shape)) && n !in root.repr
    requires FreePlace(root, p, parent, link, GenProbe(n.entry.elem))
    modifies root, root.repr, n
    ensures root.Valid() && ByGenid(InOrder(root.shape)) && root.repr == old(root.repr) + {n}
  {
    hide Rep, RepPath, Nodes, PathNodes, Balanced, PathBalanced, Before, After, InOrder, RootBlack, ByGenid;
    GenInserted(Before(p), n, After(p));
    root.LinkAndBalance(n, parent, link, p);
  }

  lemma ApartFromMain(root: RbRoot<KidEntry>, subs: Subtrees)
    requires Apart(root, subs)
    ensures forall x :: x in subs ==> x.entry.subtreeRoot != root && subs[x] !! subs.Keys
  {
  }

  lemma ApartJoins(root: RbRoot<KidEntry>, subs: Subtrees, n: KNode, sub: KNode)
    requires Apart(root, subs) && n !in subs && n != sub && sub !in subs && n.entry.subtreeRoot != root
    requires forall y :: y in subs ==> n !in subs[y] && sub !in subs[y] && y.entry.subtreeRoot != n.entry.subtreeRoot
    ensures Apart(root, subs[n := {sub}])
  {
  }

  lemma {:induction false} FreeMeans(root: RbRoot<KidEntry>, p: Path<KidEntry>, parent: RbNode?<KidEntry>, link: Link,
                                     f: Probe)
    requires FreePlace(root, p, parent, link, f)
    ensures PathNodes(p) == root.repr && forall x :: x in root.repr ==> f(x) != 0
  {
  }

  lemma ApartMeans(root: RbRoot<KidEntry>, subs: Subtrees, x: KNode)
    requires Apart(root, subs) && x in subs
    ensures x.entry.subtreeRoot != root && subs[x] !! subs.Keys
    ensures forall y :: y in subs && y != x ==> x.entry.subtreeRoot != y.entry.subtreeRoot && subs[x] !! subs[y]
  {
  }

  lemma ApartGrows(root: RbRoot<KidEntry>, subs: Subtrees, x: KNode, n: KNode)
    requires Apart(root, subs) && x in subs && n !in subs && forall y :: y in subs ==> n !in subs[y]
    ensures Apart(root, subs[x := subs[x] + {n}])
  {
  }

  lemma {:induction false} GenidsDiffer(t: Tree<KidEntry>, x: KNode, y: KNode)
    requires ByGenid(InOrder(t)) && x in Nodes(t) && y in Nodes(t) && x != y
    ensures x.entry.elem.genid != y.entry.elem.genid
  {
    hide InOrder, Nodes;
    InOrderNodes(t, x);
    InOrderNodes(t, y);
    var s := InOrder(t);
    var i :| 0 <= i < |s| && s[i] == x;
    var j :| 0 <= j < |s| && s[j] == y;
  }

  lemma SameObject(cmp: Order3, a: Elem, b: Elem, c: Elem)
    requires TotalPreorder(cmp) && cmp(a, b) == 0 && cmp(b, c) == 0
    ensures cmp(a, c) == 0
  {
    assert cmp(b, a) <= 0 && cmp(c, b) <= 0;
  }
}
