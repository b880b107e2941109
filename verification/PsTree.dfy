/** The process tree: writing it to the image and reading it back (pstree.c). */
module PsTree {
  import opened Options
  import opened Sequences

  // A process, by itself and as it hangs in the tree: its parent, and its children as a list of other items.
  datatype Info = Info(pid: nat, pgid: nat, sid: nat, threads: seq<nat>)
  datatype Item = Item(info: Info, parent: Option<nat>, children: seq<nat>)

  // An entry of the image; the root has no parent pid.
  datatype PsEntry = PsEntry(info: Info, ppid: nat)

  // The tree as a value.
  datatype Task = Task(info: Info, kids: seq<Task>)

  // The children of an item hang below it and know it as their parent.
  ghost predicate ItemOk(items: seq<Item>, k: nat)
    requires k < |items|
  {
    && (forall i :: 0 <= i < |items[k].children| ==>
          k < items[k].children[i] < |items| && items[items[k].children[i]].parent == Some(k))
    && (forall i, j :: 0 <= i < j < |items[k].children| ==> items[k].children[i] != items[k].children[j])
    && (match items[k].parent
        case None => k == 0
        case Some(p) => p < k && k in items[p].children)
  }

  // Items that form one tree, the root first.
  ghost predicate IsTree(items: seq<Item>) {
    0 < |items| && forall k :: 0 <= k < |items| ==> ItemOk(items, k)
  }

  // The tree below an item.

  ghost function TreeAt(items: seq<Item>, k: nat): Task
    requires IsTree(items) && k < |items|
    decreases |items| - k, 1
  {
    Task(items[k].info, KidTrees(items, k, 0))
  }

  ghost function KidTrees(items: seq<Item>, k: nat, i: nat): seq<Task>
    requires IsTree(items) && k < |items|
    decreases |items| - k, 0, |items[k].children| - i
  {
    if i >= |items[k].children| then []
    else
      assert ItemOk(items, k);
      [TreeAt(items, items[k].children[i])] + KidTrees(items, k, i + 1)
  }

  // The items in the order in which they are gone through: each before its children.

  ghost function Order(items: seq<Item>, k: nat): seq<nat>
    requires IsTree(items) && k < |items|
    decreases |items| - k, 1
  {
    [k] + OrderKids(items, k, 0)
  }

  ghost function OrderKids(items: seq<Item>, k: nat, i: nat): seq<nat>
    requires IsTree(items) && k < |items|
    decreases |items| - k, 0, |items[k].children| - i
  {
    if i >= |items[k].children| then []
    else
      assert ItemOk(items, k);
      Order(items, items[k].children[i]) + OrderKids(items, k, i + 1)
  }

  // The entries of a tree, in that order.

  function Entries(t: Task, ppid: nat): seq<PsEntry>
    decreases t, 1
  {
    [PsEntry(t.info, ppid)] + KidEntries(t, 0)
  }

  function KidEntries(t: Task, i: nat): seq<PsEntry>
    decreases t, 0, |t.kids| - i
  {
    if i >= |t.kids| then [] else Entries(t.kids[i], t.info.pid) + KidEntries(t, i + 1)
  }

  // Before an entry comes that of its parent.
  ghost predicate HasParentBefore(entries: seq<PsEntry>, k: nat)
    requires k < |entries|
  {
    exists j :: 0 <= j < k && entries[j].info.pid == entries[k].ppid
  }

  lemma {:induction false} EntryAfterParent(t: Task, ppid: nat, k: nat)
    requires k < |Entries(t, ppid)|
    ensures k > 0 ==> HasParentBefore(Entries(t, ppid), k)
    ensures k == 0 ==> Entries(t, ppid)[k].ppid == ppid
    decreases t, 1
  {
    if k > 0 {
      KidAfterParent(t, 0, k - 1);
      var kids := KidEntries(t, 0);
      if kids[k - 1].ppid == t.info.pid {
        assert Entries(t, ppid)[0].info.pid == t.info.pid;
      } else {
        var j :| 0 <= j < k - 1 && kids[j].info.pid == kids[k - 1].ppid;
        assert Entries(t, ppid)[j + 1] == kids[j];
      }
    }
  }

  lemma {:induction false} KidAfterParent(t: Task, i: nat, k: nat)
    requires k < |KidEntries(t, i)|
    ensures KidEntries(t, i)[k].ppid == t.info.pid || HasParentBefore(KidEntries(t, i), k)
    decreases t, 0, |t.kids| - i
  {
    var first, rest := Entries(t.kids[i], t.info.pid), KidEntries(t, i + 1);
    if k < |first| {
      EntryAfterParent(t.kids[i], t.info.pid, k);
      if k > 0 {
        var j :| 0 <= j < k && first[j].info.pid == first[k].ppid;
        assert KidEntries(t, i)[j] == first[j];
      }
    } else {
      KidAfterParent(t, i + 1, k - |first|);
      if rest[k - |first|].ppid != t.info.pid {
        var j :| 0 <= j < k - |first| && rest[j].info.pid == rest[k - |first|].ppid;
        assert KidEntries(t, i)[|first| + j] == rest[j];
      }
    }
  }

  // The tree with all lists of siblings reversed.

  function Mirror(t: Task): Task
    decreases t, 1
  {
    Task(t.info, MirrorKids(t, |t.kids|))
  }

  // The first n children, the last of them first.
  function MirrorKids(t: Task, n: nat): seq<Task>
    requires n <= |t.kids|
    decreases t, 0, n
  {
    if n == 0 then [] else [Mirror(t.kids[n - 1])] + MirrorKids(t, n - 1)
  }

  // The entry that is written for an item.
  function EntryOf(items: seq<Item>, k: nat): PsEntry
    requires k < |items|
  {
    PsEntry(items[k].info,
            match items[k].parent
            case None => 0
            case Some(p) => if p < |items| then items[p].info.pid else 0)
  }

  function EntriesOf(items: seq<Item>, ks: seq<nat>): seq<PsEntry>
    requires forall i :: 0 <= i < |ks| ==> ks[i] < |items|
  {
    if ks == [] then [] else [EntryOf(items, ks[0])] + EntriesOf(items, ks[1..])
  }

  lemma {:induction false} EntriesConcat(items: seq<Item>, a: seq<nat>, b: seq<nat>)
    requires forall i :: 0 <= i < |a| ==> a[i] < |items|
    requires forall i :: 0 <= i < |b| ==> b[i] < |items|
    ensures EntriesOf(items, a + b) == EntriesOf(items, a) + EntriesOf(items, b)
  {
    hide EntryOf;
    if a == [] {
      assert a + b == b;
    } else {
      assert (a + b)[1..] == a[1..] + b;
      EntriesConcat(items, a[1..], b);
    }
  }

  lemma {:induction false} OrderInRange(items: seq<Item>, k: nat)
    requires IsTree(items) && k < |items|
    ensures forall i :: 0 <= i < |Order(items, k)| ==> Order(items, k)[i] < |items|
    decreases |items| - k, 1
  {
    OrderKidsInRange(items, k, 0);
  }

  lemma {:induction false} OrderKidsInRange(items: seq<Item>, k: nat, i: nat)
    requires IsTree(items) && k < |items|
    ensures forall j :: 0 <= j < |OrderKids(items, k, i)| ==> OrderKids(items, k, i)[j] < |items|
    decreases |items| - k, 0, |items[k].children| - i
  {
    if i < |items[k].children| {
      assert ItemOk(items, k);
      OrderInRange(items, items[k].children[i]);
      OrderKidsInRange(items, k, i + 1);
    }
  }

  // The entries of the items, gone through in order, are the entries of the tree.
  lemma {:induction false} OrderEntries(items: seq<Item>, k: nat)
    requires IsTree(items) && k < |items|
    requires forall i :: 0 <= i < |Order(items, k)| ==> Order(items, k)[i] < |items|
    ensures EntriesOf(items, Order(items, k)) == Entries(TreeAt(items, k), EntryOf(items, k).ppid)
    decreases |items| - k, 1
  {
    OrderKidsInRange(items, k, 0);
    OrderKidsEntries(items, k, 0);
    assert Order(items, k)[1..] == OrderKids(items, k, 0);
  }

  lemma {:induction false} OrderKidsEntries(items: seq<Item>, k: nat, i: nat)
    requires IsTree(items) && k < |items|
    requires i <= |items[k].children|
    requires forall j :: 0 <= j < |OrderKids(items, k, i)| ==> OrderKids(items, k, i)[j] < |items|
    ensures |KidTrees(items, k, 0)| == |items[k].children|
    ensures EntriesOf(items, OrderKids(items, k, i)) == KidEntries(TreeAt(items, k), i)
    decreases |items| - k, 0, |items[k].children| - i
  {
    KidTreesAt(items, k, 0, 0);
    if i < |items[k].children| {
      assert ItemOk(items, k);
      var c := items[k].children[i];
      KidTreesAt(items, k, 0, i);
      OrderInRange(items, c);
      OrderKidsInRange(items, k, i + 1);
      EntriesConcat(items, Order(items, c), OrderKids(items, k, i + 1));
      OrderEntries(items, c);
      OrderKidsEntries(items, k, i + 1);
    }
  }

  lemma {:induction false} KidTreesAt(items: seq<Item>, k: nat, i: nat, j: nat)
    requires IsTree(items) && k < |items| && i <= |items[k].children|
    ensures |KidTrees(items, k, i)| == |items[k].children| - i
    ensures i <= j < |items[k].children| ==>
      ItemOk(items, k) && KidTrees(items, k, i)[j - i] == TreeAt(items, items[k].children[j])
    decreases |items[k].children| - i
  {
    hide TreeAt;
    if i < |items[k].children| {
      assert ItemOk(items, k);
      KidTreesAt(items, k, i + 1, j);
    }
  }

  // What comes after the tree below an item: the later siblings, and those of its ancestors.
  ghost function Pending(items: seq<Item>, k: nat): seq<nat>
    requires IsTree(items) && k < |items|
    decreases k
  {
    assert ItemOk(items, k);
    match items[k].parent
    case None => []
    case Some(p) => OrderKids(items, p, IndexOf<nat>(items[p].children, k) + 1) + Pending(items, p)
  }

  lemma ChildFacts(items: seq<Item>, k: nat, i: nat)
    requires IsTree(items) && k < |items| && i < |items[k].children|
    ensures var c := items[k].children[i];
      k < c < |items| && items[c].parent == Some(k) && IndexOf<nat>(items[k].children, c) == i
  {
    assert ItemOk(items, k);
    IndexIs<nat>(items[k].children, i);
  }

  lemma {:induction false} ParentFacts(items: seq<Item>, k: nat)
    requires IsTree(items) && k < |items|
    ensures match items[k].parent
      case None => k == 0
      case Some(p) =>
        && p < k && k in items[p].children
        && var i := IndexOf<nat>(items[p].children, k);
           i < |items[p].children| && items[p].children[i] == k
  {
    assert ItemOk(items, k);
  }

  lemma OrderKidsStep(items: seq<Item>, k: nat, i: nat)
    requires IsTree(items) && k < |items|
    ensures Order(items, k) == [k] + OrderKids(items, k, 0)
    ensures i >= |items[k].children| ==> OrderKids(items, k, i) == []
    ensures i < |items[k].children| ==>
      var c := items[k].children[i];
      c < |items| && OrderKids(items, k, i) == Order(items, c) + OrderKids(items, k, i + 1)
  {
    if i < |items[k].children| {
      ChildFacts(items, k, i);
    }
  }

  lemma {:induction false} PendingStep(items: seq<Item>, k: nat, p: nat)
    requires IsTree(items) && k < |items| && items[k].parent == Some(p) && p < |items|
    ensures Pending(items, k) == OrderKids(items, p, IndexOf<nat>(items[p].children, k) + 1) + Pending(items, p)
  {
    hide OrderKids, IndexOf;
  }

  // The next sibling of an item, if there is one.
  lemma SiblingFacts(items: seq<Item>, k: nat)
    requires IsTree(items) && k < |items| && items[k].parent.Some?
    ensures var p := items[k].parent.value;
      p < k &&
      var i := IndexOf<nat>(items[p].children, k);
      && i < |items[p].children| && items[p].children[i] == k
      && (i + 1 == |items[p].children| ==> Pending(items, k) == Pending(items, p))
      && (i + 1 < |items[p].children| ==>
            var n := items[p].children[i + 1];
            n < |items| && items[n].parent == Some(p) && Pending(items, k) == Order(items, n) + Pending(items, n))
  {
    hide IsTree, Order, OrderKids, Pending, IndexOf;
    ParentFacts(items, k);
    var p := items[k].parent.value;
    var i := IndexOf<nat>(items[p].children, k);
    PendingStep(items, k, p);
    OrderKidsStep(items, p, i + 1);
    if i + 1 < |items[p].children| {
      ChildFacts(items, p, i + 1);
      PendingStep(items, items[p].children[i + 1], p);
    }
  }

  lemma {:induction false} FirstChild(items: seq<Item>, k: nat)
    requires IsTree(items) && k < |items|
    ensures items[k].children == [] ==> Order(items, k) == [k]
    ensures items[k].children != [] ==>
      var c := items[k].children[0];
      c < |items| && Order(items, k) + Pending(items, k) == [k] + (Order(items, c) + Pending(items, c))
  {
    hide IsTree, Order, OrderKids, Pending, IndexOf;
    OrderKidsStep(items, k, 0);
    if items[k].children != [] {
      ChildFacts(items, k, 0);
      PendingStep(items, items[k].children[0], k);
    }
  }

  // The next item: the first child, else the next sibling of the item or of its nearest ancestor that has one.
  method ItemNext(items: seq<Item>, item: nat) returns (next: Option<nat>)
    requires IsTree(items) && item < |items|
    ensures match next
      case None => Order(items, item) + Pending(items, item) == [item]
      case Some(n) =>
        n < |items| && Order(items, item) + Pending(items, item) == [item] + (Order(items, n) + Pending(items, n))
  {
    hide IsTree, Order, Pending, IndexOf;
    FirstChild(items, item);
    if items[item].children != [] {
      return Some(items[item].children[0]);
    }
    var k := item;
    while items[k].parent.Some?
      invariant k < |items| && Pending(items, k) == Pending(items, item)
      decreases k
    {
      SiblingFacts(items, k);
      var p := items[k].parent.value;
      var i := IndexOf<nat>(items[p].children, k);
      if i + 1 < |items[p].children| {
        return Some(items[p].children[i + 1]);
      }
      k := p;
    }
    RootPending(items, k);
    next := None;
  }

  lemma {:induction false} RootPending(items: seq<Item>, k: nat)
    requires IsTree(items) && k < |items| && items[k].parent.None?
    ensures Pending(items, k) == []
  {
    hide OrderKids;
  }

  // Writing the entries of all items gives the entries of the tree.
  method DumpPstree(items: seq<Item>) returns (entries: seq<PsEntry>)
    requires IsTree(items)
    ensures entries == Entries(TreeAt(items, 0), 0)
  {
    assert 0 < |items|;
    hide IsTree, Order, Pending, TreeAt, Entries, EntriesOf;
    DumpStart(items);
    entries := [];
    var item: nat := 0;
    ghost var rest := Order(items, 0);
    while true
      invariant item < |items| && InRange(items, rest) && rest == Order(items, item) + Pending(items, item)
      invariant entries + EntriesOf(items, rest) == Entries(TreeAt(items, 0), 0)
      decreases |rest|
    {
      var next := ItemNext(items, item);
      OneMore(items, item, rest);
      entries := entries + [EntryOf(items, item)];
      rest := rest[1..];
      if next.None? {
        NoMore(items);
        break;
      }
      item := next.value;
    }
  }

  ghost predicate InRange(items: seq<Item>, ks: seq<nat>) {
    forall i :: 0 <= i < |ks| ==> ks[i] < |items|
  }

  lemma {:induction false} DumpStart(items: seq<Item>)
    requires IsTree(items) && 0 < |items|
    ensures InRange(items, Order(items, 0)) && Order(items, 0) == Order(items, 0) + Pending(items, 0)
    ensures EntriesOf(items, Order(items, 0)) == Entries(TreeAt(items, 0), 0)
  {
    hide IsTree, Order, OrderKids, Pending, IndexOf, TreeAt, Entries, EntriesOf;
    ParentFacts(items, 0);
    RootPending(items, 0);
    OrderInRange(items, 0);
    OrderEntries(items, 0);
  }

  lemma {:induction false} OneMore(items: seq<Item>, k: nat, ks: seq<nat>)
    requires InRange(items, ks) && ks != [] && ks[0] == k
    ensures InRange(items, ks[1..]) && EntriesOf(items, ks) == [EntryOf(items, k)] + EntriesOf(items, ks[1..])
  {
  }

  lemma {:induction false} NoMore(items: seq<Item>)
    ensures EntriesOf(items, []) == []
  {
  }

  // What has been read: the items, the last of them, and how often the whole tree had to be searched.
  datatype Reader = Reader(items: seq<Item>, cursor: nat, scans: nat)

  // The nearest item with a pid among an item and its ancestors.
  ghost function FindUp(items: seq<Item>, k: nat, pid: nat): Option<nat>
    requires IsTree(items) && k < |items|
    decreases k
  {
    assert ItemOk(items, k);
    if items[k].info.pid == pid then Some(k)
    else
      match items[k].parent
      case None => None
      case Some(p) => FindUp(items, p, pid)
  }

  // The first of some items with a pid.
  ghost function FindIn(items: seq<Item>, ks: seq<nat>, pid: nat): Option<nat>
    requires InRange(items, ks)
  {
    if ks == [] then None else if items[ks[0]].info.pid == pid then Some(ks[0]) else FindIn(items, ks[1..], pid)
  }

  // A new item, put first among its parent's children.
  function Attach(items: seq<Item>, p: nat, info: Info): seq<Item>
    requires p < |items|
  {
    items[p := items[p].(children := [|items|] + items[p].children)] + [Item(info, Some(p), [])]
  }

  lemma AttachKeeps(items: seq<Item>, p: nat, info: Info)
    requires IsTree(items) && p < |items|
    ensures IsTree(Attach(items, p, info))
  {
    var now := Attach(items, p, info);
    forall k | 0 <= k < |now| ensures ItemOk(now, k) {
      if k < |items| {
        assert ItemOk(items, k);
        assert ItemOk(items, p);
        var kids := items[p].children;
        if k == p {
          forall i | 0 <= i < |now[k].children|
            ensures k < now[k].children[i] < |now| && now[now[k].children[i]].parent == Some(k)
          {
            assert i > 0 ==> now[k].children[i] == kids[i - 1];
          }
          forall i, j | 0 <= i < j < |now[k].children| ensures now[k].children[i] != now[k].children[j] {
            assert now[k].children[j] == kids[j - 1];
            assert i > 0 ==> now[k].children[i] == kids[i - 1];
          }
        }
      } else {
        assert now[p].children[0] == k;
      }
    }
  }

  // Reading one entry: its parent is looked for among the last item and its ancestors, and only then everywhere.
  ghost function ReadOne(r: Reader, e: PsEntry): Option<Reader>
    requires r.items != [] ==> IsTree(r.items) && r.cursor < |r.items|
  {
    if e.ppid == 0 then
      if r.items != [] then None else Some(Reader([Item(e.info, None, [])], 0, r.scans))
    else if r.items == [] then None
    else
      OrderInRange(r.items, 0);
      match FindUp(r.items, r.cursor, e.ppid)
      case Some(p) => if p < |r.items| then Some(Reader(Attach(r.items, p, e.info), |r.items|, r.scans)) else None
      case None =>
        match FindIn(r.items, Order(r.items, 0), e.ppid)
        case Some(p) => if p < |r.items| then Some(Reader(Attach(r.items, p, e.info), |r.items|, r.scans + 1)) else None
        case None => None
  }

  lemma ReadOneKeeps(r: Reader, e: PsEntry)
    requires r.items != [] ==> IsTree(r.items) && r.cursor < |r.items|
    ensures match ReadOne(r, e)
      case None => true
      case Some(r') => IsTree(r'.items) && r'.cursor == |r.items| < |r'.items|
  {
    hide Order, FindUp, FindIn, IsTree, Attach;
    if e.ppid == 0 {
      OneItem(e.info);
    } else if r.items != [] {
      forall p | 0 <= p < |r.items|
        ensures IsTree(Attach(r.items, p, e.info)) && |Attach(r.items, p, e.info)| == |r.items| + 1
      {
        AttachKeeps(r.items, p, e.info);
        AttachLength(r.items, p, e.info);
      }
    }
  }

  lemma AttachLength(items: seq<Item>, p: nat, info: Info)
    requires p < |items|
    ensures |Attach(items, p, info)| == |items| + 1
  {
  }

  lemma OneItem(info: Info)
    ensures IsTree([Item(info, None, [])])
  {
  }

  ghost function ReadAll(r: Reader, entries: seq<PsEntry>): Option<Reader>
    requires r.items != [] ==> IsTree(r.items) && r.cursor < |r.items|
    decreases |entries|
  {
    if entries == [] then Some(r)
    else
      ReadOneKeeps(r, entries[0]);
      match ReadOne(r, entries[0])
      case None => None
      case Some(r') => ReadAll(r', entries[1..])
  }

  lemma {:induction false} ReadConcat(r: Reader, a: seq<PsEntry>, b: seq<PsEntry>)
    requires r.items != [] ==> IsTree(r.items) && r.cursor < |r.items|
    ensures match ReadAll(r, a)
      case None => ReadAll(r, a + b) == None
      case Some(r') =>
        (r'.items != [] ==> IsTree(r'.items) && r'.cursor < |r'.items|) && ReadAll(r, a + b) == ReadAll(r', b)
    decreases |a|
  {
    hide IsTree, ReadOne;
    if a == [] {
      assert a + b == b;
    } else {
      ReadOneKeeps(r, a[0]);
      assert (a + b)[1..] == a[1..] + b && (a + b)[0] == a[0];
      match ReadOne(r, a[0])
      case None =>
      case Some(r') => ReadConcat(r', a[1..], b);
    }
  }

  // No pid occurs twice, in what was read and what is to be read.
  ghost predicate Distinct(items: seq<Item>, entries: seq<PsEntry>) {
    && (forall j, k :: 0 <= j < k < |items| ==> items[j].info.pid != items[k].info.pid)
    && (forall j, k :: 0 <= j < k < |entries| ==> entries[j].info.pid != entries[k].info.pid)
    && (forall j, k :: 0 <= j < |items| && 0 <= k < |entries| ==> items[j].info.pid != entries[k].info.pid)
  }

  // The entries have become items.
  ghost predicate Extends(items: seq<Item>, now: seq<Item>, entries: seq<PsEntry>) {
    && |now| == |items| + |entries|
    && (forall k :: 0 <= k < |items| ==> now[k].info == items[k].info)
    && (forall k :: 0 <= k < |entries| ==> now[|items| + k].info == entries[k].info)
  }

  lemma DistinctFirst(items: seq<Item>, a: seq<PsEntry>, b: seq<PsEntry>)
    requires Distinct(items, a + b)
    ensures Distinct(items, a)
  {
    assert forall k :: 0 <= k < |a| ==> a[k] == (a + b)[k];
  }

  lemma DistinctNext(items: seq<Item>, now: seq<Item>, a: seq<PsEntry>, b: seq<PsEntry>)
    requires Distinct(items, a + b) && Extends(items, now, a)
    ensures Distinct(now, b)
  {
    assert forall k :: 0 <= k < |a| ==> a[k] == (a + b)[k];
    assert forall k :: 0 <= k < |b| ==> b[k] == (a + b)[|a| + k];
    forall k | |items| <= k < |now| ensures now[k].info == (a + b)[k - |items|].info {
      assert now[|items| + (k - |items|)].info == a[k - |items|].info;
    }
  }

  lemma ExtendsMore(items: seq<Item>, mid: seq<Item>, now: seq<Item>, a: seq<PsEntry>, b: seq<PsEntry>)
    requires Extends(items, mid, a) && Extends(mid, now, b)
    ensures Extends(items, now, a + b)
  {
    forall k | 0 <= k < |a + b| ensures now[|items| + k].info == (a + b)[k].info {
      if k >= |a| {
        assert now[|mid| + (k - |a|)].info == b[k - |a|].info;
      }
    }
  }

  // An item is another or one of its ancestors.
  ghost predicate Above(items: seq<Item>, k: nat, p: nat)
    requires IsTree(items) && k < |items|
    decreases k
  {
    ParentFacts(items, k);
    k == p || (items[k].parent.Some? && Above(items, items[k].parent.value, p))
  }

  lemma {:induction false} AboveTransitive(items: seq<Item>, k: nat, n: nat, p: nat)
    requires IsTree(items) && k < |items| && n < |items| && Above(items, k, n) && items[n].parent == Some(p)
    ensures Above(items, k, p)
    decreases k
  {
    hide IsTree;
    ParentFacts(items, k);
    ParentFacts(items, n);
    if k != n {
      AboveTransitive(items, items[k].parent.value, n, p);
    } else {
      assert Above(items, p, p) by { ParentFacts(items, p); }
    }
  }

  // Among the ancestors the one with the pid is found.
  lemma {:induction false} FindsAbove(items: seq<Item>, k: nat, p: nat)
    requires IsTree(items) && k < |items| && p < |items| && Above(items, k, p)
    requires forall i, j :: 0 <= i < j < |items| ==> items[i].info.pid != items[j].info.pid
    ensures FindUp(items, k, items[p].info.pid) == Some(p)
    decreases k
  {
    hide IsTree;
    ParentFacts(items, k);
    if k != p {
      assert items[k].info.pid != items[p].info.pid;
      FindsAbove(items, items[k].parent.value, p);
    }
  }

  // The tree below an item is the same if nothing from there on has changed.
  lemma {:induction false} TreeFrame(items: seq<Item>, now: seq<Item>, k: nat)
    requires IsTree(items) && IsTree(now) && k < |items| <= |now|
    requires forall j :: k <= j < |items| ==> now[j] == items[j]
    ensures TreeAt(now, k) == TreeAt(items, k)
    decreases |items| - k, 1
  {
    hide IsTree;
    KidsFrame(items, now, k, 0);
  }

  lemma {:induction false} KidsFrame(items: seq<Item>, now: seq<Item>, k: nat, i: nat)
    requires IsTree(items) && IsTree(now) && k < |items| <= |now|
    requires forall j :: k <= j < |items| ==> now[j] == items[j]
    ensures KidTrees(now, k, i) == KidTrees(items, k, i)
    decreases |items| - k, 0, |items[k].children| - i
  {
    hide IsTree, TreeAt, KidTrees;
    assert now[k] == items[k];
    KidTreesStep(items, k, i);
    KidTreesStep(now, k, i);
    if i < |items[k].children| {
      ChildFacts(items, k, i);
      TreeFrame(items, now, items[k].children[i]);
      KidsFrame(items, now, k, i + 1);
    }
  }

  lemma KidTreesStep(items: seq<Item>, k: nat, i: nat)
    requires IsTree(items) && k < |items|
    ensures i >= |items[k].children| ==> KidTrees(items, k, i) == []
    ensures i < |items[k].children| ==>
      var c := items[k].children[i];
      c < |items| && KidTrees(items, k, i) == [TreeAt(items, c)] + KidTrees(items, k, i + 1)
  {
    hide IsTree, TreeAt;
    if i < |items[k].children| {
      ChildFacts(items, k, i);
    }
  }

  // The children of an item that has got another child in front of them.
  lemma {:induction false} KidsShift(items: seq<Item>, now: seq<Item>, p: nat, n: nat, i: nat)
    requires IsTree(items) && IsTree(now) && p < |items| <= |now|
    requires forall j :: p < j < |items| ==> now[j] == items[j]
    requires now[p].children == [n] + items[p].children
    ensures KidTrees(now, p, i + 1) == KidTrees(items, p, i)
    decreases |items[p].children| - i
  {
    hide IsTree, TreeAt, KidTrees;
    KidTreesStep(items, p, i);
    KidTreesStep(now, p, i + 1);
    if i < |items[p].children| {
      ChildFacts(items, p, i);
      TreeFrame(items, now, items[p].children[i]);
      KidsShift(items, now, p, n, i + 1);
    }
  }

  // Reading went on without a search of the whole tree: the new items are the entries in order,
  // and of the items there were only p may have changed, in its children.
  ghost predicate Read(r: Reader, entries: seq<PsEntry>, r': Reader, p: nat) {
    && IsTree(r'.items) && r'.cursor < |r'.items| && r'.scans == r.scans
    && Extends(r.items, r'.items, entries)
    && p < |r.items| && (forall k :: 0 <= k < |r.items| && k != p ==> r'.items[k] == r.items[k])
    && r'.items[p].parent == r.items[p].parent
    && Above(r'.items, r'.cursor, p)
  }

  lemma {:induction false} AttachReads(r: Reader, e: PsEntry, p: nat)
    requires IsTree(r.items) && r.cursor < |r.items| && p < |r.items| && Above(r.items, r.cursor, p)
    requires Distinct(r.items, [e]) && e.ppid == r.items[p].info.pid != 0
    ensures var r' := Reader(Attach(r.items, p, e.info), |r.items|, r.scans);
      ReadOne(r, e) == Some(r') && Read(r, [e], r', p)
  {
    hide IsTree, FindIn, Order;
    FindsAbove(r.items, r.cursor, p);
    AttachKeeps(r.items, p, e.info);
    var now := Attach(r.items, p, e.info);
    assert now[|r.items|].parent == Some(p);
    assert Above(now, p, p);
  }

  lemma {:induction false} ReadTree(r: Reader, t: Task, p: nat, ppid: nat) returns (r': Reader)
    requires IsTree(r.items) && r.cursor < |r.items| && p < |r.items| && Above(r.items, r.cursor, p)
    requires Distinct(r.items, Entries(t, ppid)) && PidsSet(t) && ppid == r.items[p].info.pid != 0
    ensures ReadAll(r, Entries(t, ppid)) == Some(r') && Read(r, Entries(t, ppid), r', p)
    ensures r'.items[p].children == [|r.items|] + r.items[p].children
    ensures TreeAt(r'.items, |r.items|) == Mirror(t)
    decreases t, 1
  {
    hide IsTree, Distinct, Extends, Above, ReadOne;
    var e, n := PsEntry(t.info, ppid), |r.items|;
    var kids := KidEntries(t, 0);
    assert Entries(t, ppid) == [e] + kids;
    DistinctFirst(r.items, [e], kids);
    AttachReads(r, e, p);
    var r1 := Reader(Attach(r.items, p, e.info), n, r.scans);
    assert ReadAll(r, [e] + kids) == ReadAll(r1, kids) by {
      assert ([e] + kids)[1..] == kids;
    }
    DistinctNext(r.items, r1.items, [e], kids);
    SelfAbove(r1.items, n);
    r' := ReadKids(r1, t, 0, n);
    ExtendsMore(r.items, r1.items, r'.items, [e], kids);
    AboveTransitive(r'.items, r'.cursor, n, p);
    Grows(r.items, r'.items, Entries(t, ppid));
  }

  lemma {:induction false} SelfAbove(items: seq<Item>, n: nat)
    requires IsTree(items) && n < |items|
    ensures Above(items, n, n)
  {
  }

  lemma Grows(items: seq<Item>, now: seq<Item>, entries: seq<PsEntry>)
    requires Extends(items, now, entries)
    ensures |now| == |items| + |entries|
  {
  }

  lemma {:induction false} ReadKids(r: Reader, t: Task, i: nat, p: nat) returns (r': Reader)
    requires IsTree(r.items) && r.cursor < |r.items| && p < |r.items| && Above(r.items, r.cursor, p)
    requires Distinct(r.items, KidEntries(t, i)) && PidsSet(t) && t.info == r.items[p].info
    requires i <= |t.kids| && KidTrees(r.items, p, 0) == MirrorKids(t, i)
    ensures ReadAll(r, KidEntries(t, i)) == Some(r') && Read(r, KidEntries(t, i), r', p)
    ensures KidTrees(r'.items, p, 0) == MirrorKids(t, |t.kids|)
    decreases t, 0, |t.kids| - i
  {
    hide IsTree, Distinct, Extends, Above, ReadOne;
    if i == |t.kids| {
      r' := r;
      ExtendsNone(r.items);
    } else {
      var kid, rest := Entries(t.kids[i], t.info.pid), KidEntries(t, i + 1);
      PidsOfKid(t, i);
      DistinctFirst(r.items, kid, rest);
      var r1 := ReadTree(r, t.kids[i], p, t.info.pid);
      ReadConcat(r, kid, rest);
      DistinctNext(r.items, r1.items, kid, rest);
      Grows(r.items, r1.items, kid);
      SameInfo(r.items, r1.items, kid, p);
      KidsShift(r.items, r1.items, p, |r.items|, 0);
      assert KidTrees(r1.items, p, 0) == [TreeAt(r1.items, |r.items|)] + KidTrees(r1.items, p, 1);
      r' := ReadKids(r1, t, i + 1, p);
      ExtendsMore(r.items, r1.items, r'.items, kid, rest);
    }
  }

  lemma ExtendsNone(items: seq<Item>)
    ensures Extends(items, items, [])
  {
  }

  lemma SameInfo(items: seq<Item>, now: seq<Item>, entries: seq<PsEntry>, p: nat)
    requires Extends(items, now, entries) && p < |items|
    ensures p < |now| && now[p].info == items[p].info
  {
  }

  // No pid of the tree is zero.

  ghost predicate PidsSet(t: Task)
    decreases t
  {
    t.info.pid != 0 && forall i :: 0 <= i < |t.kids| ==> PidsSet(t.kids[i])
  }

  lemma {:induction false} PidsOfKid(t: Task, i: nat)
    requires PidsSet(t) && i < |t.kids|
    ensures PidsSet(t.kids[i]) && t.info.pid != 0
  {
  }

  // Looking for a pid among an item and its ancestors.
  method SearchUp(items: seq<Item>, cursor: nat, pid: nat) returns (found: Option<nat>)
    requires IsTree(items) && cursor < |items|
    ensures found == FindUp(items, cursor, pid)
    ensures found.Some? ==> found.value < |items|
  {
    hide IsTree, ItemOk;
    var k: nat := cursor;
    while true
      invariant k < |items| && FindUp(items, cursor, pid) == FindUp(items, k, pid)
      decreases k
    {
      if items[k].info.pid == pid {
        return Some(k);
      }
      ParentFacts(items, k);
      if items[k].parent.None? {
        return None;
      }
      k := items[k].parent.value;
    }
  }

  // Looking for a pid among all items, in the order of the tree.
  method SearchAll(items: seq<Item>, pid: nat) returns (found: Option<nat>)
    requires IsTree(items) && 0 < |items| && InRange(items, Order(items, 0))
    ensures found == FindIn(items, Order(items, 0), pid)
    ensures found.Some? ==> found.value < |items|
  {
    hide IsTree, Order, Pending, TreeAt, Entries, EntriesOf;
    DumpStart(items);
    var k: nat := 0;
    ghost var rest := Order(items, 0);
    while true
      invariant k < |items| && InRange(items, rest) && rest == Order(items, k) + Pending(items, k)
      invariant FindIn(items, Order(items, 0), pid) == FindIn(items, rest, pid)
      decreases |rest|
    {
      var next := ItemNext(items, k);
      assert rest[0] == k;
      if items[k].info.pid == pid {
        return Some(k);
      }
      rest := rest[1..];
      if next.None? {
        return None;
      }
      k := next.value;
    }
  }

  // Reading the image of a tree.
  method ReadPstree(entries: seq<PsEntry>) returns (ret: int, r: Reader)
    ensures ret == 0 || ret == -1
    ensures match ReadAll(Reader([], 0, 0), entries)
      case None => ret == -1
      case Some(r') => ret == 0 && r == r'
  {
    hide IsTree, Attach;
    r := Reader([], 0, 0);
    var k := 0;
    while k < |entries|
      invariant k <= |entries|
      invariant r.items != [] ==> IsTree(r.items) && r.cursor < |r.items|
      invariant ReadAll(Reader([], 0, 0), entries) == ReadAll(r, entries[k..])
    {
      var e := entries[k];
      assert entries[k..][0] == e && entries[k..][1..] == entries[k + 1..];
      ReadOneKeeps(r, e);
      ret, r := ReadEntry(r, e);
      if ret != 0 {
        return;
      }
      k := k + 1;
    }
    assert entries[k..] == [];
    ret := 0;
  }

  method ReadEntry(r: Reader, e: PsEntry) returns (ret: int, now: Reader)
    requires r.items != [] ==> IsTree(r.items) && r.cursor < |r.items|
    ensures match ReadOne(r, e)
      case None => ret == -1
      case Some(r') => ret == 0 && now == r'
  {
    hide IsTree, Attach, FindUp, FindIn, Order;
    now := r;
    if e.ppid == 0 {
      if r.items != [] {
        return -1, r;
      }
      return 0, Reader([Item(e.info, None, [])], 0, r.scans);
    }
    if r.items == [] {
      return -1, r;
    }
    var scans := r.scans;
    var parent := SearchUp(r.items, r.cursor, e.ppid);
    if parent.None? {
      OrderInRange(r.items, 0);
      parent := SearchAll(r.items, e.ppid);
      if parent.None? {
        return -1, r;
      }
      scans := scans + 1;
    }
    return 0, Reader(Attach(r.items, parent.value, e.info), |r.items|, scans);
  }

  // The items of a tree as they are gone through: each once.

  lemma {:induction false} OrderAbove(items: seq<Item>, k: nat, j: nat)
    requires IsTree(items) && k < |items| && j in Order(items, k)
    ensures j < |items| && Above(items, j, k)
    decreases |items| - k, 1
  {
    hide IsTree;
    if j == k {
      SelfAbove(items, k);
    } else {
      var i := OrderKidsAbove(items, k, 0, j);
      ChildFacts(items, k, i);
      AboveTransitive(items, j, items[k].children[i], k);
    }
  }

  lemma {:induction false} OrderKidsAbove(items: seq<Item>, k: nat, i: nat, j: nat) returns (c: nat)
    requires IsTree(items) && k < |items| && j in OrderKids(items, k, i)
    ensures i <= c < |items[k].children| && items[k].children[c] < |items| && j < |items|
    ensures Above(items, j, items[k].children[c])
    decreases |items| - k, 0, |items[k].children| - i
  {
    hide IsTree;
    OrderKidsStep(items, k, i);
    ChildFacts(items, k, i);
    if j in Order(items, items[k].children[i]) {
      c := i;
      OrderAbove(items, items[k].children[i], j);
    } else {
      c := OrderKidsAbove(items, k, i + 1, j);
    }
  }

  // An item is not below two different children of another.
  lemma {:induction false} AboveOne(items: seq<Item>, j: nat, k: nat, c: nat, d: nat)
    requires IsTree(items) && j < |items| && k < |items|
    requires c < |items| && d < |items| && items[c].parent == Some(k) == items[d].parent
    requires Above(items, j, c) && Above(items, j, d)
    ensures c == d
    decreases j
  {
    hide IsTree;
    ParentFacts(items, j);
    if j == c && c != d {
      AboveLower(items, k, d);
      ParentFacts(items, d);
    } else if j == d && c != d {
      AboveLower(items, k, c);
      ParentFacts(items, c);
    } else if c != d {
      AboveOne(items, items[j].parent.value, k, c, d);
    }
  }

  lemma {:induction false} AboveLower(items: seq<Item>, k: nat, p: nat)
    requires IsTree(items) && k < |items| && Above(items, k, p)
    ensures p <= k
    decreases k
  {
    hide IsTree;
    ParentFacts(items, k);
    if k != p {
      AboveLower(items, items[k].parent.value, p);
    }
  }

  ghost predicate NoRepeats(ks: seq<nat>) {
    forall i, j :: 0 <= i < j < |ks| ==> ks[i] != ks[j]
  }

  lemma {:induction false} OrderOnce(items: seq<Item>, k: nat)
    requires IsTree(items) && k < |items|
    ensures NoRepeats(Order(items, k))
    decreases |items| - k, 1
  {
    hide IsTree;
    OrderKidsOnce(items, k, 0);
    forall j | j in OrderKids(items, k, 0) ensures j != k {
      var c := OrderKidsAbove(items, k, 0, j);
      ChildFacts(items, k, c);
      AboveLower(items, j, items[k].children[c]);
    }
    NoRepeatsConcat([k], OrderKids(items, k, 0));
  }

  lemma {:induction false} OrderKidsOnce(items: seq<Item>, k: nat, i: nat)
    requires IsTree(items) && k < |items|
    ensures NoRepeats(OrderKids(items, k, i))
    decreases |items| - k, 0, |items[k].children| - i
  {
    hide IsTree;
    OrderKidsStep(items, k, i);
    if i < |items[k].children| {
      ChildFacts(items, k, i);
      var c := items[k].children[i];
      var a, b := Order(items, c), OrderKids(items, k, i + 1);
      OrderOnce(items, c);
      OrderKidsOnce(items, k, i + 1);
      forall j | j in a && j in b ensures false {
        OrderAbove(items, c, j);
        var d := OrderKidsAbove(items, k, i + 1, j);
        ChildFacts(items, k, d);
        AboveOne(items, j, k, c, items[k].children[d]);
      }
      NoRepeatsConcat(a, b);
    }
  }

  lemma NoRepeatsConcat(a: seq<nat>, b: seq<nat>)
    requires NoRepeats(a) && NoRepeats(b) && forall j :: j in a ==> j !in b
    ensures NoRepeats(a + b)
  {
    forall i, j | 0 <= i < j < |a + b| ensures (a + b)[i] != (a + b)[j] {
      assert i < |a| <= j ==> (a + b)[i] in a && (a + b)[j] in b;
    }
  }

  // Items with distinct pids make entries with distinct pids.
  lemma {:induction false} EntriesDistinct(items: seq<Item>, ks: seq<nat>)
    requires InRange(items, ks) && NoRepeats(ks)
    requires forall j, k :: 0 <= j < k < |items| ==> items[j].info.pid != items[k].info.pid
    ensures |EntriesOf(items, ks)| == |ks| && Distinct([], EntriesOf(items, ks))
    ensures forall i :: 0 <= i < |ks| ==> EntriesOf(items, ks)[i].info == items[ks[i]].info
  {
    if ks != [] {
      EntriesDistinct(items, ks[1..]);
      var es := EntriesOf(items, ks);
      assert es[1..] == EntriesOf(items, ks[1..]);
      forall i, j | 0 <= i < j < |es| ensures es[i].info.pid != es[j].info.pid {
        assert es[j] == EntriesOf(items, ks[1..])[j - 1] && ks[1..][j - 1] == ks[j];
        assert i > 0 ==> es[i] == EntriesOf(items, ks[1..])[i - 1];
        assert ks[i] != ks[j];
      }
    }
  }

  lemma {:induction false} TreePidsSet(items: seq<Item>, k: nat)
    requires IsTree(items) && k < |items| && forall j :: 0 <= j < |items| ==> items[j].info.pid != 0
    ensures PidsSet(TreeAt(items, k))
    decreases |items| - k
  {
    hide IsTree;
    KidTreesAt(items, k, 0, 0);
    forall i | 0 <= i < |items[k].children| ensures PidsSet(TreeAt(items, k).kids[i]) {
      ChildFacts(items, k, i);
      KidTreesAt(items, k, 0, i);
      TreePidsSet(items, items[k].children[i]);
    }
  }

  // Writing a tree and reading it back gives the same tree with the lists of siblings reversed,
  // and no parent is ever searched for in the whole tree.
  method DumpAndRead(items: seq<Item>) returns (ret: int, r: Reader)
    requires IsTree(items)
    requires forall j, k :: 0 <= j < k < |items| ==> items[j].info.pid != items[k].info.pid
    requires forall j :: 0 <= j < |items| ==> items[j].info.pid != 0
    ensures ret == 0 && r.scans == 0 && IsTree(r.items) && TreeAt(r.items, 0) == Mirror(TreeAt(items, 0))
  {
    var entries := DumpPstree(items);
    hide IsTree, TreeAt, Entries, Order, EntriesOf;
    OrderOnce(items, 0);
    DumpStart(items);
    EntriesDistinct(items, Order(items, 0));
    TreePidsSet(items, 0);
    ReadBack(TreeAt(items, 0));
    ret, r := ReadPstree(entries);
  }

  lemma {:induction false} ReadBack(t: Task)
    requires PidsSet(t) && Distinct([], Entries(t, 0))
    ensures match ReadAll(Reader([], 0, 0), Entries(t, 0))
      case None => false
      case Some(r) => r.scans == 0 && IsTree(r.items) && TreeAt(r.items, 0) == Mirror(t)
  {
    hide IsTree, Distinct, Extends, Above;
    var start, e, kids := Reader([], 0, 0), PsEntry(t.info, 0), KidEntries(t, 0);
    assert Entries(t, 0) == [e] + kids && ([e] + kids)[1..] == kids;
    var r1 := Reader([Item(e.info, None, [])], 0, 0);
    OneItem(e.info);
    OneExtends(e);
    DistinctNext([], r1.items, [e], kids);
    SelfAbove(r1.items, 0);
    assert ReadAll(start, Entries(t, 0)) == ReadAll(r1, kids);
    var r := ReadKids(r1, t, 0, 0);
    SameInfo(r1.items, r.items, kids, 0);
  }

  lemma OneExtends(e: PsEntry)
    ensures Extends([], [Item(e.info, None, [])], [e])
  {
  }

  // Reversing twice changes nothing: what is written again and read again is the tree that was there.
  lemma {:induction false} MirrorTwice(t: Task)
    ensures Mirror(Mirror(t)) == t
    decreases t, 1
  {
    hide Mirror, MirrorKids;
    MirrorIs(t);
    MirrorIs(Mirror(t));
    forall i | 0 <= i < |t.kids| ensures Mirror(Mirror(t)).kids[i] == t.kids[i] {
      MirrorKidsAt(t, |t.kids|, |t.kids| - 1 - i);
      MirrorKidsAt(Mirror(t), |t.kids|, i);
      MirrorTwice(t.kids[i]);
    }
    MirrorKidsAt(t, |t.kids|, 0);
    MirrorKidsAt(Mirror(t), |t.kids|, 0);
  }

  lemma {:induction false} MirrorIs(t: Task)
    ensures Mirror(t) == Task(t.info, MirrorKids(t, |t.kids|)) && |Mirror(t).kids| == |t.kids|
  {
    hide MirrorKids;
    MirrorKidsAt(t, |t.kids|, 0);
  }

  lemma {:induction false} MirrorKidsAt(t: Task, n: nat, i: nat)
    requires n <= |t.kids|
    ensures |MirrorKids(t, n)| == n && (i < n ==> MirrorKids(t, n)[i] == Mirror(t.kids[n - 1 - i]))
    decreases n
  {
    hide Mirror;
    if n > 0 {
      MirrorKidsAt(t, n - 1, if i > 0 then i - 1 else 0);
    }
  }
}
