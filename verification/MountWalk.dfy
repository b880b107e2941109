/** Walking the tree of mounts, with a callback that may put a mount off (mount.c). */
module MountWalk {

  // A mount with the mounts below it.
  datatype Mount = Mount(kids: seq<Mount>)

  // A mount of a tree, by the way down to it.
  type Path = seq<nat>

  // A call of the callback, and what it returned.
  datatype Call = Call(path: Path, ret: int)

  // What the callback returns for a mount may depend on all that was done before.
  type Callback = (seq<Call>, Path) -> int

  predicate IsNode(t: Mount, path: Path) {
    path == [] || (path[0] < |t.kids| && IsNode(t.kids[path[0]], path[1..]))
  }

  function Get(t: Mount, path: Path): Mount {
    if path == [] then t else if path[0] < |t.kids| then Get(t.kids[path[0]], path[1..]) else Mount([])
  }

  lemma {:induction false} GetKid(t: Mount, path: Path, i: nat)
    ensures IsNode(t, path + [i]) <==> IsNode(t, path) && i < |Get(t, path).kids|
    ensures IsNode(t, path + [i]) ==> Get(t, path + [i]) == Get(t, path).kids[i]
  {
    if path != [] {
      assert (path + [i])[1..] == path[1..] + [i];
      if path[0] < |t.kids| {
        GetKid(t.kids[path[0]], path[1..], i);
      }
    } else {
      assert ([] + [i])[1..] == [];
    }
  }

  function Parent(path: Path): Path
    requires path != []
  {
    path[..|path| - 1]
  }

  function Last(path: Path): nat
    requires path != []
  {
    path[|path| - 1]
  }

  // How many mounts hang below a parent.
  function KidCount(t: Mount, path: Path): nat {
    |Get(t, path).kids|
  }

  // The children of a mount, from the i-th on.
  function KidPaths(path: Path, n: nat, i: nat): seq<Path>
    decreases n - i
  {
    if i >= n then [] else [path + [i]] + KidPaths(path, n, i + 1)
  }

  // The number of mounts of a tree, of its children from the i-th on, and of several trees.

  function Size(t: Mount): nat
    decreases t, 1
  {
    1 + KidsSize(t, 0)
  }

  function KidsSize(t: Mount, i: nat): nat
    decreases t, 0, |t.kids| - i
  {
    if i >= |t.kids| then 0 else Size(t.kids[i]) + KidsSize(t, i + 1)
  }

  function Weight(t: Mount, todo: seq<Path>): nat {
    if todo == [] then 0 else Size(Get(t, todo[0])) + Weight(t, todo[1..])
  }

  lemma {:induction false} WeightConcat(t: Mount, a: seq<Path>, b: seq<Path>)
    ensures Weight(t, a + b) == Weight(t, a) + Weight(t, b)
  {
    hide Size, Get;
    if a == [] {
      assert a + b == b;
    } else {
      assert (a + b)[1..] == a[1..] + b;
      WeightConcat(t, a[1..], b);
    }
  }

  lemma {:induction false} WeightKids(t: Mount, path: Path, i: nat)
    requires IsNode(t, path)
    ensures Weight(t, KidPaths(path, KidCount(t, path), i)) == KidsSize(Get(t, path), i)
    decreases KidCount(t, path) - i
  {
    hide Get, IsNode;
    if i < KidCount(t, path) {
      GetKid(t, path, i);
      WeightKids(t, path, i + 1);
      assert KidPaths(path, KidCount(t, path), i)[1..] == KidPaths(path, KidCount(t, path), i + 1);
    }
  }

  // Going down to the children leaves one mount less.
  lemma {:induction false} WeightDown(t: Mount, path: Path, rest: seq<Path>)
    requires IsNode(t, path)
    ensures Weight(t, KidPaths(path, KidCount(t, path), 0) + rest) == Weight(t, [path] + rest) - 1
  {
    hide Get, IsNode;
    WeightConcat(t, KidPaths(path, KidCount(t, path), 0), rest);
    WeightKids(t, path, 0);
    assert ([path] + rest)[1..] == rest;
  }

  // What a walk has done: the calls, the mounts that were put off, and how many calls succeeded.
  datatype Walk = Walk(log: seq<Call>, postponed: seq<Path>, progress: nat)

  ghost predicate AllNodes(t: Mount, paths: seq<Path>) {
    forall k :: 0 <= k < |paths| ==> IsNode(t, paths[k])
  }

  lemma {:induction false} KidsAreNodes(t: Mount, path: Path, i: nat)
    requires IsNode(t, path)
    ensures AllNodes(t, KidPaths(path, KidCount(t, path), i))
    decreases KidCount(t, path) - i
  {
    hide Get, IsNode;
    if i < KidCount(t, path) {
      GetKid(t, path, i);
      KidsAreNodes(t, path, i + 1);
    }
  }

  // After a call of the callback.
  function Called(w: Walk, path: Path, ret: int): Walk {
    var log := w.log + [Call(path, ret)];
    if ret > 0 then w.(log := log, postponed := w.postponed + [path])
    else if ret < 0 then w.(log := log)
    else w.(log := log, progress := w.progress + 1)
  }

  // Walking several trees, one after the other: a mount is done before its children, and not its children
  // if it is put off. The walk ends at the first error.
  ghost function WalkAll(t: Mount, todo: seq<Path>, fn: Callback, w: Walk): (r: (bool, Walk))
    requires AllNodes(t, todo)
    decreases Weight(t, todo)
  {
    if todo == [] then (true, w)
    else
      var p := todo[0];
      var ret := fn(w.log, p);
      assert todo == [p] + todo[1..];
      WeightDown(t, p, todo[1..]); KidsAreNodes(t, p, 0);
      if ret < 0 then (false, Called(w, p, ret))
      else if ret > 0 then WalkAll(t, todo[1..], fn, Called(w, p, ret))
      else WalkAll(t, KidPaths(p, KidCount(t, p), 0) + todo[1..], fn, Called(w, p, ret))
  }

  // What is still to be walked after a mount: its later siblings, and those of its ancestors below the start.
  ghost function Pending(t: Mount, start: Path, path: Path): seq<Path>
    decreases |path|
  {
    if path == start || path == [] then []
    else KidPaths(Parent(path), KidCount(t, Parent(path)), Last(path) + 1) + Pending(t, start, Parent(path))
  }

  // A mount below another, or the same.
  predicate Below(path: Path, start: Path) {
    start <= path
  }

  lemma {:induction false} PendingNodes(t: Mount, start: Path, path: Path)
    requires IsNode(t, path) && Below(path, start)
    ensures AllNodes(t, Pending(t, start, path))
    decreases |path|
  {
    hide Get, IsNode, KidPaths;
    if path != start && path != [] {
      assert path == Parent(path) + [Last(path)];
      GetKid(t, Parent(path), Last(path));
      KidsAreNodes(t, Parent(path), Last(path) + 1);
      PendingNodes(t, start, Parent(path));
    }
  }

  // From a mount whose subtree is done, up to where the walk goes on.
  method Up(t: Mount, start: Path, at: Path) returns (done: bool, mi: Path)
    requires IsNode(t, at) && Below(at, start)
    ensures IsNode(t, mi) && Below(mi, start)
    ensures Pending(t, start, at) == if done then [] else [mi] + Pending(t, start, mi)
  {
    hide Get, IsNode;
    mi := at;
    while true
      invariant IsNode(t, mi) && Below(mi, start)
      invariant Pending(t, start, at) == Pending(t, start, mi)
      decreases |mi|
    {
      if mi == start {
        return true, mi;
      }
      var parent, last := Parent(mi), Last(mi);
      assert mi == parent + [last];
      GetKid(t, parent, last);
      if last + 1 == KidCount(t, parent) {
        mi := parent;
      } else {
        GetKid(t, parent, last + 1);
        mi := parent + [last + 1];
        assert Parent(mi) == parent && Last(mi) == last + 1;
        return false, mi;
      }
    }
  }

  // One step of the specification.

  lemma {:induction false} WalkError(t: Mount, p: Path, rest: seq<Path>, fn: Callback, w: Walk)
    requires AllNodes(t, [p] + rest) && fn(w.log, p) < 0
    ensures WalkAll(t, [p] + rest, fn, w) == (false, Called(w, p, fn(w.log, p)))
  {
  }

  lemma {:induction false} WalkPutOff(t: Mount, p: Path, rest: seq<Path>, fn: Callback, w: Walk)
    requires AllNodes(t, [p] + rest) && AllNodes(t, rest) && fn(w.log, p) > 0
    ensures WalkAll(t, [p] + rest, fn, w) == WalkAll(t, rest, fn, Called(w, p, fn(w.log, p)))
  {
    assert ([p] + rest)[1..] == rest;
  }

  lemma {:induction false} WalkDown(t: Mount, p: Path, rest: seq<Path>, fn: Callback, w: Walk)
    requires AllNodes(t, [p] + rest) && fn(w.log, p) == 0
    requires AllNodes(t, KidPaths(p, KidCount(t, p), 0) + rest)
    ensures WalkAll(t, [p] + rest, fn, w) ==
      WalkAll(t, KidPaths(p, KidCount(t, p), 0) + rest, fn, Called(w, p, fn(w.log, p)))
  {
    assert ([p] + rest)[1..] == rest;
  }

  lemma {:induction false} NodesOf(t: Mount, start: Path, p: Path)
    requires IsNode(t, p) && Below(p, start)
    ensures AllNodes(t, Pending(t, start, p)) && AllNodes(t, [p] + Pending(t, start, p))
    ensures AllNodes(t, KidPaths(p, KidCount(t, p), 0) + Pending(t, start, p))
  {
    hide IsNode, KidPaths, Pending;
    PendingNodes(t, start, p);
    KidsAreNodes(t, p, 0);
  }

  lemma {:induction false} FirstKid(t: Mount, start: Path, p: Path)
    requires IsNode(t, p) && Below(p, start) && KidCount(t, p) > 0
    ensures IsNode(t, p + [0]) && Below(p + [0], start)
    ensures KidPaths(p, KidCount(t, p), 0) + Pending(t, start, p) == [p + [0]] + Pending(t, start, p + [0])
  {
    hide IsNode, Get;
    GetKid(t, p, 0);
    assert Parent(p + [0]) == p && Last(p + [0]) == 0;
  }

  // Walking the tree below a mount with a cursor that goes down, to the next sibling, or up.
  method TreeWalk(t: Mount, start: Path, fn: Callback, w0: Walk) returns (ret: int, w: Walk)
    requires IsNode(t, start)
    ensures (ret == 0, w) == WalkAll(t, [start], fn, w0) && (ret == 0 || ret == -1)
  {
    hide IsNode, WalkAll, Pending, KidPaths, Weight, AllNodes, Called;
    var mi := start;
    w := w0;
    NodesOf(t, start, start);
    PendingEmpty(t, start);
    while true
      invariant IsNode(t, mi) && Below(mi, start)
      invariant AllNodes(t, [start]) && AllNodes(t, [mi] + Pending(t, start, mi))
      invariant WalkAll(t, [start], fn, w0) == WalkAll(t, [mi] + Pending(t, start, mi), fn, w)
      decreases Weight(t, [mi] + Pending(t, start, mi))
    {
      ghost var rest := Pending(t, start, mi);
      NodesOf(t, start, mi);
      WeightConcat(t, [mi], rest);
      WeightOne(t, mi);
      WeightDown(t, mi, rest);
      ret := fn(w.log, mi);
      if ret < 0 {
        WalkError(t, mi, rest, fn, w);
        w := Called(w, mi, ret);
        return -1, w;
      }
      if ret > 0 {
        WalkPutOff(t, mi, rest, fn, w);
        w := Called(w, mi, ret);
      } else {
        WalkDown(t, mi, rest, fn, w);
        w := Called(w, mi, ret);
        if KidCount(t, mi) > 0 {
          FirstKid(t, start, mi);
          mi := mi + [0];
          continue;
        }
        NoKids(t, mi, rest);
      }
      var done;
      done, mi := Up(t, start, mi);
      if done {
        WalkNothing(t, fn, w);
        return 0, w;
      }
      NodesOf(t, start, mi);
    }
  }

  lemma {:induction false} PendingEmpty(t: Mount, start: Path)
    ensures [start] + Pending(t, start, start) == [start]
  {
  }

  lemma {:induction false} NoKids(t: Mount, p: Path, rest: seq<Path>)
    requires KidCount(t, p) == 0
    ensures KidPaths(p, KidCount(t, p), 0) + rest == rest
  {
  }

  lemma {:induction false} WalkNothing(t: Mount, fn: Callback, w: Walk)
    ensures AllNodes(t, []) && WalkAll(t, [], fn, w) == (true, w)
  {
  }

  lemma {:induction false} WeightOne(t: Mount, p: Path)
    ensures Weight(t, [p]) >= 1
  {
    assert [p][1..] == [];
  }

  lemma {:induction false} WalkConcat(t: Mount, a: seq<Path>, b: seq<Path>, fn: Callback, w: Walk)
    requires AllNodes(t, a) && AllNodes(t, b) && AllNodes(t, a + b)
    ensures WalkAll(t, a + b, fn, w) ==
      var r := WalkAll(t, a, fn, w);
      if r.0 then WalkAll(t, b, fn, r.1) else r
    decreases Weight(t, a)
  {
    hide IsNode, Weight, Called, KidPaths, Get;
    if a == [] {
      assert a + b == b;
    } else {
      var p := a[0];
      var ret := fn(w.log, p);
      var kids := KidPaths(p, KidCount(t, p), 0);
      assert a == [p] + a[1..] && (a + b)[1..] == a[1..] + b && (a + b)[0] == p;
      WeightConcat(t, [p], a[1..]);
      WeightOne(t, p);
      WeightDown(t, p, a[1..]);
      KidsAreNodes(t, p, 0);
      if ret > 0 {
        WalkConcat(t, a[1..], b, fn, Called(w, p, ret));
      } else if ret == 0 {
        assert kids + (a[1..] + b) == kids + a[1..] + b;
        WalkConcat(t, kids + a[1..], b, fn, Called(w, p, ret));
      }
    }
  }

  // The mounts of a tree, each before those below it.

  function Nodes(t: Mount, at: Path): seq<Path>
    decreases t, 1
  {
    [at] + KidNodes(t, at, 0)
  }

  function KidNodes(t: Mount, at: Path, i: nat): seq<Path>
    decreases t, 0, |t.kids| - i
  {
    if i >= |t.kids| then [] else Nodes(t.kids[i], at + [i]) + KidNodes(t, at, i + 1)
  }

  // The mounts of several trees.
  function NodesAll(t: Mount, todo: seq<Path>): seq<Path> {
    if todo == [] then [] else Nodes(Get(t, todo[0]), todo[0]) + NodesAll(t, todo[1..])
  }

  lemma {:induction false} NodesAllConcat(t: Mount, a: seq<Path>, b: seq<Path>)
    ensures NodesAll(t, a + b) == NodesAll(t, a) + NodesAll(t, b)
  {
    hide Nodes, Get;
    if a == [] {
      assert a + b == b;
    } else {
      assert (a + b)[1..] == a[1..] + b;
      NodesAllConcat(t, a[1..], b);
    }
  }

  lemma {:induction false} NodesOfKids(t: Mount, p: Path, i: nat)
    requires IsNode(t, p)
    ensures NodesAll(t, KidPaths(p, KidCount(t, p), i)) == KidNodes(Get(t, p), p, i)
    decreases KidCount(t, p) - i
  {
    hide IsNode, Get;
    if i < KidCount(t, p) {
      GetKid(t, p, i);
      NodesOfKids(t, p, i + 1);
      assert KidPaths(p, KidCount(t, p), i)[1..] == KidPaths(p, KidCount(t, p), i + 1);
    }
  }

  // A mount and then its children: the same mounts.
  lemma {:induction false} NodesDown(t: Mount, p: Path, rest: seq<Path>)
    requires IsNode(t, p)
    ensures NodesAll(t, [p] + rest) == [p] + NodesAll(t, KidPaths(p, KidCount(t, p), 0) + rest)
  {
    hide IsNode, Get;
    NodesAllConcat(t, KidPaths(p, KidCount(t, p), 0), rest);
    NodesOfKids(t, p, 0);
    assert ([p] + rest)[1..] == rest;
  }

  // The mounts for which the callback has succeeded, in order.
  function Succeeded(log: seq<Call>): seq<Path> {
    if log == [] then []
    else
      var last := log[|log| - 1];
      Succeeded(log[..|log| - 1]) + if last.ret == 0 then [last.path] else []
  }

  lemma {:induction false} SucceededMore(log: seq<Call>, c: Call)
    ensures Succeeded(log + [c]) == Succeeded(log) + if c.ret == 0 then [c.path] else []
  {
    assert (log + [c])[..|log|] == log;
  }

  // Whether the callback has succeeded for the mount above.
  ghost predicate ParentDone(log: seq<Call>, path: Path) {
    path != [] ==> Call(Parent(path), 0) in log
  }

  ghost predicate ParentsDone(log: seq<Call>, paths: seq<Path>) {
    forall k :: 0 <= k < |paths| ==> ParentDone(log, paths[k])
  }

  // Every call for a mount comes after the callback has succeeded for the mount above.
  ghost predicate ParentsFirst(log: seq<Call>) {
    forall k :: 0 <= k < |log| ==> ParentDone(log[..k], log[k].path)
  }

  lemma ParentsFirstMore(log: seq<Call>, c: Call)
    requires ParentsFirst(log) && ParentDone(log, c.path)
    ensures ParentsFirst(log + [c])
  {
    hide ParentDone;
    forall k | 0 <= k < |log + [c]| ensures ParentDone((log + [c])[..k], (log + [c])[k].path) {
      assert (log + [c])[..k] == if k < |log| then log[..k] else log;
    }
  }

  lemma ParentsDoneMore(log: seq<Call>, c: Call, paths: seq<Path>)
    requires ParentsDone(log, paths)
    ensures ParentsDone(log + [c], paths)
  {
    forall k | 0 <= k < |paths| ensures ParentDone(log + [c], paths[k]) {
      assert ParentDone(log, paths[k]);
    }
  }

  lemma {:induction false} KidsParentDone(log: seq<Call>, p: Path, n: nat, i: nat)
    requires Call(p, 0) in log
    ensures ParentsDone(log, KidPaths(p, n, i))
    decreases n - i
  {
    if i < n {
      KidsParentDone(log, p, n, i + 1);
      assert Parent(p + [i]) == p;
    }
  }

  // What holds of the calls and of the mounts that are left.
  ghost predicate Orderly(w: Walk, todo: seq<Path>) {
    ParentsFirst(w.log) && ParentsDone(w.log, todo) && ParentsDone(w.log, w.postponed)
  }

  // The mounts done, to be done and put off.
  ghost function All(t: Mount, w: Walk, todo: seq<Path>): multiset<Path> {
    multiset(Succeeded(w.log)) + multiset(NodesAll(t, todo)) + multiset(NodesAll(t, w.postponed))
  }

  lemma {:induction false} CalledOrderly(t: Mount, w: Walk, p: Path, rest: seq<Path>, ret: int)
    requires Orderly(w, [p] + rest) && IsNode(t, p)
    ensures Orderly(Called(w, p, ret), if ret == 0 then KidPaths(p, KidCount(t, p), 0) + rest else rest)
  {
    hide ParentDone, ParentsFirst, IsNode, Get, KidPaths;
    var c := Call(p, ret);
    assert ParentDone(w.log, ([p] + rest)[0]);
    forall k | 0 <= k < |rest| ensures ParentDone(w.log, rest[k]) {
      assert ([p] + rest)[k + 1] == rest[k];
    }
    ParentsFirstMore(w.log, c);
    ParentsDoneMore(w.log, c, rest);
    ParentsDoneMore(w.log, c, w.postponed);
    ParentsDoneMore(w.log, c, [p] + rest);
    assert ParentDone(w.log + [c], ([p] + rest)[0]);
    if ret == 0 {
      assert (w.log + [c])[|w.log|] == c;
      KidsParentDone(w.log + [c], p, KidCount(t, p), 0);
    }
  }

  // No mount is lost and none is done twice.
  lemma {:induction false} CalledKeepsAll(t: Mount, w: Walk, p: Path, rest: seq<Path>, ret: int)
    requires IsNode(t, p) && ret >= 0
    ensures All(t, Called(w, p, ret), if ret == 0 then KidPaths(p, KidCount(t, p), 0) + rest else rest) ==
      All(t, w, [p] + rest)
  {
    hide IsNode, Get, KidPaths, NodesAll, Succeeded;
    SucceededMore(w.log, Call(p, ret));
    if ret == 0 {
      NodesDown(t, p, rest);
    } else {
      NodesAllConcat(t, [p], rest);
      NodesAllConcat(t, w.postponed, [p]);
    }
  }

  ghost predicate NoErrors(log: seq<Call>) {
    forall k :: 0 <= k < |log| ==> log[k].ret >= 0
  }

  // The last call failed.
  ghost predicate EndsInError(log: seq<Call>) {
    log != [] && log[|log| - 1].ret < 0
  }

  // What a walk leaves behind, in the order of the calls and in the mounts put off.
  lemma {:induction false} WalkOrderly(t: Mount, todo: seq<Path>, fn: Callback, w: Walk)
    requires AllNodes(t, todo) && Orderly(w, todo) && NoErrors(w.log)
    ensures var r := WalkAll(t, todo, fn, w);
      Orderly(r.1, []) && if r.0 then NoErrors(r.1.log) else EndsInError(r.1.log)
    decreases Weight(t, todo)
  {
    hide IsNode, Weight, KidPaths, Get, ParentDone, ParentsFirst;
    if todo != [] {
      var p, rest := todo[0], todo[1..];
      var ret := fn(w.log, p);
      assert todo == [p] + rest;
      WeightConcat(t, [p], rest);
      WeightOne(t, p);
      WeightDown(t, p, rest);
      KidsAreNodes(t, p, 0);
      CalledOrderly(t, w, p, rest, ret);
      if ret > 0 {
        WalkOrderly(t, rest, fn, Called(w, p, ret));
      } else if ret == 0 {
        WalkOrderly(t, KidPaths(p, KidCount(t, p), 0) + rest, fn, Called(w, p, ret));
      }
    }
  }

  // A walk without an error does some mounts and puts the others off: none is lost, none is done twice.
  lemma {:induction false} WalkKeepsAll(t: Mount, todo: seq<Path>, fn: Callback, w: Walk)
    requires AllNodes(t, todo) && AllNodes(t, w.postponed) && WalkAll(t, todo, fn, w).0
    ensures var w' := WalkAll(t, todo, fn, w).1;
      && All(t, w', []) == All(t, w, todo)
      && AllNodes(t, w'.postponed)
      && w'.progress >= w.progress
      && Weight(t, w'.postponed) + w'.progress == Weight(t, todo) + Weight(t, w.postponed) + w.progress
    decreases Weight(t, todo)
  {
    hide IsNode, Weight, KidPaths, Get, All;
    if todo == [] {
      WeightConcat(t, todo, w.postponed);
      assert todo + w.postponed == w.postponed;
    } else {
      var p, rest := todo[0], todo[1..];
      var ret := fn(w.log, p);
      assert todo == [p] + rest;
      WeightConcat(t, [p], rest);
      WeightOne(t, p);
      WeightDown(t, p, rest);
      KidsAreNodes(t, p, 0);
      CalledKeepsAll(t, w, p, rest, ret);
      if ret > 0 {
        WeightConcat(t, w.postponed, [p]);
        WalkKeepsAll(t, rest, fn, Called(w, p, ret));
      } else {
        WalkKeepsAll(t, KidPaths(p, KidCount(t, p), 0) + rest, fn, Called(w, p, ret));
      }
    }
  }

  // The calls of a round in which every mount was put off.
  ghost predicate PutOff(calls: seq<Call>, todo: seq<Path>) {
    |calls| == |todo| && forall k :: 0 <= k < |todo| ==> calls[k].path == todo[k] && calls[k].ret > 0
  }

  // Without progress all that was to be done was put off.
  lemma {:induction false} WalkStuck(t: Mount, todo: seq<Path>, fn: Callback, w: Walk)
    requires AllNodes(t, todo) && AllNodes(t, w.postponed)
    requires WalkAll(t, todo, fn, w).0 && WalkAll(t, todo, fn, w).1.progress == w.progress
    ensures var w' := WalkAll(t, todo, fn, w).1;
      && w'.postponed == w.postponed + todo
      && w.log <= w'.log && PutOff(w'.log[|w.log|..], todo)
    decreases |todo|
  {
    hide IsNode, Weight, KidPaths, Get, All;
    if todo != [] {
      var p, rest := todo[0], todo[1..];
      var ret := fn(w.log, p);
      assert todo == [p] + rest;
      if ret > 0 {
        WalkStuck(t, rest, fn, Called(w, p, ret));
      } else {
        KidsAreNodes(t, p, 0);
        WalkKeepsAll(t, KidPaths(p, KidCount(t, p), 0) + rest, fn, Called(w, p, ret));
      }
    }
  }

  // A round over the mounts that are to be done.
  method Round(t: Mount, postpone: seq<Path>, fn: Callback, log: seq<Call>) returns (ret: int, w: Walk)
    requires AllNodes(t, postpone)
    ensures (ret == 0, w) == WalkAll(t, postpone, fn, Walk(log, [], 0)) && (ret == 0 || ret == -1)
  {
    hide IsNode, WalkAll;
    ghost var w0 := Walk(log, [], 0);
    w := Walk(log, [], 0);
    WalkNothing(t, fn, w);
    for k := 0 to |postpone|
      invariant (true, w) == WalkAll(t, postpone[..k], fn, w0)
    {
      assert postpone[..k + 1] == postpone[..k] + [postpone[k]];
      WalkConcat(t, postpone[..k], [postpone[k]], fn, w0);
      ret, w := TreeWalk(t, postpone[k], fn, w);
      if ret != 0 {
        assert postpone == postpone[..k + 1] + postpone[k + 1..];
        WalkConcat(t, postpone[..k + 1], postpone[k + 1..], fn, w0);
        return;
      }
    }
    assert postpone[..|postpone|] == postpone;
    ret := 0;
  }

  // The mounts that a round without progress left: all that are not done are below them.
  ghost predicate Stuck(t: Mount, log: seq<Call>, left: seq<Path>) {
    && left != [] && |left| <= |log| && PutOff(log[|log| - |left|..], left)
    && multiset(Succeeded(log)) + multiset(NodesAll(t, left)) == multiset(Nodes(t, []))
  }

  // Rounds over the mounts that were put off, until none is left or a round makes no progress.
  method ForEach(t: Mount, fn: Callback) returns (ret: int, log: seq<Call>, ghost left: seq<Path>)
    ensures ParentsFirst(log)
    ensures ret == 0 || ret == -1
    ensures ret == 0 ==> NoErrors(log) && multiset(Succeeded(log)) == multiset(Nodes(t, []))
    ensures ret == -1 ==> EndsInError(log) || (NoErrors(log) && Stuck(t, log, left))
  {
    hide IsNode, WalkAll, Weight, ParentsFirst, ParentDone, NodesAll, Nodes, Succeeded, NoErrors, EndsInError;
    var postpone: seq<Path> := [[]];
    log, left := [], postpone;
    FirstRound(t);
    while true
      invariant AllNodes(t, postpone) && postpone != [] && NoErrors(log)
      invariant Orderly(Walk(log, [], 0), postpone)
      invariant All(t, Walk(log, [], 0), postpone) == multiset(Nodes(t, []))
      decreases Weight(t, postpone)
    {
      ghost var w0 := Walk(log, [], 0);
      WalkOrderly(t, postpone, fn, w0);
      var w;
      ret, w := Round(t, postpone, fn, log);
      log := w.log;
      if ret != 0 {
        return;
      }
      WalkKeepsAll(t, postpone, fn, w0);
      NothingThere(t);
      if w.progress == 0 {
        WalkStuck(t, postpone, fn, w0);
        left := postpone;
        assert [] + left == left && |log| - |left| == |w0.log|;
        return -1, log, left;
      }
      postpone := w.postponed;
      if postpone == [] {
        return 0, log, left;
      }
    }
  }

  lemma {:induction false} FirstRound(t: Mount)
    ensures AllNodes(t, [[]]) && Orderly(Walk([], [], 0), [[]]) && NoErrors([])
    ensures All(t, Walk([], [], 0), [[]]) == multiset(Nodes(t, []))
  {
    hide Nodes;
    var one: seq<Path> := [[]];
    assert one[1..] == [];
    assert NodesAll(t, one) == Nodes(t, []) + [];
  }

  lemma {:induction false} NothingThere(t: Mount)
    ensures NodesAll(t, []) == [] && Weight(t, []) == 0
  {
  }

  // Where a mount of a tree is found among its mounts.

  lemma {:induction false} NodesBelow(t: Mount, at: Path, p: Path)
    ensures p in Nodes(t, at) <==> at <= p && IsNode(t, p[|at|..])
    decreases t, 1
  {
    KidNodesBelow(t, at, 0, p);
    if at <= p && p != at {
      assert p[|at|..] != [];
    }
  }

  lemma {:induction false} KidNodesBelow(t: Mount, at: Path, i: nat, p: Path)
    ensures p in KidNodes(t, at, i) <==>
      at <= p && at != p && i <= p[|at|] < |t.kids| && IsNode(t.kids[p[|at|]], p[|at| + 1..])
    decreases t, 0, |t.kids| - i
  {
    if i < |t.kids| {
      NodesBelow(t.kids[i], at + [i], p);
      KidNodesBelow(t, at, i + 1, p);
    }
  }

  // Each of them is there once.

  lemma {:induction false} NodesOnce(t: Mount, at: Path, p: Path)
    ensures multiset(Nodes(t, at))[p] <= 1
    decreases t, 1
  {
    KidNodesOnce(t, at, 0, p);
    KidNodesBelow(t, at, 0, p);
    assert multiset(Nodes(t, at)) == multiset{at} + multiset(KidNodes(t, at, 0));
  }

  lemma {:induction false} KidNodesOnce(t: Mount, at: Path, i: nat, p: Path)
    ensures multiset(KidNodes(t, at, i))[p] <= 1
    decreases t, 0, |t.kids| - i
  {
    if i < |t.kids| {
      NodesOnce(t.kids[i], at + [i], p);
      KidNodesOnce(t, at, i + 1, p);
      NodesBelow(t.kids[i], at + [i], p);
      KidNodesBelow(t, at, i + 1, p);
      assert multiset(KidNodes(t, at, i)) == multiset(Nodes(t.kids[i], at + [i])) + multiset(KidNodes(t, at, i + 1));
    }
  }

  // If the walk succeeds the callback has succeeded for every mount of the tree, once.
  lemma {:induction false} EveryMountOnce(t: Mount, log: seq<Call>, p: Path)
    requires multiset(Succeeded(log)) == multiset(Nodes(t, []))
    ensures multiset(Succeeded(log))[p] == if IsNode(t, p) then 1 else 0
  {
    NodesBelow(t, [], p);
    NodesOnce(t, [], p);
    assert p[0..] == p;
    assert p in Nodes(t, []) <==> p in multiset(Nodes(t, []));
  }

  // The mounts of a tree, each after those below it, the last children first.

  function RevNodes(t: Mount, at: Path): seq<Path>
    decreases t, 1
  {
    RevKids(t, at, |t.kids|) + [at]
  }

  function RevKids(t: Mount, at: Path, n: nat): seq<Path>
    requires n <= |t.kids|
    decreases t, 0, n
  {
    if n == 0 then [] else RevNodes(t.kids[n - 1], at + [n - 1]) + RevKids(t, at, n - 1)
  }

  function Reversed(s: seq<Path>): seq<Path> {
    if s == [] then [] else Reversed(s[1..]) + [s[0]]
  }

  lemma {:induction false} ReversedConcat(a: seq<Path>, b: seq<Path>)
    ensures Reversed(a + b) == Reversed(b) + Reversed(a)
  {
    if a == [] {
      assert a + b == b;
    } else {
      assert (a + b)[1..] == a[1..] + b;
      ReversedConcat(a[1..], b);
    }
  }

  // It is the order of the walk from the top, backwards.
  lemma {:induction false} RevIsReversed(t: Mount, at: Path)
    ensures RevNodes(t, at) == Reversed(Nodes(t, at))
    decreases t, 1
  {
    RevKidsReversed(t, at, |t.kids|);
    assert ([at] + KidNodes(t, at, 0))[1..] == KidNodes(t, at, 0);
    assert RevKids(t, at, |t.kids|) + Reversed(KidNodes(t, at, |t.kids|)) == Reversed(KidNodes(t, at, 0));
    assert RevKids(t, at, |t.kids|) + [] == RevKids(t, at, |t.kids|);
  }

  lemma {:induction false} RevKidsReversed(t: Mount, at: Path, n: nat)
    requires n <= |t.kids|
    ensures Reversed(KidNodes(t, at, n)) + RevKids(t, at, n) == Reversed(KidNodes(t, at, 0))
    decreases t, 0, n
  {
    if n > 0 {
      RevIsReversed(t.kids[n - 1], at + [n - 1]);
      RevKidsReversed(t, at, n - 1);
      ReversedConcat(Nodes(t.kids[n - 1], at + [n - 1]), KidNodes(t, at, n));
    }
  }

  // Calling the callback for one mount after the other, up to the first that does not return zero.
  ghost function CallAll(order: seq<Path>, fn: Callback, log: seq<Call>): (bool, seq<Call>) {
    if order == [] then (true, log)
    else
      var ret := fn(log, order[0]);
      if ret != 0 then (false, log + [Call(order[0], ret)]) else CallAll(order[1..], fn, log + [Call(order[0], ret)])
  }

  // What comes after a mount in this order.
  ghost function RevAfter(t: Mount, p: Path): seq<Path>
    requires IsNode(t, p)
    decreases |p|
  {
    if p == [] then []
    else
      assert p == Parent(p) + [Last(p)];
      GetKid(t, Parent(p), Last(p));
      RevKids(Get(t, Parent(p)), Parent(p), Last(p)) + [Parent(p)] + RevAfter(t, Parent(p))
  }

  lemma RevDown(t: Mount, p: Path)
    requires IsNode(t, p) && KidCount(t, p) > 0
    ensures var kid := p + [KidCount(t, p) - 1];
      && IsNode(t, kid) && Size(Get(t, kid)) < Size(Get(t, p))
      && RevNodes(Get(t, p), p) + RevAfter(t, p) == RevNodes(Get(t, kid), kid) + RevAfter(t, kid)
  {
    hide IsNode, Get;
    var n := KidCount(t, p);
    GetKid(t, p, n - 1);
    assert Parent(p + [n - 1]) == p && Last(p + [n - 1]) == n - 1;
    LastKidSmaller(Get(t, p), 0, n - 1);
  }

  lemma {:induction false} LastKidSmaller(m: Mount, i: nat, k: nat)
    requires i <= k < |m.kids|
    ensures Size(m.kids[k]) <= KidsSize(m, i)
    decreases k - i
  {
    if i < k {
      LastKidSmaller(m, i + 1, k);
    }
  }

  // To the previous sibling, or up.
  lemma RevNext(t: Mount, p: Path)
    requires IsNode(t, p) && p != []
    ensures IsNode(t, Parent(p))
    ensures Last(p) == 0 ==> RevAfter(t, p) == [Parent(p)] + RevAfter(t, Parent(p))
    ensures Last(p) > 0 ==>
      var q := Parent(p) + [Last(p) - 1];
      IsNode(t, q) && RevAfter(t, p) == RevNodes(Get(t, q), q) + RevAfter(t, q)
  {
    hide IsNode, Get;
    var parent, last := Parent(p), Last(p);
    assert p == parent + [last];
    GetKid(t, parent, last);
    if last > 0 {
      GetKid(t, parent, last - 1);
      assert Parent(parent + [last - 1]) == parent && Last(parent + [last - 1]) == last - 1;
    }
  }

  // Where a mount is found in this order.

  lemma {:induction false} RevNodesBelow(t: Mount, at: Path, p: Path)
    ensures p in RevNodes(t, at) <==> at <= p && IsNode(t, p[|at|..])
    decreases t, 1
  {
    RevKidsBelow(t, at, |t.kids|, p);
    if at <= p && p != at {
      assert p[|at|..] != [];
    }
  }

  lemma {:induction false} RevKidsBelow(t: Mount, at: Path, n: nat, p: Path)
    requires n <= |t.kids|
    ensures p in RevKids(t, at, n) <==>
      at <= p && at != p && p[|at|] < n && IsNode(t.kids[p[|at|]], p[|at| + 1..])
    decreases t, 0, n
  {
    if n > 0 {
      RevNodesBelow(t.kids[n - 1], at + [n - 1], p);
      RevKidsBelow(t, at, n - 1, p);
    }
  }

  // All mounts below a mount come before it.

  lemma {:induction false} RevOrdered(t: Mount, at: Path, k: nat, q: Path)
    requires k < |RevNodes(t, at)| && q in RevNodes(t, at) && RevNodes(t, at)[k] < q
    ensures q in RevNodes(t, at)[..k]
    decreases t, 1
  {
    hide RevKids, IsNode;
    var kids := RevKids(t, at, |t.kids|);
    if k < |kids| {
      RevNodesBelow(t, at, kids[k]);
      assert kids[k] in kids;
      RevKidsAt(t, at, kids[k]);
      RevKidsOrdered(t, at, |t.kids|, k, q);
      assert RevNodes(t, at)[..k] == kids[..k];
    } else {
      assert RevNodes(t, at)[..k] == kids;
    }
  }

  lemma {:induction false} RevKidsAt(t: Mount, at: Path, p: Path)
    requires p in RevKids(t, at, |t.kids|)
    ensures at <= p && at != p
  {
    RevKidsBelow(t, at, |t.kids|, p);
  }

  lemma {:induction false} RevKidsOrdered(t: Mount, at: Path, n: nat, k: nat, q: Path)
    requires n <= |t.kids| && k < |RevKids(t, at, n)| && q in RevNodes(t, at) && RevKids(t, at, n)[k] < q
    ensures q in RevKids(t, at, n)[..k]
    decreases t, 0, n
  {
    var p := RevKids(t, at, n)[k];
    RevNodesBelow(t, at, q);
    RevKidsBelow(t, at, n, p);
    var kid, first := t.kids[n - 1], RevNodes(t.kids[n - 1], at + [n - 1]);
    assert q[|at|] == p[|at|];
    if k < |first| {
      assert p in first;
      RevNodesBelow(kid, at + [n - 1], p);
      RevNodesBelow(kid, at + [n - 1], q);
      assert q[|at|..][1..] == q[|at| + 1..];
      RevOrdered(kid, at + [n - 1], k, q);
      assert RevKids(t, at, n)[..k] == first[..k];
    } else {
      RevKidsOrdered(t, at, n - 1, k - |first|, q);
      assert RevKids(t, at, n)[..k] == first + RevKids(t, at, n - 1)[..k - |first|];
    }
  }

  // The calls are for a first part of an order, and all but the last succeeded.
  ghost predicate CalledFor(order: seq<Path>, log: seq<Call>) {
    |log| <= |order| &&
    forall k :: 0 <= k < |log| ==> log[k].path == order[k] && (k + 1 < |log| ==> log[k].ret == 0)
  }

  // All calls of an order succeeded.
  ghost predicate AllCalled(order: seq<Path>, log: seq<Call>) {
    |log| == |order| && forall k :: 0 <= k < |log| ==> log[k] == Call(order[k], 0)
  }

  lemma {:induction false} CallAllCalls(order: seq<Path>, n: nat, fn: Callback, log: seq<Call>)
    requires n <= |order| && AllCalled(order[..n], log)
    ensures var r := CallAll(order[n..], fn, log);
      CalledFor(order, r.1) && if r.0 then AllCalled(order, r.1) else EndsInFailure(r.1)
    decreases |order| - n
  {
    if n < |order| {
      var ret := fn(log, order[n]);
      var now := log + [Call(order[n], ret)];
      assert order[n..][0] == order[n] && order[n..][1..] == order[n + 1..];
      if ret == 0 {
        assert AllCalled(order[..n + 1], now);
        CallAllCalls(order, n + 1, fn, now);
      }
    } else {
      assert order[..n] == order;
    }
  }

  ghost predicate EndsInFailure(log: seq<Call>) {
    log != [] && log[|log| - 1].ret != 0
  }

  // Every mount is called after the callback has succeeded for all mounts below it.
  ghost predicate ChildrenFirst(t: Mount, log: seq<Call>) {
    forall k, q :: 0 <= k < |log| && IsNode(t, q) && log[k].path < q ==> Call(q, 0) in log[..k]
  }

  lemma {:induction false} CallsChildrenFirst(t: Mount, log: seq<Call>)
    requires CalledFor(RevNodes(t, []), log)
    ensures ChildrenFirst(t, log)
  {
    hide RevNodes, IsNode;
    var order := RevNodes(t, []);
    forall k, q | 0 <= k < |log| && IsNode(t, q) && log[k].path < q ensures Call(q, 0) in log[..k] {
      RevNodesBelow(t, [], q);
      assert q[0..] == q;
      RevOrdered(t, [], k, q);
      var j :| 0 <= j < k && order[j] == q;
      assert log[..k][j] == Call(q, 0);
    }
  }

  lemma {:induction false} AllSucceeded(order: seq<Path>, log: seq<Call>)
    requires AllCalled(order, log)
    ensures Succeeded(log) == order
  {
    if log != [] {
      var n := |log| - 1;
      AllSucceeded(order[..n], log[..n]);
      assert order == order[..n] + [order[n]];
    }
  }

  lemma {:induction false} ReversedCounts(s: seq<Path>, p: Path)
    ensures multiset(Reversed(s))[p] == multiset(s)[p]
  {
    if s != [] {
      ReversedCounts(s[1..], p);
      assert s == [s[0]] + s[1..];
      assert multiset(Reversed(s)) == multiset(Reversed(s[1..])) + multiset{s[0]};
    }
  }

  // What the calls of the walk from the bottom come to.
  lemma {:induction false} ReverseCalls(t: Mount, fn: Callback)
    ensures var r := CallAll(Reversed(Nodes(t, [])), fn, []);
      && ChildrenFirst(t, r.1)
      && if r.0 then EachOnce(t, r.1) else EndsInFailure(r.1)
  {
    hide RevNodes, Nodes, Reversed, IsNode, Succeeded, ChildrenFirst;
    var order := RevNodes(t, []);
    RevIsReversed(t, []);
    assert order[0..] == order;
    CallAllCalls(order, 0, fn, []);
    var r := CallAll(order, fn, []);
    CallsChildrenFirst(t, r.1);
    if r.0 {
      AllSucceeded(order, r.1);
      forall p ensures multiset(Succeeded(r.1))[p] == if IsNode(t, p) then 1 else 0 {
        ReversedCounts(Nodes(t, []), p);
        NodesBelow(t, [], p);
        NodesOnce(t, [], p);
        assert p[0..] == p;
        assert p in Nodes(t, []) <==> p in multiset(Nodes(t, []));
      }
    }
  }

  // The callback succeeded once for each mount of the tree, and for nothing else.
  ghost predicate EachOnce(t: Mount, log: seq<Call>) {
    forall p :: multiset(Succeeded(log))[p] == if IsNode(t, p) then 1 else 0
  }

  // The walk from the bottom: every mount after all mounts below it, in exactly the reverse of the order from the top.
  method ForEachReverse(t: Mount, fn: Callback) returns (ret: int, log: seq<Call>)
    ensures (ret == 0, log) == CallAll(Reversed(Nodes(t, [])), fn, []) && (ret == 0 || ret == -1)
    ensures ChildrenFirst(t, log)
    ensures if ret == 0 then EachOnce(t, log) else EndsInFailure(log)
  {
    hide IsNode, Get, RevNodes, RevAfter, Nodes, Reversed, Size, ChildrenFirst, EachOnce, EndsInFailure;
    ReverseCalls(t, fn);
    RevIsReversed(t, []);
    RevStart(t);
    var mi: Path, down := [], true;
    log := [];
    while true
      invariant IsNode(t, mi)
      invariant CallAll(Reversed(Nodes(t, [])), fn, []) ==
        CallAll((if down then RevNodes(Get(t, mi), mi) else [mi]) + RevAfter(t, mi), fn, log)
      decreases |(if down then RevNodes(Get(t, mi), mi) else [mi]) + RevAfter(t, mi)|,
                if down then Size(Get(t, mi)) else 0
    {
      if down {
        if KidCount(t, mi) > 0 {
          RevDown(t, mi);
          mi := mi + [KidCount(t, mi) - 1];
          continue;
        }
        RevLeaf(t, mi);
      }
      assert ([mi] + RevAfter(t, mi))[1..] == RevAfter(t, mi);
      ret := fn(log, mi);
      log := log + [Call(mi, ret)];
      if ret != 0 {
        return -1, log;
      }
      if mi == [] {
        RevStart(t);
        return 0, log;
      }
      RevNext(t, mi);
      if Last(mi) == 0 {
        mi, down := Parent(mi), false;
      } else {
        mi, down := Parent(mi) + [Last(mi) - 1], true;
      }
    }
  }

  lemma {:induction false} RevStart(t: Mount)
    ensures IsNode(t, []) && Get(t, []) == t && RevAfter(t, []) == []
    ensures RevNodes(t, []) + [] == RevNodes(t, [])
  {
  }

  lemma {:induction false} RevLeaf(t: Mount, p: Path)
    requires KidCount(t, p) == 0
    ensures RevNodes(Get(t, p), p) == [p]
  {
  }
}
