/** Collecting the files of all tasks before the restore: the list of each file's descriptors,
    and who creates a pipe (collect_fd in files.c, collect_one_pipe and mark_pipe_master in pipes.c). */
module FdCollect {
  import opened FdProtocol
  import opened Options
  import opened Sequences

  // A file as the images describe it; large says that O_LARGEFILE is set.
  datatype Image =
    | RegularImage
    | PipeImage(id: nat, wronly: bool, large: bool)

  predicate First(tasks: seq<seq<Slot>>, f: Fle, g: Fle) {
    Prio(Plan(tasks, [], []), f, g)
  }

  predicate FleOf(tasks: seq<seq<Slot>>, f: Fle) {
    IsFle(Plan(tasks, [], []), f)
  }

  // A list with the descriptor put before the first one of a higher pid.
  function Inserted(list: seq<Fle>, f: Fle): seq<Fle> {
    if list == [] then [f] else if f.pid < list[0].pid then [f] + list else [list[0]] + Inserted(list[1..], f)
  }

  lemma {:induction false} InsertedAt(list: seq<Fle>, f: Fle, k: nat)
    requires k <= |list| && forall j :: 0 <= j < k ==> list[j].pid <= f.pid
    requires k < |list| ==> f.pid < list[k].pid
    ensures Inserted(list, f) == list[..k] + [f] + list[k..]
  {
    if k > 0 {
      assert list[0].pid <= f.pid;
      InsertedAt(list[1..], f, k - 1);
      assert list == [list[0]] + list[1..];
      assert list[..k] == [list[0]] + list[1..][..k - 1];
      assert list[k..] == list[1..][k - 1..];
    }
  }

  lemma {:induction false} InsertedMembers(list: seq<Fle>, f: Fle, g: Fle)
    ensures g in Inserted(list, f) <==> g == f || g in list
  {
    if list != [] && list[0].pid <= f.pid {
      InsertedMembers(list[1..], f, g);
      assert list == [list[0]] + list[1..];
    }
  }

  ghost predicate Sorted(tasks: seq<seq<Slot>>, list: seq<Fle>) {
    forall j, k :: 0 <= j < k < |list| ==> First(tasks, list[j], list[k])
  }

  // The list stays in the order of precedence if a task's descriptors come in ascending order.
  lemma {:induction false} InsertedSorted(tasks: seq<seq<Slot>>, list: seq<Fle>, f: Fle)
    requires Sorted(tasks, list)
    requires forall g :: g in list && g.pid == f.pid ==> First(tasks, g, f)
    ensures Sorted(tasks, Inserted(list, f))
  {
    hide First;
    if list != [] {
      if f.pid < list[0].pid {
        assert First(tasks, f, list[0]) by { FirstByPid(tasks, f, list[0]); }
        forall k | 0 <= k < |list| ensures First(tasks, f, list[k]) {
          if k > 0 {
            assert First(tasks, list[0], list[k]);
            FirstTransitive(tasks, f, list[0], list[k]);
          }
        }
      } else {
        var rest := Inserted(list[1..], f);
        InsertedSorted(tasks, list[1..], f);
        forall k | 0 <= k < |rest| ensures First(tasks, list[0], rest[k]) {
          InsertedMembers(list[1..], f, rest[k]);
          if rest[k] == f && list[0].pid < f.pid {
            FirstByPid(tasks, list[0], f);
          }
        }
      }
    }
  }

  lemma FirstByPid(tasks: seq<seq<Slot>>, f: Fle, g: Fle)
    requires f.pid < g.pid
    ensures First(tasks, f, g)
  {
  }

  lemma FirstTransitive(tasks: seq<seq<Slot>>, f: Fle, g: Fle, h: Fle)
    requires First(tasks, f, g) && First(tasks, g, h)
    ensures First(tasks, f, h)
  {
  }

  // The rings of pipe ends: the ends of each pipe, the one collected first at the front.

  predicate IsPipe(images: seq<Image>, d: nat) {
    d < |images| && images[d].PipeImage?
  }

  function IdOf(images: seq<Image>, d: nat): nat {
    if IsPipe(images, d) then images[d].id else 0
  }

  ghost predicate RingOk(images: seq<Image>, ring: seq<nat>) {
    && ring != []
    && (forall k :: 0 <= k < |ring| ==> IsPipe(images, ring[k]) && IdOf(images, ring[k]) == IdOf(images, ring[0]))
    && (forall j, k :: 0 <= j < k < |ring| ==> ring[j] != ring[k])
  }

  function RingId(images: seq<Image>, ring: seq<nat>): nat {
    if ring == [] then 0 else IdOf(images, ring[0])
  }

  // The rings of the ends below n: one for each pipe.
  ghost predicate RingsOk(images: seq<Image>, rings: seq<seq<nat>>, n: nat) {
    && n <= |images|
    && (forall r :: 0 <= r < |rings| ==> RingOk(images, rings[r]))
    && (forall q, r :: 0 <= q < r < |rings| ==> RingId(images, rings[q]) != RingId(images, rings[r]))
    && (forall r, d :: 0 <= r < |rings| && d in rings[r] ==> d < n)
    && (forall d :: 0 <= d < n && IsPipe(images, d) ==> exists r :: 0 <= r < |rings| && d in rings[r])
  }

  // The ring that an end is in.
  function RingOf(rings: seq<seq<nat>>, d: nat): (r: nat)
    ensures (exists q :: 0 <= q < |rings| && d in rings[q]) ==> r < |rings| && d in rings[r]
  {
    if rings == [] || d in rings[0] then 0 else 1 + RingOf(rings[1..], d)
  }

  function Grown(ring: seq<nat>, d: nat): seq<nat> {
    if ring == [] then [d] else [ring[0], d] + ring[1..]
  }

  lemma RingGrown(images: seq<Image>, ring: seq<nat>, d: nat)
    requires ring != [] ==> RingOk(images, ring) && RingId(images, ring) == IdOf(images, d)
    requires IsPipe(images, d) && d !in ring
    ensures RingOk(images, Grown(ring, d)) && RingId(images, Grown(ring, d)) == IdOf(images, d)
    ensures forall e :: e in Grown(ring, d) <==> e == d || e in ring
  {
    var now := Grown(ring, d);
    if ring != [] {
      assert ring == [ring[0]] + ring[1..];
      forall k | 0 <= k < |now| ensures IsPipe(images, now[k]) && IdOf(images, now[k]) == IdOf(images, now[0]) {
        assert k > 1 ==> now[k] == ring[k - 1];
      }
      forall j, k | 0 <= j < k < |now| ensures now[j] != now[k] {
        assert k > 1 ==> now[k] == ring[k - 1];
        assert j > 1 ==> now[j] == ring[j - 1];
      }
    }
  }

  lemma NewRing(images: seq<Image>, rings: seq<seq<nat>>, d: nat)
    requires RingsOk(images, rings, d) && IsPipe(images, d)
    requires forall q :: 0 <= q < |rings| ==> RingId(images, rings[q]) != IdOf(images, d)
    ensures RingsOk(images, rings + [[d]], d + 1)
  {
    assert d < |images|;
    hide RingOk, RingId, IdOf, IsPipe;
    var now := rings + [Grown([], d)];
    RingGrown(images, [], d);
    forall e | 0 <= e < d + 1 && IsPipe(images, e) ensures exists r :: 0 <= r < |now| && e in now[r] {
      if e == d {
        assert d in now[|rings|];
      } else {
        var r :| 0 <= r < |rings| && e in rings[r];
        assert e in now[r];
      }
    }
  }

  lemma JoinRing(images: seq<Image>, rings: seq<seq<nat>>, d: nat, r: nat)
    requires RingsOk(images, rings, d) && IsPipe(images, d)
    requires r < |rings| && RingId(images, rings[r]) == IdOf(images, d)
    ensures RingsOk(images, rings[r := Grown(rings[r], d)], d + 1)
  {
    assert d < |images|;
    hide RingOk, RingId, IdOf, IsPipe, Grown;
    var now := rings[r := Grown(rings[r], d)];
    RingGrown(images, rings[r], d);
    forall e | 0 <= e < d + 1 && IsPipe(images, e) ensures exists q :: 0 <= q < |now| && e in now[q] {
      if e == d {
        assert d in now[r];
      } else {
        var q :| 0 <= q < |rings| && e in rings[q];
        assert e in now[q];
      }
    }
  }

  // Adding an end to its ring, behind the front one, or as a new ring.
  method CollectOnePipe(images: seq<Image>, rings: seq<seq<nat>>, d: nat) returns (now: seq<seq<nat>>)
    requires RingsOk(images, rings, d) && IsPipe(images, d)
    ensures RingsOk(images, now, d + 1)
  {
    hide RingsOk;
    var r := 0;
    while r < |rings| && RingId(images, rings[r]) != images[d].id
      invariant 0 <= r <= |rings|
      invariant forall q :: 0 <= q < r ==> RingId(images, rings[q]) != images[d].id
    {
      r := r + 1;
    }
    if r == |rings| {
      NewRing(images, rings, d);
      now := rings + [[d]];
    } else {
      JoinRing(images, rings, d, r);
      now := rings[r := Grown(rings[r], d)];
    }
  }

  // The file a descriptor refers to.
  function FileAt(tasks: seq<seq<Slot>>, f: Fle): nat {
    DescOf(Plan(tasks, [], []), f)
  }

  // Within a task the descriptors ascend.
  ghost predicate Ascending(tasks: seq<seq<Slot>>) {
    forall f, g :: FleOf(tasks, f) && FleOf(tasks, g) && f.pid == g.pid && f.idx < g.idx ==> First(tasks, f, g)
  }

  // The lists hold the given descriptors, each with its file, in the order of precedence.
  ghost predicate Holds(tasks: seq<seq<Slot>>, lists: seq<seq<Fle>>, done: set<Fle>) {
    && (forall d :: 0 <= d < |lists| ==> Sorted(tasks, lists[d]))
    && (forall d, f :: 0 <= d < |lists| ==> (f in lists[d] <==> f in done && FileAt(tasks, f) == d))
  }

  lemma {:induction false} HoldsMore(tasks: seq<seq<Slot>>, lists: seq<seq<Fle>>, done: set<Fle>, f: Fle)
    requires Holds(tasks, lists, done) && FileAt(tasks, f) < |lists|
    requires forall g :: g in done && g.pid == f.pid ==> First(tasks, g, f)
    ensures var d := FileAt(tasks, f);
      Holds(tasks, lists[d := Inserted(lists[d], f)], done + {f})
  {
    hide First, FileAt, Inserted, Sorted;
    var d := FileAt(tasks, f);
    InsertedSorted(tasks, lists[d], f);
    forall g ensures g in Inserted(lists[d], f) <==> g == f || g in lists[d] {
      InsertedMembers(lists[d], f, g);
    }
  }

  // Collecting one descriptor; it fails if the file is not there.
  method CollectFd(tasks: seq<seq<Slot>>, lists: seq<seq<Fle>>, f: Fle, ghost done: set<Fle>)
    returns (ret: int, now: seq<seq<Fle>>)
    requires Holds(tasks, lists, done)
    requires forall g :: g in done && g.pid == f.pid ==> First(tasks, g, f)
    ensures if FileAt(tasks, f) < |lists| then ret == 0 && |now| == |lists| && Holds(tasks, now, done + {f})
            else ret == -1 && now == lists
  {
    hide Holds, First;
    var d := FileAt(tasks, f);
    if d >= |lists| {
      return -1, lists;
    }
    var list := lists[d];
    var k := 0;
    while k < |list| && !(f.pid < list[k].pid)
      invariant 0 <= k <= |list|
      invariant forall j :: 0 <= j < k ==> list[j].pid <= f.pid
    {
      k := k + 1;
    }
    InsertedAt(list, f, k);
    HoldsMore(tasks, lists, done, f);
    now := lists[d := list[..k] + [f] + list[k..]];
    ret := 0;
  }

  ghost function FilesBefore(t: nat, n: nat): set<Fle> {
    set i | 0 <= i < n :: Fle(t, i)
  }

  // Collecting all descriptors of a task.
  method CollectTask(tasks: seq<seq<Slot>>, lists: seq<seq<Fle>>, t: nat, ghost done: set<Fle>)
    returns (ret: int, now: seq<seq<Fle>>)
    requires Holds(tasks, lists, done) && Ascending(tasks) && t < |tasks|
    requires forall g :: g in done ==> g.pid != t
    ensures |now| == |lists|
    ensures ret == 0 <==> forall i :: 0 <= i < |tasks[t]| ==> tasks[t][i].desc < |lists|
    ensures ret == 0 ==> Holds(tasks, now, done + FilesBefore(t, |tasks[t]|))
  {
    hide Holds, First;
    now := lists;
    ret := 0;
    assert done + FilesBefore(t, 0) == done;
    for i := 0 to |tasks[t]|
      invariant |now| == |lists|
      invariant Holds(tasks, now, done + FilesBefore(t, i))
      invariant forall j :: 0 <= j < i ==> tasks[t][j].desc < |lists|
    {
      ghost var f := Fle(t, i);
      assert FleOf(tasks, f) && FileAt(tasks, f) == tasks[t][i].desc;
      forall g | g in done + FilesBefore(t, i) && g.pid == t ensures First(tasks, g, f) {
        assert FleOf(tasks, g);
      }
      ret, now := CollectFd(tasks, now, Fle(t, i), done + FilesBefore(t, i));
      if ret != 0 {
        return;
      }
      assert done + FilesBefore(t, i + 1) == done + FilesBefore(t, i) + {f};
    }
    ret := 0;
  }

  lemma FirstTotal(tasks: seq<seq<Slot>>, f: Fle, g: Fle)
    requires Ascending(tasks) && FleOf(tasks, f) && FleOf(tasks, g) && f != g
    ensures First(tasks, f, g) || First(tasks, g, f)
  {
    hide First;
    if f.pid < g.pid {
      FirstByPid(tasks, f, g);
    } else if g.pid < f.pid {
      FirstByPid(tasks, g, f);
    }
  }

  // The first descriptor of a file is its master; a pipe end has one.
  ghost predicate HaveMasters(tasks: seq<seq<Slot>>, images: seq<Image>, lists: seq<seq<Fle>>) {
    forall d :: 0 <= d < |lists| ==>
      && (IsPipe(images, d) ==> lists[d] != [])
      && (lists[d] != [] ==> FleOf(tasks, lists[d][0]) && FileAt(tasks, lists[d][0]) == d)
  }

  function MasterAt(lists: seq<seq<Fle>>, d: nat): Fle {
    if d < |lists| && lists[d] != [] then lists[d][0] else Fle(0, 0)
  }

  // The master of c takes precedence over the masters of the ring's other ends.
  ghost predicate Leads(tasks: seq<seq<Slot>>, lists: seq<seq<Fle>>, ring: seq<nat>, n: nat, c: nat) {
    forall k :: 0 <= k < n <= |ring| && ring[k] != c ==> First(tasks, MasterAt(lists, c), MasterAt(lists, ring[k]))
  }

  lemma LeadsMore(tasks: seq<seq<Slot>>, images: seq<Image>, lists: seq<seq<Fle>>, ring: seq<nat>, n: nat, c: nat)
    requires Ascending(tasks) && HaveMasters(tasks, images, lists) && |lists| == |images|
    requires n < |ring| && IsPipe(images, ring[n]) && IsPipe(images, c) && ring[n] != c
    requires Leads(tasks, lists, ring, n, c)
    ensures var e := ring[n];
      if First(tasks, MasterAt(lists, e), MasterAt(lists, c)) then Leads(tasks, lists, ring, n + 1, e)
      else Leads(tasks, lists, ring, n + 1, c)
  {
    hide First;
    var e := ring[n];
    assert FileAt(tasks, lists[e][0]) == e;
    assert FileAt(tasks, lists[c][0]) == c;
    FirstTotal(tasks, MasterAt(lists, e), MasterAt(lists, c));
    if First(tasks, MasterAt(lists, e), MasterAt(lists, c)) {
      forall k | 0 <= k < n + 1 && ring[k] != e ensures First(tasks, MasterAt(lists, e), MasterAt(lists, ring[k])) {
        if ring[k] != c {
          FirstTransitive(tasks, MasterAt(lists, e), MasterAt(lists, c), MasterAt(lists, ring[k]));
        }
      }
    }
  }

  // An end that can be used as it is created: of its direction, and not O_LARGEFILE.
  predicate Plain(images: seq<Image>, d: nat, wronly: bool) {
    IsPipe(images, d) && !images[d].large && images[d].wronly == wronly
  }

  // The first such end of the ring's first n, or -1.
  ghost predicate FirstPlain(images: seq<Image>, ring: seq<nat>, n: nat, wronly: bool, p: int) {
    && -1 <= p < n <= |ring|
    && (p >= 0 ==> Plain(images, ring[p], wronly))
    && (forall k :: 0 <= k < (if p >= 0 then p else n) ==> !Plain(images, ring[k], wronly))
  }

  // Choosing the creator of a pipe, and which ends need not be opened again.
  method MarkRing(tasks: seq<seq<Slot>>, images: seq<Image>, lists: seq<seq<Fle>>, ring: seq<nat>)
    returns (c: nat, pr: int, pw: int)
    requires Ascending(tasks) && HaveMasters(tasks, images, lists) && |lists| == |images|
    requires RingOk(images, ring)
    ensures c in ring && Leads(tasks, lists, ring, |ring|, c)
    ensures FirstPlain(images, ring, |ring|, false, pr) && FirstPlain(images, ring, |ring|, true, pw)
  {
    hide First, Ascending, HaveMasters, FileAt;
    c, pr, pw := ring[0], -1, -1;
    if !images[c].large {
      if images[c].wronly {
        pw := 0;
      } else {
        pr := 0;
      }
    }
    for k := 1 to |ring|
      invariant c in ring[..k] && Leads(tasks, lists, ring, k, c)
      invariant FirstPlain(images, ring, k, false, pr) && FirstPlain(images, ring, k, true, pw)
    {
      var e := ring[k];
      LeadsMore(tasks, images, lists, ring, k, c);
      if First(tasks, MasterAt(lists, e), MasterAt(lists, c)) {
        c := e;
      }
      if !images[e].large {
        if images[e].wronly {
          if pw == -1 {
            pw := k;
          }
        } else {
          if pr == -1 {
            pr := k;
          }
        }
      }
    }
  }

  // Whether the end at place k of a ring is the first plain one of its direction.
  ghost predicate FirstPlainAt(images: seq<Image>, ring: seq<nat>, k: nat) {
    k < |ring| && (FirstPlain(images, ring, |ring|, false, k) || FirstPlain(images, ring, |ring|, true, k))
  }

  // An end that is used as it was created, in one of the first n rings.
  ghost predicate KeptPlain(images: seq<Image>, rings: seq<seq<nat>>, n: nat, d: nat) {
    var r := RingOf(rings, d);
    IsPipe(images, d) && r < n <= |rings| && FirstPlainAt(images, rings[r], IndexOf<nat>(rings[r], d))
  }

  // Who creates the pipes of the first rings: an end that leads its ring.
  ghost predicate CreatorsOk(tasks: seq<seq<Slot>>, lists: seq<seq<Fle>>, rings: seq<seq<nat>>, creators: seq<nat>) {
    && |creators| <= |rings|
    && (forall r :: 0 <= r < |creators| ==>
          creators[r] in rings[r] && Leads(tasks, lists, rings[r], |rings[r]|, creators[r]))
  }

  // An end of the first n rings is opened again unless it is the first plain one of its direction.
  ghost predicate ReopenOk(images: seq<Image>, rings: seq<seq<nat>>, n: nat, reopen: seq<bool>) {
    && |reopen| == |images|
    && (forall d :: 0 <= d < |images| ==> (!reopen[d] <==> KeptPlain(images, rings, n, d)))
  }

  // An end is in one ring only, and once.
  lemma {:induction false} RingIs(images: seq<Image>, rings: seq<seq<nat>>, n: nat, r: nat, k: nat)
    requires RingsOk(images, rings, n) && r < |rings| && k < |rings[r]|
    ensures RingOf(rings, rings[r][k]) == r && IndexOf<nat>(rings[r], rings[r][k]) == k
    ensures IsPipe(images, rings[r][k]) && IdOf(images, rings[r][k]) == RingId(images, rings[r])
  {
    hide RingOf, IndexOf, IsPipe, IdOf;
    var d := rings[r][k];
    assert d in rings[r];
    var q := RingOf(rings, d);
    assert RingOk(images, rings[q]) && RingOk(images, rings[r]);
    var j :| 0 <= j < |rings[q]| && rings[q][j] == d;
    assert RingId(images, rings[q]) == IdOf(images, d) == RingId(images, rings[r]);
    IndexIs<nat>(rings[r], k);
  }

  lemma MarkedMore(images: seq<Image>, rings: seq<seq<nat>>, r: nat, pr: int, pw: int, d: nat)
    requires RingsOk(images, rings, |images|) && r < |rings| && d < |images|
    requires FirstPlain(images, rings[r], |rings[r]|, false, pr) && FirstPlain(images, rings[r], |rings[r]|, true, pw)
    ensures KeptPlain(images, rings, r + 1, d) <==>
      KeptPlain(images, rings, r, d) || (pr >= 0 && d == rings[r][pr]) || (pw >= 0 && d == rings[r][pw])
  {
    hide IndexOf, RingOf, RingsOk;
    var ring := rings[r];
    if pr >= 0 {
      RingIs(images, rings, |images|, r, pr);
    }
    if pw >= 0 {
      RingIs(images, rings, |images|, r, pw);
    }
    if IsPipe(images, d) && RingOf(rings, d) == r {
      InItsRing(images, rings, d);
      var k := IndexOf<nat>(ring, d);
      assert FirstPlainAt(images, ring, k) <==> k == pr || k == pw;
    }
  }

  lemma {:induction false} InItsRing(images: seq<Image>, rings: seq<seq<nat>>, d: nat)
    requires RingsOk(images, rings, |images|) && d < |images| && IsPipe(images, d)
    ensures RingOf(rings, d) < |rings| && d in rings[RingOf(rings, d)]
  {
  }

  // Clearing a mark, if there is an end to clear it for.
  function Cleared(reopen: seq<bool>, ring: seq<nat>, p: int): seq<bool> {
    if 0 <= p < |ring| && ring[p] < |reopen| then reopen[ring[p] := false] else reopen
  }

  lemma ReopenMore(images: seq<Image>, rings: seq<seq<nat>>, r: nat, pr: int, pw: int, reopen: seq<bool>)
    requires RingsOk(images, rings, |images|) && r < |rings| && ReopenOk(images, rings, r, reopen)
    requires FirstPlain(images, rings[r], |rings[r]|, false, pr) && FirstPlain(images, rings[r], |rings[r]|, true, pw)
    ensures ReopenOk(images, rings, r + 1, Cleared(Cleared(reopen, rings[r], pr), rings[r], pw))
  {
    hide FirstPlain, RingOf, IndexOf, KeptPlain, RingsOk;
    var now := Cleared(Cleared(reopen, rings[r], pr), rings[r], pw);
    MarkBounds(images, rings, r, pr, pw);
    forall d | 0 <= d < |images| ensures !now[d] <==> KeptPlain(images, rings, r + 1, d) {
      MarkedMore(images, rings, r, pr, pw, d);
    }
  }

  lemma ReopenStart(images: seq<Image>, rings: seq<seq<nat>>, reopen: seq<bool>)
    requires |reopen| == |images| && forall d :: 0 <= d < |images| ==> reopen[d]
    ensures ReopenOk(images, rings, 0, reopen)
  {
  }

  // Choosing who creates each pipe.
  method MarkPipeMaster(tasks: seq<seq<Slot>>, images: seq<Image>, lists: seq<seq<Fle>>, rings: seq<seq<nat>>)
    returns (creators: seq<nat>, reopen: seq<bool>)
    requires Ascending(tasks) && HaveMasters(tasks, images, lists) && |lists| == |images|
    requires RingsOk(images, rings, |images|)
    ensures |creators| == |rings| && CreatorsOk(tasks, lists, rings, creators)
    ensures ReopenOk(images, rings, |rings|, reopen)
  {
    hide Ascending, HaveMasters, Leads, FirstPlain, ReopenOk, RingOk;
    creators, reopen := [], seq(|images|, _ => true);
    ReopenStart(images, rings, reopen);
    for r := 0 to |rings|
      invariant |creators| == r && CreatorsOk(tasks, lists, rings, creators)
      invariant ReopenOk(images, rings, r, reopen)
    {
      var c, pr, pw := MarkRing(tasks, images, lists, rings[r]);
      ReopenMore(images, rings, r, pr, pw, reopen);
      creators := creators + [c];
      reopen := Cleared(Cleared(reopen, rings[r], pr), rings[r], pw);
    }
  }

  lemma MarkBounds(images: seq<Image>, rings: seq<seq<nat>>, r: nat, pr: int, pw: int)
    requires RingsOk(images, rings, |images|) && r < |rings|
    requires FirstPlain(images, rings[r], |rings[r]|, false, pr) && FirstPlain(images, rings[r], |rings[r]|, true, pw)
    ensures pr < |rings[r]| && pw < |rings[r]|
    ensures pr >= 0 ==> rings[r][pr] < |images|
    ensures pw >= 0 ==> rings[r][pw] < |images|
  {
    assert RingOk(images, rings[r]);
  }

  // The other ends of a pipe as they come after one of them.
  function After(ring: seq<nat>, d: nat): seq<nat> {
    var k := IndexOf<nat>(ring, d);
    if k < |ring| then ring[k + 1..] + ring[..k] else []
  }

  lemma {:induction false} AfterMembers(ring: seq<nat>, k: nat)
    requires k < |ring| && IndexOf<nat>(ring, ring[k]) == k
    requires forall i, j :: 0 <= i < j < |ring| ==> ring[i] != ring[j]
    ensures forall e :: e in After(ring, ring[k]) <==> e in ring && e != ring[k]
    ensures forall i, j :: 0 <= i < j < |After(ring, ring[k])| ==> After(ring, ring[k])[i] != After(ring, ring[k])[j]
  {
    hide IndexOf;
    var rest := After(ring, ring[k]);
    forall e ensures e in rest <==> e in ring && e != ring[k] {
      if e in rest {
        var j :| 0 <= j < |rest| && rest[j] == e;
        assert e == ring[if j < |ring| - k - 1 then k + 1 + j else j - (|ring| - k - 1)];
      }
      if e in ring && e != ring[k] {
        var j :| 0 <= j < |ring| && ring[j] == e;
        assert e == rest[if j > k then j - k - 1 else |ring| - k - 1 + j];
      }
    }
  }

  function KindFor(images: seq<Image>, rings: seq<seq<nat>>, reopen: seq<bool>, d: nat): Kind {
    var r := RingOf(rings, d);
    if IsPipe(images, d) && r < |rings| && d < |reopen| then
      Pipe(r, reopen[d], images[d].wronly, After(rings[r], d))
    else Regular
  }

  function Planned(tasks: seq<seq<Slot>>, images: seq<Image>, lists: seq<seq<Fle>>, rings: seq<seq<nat>>,
                   creators: seq<nat>, reopen: seq<bool>): Plan
    requires |lists| == |images|
  {
    Plan(tasks, seq(|images|, d requires 0 <= d < |images| =>
         Desc(lists[d], KindFor(images, rings, reopen, d))), creators)
  }

  // What is known when all is collected.
  ghost predicate Collected(tasks: seq<seq<Slot>>, images: seq<Image>, lists: seq<seq<Fle>>, rings: seq<seq<nat>>,
                            creators: seq<nat>, reopen: seq<bool>) {
    && |lists| == |images| && Ascending(tasks) && HaveMasters(tasks, images, lists)
    && (forall f :: FleOf(tasks, f) ==> FileAt(tasks, f) < |lists| && f in lists[FileAt(tasks, f)])
    && (forall d, f :: 0 <= d < |lists| && f in lists[d] ==> FleOf(tasks, f) && FileAt(tasks, f) == d)
    && (forall d :: 0 <= d < |lists| ==> Sorted(tasks, lists[d]))
    && RingsOk(images, rings, |images|)
    && |creators| == |rings| && CreatorsOk(tasks, lists, rings, creators)
    && ReopenOk(images, rings, |rings|, reopen)
  }

  // The parts of the plan that is made of it.
  lemma {:induction false} PlannedAt(tasks: seq<seq<Slot>>, images: seq<Image>, lists: seq<seq<Fle>>,
                                     rings: seq<seq<nat>>, creators: seq<nat>, reopen: seq<bool>, d: nat)
    requires Collected(tasks, images, lists, rings, creators, reopen) && d < |images|
    ensures var plan := Planned(tasks, images, lists, rings, creators, reopen);
      && ListOf(plan, d) == lists[d] && Master(plan, d) == MasterAt(lists, d)
      && KindOf(plan, d).Pipe? == IsPipe(images, d) && (!IsPipe(images, d) ==> Peers(plan, d) == [])
      && (IsPipe(images, d) ==>
            && RingOf(rings, d) < |rings| && d in rings[RingOf(rings, d)]
            && KindOf(plan, d) == Pipe(RingOf(rings, d), reopen[d], images[d].wronly, After(rings[RingOf(rings, d)], d))
            && Creator(plan, d) == creators[RingOf(rings, d)] && Peers(plan, d) == After(rings[RingOf(rings, d)], d))
  {
    hide RingOf, IndexOf, After, RingsOk, CreatorsOk, Ascending, HaveMasters, Sorted, FleOf, FileAt, KeptPlain;
    if IsPipe(images, d) {
      InItsRing(images, rings, d);
    }
  }

  lemma PlannedFles(tasks: seq<seq<Slot>>, plan: Plan)
    requires plan.tasks == tasks
    ensures forall f :: IsFle(plan, f) == FleOf(tasks, f) && DescOf(plan, f) == FileAt(tasks, f)
    ensures forall f, g :: Prio(plan, f, g) == First(tasks, f, g)
  {
  }

  lemma PlannedDesc(tasks: seq<seq<Slot>>, images: seq<Image>, lists: seq<seq<Fle>>, rings: seq<seq<nat>>,
                    creators: seq<nat>, reopen: seq<bool>, d: nat)
    requires Collected(tasks, images, lists, rings, creators, reopen) && d < |images|
    ensures DescOk(Planned(tasks, images, lists, rings, creators, reopen), d)
  {
    hide First, FleOf, FileAt, Planned, RingsOk, CreatorsOk, ReopenOk, KindOf, RingOf, After, IsPipe, Creator, Peers,
         Prio;
    hide Ascending, DescOf, IsFle;
    var plan := Planned(tasks, images, lists, rings, creators, reopen);
    PlannedAt(tasks, images, lists, rings, creators, reopen, d);
    assert plan.tasks == tasks by { PlannedTasks(tasks, images, lists, rings, creators, reopen); }
    PlannedFles(tasks, plan);
  }

  lemma PlannedTasks(tasks: seq<seq<Slot>>, images: seq<Image>, lists: seq<seq<Fle>>, rings: seq<seq<nat>>,
                     creators: seq<nat>, reopen: seq<bool>)
    requires |lists| == |images|
    ensures var plan := Planned(tasks, images, lists, rings, creators, reopen);
      plan.tasks == tasks && |plan.descs| == |images|
  {
  }

  // The plan of an end's ring: its creator, and the creator's peers.
  lemma PlannedPipe(tasks: seq<seq<Slot>>, images: seq<Image>, lists: seq<seq<Fle>>, rings: seq<seq<nat>>,
                    creators: seq<nat>, reopen: seq<bool>, d: nat)
    requires Collected(tasks, images, lists, rings, creators, reopen) && d < |images|
    ensures PipeOk(Planned(tasks, images, lists, rings, creators, reopen), d)
    ensures PeersOk(Planned(tasks, images, lists, rings, creators, reopen), d)
  {
    hide First, FleOf, FileAt, RingOf, IndexOf, After, Planned, ReopenOk, Sorted, RingOk, Ascending, HaveMasters, Prio;
    hide KindOf, Creator, Peers, Master, ListOf, IsPipe;
    var plan := Planned(tasks, images, lists, rings, creators, reopen);
    PlannedTasks(tasks, images, lists, rings, creators, reopen);
    PlannedFles(tasks, plan);
    PlannedAt(tasks, images, lists, rings, creators, reopen, d);
    if IsPipe(images, d) {
      var r := RingOf(rings, d);
      var c := creators[r];
      var k :| 0 <= k < |rings[r]| && rings[r][k] == c;
      var j :| 0 <= j < |rings[r]| && rings[r][j] == d;
      RingIs(images, rings, |images|, r, k);
      RingIs(images, rings, |images|, r, j);
      PlannedAt(tasks, images, lists, rings, creators, reopen, c);
      assert RingOk(images, rings[r]);
      RingDistinct(images, rings[r]);
      AfterMembers(rings[r], k);
      AfterMembers(rings[r], j);
      forall i | 0 <= i < |Peers(plan, d)|
        ensures var p := Peers(plan, d)[i]; p < |plan.descs| && KindOf(plan, p).Pipe? && p != d && Creator(plan, p) == c
      {
        var p := Peers(plan, d)[i];
        assert p in After(rings[r], d);
        var l :| 0 <= l < |rings[r]| && rings[r][l] == p;
        RingIs(images, rings, |images|, r, l);
        PlannedAt(tasks, images, lists, rings, creators, reopen, p);
      }
    }
  }

  lemma RingDistinct(images: seq<Image>, ring: seq<nat>)
    requires RingOk(images, ring)
    ensures forall i, j :: 0 <= i < j < |ring| ==> ring[i] != ring[j]
  {
  }

  // Two ends that are not opened again differ in their direction.
  lemma PlannedEnds(tasks: seq<seq<Slot>>, images: seq<Image>, lists: seq<seq<Fle>>, rings: seq<seq<nat>>,
                    creators: seq<nat>, reopen: seq<bool>, d: nat, e: nat)
    requires Collected(tasks, images, lists, rings, creators, reopen) && d < e < |images|
    ensures var plan := Planned(tasks, images, lists, rings, creators, reopen);
      var k, l := KindOf(plan, d), KindOf(plan, e);
      k.Pipe? && l.Pipe? && k.pipe == l.pipe && !k.reopen && !l.reopen ==> k.wronly != l.wronly
  {
    hide First, FleOf, FileAt, RingOf, IndexOf, After, Planned, Sorted, RingOk, Ascending, HaveMasters, KindOf, RingsOk;
    PlannedAt(tasks, images, lists, rings, creators, reopen, d);
    PlannedAt(tasks, images, lists, rings, creators, reopen, e);
  }

  // What is collected is a plan that the restore can follow.
  lemma PlannedOk(tasks: seq<seq<Slot>>, images: seq<Image>, lists: seq<seq<Fle>>, rings: seq<seq<nat>>,
                  creators: seq<nat>, reopen: seq<bool>)
    requires Collected(tasks, images, lists, rings, creators, reopen)
    ensures WellFormed(Planned(tasks, images, lists, rings, creators, reopen))
    ensures EndsDistinct(Planned(tasks, images, lists, rings, creators, reopen))
  {
    hide First, FleOf, FileAt, Planned, DescOk, PipeOk, PeersOk, Sorted, RingsOk, CreatorsOk, ReopenOk, HaveMasters,
         KindOf;
    var plan := Planned(tasks, images, lists, rings, creators, reopen);
    PlannedTasks(tasks, images, lists, rings, creators, reopen);
    forall d | 0 <= d < |images| ensures DescOk(plan, d) && PipeOk(plan, d) && PeersOk(plan, d) {
      PlannedDesc(tasks, images, lists, rings, creators, reopen, d);
      PlannedPipe(tasks, images, lists, rings, creators, reopen, d);
    }
    forall d, e | 0 <= d < e < |images|
      ensures var k, l := KindOf(plan, d), KindOf(plan, e);
        k.Pipe? && l.Pipe? && k.pipe == l.pipe && !k.reopen && !l.reopen ==> k.wronly != l.wronly
    {
      PlannedEnds(tasks, images, lists, rings, creators, reopen, d, e);
    }
    PlannedTasksOk(tasks, images, lists, rings, creators, reopen);
  }

  lemma PlannedTasksOk(tasks: seq<seq<Slot>>, images: seq<Image>, lists: seq<seq<Fle>>, rings: seq<seq<nat>>,
                       creators: seq<nat>, reopen: seq<bool>)
    requires Collected(tasks, images, lists, rings, creators, reopen)
    ensures TasksOk(Planned(tasks, images, lists, rings, creators, reopen))
  {
    hide Planned, Sorted, RingsOk, CreatorsOk, ReopenOk, HaveMasters, KindOf, DescOf, FleOf, FileAt;
    var plan := Planned(tasks, images, lists, rings, creators, reopen);
    PlannedTasks(tasks, images, lists, rings, creators, reopen);
    PlannedFles(tasks, plan);
    forall f | IsFle(plan, f) ensures DescOf(plan, f) < |plan.descs| && f in ListOf(plan, DescOf(plan, f)) {
      PlannedAt(tasks, images, lists, rings, creators, reopen, FileAt(tasks, f));
    }
    forall f, g | IsFle(plan, f) && IsFle(plan, g) && f.pid == g.pid && f.idx < g.idx
      ensures FdOf(plan, f) < FdOf(plan, g)
    {
      assert First(tasks, f, g) && Prio(plan, f, g);
    }
  }

  // The pipes among the files, in their rings.
  method CollectPipes(images: seq<Image>) returns (rings: seq<seq<nat>>)
    ensures RingsOk(images, rings, |images|)
  {
    rings := [];
    for d := 0 to |images|
      invariant RingsOk(images, rings, d)
    {
      if images[d].PipeImage? {
        rings := CollectOnePipe(images, rings, d);
      }
    }
  }

  // The descriptors of the first n tasks of an order.
  ghost function AllOf(tasks: seq<seq<Slot>>, order: seq<nat>, n: nat): set<Fle>
    requires n <= |order| && forall k :: 0 <= k < |order| ==> order[k] < |tasks|
  {
    if n == 0 then {} else AllOf(tasks, order, n - 1) + FilesBefore(order[n - 1], |tasks[order[n - 1]]|)
  }

  lemma {:induction false} AllOfMembers(tasks: seq<seq<Slot>>, order: seq<nat>, n: nat, f: Fle)
    requires n <= |order| && forall k :: 0 <= k < |order| ==> order[k] < |tasks|
    ensures f in AllOf(tasks, order, n) <==> FleOf(tasks, f) && f.pid in order[..n]
  {
    if n > 0 {
      AllOfMembers(tasks, order, n - 1, f);
      assert order[..n] == order[..n - 1] + [order[n - 1]];
    }
  }

  // The tasks are gone through in some order, each once.
  ghost predicate IsOrder(tasks: seq<seq<Slot>>, order: seq<nat>) {
    && (forall k :: 0 <= k < |order| ==> order[k] < |tasks|)
    && (forall j, k :: 0 <= j < k < |order| ==> order[j] != order[k])
    && (forall t :: 0 <= t < |tasks| ==> t in order)
  }

  // Every pipe end of the images has a descriptor; other files may have none.
  ghost predicate PipesUsed(tasks: seq<seq<Slot>>, images: seq<Image>) {
    forall d :: 0 <= d < |images| && IsPipe(images, d) ==> Used(tasks, d)
  }

  ghost predicate Used(tasks: seq<seq<Slot>>, d: nat) {
    exists f :: FleOf(tasks, f) && FileAt(tasks, f) == d
  }

  // Collecting the descriptors of all tasks, in whatever order the tasks come.
  method CollectAll(tasks: seq<seq<Slot>>, order: seq<nat>, n: nat) returns (ret: int, lists: seq<seq<Fle>>)
    requires Ascending(tasks) && IsOrder(tasks, order)
    ensures |lists| == n
    ensures ret == 0 ==> Holds(tasks, lists, AllOf(tasks, order, |order|))
    ensures ret == 0 <==> forall t, i :: 0 <= t < |tasks| && 0 <= i < |tasks[t]| ==> tasks[t][i].desc < n
  {
    hide Ascending, Holds;
    lists := seq(n, _ => []);
    ret := 0;
    HoldsNone(tasks, lists);
    for k := 0 to |order|
      invariant |lists| == n
      invariant Holds(tasks, lists, AllOf(tasks, order, k))
      invariant forall j, i :: 0 <= j < k && 0 <= i < |tasks[order[j]]| ==> tasks[order[j]][i].desc < n
    {
      var t := order[k];
      forall g | g in AllOf(tasks, order, k) ensures g.pid != t {
        AllOfMembers(tasks, order, k, g);
      }
      ret, lists := CollectTask(tasks, lists, t, AllOf(tasks, order, k));
      if ret != 0 {
        return;
      }
    }
    ret := 0;
    forall t, i | 0 <= t < |tasks| && 0 <= i < |tasks[t]| ensures tasks[t][i].desc < n {
      assert t in order;
      var j :| 0 <= j < |order| && order[j] == t;
    }
  }

  lemma HoldsNone(tasks: seq<seq<Slot>>, lists: seq<seq<Fle>>)
    requires forall d :: 0 <= d < |lists| ==> lists[d] == []
    ensures Holds(tasks, lists, {})
  {
  }

  lemma {:induction false} CollectedLists(tasks: seq<seq<Slot>>, order: seq<nat>, images: seq<Image>,
                                          lists: seq<seq<Fle>>)
    requires IsOrder(tasks, order) && PipesUsed(tasks, images) && |lists| == |images|
    requires Holds(tasks, lists, AllOf(tasks, order, |order|))
    requires forall t, i :: 0 <= t < |tasks| && 0 <= i < |tasks[t]| ==> tasks[t][i].desc < |lists|
    ensures HaveMasters(tasks, images, lists)
    ensures forall f :: FleOf(tasks, f) ==> FileAt(tasks, f) < |lists| && f in lists[FileAt(tasks, f)]
    ensures forall d, f :: 0 <= d < |lists| && f in lists[d] ==> FleOf(tasks, f) && FileAt(tasks, f) == d
    ensures forall d :: 0 <= d < |lists| ==> Sorted(tasks, lists[d])
  {
    hide Sorted, First, AllOf;
    var done := AllOf(tasks, order, |order|);
    assert order[..|order|] == order;
    forall f ensures f in done <==> FleOf(tasks, f) {
      AllOfMembers(tasks, order, |order|, f);
    }
    forall d | 0 <= d < |lists| && IsPipe(images, d) ensures lists[d] != [] {
      assert Used(tasks, d);
      var f :| FleOf(tasks, f) && FileAt(tasks, f) == d;
      assert f in lists[d];
    }
    forall d | 0 <= d < |lists| && lists[d] != []
      ensures FleOf(tasks, lists[d][0]) && FileAt(tasks, lists[d][0]) == d
    {
      assert lists[d][0] in lists[d];
    }
  }

  // The plan has the descriptors of the tasks, and its files are what the images say: pipe ends with their
  // direction, and two ends on one pipe if and only if the images give them one pipe id.
  ghost predicate Fits(plan: Plan, tasks: seq<seq<Slot>>, images: seq<Image>) {
    && plan.tasks == tasks && |plan.descs| == |images|
    && (forall d :: 0 <= d < |images| ==>
          if images[d].PipeImage? then KindOf(plan, d).Pipe? && KindOf(plan, d).wronly == images[d].wronly
          else KindOf(plan, d).Regular?)
    && (forall d :: 0 <= d < |images| && images[d].PipeImage? && images[d].large ==>
          KindOf(plan, d).Pipe? && KindOf(plan, d).reopen)
    && (forall d, e :: 0 <= d < |images| && 0 <= e < |images| && IsPipe(images, d) && IsPipe(images, e) ==>
          (PipeOf(plan, d) == PipeOf(plan, e) <==> images[d].id == images[e].id))
  }

  function PipeOf(plan: Plan, d: nat): Option<nat> {
    if KindOf(plan, d).Pipe? then Some(KindOf(plan, d).pipe) else None
  }

  lemma {:induction false} PlannedPipeIs(tasks: seq<seq<Slot>>, images: seq<Image>, lists: seq<seq<Fle>>,
                                         rings: seq<seq<nat>>, creators: seq<nat>, reopen: seq<bool>, d: nat)
    requires Collected(tasks, images, lists, rings, creators, reopen) && d < |images| && IsPipe(images, d)
    ensures var plan := Planned(tasks, images, lists, rings, creators, reopen);
      && PipeOf(plan, d) == Some(RingOf(rings, d)) && KindOf(plan, d).wronly == images[d].wronly
      && RingOf(rings, d) < |rings| && RingId(images, rings[RingOf(rings, d)]) == images[d].id
  {
    hide RingOf, IndexOf, After, Planned, KindOf, RingsOk, CreatorsOk, ReopenOk, Ascending, HaveMasters;
    PlannedAt(tasks, images, lists, rings, creators, reopen, d);
    var r := RingOf(rings, d);
    var k :| 0 <= k < |rings[r]| && rings[r][k] == d;
    RingIs(images, rings, |images|, r, k);
  }

  // An end with O_LARGEFILE, which no new pipe has, is opened again.
  lemma LargeIsReopened(images: seq<Image>, rings: seq<seq<nat>>, reopen: seq<bool>, d: nat)
    requires ReopenOk(images, rings, |rings|, reopen) && RingsOk(images, rings, |images|) && d < |images|
    requires images[d].PipeImage? && images[d].large
    ensures reopen[d]
  {
    hide RingOf, RingsOk;
    InItsRing(images, rings, d);
    var ring := rings[RingOf(rings, d)];
    assert ring[IndexOf<nat>(ring, d)] == d;
  }

  lemma PlannedFits(tasks: seq<seq<Slot>>, images: seq<Image>, lists: seq<seq<Fle>>, rings: seq<seq<nat>>,
                    creators: seq<nat>, reopen: seq<bool>)
    requires Collected(tasks, images, lists, rings, creators, reopen)
    ensures Fits(Planned(tasks, images, lists, rings, creators, reopen), tasks, images)
  {
    hide RingOf, IndexOf, After, Planned, KindOf, CreatorsOk, ReopenOk, Ascending, HaveMasters, RingOk, RingId, Sorted;
    var plan := Planned(tasks, images, lists, rings, creators, reopen);
    PlannedTasks(tasks, images, lists, rings, creators, reopen);
    forall d | 0 <= d < |images|
      ensures if images[d].PipeImage? then KindOf(plan, d).Pipe? && KindOf(plan, d).wronly == images[d].wronly
              else KindOf(plan, d).Regular?
    {
      PlannedAt(tasks, images, lists, rings, creators, reopen, d);
    }
    forall d | 0 <= d < |images| && images[d].PipeImage? && images[d].large
      ensures KindOf(plan, d).Pipe? && KindOf(plan, d).reopen
    {
      PlannedAt(tasks, images, lists, rings, creators, reopen, d);
      LargeIsReopened(images, rings, reopen, d);
    }
    forall d, e | 0 <= d < |images| && 0 <= e < |images| && IsPipe(images, d) && IsPipe(images, e)
      ensures PipeOf(plan, d) == PipeOf(plan, e) <==> images[d].id == images[e].id
    {
      PlannedPipeIs(tasks, images, lists, rings, creators, reopen, d);
      PlannedPipeIs(tasks, images, lists, rings, creators, reopen, e);
      var q, r := RingOf(rings, d), RingOf(rings, e);
      assert q != r ==> RingId(images, rings[q]) != RingId(images, rings[r]);
    }
  }

  /** From the images to the restored descriptors: under every fair schedule two descriptors share an open file
      if and only if the images give them one file, and where both are pipe ends they are ends of one pipe if and
      only if the images say so, with the direction the images say, and opened again if they have O_LARGEFILE. */
  lemma {:induction false} AsDumped(plan: Plan, tasks: seq<seq<Slot>>, images: seq<Image>, rounds: seq<seq<nat>>,
                                    f: Fle, g: Fle)
    requires WellFormed(plan) && EndsDistinct(plan) && Fits(plan, tasks, images)
    requires Fair(plan, rounds) && |rounds| >= Rank(plan, Start(plan).pcs, |plan.tasks|)
    requires FleOf(tasks, f) && FleOf(tasks, g)
    ensures var s := Rounds(plan, Start(plan), rounds);
      var d, e := FileAt(tasks, f), FileAt(tasks, g);
      && AllDone(s) && f in s.slots && g in s.slots && d < |images| && e < |images|
      && (s.slots[f] == s.slots[g] <==> d == e)
      && (PipeBehind(s.slots[f]).Some? <==> images[d].PipeImage?)
      && (images[d].PipeImage? && images[e].PipeImage? ==>
            (PipeBehind(s.slots[f]) == PipeBehind(s.slots[g]) <==> images[d].id == images[e].id))
      && (images[d].PipeImage? ==> s.slots[f].wronly == images[d].wronly && (images[d].large ==> s.slots[f].Again?))
  {
    hide WellFormed, EndsDistinct, Rounds, Fair, Rank, AllDone, KindOf;
    PlannedFles(tasks, plan);
    SharingRestored(plan, rounds, f, g);
    PipesRestored(plan, rounds, f);
    PipesRestored(plan, rounds, g);
    RoleFacts(plan, f);
    RoleFacts(plan, g);
  }

  // All that is done before the tasks are started: the outcome is a plan that the restore can follow.
  method Collect(tasks: seq<seq<Slot>>, order: seq<nat>, images: seq<Image>) returns (ret: int, plan: Plan)
    requires Ascending(tasks) && IsOrder(tasks, order) && PipesUsed(tasks, images)
    ensures ret == 0 <==> forall t, i :: 0 <= t < |tasks| && 0 <= i < |tasks[t]| ==> tasks[t][i].desc < |images|
    ensures ret == 0 ==> WellFormed(plan) && EndsDistinct(plan) && Fits(plan, tasks, images)
  {
    hide Ascending, IsOrder, PipesUsed, Fits, WellFormed, EndsDistinct, Holds, RingsOk, CreatorsOk, ReopenOk, First,
         FileAt, FleOf;
    plan := Plan(tasks, [], []);
    var rings := CollectPipes(images);
    var lists;
    ret, lists := CollectAll(tasks, order, |images|);
    if ret != 0 {
      return;
    }
    CollectedLists(tasks, order, images, lists);
    var creators, reopen := MarkPipeMaster(tasks, images, lists, rings);
    PlannedOk(tasks, images, lists, rings, creators, reopen);
    PlannedFits(tasks, images, lists, rings, creators, reopen);
    plan := Planned(tasks, images, lists, rings, creators, reopen);
  }
}
