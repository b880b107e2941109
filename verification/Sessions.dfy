/** Restoring sessions: a task gets its session by setsid or by being forked at the right moment
    (prepare_pstree_ids and restore_before_setsid in pstree.c, create_children_and_session in cr-restore.c). */
module Sessions {

  // A task; the first one is the root, and a task comes after its parent.
  datatype Item = Item(pid: int, sid: int, parent: nat)

  // The value of born_sid that says nothing is known.
  const UNKNOWN := -1

  ghost predicate WellFormed(items: seq<Item>) {
    && 0 < |items|
    && (forall k :: 0 < k < |items| ==> items[k].parent < k)
    && (forall k :: 0 <= k < |items| ==> items[k].pid >= 0 && items[k].sid >= 0)
  }

  predicate Leader(i: Item) {
    i.pid == i.sid
  }

  // A pid that is used as a sid is that of the session's leader.
  ghost predicate LeadersLead(items: seq<Item>) {
    forall j, k :: 0 <= j < |items| && 0 <= k < |items| && items[j].pid == items[k].sid ==> Leader(items[j])
  }

  // From a task up to the leader of a session all are marked as born in it.
  ghost predicate Chain(items: seq<Item>, born: seq<int>, k: nat, sid: int)
    requires WellFormed(items) && k < |items| == |born|
    decreases k
  {
    items[k].pid == sid || (born[k] == sid && k > 0 && Chain(items, born, items[k].parent, sid))
  }

  // From a task up to another, which is not counted, all are marked.
  ghost predicate Marked(items: seq<Item>, born: seq<int>, k: nat, sid: int, p: nat)
    requires WellFormed(items) && k < |items| == |born|
    decreases k
  {
    k == p || (born[k] == sid && items[k].pid != sid && k > 0 && Marked(items, born, items[k].parent, sid, p))
  }

  // A task whose session is neither its own nor its parent's.
  predicate Strays(items: seq<Item>, k: nat)
    requires k < |items|
  {
    k > 0 && !Leader(items[k]) && items[k].parent < |items| && items[items[k].parent].sid != items[k].sid
  }

  // A task on the way from another up to the leader of a session, who is not counted.
  ghost predicate Between(items: seq<Item>, k: nat, sid: int, p: nat)
    requires WellFormed(items) && k < |items|
    decreases k
  {
    items[k].pid != sid && (k == p || (k > 0 && Between(items, items[k].parent, sid, p)))
  }

  // A task whose stray descendant k asks for the mark.
  ghost predicate AsksFor(items: seq<Item>, k: nat, sid: int, p: nat)
    requires WellFormed(items) && k < |items|
  {
    Strays(items, k) && items[k].sid == sid && Between(items, items[k].parent, sid, p)
  }

  // Every mark was asked for.
  ghost predicate AskedFor(items: seq<Item>, born: seq<int>)
    requires WellFormed(items) && |items| == |born|
  {
    forall p :: 0 <= p < |items| && born[p] != UNKNOWN ==> exists k :: 0 <= k < |items| && AsksFor(items, k, born[p], p)
  }

  // The marks that the tasks up to n ask for are there.
  ghost predicate Asked(items: seq<Item>, born: seq<int>, n: nat)
    requires WellFormed(items) && n <= |items| == |born|
  {
    forall k :: 0 <= k < n && Strays(items, k) ==> Chain(items, born, items[k].parent, items[k].sid)
  }

  // A marked task is not the leader of the session; its parent is, or is marked as well.
  ghost predicate MarkOk(items: seq<Item>, born: seq<int>, k: nat)
    requires WellFormed(items) && k < |items| == |born|
  {
    born[k] != UNKNOWN ==>
      && k > 0 && items[k].pid != born[k]
      && (exists j :: 0 <= j < |items| && items[j].sid == born[k])
      && (items[items[k].parent].pid == born[k] || born[items[k].parent] == born[k])
  }

  ghost predicate MarksOk(items: seq<Item>, born: seq<int>)
    requires WellFormed(items) && |items| == |born|
  {
    forall k :: 0 <= k < |items| ==> MarkOk(items, born, k)
  }

  // More marks do no harm.
  lemma {:induction false} ChainStays(items: seq<Item>, born: seq<int>, now: seq<int>, k: nat, sid: int)
    requires WellFormed(items) && k < |items| == |born| == |now| && sid != UNKNOWN
    requires forall j :: 0 <= j < |items| && born[j] != UNKNOWN ==> now[j] == born[j]
    requires Chain(items, born, k, sid)
    ensures Chain(items, now, k, sid)
    decreases k
  {
    if items[k].pid != sid {
      ChainStays(items, born, now, items[k].parent, sid);
    }
  }

  lemma {:induction false} MarkedStays(items: seq<Item>, born: seq<int>, now: seq<int>, k: nat, sid: int, p: nat)
    requires WellFormed(items) && p <= k < |items| == |born| == |now| && sid != UNKNOWN
    requires forall j :: 0 <= j < |items| && born[j] != UNKNOWN ==> now[j] == born[j]
    requires Marked(items, born, k, sid, p) && p > 0 && now[p] == sid && items[p].pid != sid
    ensures Marked(items, now, k, sid, items[p].parent)
    decreases k
  {
    if k != p {
      MarkedAbove(items, born, items[k].parent, sid, p);
      MarkedStays(items, born, now, items[k].parent, sid, p);
    }
  }

  lemma {:induction false} MarkedAbove(items: seq<Item>, born: seq<int>, k: nat, sid: int, p: nat)
    requires WellFormed(items) && k < |items| == |born| && Marked(items, born, k, sid, p)
    ensures p <= k
    decreases k
  {
    if k != p {
      MarkedAbove(items, born, items[k].parent, sid, p);
    }
  }

  lemma {:induction false} MarkedBetween(items: seq<Item>, born: seq<int>, k: nat, sid: int, p: nat)
    requires WellFormed(items) && k < |items| == |born| && p < |items|
    requires Marked(items, born, k, sid, p) && items[p].pid != sid
    ensures Between(items, k, sid, p)
    decreases k
  {
    if k != p {
      MarkedBetween(items, born, items[k].parent, sid, p);
    }
  }

  // In a chain all on the way are marked.
  lemma {:induction false} ChainMarks(items: seq<Item>, born: seq<int>, k: nat, sid: int, p: nat)
    requires WellFormed(items) && k < |items| == |born| && p < |items|
    requires Chain(items, born, k, sid) && Between(items, k, sid, p)
    ensures born[p] == sid
    decreases k
  {
    if k != p {
      ChainMarks(items, born, items[k].parent, sid, p);
    }
  }

  lemma MarkAskedFor(items: seq<Item>, born: seq<int>, now: seq<int>, k: nat, p: nat)
    requires WellFormed(items) && k < |items| == |born| && p < |items| && AskedFor(items, born)
    requires now == born[p := items[k].sid] && AsksFor(items, k, items[k].sid, p)
    ensures AskedFor(items, now)
  {
    hide AsksFor;
  }

  lemma {:induction false} MarkedIsChain(items: seq<Item>, born: seq<int>, k: nat, sid: int, p: nat)
    requires WellFormed(items) && k < |items| == |born| && p < |items|
    requires Marked(items, born, k, sid, p) && items[p].pid == sid
    ensures Chain(items, born, k, sid)
    decreases k
  {
    if k != p {
      MarkedIsChain(items, born, items[k].parent, sid, p);
    }
  }

  // The marks are in order, but for those whose parent is the next to be marked.
  ghost predicate MarksUpTo(items: seq<Item>, born: seq<int>, sid: int, p: nat)
    requires WellFormed(items) && |items| == |born|
  {
    forall k :: 0 <= k < |items| ==>
      MarkOk(items, born, k) || (k > 0 && items[k].parent == p && born[k] == sid && items[k].pid != sid)
  }

  ghost predicate Keeps(born: seq<int>, now: seq<int>) {
    |born| == |now| && forall j :: 0 <= j < |born| && born[j] != UNKNOWN ==> now[j] == born[j]
  }

  // Marks that give all tasks what they ask for.
  ghost predicate Possible(items: seq<Item>, b: seq<int>)
    requires WellFormed(items)
  {
    |b| == |items| && Asked(items, b, |items|)
  }

  // The marks made so far are the only possible ones, and in all others the chain goes on from p.
  ghost predicate Forced(items: seq<Item>, born: seq<int>, sid: int, p: int)
    requires WellFormed(items) && p < |items|
  {
    forall b :: Possible(items, b) ==> Keeps(born, b) && (p >= 0 ==> Chain(items, b, p, sid))
  }

  ghost predicate Impossible(items: seq<Item>)
    requires WellFormed(items)
  {
    forall b :: !Possible(items, b)
  }

  lemma ForcedStart(items: seq<Item>, born: seq<int>, k: nat)
    requires WellFormed(items) && k < |items| && Strays(items, k)
    requires forall b :: Possible(items, b) ==> Keeps(born, b)
    ensures Forced(items, born, items[k].sid, items[k].parent)
  {
    hide Keeps;
  }

  lemma ForcedStep(items: seq<Item>, born: seq<int>, sid: int, p: nat)
    requires WellFormed(items) && p < |items| == |born| && items[p].pid != sid && Forced(items, born, sid, p)
    ensures born[p] != UNKNOWN && born[p] != sid ==> Impossible(items)
    ensures p == 0 ==> Impossible(items)
    ensures p > 0 ==> Forced(items, born[p := sid], sid, items[p].parent)
  {
    hide Asked;
    forall b | Possible(items, b)
      ensures !(born[p] != UNKNOWN && born[p] != sid) && p > 0
      ensures Keeps(born[p := sid], b) && Chain(items, b, items[p].parent, sid)
    {
      assert Chain(items, b, p, sid) && Keeps(born, b);
    }
  }

  lemma MarkOneMore(items: seq<Item>, born: seq<int>, sid: int, p: nat)
    requires WellFormed(items) && p < |items| == |born| && 0 < p && items[p].pid != sid && sid != UNKNOWN
    requires MarksUpTo(items, born, sid, p) && (born[p] == UNKNOWN || born[p] == sid)
    requires exists j :: 0 <= j < |items| && items[j].sid == sid
    ensures MarksUpTo(items, born[p := sid], sid, items[p].parent)
  {
    var now := born[p := sid];
    forall k | 0 <= k < |items|
      ensures MarkOk(items, now, k) ||
              (k > 0 && items[k].parent == items[p].parent && now[k] == sid && items[k].pid != sid)
    {
      assert MarkOk(items, born, k) || (k > 0 && items[k].parent == p && born[k] == sid);
    }
  }

  lemma MarksDone(items: seq<Item>, born: seq<int>, sid: int, p: nat)
    requires WellFormed(items) && p < |items| == |born| && items[p].pid == sid
    requires MarksUpTo(items, born, sid, p) && exists j :: 0 <= j < |items| && items[j].sid == sid
    ensures MarksOk(items, born)
  {
    forall k | 0 <= k < |items| ensures MarkOk(items, born, k) {
    }
  }

  // Marking the ancestors of a task up to the leader of its session; it fails where a mark says otherwise,
  // and where there is no leader.
  method MarkUp(items: seq<Item>, born: seq<int>, k: nat) returns (ret: int, now: seq<int>)
    requires WellFormed(items) && k < |items| == |born| && MarksOk(items, born) && Strays(items, k)
    requires AskedFor(items, born) && forall b :: Possible(items, b) ==> Keeps(born, b)
    ensures ret == 0 || ret == -1
    ensures ret == 0 ==> Keeps(born, now) && MarksOk(items, now) && Chain(items, now, items[k].parent, items[k].sid)
    ensures ret == 0 ==> AskedFor(items, now)
    ensures ret == 0 ==> forall b :: Possible(items, b) ==> Keeps(now, b)
    ensures ret == -1 ==> Impossible(items)
  {
    hide MarkOk, MarksUpTo, Chain, Marked, Possible, Asked, AskedFor, Between;
    ForcedStart(items, born, k);
    now := born;
    var sid := items[k].sid;
    var p: int := items[k].parent;
    MarksStart(items, born, sid, items[k].parent);
    while p >= 0 && items[p].pid != sid
      invariant p < |items| && Keeps(born, now)
      invariant p >= 0 ==> Marked(items, now, items[k].parent, sid, p) && MarksUpTo(items, now, sid, p)
      invariant if p >= 0 then Forced(items, now, sid, p) && AskedFor(items, now) else Impossible(items)
      decreases p
    {
      ForcedStep(items, now, sid, p);
      if now[p] != UNKNOWN && now[p] != sid {
        return -1, now;
      }
      if p > 0 {
        MarkOneMore(items, now, sid, p);
        MarkedAbove(items, now, items[k].parent, sid, p);
        MarkedBetween(items, now, items[k].parent, sid, p);
        MarkAskedFor(items, now, now[p := sid], k, p);
        MarkedStays(items, now, now[p := sid], items[k].parent, sid, p);
      }
      now := now[p := sid];
      p := if p > 0 then items[p].parent else -1;
    }
    if p < 0 {
      return -1, now;
    }
    MarksDone(items, now, sid, p);
    MarkedIsChain(items, now, items[k].parent, sid, p);
    ret := 0;
  }

  lemma {:induction false} MarksStart(items: seq<Item>, born: seq<int>, sid: int, p: nat)
    requires WellFormed(items) && p < |items| == |born| && MarksOk(items, born)
    ensures MarksUpTo(items, born, sid, p) && Marked(items, born, p, sid, p)
  {
  }

  // Working out in which session tasks were born that forked before they called setsid.
  // It fails only where no marks would do.
  method PrepareIds(items: seq<Item>) returns (ret: int, born: seq<int>)
    requires WellFormed(items)
    ensures ret == 0 || ret == -1
    ensures |born| == |items|
    ensures ret == 0 ==> MarksOk(items, born) && Asked(items, born, |items|) && AskedFor(items, born)
    ensures ret == -1 ==> Impossible(items)
  {
    hide MarksOk, Chain, AskedFor;
    born := seq(|items|, _ => UNKNOWN);
    NoMarks(items, born);
    for k := 0 to |items|
      invariant |born| == |items| && MarksOk(items, born) && Asked(items, born, k) && AskedFor(items, born)
      invariant forall b :: Possible(items, b) ==> Keeps(born, b)
    {
      if Strays(items, k) {
        var was := born;
        ret, born := MarkUp(items, born, k);
        if ret != 0 {
          return -1, was;
        }
        forall j | 0 <= j < k && Strays(items, j) ensures Chain(items, born, items[j].parent, items[j].sid) {
          ChainStays(items, was, born, items[j].parent, items[j].sid);
        }
      }
    }
    ret := 0;
  }

  lemma NoMarks(items: seq<Item>, born: seq<int>)
    requires WellFormed(items) && |items| == |born| && forall k :: 0 <= k < |born| ==> born[k] == UNKNOWN
    ensures MarksOk(items, born) && AskedFor(items, born)
  {
  }

  // Whether a child is forked before its parent calls setsid.
  predicate BeforeSetsid(items: seq<Item>, born: seq<int>, k: nat)
    requires k < |items| == |born| && items[k].parent < |items|
  {
    born[items[k].parent] == if born[k] == UNKNOWN then items[k].sid else born[k]
  }

  // The session a task is born in: the one its parent is in at that moment.
  function Birth(items: seq<Item>, born: seq<int>, outer: int, k: nat): int
    requires |items| == |born| && k < |items|
    decreases k, 0
  {
    if k == 0 || items[k].parent >= k then outer
    else if BeforeSetsid(items, born, k) then Birth(items, born, outer, items[k].parent)
    else Final(items, born, outer, items[k].parent)
  }

  // The session a task is in after it has called setsid, if it is to be a leader.
  function Final(items: seq<Item>, born: seq<int>, outer: int, k: nat): int
    requires |items| == |born| && k < |items|
    decreases k, 1
  {
    if Leader(items[k]) then items[k].pid else Birth(items, born, outer, k)
  }

  // What the tasks check themselves while they fork their children and restore their session.
  ghost predicate NoBug(items: seq<Item>, born: seq<int>, outer: int, k: nat)
    requires |items| == |born| && k < |items|
  {
    0 < k && items[k].parent < k && BeforeSetsid(items, born, k) && born[k] != UNKNOWN ==>
      Birth(items, born, outer, items[k].parent) == born[k]
  }

  // A marked task is born in the session it is marked with.
  lemma {:induction false} BornAsMarked(items: seq<Item>, born: seq<int>, outer: int, k: nat)
    requires WellFormed(items) && k < |items| == |born| && LeadersLead(items) && MarksOk(items, born)
    requires born[k] != UNKNOWN
    ensures Birth(items, born, outer, k) == born[k]
    decreases k
  {
    assert MarkOk(items, born, k);
    var p := items[k].parent;
    if BeforeSetsid(items, born, k) {
      BornAsMarked(items, born, outer, p);
    } else {
      assert items[p].pid == born[k] && Leader(items[p]);
    }
  }

  // Such a task is forked before or after its parent's setsid in such a way that the check on the way holds.
  lemma ForksCheckOut(items: seq<Item>, born: seq<int>, outer: int, k: nat)
    requires WellFormed(items) && k < |items| == |born| && LeadersLead(items) && MarksOk(items, born)
    ensures NoBug(items, born, outer, k)
  {
    if 0 < k && BeforeSetsid(items, born, k) && born[k] != UNKNOWN {
      BornAsMarked(items, born, outer, items[k].parent);
    }
  }

  // No task but a leader is marked with another session than its own.
  ghost predicate MarksAgree(items: seq<Item>, born: seq<int>)
    requires |items| == |born|
  {
    forall k :: 0 <= k < |items| && !Leader(items[k]) ==> born[k] == UNKNOWN || born[k] == items[k].sid
  }

  // Where they agree every task gets its session.
  lemma {:induction false} SessionRestored(items: seq<Item>, born: seq<int>, outer: int, k: nat)
    requires WellFormed(items) && k < |items| == |born| && LeadersLead(items)
    requires MarksOk(items, born) && Asked(items, born, |items|) && MarksAgree(items, born)
    requires Leader(items[0]) || outer == items[0].sid
    ensures Final(items, born, outer, k) == items[k].sid
    decreases k
  {
    hide MarkOk, Chain;
    if k > 0 && !Leader(items[k]) {
      var p := items[k].parent;
      if born[k] != UNKNOWN {
        BornAsMarked(items, born, outer, k);
      } else if BeforeSetsid(items, born, k) {
        BornAsMarked(items, born, outer, p);
      } else {
        SessionRestored(items, born, outer, p);
        if items[p].sid != items[k].sid {
          NotAsked(items, born, k);
        }
      }
    }
  }

  // A task that strays is forked before its parent's setsid.
  lemma NotAsked(items: seq<Item>, born: seq<int>, k: nat)
    requires WellFormed(items) && k < |items| == |born| && LeadersLead(items)
    requires Asked(items, born, |items|) && Strays(items, k) && born[k] == UNKNOWN
    ensures BeforeSetsid(items, born, k)
  {
    var p := items[k].parent;
    assert Chain(items, born, p, items[k].sid);
    assert items[p].pid == items[k].sid ==> Leader(items[p]);
  }

  // On the way from a stray task up to its leader every task is a leader itself, or of the same session.
  ghost predicate WaysAgree(items: seq<Item>)
    requires WellFormed(items)
  {
    forall k, p :: 0 <= k < |items| && 0 <= p < |items| && AsksFor(items, k, items[k].sid, p) ==>
      Leader(items[p]) || items[p].sid == items[k].sid
  }

  // The marks agree with the sessions exactly if the ways in the tree do.
  lemma MarksAsWays(items: seq<Item>, born: seq<int>)
    requires WellFormed(items) && |items| == |born|
    requires Asked(items, born, |items|) && AskedFor(items, born)
    ensures MarksAgree(items, born) <==> WaysAgree(items)
  {
    hide Chain, Between;
    forall k, p | 0 <= k < |items| && 0 <= p < |items| && AsksFor(items, k, items[k].sid, p)
      ensures born[p] == items[k].sid != UNKNOWN
    {
      ChainMarks(items, born, items[k].parent, items[k].sid, p);
    }
    forall p | 0 <= p < |items| && born[p] != UNKNOWN
      ensures exists k :: 0 <= k < |items| && AsksFor(items, k, items[k].sid, p) && items[k].sid == born[p]
    {
      var k :| 0 <= k < |items| && AsksFor(items, k, born[p], p);
      assert AsksFor(items, k, items[k].sid, p);
    }
  }

  /** Every task gets the session it had if and only if, in the tree, on the way from each stray task up to the
      leader of its session every task is a leader itself or of that session. */
  lemma SessionsRestored(items: seq<Item>, born: seq<int>, outer: int)
    requires WellFormed(items) && |items| == |born| && LeadersLead(items)
    requires MarksOk(items, born) && Asked(items, born, |items|) && AskedFor(items, born)
    requires Leader(items[0]) || outer == items[0].sid
    ensures (forall k :: 0 <= k < |items| ==> Final(items, born, outer, k) == items[k].sid) <==> WaysAgree(items)
  {
    hide Final, Birth, MarksOk, Asked, AskedFor, LeadersLead, WaysAgree;
    MarksAsWays(items, born);
    if MarksAgree(items, born) {
      forall k | 0 <= k < |items| ensures Final(items, born, outer, k) == items[k].sid {
        SessionRestored(items, born, outer, k);
      }
    } else {
      var k :| 0 <= k < |items| && !Leader(items[k]) && born[k] != UNKNOWN && born[k] != items[k].sid;
      BornAsMarked(items, born, outer, k);
      FinalIsBirth(items, born, outer, k);
    }
  }

  lemma {:induction false} FinalIsBirth(items: seq<Item>, born: seq<int>, outer: int, k: nat)
    requires |items| == |born| && k < |items| && !Leader(items[k])
    ensures Final(items, born, outer, k) == Birth(items, born, outer, k)
  {
  }

  // A task is forked before the leader's setsid, and has a child in the leader's session.
  lemma OneTree(items: seq<Item>, born: seq<int>)
    requires items == [Item(1, 1, 0), Item(5, 5, 0), Item(6, 1, 1), Item(7, 5, 2)]
    requires born == [UNKNOWN, 1, 5, UNKNOWN]
    ensures WellFormed(items) && LeadersLead(items) && Leader(items[0]) && Possible(items, born)
    ensures Strays(items, 3) && items[2].pid != 5 && !Leader(items[2]) && items[2].sid == 1
  {
    assert Asked(items, born, |items|) by {
      assert Chain(items, born, 0, 1) && Chain(items, born, 1, 1);
      assert Chain(items, born, 1, 5) && Chain(items, born, 2, 5);
    }
  }

  // A tree that is accepted and yet not restored.
  method AcceptedNotRestored() returns (items: seq<Item>, ret: int, born: seq<int>)
    ensures WellFormed(items) && LeadersLead(items) && Leader(items[0]) && |born| == |items| > 2
    ensures ret == 0 && Final(items, born, items[0].sid, 2) != items[2].sid
  {
    items := [Item(1, 1, 0), Item(5, 5, 0), Item(6, 1, 1), Item(7, 5, 2)];
    OneTree(items, [UNKNOWN, 1, 5, UNKNOWN]);
    hide WellFormed, LeadersLead, Possible, Chain, MarksOk, AskedFor, Final, Birth;
    ret, born := PrepareIds(items);
    assert Chain(items, born, 2, 5);
    MarkedIn(items, born, 2, 5);
    BornAsMarked(items, born, 1, 2);
    FinalIsBirth(items, born, 1, 2);
  }

  lemma {:induction false} MarkedIn(items: seq<Item>, born: seq<int>, k: nat, sid: int)
    requires WellFormed(items) && k < |items| == |born| && Chain(items, born, k, sid) && items[k].pid != sid
    ensures born[k] == sid
  {
  }
}
