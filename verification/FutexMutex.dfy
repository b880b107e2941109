/** The mutex of include/lock.h, built on an atomic counter and the kernel's futex wait and wake. */
module FutexMutex {
  import opened Sequences

  // The counter is an unsigned number of 32 bits.
  const WRAP := 0x1_0000_0000

  // Where a process is: in mutex_lock about to increment, or about to wait with the value it saw, or asleep;
  // holding the mutex; or in mutex_unlock, the counter cleared and about to wake one waiter.
  datatype Pc = Outside | Contending | AboutToWait(seen: nat) | Asleep | Holding | AboutToWake

  datatype State = State(counter: nat, pcs: seq<Pc>)

  // What a process does next; a wait may also end by itself.
  datatype Action =
    | Lock(p: nat)
    | Increment(p: nat)
    | Wait(p: nat)
    | Unlock(p: nat)
    | Wake(p: nat, q: nat)
    | WakeNone(p: nat)
    | ReturnEarly(p: nat)

  predicate NoneAsleep(pcs: seq<Pc>) {
    forall q :: 0 <= q < |pcs| ==> !pcs[q].Asleep?
  }

  // A wake takes one of the sleepers, if there are any.
  predicate Can(s: State, a: Action) {
    a.p < |s.pcs| &&
    match a
    case Lock(p) => s.pcs[p].Outside?
    case Increment(p) => s.pcs[p].Contending?
    case Wait(p) => s.pcs[p].AboutToWait?
    case Unlock(p) => s.pcs[p].Holding?
    case Wake(p, q) => s.pcs[p].AboutToWake? && q < |s.pcs| && s.pcs[q].Asleep?
    case WakeNone(p) => s.pcs[p].AboutToWake? && NoneAsleep(s.pcs)
    case ReturnEarly(p) => s.pcs[p].Asleep?
  }

  // The increment that makes the counter one takes the mutex; a wait is not begun if the counter has changed.
  function Do(s: State, a: Action): State
    requires Can(s, a)
  {
    match a
    case Lock(p) => s.(pcs := s.pcs[p := Contending])
    case Increment(p) =>
      var c := (s.counter + 1) % WRAP;
      State(c, s.pcs[p := if c == 1 then Holding else AboutToWait(c)])
    case Wait(p) => s.(pcs := s.pcs[p := if s.pcs[p].seen == s.counter then Asleep else Contending])
    case Unlock(p) => State(0, s.pcs[p := AboutToWake])
    case Wake(p, q) => s.(pcs := s.pcs[p := Outside][q := Contending])
    case WakeNone(p) => s.(pcs := s.pcs[p := Outside])
    case ReturnEarly(p) => s.(pcs := s.pcs[p := Contending])
  }

  predicate Awake(pc: Pc) {
    pc.Contending? || pc.AboutToWait? || pc.AboutToWake?
  }

  // At most one process holds the mutex.
  ghost predicate Exclusive(s: State) {
    forall p, q :: 0 <= p < |s.pcs| && 0 <= q < |s.pcs| && s.pcs[p].Holding? && s.pcs[q].Holding? ==> p == q
  }

  // The counter is zero if and only if nobody holds the mutex.
  ghost predicate CounterOk(s: State) {
    && s.counter < WRAP
    && (s.counter == 0 <==> forall p :: 0 <= p < |s.pcs| ==> !s.pcs[p].Holding?)
    && (forall p :: 0 <= p < |s.pcs| && s.pcs[p].AboutToWait? ==> s.pcs[p].seen > 1)
  }

  // No wake-up is lost: a free mutex with sleepers has somebody who tries again, or is about to wake one of them.
  ghost predicate NoneForgotten(s: State) {
    s.counter == 0 ==> NoneAsleep(s.pcs) || exists p :: 0 <= p < |s.pcs| && Awake(s.pcs[p])
  }

  ghost predicate Inv(s: State) {
    Exclusive(s) && CounterOk(s) && NoneForgotten(s)
  }

  lemma ExclusiveKept(s: State, a: Action)
    requires Exclusive(s) && CounterOk(s) && Can(s, a)
    requires a.Increment? ==> s.counter + 1 < WRAP
    ensures Exclusive(Do(s, a))
  {
  }

  lemma CounterKept(s: State, a: Action)
    requires Exclusive(s) && CounterOk(s) && Can(s, a)
    requires a.Increment? ==> s.counter + 1 < WRAP
    ensures CounterOk(Do(s, a))
  {
    var s' := Do(s, a);
    if s.counter != 0 && !a.Unlock? {
      var h :| 0 <= h < |s.pcs| && s.pcs[h].Holding?;
      assert s'.pcs[h].Holding?;
    } else if a.Increment? {
      assert s'.pcs[a.p].Holding?;
    }
  }

  lemma NoneForgottenKept(s: State, a: Action)
    requires Exclusive(s) && CounterOk(s) && NoneForgotten(s) && Can(s, a)
    requires a.Increment? ==> s.counter + 1 < WRAP
    ensures NoneForgotten(Do(s, a))
  {
    var s' := Do(s, a);
    if a.Wake? {
      assert Awake(s'.pcs[a.q]);
    } else if !a.WakeNone? && s'.counter == 0 {
      assert Awake(s'.pcs[a.p]);
    }
  }

  // Everything but an increment that wraps the counter keeps the invariant.
  lemma DoKeeps(s: State, a: Action)
    requires Inv(s) && Can(s, a)
    requires a.Increment? ==> s.counter + 1 < WRAP
    ensures Inv(Do(s, a))
  {
    hide Exclusive, CounterOk, NoneForgotten;
    ExclusiveKept(s, a);
    CounterKept(s, a);
    NoneForgottenKept(s, a);
  }

  // An increment keeps the invariant if and only if it does not wrap the counter.
  lemma IncrementKeeps(s: State, p: nat)
    requires Inv(s) && Can(s, Increment(p))
    ensures Inv(Do(s, Increment(p))) <==> s.counter + 1 < WRAP
  {
    if s.counter + 1 < WRAP {
      DoKeeps(s, Increment(p));
    } else {
      var h :| 0 <= h < |s.pcs| && s.pcs[h].Holding?;
      assert Do(s, Increment(p)).pcs[h].Holding?;
    }
  }

  // If it wraps the counter, the next process to come takes a mutex that is held.
  lemma WrapBreaks(s: State, h: nat, p: nat, q: nat)
    requires Inv(s) && s.counter + 1 == WRAP && h < |s.pcs| && s.pcs[h].Holding?
    requires Can(s, Increment(p)) && Can(s, Increment(q)) && p != q
    ensures Can(Do(s, Increment(p)), Increment(q))
    ensures !Exclusive(Do(Do(s, Increment(p)), Increment(q)))
  {
    var s' := Do(Do(s, Increment(p)), Increment(q));
    assert s'.pcs[h].Holding? && s'.pcs[q].Holding?;
  }

  // A run, none of whose increments wraps the counter.
  ghost predicate IsRun(s: State, run: seq<Action>)
    decreases |run|
  {
    run == [] ||
    (Can(s, run[0]) && (run[0].Increment? ==> s.counter + 1 < WRAP) && IsRun(Do(s, run[0]), run[1..]))
  }

  function Outcome(s: State, run: seq<Action>): State
    decreases |run|
  {
    if run == [] || !Can(s, run[0]) then s else Outcome(Do(s, run[0]), run[1..])
  }

  // In every run at most one process holds the mutex, and no waiter is forgotten.
  lemma {:induction false} EveryRun(s: State, run: seq<Action>)
    requires Inv(s) && IsRun(s, run)
    ensures Inv(Outcome(s, run))
    decreases |run|
  {
    hide Inv, Do, Can;
    if run != [] {
      DoKeeps(s, run[0]);
      EveryRun(Do(s, run[0]), run[1..]);
    }
  }

  lemma StartIsOk(s: State)
    requires s.counter == 0 && forall p :: 0 <= p < |s.pcs| ==> s.pcs[p].Outside?
    ensures Inv(s)
  {
  }

  // While somebody wants a free mutex the processes are not stuck: somebody can take it in at most two steps.
  lemma SomebodyGetsIt(s: State, w: nat) returns (run: seq<Action>, p: nat)
    requires Inv(s) && w < |s.pcs| && (s.pcs[w].Asleep? || s.pcs[w].AboutToWait? || s.pcs[w].Contending?)
    requires s.counter == 0
    ensures IsRun(s, run) && |run| <= 2 && |Outcome(s, run).pcs| == |s.pcs|
    ensures p < |s.pcs| && Outcome(s, run).pcs[p].Holding?
  {
    if a :| 0 <= a < |s.pcs| && s.pcs[a].Contending? {
      p, run := a, [Increment(a)];
      assert IsRun(Do(s, Increment(a)), []);
    } else if a :| 0 <= a < |s.pcs| && s.pcs[a].AboutToWait? {
      p, run := a, [Wait(a), Increment(a)];
      RunOfTwo(s, Wait(a), Increment(a));
    } else {
      assert s.pcs[w].Asleep?;
      var a :| 0 <= a < |s.pcs| && Awake(s.pcs[a]);
      p, run := w, [Wake(a, w), Increment(w)];
      RunOfTwo(s, Wake(a, w), Increment(w));
    }
  }

  lemma {:induction false} RunOfTwo(s: State, a: Action, b: Action)
    requires Can(s, a) && !a.Increment? && Can(Do(s, a), b) && (b.Increment? ==> Do(s, a).counter + 1 < WRAP)
    ensures IsRun(s, [a, b]) && Outcome(s, [a, b]) == Do(Do(s, a), b)
  {
    assert [a, b][1..] == [b] && [b][1..] == [];
    assert IsRun(Do(Do(s, a), b), []) && IsRun(Do(s, a), [b]);
    assert Outcome(Do(s, a), [b]) == Do(Do(s, a), b);
  }

  // A run in which only one process acts, and no wait ends by itself.
  ghost predicate OnlyActs(run: seq<Action>, p: nat) {
    forall i :: 0 <= i < |run| ==> run[i].p == p && !run[i].ReturnEarly?
  }

  lemma {:induction false} AsleepActsNot(s: State, p: nat, run: seq<Action>)
    requires p < |s.pcs| && s.pcs[p].Asleep? && IsRun(s, run) && OnlyActs(run, p)
    ensures run == [] && Outcome(s, run) == s
  {
  }

  /** A process that wants a mutex which is held, and which nobody else touches, comes to rest: after at most two
      steps it sleeps. */
  lemma {:induction false} ComesToRest(s: State, p: nat, run: seq<Action>)
    requires Inv(s) && p < |s.pcs| && s.pcs[p].Contending? && s.counter != 0
    requires IsRun(s, run) && OnlyActs(run, p)
    ensures |run| <= 2 && (|run| == 2 ==> Outcome(s, run).pcs == s.pcs[p := Asleep])
  {
    if |run| > 1 {
      var s1, rest := Do(s, run[0]), run[1..];
      assert run[0] == Increment(p) && IsRun(s1, rest);
      assert rest[0] == run[1] && Can(s1, rest[0]) && rest[0] == Wait(p);
      var s2 := Do(s1, rest[0]);
      assert s2.pcs == s.pcs[p := Asleep];
      assert IsRun(s2, rest[1..]) && rest[1..] == run[2..];
      AsleepActsNot(s2, p, rest[1..]);
      assert Outcome(s, run) == Outcome(s1, rest) == Outcome(s2, rest[1..]);
    }
  }

  // How many steps a process can take without a try at a free mutex.
  function Left(pc: Pc): int {
    match pc
    case Contending => 0
    case AboutToWake => 2
    case _ => 1
  }

  lemma {:induction false} LeftBound(pcs: seq<Pc>, n: nat)
    requires n <= |pcs|
    ensures Sum(pcs, Left, n) <= 2 * n
  {
    if n > 0 {
      LeftBound(pcs, n - 1);
    }
  }

  // While the mutex is free and nobody tries, every action brings the next try nearer.
  lemma FreeAdvances(s: State, a: Action)
    requires CounterOk(s) && s.counter == 0 && Can(s, a) && !a.Increment?
    ensures Do(s, a).counter == 0 && |Do(s, a).pcs| == |s.pcs|
    ensures Sum(Do(s, a).pcs, Left, |s.pcs|) < Sum(s.pcs, Left, |s.pcs|)
  {
    hide Sum;
    var n := |s.pcs|;
    assert !a.Unlock?;
    if a.Wake? {
      SumUpdate(s.pcs, Left, a.p, Outside, n);
      SumUpdate(s.pcs[a.p := Outside], Left, a.q, Contending, n);
    } else {
      SumUpdate(s.pcs, Left, a.p, Do(s, a).pcs[a.p], n);
    }
  }

  // In the course of a run somebody comes to hold the mutex.
  ghost predicate SomebodyTakes(s: State, run: seq<Action>)
    decreases |run|
  {
    run != [] && Can(s, run[0]) && (Held(Do(s, run[0])) || SomebodyTakes(Do(s, run[0]), run[1..]))
  }

  ghost predicate Held(s: State) {
    exists p :: 0 <= p < |s.pcs| && s.pcs[p].Holding?
  }

  /** A free mutex is taken in every run that is long enough, whatever the processes do: they cannot go on for more
      steps than two for each of them without somebody getting it. */
  lemma {:induction false} FreeIsTaken(s: State, run: seq<Action>)
    requires Inv(s) && s.counter == 0 && IsRun(s, run) && |run| > Sum(s.pcs, Left, |s.pcs|)
    ensures SomebodyTakes(s, run)
    decreases |run|
  {
    SumNotNegative(s.pcs, Left, |s.pcs|);
    hide Sum, Inv;
    var a := run[0];
    DoKeeps(s, a);
    if a.Increment? {
      assert Do(s, a).pcs[a.p].Holding?;
    } else {
      FreeCounter(s);
      FreeAdvances(s, a);
      FreeIsTaken(Do(s, a), run[1..]);
    }
  }

  lemma FreeCounter(s: State)
    requires Inv(s)
    ensures CounterOk(s)
  {
  }

  // Two steps for each process, and one more.
  lemma {:induction false} SoonTaken(s: State, run: seq<Action>)
    requires Inv(s) && s.counter == 0 && IsRun(s, run) && |run| > 2 * |s.pcs|
    ensures SomebodyTakes(s, run)
  {
    LeftBound(s.pcs, |s.pcs|);
    FreeIsTaken(s, run);
  }
}
