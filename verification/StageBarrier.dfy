/** The stages of a restore: the coordinator announces a stage, the participants of the stage count down
    (restore_finish_stage in include/restorer.h, restore_switch_stage in cr-restore.c). */
module StageBarrier {
  import opened Sequences

  const RESTORE_NS := 0
  const RESTORE_CREDS := 4
  const COMPLETE := 5

  // A task, a helper or a thread: who creates it, and the first and the last stage it takes part in.
  datatype Entity = Entity(parent: nat, first: nat, last: nat)

  // Where an entity is: at work in a stage, or through with it and waiting for the next one.
  datatype Pc = Unborn | Working(stage: nat) | Finished(stage: nat) | Gone

  // The coordinator waits for a stage to be finished, or has set the counter for a stage it is about to announce.
  datatype Coordinator = Waiting(stage: nat) | Setting(stage: nat) | Complete

  datatype State = State(counter: int, start: nat, coord: Coordinator, pcs: seq<Pc>)

  predicate TakesPart(e: Entity, stage: nat) {
    e.first <= stage <= e.last
  }

  // The first entity is the root task, which alone takes part in the first stage.
  // The others are created by one that takes part in their first stage: tasks while forking, threads later.
  ghost predicate WellFormed(ents: seq<Entity>) {
    && 0 < |ents| && ents[0].first == RESTORE_NS
    && (forall e :: 0 <= e < |ents| ==> ents[e].first <= ents[e].last <= RESTORE_CREDS)
    && (forall e :: 0 < e < |ents| ==>
          RESTORE_NS < ents[e].first && ents[e].parent < e && TakesPart(ents[ents[e].parent], ents[e].first))
  }

  // How many of the first n entities take part in a stage.
  function Participants(ents: seq<Entity>, stage: nat, n: nat): nat
    requires n <= |ents|
  {
    if n == 0 then 0 else Participants(ents, stage, n - 1) + if TakesPart(ents[n - 1], stage) then 1 else 0
  }

  function Start(ents: seq<Entity>): State
    requires |ents| > 0
  {
    State(Participants(ents, RESTORE_NS, |ents|), RESTORE_NS, Waiting(RESTORE_NS),
          seq(|ents|, e => if e == 0 then Working(RESTORE_NS) else Unborn))
  }

  // What can happen next: an entity is created, finishes its stage or passes on to the next one,
  // or the coordinator sets the counter or announces the stage.
  datatype Action = Spawn(e: nat) | Finish(e: nat) | Pass(e: nat) | SetCounter | Announce

  // All entities that are to be created in this stage by e are there.
  ghost predicate ChildrenBorn(ents: seq<Entity>, pcs: seq<Pc>, e: nat, stage: nat)
    requires |pcs| == |ents|
  {
    forall c :: 0 < c < |ents| && ents[c].parent == e && ents[c].first == stage ==> !pcs[c].Unborn?
  }

  ghost predicate Can(ents: seq<Entity>, s: State, a: Action)
    requires |s.pcs| == |ents|
  {
    match a
    case Spawn(e) =>
      && 0 < e < |ents| && s.pcs[e].Unborn?
      && ents[e].parent < |ents| && s.pcs[ents[e].parent] == Working(ents[e].first)
    case Finish(e) => e < |ents| && s.pcs[e].Working? && ChildrenBorn(ents, s.pcs, e, s.pcs[e].stage)
    case Pass(e) => e < |ents| && s.pcs[e].Finished? && s.start != s.pcs[e].stage
    case SetCounter => s.coord.Waiting? && s.counter <= 0
    case Announce => s.coord.Setting?
  }

  function Do(ents: seq<Entity>, s: State, a: Action): State
    requires |s.pcs| == |ents|
  {
    match a
    case Spawn(e) => if e < |ents| then s.(pcs := s.pcs[e := Working(ents[e].first)]) else s
    case Finish(e) =>
      if e < |ents| && s.pcs[e].Working? then
        s.(counter := s.counter - 1, pcs := s.pcs[e := Finished(s.pcs[e].stage)])
      else s
    case Pass(e) =>
      if e < |ents| && s.pcs[e].Finished? then
        s.(pcs := s.pcs[e := if s.pcs[e].stage < ents[e].last then Working(s.start) else Gone])
      else s
    case SetCounter =>
      if !s.coord.Waiting? then s
      else if s.coord.stage == RESTORE_CREDS then s.(start := COMPLETE, coord := Complete)
      else s.(counter := Participants(ents, s.coord.stage + 1, |ents|), coord := Setting(s.coord.stage + 1))
    case Announce => if s.coord.Setting? then s.(start := s.coord.stage, coord := Waiting(s.coord.stage)) else s
  }

  // The stage that is under way or about to be announced.
  function Stage(s: State): nat {
    if s.coord.Complete? then COMPLETE else s.coord.stage
  }

  // Where an entity can be, in the given stage.
  ghost predicate PcOk(e: Entity, pc: Pc, stage: nat, announced: bool) {
    if e.first > stage then pc.Unborn?
    else if e.last < stage then pc.Gone? || pc == Finished(e.last)
    else
      || (pc.Unborn? && e.first == stage)
      || (e.first < stage && pc == Finished(stage - 1))
      || (announced && (pc == Working(stage) || pc == Finished(stage)))
  }

  // How many of the first n entities have not finished the stage they take part in.
  function Missing(ents: seq<Entity>, pcs: seq<Pc>, stage: nat, n: nat): nat
    requires n <= |ents| && n <= |pcs|
  {
    if n == 0 then 0
    else
      Missing(ents, pcs, stage, n - 1) +
      if TakesPart(ents[n - 1], stage) && pcs[n - 1] != Finished(stage) then 1 else 0
  }

  // An entity is beyond a stage: it has finished it, or is at work in a later one, or gone.
  predicate Beyond(pc: Pc, stage: nat) {
    (pc.Finished? && pc.stage >= stage) || (pc.Working? && pc.stage > stage) || pc.Gone?
  }

  // Who is beyond a stage has created all it had to create in it.
  ghost predicate BornBy(ents: seq<Entity>, pcs: seq<Pc>, c: nat)
    requires c < |ents| == |pcs|
  {
    ents[c].parent < |ents| && pcs[c].Unborn? ==> !Beyond(pcs[ents[c].parent], ents[c].first)
  }

  ghost predicate Inv(ents: seq<Entity>, s: State) {
    && 0 < |s.pcs| == |ents| && !s.pcs[0].Unborn?
    && Stage(s) <= COMPLETE && (s.coord.Complete? || Stage(s) < COMPLETE)
    && s.start == (if s.coord.Setting? then Stage(s) - 1 else Stage(s))
    && (forall e :: 0 <= e < |ents| ==> PcOk(ents[e], s.pcs[e], Stage(s), !s.coord.Setting?))
    && (forall c :: 0 < c < |ents| ==> BornBy(ents, s.pcs, c))
    && (!s.coord.Complete? ==> s.counter == Missing(ents, s.pcs, Stage(s), |ents|))
  }

  lemma {:induction false} MissingUpdate(ents: seq<Entity>, pcs: seq<Pc>, stage: nat, e: nat, pc: Pc, n: nat)
    requires n <= |ents| == |pcs| && e < |pcs|
    ensures Missing(ents, pcs[e := pc], stage, n) == Missing(ents, pcs, stage, n) +
      (if e < n && TakesPart(ents[e], stage) then
         (if pcs[e] == Finished(stage) then 1 else 0) - (if pc == Finished(stage) then 1 else 0)
       else 0)
  {
    if n > 0 {
      MissingUpdate(ents, pcs, stage, e, pc, n - 1);
    }
  }

  // When the counter is down to zero every participant has finished.
  lemma {:induction false} NoneMissing(ents: seq<Entity>, pcs: seq<Pc>, stage: nat, n: nat, e: nat)
    requires n <= |ents| == |pcs| && e < n && Missing(ents, pcs, stage, n) == 0
    ensures TakesPart(ents[e], stage) ==> pcs[e] == Finished(stage)
  {
    if e < n - 1 {
      NoneMissing(ents, pcs, stage, n - 1, e);
    }
  }

  // Before a stage is announced all of its participants are missing.
  lemma {:induction false} AllMissing(ents: seq<Entity>, pcs: seq<Pc>, stage: nat, n: nat)
    requires n <= |ents| == |pcs|
    requires forall e :: 0 <= e < n && TakesPart(ents[e], stage) ==> pcs[e] != Finished(stage)
    ensures Missing(ents, pcs, stage, n) == Participants(ents, stage, n)
  {
    if n > 0 {
      AllMissing(ents, pcs, stage, n - 1);
    }
  }

  lemma StartIsOk(ents: seq<Entity>)
    requires WellFormed(ents)
    ensures Inv(ents, Start(ents))
  {
    var s := Start(ents);
    AllMissing(ents, s.pcs, RESTORE_NS, |ents|);
  }

  // What the creators have done holds after entity e has moved on.
  lemma BornKept(ents: seq<Entity>, pcs: seq<Pc>, e: nat, pc: Pc, now: seq<Pc>)
    requires WellFormed(ents) && e < |ents| == |pcs| && !pc.Unborn? && now == pcs[e := pc]
    requires forall c :: 0 < c < |ents| ==> BornBy(ents, pcs, c)
    requires forall c :: 0 < c < |ents| && ents[c].parent == e && pcs[c].Unborn? ==> !Beyond(pc, ents[c].first)
    ensures forall c :: 0 < c < |ents| ==> BornBy(ents, now, c)
  {
    hide Beyond;
    forall c | 0 < c < |ents| ensures BornBy(ents, now, c) {
      assert BornBy(ents, pcs, c);
    }
  }

  lemma SpawnKeeps(ents: seq<Entity>, s: State, e: nat)
    requires WellFormed(ents) && Inv(ents, s) && Can(ents, s, Spawn(e))
    ensures Inv(ents, Do(ents, s, Spawn(e)))
  {
    hide Missing, Participants, BornBy;
    assert PcOk(ents[ents[e].parent], s.pcs[ents[e].parent], Stage(s), !s.coord.Setting?);
    assert PcOk(ents[e], s.pcs[e], Stage(s), !s.coord.Setting?);
    MissingUpdate(ents, s.pcs, Stage(s), e, Working(ents[e].first), |ents|);
    BornKept(ents, s.pcs, e, Working(ents[e].first), s.pcs[e := Working(ents[e].first)]);
  }

  lemma FinishKeeps(ents: seq<Entity>, s: State, e: nat)
    requires WellFormed(ents) && Inv(ents, s) && Can(ents, s, Finish(e))
    ensures Inv(ents, Do(ents, s, Finish(e)))
  {
    hide Missing, Participants;
    assert PcOk(ents[e], s.pcs[e], Stage(s), !s.coord.Setting?);
    var pc := Finished(s.pcs[e].stage);
    MissingUpdate(ents, s.pcs, Stage(s), e, pc, |ents|);
    forall c | 0 < c < |ents| && ents[c].parent == e && s.pcs[c].Unborn? ensures !Beyond(pc, ents[c].first) {
      assert BornBy(ents, s.pcs, c);
    }
    hide BornBy;
    BornKept(ents, s.pcs, e, pc, s.pcs[e := pc]);
  }

  lemma PassKeeps(ents: seq<Entity>, s: State, e: nat)
    requires WellFormed(ents) && Inv(ents, s) && Can(ents, s, Pass(e))
    ensures Inv(ents, Do(ents, s, Pass(e)))
  {
    hide Missing, Participants;
    assert PcOk(ents[e], s.pcs[e], Stage(s), !s.coord.Setting?);
    var pc := if s.pcs[e].stage < ents[e].last then Working(s.start) else Gone;
    MissingUpdate(ents, s.pcs, Stage(s), e, pc, |ents|);
    forall c | 0 < c < |ents| && ents[c].parent == e && s.pcs[c].Unborn? ensures !Beyond(pc, ents[c].first) {
      assert BornBy(ents, s.pcs, c);
    }
    hide BornBy;
    BornKept(ents, s.pcs, e, pc, s.pcs[e := pc]);
  }

  lemma SetCounterKeeps(ents: seq<Entity>, s: State)
    requires WellFormed(ents) && Inv(ents, s) && Can(ents, s, SetCounter)
    ensures Inv(ents, Do(ents, s, SetCounter))
  {
    hide Missing, Participants;
    forall e | 0 <= e < |ents| ensures TakesPart(ents[e], Stage(s)) ==> s.pcs[e] == Finished(Stage(s)) {
      NoneMissing(ents, s.pcs, Stage(s), |ents|, e);
    }
    AllMissing(ents, s.pcs, Stage(s) + 1, |ents|);
  }

  lemma AnnounceKeeps(ents: seq<Entity>, s: State)
    requires WellFormed(ents) && Inv(ents, s) && Can(ents, s, Announce)
    ensures Inv(ents, Do(ents, s, Announce))
  {
    hide Missing, Participants;
  }

  lemma DoKeeps(ents: seq<Entity>, s: State, a: Action)
    requires WellFormed(ents) && Inv(ents, s) && Can(ents, s, a)
    ensures Inv(ents, Do(ents, s, a))
  {
    match a
    case Spawn(e) => SpawnKeeps(ents, s, e);
    case Finish(e) => FinishKeeps(ents, s, e);
    case Pass(e) => PassKeeps(ents, s, e);
    case SetCounter => SetCounterKeeps(ents, s);
    case Announce => AnnounceKeeps(ents, s);
  }

  // The coordinator goes on to the next stage only when all participants have finished this one.
  lemma AllFinished(ents: seq<Entity>, s: State, e: nat)
    requires WellFormed(ents) && Inv(ents, s) && Can(ents, s, SetCounter)
    requires e < |ents| && TakesPart(ents[e], s.start)
    ensures s.pcs[e] == Finished(s.start)
  {
    NoneMissing(ents, s.pcs, Stage(s), |ents|, e);
  }

  // An entity has passed the end of a stage.
  predicate Passed(pc: Pc, stage: nat) {
    ((pc.Finished? || pc.Working?) && pc.stage > stage) || pc.Gone?
  }

  // No entity passes the end of a stage, and no later stage is announced, before every participant has finished it.
  lemma Barrier(ents: seq<Entity>, s: State, stage: nat, e: nat, p: nat)
    requires WellFormed(ents) && Inv(ents, s)
    requires e < |ents| && p < |ents| && TakesPart(ents[e], stage) && TakesPart(ents[p], stage)
    ensures s.start > stage || Passed(s.pcs[e], stage) ==> Beyond(s.pcs[p], stage)
  {
    hide Missing, BornBy;
    assert PcOk(ents[e], s.pcs[e], Stage(s), !s.coord.Setting?);
    assert PcOk(ents[p], s.pcs[p], Stage(s), !s.coord.Setting?);
  }

  // All is over: the last stage is complete and every entity has gone on.
  ghost predicate Over(s: State) {
    s.coord.Complete? && forall e :: 0 <= e < |s.pcs| ==> s.pcs[e].Gone?
  }

  // An entity that has not finished the stage can go on, or one that is to create it can.
  lemma {:induction false} EntityMoves(ents: seq<Entity>, s: State, e: nat) returns (a: Action)
    requires WellFormed(ents) && Inv(ents, s) && s.coord.Waiting?
    requires e < |ents| && TakesPart(ents[e], Stage(s)) && s.pcs[e] != Finished(Stage(s))
    ensures Can(ents, s, a)
    decreases e
  {
    hide Missing;
    assert PcOk(ents[e], s.pcs[e], Stage(s), true);
    match s.pcs[e]
    case Unborn =>
      var p := ents[e].parent;
      assert BornBy(ents, s.pcs, e);
      assert PcOk(ents[p], s.pcs[p], Stage(s), true);
      if s.pcs[p] == Working(Stage(s)) {
        a := Spawn(e);
      } else {
        a := EntityMoves(ents, s, p);
      }
    case Working(stage) =>
      if ChildrenBorn(ents, s.pcs, e, stage) {
        a := Finish(e);
      } else {
        var c :| 0 < c < |ents| && ents[c].parent == e && ents[c].first == stage && s.pcs[c].Unborn?;
        a := Spawn(c);
      }
    case Finished(_) =>
      a := Pass(e);
  }

  lemma {:induction false} SomeMissing(ents: seq<Entity>, pcs: seq<Pc>, stage: nat, n: nat) returns (e: nat)
    requires n <= |ents| == |pcs| && Missing(ents, pcs, stage, n) > 0
    ensures e < n && TakesPart(ents[e], stage) && pcs[e] != Finished(stage)
  {
    if TakesPart(ents[n - 1], stage) && pcs[n - 1] != Finished(stage) {
      e := n - 1;
    } else {
      e := SomeMissing(ents, pcs, stage, n - 1);
    }
  }

  // Until all is over something can happen.
  lemma NoDeadlock(ents: seq<Entity>, s: State) returns (a: Action)
    requires WellFormed(ents) && Inv(ents, s) && !Over(s)
    ensures Can(ents, s, a)
  {
    hide Missing, BornBy;
    if s.coord.Setting? {
      a := Announce;
    } else if s.coord.Complete? {
      var e :| 0 <= e < |ents| && !s.pcs[e].Gone?;
      assert PcOk(ents[e], s.pcs[e], Stage(s), true);
      a := Pass(e);
    } else if s.counter <= 0 {
      a := SetCounter;
    } else {
      var e := SomeMissing(ents, s.pcs, Stage(s), |ents|);
      a := EntityMoves(ents, s, e);
    }
  }

  // How much an entity and the coordinator still have to do.

  function Left(pc: Pc): int {
    match pc
    case Unborn => 2 * COMPLETE + 2
    case Working(stage) => 2 * (COMPLETE - stage) + 1
    case Finished(stage) => 2 * (COMPLETE - stage)
    case Gone => 0
  }

  function CoordLeft(c: Coordinator): int {
    match c
    case Setting(stage) => 2 * (COMPLETE - stage) + 1
    case Waiting(stage) => 2 * (COMPLETE - stage)
    case Complete => 0
  }

  function Rank(s: State): int {
    Sum(s.pcs, Left, |s.pcs|) + CoordLeft(s.coord)
  }

  lemma DoAdvances(ents: seq<Entity>, s: State, a: Action)
    requires WellFormed(ents) && Inv(ents, s) && Can(ents, s, a)
    ensures Rank(Do(ents, s, a)) < Rank(s)
  {
    hide Missing, BornBy, Sum, Participants;
    if a.Spawn? || a.Finish? || a.Pass? {
      assert PcOk(ents[a.e], s.pcs[a.e], Stage(s), !s.coord.Setting?);
      SumUpdate(s.pcs, Left, a.e, Do(ents, s, a).pcs[a.e], |s.pcs|);
    }
  }

  lemma RankNotNegative(ents: seq<Entity>, s: State)
    requires WellFormed(ents) && Inv(ents, s)
    ensures Rank(s) >= 0
  {
    hide Missing, BornBy, Sum;
    forall e | 0 <= e < |s.pcs| ensures Left(s.pcs[e]) >= 0 {
      assert PcOk(ents[e], s.pcs[e], Stage(s), !s.coord.Setting?);
    }
    SumNotNegative(s.pcs, Left, |s.pcs|);
  }

  // A run: what happens, one after the other.
  ghost predicate IsRun(ents: seq<Entity>, s: State, run: seq<Action>)
    decreases |run|
  {
    |s.pcs| == |ents| && (run == [] || (Can(ents, s, run[0]) && IsRun(ents, Do(ents, s, run[0]), run[1..])))
  }

  function Outcome(ents: seq<Entity>, s: State, run: seq<Action>): State
    decreases |run|
  {
    if run == [] || |s.pcs| != |ents| then s else Outcome(ents, Do(ents, s, run[0]), run[1..])
  }

  // Whatever the interleaving, a run keeps the barrier, does not go on for ever, and where it can go no further
  // all is over.
  lemma {:induction false} EveryRun(ents: seq<Entity>, s: State, run: seq<Action>)
    requires WellFormed(ents) && Inv(ents, s) && IsRun(ents, s, run)
    ensures Inv(ents, Outcome(ents, s, run)) && |run| <= Rank(s)
    ensures (forall a :: !Can(ents, Outcome(ents, s, run), a)) ==> Over(Outcome(ents, s, run))
    decreases |run|
  {
    hide Inv, Can, Rank, Do, WellFormed;
    if run == [] {
      RankNotNegative(ents, s);
      if !Over(s) {
        var a := NoDeadlock(ents, s);
      }
    } else {
      DoKeeps(ents, s, run[0]);
      DoAdvances(ents, s, run[0]);
      EveryRun(ents, Do(ents, s, run[0]), run[1..]);
    }
  }
}
