/** Moving the private areas of a task from where they were filled to where they belong (pie/restorer.c). */
module Restorer {
  import opened Options
  import opened PageImages
  import opened Areas
  import opened Restore

  // mremap: the pages of a range go to another, in place of whatever was there.
  function Moved(m: Memory, src: nat, dst: nat, n: nat): Memory {
    (x: nat) =>
      if dst <= x < dst + n then m(src + (x - dst))
      else if src <= x < src + n then None
      else m(x)
  }

  ghost predicate Same(m: Memory, m': Memory) {
    forall x: nat :: m'(x) == m(x)
  }

  ghost predicate IsMapped(m: Memory, a: nat, n: nat) {
    forall x: nat :: a <= x < a + n ==> m(x).Some?
  }

  predicate IsFree(m: Memory, a: nat, n: nat) {
    forall x: nat :: a <= x < a + n ==> m(x).None?
  }

  ghost predicate NothingFrom(m: Memory, top: nat) {
    forall x: nat :: x >= top ==> m(x).None?
  }

  // mmap of so many pages anywhere: a free place. There always is one, here above all others; it fails only if
  // calls may fail.
  method MapAnywhere(m: Memory, n: nat, top: nat, flaky: bool) returns (at: int)
    ensures at == -1 ==> flaky || !NothingFrom(m, top)
    ensures at != -1 ==> at >= 0 && IsFree(m, at, n)
  {
    at := *;
    if at >= 0 && IsFree(m, at, n) {
      return;
    }
    at := if flaky || !IsFree(m, top, n) then -1 else top;
  }

  // The page that keeps the kernel from choosing the target itself, if source and target overlap.
  function Guard(src: nat, dst: nat, n: nat): Option<nat> {
    if dst <= src < dst + n then Some(dst)
    else if src <= dst < src + n then Some(dst + n - 1)
    else None
  }

  // A free place as large as the target that contains neither the guard page nor a page of the source
  // does not reach into the target.
  lemma ApartFromTarget(m: Memory, src: nat, dst: nat, n: nat, at: nat, x: nat)
    requires src != dst && Guard(src, dst, n).Some? && IsMapped(m, src, n)
    requires IsFree(WithPage(m, Guard(src, dst, n).value, ZeroPage()), at, n)
    requires at <= x < at + n
    ensures !(dst <= x < dst + n) && !(src <= x < src + n) && m(x).None?
  {
    var g := Guard(src, dst, n).value;
    var m' := WithPage(m, g, ZeroPage());
    assert m'(x).None? && m'(g).Some?;
    assert at <= src < at + n ==> m'(src).None?;
    assert at < src + n <= at + n ==> m'(src + n - 1).None?;
  }

  // Moving by way of another place comes to the same.
  lemma MovedTwice(m: Memory, src: nat, dst: nat, n: nat, at: nat)
    requires src != dst && Guard(src, dst, n).Some? && IsMapped(m, src, n)
    requires IsFree(WithPage(m, Guard(src, dst, n).value, ZeroPage()), at, n)
    ensures var m' := WithPage(m, Guard(src, dst, n).value, ZeroPage());
            Same(Moved(m, src, dst, n), Moved(Moved(m', src, at, n), at, dst, n))
  {
    hide Guard, WithPage, IsFree, IsMapped, ZeroPage, Moved;
    var m' := WithPage(m, Guard(src, dst, n).value, ZeroPage());
    GuardNotInSource(src, dst, n);
    forall x: nat ensures Moved(Moved(m', src, at, n), at, dst, n)(x) == Moved(m, src, dst, n)(x) {
      if dst <= x < dst + n {
        MovedThere(m, m', Guard(src, dst, n).value, src, dst, n, at, x);
      } else {
        if at <= x < at + n {
          ApartFromTarget(m, src, dst, n, at, x);
        }
        MovedElsewhere(m, Guard(src, dst, n).value, src, dst, n, at, x);
      }
    }
  }

  lemma MovedThere(m: Memory, m': Memory, g: nat, src: nat, dst: nat, n: nat, at: nat, x: nat)
    requires m' == WithPage(m, g, ZeroPage()) && !(src <= g < src + n) && dst <= x < dst + n
    ensures Moved(Moved(m', src, at, n), at, dst, n)(x) == Moved(m, src, dst, n)(x)
  {
    hide ZeroPage;
    var y := at + (x - dst);
    assert Moved(m', src, at, n)(y) == m'(src + (x - dst));
  }

  lemma MovedElsewhere(m: Memory, g: nat, src: nat, dst: nat, n: nat, at: nat, x: nat)
    requires dst <= g < dst + n && !(dst <= x < dst + n)
    requires at <= x < at + n ==> !(src <= x < src + n) && m(x).None?
    ensures Moved(Moved(WithPage(m, g, ZeroPage()), src, at, n), at, dst, n)(x) == Moved(m, src, dst, n)(x)
  {
    hide ZeroPage;
  }

  lemma GuardNotInSource(src: nat, dst: nat, n: nat)
    requires src != dst && Guard(src, dst, n).Some?
    ensures var g := Guard(src, dst, n).value; dst <= g < dst + n && !(src <= g < src + n)
  {
  }

  /** Moves a range of pages, by way of another place if source and target overlap. It fails only if a call does,
      or if the guard page is taken. */
  method VmaRemap(m: Memory, src: nat, dst: nat, n: nat, top: nat, flaky: bool) returns (ret: int, m': Memory)
    ensures ret == 0 || ret == -1
    ensures src == dst ==> ret == 0 && m' == m
    ensures ret == 0 && IsMapped(m, src, n) ==> Same(Moved(m, src, dst, n), m')
    ensures ret == -1 && dst + n <= top && NothingFrom(m, top) ==>
              flaky || (src != dst && Guard(src, dst, n).Some? && m(Guard(src, dst, n).value).Some?)
  {
    hide ZeroPage;
    m' := m;
    var guard := Guard(src, dst, n);
    if src == dst {
      return 0, m;
    }
    var from := src;
    if guard.Some? {
      if m(guard.value).Some? {
        return -1, m;
      }
      m' := WithPage(m, guard.value, ZeroPage());
      var at := MapAnywhere(m', n, top, flaky);
      if at == -1 {
        return -1, m';
      }
      if IsMapped(m, src, n) {
        MovedTwice(m, src, dst, n, at);
      }
      m' := Moved(m', src, at, n);
      from := at;
    }
    var failed: bool := *;
    if flaky && failed {
      return -1, m';
    }
    m' := Moved(m', from, dst, n);
    return 0, m';
  }

  function Len(a: Area): nat {
    if a.start <= a.end then a.end - a.start else 0
  }

  // An area is still where it was filled,
  ghost predicate Waits(m0: Memory, m: Memory, a: Area) {
    forall x: nat :: a.premapped <= x < a.premapped + Len(a) ==> m(x) == m0(x)
  }

  // ... or it is where it belongs.
  ghost predicate InPlace(m0: Memory, m: Memory, a: Area) {
    forall va: nat :: a.Holds(va) ==> m(va) == m0(a.premapped + (va - a.start))
  }

  // Two ranges have no page in common.
  predicate Apart(a: nat, n: nat, b: nat, k: nat) {
    a + n <= b || b + k <= a
  }

  // What the kernel gives and the image has: areas in order below the end of the address space, filled at places
  // of their own below that end too.
  ghost predicate CanShift(areas: seq<Area>, m0: Memory) {
    && AreasOk(areas) && PlacesApart(areas) && NothingFrom(m0, TASK_PAGES)
    && forall i :: 0 <= i < |areas| && areas[i].priv ==>
         && areas[i].start <= areas[i].end <= TASK_PAGES && areas[i].premapped + Len(areas[i]) <= TASK_PAGES
         && IsMapped(m0, areas[i].premapped, Len(areas[i]))
  }

  // How far the areas are; pend has those that wait.
  ghost predicate Shifted(areas: seq<Area>, m0: Memory, m: Memory, pend: set<nat>) {
    && (forall j: nat :: j < |areas| && areas[j].priv ==>
          if j in pend then Waits(m0, m, areas[j]) else InPlace(m0, m, areas[j]))
    && NothingFrom(m, TASK_PAGES)
  }

  // An area can be moved without getting in the way of another.
  ghost predicate Clear(areas: seq<Area>, pend: set<nat>, i: nat) {
    && i < |areas|
    && forall j: nat :: j < |areas| && areas[j].priv && j != i ==>
         var a := if j in pend then areas[j].premapped else areas[j].start;
         && Apart(a, Len(areas[j]), areas[i].premapped, Len(areas[i]))
         && Apart(a, Len(areas[j]), areas[i].start, Len(areas[i]))
  }

  lemma WaitsOn(m0: Memory, m: Memory, m': Memory, a: Area, src: nat, dst: nat, n: nat)
    requires Waits(m0, m, a) && Same(Moved(m, src, dst, n), m')
    requires Apart(a.premapped, Len(a), src, n) && Apart(a.premapped, Len(a), dst, n)
    ensures Waits(m0, m', a)
  {
  }

  lemma StaysInPlace(m0: Memory, m: Memory, m': Memory, a: Area, src: nat, dst: nat, n: nat)
    requires InPlace(m0, m, a) && Same(Moved(m, src, dst, n), m')
    requires Apart(a.start, Len(a), src, n) && Apart(a.start, Len(a), dst, n)
    ensures InPlace(m0, m', a)
  {
  }

  lemma GetsInPlace(m0: Memory, m: Memory, m': Memory, a: Area)
    requires Waits(m0, m, a) && Same(Moved(m, a.premapped, a.start, Len(a)), m')
    ensures InPlace(m0, m', a)
  {
  }

  // One area is moved.
  lemma MoveOne(areas: seq<Area>, m0: Memory, m: Memory, m': Memory, pend: set<nat>, i: nat)
    requires Shifted(areas, m0, m, pend) && Clear(areas, pend, i) && i in pend && areas[i].priv
    requires areas[i].start <= areas[i].end <= TASK_PAGES
    requires Same(Moved(m, areas[i].premapped, areas[i].start, Len(areas[i])), m')
    ensures Shifted(areas, m0, m', pend - {i})
  {
    hide Waits, InPlace, Same, Apart;
    var src, dst, n := areas[i].premapped, areas[i].start, Len(areas[i]);
    forall j: nat | j < |areas| && areas[j].priv
      ensures if j in pend - {i} then Waits(m0, m', areas[j]) else InPlace(m0, m', areas[j])
    {
      if j == i {
        GetsInPlace(m0, m, m', areas[i]);
      } else if j in pend {
        WaitsOn(m0, m, m', areas[j], src, dst, n);
      } else {
        StaysInPlace(m0, m, m', areas[j], src, dst, n);
      }
    }
    NothingAbove(m, m', src, dst, n);
  }

  lemma NothingAbove(m: Memory, m': Memory, src: nat, dst: nat, n: nat)
    requires NothingFrom(m, TASK_PAGES) && Same(Moved(m, src, dst, n), m') && dst + n <= TASK_PAGES
    ensures NothingFrom(m', TASK_PAGES)
  {
  }

  // The areas that were moved left are those before the first that goes right.
  ghost predicate LeftDone(areas: seq<Area>, pend: set<nat>, b: nat) {
    && b <= |areas|
    && (forall j: nat :: j < |areas| && areas[j].priv ==> (j in pend <==> j >= b || areas[j].end >= TASK_PAGES))
    && (forall j: nat :: j < b && areas[j].priv && areas[j].end < TASK_PAGES ==> areas[j].start <= areas[j].premapped)
  }

  // Going left in ascending order no area gets in the way of another.
  lemma ClearToTheLeft(areas: seq<Area>, m0: Memory, pend: set<nat>, i: nat)
    requires CanShift(areas, m0) && LeftDone(areas, pend, i) && i < |areas| && areas[i].priv
    requires areas[i].end < TASK_PAGES && areas[i].start <= areas[i].premapped
    ensures Clear(areas, pend, i)
  {
    forall j: nat | j < |areas| && areas[j].priv && j != i
      ensures var a := if j in pend then areas[j].premapped else areas[j].start;
              && Apart(a, Len(areas[j]), areas[i].premapped, Len(areas[i]))
              && Apart(a, Len(areas[j]), areas[i].start, Len(areas[i]))
    {
      assert j < i ==> areas[j].end <= areas[i].start;
      assert i < j ==> areas[i].premapped + (areas[i].end - areas[i].start) <= areas[j].premapped;
    }
  }

  // The state in the second pass: those from b up to i are yet to go right, with one that ends at the very end.
  ghost predicate RightDone(areas: seq<Area>, pend: set<nat>, b: nat, i: int) {
    && b <= |areas| && -1 <= i < |areas|
    && (forall j: nat :: j < |areas| && areas[j].priv ==>
          (j in pend <==> j <= i && (j >= b || areas[j].end >= TASK_PAGES)))
    && (forall j: nat :: i < j < |areas| && areas[j].priv ==> areas[j].premapped <= areas[j].start)
    && (forall j: nat :: j < b && areas[j].priv && areas[j].end < TASK_PAGES ==> areas[j].start <= areas[j].premapped)
  }

  lemma ClearToTheRight(areas: seq<Area>, m0: Memory, pend: set<nat>, b: nat, i: nat)
    requires CanShift(areas, m0) && RightDone(areas, pend, b, i) && i in pend && areas[i].priv
    requires areas[i].start >= areas[i].premapped
    ensures Clear(areas, pend, i)
  {
    forall j: nat | j < |areas| && areas[j].priv && j != i
      ensures var a := if j in pend then areas[j].premapped else areas[j].start;
              && Apart(a, Len(areas[j]), areas[i].premapped, Len(areas[i]))
              && Apart(a, Len(areas[j]), areas[i].start, Len(areas[i]))
    {
      assert i < j ==> areas[i].end <= areas[j].start;
      assert j < i ==> areas[j].premapped + (areas[j].end - areas[j].start) <= areas[i].premapped;
    }
  }

  // A page that was mapped and belongs to no private area.
  ghost predicate Extra(areas: seq<Area>, m0: Memory, x: nat) {
    m0(x).Some? && forall j: nat :: j < |areas| && areas[j].priv ==>
      !(areas[j].premapped <= x < areas[j].premapped + Len(areas[j]))
  }

  // Nothing is mapped but the private areas, at the one place or the other, and such pages.
  ghost predicate Nothing(areas: seq<Area>, m0: Memory, m: Memory, pend: set<nat>) {
    forall x: nat :: m(x).Some? ==> Extra(areas, m0, x) || exists j: nat :: HasIt(areas, pend, j, x)
  }

  ghost predicate HasIt(areas: seq<Area>, pend: set<nat>, j: nat, x: nat) {
    && j < |areas| && areas[j].priv
    && var a := if j in pend then areas[j].premapped else areas[j].start; a <= x < a + Len(areas[j])
  }

  // Such a page is at the beginning or the end of where an area belongs.
  ghost predicate InWay(areas: seq<Area>, m0: Memory) {
    exists i: nat, x: nat :: i < |areas| && areas[i].priv && Extra(areas, m0, x)
      && (x == areas[i].start || x + 1 == areas[i].end)
  }

  lemma NothingElse(areas: seq<Area>, m0: Memory, m: Memory, m': Memory, pend: set<nat>, i: nat)
    requires Nothing(areas, m0, m, pend) && i in pend && i < |areas| && areas[i].priv
    requires Same(Moved(m, areas[i].premapped, areas[i].start, Len(areas[i])), m')
    ensures Nothing(areas, m0, m', pend - {i})
  {
    forall x: nat | m'(x).Some? && !Extra(areas, m0, x) ensures exists j: nat :: HasIt(areas, pend - {i}, j, x) {
      if areas[i].start <= x < areas[i].start + Len(areas[i]) {
        assert HasIt(areas, pend - {i}, i, x);
      } else {
        assert m(x).Some?;
        var j: nat :| HasIt(areas, pend, j, x);
        assert HasIt(areas, pend - {i}, j, x);
      }
    }
  }

  lemma GuardTaken(areas: seq<Area>, m0: Memory, m: Memory, pend: set<nat>, i: nat)
    requires Nothing(areas, m0, m, pend) && Clear(areas, pend, i) && i in pend && areas[i].priv
    requires areas[i].premapped != areas[i].start
    requires var g := Guard(areas[i].premapped, areas[i].start, Len(areas[i])); g.Some? && m(g.value).Some?
    ensures InWay(areas, m0)
  {
    var src, dst, n := areas[i].premapped, areas[i].start, Len(areas[i]);
    var g := Guard(src, dst, n).value;
    GuardNotInSource(src, dst, n);
    forall j: nat ensures !HasIt(areas, pend, j, g) {
    }
    assert Extra(areas, m0, g);
  }

  // All there is to know between two moves.
  ghost predicate Between(areas: seq<Area>, m0: Memory, m: Memory, pend: set<nat>) {
    Shifted(areas, m0, m, pend) && Nothing(areas, m0, m, pend)
  }

  lemma AtStart(areas: seq<Area>, m0: Memory, pend: set<nat>)
    requires CanShift(areas, m0) && forall j: nat :: j < |areas| ==> j in pend
    ensures Between(areas, m0, m0, pend)
  {
    forall x: nat | m0(x).Some? && !Extra(areas, m0, x) ensures exists j: nat :: HasIt(areas, pend, j, x) {
      var j: nat :| j < |areas| && areas[j].priv && areas[j].premapped <= x < areas[j].premapped + Len(areas[j]);
      assert HasIt(areas, pend, j, x);
    }
  }

  lemma BeforeMove(areas: seq<Area>, m0: Memory, m: Memory, pend: set<nat>, i: nat)
    requires CanShift(areas, m0) && Between(areas, m0, m, pend) && i < |areas| && areas[i].priv
    ensures NothingFrom(m, TASK_PAGES) && areas[i].start + Len(areas[i]) <= TASK_PAGES
    ensures areas[i].start <= areas[i].end <= TASK_PAGES
    ensures i in pend ==> IsMapped(m, areas[i].premapped, Len(areas[i]))
  {
    assert i in pend ==> Waits(m0, m, areas[i]);
  }

  // An area that was filled where it belongs need not move.
  lemma SamePlace(areas: seq<Area>, m0: Memory, m: Memory, pend: set<nat>, i: nat)
    requires Between(areas, m0, m, pend) && i < |areas| && areas[i].priv && areas[i].start == areas[i].premapped
    ensures Between(areas, m0, m, pend - {i})
  {
    if i in pend {
      assert Waits(m0, m, areas[i]);
      assert InPlace(m0, m, areas[i]);
    }
    forall x: nat | m(x).Some? && !Extra(areas, m0, x) ensures exists j: nat :: HasIt(areas, pend - {i}, j, x) {
      var j: nat :| HasIt(areas, pend, j, x);
      assert HasIt(areas, pend - {i}, j, x);
    }
  }

  // Moves one area.
  method MoveArea(areas: seq<Area>, ghost m0: Memory, m: Memory, ghost pend: set<nat>, i: nat, flaky: bool)
    returns (ret: int, m': Memory)
    requires i < |areas| && areas[i].priv
    requires CanShift(areas, m0) ==> Between(areas, m0, m, pend)
    requires CanShift(areas, m0) && areas[i].start != areas[i].premapped ==> i in pend && Clear(areas, pend, i)
    ensures ret == 0 || ret == -1
    ensures CanShift(areas, m0) && ret == -1 ==> flaky || InWay(areas, m0)
    ensures CanShift(areas, m0) && ret == 0 ==> Between(areas, m0, m', pend - {i})
  {
    hide Shifted, Nothing, Clear, InWay, Same, Guard, IsMapped, NothingFrom, CanShift;
    ghost var a := areas[i];
    ret, m' := VmaRemap(m, areas[i].premapped, areas[i].start, Len(areas[i]), TASK_PAGES, flaky);
    if CanShift(areas, m0) {
      BeforeMove(areas, m0, m, pend, i);
      if a.start == a.premapped {
        SamePlace(areas, m0, m, pend, i);
      } else if ret == 0 {
        MoveOne(areas, m0, m, m', pend, i);
        NothingElse(areas, m0, m, m', pend, i);
      } else if !flaky {
        GuardTaken(areas, m0, m, pend, i);
      }
    }
  }

  ghost function UpTo(n: nat): (r: set<nat>)
    ensures forall j: nat :: j in r <==> j < n
  {
    if n == 0 then {} else UpTo(n - 1) + {n - 1}
  }

  /** The first pass, in ascending order: areas go left, up to the first one that has to go right. */
  method ShiftLeft(areas: seq<Area>, m0: Memory, flaky: bool)
    returns (ret: int, m: Memory, b: nat, ghost pend: set<nat>)
    ensures ret == 0 || ret == -1
    ensures CanShift(areas, m0) && ret == -1 ==> flaky || InWay(areas, m0)
    ensures ret == 0 ==> LeftDone(areas, pend, b)
    ensures ret == 0 && b < |areas| ==> areas[b].priv && areas[b].start > areas[b].premapped
    ensures CanShift(areas, m0) && ret == 0 ==> Between(areas, m0, m, pend)
  {
    hide CanShift, Between, InWay, Clear;
    m, b := m0, 0;
    pend := UpTo(|areas|);
    if CanShift(areas, m0) {
      AtStart(areas, m0, pend);
    }
    while b < |areas|
      invariant LeftDone(areas, pend, b)
      invariant CanShift(areas, m0) ==> Between(areas, m0, m, pend)
    {
      if !areas[b].priv {
        b := b + 1;
        continue;
      }
      if areas[b].end >= TASK_PAGES {
        b := b + 1;
        continue;
      }
      if areas[b].start > areas[b].premapped {
        break;
      }
      if CanShift(areas, m0) {
        ClearToTheLeft(areas, m0, pend, b);
      }
      ret, m := MoveArea(areas, m0, m, pend, b, flaky);
      if ret != 0 {
        return;
      }
      pend := pend - {b};
      b := b + 1;
    }
    ret := 0;
  }

  /** The second pass, in descending order: areas go right, down to the first one that had to go left. */
  method ShiftRight(areas: seq<Area>, ghost m0: Memory, m1: Memory, ghost b: nat, ghost pend0: set<nat>, flaky: bool)
    returns (ret: int, m: Memory, i: int, ghost pend: set<nat>)
    requires LeftDone(areas, pend0, b) && (CanShift(areas, m0) ==> Between(areas, m0, m1, pend0))
    ensures ret == 0 || ret == -1
    ensures CanShift(areas, m0) && ret == -1 ==> flaky || InWay(areas, m0)
    ensures CanShift(areas, m0) && ret == 0 ==> RightDone(areas, pend, b, i) && Between(areas, m0, m, pend)
    ensures CanShift(areas, m0) && ret == 0 && i >= 0 ==> areas[i].priv && areas[i].start < areas[i].premapped
  {
    hide CanShift, Between, InWay, Clear;
    m, pend := m1, pend0;
    i := |areas| - 1;
    while i >= 0
      invariant -1 <= i < |areas|
      invariant CanShift(areas, m0) ==> RightDone(areas, pend, b, i) && Between(areas, m0, m, pend)
    {
      if !areas[i].priv {
        i := i - 1;
        continue;
      }
      if CanShift(areas, m0) {
        Bounded(areas, m0, i);
      }
      if areas[i].start > TASK_PAGES {
        i := i - 1;
        continue;
      }
      if areas[i].start < areas[i].premapped {
        break;
      }
      if CanShift(areas, m0) && areas[i].start != areas[i].premapped {
        ClearToTheRight(areas, m0, pend, b, i);
      }
      ret, m := MoveArea(areas, m0, m, pend, i, flaky);
      if ret != 0 {
        return;
      }
      pend := pend - {i};
      i := i - 1;
    }
    ret := 0;
  }

  lemma Bounded(areas: seq<Area>, m0: Memory, i: nat)
    requires CanShift(areas, m0) && i < |areas| && areas[i].priv
    ensures areas[i].start <= TASK_PAGES
  {
  }

  // An area that has to go right lies before one that has to go left.
  ghost predicate Crossed(areas: seq<Area>) {
    exists i, j :: Crossing(areas, i, j)
  }

  ghost predicate Crossing(areas: seq<Area>, i: int, j: int) {
    && 0 <= i < j < |areas| && areas[i].priv && areas[j].priv
    && areas[i].premapped < areas[i].start && areas[j].start < areas[j].premapped
  }

  // An area that ends at the very end does not go left.
  lemma AtTheEnd(areas: seq<Area>, m0: Memory, j: nat)
    requires CanShift(areas, m0) && j < |areas| && areas[j].priv && areas[j].end >= TASK_PAGES
    ensures areas[j].premapped <= areas[j].start
    ensures forall k :: j < k < |areas| && areas[k].priv ==> areas[k].premapped <= areas[k].start
  {
    forall k | j < k < |areas| && areas[k].priv ensures areas[k].premapped <= areas[k].start {
      assert areas[j].end <= areas[k].start;
    }
  }

  // If no two areas cross, none is left waiting,
  lemma NoneWaits(areas: seq<Area>, m0: Memory, pend: set<nat>, b: nat, i: int, j: nat)
    requires CanShift(areas, m0) && RightDone(areas, pend, b, i) && !Crossed(areas)
    requires b < |areas| ==> areas[b].priv && areas[b].start > areas[b].premapped
    requires i >= 0 ==> areas[i].priv && areas[i].start < areas[i].premapped
    requires j < |areas| && areas[j].priv
    ensures j !in pend
  {
    hide CanShift;
    if j in pend {
      assert !Crossing(areas, b, i);
      AtTheEnd(areas, m0, j);
    }
  }

  // ... and those that do are left where they were.
  lemma CrossedWait(areas: seq<Area>, m0: Memory, pend: set<nat>, b: nat, i: int, j: nat, k: nat)
    requires CanShift(areas, m0) && RightDone(areas, pend, b, i) && Crossing(areas, j, k)
    ensures j in pend && k in pend
  {
    hide CanShift;
    if areas[j].end >= TASK_PAGES {
      AtTheEnd(areas, m0, j);
    }
    if areas[k].end >= TASK_PAGES {
      AtTheEnd(areas, m0, k);
    }
  }

  /** Moves all private areas to where they belong, those that go left first. It fails only if a call does, or if a page
      that belongs to no area is in the way of a guard page. Every area ends up in its place exactly if no area that has
      to go right lies before one that has to go left; areas that cross stay where they were. */
  method ShiftVmas(areas: seq<Area>, m0: Memory, flaky: bool) returns (ret: int, m: Memory)
    ensures ret == 0 || ret == -1
    ensures CanShift(areas, m0) && ret == -1 ==> flaky || InWay(areas, m0)
    ensures CanShift(areas, m0) && ret == 0 && !Crossed(areas) ==>
              forall j: nat :: j < |areas| && areas[j].priv ==> InPlace(m0, m, areas[j])
    ensures CanShift(areas, m0) && ret == 0 ==>
              forall j: nat, k: nat :: Crossing(areas, j, k) ==> Waits(m0, m, areas[j]) && Waits(m0, m, areas[k])
  {
    hide CanShift, LeftDone, RightDone, InWay, Nothing, Waits, InPlace, Crossed;
    var b, i;
    ghost var pend;
    ret, m, b, pend := ShiftLeft(areas, m0, flaky);
    if ret != 0 {
      return;
    }
    ret, m, i, pend := ShiftRight(areas, m0, m, b, pend, flaky);
    if ret == 0 && CanShift(areas, m0) {
      if !Crossed(areas) {
        forall j: nat | j < |areas| && areas[j].priv ensures InPlace(m0, m, areas[j]) {
          NoneWaits(areas, m0, pend, b, i, j);
        }
      }
      forall j: nat, k: nat | Crossing(areas, j, k) ensures Waits(m0, m, areas[j]) && Waits(m0, m, areas[k]) {
        CrossedWait(areas, m0, pend, b, i, j, k);
      }
    }
  }
}
