/** When jump point search certainly returns: whenever its first jump, the one from the start, reaches the goal. Then
    the path is optimal. A goal next to the start is reached so, and on a grid without obstacles every goal is. */
module JpsFirstJump {
  import opened Grids
  import opened Walks
  import opened Pathfinder
  import opened Jps
  import Astar

  // ---------------------------------------------------------------- a jump, direction by direction

  /** The containers once the first `k` of the eight directions around `p` have been tried. */
  ghost function Around(grid: Grid, end: Point, s: Sweep, p: Point, k: nat): Sweep
    requires grid.Valid()
  {
    if k == 0 then s else
      var t, d := Around(grid, end, s, p, k - 1), Offset(k - 1);
      if grid.IsInside(p.Plus(d)) then Attempted(grid, end, t, p.Plus(d), d) else t
  }

  lemma {:induction false} TriedAround(grid: Grid, end: Point, s: Sweep, p: Point, k: nat)
    requires grid.Valid() && k <= 8
    ensures Neighbouring(grid, p, grid.Kept(p, k))
    ensures Tried(grid, end, s, p, grid.Kept(p, k)) == Around(grid, end, s, p, k)
  {
    forall q | q in grid.Kept(p, k) ensures grid.IsInside(q) && Adjacent(p, q) { grid.KeptCells(p, k, q); }
    if k > 0 {
      TriedAround(grid, end, s, p, k - 1);
      var shorter, q := grid.Kept(p, k - 1), p.Plus(Offset(k - 1));
      if grid.IsInside(q) {
        assert grid.Kept(p, k)[..|shorter|] == shorter;
        assert Before(q, p) == Offset(k - 1);
      }
    }
  }

  lemma JumpedAround(grid: Grid, end: Point, s: Sweep, p: Point)
    requires grid.Valid() && grid.IsInside(p)
    ensures Jumped(grid, end, s, p) == Around(grid, end, Closed(s, p), p, 8)
  {
    TriedAround(grid, end, Closed(s, p), p, 8);
  }

  /** The jump from the start: nothing is queued, closed or visited before it. */
  ghost function FirstJump(grid: Grid, start: Point, end: Point): Sweep
    requires grid.Valid()
  {
    Jumped(grid, end, Unstarted(start).(open := multiset{}), start)
  }

  ghost function AroundStart(grid: Grid, start: Point, end: Point, k: nat): Sweep
    requires grid.Valid()
  {
    Around(grid, end, Closed(Unstarted(start).(open := multiset{}), start), start, k)
  }

  // ---------------------------------------------------------------- the first jump only leads away from the start

  /** `x` is negative, zero or positive as `d` is. */
  predicate SameSign(x: int, d: int) {
    (x < 0 <==> d < 0) && (x > 0 <==> d > 0)
  }

  /** `p` lies on the side of `start` that direction `d` points to. */
  predicate OnSide(start: Point, p: Point, d: Point) {
    SameSign(p.r - start.r, d.r) && SameSign(p.c - start.c, d.c)
  }

  /** The step onto `p` in direction `d` leads away from `start`. */
  predicate Outward(start: Point, p: Point, d: Point) {
    && (d.r > 0 ==> start.r <= p.r - d.r) && (d.r < 0 ==> p.r - d.r <= start.r)
    && (d.c > 0 ==> start.c <= p.c - d.c) && (d.c < 0 ==> p.c - d.c <= start.c)
  }

  /** `d` is `side`, or one of its two components. */
  predicate PartOf(d: Point, side: Point) {
    (d.r == side.r || d.r == 0) && (d.c == side.c || d.c == 0)
  }

  /** A cell's parent lies on a shortest way from the start to it. */
  ghost predicate CloserEdge(start: Point, parents: map<Point, Point>, x: Point)
    requires x in parents
  {
    Adjacent(parents[x], x) && Manhattan(start, x) == Manhattan(start, parents[x]) + Manhattan(parents[x], x)
  }

  ghost predicate Closer(start: Point, parents: map<Point, Point>) {
    forall x {:trigger CloserEdge(start, parents, x)} :: x in parents ==> CloserEdge(start, parents, x)
  }

  /** Parents are closer to the start, and what has been closed since `before` lies on one side of it and is not
      `end`. */
  ghost predicate Spreads(start: Point, end: Point, side: Point, before: set<Point>, s: Sweep) {
    Closer(start, s.parents) && forall q :: q in s.closed && q !in before ==> q != end && OnSide(start, q, side)
  }

  lemma VisitSpreads(start: Point, end: Point, side: Point, before: set<Point>, s: Sweep, p: Point, d: Point)
    requires Spreads(start, end, side, before, s) && IsDirection(d) && Outward(start, p, d)
    ensures Spreads(start, end, side, before, Visited(s, p, d))
  {
    var t := Visited(s, p, d);
    forall x | x in t.parents ensures CloserEdge(start, t.parents, x) {
      if x != p { assert CloserEdge(start, s.parents, x); }
    }
  }

  lemma StandSpreads(grid: Grid, start: Point, end: Point, side: Point, before: set<Point>, s: Sweep, p: Point,
                     d: Point)
    requires grid.Valid() && IsDirection(d) && grid.IsFree(p) && Spreads(start, end, side, before, s)
    requires OnSide(start, p, side) && Outward(start, p, d) && PartOf(d, side)
    ensures Spreads(start, end, side, before, StoodOn(grid, end, s, p, d).0)
    decreases IsDiagonal(d), Room(grid, p, d), 2
  {
    VisitSpreads(start, end, side, before, s, p, d);
    if p != end && IsDiagonal(d) && !StopsDiagonal(grid, p, d) {
      BranchesSpread(grid, start, end, side, before, Visited(s, p, d), p, d);
    }
  }

  lemma BranchesSpread(grid: Grid, start: Point, end: Point, side: Point, before: set<Point>, s: Sweep, p: Point,
                       d: Point)
    requires grid.Valid() && IsDirection(d) && IsDiagonal(d) && Spreads(start, end, side, before, s)
    requires OnSide(start, p, side) && PartOf(d, side)
    ensures Spreads(start, end, side, before, Branched(grid, end, s, p, d).0)
    decreases IsDiagonal(d), 0
  {
    var down, across := Point(d.r, 0), Point(0, d.c);
    ProbeSpreads(grid, start, end, side, before, s, p.Plus(down), down);
    var t := Probed(grid, end, s, p.Plus(down), down).0;
    ProbeSpreads(grid, start, end, side, before, t, p.Plus(across), across);
  }

  lemma {:induction false} ProbeSpreads(grid: Grid, start: Point, end: Point, side: Point, before: set<Point>,
                                        s: Sweep, p: Point, d: Point)
    requires grid.Valid() && IsDirection(d) && Spreads(start, end, side, before, s)
    requires OnSide(start, p, side) && Outward(start, p, d) && PartOf(d, side)
    ensures Spreads(start, end, side, before, Probed(grid, end, s, p, d).0)
    decreases IsDiagonal(d), Room(grid, p, d), 3
  {
    if grid.IsFree(p) {
      StandSpreads(grid, start, end, side, before, s, p, d);
      var (t, found) := StoodOn(grid, end, s, p, d);
      ProbeUnfolds(grid, end, s, p, d, t, found);
      if !found { ProbeSpreads(grid, start, end, side, before, t, p.Plus(d), d); }
    }
  }

  // ---------------------------------------------------------------- all eight directions

  /** The direction, by its position in the list of offsets, in which `q` is seen from `start`. */
  function SideIndex(start: Point, q: Point): nat
    requires q != start
  {
    if q.c == start.c then (if q.r > start.r then 0 else 1)
    else if q.r == start.r then (if q.c > start.c then 2 else 3)
    else if q.r > start.r then (if q.c > start.c then 4 else 5)
    else (if q.c > start.c then 6 else 7)
  }

  lemma SideOfOffset(start: Point, q: Point, i: nat)
    requires i < 8 && OnSide(start, q, Offset(i))
    ensures q != start && SideIndex(start, q) == i
  {
    match i
    case 0 =>
    case 1 =>
    case 2 =>
    case 3 =>
    case 4 =>
    case 5 =>
    case 6 =>
    case _ =>
  }

  lemma OffsetOfSide(start: Point, q: Point) returns (i: nat)
    requires q != start
    ensures i == SideIndex(start, q) < 8 && OnSide(start, q, Offset(i))
  {
    i := SideIndex(start, q);
  }

  /** Of the closed cells only those in the directions tried so far may differ from the start, and `end` is none. */
  ghost predicate ClosedOn(start: Point, end: Point, closed: set<Point>, k: nat) {
    forall q :: q in closed && q != start ==> q != end && SideIndex(start, q) < k
  }

  ghost predicate TriedUpTo(grid: Grid, start: Point, end: Point, s: Sweep, k: nat)
    requires grid.Valid()
  {
    Good(grid, start, s) && Closer(start, s.parents) && ClosedOn(start, end, s.closed, k)
  }

  lemma AttemptSpreads(grid: Grid, start: Point, end: Point, s: Sweep, k: nat)
    requires grid.Valid() && grid.IsInside(start) && k < 8 && grid.IsInside(start.Plus(Offset(k)))
    requires TriedUpTo(grid, start, end, s, k)
    ensures TriedUpTo(grid, start, end, Attempted(grid, end, s, start.Plus(Offset(k)), Offset(k)), k + 1)
  {
    var d := Offset(k);
    AttemptKeepsGood(grid, start, end, s, start.Plus(d), d);
    ProbeSpreads(grid, start, end, d, s.closed, s, start.Plus(d), d);
    var t := Attempted(grid, end, s, start.Plus(d), d);
    forall q | q in t.closed && q != start ensures q != end && SideIndex(start, q) < k + 1 {
      if q !in s.closed { SideOfOffset(start, q, k); }
    }
  }

  lemma {:induction false} StartIsLeft(grid: Grid, start: Point, end: Point, k: nat)
    requires grid.Valid() && grid.IsInside(start) && k <= 8
    ensures TriedUpTo(grid, start, end, AroundStart(grid, start, end, k), k)
  {
    if k == 0 {
      CloseKeepsGood(grid, start, Unstarted(start).(open := multiset{}), start);
    } else {
      StartIsLeft(grid, start, end, k - 1);
      if grid.IsInside(start.Plus(Offset(k - 1))) {
        AttemptSpreads(grid, start, end, AroundStart(grid, start, end, k - 1), k - 1);
      }
    }
  }

  lemma FirstJumpSpreads(grid: Grid, start: Point, end: Point)
    requires grid.Valid()
    ensures var t := FirstJump(grid, start, end); Good(grid, start, t) && Closer(start, t.parents)
  {
    if grid.IsInside(start) {
      JumpedAround(grid, end, Unstarted(start).(open := multiset{}), start);
      StartIsLeft(grid, start, end, 8);
    }
  }

  // ---------------------------------------------------------------- chains of shortest ways

  /** Where parents lie on shortest ways, every parent chain ends, and is a shortest walk of all. */
  lemma {:induction false} CloserChain(free: set<Point>, start: Point, parents: map<Point, Point>, x: Point)
    returns (n: nat)
    requires Sound(free, start, parents) && Closer(start, parents) && Known(start, parents, x)
    ensures n <= Manhattan(start, x) && ChainEnds(parents, x, n)
    ensures var w := Chain(parents, x, n); IsWalk(free, w, start, x) && Cost(w) == Manhattan(start, x) && Distinct(w)
    ensures forall q :: q in Chain(parents, x, n) ==> Manhattan(start, q) <= Manhattan(start, x)
    decreases Manhattan(start, x)
  {
    if x !in parents { return 0; }
    assert SoundEdge(free, start, parents, x) && CloserEdge(start, parents, x);
    var m := CloserChain(free, start, parents, parents[x]);
    n := m + 1;
    var shorter, w := Chain(parents, parents[x], m), Chain(parents, x, n);
    assert w == shorter + [x];
    CostToPrefix(shorter, w, m);
  }

  lemma {:induction false} ChainEndsOnce(parents: map<Point, Point>, x: Point, m: nat, n: nat)
    requires ChainEnds(parents, x, m) && ChainEnds(parents, x, n)
    ensures m == n
    decreases m
  {
    if x in parents { ChainEndsOnce(parents, parents[x], m - 1, n - 1); }
  }

  lemma ManhattanIsOptimal(grid: Grid, start: Point, end: Point, path: seq<Point>)
    requires grid.Valid() && LegalWalk(grid, path, start, end) && Distinct(path) && Cost(path) == Manhattan(start, end)
    ensures Astar.Optimal(grid, path, start, end)
  {
    forall w | LegalWalk(grid, w, start, end) ensures Cost(path) <= Cost(w) { DistanceBelowCost(w, 0, |w| - 1); }
  }

  /** If the first jump reaches the goal, the goal's parent chain ends and is an optimal path. */
  lemma FirstJumpIsOptimal(grid: Grid, start: Point, end: Point) returns (n: nat)
    requires grid.Valid() && end in FirstJump(grid, start, end).parents
    ensures start != end && n <= Manhattan(start, end) && ChainEnds(FirstJump(grid, start, end).parents, end, n)
    ensures Astar.Optimal(grid, Chain(FirstJump(grid, start, end).parents, end, n), start, end)
  {
    var parents := FirstJump(grid, start, end).parents;
    FirstJumpSpreads(grid, start, end);
    assert CloserEdge(start, parents, end);
    n := CloserChain(grid.Free(), start, parents, end);
    ManhattanIsOptimal(grid, start, end, Chain(parents, end, n));
  }

  lemma FirstIterationIsFirstJump(grid: Grid, start: Point, end: Point, t: Sweep)
    requires grid.Valid()
    ensures Iterates(grid, end, Unstarted(start), t) <==> t == FirstJump(grid, start, end)
  {
    var s := Unstarted(start);
    assert Least(s.open, Node(0, start));
    assert s.open - multiset{Node(0, start)} == multiset{};
  }

  /** The search then returns after one iteration, with an optimal path, whatever else the grid looks like. */
  lemma FirstJumpReturns(grid: Grid, start: Point, end: Point, fuel: nat, r: Outcome)
    requires grid.Valid() && end in FirstJump(grid, start, end).parents && fuel > Manhattan(start, end)
    requires ComesTo(grid, end, Unstarted(start), fuel, fuel, r)
    ensures r.Returned? && Astar.Optimal(grid, r.path, start, end)
  {
    assert Node(0, start) in Unstarted(start).open;
    var t :| Iterates(grid, end, Unstarted(start), t) && Continues(grid, end, t, fuel, fuel, r);
    FirstIterationIsFirstJump(grid, start, end, t);
    var n := FirstJumpIsOptimal(grid, start, end);
    if r.Returned? {
      var k: nat :| k < fuel && ChainEnds(t.parents, end, k) && r.path == Chain(t.parents, end, k);
      ChainEndsOnce(t.parents, end, k, n);
    }
  }

  // ---------------------------------------------------------------- goals the first jump reaches

  lemma DirectionGrows(grid: Grid, start: Point, end: Point, k: nat)
    requires grid.Valid() && grid.IsInside(start) && k < 8
    ensures AroundStart(grid, start, end, k).parents.Keys <= AroundStart(grid, start, end, k + 1).parents.Keys
  {
    StartIsLeft(grid, start, end, k);
    var d := Offset(k);
    if grid.IsInside(start.Plus(d)) {
      AttemptKeepsGood(grid, start, end, AroundStart(grid, start, end, k), start.Plus(d), d);
    }
  }

  lemma {:induction false} AroundGrows(grid: Grid, start: Point, end: Point, i: nat, k: nat)
    requires grid.Valid() && grid.IsInside(start) && i <= k <= 8
    ensures AroundStart(grid, start, end, i).parents.Keys <= AroundStart(grid, start, end, k).parents.Keys
    decreases k
  {
    if i < k {
      AroundGrows(grid, start, end, i, k - 1);
      DirectionGrows(grid, start, end, k - 1);
    }
  }

  /** Every free neighbour of the start is probed; a probe that reaches the goal makes the jump reach it. */
  lemma ReachedInDirection(grid: Grid, start: Point, end: Point, i: nat)
    requires grid.Valid() && grid.IsInside(start) && i < 8 && grid.IsFree(start.Plus(Offset(i)))
    requires end in Probed(grid, end, AroundStart(grid, start, end, i), start.Plus(Offset(i)), Offset(i)).0.parents
    ensures end in FirstJump(grid, start, end).parents
  {
    var q := start.Plus(Offset(i));
    StartIsLeft(grid, start, end, i);
    SideOfOffset(start, q, i);
    assert q !in AroundStart(grid, start, end, i).closed;
    assert end in AroundStart(grid, start, end, i + 1).parents;
    AroundGrows(grid, start, end, i + 1, 8);
    JumpedAround(grid, end, Unstarted(start).(open := multiset{}), start);
  }

  lemma VisitReaches(grid: Grid, end: Point, s: Sweep, d: Point)
    requires grid.Valid() && IsDirection(d) && grid.IsFree(end)
    ensures end in Probed(grid, end, s, end, d).0.parents
  {
  }

  /** A free goal next to the start is always found. */
  lemma AdjacentGoalIsFound(grid: Grid, start: Point, end: Point, fuel: nat, r: Outcome)
    requires grid.Valid() && grid.IsInside(start) && grid.IsFree(end) && Adjacent(start, end) && fuel > 2
    requires ComesTo(grid, end, Unstarted(start), fuel, fuel, r)
    ensures r.Returned? && Astar.Optimal(grid, r.path, start, end)
  {
    var i := OffsetIndex(start, end);
    VisitReaches(grid, end, AroundStart(grid, start, end, i), Offset(i));
    ReachedInDirection(grid, start, end, i);
    FirstJumpReturns(grid, start, end, fuel, r);
  }

  // ---------------------------------------------------------------- grids without obstacles

  ghost predicate Unobstructed(grid: Grid)
    requires grid.Valid()
  {
    forall p :: grid.IsInside(p) ==> grid.IsFree(p)
  }

  /** Going in direction `d` from `p` does not lead away from `end`. */
  predicate Ahead(p: Point, d: Point, end: Point) {
    && (if d.r > 0 then p.r <= end.r else if d.r < 0 then p.r >= end.r else p.r == end.r)
    && (if d.c > 0 then p.c <= end.c else if d.c < 0 then p.c >= end.c else p.c == end.c)
  }

  /** What a probe has to do: not forget a cell, succeed only at the goal, and reach a goal that lies ahead. */
  ghost predicate Reaches(grid: Grid, end: Point, s: Sweep, p: Point, d: Point, t: Sweep, found: bool) {
    && s.parents.Keys <= t.parents.Keys && (found ==> end in t.parents) && (!found ==> t.open == s.open)
    && (grid.IsInside(p) && grid.IsInside(end) && Ahead(p, d, end) ==> end in t.parents)
  }

  lemma {:induction false} OpenStraight(grid: Grid, end: Point, s: Sweep, p: Point, d: Point)
    requires grid.Valid() && Unobstructed(grid) && IsDirection(d) && !IsDiagonal(d)
    ensures var (t, found) := Probed(grid, end, s, p, d); Reaches(grid, end, s, p, d, t, found)
    decreases Room(grid, p, d)
  {
    if grid.IsFree(p) {
      assert !StopsStraight(grid, p, d);
      var (t, found) := StoodOn(grid, end, s, p, d);
      ProbeUnfolds(grid, end, s, p, d, t, found);
      if !found { OpenStraight(grid, end, t, p.Plus(d), d); }
    }
  }

  lemma OpenBranches(grid: Grid, end: Point, s: Sweep, p: Point, d: Point)
    requires grid.Valid() && Unobstructed(grid) && IsDirection(d) && IsDiagonal(d) && grid.IsInside(p) && p != end
    ensures var (t, found) := Branched(grid, end, s, p, d);
            && s.parents.Keys <= t.parents.Keys && (found ==> end in t.parents) && (!found ==> t.open == s.open)
            && (grid.IsInside(end) && Ahead(p, d, end) && (p.r == end.r || p.c == end.c) ==> end in t.parents)
  {
    var down, across := Point(d.r, 0), Point(0, d.c);
    OpenStraight(grid, end, s, p.Plus(down), down);
    OpenStraight(grid, end, Probed(grid, end, s, p.Plus(down), down).0, p.Plus(across), across);
  }

  lemma {:induction false} OpenDiagonal(grid: Grid, end: Point, s: Sweep, p: Point, d: Point)
    requires grid.Valid() && Unobstructed(grid) && IsDirection(d) && IsDiagonal(d)
    ensures var (t, found) := Probed(grid, end, s, p, d); Reaches(grid, end, s, p, d, t, found)
    decreases Room(grid, p, d)
  {
    if grid.IsFree(p) {
      assert !StopsDiagonal(grid, p, d);
      if p != end { OpenBranches(grid, end, Visited(s, p, d), p, d); }
      var (t, found) := StoodOn(grid, end, s, p, d);
      ProbeUnfolds(grid, end, s, p, d, t, found);
      if !found { OpenDiagonal(grid, end, t, p.Plus(d), d); }
    }
  }

  lemma OpenProbe(grid: Grid, end: Point, s: Sweep, p: Point, d: Point)
    requires grid.Valid() && Unobstructed(grid) && IsDirection(d)
    ensures var (t, found) := Probed(grid, end, s, p, d); Reaches(grid, end, s, p, d, t, found)
  {
    if IsDiagonal(d) { OpenDiagonal(grid, end, s, p, d); } else { OpenStraight(grid, end, s, p, d); }
  }

  /** Without obstacles the first jump reaches every goal but the start itself. */
  lemma OpenGoalIsReached(grid: Grid, start: Point, end: Point)
    requires grid.Valid() && Unobstructed(grid) && grid.IsInside(start) && grid.IsInside(end) && start != end
    ensures end in FirstJump(grid, start, end).parents
  {
    var i := OffsetOfSide(start, end);
    var q := start.Plus(Offset(i));
    assert grid.IsInside(q) && Ahead(q, Offset(i), end);
    OpenProbe(grid, end, AroundStart(grid, start, end, i), q, Offset(i));
    ReachedInDirection(grid, start, end, i);
  }

  /** And it queues nothing unless it reaches the goal. */
  lemma {:induction false} OpenJumpQueuesNothing(grid: Grid, start: Point, end: Point, k: nat)
    requires grid.Valid() && Unobstructed(grid) && grid.IsInside(start) && k <= 8
    ensures var t := AroundStart(grid, start, end, k); t.open == multiset{} || end in t.parents
  {
    if k > 0 {
      OpenJumpQueuesNothing(grid, start, end, k - 1);
      OpenProbe(grid, end, AroundStart(grid, start, end, k - 1), start.Plus(Offset(k - 1)), Offset(k - 1));
    }
  }

  /** On a grid without obstacles the search always returns, and with an optimal path exactly when the two ends are
      different cells of the grid. */
  lemma OpenGridIsSolved(grid: Grid, start: Point, end: Point, fuel: nat, r: Outcome)
    requires grid.Valid() && Unobstructed(grid) && fuel > Manhattan(start, end) && fuel > 1
    requires ComesTo(grid, end, Unstarted(start), fuel, fuel, r)
    ensures r.Returned?
    ensures r.path != [] <==> grid.IsInside(start) && grid.IsInside(end) && start != end
    ensures r.path != [] ==> Astar.Optimal(grid, r.path, start, end)
  {
    var t := FirstJump(grid, start, end);
    if end in t.parents {
      var n := FirstJumpIsOptimal(grid, start, end);
      FirstJumpReturns(grid, start, end, fuel, r);
    } else {
      if grid.IsInside(start) {
        if grid.IsInside(end) && start != end { OpenGoalIsReached(grid, start, end); }
        OpenJumpQueuesNothing(grid, start, end, 8);
        JumpedAround(grid, end, Unstarted(start).(open := multiset{}), start);
      }
      NothingQueued(grid, start, end, fuel, r);
    }
  }

  lemma NothingQueued(grid: Grid, start: Point, end: Point, fuel: nat, r: Outcome)
    requires grid.Valid() && fuel > 1 && ComesTo(grid, end, Unstarted(start), fuel, fuel, r)
    requires FirstJump(grid, start, end).open == multiset{} && end !in FirstJump(grid, start, end).parents
    ensures r == Returned([])
  {
    assert Node(0, start) in Unstarted(start).open;
    var t :| Iterates(grid, end, Unstarted(start), t) && Continues(grid, end, t, fuel, fuel, r);
    FirstIterationIsFirstJump(grid, start, end, t);
    assert ComesTo(grid, end, t, fuel - 1, fuel, r);
  }

  // ---------------------------------------------------------------- a start that is its own goal

  lemma StartHasNoChain(grid: Grid, start: Point, t: Sweep, fuel: nat, r: Outcome)
    requires grid.Valid() && Good(grid, start, t) && start in t.parents && Reconstructs(t.parents, start, fuel, r)
    ensures r == StillRunning
  {
    if r.Returned? {
      var n: nat :| n < fuel && ChainEnds(t.parents, start, n) && r.path == Chain(t.parents, start, n);
      StartMustStayRoot(grid.Free(), start, t.parents, start, n);
    }
  }

  /** Everything a run of the search loop from `s` can come to. */
  ghost function Outcomes(grid: Grid, end: Point, s: Sweep, pops: nat, fuel: nat): iset<Outcome>
    requires grid.Valid()
  {
    iset r | ComesTo(grid, end, s, pops, fuel, r)
  }

  ghost function OutcomesAfter(grid: Grid, end: Point, t: Sweep, pops: nat, fuel: nat): iset<Outcome>
    requires grid.Valid() && pops > 0
  {
    iset r | Continues(grid, end, t, pops, fuel, r)
  }

  ghost const PATHLESS := iset{Returned([]), StillRunning}

  lemma NotFoundNext(grid: Grid, start: Point, t: Sweep, pops: nat, fuel: nat)
    requires grid.Valid() && Good(grid, start, t) && pops > 0 && Outcomes(grid, start, t, pops - 1, fuel) <= PATHLESS
    ensures OutcomesAfter(grid, start, t, pops, fuel) <= PATHLESS
  {
    forall r | r in OutcomesAfter(grid, start, t, pops, fuel) ensures r in PATHLESS {
      if start in t.parents {
        StartHasNoChain(grid, start, t, fuel, r);
      } else {
        assert r in Outcomes(grid, start, t, pops - 1, fuel);
      }
    }
  }

  lemma NotFoundFrom(grid: Grid, start: Point, s: Sweep, pops: nat, fuel: nat)
    requires grid.Valid()
    requires pops > 0 ==>
               forall t :: Iterates(grid, start, s, t) ==> OutcomesAfter(grid, start, t, pops, fuel) <= PATHLESS
    ensures Outcomes(grid, start, s, pops, fuel) <= PATHLESS
  {
    forall r | r in Outcomes(grid, start, s, pops, fuel) ensures r in PATHLESS {
      if s.open != multiset{} && pops > 0 {
        var t :| Iterates(grid, start, s, t) && Continues(grid, start, t, pops, fuel, r);
        assert r in OutcomesAfter(grid, start, t, pops, fuel);
      }
    }
  }

  /** A search for the start itself never returns a path: once the start has a parent its chain does not end. */
  lemma {:induction false} StartIsNeverFound(grid: Grid, start: Point, s: Sweep, pops: nat, fuel: nat)
    requires grid.Valid() && Good(grid, start, s)
    ensures Outcomes(grid, start, s, pops, fuel) <= PATHLESS
    decreases pops
  {
    if pops > 0 {
      forall t | Iterates(grid, start, s, t) ensures OutcomesAfter(grid, start, t, pops, fuel) <= PATHLESS {
        NextIsGood(grid, start, start, s, t);
        NotFoundAfter(grid, start, t, pops, fuel);
      }
    }
    NotFoundFrom(grid, start, s, pops, fuel);
  }

  lemma NotFoundAfter(grid: Grid, start: Point, t: Sweep, pops: nat, fuel: nat)
    requires grid.Valid() && Good(grid, start, t) && pops > 0
    ensures OutcomesAfter(grid, start, t, pops, fuel) <= PATHLESS
    decreases pops, 0
  {
    StartIsNeverFound(grid, start, t, pops - 1, fuel);
    NotFoundNext(grid, start, t, pops, fuel);
  }

  /** A* returns the one-cell path for the same input; jump point search has nothing to return. */
  lemma StartAsGoal(grid: Grid, start: Point, fuel: nat, r: Outcome)
    requires grid.Valid() && grid.IsInside(start) && ComesTo(grid, start, Unstarted(start), fuel, fuel, r)
    ensures Astar.Optimal(grid, [start], start, start) && (r == Returned([]) || r == StillRunning)
  {
    StartIsNeverFound(grid, start, Unstarted(start), fuel, fuel);
    assert r in Outcomes(grid, start, Unstarted(start), fuel, fuel);
    assert LegalWalk(grid, [start], start, start);
  }
}
