/** What the probes of jump point search look for and leave behind, told by rays over the grid alone. */
module JumpPoints {
  import opened Grids
  import opened Pathfinder
  import opened Jps

  // ---------------------------------------------------------------- rays and jump points

  /** `k` steps from `p` in direction `d`. */
  function At(p: Point, d: Point, k: nat): Point {
    Point(p.r + k * d.r, p.c + k * d.c)
  }

  ghost predicate Clear(grid: Grid, p: Point, d: Point, k: nat)
    requires grid.Valid()
  {
    forall i: nat {:trigger At(p, d, i)} :: i <= k ==> grid.IsFree(At(p, d, i))
  }

  /** One of the two straight directions that a diagonal one is made of. */
  predicate IsPart(d: Point, e: Point) {
    e == Point(d.r, 0) || e == Point(0, d.c)
  }

  /** One of the two directions at right angles to a straight one. */
  predicate IsSide(d: Point, e: Point) {
    e == Point(d.c, d.r) || e == Point(-d.c, -d.r)
  }

  function Minus(p: Point, d: Point): Point {
    Point(p.r - d.r, p.c - d.c)
  }

  /** A blocked cell of the grid hides the free one that lies behind it. */
  predicate Hides(grid: Grid, block: Point, step: Point)
    requires grid.Valid()
  {
    grid.IsInside(block) && grid.IsBlocked(block) && grid.IsFree(block.Plus(step))
  }

  ghost predicate ForcedBeside(grid: Grid, q: Point, d: Point)
    requires grid.Valid()
  {
    exists e :: IsSide(d, e) && Hides(grid, q.Plus(e), d)
  }

  ghost predicate ForcedBehind(grid: Grid, q: Point, d: Point)
    requires grid.Valid()
  {
    exists e :: IsPart(d, e) && Hides(grid, Minus(q, e), Minus(d, e))
  }

  /** A jump point for a straight direction: the goal, or a cell with a forced neighbour. */
  ghost predicate StopsAt(grid: Grid, end: Point, q: Point, d: Point)
    requires grid.Valid()
  {
    q == end || ForcedBeside(grid, q, d)
  }

  ghost predicate Leads(grid: Grid, end: Point, p: Point, d: Point, k: nat)
    requires grid.Valid()
  {
    Clear(grid, p, d, k) && StopsAt(grid, end, At(p, d, k), d)
  }

  /** From `q` a straight way in one part of `d` leads to a jump point. */
  ghost predicate Branches(grid: Grid, end: Point, q: Point, d: Point)
    requires grid.Valid()
  {
    exists e, k :: IsPart(d, e) && Leads(grid, end, q.Plus(e), e, k)
  }

  /** A jump point, for any direction. */
  ghost predicate Jumps(grid: Grid, end: Point, q: Point, d: Point)
    requires grid.Valid()
  {
    if IsDiagonal(d) then q == end || ForcedBehind(grid, q, d) || Branches(grid, end, q, d)
    else StopsAt(grid, end, q, d)
  }

  /** Some cell ahead is a jump point, and the way to it is clear. */
  ghost predicate Sees(grid: Grid, end: Point, p: Point, d: Point, k: nat)
    requires grid.Valid()
  {
    Clear(grid, p, d, k) && Jumps(grid, end, At(p, d, k), d)
  }

  lemma AtNext(p: Point, d: Point, k: nat)
    ensures At(p, d, 0) == p && At(p, d, k + 1) == At(p.Plus(d), d, k)
  {
    assert (k + 1) * d.r == k * d.r + d.r && (k + 1) * d.c == k * d.c + d.c;
  }

  lemma ClearNext(grid: Grid, p: Point, d: Point, k: nat)
    requires grid.Valid()
    ensures Clear(grid, p, d, 0) <==> grid.IsFree(p)
    ensures Clear(grid, p, d, k + 1) <==> grid.IsFree(p) && Clear(grid, p.Plus(d), d, k)
  {
    AtNext(p, d, 0);
    if Clear(grid, p, d, k + 1) {
      forall i: nat | i <= k ensures grid.IsFree(At(p.Plus(d), d, i)) {
        AtNext(p, d, i);
        assert grid.IsFree(At(p, d, i + 1));
      }
    }
    if grid.IsFree(p) && Clear(grid, p.Plus(d), d, k) {
      forall i: nat | i <= k + 1 ensures grid.IsFree(At(p, d, i)) {
        if i > 0 { AtNext(p, d, i - 1); }
      }
    }
  }

  lemma SeesNext(grid: Grid, end: Point, p: Point, d: Point, k: nat)
    requires grid.Valid()
    ensures Sees(grid, end, p, d, 0) <==> grid.IsFree(p) && Jumps(grid, end, p, d)
    ensures Sees(grid, end, p, d, k + 1) <==> grid.IsFree(p) && Sees(grid, end, p.Plus(d), d, k)
  {
    AtNext(p, d, k);
    ClearNext(grid, p, d, k);
  }

  /** What is seen ahead of `p`, seen one step further on. */
  lemma SeesAhead(grid: Grid, end: Point, p: Point, d: Point)
    requires grid.Valid()
    ensures (exists k :: Sees(grid, end, p, d, k)) <==>
            grid.IsFree(p) && (Jumps(grid, end, p, d) || exists k :: Sees(grid, end, p.Plus(d), d, k))
  {
    SeesNext(grid, end, p, d, 0);
    if k: nat :| Sees(grid, end, p, d, k) && k > 0 { SeesNext(grid, end, p, d, k - 1); }
    if k: nat :| Sees(grid, end, p.Plus(d), d, k) { SeesNext(grid, end, p, d, k); }
  }

  // ---------------------------------------------------------------- when a probe succeeds

  lemma StopsBeside(grid: Grid, p: Point, d: Point)
    requires grid.Valid() && IsDirection(d) && !IsDiagonal(d)
    ensures StopsStraight(grid, p, d) <==> ForcedBeside(grid, p, d)
  {
    var e, f := Point(d.c, d.r), Point(-d.c, -d.r);
    ForcedHides(grid, p.Plus(e), d);
    ForcedHides(grid, p.Plus(f), d);
    EitherSide(grid, p, d, e, f);
    BesideEither(grid, p, d, e, f);
  }

  lemma EitherSide(grid: Grid, p: Point, d: Point, e: Point, f: Point)
    requires grid.Valid() && IsDirection(d) && !IsDiagonal(d) && e == Point(d.c, d.r) && f == Point(-d.c, -d.r)
    ensures StopsStraight(grid, p, d) <==> Forced(grid, p.Plus(e), d) || Forced(grid, p.Plus(f), d)
  {
    Straight(d);
    var up, down := Point(p.r, p.c + 1), Point(p.r, p.c - 1);
    var right, left := Point(p.r + 1, p.c), Point(p.r - 1, p.c);
    assert if d.r != 0 then {p.Plus(e), p.Plus(f)} == {up, down} else {p.Plus(e), p.Plus(f)} == {right, left};
    assert StopsStraight(grid, p, d) == if d.r != 0 then Forced(grid, up, d) || Forced(grid, down, d)
                                        else Forced(grid, right, d) || Forced(grid, left, d);
  }

  lemma Straight(d: Point)
    requires IsDirection(d) && !IsDiagonal(d)
    ensures d in {Point(1, 0), Point(-1, 0), Point(0, 1), Point(0, -1)}
  {
  }

  lemma BesideEither(grid: Grid, p: Point, d: Point, e: Point, f: Point)
    requires grid.Valid() && e == Point(d.c, d.r) && f == Point(-d.c, -d.r)
    ensures ForcedBeside(grid, p, d) <==> Hides(grid, p.Plus(e), d) || Hides(grid, p.Plus(f), d)
  {
    assert IsSide(d, e) && IsSide(d, f);
  }

  lemma ForcedHides(grid: Grid, block: Point, step: Point)
    requires grid.Valid()
    ensures Forced(grid, block, step) <==> Hides(grid, block, step)
  {
  }

  lemma StopsBehind(grid: Grid, p: Point, d: Point)
    requires grid.Valid() && IsDirection(d) && IsDiagonal(d)
    ensures StopsDiagonal(grid, p, d) <==> ForcedBehind(grid, p, d)
  {
    var down, across := Point(d.r, 0), Point(0, d.c);
    ForcedHides(grid, Minus(p, down), across);
    ForcedHides(grid, Minus(p, across), down);
    EitherPart(grid, p, d, down, across);
    BehindEither(grid, p, d, down, across);
  }

  lemma EitherPart(grid: Grid, p: Point, d: Point, down: Point, across: Point)
    requires grid.Valid() && down == Point(d.r, 0) && across == Point(0, d.c)
    ensures StopsDiagonal(grid, p, d) <==> Forced(grid, Minus(p, down), across) || Forced(grid, Minus(p, across), down)
  {
    assert Minus(p, down) == Point(p.r - d.r, p.c) && Minus(p, across) == Point(p.r, p.c - d.c);
  }

  lemma BehindEither(grid: Grid, p: Point, d: Point, down: Point, across: Point)
    requires grid.Valid() && down == Point(d.r, 0) && across == Point(0, d.c)
    ensures ForcedBehind(grid, p, d) <==> Hides(grid, Minus(p, down), across) || Hides(grid, Minus(p, across), down)
  {
    assert IsPart(d, down) && IsPart(d, across) && Minus(d, down) == across && Minus(d, across) == down;
  }

  /** A straight probe succeeds if and only if a jump point lies ahead on a clear way, whatever was found before. */
  lemma {:induction false} StraightSees(grid: Grid, end: Point, s: Sweep, p: Point, d: Point)
    requires grid.Valid() && IsDirection(d) && !IsDiagonal(d)
    ensures Probed(grid, end, s, p, d).1 <==> exists k :: Sees(grid, end, p, d, k)
    decreases Room(grid, p, d)
  {
    SeesAhead(grid, end, p, d);
    if grid.IsFree(p) {
      StopsBeside(grid, p, d);
      var (t, found) := StoodOn(grid, end, s, p, d);
      if !found { StraightSees(grid, end, t, p.Plus(d), d); }
    }
  }

  lemma BranchedSees(grid: Grid, end: Point, s: Sweep, p: Point, d: Point)
    requires grid.Valid() && IsDirection(d) && IsDiagonal(d)
    ensures Branched(grid, end, s, p, d).1 <==> Branches(grid, end, p, d)
  {
    var down, across := Point(d.r, 0), Point(0, d.c);
    var t := Probed(grid, end, s, p.Plus(down), down).0;
    StraightSees(grid, end, s, p.Plus(down), down);
    StraightSees(grid, end, t, p.Plus(across), across);
    if k :| Sees(grid, end, p.Plus(down), down, k) { assert Leads(grid, end, p.Plus(down), down, k); }
    if k :| Sees(grid, end, p.Plus(across), across, k) { assert Leads(grid, end, p.Plus(across), across, k); }
    if e, k :| IsPart(d, e) && Leads(grid, end, p.Plus(e), e, k) { assert Sees(grid, end, p.Plus(e), e, k); }
  }

  /** A free cell stops a probe if and only if it is a jump point. */
  lemma StandingJumps(grid: Grid, end: Point, s: Sweep, p: Point, d: Point)
    requires grid.Valid() && IsDirection(d) && grid.IsFree(p)
    ensures StoodOn(grid, end, s, p, d).1 <==> Jumps(grid, end, p, d)
  {
    if IsDiagonal(d) {
      StopsBehind(grid, p, d);
      BranchedSees(grid, end, Visited(s, p, d), p, d);
    } else {
      StopsBeside(grid, p, d);
    }
  }

  /** So does every probe. */
  lemma {:induction false} ProbeSees(grid: Grid, end: Point, s: Sweep, p: Point, d: Point)
    requires grid.Valid() && IsDirection(d)
    ensures Probed(grid, end, s, p, d).1 <==> exists k :: Sees(grid, end, p, d, k)
    decreases Room(grid, p, d)
  {
    SeesAhead(grid, end, p, d);
    if grid.IsFree(p) {
      StandingJumps(grid, end, s, p, d);
      var (t, found) := StoodOn(grid, end, s, p, d);
      if !found { ProbeSees(grid, end, t, p.Plus(d), d); }
    }
  }

  // ---------------------------------------------------------------- what a probe leaves behind

  ghost predicate RayAt(grid: Grid, end: Point, p: Point, d: Point, k: nat, x: Point)
    requires grid.Valid()
  {
    && Clear(grid, p, d, k) && x == At(p, d, k)
    && forall i: nat {:trigger At(p, d, i)} :: i < k ==> !Jumps(grid, end, At(p, d, i), d)
  }

  /** `x` lies ahead of `p` on a clear way, and no jump point lies before it. */
  ghost predicate OnRay(grid: Grid, end: Point, p: Point, d: Point, x: Point)
    requires grid.Valid()
  {
    exists k :: RayAt(grid, end, p, d, k, x)
  }

  lemma RayNext(grid: Grid, end: Point, p: Point, d: Point, x: Point)
    requires grid.Valid()
    ensures OnRay(grid, end, p, d, x) <==>
            grid.IsFree(p) && (x == p || (!Jumps(grid, end, p, d) && OnRay(grid, end, p.Plus(d), d, x)))
  {
    AtNext(p, d, 0);
    ClearNext(grid, p, d, 0);
    if x == p && grid.IsFree(p) { assert RayAt(grid, end, p, d, 0, x); }
    if k: nat :| RayAt(grid, end, p, d, k, x) && k > 0 { RayBack(grid, end, p, d, x, k - 1); }
    if k: nat :| RayAt(grid, end, p.Plus(d), d, k, x) { RayBack(grid, end, p, d, x, k); }
  }

  lemma RayBack(grid: Grid, end: Point, p: Point, d: Point, x: Point, k: nat)
    requires grid.Valid()
    ensures RayAt(grid, end, p, d, k + 1, x) <==>
            grid.IsFree(p) && !Jumps(grid, end, p, d) && RayAt(grid, end, p.Plus(d), d, k, x)
  {
    AtNext(p, d, k);
    ClearNext(grid, p, d, k);
    forall i: nat ensures At(p, d, i + 1) == At(p.Plus(d), d, i) { AtNext(p, d, i); }
    if RayAt(grid, end, p, d, k + 1, x) {
      assert !Jumps(grid, end, At(p, d, 0), d);
      forall i: nat | i < k ensures !Jumps(grid, end, At(p.Plus(d), d, i), d) {
        assert !Jumps(grid, end, At(p, d, i + 1), d);
      }
    }
    if !Jumps(grid, end, p, d) && RayAt(grid, end, p.Plus(d), d, k, x) {
      forall i: nat | i < k + 1 ensures !Jumps(grid, end, At(p, d, i), d) {
        if i > 0 { assert !Jumps(grid, end, At(p.Plus(d), d, i - 1), d); }
      }
    }
  }

  /** The way ahead of `p` leads over `x`, which is a jump point or not. */
  ghost predicate Meets(grid: Grid, end: Point, p: Point, d: Point, x: Point, jump: bool)
    requires grid.Valid()
  {
    OnRay(grid, end, p, d, x) && (Jumps(grid, end, x, d) <==> jump)
  }

  /** So does a straight way that branches off at `q`, which is neither the goal nor has a forced neighbour. */
  ghost predicate Beside(grid: Grid, end: Point, q: Point, d: Point, x: Point, jump: bool)
    requires grid.Valid()
  {
    && q != end && !ForcedBehind(grid, q, d)
    && exists e :: IsPart(d, e) && Meets(grid, end, q.Plus(e), e, x, jump)
  }

  /** A probe comes over `x`: on its own way or, if it is diagonal, on one that branches off. */
  ghost predicate Crosses(grid: Grid, end: Point, p: Point, d: Point, x: Point, jump: bool)
    requires grid.Valid()
  {
    || Meets(grid, end, p, d, x, jump)
    || (IsDiagonal(d) && exists q :: OnRay(grid, end, p, d, q) && Beside(grid, end, q, d, x, jump))
  }

  lemma CrossNext(grid: Grid, end: Point, p: Point, d: Point, x: Point, jump: bool)
    requires grid.Valid()
    ensures Crosses(grid, end, p, d, x, jump) <==>
            grid.IsFree(p) && (
              || (x == p && (Jumps(grid, end, p, d) <==> jump))
              || (IsDiagonal(d) && Beside(grid, end, p, d, x, jump))
              || (!Jumps(grid, end, p, d) && Crosses(grid, end, p.Plus(d), d, x, jump)))
  {
    RayNext(grid, end, p, d, x);
    RayNext(grid, end, p, d, p);
    if q :| OnRay(grid, end, p, d, q) && Beside(grid, end, q, d, x, jump) { RayNext(grid, end, p, d, q); }
    if q :| OnRay(grid, end, p.Plus(d), d, q) && Beside(grid, end, q, d, x, jump) { RayNext(grid, end, p, d, q); }
  }

  /** What happens to `x` between `s` and `t`: a cell that is crossed has a parent from then on; it is closed if it is
      no jump point, and queued under its distance to the goal if it is one other than the goal. */
  ghost predicate Changes(end: Point, s: Sweep, t: Sweep, x: Point, f: int, jumped: bool, passed: bool) {
    && (x in t.parents <==> x in s.parents || jumped || passed)
    && (x in t.closed <==> x in s.closed || passed)
    && (Node(f, x) in t.open <==> Node(f, x) in s.open || (jumped && x != end && f == Manhattan(x, end)))
  }

  lemma {:induction false} StraightLeaves(grid: Grid, end: Point, s: Sweep, p: Point, d: Point, x: Point, f: int)
    requires grid.Valid() && IsDirection(d) && !IsDiagonal(d)
    ensures Changes(end, s, Probed(grid, end, s, p, d).0, x, f,
                    Meets(grid, end, p, d, x, true), Meets(grid, end, p, d, x, false))
    decreases Room(grid, p, d)
  {
    RayNext(grid, end, p, d, x);
    if grid.IsFree(p) {
      StopsBeside(grid, p, d);
      var (t, found) := StoodOn(grid, end, s, p, d);
      if !found { StraightLeaves(grid, end, t, p.Plus(d), d, x, f); }
    }
  }

  lemma BranchedLeaves(grid: Grid, end: Point, s: Sweep, p: Point, d: Point, x: Point, f: int)
    requires grid.Valid() && IsDirection(d) && IsDiagonal(d) && p != end && !ForcedBehind(grid, p, d)
    ensures Changes(end, s, Branched(grid, end, s, p, d).0, x, f,
                    Beside(grid, end, p, d, x, true), Beside(grid, end, p, d, x, false))
  {
    var down, across := Point(d.r, 0), Point(0, d.c);
    var t := Probed(grid, end, s, p.Plus(down), down).0;
    StraightLeaves(grid, end, s, p.Plus(down), down, x, f);
    StraightLeaves(grid, end, t, p.Plus(across), across, x, f);
    EitherBeside(grid, end, p, d, x, true, down, across);
    EitherBeside(grid, end, p, d, x, false, down, across);
  }

  lemma EitherBeside(grid: Grid, end: Point, p: Point, d: Point, x: Point, jump: bool, down: Point, across: Point)
    requires grid.Valid() && p != end && !ForcedBehind(grid, p, d) && down == Point(d.r, 0) && across == Point(0, d.c)
    ensures Beside(grid, end, p, d, x, jump) <==>
            Meets(grid, end, p.Plus(down), down, x, jump) || Meets(grid, end, p.Plus(across), across, x, jump)
  {
    assert IsPart(d, down) && IsPart(d, across);
  }

  lemma StandingLeaves(grid: Grid, end: Point, s: Sweep, p: Point, d: Point, x: Point, f: int)
    requires grid.Valid() && IsDirection(d) && grid.IsFree(p)
    ensures var jumps := Jumps(grid, end, p, d);
            Changes(end, s, StoodOn(grid, end, s, p, d).0, x, f,
                    (x == p && jumps) || (IsDiagonal(d) && Beside(grid, end, p, d, x, true)),
                    (x == p && !jumps) || (IsDiagonal(d) && Beside(grid, end, p, d, x, false)))
  {
    StandingJumps(grid, end, s, p, d);
    if IsDiagonal(d) && p != end {
      StopsBehind(grid, p, d);
      if !ForcedBehind(grid, p, d) { BranchedLeaves(grid, end, Visited(s, p, d), p, d, x, f); }
    }
  }

  /** Exactly what a probe does to any cell `x`, whatever was found before. */
  lemma {:induction false} ProbeLeaves(grid: Grid, end: Point, s: Sweep, p: Point, d: Point, x: Point, f: int)
    requires grid.Valid() && IsDirection(d)
    ensures Changes(end, s, Probed(grid, end, s, p, d).0, x, f,
                    Crosses(grid, end, p, d, x, true), Crosses(grid, end, p, d, x, false))
    decreases Room(grid, p, d)
  {
    CrossNext(grid, end, p, d, x, true);
    CrossNext(grid, end, p, d, x, false);
    if grid.IsFree(p) {
      StandingLeaves(grid, end, s, p, d, x, f);
      StandingJumps(grid, end, s, p, d);
      var (t, found) := StoodOn(grid, end, s, p, d);
      if !found { ProbeLeaves(grid, end, t, p.Plus(d), d, x, f); }
    }
  }

  // ---------------------------------------------------------------- what a jump tries

  lemma {:induction false} TriedReaches(grid: Grid, end: Point, s: Sweep, p: Point, neighbours: seq<Point>, x: Point)
    requires grid.Valid() && Neighbouring(grid, p, neighbours)
    ensures var t := Tried(grid, end, s, p, neighbours);
            && (x in s.parents ==> x in t.parents) && (x in s.closed ==> x in t.closed)
            && (x in neighbours && grid.IsFree(x) ==> x in t.parents || x in t.closed)
    decreases |neighbours|
  {
    if neighbours != [] {
      var last := |neighbours| - 1;
      var q := neighbours[last];
      LastNeighbour(grid, p, neighbours);
      TriedReaches(grid, end, s, p, neighbours[..last], x);
      var t := Tried(grid, end, s, p, neighbours[..last]);
      ProbeLeaves(grid, end, t, q, Before(q, p), x, 0);
      CrossNext(grid, end, q, Before(q, p), x, true);
      CrossNext(grid, end, q, Before(q, p), x, false);
      assert x in neighbours ==> x == q || x in neighbours[..last];
    }
  }

  /** A jump passes over no free neighbour: afterwards each has a parent or is closed. */
  lemma JumpReaches(grid: Grid, end: Point, s: Sweep, p: Point, x: Point)
    requires grid.Valid() && grid.IsInside(p) && grid.IsFree(x) && Adjacent(p, x)
    ensures x in Jumped(grid, end, s, p).parents || x in Jumped(grid, end, s, p).closed
  {
    assert x in grid.Adjacents(p);
    TriedReaches(grid, end, Closed(s, p), p, grid.Adjacents(p), x);
  }

  lemma {:induction false} TriesNone(grid: Grid, end: Point, s: Sweep, p: Point, neighbours: seq<Point>)
    requires grid.Valid() && Neighbouring(grid, p, neighbours)
    requires forall q :: q in neighbours ==> q in s.closed || !grid.IsFree(q)
    ensures Tried(grid, end, s, p, neighbours) == s
    decreases |neighbours|
  {
    if neighbours != [] {
      var last := |neighbours| - 1;
      assert neighbours[last] in neighbours;
      LastNeighbour(grid, p, neighbours);
      TriesNone(grid, end, s, p, neighbours[..last]);
    }
  }

  /** It sends no probe to a closed one: where all are closed it only closes its own cell. */
  lemma JumpsNowhere(grid: Grid, end: Point, s: Sweep, p: Point)
    requires grid.Valid()
    requires forall q :: grid.IsFree(q) && Adjacent(p, q) ==> q in s.closed
    ensures Jumped(grid, end, s, p) == s.(closed := s.closed + {p})
  {
    TriesNone(grid, end, Closed(s, p), p, grid.Adjacents(p));
  }
}
