/** Two grids on which jump point search finds its goal and then never returns. On the 2 x 4 grid two cells become each
    other's parents; on the 3 x 5 grid the start gains a parent. Both are followed probe by probe. */
module JpsDivergence {
  import opened Grids
  import opened Walks
  import opened Pathfinder
  import opened Jps
  import opened JpsFirstJump
  import opened JpsChains
  import Astar

  // ---------------------------------------------------------------- the shapes a probe can take

  /** A cell that a probe passes. */
  ghost function Swept(s: Sweep, p: Point, d: Point): Sweep {
    Closed(Visited(s, p, d), p)
  }

  /** A cell at which a probe stops, successfully. */
  ghost function Stopped(s: Sweep, p: Point, d: Point, end: Point): Sweep {
    Pushed(Visited(s, p, d), p, end)
  }

  /** What a probe in direction `d` meets on `p`. */
  datatype Sight = Wall | Goal | JumpPoint | Clear

  ghost function Seen(g: Grid, end: Point, p: Point, d: Point): Sight
    requires g.Valid() && IsDirection(d)
  {
    if !g.IsFree(p) then Wall else if p == end then Goal
    else if if IsDiagonal(d) then StopsDiagonal(g, p, d) else StopsStraight(g, p, d) then JumpPoint else Clear
  }

  lemma RunsOut(g: Grid, end: Point, s: Sweep, p: Point, d: Point)
    requires g.Valid() && IsDirection(d) && Seen(g, end, p, d) == Wall
    ensures Probed(g, end, s, p, d) == (s, false)
  {
  }

  lemma FindsGoal(g: Grid, end: Point, s: Sweep, p: Point, d: Point)
    requires g.Valid() && IsDirection(d) && Seen(g, end, p, d) == Goal
    ensures Probed(g, end, s, p, d) == (Visited(s, p, d), true)
  {
    assert StoodOn(g, end, s, p, d) == (Visited(s, p, d), true);
  }

  lemma Stops(g: Grid, end: Point, s: Sweep, p: Point, d: Point)
    requires g.Valid() && IsDirection(d) && Seen(g, end, p, d) == JumpPoint
    ensures Probed(g, end, s, p, d) == (Stopped(s, p, d, end), true)
  {
    assert StoodOn(g, end, s, p, d) == (Stopped(s, p, d, end), true);
  }

  lemma GoesOn(g: Grid, end: Point, s: Sweep, p: Point, q: Point, d: Point)
    requires g.Valid() && IsDirection(d) && !IsDiagonal(d) && Seen(g, end, p, d) == Clear && q == p.Plus(d)
    ensures Probed(g, end, s, p, d) == Probed(g, end, Swept(s, p, d), q, d)
  {
    assert StoodOn(g, end, s, p, d) == (Swept(s, p, d), false);
    ProbeUnfolds(g, end, s, p, d, Swept(s, p, d), false);
  }

  /** A straight probe that passes one cell and cannot go on. */
  lemma SweepsOne(g: Grid, end: Point, s: Sweep, p: Point, d: Point)
    requires g.Valid() && IsDirection(d) && !IsDiagonal(d)
    requires Seen(g, end, p, d) == Clear && Seen(g, end, p.Plus(d), d) == Wall
    ensures Probed(g, end, s, p, d) == (Swept(s, p, d), false)
  {
    GoesOn(g, end, s, p, p.Plus(d), d);
    RunsOut(g, end, Swept(s, p, d), p.Plus(d), d);
  }

  /** One that passes two cells. */
  lemma SweepsTwo(g: Grid, end: Point, s: Sweep, p: Point, q: Point, d: Point)
    requires g.Valid() && IsDirection(d) && !IsDiagonal(d) && q == p.Plus(d)
    requires Seen(g, end, p, d) == Clear && Seen(g, end, q, d) == Clear && Seen(g, end, q.Plus(d), d) == Wall
    ensures Probed(g, end, s, p, d) == (Swept(Swept(s, p, d), q, d), false)
  {
    SweepsOne(g, end, Swept(s, p, d), q, d);
    GoesOn(g, end, s, p, q, d);
  }

  /** One that passes one cell and stops at the next. */
  lemma SweepsAndStops(g: Grid, end: Point, s: Sweep, p: Point, q: Point, d: Point)
    requires g.Valid() && IsDirection(d) && !IsDiagonal(d) && q == p.Plus(d)
    requires Seen(g, end, p, d) == Clear && Seen(g, end, q, d) == JumpPoint
    ensures Probed(g, end, s, p, d) == (Stopped(Swept(s, p, d), q, d, end), true)
  {
    Stops(g, end, Swept(s, p, d), q, d);
    GoesOn(g, end, s, p, q, d);
  }

  /** A diagonal probe on a clear cell sends out both straight probes, to `x` and to `y`. */
  lemma Branches(g: Grid, end: Point, s: Sweep, p: Point, d: Point, down: Point, x: Point, across: Point, y: Point,
                 t: Sweep, f: bool, u: Sweep, h: bool)
    requires g.Valid() && IsDirection(d) && IsDiagonal(d) && Seen(g, end, p, d) == Clear
    requires down == Point(d.r, 0) && x == p.Plus(down) && across == Point(0, d.c) && y == p.Plus(across)
    requires Probed(g, end, Visited(s, p, d), x, down) == (t, f) && Probed(g, end, t, y, across) == (u, h)
    ensures Probed(g, end, s, p, d) ==
            if f || h then (Pushed(u, p, end), true) else Probed(g, end, Closed(u, p), p.Plus(d), d)
  {
    assert Branched(g, end, Visited(s, p, d), p, d) == (u, f || h);
    assert StoodDiagonal(g, end, Visited(s, p, d), p, d) == (u, f || h);
    var v := if f || h then Pushed(u, p, end) else Closed(u, p);
    assert StoodOn(g, end, s, p, d) == (v, f || h);
    ProbeUnfolds(g, end, s, p, d, v, f || h);
  }

  /** What a jump from `p` meets in the `k`-th direction. */
  ghost function LookAt(g: Grid, end: Point, p: Point, k: nat): Sight
    requires g.Valid()
  {
    Seen(g, end, p.Plus(Offset(k)), Offset(k))
  }

  /** A neighbour that is passed over: closed, blocked or outside. */
  lemma PassesOver(g: Grid, end: Point, s: Sweep, p: Point, k: nat, t: Sweep)
    requires g.Valid() && Around(g, end, s, p, k) == t
    requires p.Plus(Offset(k)) in t.closed || LookAt(g, end, p, k) == Wall
    ensures Around(g, end, s, p, k + 1) == t
  {
  }

  /** A neighbour that is probed. */
  lemma ProbesNext(g: Grid, end: Point, s: Sweep, p: Point, k: nat, t: Sweep, q: Point, d: Point, u: Sweep)
    requires g.Valid() && Around(g, end, s, p, k) == t && q == p.Plus(d) && d == Offset(k)
    requires q !in t.closed && LookAt(g, end, p, k) != Wall && Probed(g, end, t, q, d).0 == u
    ensures Around(g, end, s, p, k + 1) == u
  {
  }

  // ---------------------------------------------------------------- two iterations and no return

  /** The second iteration of a search whose first one queued `top` as its only best entry. */
  ghost predicate SecondJump(g: Grid, start: Point, end: Point, top: Node, s1: Sweep, s2: Sweep)
    requires g.Valid()
  {
    && s1 == FirstJump(g, start, end) && end !in s1.parents
    && Least(s1.open, top) && (forall e :: Least(s1.open, e) ==> e == top)
    && s2 == Jumped(g, end, s1.(open := s1.open - multiset{top}), top.p)
  }

  lemma SecondIteration(g: Grid, start: Point, end: Point, top: Node, s1: Sweep, s2: Sweep, t: Sweep)
    requires g.Valid() && SecondJump(g, start, end, top, s1, s2)
    ensures Iterates(g, end, s1, t) <==> t == s2
  {
  }

  /** If the goal has a parent then, but no chain that ends, the search is still running however long one waits. */
  lemma NeverReturns(g: Grid, start: Point, end: Point, top: Node, s1: Sweep, s2: Sweep, fuel: nat, r: Outcome)
    requires g.Valid() && SecondJump(g, start, end, top, s1, s2)
    requires end in s2.parents && !Ends(s2.parents, end)
    requires ComesTo(g, end, Unstarted(start), fuel, fuel, r)
    ensures r == StillRunning
  {
    assert Node(0, start) in Unstarted(start).open;
    if fuel > 0 {
      var t :| Iterates(g, end, Unstarted(start), t) && Continues(g, end, t, fuel, fuel, r);
      FirstIterationIsFirstJump(g, start, end, t);
      assert top in s1.open;
      assert ComesTo(g, end, s1, fuel - 1, fuel, r);
      if fuel > 1 { StillRunsAfterSecond(g, start, end, top, s1, s2, fuel, r); }
    }
  }

  lemma StillRunsAfterSecond(g: Grid, start: Point, end: Point, top: Node, s1: Sweep, s2: Sweep, fuel: nat, r: Outcome)
    requires g.Valid() && SecondJump(g, start, end, top, s1, s2) && fuel > 1 && s1.open != multiset{}
    requires end in s2.parents && !Ends(s2.parents, end) && ComesTo(g, end, s1, fuel - 1, fuel, r)
    ensures r == StillRunning
  {
    var u :| Iterates(g, end, s1, u) && Continues(g, end, u, fuel - 1, fuel, r);
    SecondIteration(g, start, end, top, s1, s2, u);
  }

  /** However long one waits, the search is still running. */
  ghost predicate Endless(g: Grid, start: Point, end: Point)
    requires g.Valid()
  {
    forall fuel, o {:trigger ComesTo(g, end, Unstarted(start), fuel, fuel, o)} ::
      ComesTo(g, end, Unstarted(start), fuel, fuel, o) ==> o == StillRunning
  }

  lemma BestOfThree(open: multiset<Node>, best: Node, b: Node, c: Node)
    requires open == multiset{best, b, c} && best.f < b.f && best.f < c.f
    ensures Least(open, best) && forall e :: Least(open, e) ==> e == best
  {
    assert best in open;
  }

  lemma BestOfTwo(open: multiset<Node>, best: Node, b: Node)
    requires open == multiset{best, b} && best.f < b.f
    ensures Least(open, best) && forall e :: Least(open, e) ==> e == best
  {
    assert best in open;
  }

  /** The trace of those two iterations. */
  lemma TwoIterations(g: Grid, start: Point, end: Point, top: Node, s1: Sweep, s2: Sweep)
    requires g.Valid() && SecondJump(g, start, end, top, s1, s2)
    ensures IsTrace(g, start, end, [Unstarted(start), s1, s2])
  {
    var trace := [Unstarted(start), s1, s2];
    FirstIterationIsFirstJump(g, start, end, s1);
    SecondIteration(g, start, end, top, s1, s2, s2);
    forall i: nat | i + 1 < |trace| ensures IterationAt(g, end, trace, i) {
      if i == 0 {} else {}
    }
  }

  lemma {:induction false} WalkOfSteps(g: Grid, w: seq<Point>)
    requires g.Valid() && w != [] && g.IsInside(w[0])
    requires forall i :: 1 <= i < |w| ==> g.IsFree(w[i]) && Adjacent(w[i - 1], w[i])
    ensures !Astar.Unreachable(g, w[0], w[|w| - 1])
  {
    assert LegalWalk(g, w, w[0], w[|w| - 1]);
  }

  /** The grids are described, and followed, from the position (r, c) of their top left cell. That is always (0, 0); it
      is a parameter only because the solver follows names more easily than numbers. */
  ghost predicate At(p: Point, r: int, c: int) {
    p.r == r && p.c == c
  }

  // ---------------------------------------------------------------- two cells that are each other's parents

  function SmallGrid(): Grid {
    Grid(2, 4, [false, true, false, false, false, false, false, false])
  }

  ghost predicate OnSmall(p: Point, r: int, c: int) {
    r <= p.r <= r + 1 && c <= p.c <= c + 3
  }

  /** Two rows and four columns; the second cell of the first row is blocked. */
  ghost predicate IsSmall(g: Grid, r: int, c: int) {
    && g.Valid()
    && (forall p {:trigger g.IsInside(p)} :: g.IsInside(p) <==> OnSmall(p, r, c))
    && (forall p {:trigger g.IsFree(p)} :: g.IsFree(p) <==> OnSmall(p, r, c) && !At(p, r, c + 1))
  }

  lemma SmallGridIsSmall()
    ensures IsSmall(SmallGrid(), 0, 0)
  {
    var g := SmallGrid();
    forall p ensures g.IsFree(p) <==> OnSmall(p, 0, 0) && !At(p, 0, 1) {
      if g.IsInside(p) {
        g.IndexIsRowMajor(p);
        assert p.r * 4 + p.c == if p.r == 0 then p.c else 4 + p.c;
      }
    }
  }

  /** What the straight probes from the start `p` meet: `a` below it and `b` to its left are clear. */
  ghost predicate SmallBeside(g: Grid, end: Point, p: Point, a: Point, b: Point, down: Point, left: Point)
    requires g.Valid()
  {
    && down == Offset(0) && left == Offset(3) && a == p.Plus(down) && b == p.Plus(left) && a != b && p !in {a, b}
    && LookAt(g, end, p, 0) == Clear && Seen(g, end, a.Plus(down), down) == Wall
    && LookAt(g, end, p, 1) == Wall && LookAt(g, end, p, 2) == Wall
    && LookAt(g, end, p, 3) == Clear && Seen(g, end, b.Plus(left), left) == Wall
  }

  /** What the diagonal ones meet: `y` is clear, and to its left `x` has a forced neighbour. */
  ghost predicate SmallAslant(g: Grid, end: Point, p: Point, y: Point, x: Point,
                              down: Point, left: Point, aslant: Point)
    requires g.Valid() && down == Offset(0) && left == Offset(3)
  {
    && aslant == Offset(5) && y == p.Plus(aslant) && x == y.Plus(left)
    && LookAt(g, end, p, 4) == Wall && LookAt(g, end, p, 6) == Wall && LookAt(g, end, p, 7) == Wall
    && LookAt(g, end, p, 5) == Clear && Seen(g, end, y.Plus(down), down) == Wall && Seen(g, end, x, left) == JumpPoint
  }

  lemma SmallBesideIsSo(g: Grid, r: int, c: int, end: Point, p: Point, a: Point, b: Point, down: Point, left: Point)
    requires IsSmall(g, r, c) && At(end, r, c) && At(p, r, c + 3) && At(a, r + 1, c + 3) && At(b, r, c + 2)
    requires down == Offset(0) && left == Offset(3)
    ensures SmallBeside(g, end, p, a, b, down, left)
  {
  }

  lemma SmallAslantIsSo(g: Grid, r: int, c: int, end: Point, p: Point, y: Point, x: Point,
                        down: Point, left: Point, aslant: Point)
    requires IsSmall(g, r, c) && At(end, r, c) && At(p, r, c + 3) && At(y, r + 1, c + 2) && At(x, r + 1, c + 1)
    requires down == Offset(0) && left == Offset(3) && aslant == Offset(5)
    ensures SmallAslant(g, end, p, y, x, down, left, aslant)
  {
    SmallCornerIsSo(g, r, c, end, p);
    SmallBelowBlock(g, r, c, end, y, x, left, aslant);
  }

  lemma SmallCornerIsSo(g: Grid, r: int, c: int, end: Point, p: Point)
    requires IsSmall(g, r, c) && At(p, r, c + 3)
    ensures LookAt(g, end, p, 4) == Wall && LookAt(g, end, p, 6) == Wall && LookAt(g, end, p, 7) == Wall
  {
  }

  lemma SmallBelowBlock(g: Grid, r: int, c: int, end: Point, y: Point, x: Point, left: Point, aslant: Point)
    requires IsSmall(g, r, c) && At(end, r, c) && At(y, r + 1, c + 2) && At(x, r + 1, c + 1)
    requires left == Offset(3) && aslant == Offset(5)
    ensures Seen(g, end, y, aslant) == Clear && Seen(g, end, x, left) == JumpPoint
  {
  }

  lemma SmallStraight(g: Grid, end: Point, p: Point, a: Point, b: Point, down: Point, left: Point, s: Sweep, t: Sweep)
    requires g.Valid() && SmallBeside(g, end, p, a, b, down, left)
    requires s.closed == {p} && t == Swept(Swept(s, a, down), b, left)
    ensures Around(g, end, s, p, 4) == t
  {
    var u := Swept(s, a, down);
    SweepsOne(g, end, s, a, down);
    ProbesNext(g, end, s, p, 0, s, a, down, u);
    PassesOver(g, end, s, p, 1, u);
    PassesOver(g, end, s, p, 2, u);
    SweepsOne(g, end, u, b, left);
    ProbesNext(g, end, s, p, 3, u, b, left, t);
  }

  /** The diagonal probe makes `x` a jump point, with parent `y`, and leaves `y` open. */
  lemma SmallDiagonal(g: Grid, end: Point, p: Point, y: Point, x: Point, down: Point, left: Point, aslant: Point,
                      s: Sweep, t: Sweep, u: Sweep)
    requires g.Valid() && down == Offset(0) && left == Offset(3) && SmallAslant(g, end, p, y, x, down, left, aslant)
    requires Around(g, end, s, p, 4) == t && y !in t.closed
    requires u == Pushed(Stopped(Visited(t, y, aslant), x, left, end), y, end)
    ensures Around(g, end, s, p, 8) == u
  {
    var v := Visited(t, y, aslant);
    PassesOver(g, end, s, p, 4, t);
    RunsOut(g, end, v, y.Plus(down), down);
    Stops(g, end, v, x, left);
    Branches(g, end, t, y, aslant, down, y.Plus(down), left, x, v, false, Stopped(v, x, left, end), true);
    ProbesNext(g, end, s, p, 5, t, y, aslant, u);
    PassesOver(g, end, s, p, 6, u);
    PassesOver(g, end, s, p, 7, u);
  }

  /** The containers after the jump from the start. */
  ghost function SmallFirst(s: Sweep, end: Point, p: Point, a: Point, b: Point, y: Point, x: Point,
                            down: Point, left: Point, aslant: Point): Sweep {
    var t := Swept(Swept(Closed(s, p), a, down), b, left);
    Pushed(Stopped(Visited(t, y, aslant), x, left, end), y, end)
  }

  lemma SmallFirstJump(g: Grid, s: Sweep, end: Point, p: Point, a: Point, b: Point, y: Point, x: Point,
                       down: Point, left: Point, aslant: Point)
    requires g.Valid() && g.IsInside(p) && s.closed == {} && y !in {p, a, b}
    requires SmallBeside(g, end, p, a, b, down, left) && SmallAslant(g, end, p, y, x, down, left, aslant)
    ensures Jumped(g, end, s, p) == SmallFirst(s, end, p, a, b, y, x, down, left, aslant)
  {
    var s0 := Closed(s, p);
    var t := Swept(Swept(s0, a, down), b, left);
    SmallStraight(g, end, p, a, b, down, left, s0, t);
    SmallDiagonal(g, end, p, y, x, down, left, aslant, s0, t, SmallFirst(s, end, p, a, b, y, x, down, left, aslant));
    JumpedAround(g, end, s, p);
  }

  lemma SmallFirstQueue(s: Sweep, r: int, c: int, end: Point, p: Point, a: Point, b: Point, y: Point, x: Point,
                        down: Point, left: Point, aslant: Point)
    requires At(end, r, c) && At(y, r + 1, c + 2) && At(x, r + 1, c + 1) && s.open == multiset{} && s.closed == {}
    ensures var t := SmallFirst(s, end, p, a, b, y, x, down, left, aslant);
            t.open == multiset{Node(2, x), Node(3, y)} && t.closed == {p, a, b}
  {
  }

  lemma SmallFirstParents(s: Sweep, r: int, c: int, end: Point, p: Point, a: Point, b: Point, y: Point, x: Point,
                          down: Point, left: Point, aslant: Point)
    requires At(p, r, c + 3) && At(a, r + 1, c + 3) && At(b, r, c + 2) && At(y, r + 1, c + 2) && At(x, r + 1, c + 1)
    requires down == Offset(0) && left == Offset(3) && aslant == Offset(5)
    ensures SmallFirst(s, end, p, a, b, y, x, down, left, aslant).parents == s.parents[a := p][b := p][y := p][x := y]
  {
    assert Before(a, down) == p && Before(b, left) == p && Before(y, aslant) == p && Before(x, left) == y;
  }

  /** What the jump from the jump point `p` meets: nothing but `y` and `a` to its right, ... */
  ghost predicate SmallRight(g: Grid, end: Point, p: Point, y: Point, a: Point, right: Point)
    requires g.Valid()
  {
    && right == Offset(2) && y == p.Plus(right) && a == y.Plus(right)
    && LookAt(g, end, p, 0) == Wall && LookAt(g, end, p, 1) == Wall
    && LookAt(g, end, p, 2) == Clear && Seen(g, end, a, right) == Clear && Seen(g, end, a.Plus(right), right) == Wall
  }

  /** ... `e` to its left, `b`, which is closed, and the goal. */
  ghost predicate SmallLeft(g: Grid, end: Point, p: Point, e: Point, b: Point, left: Point, upLeft: Point)
    requires g.Valid()
  {
    && left == Offset(3) && upLeft == Offset(7) && e == p.Plus(left) && b == p.Plus(Offset(6)) && end == p.Plus(upLeft)
    && LookAt(g, end, p, 3) == Clear && Seen(g, end, e.Plus(left), left) == Wall
    && LookAt(g, end, p, 4) == Wall && LookAt(g, end, p, 5) == Wall && LookAt(g, end, p, 7) == Goal
  }

  lemma SmallRightIsSo(g: Grid, r: int, c: int, end: Point, p: Point, y: Point, a: Point, right: Point)
    requires IsSmall(g, r, c) && At(end, r, c)
    requires At(p, r + 1, c + 1) && At(y, r + 1, c + 2) && At(a, r + 1, c + 3) && right == Offset(2)
    ensures SmallRight(g, end, p, y, a, right)
  {
  }

  lemma SmallLeftIsSo(g: Grid, r: int, c: int, end: Point, p: Point, e: Point, b: Point, left: Point, upLeft: Point)
    requires IsSmall(g, r, c) && At(end, r, c) && At(p, r + 1, c + 1) && At(e, r + 1, c) && At(b, r, c + 2)
    requires left == Offset(3) && upLeft == Offset(7)
    ensures SmallLeft(g, end, p, e, b, left, upLeft)
  {
  }

  /** The containers after the jump from the jump point: the probe to the right has overwritten the parent of `y`. */
  ghost function SmallSecond(s: Sweep, end: Point, p: Point, y: Point, a: Point, e: Point,
                             right: Point, left: Point, upLeft: Point): Sweep
  {
    Visited(Swept(Swept(Swept(Closed(s, p), y, right), a, right), e, left), end, upLeft)
  }

  lemma SmallSecondJump(g: Grid, s: Sweep, end: Point, p: Point, y: Point, a: Point, e: Point, b: Point,
                        right: Point, left: Point, upLeft: Point)
    requires g.Valid() && g.IsInside(p)
    requires SmallRight(g, end, p, y, a, right) && SmallLeft(g, end, p, e, b, left, upLeft)
    requires b in s.closed && y !in s.closed + {p} && e !in s.closed + {p, y, a} && end !in s.closed + {p, y, a, e}
    ensures Jumped(g, end, s, p) == SmallSecond(s, end, p, y, a, e, right, left, upLeft)
  {
    var s0 := Closed(s, p);
    var t := Swept(Swept(s0, y, right), a, right);
    var u := Swept(t, e, left);
    PassesOver(g, end, s0, p, 0, s0);
    PassesOver(g, end, s0, p, 1, s0);
    SweepsTwo(g, end, s0, y, a, right);
    ProbesNext(g, end, s0, p, 2, s0, y, right, t);
    SweepsOne(g, end, t, e, left);
    ProbesNext(g, end, s0, p, 3, t, e, left, u);
    PassesOver(g, end, s0, p, 4, u);
    PassesOver(g, end, s0, p, 5, u);
    PassesOver(g, end, s0, p, 6, u);
    FindsGoal(g, end, u, end, upLeft);
    ProbesNext(g, end, s0, p, 7, u, end, upLeft, Visited(u, end, upLeft));
    JumpedAround(g, end, s, p);
  }

  lemma SmallSecondState(s: Sweep, r: int, c: int, end: Point, p: Point, y: Point, a: Point, e: Point,
                         right: Point, left: Point, upLeft: Point)
    requires At(end, r, c) && At(p, r + 1, c + 1) && At(y, r + 1, c + 2) && At(a, r + 1, c + 3) && At(e, r + 1, c)
    requires right == Offset(2) && left == Offset(3) && upLeft == Offset(7)
    ensures SmallSecond(s, end, p, y, a, e, right, left, upLeft).parents == s.parents[y := p][a := y][e := p][end := p]
  {
    assert Before(y, right) == p && Before(a, right) == y && Before(e, left) == p && Before(end, upLeft) == p;
  }

  /** Two cells that are each other's parents: a chain that reaches them does not end. */
  lemma {:induction false} CircleHasNoEnd(parents: map<Point, Point>, a: Point, b: Point, n: nat)
    requires a in parents && b in parents && parents[a] == b && parents[b] == a
    ensures !ChainEnds(parents, a, n)
    decreases n
  {
    if n > 0 { CircleHasNoEnd(parents, b, a, n - 1); }
  }

  /** The first jump on the small grid. */
  lemma SmallFirstIteration(g: Grid, r: int, c: int, start: Point, end: Point, a: Point, b: Point, y: Point, x: Point)
    requires IsSmall(g, r, c) && At(start, r, c + 3) && At(end, r, c)
    requires At(a, r + 1, c + 3) && At(b, r, c + 2) && At(y, r + 1, c + 2) && At(x, r + 1, c + 1)
    ensures var t := FirstJump(g, start, end);
            && t.open == multiset{Node(2, x), Node(3, y)} && t.closed == {start, a, b}
            && t.parents == map[a := start][b := start][y := start][x := y]
  {
    var down, left, aslant := Offset(0), Offset(3), Offset(5);
    var s := Unstarted(start).(open := multiset{});
    SmallBesideIsSo(g, r, c, end, start, a, b, down, left);
    SmallAslantIsSo(g, r, c, end, start, y, x, down, left, aslant);
    SmallFirstQueue(s, r, c, end, start, a, b, y, x, down, left, aslant);
    SmallFirstParents(s, r, c, end, start, a, b, y, x, down, left, aslant);
    SmallFirstJump(g, s, end, start, a, b, y, x, down, left, aslant);
  }

  lemma SmallStillOpen(r: int, c: int, closed: set<Point>, end: Point, p: Point, y: Point, a: Point, e: Point, b: Point)
    requires At(end, r, c) && At(p, r + 1, c + 1) && At(y, r + 1, c + 2) && At(a, r + 1, c + 3)
    requires At(e, r + 1, c) && At(b, r, c + 2) && closed == {Point(r, c + 3), a, b}
    ensures b in closed && y !in closed + {p} && e !in closed + {p, y, a} && end !in closed + {p, y, a, e}
  {
  }

  lemma SmallSecondIteration(g: Grid, r: int, c: int, s: Sweep, end: Point, p: Point, y: Point, a: Point, e: Point,
                             b: Point)
    requires IsSmall(g, r, c) && At(end, r, c) && At(p, r + 1, c + 1) && At(y, r + 1, c + 2) && At(a, r + 1, c + 3)
    requires At(e, r + 1, c) && At(b, r, c + 2) && s.closed == {Point(r, c + 3), a, b}
    ensures Jumped(g, end, s, p).parents == s.parents[y := p][a := y][e := p][end := p]
  {
    var right, left, upLeft := Offset(2), Offset(3), Offset(7);
    SmallRightIsSo(g, r, c, end, p, y, a, right);
    SmallLeftIsSo(g, r, c, end, p, e, b, left, upLeft);
    SmallSecondState(s, r, c, end, p, y, a, e, right, left, upLeft);
    SmallStillOpen(r, c, s.closed, end, p, y, a, e, b);
    SmallSecondJump(g, s, end, p, y, a, e, b, right, left, upLeft);
  }

  /** On the small grid, whatever the queue does: the second iteration reaches the goal, and the goal's parent chain
      runs into a circle of two cells, although the start has no parent. */
  lemma GoalIsReachedInACircle(g: Grid, r: int, c: int, start: Point, end: Point)
    returns (top: Node, s1: Sweep, s2: Sweep)
    requires IsSmall(g, r, c) && At(start, r, c + 3) && At(end, r, c)
    ensures SecondJump(g, start, end, top, s1, s2)
    ensures end in s2.parents && start !in s2.parents && !Ends(s2.parents, end)
  {
    var a, b, e := Point(r + 1, c + 3), Point(r, c + 2), Point(r + 1, c);
    var y, x := Point(r + 1, c + 2), Point(r + 1, c + 1);
    SmallFirstIteration(g, r, c, start, end, a, b, y, x);
    s1, top := FirstJump(g, start, end), Node(2, x);
    BestOfTwo(s1.open, top, Node(3, y));
    s2 := Jumped(g, end, s1.(open := s1.open - multiset{top}), x);
    SmallSecondIteration(g, r, c, s1.(open := s1.open - multiset{top}), end, x, y, a, e, b);
    if n: nat :| ChainEnds(s2.parents, end, n) {
      CircleHasNoEnd(s2.parents, x, y, n - 1);
    }
  }

  /** So the search is still running, however long one waits. */
  lemma SearchDoesNotReturn(g: Grid, r: int, c: int, start: Point, end: Point, fuel: nat, o: Outcome)
    requires IsSmall(g, r, c) && At(start, r, c + 3) && At(end, r, c)
    requires ComesTo(g, end, Unstarted(start), fuel, fuel, o)
    ensures o == StillRunning
  {
    var top, s1, s2 := GoalIsReachedInACircle(g, r, c, start, end);
    NeverReturns(g, start, end, top, s1, s2, fuel, o);
  }

  /** There is a legal walk to the goal, so A* returns a path. */
  lemma YetThereIsAWalk(g: Grid, r: int, c: int, start: Point, end: Point)
    requires IsSmall(g, r, c) && At(start, r, c + 3) && At(end, r, c)
    ensures !Astar.Unreachable(g, start, end)
  {
    WalkOfSteps(g, [start, Point(r, c + 2), Point(r + 1, c + 1), end]);
  }

  lemma SmallIsEndless(g: Grid, r: int, c: int, start: Point, end: Point)
    requires IsSmall(g, r, c) && At(start, r, c + 3) && At(end, r, c)
    ensures Endless(g, start, end)
  {
    forall fuel, o | ComesTo(g, end, Unstarted(start), fuel, fuel, o) ensures o == StillRunning {
      SearchDoesNotReturn(g, r, c, start, end, fuel, o);
    }
  }

  /** Both at the grid itself, from its top right to its top left corner. */
  lemma SmallGridDefeatsSearch()
    ensures Endless(SmallGrid(), Point(0, 3), Point(0, 0))
  {
    SmallGridIsSmall();
    SmallIsEndless(SmallGrid(), 0, 0, Point(0, 3), Point(0, 0));
  }

  lemma SmallGridHasWalk()
    ensures !Astar.Unreachable(SmallGrid(), Point(0, 3), Point(0, 0))
  {
    SmallGridIsSmall();
    YetThereIsAWalk(SmallGrid(), 0, 0, Point(0, 3), Point(0, 0));
  }

  // ---------------------------------------------------------------- a start that gains a parent

  function SweptGrid(): Grid {
    Grid(3, 5, [true, true, false, true, false, false, false, false, true, false, false, false, false, false, false])
  }

  ghost predicate OnWide(p: Point, r: int, c: int) {
    r <= p.r <= r + 2 && c <= p.c <= c + 4
  }

  /** Three rows and five columns; four cells are blocked. */
  ghost predicate IsWide(g: Grid, r: int, c: int) {
    && g.Valid()
    && (forall p {:trigger g.IsInside(p)} :: g.IsInside(p) <==> OnWide(p, r, c))
    && (forall p {:trigger g.IsFree(p)} :: g.IsFree(p) <==>
          OnWide(p, r, c) && !At(p, r, c) && !At(p, r, c + 1) && !At(p, r, c + 3) && !At(p, r + 1, c + 3))
  }

  lemma SweptGridIsWide()
    ensures IsWide(SweptGrid(), 0, 0)
  {
    var g := SweptGrid();
    forall p ensures g.IsFree(p) <==>
                     OnWide(p, 0, 0) && !At(p, 0, 0) && !At(p, 0, 1) && !At(p, 0, 3) && !At(p, 1, 3) {
      if g.IsInside(p) {
        g.IndexIsRowMajor(p);
        assert p.r * 5 + p.c == if p.r == 0 then p.c else if p.r == 1 then 5 + p.c else 10 + p.c;
      }
    }
  }

  /** What the straight probes from the start `p` meet: `a` below is clear, `j` to the right has a forced neighbour. */
  ghost predicate WideBeside(g: Grid, end: Point, p: Point, a: Point, j: Point, down: Point, right: Point)
    requires g.Valid()
  {
    && down == Offset(0) && right == Offset(2) && a == p.Plus(down) && j == p.Plus(right) && j !in {p, a}
    && LookAt(g, end, p, 0) == Clear && Seen(g, end, a.Plus(down), down) == Wall
    && LookAt(g, end, p, 1) == Wall && LookAt(g, end, p, 2) == JumpPoint && LookAt(g, end, p, 3) == Wall
  }

  /** The diagonal one passes `m`, from which a straight one passes `n` and stops at `o`. */
  ghost predicate WideAslant(g: Grid, end: Point, p: Point, m: Point, n: Point, o: Point,
                             down: Point, right: Point, aslant: Point)
    requires g.Valid() && down == Offset(0) && right == Offset(2)
  {
    && aslant == Offset(4) && m == p.Plus(aslant) && n == m.Plus(right) && o == n.Plus(right)
    && LookAt(g, end, p, 4) == Clear && Seen(g, end, m.Plus(down), down) == Wall
    && Seen(g, end, n, right) == Clear && Seen(g, end, o, right) == JumpPoint
    && LookAt(g, end, p, 5) == Wall && LookAt(g, end, p, 6) == Wall && LookAt(g, end, p, 7) == Wall
  }

  lemma WideBesideIsSo(g: Grid, r: int, c: int, end: Point, p: Point, a: Point, j: Point, down: Point, right: Point)
    requires IsWide(g, r, c) && At(end, r + 1, c + 4) && At(p, r + 1, c) && At(a, r + 2, c) && At(j, r + 1, c + 1)
    requires down == Offset(0) && right == Offset(2)
    ensures WideBeside(g, end, p, a, j, down, right)
  {
  }

  lemma WideAslantIsSo(g: Grid, r: int, c: int, end: Point, p: Point, m: Point, n: Point, o: Point,
                       down: Point, right: Point, aslant: Point)
    requires IsWide(g, r, c) && At(end, r + 1, c + 4) && At(p, r + 1, c)
    requires At(m, r + 2, c + 1) && At(n, r + 2, c + 2) && At(o, r + 2, c + 3)
    requires down == Offset(0) && right == Offset(2) && aslant == Offset(4)
    ensures WideAslant(g, end, p, m, n, o, down, right, aslant)
  {
    WideFloorIsSo(g, r, c, end, n, o, right);
    WideEdgeIsSo(g, r, c, end, p);
  }

  lemma WideEdgeIsSo(g: Grid, r: int, c: int, end: Point, p: Point)
    requires IsWide(g, r, c) && At(p, r + 1, c)
    ensures LookAt(g, end, p, 5) == Wall && LookAt(g, end, p, 6) == Wall && LookAt(g, end, p, 7) == Wall
  {
  }

  lemma WideFloorIsSo(g: Grid, r: int, c: int, end: Point, n: Point, o: Point, right: Point)
    requires IsWide(g, r, c) && At(end, r + 1, c + 4) && At(n, r + 2, c + 2) && At(o, r + 2, c + 3)
    requires right == Offset(2)
    ensures Seen(g, end, n, right) == Clear && Seen(g, end, o, right) == JumpPoint
  {
  }

  ghost function WideFirst(s: Sweep, end: Point, p: Point, a: Point, j: Point, m: Point, n: Point, o: Point,
                           down: Point, right: Point, aslant: Point): Sweep
  {
    var t := Stopped(Swept(Closed(s, p), a, down), j, right, end);
    Pushed(Stopped(Swept(Visited(t, m, aslant), n, right), o, right, end), m, end)
  }

  lemma WideFirstJump(g: Grid, s: Sweep, end: Point, p: Point, a: Point, j: Point, m: Point, n: Point, o: Point,
                      down: Point, right: Point, aslant: Point)
    requires g.Valid() && g.IsInside(p) && s.closed == {} && a != p && m !in {p, a}
    requires WideBeside(g, end, p, a, j, down, right) && WideAslant(g, end, p, m, n, o, down, right, aslant)
    ensures Jumped(g, end, s, p) == WideFirst(s, end, p, a, j, m, n, o, down, right, aslant)
  {
    var s0 := Closed(s, p);
    var s1 := Swept(s0, a, down);
    var t := Stopped(s1, j, right, end);
    SweepsOne(g, end, s0, a, down);
    ProbesNext(g, end, s0, p, 0, s0, a, down, s1);
    PassesOver(g, end, s0, p, 1, s1);
    Stops(g, end, s1, j, right);
    ProbesNext(g, end, s0, p, 2, s1, j, right, t);
    PassesOver(g, end, s0, p, 3, t);
    WideDiagonal(g, end, p, m, n, o, down, right, aslant, s0, t,
                 WideFirst(s, end, p, a, j, m, n, o, down, right, aslant));
    JumpedAround(g, end, s, p);
  }

  lemma WideDiagonal(g: Grid, end: Point, p: Point, m: Point, n: Point, o: Point, down: Point, right: Point,
                     aslant: Point, s: Sweep, t: Sweep, u: Sweep)
    requires g.Valid() && down == Offset(0) && right == Offset(2) && WideAslant(g, end, p, m, n, o, down, right, aslant)
    requires Around(g, end, s, p, 4) == t && m !in t.closed
    requires u == Pushed(Stopped(Swept(Visited(t, m, aslant), n, right), o, right, end), m, end)
    ensures Around(g, end, s, p, 8) == u
  {
    var v := Visited(t, m, aslant);
    RunsOut(g, end, v, m.Plus(down), down);
    SweepsAndStops(g, end, v, n, o, right);
    Branches(g, end, t, m, aslant, down, m.Plus(down), right, n, v, false,
             Stopped(Swept(v, n, right), o, right, end), true);
    ProbesNext(g, end, s, p, 4, t, m, aslant, u);
    PassesOver(g, end, s, p, 5, u);
    PassesOver(g, end, s, p, 6, u);
    PassesOver(g, end, s, p, 7, u);
  }

  lemma WideFirstState(s: Sweep, r: int, c: int, end: Point, p: Point, a: Point, j: Point, m: Point, n: Point, o: Point,
                       down: Point, right: Point, aslant: Point)
    requires At(end, r + 1, c + 4) && At(j, r + 1, c + 1) && At(m, r + 2, c + 1) && At(o, r + 2, c + 3)
    requires s.open == multiset{} && s.closed == {} && s.parents == map[]
    ensures var t := WideFirst(s, end, p, a, j, m, n, o, down, right, aslant);
            && t.open == multiset{Node(3, j), Node(2, o), Node(4, m)} && t.closed == {p, a, n}
            && t.parents.Keys == {a, j, m, n, o}
  {
    assert Manhattan(j, end) == 3 && Manhattan(m, end) == 4 && Manhattan(o, end) == 2;
  }

  /** What the jump from the jump point `o` meets: `f` to its right, the closed `n`, the goal, ... */
  ghost predicate WideRight(g: Grid, end: Point, o: Point, f: Point, n: Point, right: Point, upRight: Point)
    requires g.Valid()
  {
    && right == Offset(2) && upRight == Offset(6)
    && f == o.Plus(right) && n == o.Plus(Offset(3)) && end == o.Plus(upRight)
    && LookAt(g, end, o, 0) == Wall && LookAt(g, end, o, 1) == Wall
    && LookAt(g, end, o, 2) == Clear && Seen(g, end, f.Plus(right), right) == Wall
    && LookAt(g, end, o, 4) == Wall && LookAt(g, end, o, 5) == Wall && LookAt(g, end, o, 6) == Goal
  }

  /** ... and diagonally `h`: from there a probe goes up over `i`, and one goes left, over `j` and the start `p`. */
  ghost predicate WideBack(g: Grid, end: Point, o: Point, h: Point, i: Point, j: Point, p: Point,
                           up: Point, left: Point, upLeft: Point)
    requires g.Valid()
  {
    && up == Offset(1) && left == Offset(3) && upLeft == Offset(7)
    && h == o.Plus(upLeft) && i == h.Plus(up) && j == h.Plus(left) && p == j.Plus(left)
    && LookAt(g, end, o, 7) == Clear && Seen(g, end, h.Plus(upLeft), upLeft) == Wall
    && Seen(g, end, i, up) == Clear && Seen(g, end, i.Plus(up), up) == Wall
    && Seen(g, end, j, left) == Clear && Seen(g, end, p, left) == Clear && Seen(g, end, p.Plus(left), left) == Wall
  }

  lemma WideRightIsSo(g: Grid, r: int, c: int, end: Point, o: Point, f: Point, n: Point, right: Point, upRight: Point)
    requires IsWide(g, r, c) && At(end, r + 1, c + 4)
    requires At(o, r + 2, c + 3) && At(f, r + 2, c + 4) && At(n, r + 2, c + 2)
    requires right == Offset(2) && upRight == Offset(6)
    ensures WideRight(g, end, o, f, n, right, upRight)
  {
  }

  lemma WideBackIsSo(g: Grid, r: int, c: int, end: Point, o: Point, h: Point, i: Point, j: Point, p: Point,
                     up: Point, left: Point, upLeft: Point)
    requires IsWide(g, r, c) && At(end, r + 1, c + 4) && At(o, r + 2, c + 3) && At(h, r + 1, c + 2) && At(i, r, c + 2)
    requires At(j, r + 1, c + 1) && At(p, r + 1, c) && up == Offset(1) && left == Offset(3) && upLeft == Offset(7)
    ensures WideBack(g, end, o, h, i, j, p, up, left, upLeft)
  {
  }

  /** The probe that sweeps over the start. */
  lemma WideSweep(g: Grid, end: Point, o: Point, h: Point, i: Point, j: Point, p: Point, up: Point, left: Point,
                  upLeft: Point, s: Sweep)
    requires g.Valid() && WideBack(g, end, o, h, i, j, p, up, left, upLeft)
    ensures Probed(g, end, s, h, upLeft) ==
            (Closed(Swept(Swept(Swept(Visited(s, h, upLeft), i, up), j, left), p, left), h), false)
  {
    var t := Swept(Visited(s, h, upLeft), i, up);
    var u := Swept(Swept(t, j, left), p, left);
    SweepsOne(g, end, Visited(s, h, upLeft), i, up);
    SweepsTwo(g, end, t, j, p, left);
    Branches(g, end, s, h, upLeft, up, i, left, j, t, false, u, false);
    RunsOut(g, end, Closed(u, h), h.Plus(upLeft), upLeft);
  }

  lemma WideSecondJump(g: Grid, s: Sweep, end: Point, o: Point, f: Point, n: Point, h: Point, i: Point, j: Point,
                       p: Point, right: Point, upRight: Point, up: Point, left: Point, upLeft: Point)
    requires g.Valid() && g.IsInside(o)
    requires WideRight(g, end, o, f, n, right, upRight) && WideBack(g, end, o, h, i, j, p, up, left, upLeft)
    requires n in s.closed && f !in s.closed + {o} && end !in s.closed + {o, f} && h !in s.closed + {o, f}
    ensures end in Jumped(g, end, s, o).parents && p in Jumped(g, end, s, o).parents
  {
    var s0 := Closed(s, o);
    var t := Swept(s0, f, right);
    var u := Visited(t, end, upRight);
    PassesOver(g, end, s0, o, 0, s0);
    PassesOver(g, end, s0, o, 1, s0);
    SweepsOne(g, end, s0, f, right);
    ProbesNext(g, end, s0, o, 2, s0, f, right, t);
    PassesOver(g, end, s0, o, 3, t);
    PassesOver(g, end, s0, o, 4, t);
    PassesOver(g, end, s0, o, 5, t);
    FindsGoal(g, end, t, end, upRight);
    ProbesNext(g, end, s0, o, 6, t, end, upRight, u);
    WideSweep(g, end, o, h, i, j, p, up, left, upLeft, u);
    ProbesNext(g, end, s0, o, 7, u, h, upLeft,
               Closed(Swept(Swept(Swept(Visited(u, h, upLeft), i, up), j, left), p, left), h));
    JumpedAround(g, end, s, o);
  }

  lemma WideFirstIteration(g: Grid, r: int, c: int, start: Point, end: Point, a: Point, j: Point, m: Point, n: Point,
                           o: Point)
    requires IsWide(g, r, c) && At(start, r + 1, c) && At(end, r + 1, c + 4)
    requires At(a, r + 2, c) && At(j, r + 1, c + 1) && At(m, r + 2, c + 1) && At(n, r + 2, c + 2) && At(o, r + 2, c + 3)
    ensures var t := FirstJump(g, start, end);
            && t.open == multiset{Node(3, j), Node(2, o), Node(4, m)} && t.closed == {start, a, n}
            && t.parents.Keys == {a, j, m, n, o}
  {
    var down, right, aslant := Offset(0), Offset(2), Offset(4);
    var s := Unstarted(start).(open := multiset{});
    WideBesideIsSo(g, r, c, end, start, a, j, down, right);
    WideAslantIsSo(g, r, c, end, start, m, n, o, down, right, aslant);
    WideFirstState(s, r, c, end, start, a, j, m, n, o, down, right, aslant);
    WideFirstJump(g, s, end, start, a, j, m, n, o, down, right, aslant);
  }

  lemma WideStillOpen(r: int, c: int, closed: set<Point>, end: Point, start: Point, o: Point, f: Point, h: Point)
    requires At(end, r + 1, c + 4) && At(start, r + 1, c) && At(o, r + 2, c + 3) && At(f, r + 2, c + 4)
    requires At(h, r + 1, c + 2) && closed == {start, Point(r + 2, c), Point(r + 2, c + 2)}
    ensures f !in closed + {o} && end !in closed + {o, f} && h !in closed + {o, f}
  {
  }

  lemma WideSecondIteration(g: Grid, r: int, c: int, s: Sweep, start: Point, end: Point, o: Point, n: Point)
    requires IsWide(g, r, c) && At(start, r + 1, c) && At(end, r + 1, c + 4)
    requires At(o, r + 2, c + 3) && At(n, r + 2, c + 2)
    requires s.closed == {start, Point(r + 2, c), n}
    ensures end in Jumped(g, end, s, o).parents && start in Jumped(g, end, s, o).parents
  {
    var f, h, i, j := Point(r + 2, c + 4), Point(r + 1, c + 2), Point(r, c + 2), Point(r + 1, c + 1);
    var right, upRight, up, left, upLeft := Offset(2), Offset(6), Offset(1), Offset(3), Offset(7);
    WideRightIsSo(g, r, c, end, o, f, n, right, upRight);
    WideBackIsSo(g, r, c, end, o, h, i, j, start, up, left, upLeft);
    WideStillOpen(r, c, s.closed, end, start, o, f, h);
    WideSecondJump(g, s, end, o, f, n, h, i, j, start, right, upRight, up, left, upLeft);
  }

  /** On this grid the second iteration reaches the goal, and sweeps over the start: no chain ends any more. */
  lemma StartIsSwept(g: Grid, r: int, c: int, start: Point, end: Point) returns (top: Node, s1: Sweep, s2: Sweep)
    requires IsWide(g, r, c) && At(start, r + 1, c) && At(end, r + 1, c + 4)
    ensures SecondJump(g, start, end, top, s1, s2) && IsTrace(g, start, end, [Unstarted(start), s1, s2])
    ensures end in s2.parents && start in s2.parents && !Ends(s2.parents, end)
  {
    var a, j, m := Point(r + 2, c), Point(r + 1, c + 1), Point(r + 2, c + 1);
    var n, o := Point(r + 2, c + 2), Point(r + 2, c + 3);
    WideFirstIteration(g, r, c, start, end, a, j, m, n, o);
    s1, top := FirstJump(g, start, end), Node(2, o);
    BestOfThree(s1.open, top, Node(3, j), Node(4, m));
    s2 := Jumped(g, end, s1.(open := s1.open - multiset{top}), o);
    WideSecondIteration(g, r, c, s1.(open := s1.open - multiset{top}), start, end, o, n);
    TwoIterations(g, start, end, top, s1, s2);
    NoChainFromSweptStart(g, start, end, [Unstarted(start), s1, s2], 2);
  }

  lemma NoChainFromSweptStart(g: Grid, start: Point, end: Point, trace: seq<Sweep>, k: nat)
    requires g.Valid() && IsTrace(g, start, end, trace) && k < |trace|
    requires start in trace[k].parents && end in trace[k].parents
    ensures !Ends(trace[k].parents, end)
  {
    TraceIsGood(g, start, end, trace, k);
    if n: nat :| ChainEnds(trace[k].parents, end, n) {
      StartMustStayRoot(g.Free(), start, trace[k].parents, end, n);
    }
  }

  /** So this search does not return either, ... */
  lemma SweptSearchDoesNotReturn(g: Grid, r: int, c: int, start: Point, end: Point, fuel: nat, o: Outcome)
    requires IsWide(g, r, c) && At(start, r + 1, c) && At(end, r + 1, c + 4)
    requires ComesTo(g, end, Unstarted(start), fuel, fuel, o)
    ensures o == StillRunning
  {
    var top, s1, s2 := StartIsSwept(g, r, c, start, end);
    NeverReturns(g, start, end, top, s1, s2, fuel, o);
  }

  /** ... although there is a legal walk. */
  lemma YetThereIsAWideWalk(g: Grid, r: int, c: int, start: Point, end: Point)
    requires IsWide(g, r, c) && At(start, r + 1, c) && At(end, r + 1, c + 4)
    ensures !Astar.Unreachable(g, start, end)
  {
    WalkOfSteps(g, [start, Point(r + 2, c + 1), Point(r + 2, c + 2), Point(r + 2, c + 3), end]);
  }

  /** All of that at the grid itself, from the left to the right end of its middle row: the state in which the start has
      a parent, ... */
  lemma SweptGridSweepsStart() returns (s1: Sweep, s2: Sweep)
    ensures IsTrace(SweptGrid(), Point(1, 0), Point(1, 4), [Unstarted(Point(1, 0)), s1, s2])
    ensures Point(1, 0) in s2.parents && Point(1, 4) in s2.parents && !Ends(s2.parents, Point(1, 4))
  {
    SweptGridIsWide();
    var top;
    top, s1, s2 := StartIsSwept(SweptGrid(), 0, 0, Point(1, 0), Point(1, 4));
  }

  lemma WideIsEndless(g: Grid, r: int, c: int, start: Point, end: Point)
    requires IsWide(g, r, c) && At(start, r + 1, c) && At(end, r + 1, c + 4)
    ensures Endless(g, start, end)
  {
    forall fuel, o | ComesTo(g, end, Unstarted(start), fuel, fuel, o) ensures o == StillRunning {
      SweptSearchDoesNotReturn(g, r, c, start, end, fuel, o);
    }
  }

  /** ... the search that does not return, ... */
  lemma SweptGridDefeatsSearch()
    ensures Endless(SweptGrid(), Point(1, 0), Point(1, 4))
  {
    SweptGridIsWide();
    WideIsEndless(SweptGrid(), 0, 0, Point(1, 0), Point(1, 4));
  }

  /** ... and the walk. */
  lemma SweptGridHasWalk()
    ensures !Astar.Unreachable(SweptGrid(), Point(1, 0), Point(1, 4))
  {
    SweptGridIsWide();
    YetThereIsAWideWalk(SweptGrid(), 0, 0, Point(1, 0), Point(1, 4));
  }
}
