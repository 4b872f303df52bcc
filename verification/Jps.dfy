/** Jump point search over the same grid. Its loop and its parent chains need not end; whatever it returns is a legal
    walk. When its chains do end is the subject of JpsChains and JpsFirstJump. */
module Jps {
  import opened Grids
  import opened Walks
  import opened Pathfinder
  import Astar

  /** One of the eight unit directions. */
  predicate IsDirection(d: Point) {
    Adjacent(Point(0, 0), d)
  }

  predicate IsDiagonal(d: Point) {
    d.r != 0 && d.c != 0
  }

  function Before(p: Point, d: Point): Point {
    Point(p.r - d.r, p.c - d.c)
  }

  // ---------------------------------------------------------------- what a probe does

  /** One write of `parents`: `p` is visited, coming from `from`. */
  datatype Visit = Visit(p: Point, from: Point)

  /** The containers that the search's closures share, and all visits so far. */
  datatype Sweep = Sweep(open: multiset<Node>, closed: set<Point>, parents: map<Point, Point>, visits: seq<Visit>)

  /** A forced neighbour: a blocked cell beside the probe, with a free one behind it. */
  predicate Forced(grid: Grid, block: Point, direction: Point)
    requires grid.Valid()
  {
    grid.IsInside(block) && !grid.IsFree(block) && grid.IsFree(block.Plus(direction))
  }

  /** Does a horizontal or vertical probe have to stop at `p`? */
  predicate StopsStraight(grid: Grid, p: Point, d: Point)
    requires grid.Valid()
  {
    if d.r != 0 then Forced(grid, Point(p.r, p.c + 1), d) || Forced(grid, Point(p.r, p.c - 1), d)
    else Forced(grid, Point(p.r + 1, p.c), d) || Forced(grid, Point(p.r - 1, p.c), d)
  }

  predicate StopsDiagonal(grid: Grid, p: Point, d: Point)
    requires grid.Valid()
  {
    Forced(grid, Point(p.r, p.c - d.c), Point(d.r, 0)) || Forced(grid, Point(p.r - d.r, p.c), Point(0, d.c))
  }

  function Pushed(s: Sweep, p: Point, end: Point): Sweep {
    s.(open := s.open + multiset{Node(Manhattan(p, end), p)})
  }

  /** How many more cells a probe can visit. */
  function Room(grid: Grid, p: Point, d: Point): nat {
    var rowRoom := if d.r > 0 then grid.rows - p.r else if d.r < 0 then p.r + 1 else 0;
    var colRoom := if d.c > 0 then grid.cols - p.c else if d.c < 0 then p.c + 1 else 0;
    if d.r != 0 then (if rowRoom < 0 then 0 else rowRoom) else if colRoom < 0 then 0 else colRoom
  }

  function Visited(s: Sweep, p: Point, d: Point): Sweep {
    s.(parents := s.parents[p := Before(p, d)], visits := s.visits + [Visit(p, Before(p, d))])
  }

  function Closed(s: Sweep, p: Point): Sweep {
    s.(closed := s.closed + {p})
  }

  /** A probe that starts on `p` in direction `d`: the containers afterwards, and whether it was successful. */
  function Probed(grid: Grid, end: Point, s: Sweep, p: Point, d: Point): (Sweep, bool)
    requires grid.Valid() && IsDirection(d)
    decreases IsDiagonal(d), Room(grid, p, d), 2
  {
    if !grid.IsFree(p) then (s, false) else
      var (t, found) := StoodOn(grid, end, s, p, d);
      if found then (t, true) else Probed(grid, end, t, p.Plus(d), d)
  }

  /** One free cell of a probe: success leaves the cell open, failure closes it and lets the probe go on. */
  function StoodOn(grid: Grid, end: Point, s: Sweep, p: Point, d: Point): (Sweep, bool)
    requires grid.Valid() && IsDirection(d) && grid.IsFree(p)
    decreases IsDiagonal(d), Room(grid, p, d), 1
  {
    var visited := Visited(s, p, d);
    if p == end then (visited, true) else
      var (t, found) := if IsDiagonal(d) then StoodDiagonal(grid, end, visited, p, d)
                        else (visited, StopsStraight(grid, p, d));
      if found then (Pushed(t, p, end), true) else (Closed(t, p), false)
  }

  /** A diagonal probe succeeds at a forced neighbour, or where one of its two straight probes succeeds. */
  function StoodDiagonal(grid: Grid, end: Point, s: Sweep, p: Point, d: Point): (Sweep, bool)
    requires grid.Valid() && IsDirection(d) && IsDiagonal(d) && grid.IsFree(p)
    decreases IsDiagonal(d), Room(grid, p, d), 0
  {
    if StopsDiagonal(grid, p, d) then (s, true) else Branched(grid, end, s, p, d)
  }

  function Branched(grid: Grid, end: Point, s: Sweep, p: Point, d: Point): (Sweep, bool)
    requires grid.Valid() && IsDirection(d) && IsDiagonal(d)
    decreases IsDiagonal(d), 0
  {
    var down, across := Point(d.r, 0), Point(0, d.c);
    var (t, f) := Probed(grid, end, s, p.Plus(down), down);
    var (u, g) := Probed(grid, end, t, p.Plus(across), across);
    (u, f || g)
  }

  predicate Neighbouring(grid: Grid, p: Point, neighbours: seq<Point>) {
    forall q :: q in neighbours ==> grid.IsInside(q) && Adjacent(p, q)
  }

  lemma LastNeighbour(grid: Grid, p: Point, neighbours: seq<Point>)
    requires Neighbouring(grid, p, neighbours) && neighbours != []
    ensures var q := neighbours[|neighbours| - 1];
            grid.IsInside(q) && Adjacent(p, q) && IsDirection(Before(q, p))
    ensures Neighbouring(grid, p, neighbours[..|neighbours| - 1])
  {
    assert neighbours[|neighbours| - 1] in neighbours;
  }

  /** One neighbour is probed unless it is closed or blocked. */
  function Attempted(grid: Grid, end: Point, s: Sweep, q: Point, d: Point): Sweep
    requires grid.Valid() && IsDirection(d) && grid.IsInside(q)
  {
    if q in s.closed || grid.IsBlocked(q) then s else Probed(grid, end, s, q, d).0
  }

  /** Jumping from `p`: the neighbours are tried in turn. */
  function Tried(grid: Grid, end: Point, s: Sweep, p: Point, neighbours: seq<Point>): Sweep
    requires grid.Valid() && Neighbouring(grid, p, neighbours)
    decreases |neighbours|
  {
    if neighbours == [] then s else
      LastNeighbour(grid, p, neighbours);
      var last := |neighbours| - 1;
      Attempted(grid, end, Tried(grid, end, s, p, neighbours[..last]), neighbours[last], Before(neighbours[last], p))
  }

  function Jumped(grid: Grid, end: Point, s: Sweep, p: Point): Sweep
    requires grid.Valid()
  {
    Tried(grid, end, Closed(s, p), p, grid.Adjacents(p))
  }

  // ---------------------------------------------------------------- soundness of the parents

  ghost predicate Known(start: Point, parents: map<Point, Point>, p: Point) {
    p == start || p in parents
  }

  /** A parent entry leads one step back, to the start or to another key. */
  ghost predicate SoundEdge(free: set<Point>, start: Point, parents: map<Point, Point>, x: Point)
    requires x in parents
  {
    x in free && Adjacent(parents[x], x) && Known(start, parents, parents[x])
  }

  ghost predicate Sound(free: set<Point>, start: Point, parents: map<Point, Point>) {
    forall x {:trigger SoundEdge(free, start, parents, x)} :: x in parents ==> SoundEdge(free, start, parents, x)
  }

  ghost predicate AllKnown(start: Point, s: Sweep) {
    forall e {:trigger Known(start, s.parents, e.p)} :: e in s.open ==> Known(start, s.parents, e.p)
  }

  /** The parents that a sequence of visits leaves behind. */
  ghost function ParentsAfter(visits: seq<Visit>): map<Point, Point> {
    if visits == [] then map[] else
      var last := visits[|visits| - 1];
      ParentsAfter(visits[..|visits| - 1])[last.p := last.from]
  }

  /** Every visit came from the start or from a cell visited before. */
  ghost predicate Rooted(start: Point, visits: seq<Visit>) {
    visits == [] ||
    var last := |visits| - 1;
    Rooted(start, visits[..last]) && Known(start, ParentsAfter(visits[..last]), visits[last].from)
  }

  ghost predicate Logged(start: Point, s: Sweep) {
    s.parents == ParentsAfter(s.visits) && Rooted(start, s.visits)
  }

  ghost predicate Good(grid: Grid, start: Point, s: Sweep)
    requires grid.Valid()
  {
    && Sound(grid.Free(), start, s.parents) && AllKnown(start, s) && (s.parents != map[] ==> grid.IsInside(start))
    && Logged(start, s)
  }

  /** Containers only grow; an unsuccessful probe queues nothing, and a successful one reached `end` or queued
      something. */
  ghost predicate Grows(end: Point, s: Sweep, t: Sweep, found: bool) {
    && s.parents.Keys <= t.parents.Keys && s.closed <= t.closed && s.open <= t.open
    && (!found ==> t.open == s.open)
    && (found ==> end in t.parents || t.open != s.open)
  }

  lemma VisitIsLogged(start: Point, s: Sweep, p: Point, d: Point)
    requires Logged(start, s) && Known(start, s.parents, Before(p, d))
    ensures Logged(start, Visited(s, p, d))
  {
    var t := Visited(s, p, d);
    assert t.visits[..|s.visits|] == s.visits;
  }

  lemma VisitIsSound(free: set<Point>, start: Point, s: Sweep, p: Point, d: Point)
    requires Sound(free, start, s.parents) && Known(start, s.parents, Before(p, d)) && p in free && IsDirection(d)
    ensures Sound(free, start, Visited(s, p, d).parents)
  {
    var parents := Visited(s, p, d).parents;
    assert Adjacent(Before(p, d), p);
    forall x | x in parents ensures SoundEdge(free, start, parents, x) {
      if x != p { assert SoundEdge(free, start, s.parents, x); }
    }
  }

  lemma VisitKeepsGood(grid: Grid, start: Point, s: Sweep, p: Point, d: Point)
    requires grid.Valid() && Good(grid, start, s) && grid.IsInside(start) && Known(start, s.parents, Before(p, d))
    requires grid.IsFree(p) && IsDirection(d)
    ensures Good(grid, start, Visited(s, p, d))
  {
    var t := Visited(s, p, d);
    VisitIsLogged(start, s, p, d);
    VisitIsSound(grid.Free(), start, s, p, d);
    forall e | e in t.open ensures Known(start, t.parents, e.p) { assert Known(start, s.parents, e.p); }
  }

  lemma CloseKeepsGood(grid: Grid, start: Point, s: Sweep, p: Point)
    requires grid.Valid() && Good(grid, start, s)
    ensures Good(grid, start, Closed(s, p))
  {
    var t := Closed(s, p);
    forall e | e in t.open ensures Known(start, t.parents, e.p) { assert Known(start, s.parents, e.p); }
  }

  lemma PushKeepsGood(grid: Grid, start: Point, end: Point, s: Sweep, p: Point)
    requires grid.Valid() && Good(grid, start, s) && p in s.parents
    ensures Good(grid, start, Pushed(s, p, end))
  {
    var t := Pushed(s, p, end);
    forall e | e in t.open ensures Known(start, t.parents, e.p) {
      if e in s.open { assert Known(start, s.parents, e.p); }
    }
  }

  /** Visiting a cell and then stopping there, successfully. */
  lemma StopKeepsGood(grid: Grid, start: Point, end: Point, s: Sweep, p: Point, d: Point)
    requires grid.Valid() && Good(grid, start, s) && grid.IsInside(start)
    requires IsDirection(d) && Known(start, s.parents, Before(p, d)) && grid.IsFree(p)
    ensures var t := Visited(s, p, d);
            && Good(grid, start, t) && Good(grid, start, Closed(t, p)) && Good(grid, start, Pushed(t, p, end))
            && Grows(end, s, t, p == end)
            && Grows(end, s, Pushed(t, p, end), true) && Grows(end, s, Closed(t, p), false)
  {
    VisitKeepsGood(grid, start, s, p, d);
    CloseKeepsGood(grid, start, Visited(s, p, d), p);
    PushKeepsGood(grid, start, end, Visited(s, p, d), p);
  }

  lemma GrowsOn(end: Point, s: Sweep, t: Sweep, u: Sweep, found: bool)
    requires Grows(end, s, t, false) && Grows(end, t, u, found)
    ensures Grows(end, s, u, found)
  {
  }

  /** A straight probe sent out from a cell that already has a parent. */
  lemma BranchKeepsGood(grid: Grid, start: Point, end: Point, s: Sweep, p: Point, d: Point)
    requires grid.Valid() && IsDirection(d) && !IsDiagonal(d) && Good(grid, start, s) && grid.IsInside(start)
    requires p in s.parents
    ensures var (t, found) := Probed(grid, end, s, p.Plus(d), d);
            Good(grid, start, t) && Grows(end, s, t, found) && p in t.parents
    decreases IsDiagonal(d), Room(grid, p.Plus(d), d), 4
  {
    assert Before(p.Plus(d), d) == p;
    ProbeKeepsGood(grid, start, end, s, p.Plus(d), d);
  }

  /** So do the two straight probes that a diagonal one sends out. */
  lemma BranchesKeepGood(grid: Grid, start: Point, end: Point, s: Sweep, p: Point, d: Point)
    requires grid.Valid() && IsDirection(d) && IsDiagonal(d) && Good(grid, start, s) && grid.IsInside(start)
    requires p in s.parents
    ensures var (t, found) := Branched(grid, end, s, p, d); Good(grid, start, t) && Grows(end, s, t, found)
    decreases IsDiagonal(d), 0
  {
    var down, across := Point(d.r, 0), Point(0, d.c);
    var (t, f) := Probed(grid, end, s, p.Plus(down), down);
    BranchKeepsGood(grid, start, end, s, p, down);
    var (u, g) := Probed(grid, end, t, p.Plus(across), across);
    BranchKeepsGood(grid, start, end, t, p, across);
    GrowsEither(end, s, t, u, f, g);
    assert Branched(grid, end, s, p, d) == (u, f || g);
  }

  lemma GrowsEither(end: Point, s: Sweep, t: Sweep, u: Sweep, f: bool, g: bool)
    requires Grows(end, s, t, f) && Grows(end, t, u, g)
    ensures Grows(end, s, u, f || g)
  {
  }

  /** And so does a diagonal probe on the cell where it stands. */
  lemma DiagonalKeepsGood(grid: Grid, start: Point, end: Point, s: Sweep, p: Point, d: Point)
    requires grid.Valid() && IsDirection(d) && IsDiagonal(d) && Good(grid, start, s) && grid.IsInside(start)
    requires grid.IsFree(p) && p in s.parents
    ensures var (t, found) := StoodDiagonal(grid, end, s, p, d);
            && Good(grid, start, Pushed(t, p, end)) && Good(grid, start, Closed(t, p))
            && p in t.parents && s.parents.Keys <= t.parents.Keys && s.closed <= t.closed && s.open <= t.open
            && (!found ==> t.open == s.open)
    decreases IsDiagonal(d), Room(grid, p, d), 1
  {
    if !StopsDiagonal(grid, p, d) { BranchesKeepGood(grid, start, end, s, p, d); }
    var t := StoodDiagonal(grid, end, s, p, d).0;
    PushKeepsGood(grid, start, end, t, p);
    CloseKeepsGood(grid, start, t, p);
  }

  /** One cell of any probe. */
  lemma StandKeepsGood(grid: Grid, start: Point, end: Point, s: Sweep, p: Point, d: Point)
    requires grid.Valid() && IsDirection(d) && Good(grid, start, s) && grid.IsInside(start)
    requires grid.IsFree(p) && Known(start, s.parents, Before(p, d))
    ensures var (t, found) := StoodOn(grid, end, s, p, d);
            Good(grid, start, t) && Grows(end, s, t, found) && p in t.parents
    decreases IsDiagonal(d), Room(grid, p, d), 2
  {
    StopKeepsGood(grid, start, end, s, p, d);
    if p != end && IsDiagonal(d) { DiagonalKeepsGood(grid, start, end, Visited(s, p, d), p, d); }
  }

  /** A probe is over where it cannot stand or succeeds, and otherwise goes on from the next cell. */
  lemma ProbeUnfolds(grid: Grid, end: Point, s: Sweep, p: Point, d: Point, t: Sweep, found: bool)
    requires grid.Valid() && IsDirection(d) && grid.IsFree(p) && StoodOn(grid, end, s, p, d) == (t, found)
    ensures Probed(grid, end, s, p, d) == if found then (t, true) else Probed(grid, end, t, p.Plus(d), d)
  {
  }

  /** Every probe keeps every parent entry sound, whatever it overwrites. */
  lemma {:induction false} ProbeKeepsGood(grid: Grid, start: Point, end: Point, s: Sweep, p: Point, d: Point)
    requires grid.Valid() && IsDirection(d) && Good(grid, start, s) && grid.IsInside(start)
    requires Known(start, s.parents, Before(p, d))
    ensures var (t, found) := Probed(grid, end, s, p, d); Good(grid, start, t) && Grows(end, s, t, found)
    decreases IsDiagonal(d), Room(grid, p, d), 3
  {
    if grid.IsFree(p) {
      StandKeepsGood(grid, start, end, s, p, d);
      var (t, found) := StoodOn(grid, end, s, p, d);
      ProbeUnfolds(grid, end, s, p, d, t, found);
      if !found {
        assert Before(p.Plus(d), d) == p && p in t.parents;
        ProbeKeepsGood(grid, start, end, t, p.Plus(d), d);
        GrowsOn(end, s, t, Probed(grid, end, t, p.Plus(d), d).0, Probed(grid, end, t, p.Plus(d), d).1);
      }
    }
  }

  lemma AttemptKeepsGood(grid: Grid, start: Point, end: Point, s: Sweep, q: Point, d: Point)
    requires grid.Valid() && Good(grid, start, s) && grid.IsInside(start)
    requires IsDirection(d) && grid.IsInside(q) && Known(start, s.parents, Before(q, d))
    ensures var t := Attempted(grid, end, s, q, d); Good(grid, start, t) && s.parents.Keys <= t.parents.Keys
  {
    ProbeKeepsGood(grid, start, end, s, q, d);
  }

  lemma {:induction false} TryKeepsGood(grid: Grid, start: Point, end: Point, s: Sweep, p: Point,
                                        neighbours: seq<Point>)
    requires grid.Valid() && Good(grid, start, s) && Known(start, s.parents, p) && grid.IsInside(start)
    requires Neighbouring(grid, p, neighbours)
    ensures var t := Tried(grid, end, s, p, neighbours); Good(grid, start, t) && s.parents.Keys <= t.parents.Keys
    decreases |neighbours|
  {
    if neighbours != [] {
      var last := |neighbours| - 1;
      LastNeighbour(grid, p, neighbours);
      TryKeepsGood(grid, start, end, s, p, neighbours[..last]);
      var t, q := Tried(grid, end, s, p, neighbours[..last]), neighbours[last];
      assert Before(q, Before(q, p)) == p;
      AttemptKeepsGood(grid, start, end, t, q, Before(q, p));
    }
  }

  lemma JumpKeepsGood(grid: Grid, start: Point, end: Point, s: Sweep, p: Point)
    requires grid.Valid() && Good(grid, start, s) && Known(start, s.parents, p)
    ensures Good(grid, start, Jumped(grid, end, s, p))
  {
    CloseKeepsGood(grid, start, s, p);
    if grid.IsInside(p) {
      assert grid.IsInside(start);
      TryKeepsGood(grid, start, end, Closed(s, p), p, grid.Adjacents(p));
    }
  }

  lemma PopKeepsGood(grid: Grid, start: Point, s: Sweep, top: Node)
    requires grid.Valid() && Good(grid, start, s) && top in s.open
    ensures Good(grid, start, s.(open := s.open - multiset{top})) && Known(start, s.parents, top.p)
  {
    var t := s.(open := s.open - multiset{top});
    assert Known(start, s.parents, top.p);
    forall e | e in t.open ensures Known(start, t.parents, e.p) { assert Known(start, s.parents, e.p); }
  }

  // ---------------------------------------------------------------- parent chains

  /** A parent chain that ends is a legal walk from the start. */
  lemma {:induction false} EndingChainIsWalk(free: set<Point>, start: Point, parents: map<Point, Point>, x: Point,
                                             n: nat)
    requires Sound(free, start, parents) && Known(start, parents, x) && ChainEnds(parents, x, n)
    ensures IsWalk(free, Chain(parents, x, n), start, x)
    decreases n
  {
    if n > 0 {
      assert SoundEdge(free, start, parents, x);
      EndingChainIsWalk(free, start, parents, parents[x], n - 1);
      assert Chain(parents, x, n) == Chain(parents, parents[x], n - 1) + [x];
    }
  }

  /** Once the start itself has gained a parent no parent chain ever ends: `reconstruct_path` would not return. */
  lemma {:induction false} StartMustStayRoot(free: set<Point>, start: Point, parents: map<Point, Point>, x: Point,
                                             n: nat)
    requires Sound(free, start, parents) && Known(start, parents, x) && start in parents
    ensures !ChainEnds(parents, x, n)
    decreases n
  {
    if n > 0 {
      assert SoundEdge(free, start, parents, x);
      StartMustStayRoot(free, start, parents, parents[x], n - 1);
    }
  }

  /** The length of the parent chain of `p` when that is below `fuel`. */
  function ChainLength(parents: map<Point, Point>, p: Point, fuel: nat): (n: int)
    ensures n >= 0 ==> n < fuel && ChainEnds(parents, p, n)
    ensures n < 0 ==> forall k: nat :: k < fuel ==> !ChainEnds(parents, p, k)
    decreases fuel
  {
    if fuel == 0 then -1
    else if p !in parents then 0
    else var m := ChainLength(parents, parents[p], fuel - 1); if m < 0 then -1 else m + 1
  }

  /** A legal walk, so A* finds one too, and every optimal path is at most as long. */
  ghost predicate WalkFound(grid: Grid, start: Point, end: Point, path: seq<Point>)
    requires grid.Valid()
  {
    && LegalWalk(grid, path, start, end)
    && grid.IsInside(end) && !Astar.Unreachable(grid, start, end)
    && forall q :: Astar.Optimal(grid, q, start, end) ==> Cost(q) <= Cost(path)
  }

  lemma ReturnedWalk(grid: Grid, start: Point, end: Point, s: Sweep, n: nat)
    requires grid.Valid() && Good(grid, start, s)
    requires end in s.parents && ChainEnds(s.parents, end, n)
    ensures WalkFound(grid, start, end, Chain(s.parents, end, n))
  {
    EndingChainIsWalk(grid.Free(), start, s.parents, end, n);
    assert SoundEdge(grid.Free(), start, s.parents, end);
    assert LegalWalk(grid, Chain(s.parents, end, n), start, end);
  }

  // ---------------------------------------------------------------- the search

  ghost function Unstarted(start: Point): Sweep {
    Sweep(multiset{Node(0, start)}, {}, map[], [])
  }

  class JpsSearch {
    const grid: Grid
    const start: Point
    const end: Point
    var open: multiset<Node>
    var closed: set<Point>
    var parents: map<Point, Point>
    ghost var visits: seq<Visit>

    ghost function State(): Sweep
      reads this
    {
      Sweep(open, closed, parents, visits)
    }

    constructor (grid: Grid, start: Point, end: Point)
      ensures this.grid == grid && this.start == start && this.end == end
      ensures State() == Unstarted(start)
    {
      this.grid, this.start, this.end := grid, start, end;
      open, closed, parents, visits := multiset{Node(0, start)}, {}, map[], [];
    }

    method HasForcedNeighbour(block: Point, direction: Point) returns (forced: bool)
      requires grid.Valid()
      ensures forced <==> Forced(grid, block, direction)
    {
      var neighbour := block.Plus(direction);
      if !grid.IsInside(block) || !grid.IsBlocked(block) { return false; }
      if !grid.IsInside(neighbour) || grid.IsBlocked(neighbour) { return false; }
      return true;
    }

    method StopsHere(p: Point, d: Point) returns (stop: bool)
      requires grid.Valid() && IsDirection(d) && !IsDiagonal(d)
      ensures stop <==> StopsStraight(grid, p, d)
    {
      var one, other;
      if d.r != 0 {
        one := HasForcedNeighbour(Point(p.r, p.c + 1), d);
        other := HasForcedNeighbour(Point(p.r, p.c - 1), d);
      } else {
        one := HasForcedNeighbour(Point(p.r + 1, p.c), d);
        other := HasForcedNeighbour(Point(p.r - 1, p.c), d);
      }
      return one || other;
    }

    method Push(p: Point)
      modifies this`open
      ensures State() == Pushed(old(State()), p, end)
    {
      open := open + multiset{Node(Manhattan(p, end), p)};
    }

    method StandDiagonally(p: Point, d: Point) returns (found: bool)
      requires grid.Valid() && IsDirection(d) && IsDiagonal(d) && grid.IsFree(p)
      modifies this
      ensures (State(), found) == StoodDiagonal(grid, end, old(State()), p, d)
      decreases IsDiagonal(d), 1
    {
      var forcedRight := HasForcedNeighbour(Point(p.r, p.c - d.c), Point(d.r, 0));
      var forcedLeft := HasForcedNeighbour(Point(p.r - d.r, p.c), Point(0, d.c));
      if forcedRight || forcedLeft { return true; }
      found := Branch(p, d);
    }

    /** Both straight probes are sent out, whatever the first one finds. */
    method Branch(p: Point, d: Point) returns (found: bool)
      requires grid.Valid() && IsDirection(d) && IsDiagonal(d)
      modifies this
      ensures (State(), found) == Branched(grid, end, old(State()), p, d)
      decreases IsDiagonal(d), 0
    {
      var down, across := Point(d.r, 0), Point(0, d.c);
      var foundDown := Probe(p.Plus(down), down);
      var foundAcross := Probe(p.Plus(across), across);
      return foundDown || foundAcross;
    }

    method StandOn(p: Point, d: Point) returns (found: bool)
      requires grid.Valid() && IsDirection(d) && grid.IsFree(p)
      modifies this
      ensures (State(), found) == StoodOn(grid, end, old(State()), p, d)
      decreases IsDiagonal(d), 2
    {
      parents, visits := parents[p := Before(p, d)], visits + [Visit(p, Before(p, d))];
      if p == end { return true; }
      if IsDiagonal(d) { found := StandDiagonally(p, d); } else { found := StopsHere(p, d); }
      if found { Push(p); } else { closed := closed + {p}; }
    }

    method Probe(first: Point, d: Point) returns (found: bool)
      requires grid.Valid() && IsDirection(d)
      modifies this
      ensures (State(), found) == Probed(grid, end, old(State()), first, d)
      decreases IsDiagonal(d), 3
    {
      var p := first;
      while grid.IsInside(p) && !grid.IsBlocked(p)
        invariant Probed(grid, end, State(), p, d) == Probed(grid, end, old(State()), first, d)
        decreases Room(grid, p, d)
      {
        var success := StandOn(p, d);
        if success { return true; }
        p := p.Plus(d);
      }
      return false;
    }

    method Attempt(q: Point, d: Point)
      requires grid.Valid() && IsDirection(d) && grid.IsInside(q)
      modifies this
      ensures State() == Attempted(grid, end, old(State()), q, d)
    {
      if q in closed || grid.IsBlocked(q) { return; }
      var found := Probe(q, d);
    }

    method Jump(p: Point)
      requires grid.Valid()
      modifies this
      ensures State() == Jumped(grid, end, old(State()), p)
    {
      closed := closed + {p};
      var adjacents := grid.Get8WayAdjacents(p);
      ghost var s0 := State();
      for i := 0 to |adjacents|
        invariant Neighbouring(grid, p, adjacents[..i])
        invariant State() == Tried(grid, end, s0, p, adjacents[..i])
      {
        assert adjacents[..i + 1][..i] == adjacents[..i];
        LastNeighbour(grid, p, adjacents[..i + 1]);
        Attempt(adjacents[i], Before(adjacents[i], p));
      }
      assert adjacents[..|adjacents|] == adjacents;
    }
  }

  /** What can be observed of a run that is cut off after `fuel` pops and `fuel` steps of `reconstruct_path`. */
  datatype Outcome = Returned(path: seq<Point>) | StillRunning

  /** One iteration of the search loop: some minimal entry is popped and jumped from. */
  ghost predicate Iterates(grid: Grid, end: Point, s: Sweep, t: Sweep)
    requires grid.Valid()
  {
    exists top :: Least(s.open, top) && t == Jumped(grid, end, s.(open := s.open - multiset{top}), top.p)
  }

  /** `reconstruct_path` from the goal: the parent chain, if it ends soon enough. */
  ghost predicate Reconstructs(parents: map<Point, Point>, end: Point, fuel: nat, r: Outcome) {
    match r
    case Returned(path) => exists n: nat :: n < fuel && ChainEnds(parents, end, n) && path == Chain(parents, end, n)
    case StillRunning => forall n: nat :: n < fuel ==> !ChainEnds(parents, end, n)
  }

  /** `r` is what a run of the search loop from `s` can come to within `pops` iterations. */
  ghost predicate ComesTo(grid: Grid, end: Point, s: Sweep, pops: nat, fuel: nat, r: Outcome)
    requires grid.Valid()
    decreases pops
  {
    if s.open == multiset{} then r == Returned([])
    else if pops == 0 then r == StillRunning
    else exists t :: Iterates(grid, end, s, t) && Continues(grid, end, t, pops, fuel, r)
  }

  /** After an iteration the search returns if the goal has a parent, and loops otherwise. */
  ghost predicate Continues(grid: Grid, end: Point, t: Sweep, pops: nat, fuel: nat, r: Outcome)
    requires grid.Valid() && pops > 0
    decreases pops, 0
  {
    if end in t.parents then Reconstructs(t.parents, end, fuel, r) else ComesTo(grid, end, t, pops - 1, fuel, r)
  }

  /** One iteration, as the loop makes it. */
  lemma OneIteration(grid: Grid, end: Point, s: Sweep, t: Sweep, pops: nat, fuel: nat, r: Outcome)
    requires grid.Valid() && s.open != multiset{} && pops > 0
    requires Iterates(grid, end, s, t) && Continues(grid, end, t, pops, fuel, r)
    ensures ComesTo(grid, end, s, pops, fuel, r)
  {
  }

  /** The jump of one iteration: it keeps the parents sound. */
  lemma IterationKeepsGood(grid: Grid, start: Point, end: Point, s: Sweep, top: Node, t: Sweep)
    requires grid.Valid() && Good(grid, start, s) && Least(s.open, top)
    requires t == Jumped(grid, end, s.(open := s.open - multiset{top}), top.p)
    ensures Good(grid, start, t) && Iterates(grid, end, s, t)
  {
    PopKeepsGood(grid, start, s, top);
    JumpKeepsGood(grid, start, end, s.(open := s.open - multiset{top}), top.p);
  }

  lemma NextIsGood(grid: Grid, start: Point, end: Point, s: Sweep, t: Sweep)
    requires grid.Valid() && Good(grid, start, s) && Iterates(grid, end, s, t)
    ensures Good(grid, start, t)
  {
    var top :| Least(s.open, top) && t == Jumped(grid, end, s.(open := s.open - multiset{top}), top.p);
    IterationKeepsGood(grid, start, end, s, top, t);
  }

  /** Whatever the run can come to from `t` it can come to from `s`. */
  ghost predicate LeadsOn(grid: Grid, end: Point, s: Sweep, pops: nat, t: Sweep, left: nat, fuel: nat)
    requires grid.Valid()
  {
    forall o {:trigger ComesTo(grid, end, t, left, fuel, o)} ::
      ComesTo(grid, end, t, left, fuel, o) ==> ComesTo(grid, end, s, pops, fuel, o)
  }

  lemma LeadsOnStep(grid: Grid, end: Point, s: Sweep, pops: nat, t: Sweep, left: nat, u: Sweep, fuel: nat)
    requires grid.Valid() && LeadsOn(grid, end, s, pops, t, left, fuel)
    requires t.open != multiset{} && left > 0 && Iterates(grid, end, t, u) && end !in u.parents
    ensures LeadsOn(grid, end, s, pops, u, left - 1, fuel)
  {
    forall o | ComesTo(grid, end, u, left - 1, fuel, o) ensures ComesTo(grid, end, s, pops, fuel, o) {
      OneIteration(grid, end, t, u, left, fuel, o);
    }
  }

  lemma LeadsToReturn(grid: Grid, end: Point, s: Sweep, pops: nat, t: Sweep, left: nat, u: Sweep, fuel: nat, r: Outcome)
    requires grid.Valid() && LeadsOn(grid, end, s, pops, t, left, fuel)
    requires t.open != multiset{} && left > 0 && Iterates(grid, end, t, u) && end in u.parents
    requires Reconstructs(u.parents, end, fuel, r)
    ensures ComesTo(grid, end, s, pops, fuel, r)
  {
    OneIteration(grid, end, t, u, left, fuel, r);
  }

  lemma CutOff(grid: Grid, end: Point, s: Sweep, pops: nat, t: Sweep, left: nat, fuel: nat, r: Outcome)
    requires grid.Valid() && LeadsOn(grid, end, s, pops, t, left, fuel)
    requires if t.open == multiset{} then r == Returned([]) else left == 0 && r == StillRunning
    ensures ComesTo(grid, end, s, pops, fuel, r)
  {
    assert ComesTo(grid, end, t, left, fuel, r);
  }

  /** The body of the search loop: pop a minimal entry and jump from it. */
  method Iterate(search: JpsSearch, grid: Grid, start: Point, end: Point)
    requires search.grid == grid && search.start == start && search.end == end
    requires grid.Valid() && Good(grid, start, search.State()) && search.open != multiset{}
    modifies search
    ensures Good(grid, start, search.State()) && Iterates(grid, end, old(search.State()), search.State())
  {
    ghost var least := MinimumExists(search.open);
    var top :| top in search.open && Least(search.open, top);
    search.open := search.open - multiset{top};
    search.Jump(top.p);
    IterationKeepsGood(grid, start, end, old(search.State()), top, search.State());
  }

  /** The search, cut off. A path it returns is a legal walk. */
  method Find(grid: Grid, start: Point, end: Point, fuel: nat) returns (r: Outcome)
    requires grid.Valid()
    ensures ComesTo(grid, end, Unstarted(start), fuel, fuel, r)
    ensures r.Returned? && r.path != [] ==> WalkFound(grid, start, end, r.path)
  {
    var search := new JpsSearch(grid, start, end);
    var left := fuel;
    while search.open != multiset{}
      invariant fresh(search) && search.grid == grid && search.start == start && search.end == end
      invariant Good(grid, start, search.State())
      invariant LeadsOn(grid, end, Unstarted(start), fuel, search.State(), left, fuel)
      decreases left
    {
      ghost var before := search.State();
      if left == 0 {
        CutOff(grid, end, Unstarted(start), fuel, before, 0, fuel, StillRunning);
        return StillRunning;
      }
      Iterate(search, grid, start, end);
      if end in search.parents {
        r := Reconstruct(grid, start, search.State(), search.parents, end, fuel);
        LeadsToReturn(grid, end, Unstarted(start), fuel, before, left, search.State(), fuel, r);
        return;
      }
      LeadsOnStep(grid, end, Unstarted(start), fuel, before, left, search.State(), fuel);
      left := left - 1;
    }
    CutOff(grid, end, Unstarted(start), fuel, search.State(), left, fuel, Returned([]));
    return Returned([]);
  }

  method Reconstruct(ghost grid: Grid, ghost start: Point, ghost s: Sweep, parents: map<Point, Point>, end: Point,
                     fuel: nat)
    returns (r: Outcome)
    requires grid.Valid() && Good(grid, start, s) && end in s.parents && parents == s.parents
    ensures Reconstructs(parents, end, fuel, r)
    ensures r.Returned? ==> WalkFound(grid, start, end, r.path)
  {
    var n := ChainLength(parents, end, fuel);
    if n < 0 { return StillRunning; }
    var path := ReconstructPath(parents, end, n);
    ReturnedWalk(grid, start, end, s, n);
    return Returned(path);
  }
}
