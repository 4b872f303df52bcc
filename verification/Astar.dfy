/** The A* loop itself, proved to terminate and to return an optimal legal walk whenever one exists. */
module Astar {
  import opened Grids
  import opened Walks
  import opened Pathfinder

  ghost predicate AtHead(free: set<Point>, start: Point, end: Point, s: Search, bound: int) {
    end !in s.closed && (s == Initial(start) || Underway(free, start, end, s, bound))
  }

  /** The invariant while the neighbours of `cur` are tried; `first` tells a first expansion from a repeated one. */
  ghost predicate InLoop(free: set<Point>, start: Point, end: Point, s: Search, bound: int,
                         cur: Point, done: set<Point>, first: bool) {
    && cur in s.closed && cur in s.g
    && if first then Expanding(free, start, end, s, cur, done) && bound == s.g[cur] + Heuristic(cur, end)
       else Underway(free, start, end, s, bound)
  }

  /** Each popped f is at least every one popped before it, and the popped cell is ready to be expanded. */
  lemma PopStep(free: set<Point>, start: Point, end: Point, s: Search, bound: int, top: Node)
    returns (first: bool, bound': int)
    requires AtHead(free, start, end, s, bound) && Least(s.open, top)
    ensures first == (top.p !in s.closed)
    ensures InLoop(free, start, end, Pop(s, top), bound', top.p, {}, first)
    ensures !first ==> Pop(s, top).closed == s.closed
    ensures top.f <= bound'
    ensures s != Initial(start) ==> bound <= top.f == bound'
  {
    first := top.p !in s.closed;
    bound' := top.f;
    if s == Initial(start) {
      StartPop(free, start, end, top);
      bound' := Heuristic(start, end);
    } else if first {
      FirstPop(free, start, end, s, bound, top);
    } else {
      StalePop(free, start, end, s, bound, top);
    }
  }

  lemma SkipStep(free: set<Point>, start: Point, end: Point, s: Search, bound: int,
                 cur: Point, done: set<Point>, first: bool, next: Point)
    requires InLoop(free, start, end, s, bound, cur, done, first) && Adjacent(cur, next)
    requires next in s.closed || next !in free || (next in s.g && s.g[cur] + Manhattan(cur, next) >= s.g[next])
    ensures InLoop(free, start, end, s, bound, cur, done + {next}, first)
  {
    if first { SkipNeighbour(free, start, end, s, cur, done, next); }
  }

  lemma CannotImprove(free: set<Point>, start: Point, end: Point, s: Search, bound: int, cur: Point, next: Point)
    requires Underway(free, start, end, s, bound) && cur in s.closed && Adjacent(cur, next) && next in free
    ensures next in s.g && s.g[next] <= s.g[cur] + Manhattan(cur, next)
  {
    assert Settles(free, s, cur, next);
  }

  lemma LoopEnd(free: set<Point>, start: Point, end: Point, s: Search, bound: int,
                cur: Point, done: set<Point>, first: bool)
    requires InLoop(free, start, end, s, bound, cur, done, first) && end !in s.closed
    requires forall n :: n in free && Adjacent(cur, n) ==> n in done
    ensures AtHead(free, start, end, s, bound)
  {
    if first { ExpandedFully(free, start, end, s, cur, done); }
  }

  ghost predicate Optimal(grid: Grid, path: seq<Point>, start: Point, end: Point)
    requires grid.Valid()
  {
    && LegalWalk(grid, path, start, end)
    && Distinct(path)
    && forall w :: LegalWalk(grid, w, start, end) ==> Cost(path) <= Cost(w)
  }

  ghost predicate Unreachable(grid: Grid, start: Point, end: Point)
    requires grid.Valid()
  {
    forall w :: !LegalWalk(grid, w, start, end)
  }

  /** When `end` is popped for the first time its parent chain is an optimal legal walk. */
  lemma Found(grid: Grid, start: Point, end: Point, s: Search, bound: int) returns (n: nat)
    requires grid.Valid() && grid.IsInside(start)
    requires InLoop(grid.Free(), start, end, s, bound, end, {}, true)
    ensures ChainEnds(s.parents, end, n)
    ensures Optimal(grid, Chain(s.parents, end, n), start, end)
    ensures forall c :: c in s.closed ==> Promising(grid, start, end, c, Cost(Chain(s.parents, end, n)))
  {
    var free := grid.Free();
    n := ChainIsWalk(free, start, s, end);
    forall w | LegalWalk(grid, w, start, end) ensures s.g[end] <= Cost(w) {
      NoCheaperWalk(free, start, end, s, w, 0);
    }
    forall c | c in s.closed ensures Promising(grid, start, end, c, s.g[end]) {
      ExpandedPromising(grid, start, end, s, bound, c);
    }
  }

  /** Some walk leads to `c` from which `end` may still be reached, as the crow flies, at that cost. */
  ghost predicate Promising(grid: Grid, start: Point, end: Point, c: Point, cost: nat)
    requires grid.Valid()
  {
    exists w :: LegalWalk(grid, w, start, c) && Cost(w) + Manhattan(c, end) <= cost
  }

  /** By then no cell has been expanded that is not. */
  lemma ExpandedPromising(grid: Grid, start: Point, end: Point, s: Search, bound: int, c: Point)
    requires grid.Valid() && grid.IsInside(start) && c in s.closed
    requires InLoop(grid.Free(), start, end, s, bound, end, {}, true)
    ensures Promising(grid, start, end, c, s.g[end])
  {
    var n := ChainIsWalk(grid.Free(), start, s, c);
    assert Below(end, s, c, bound);
    assert LegalWalk(grid, Chain(s.parents, c, n), start, c);
  }

  lemma NotFound(grid: Grid, start: Point, end: Point, s: Search, bound: int)
    requires grid.Valid() && AtHead(grid.Free(), start, end, s, bound) && s.open == multiset{}
    ensures Unreachable(grid, start, end)
  {
    assert Node(0, start) in Initial(start).open;
    forall w ensures !LegalWalk(grid, w, start, end) {
      if LegalWalk(grid, w, start, end) {
        ReachesOnlyClosed(grid.Free(), start, end, s, bound, w, |w| - 1);
      }
    }
  }

  // ---------------------------------------------------------------- runs, and the integers they store

  /** What a run of the search consists of: an entry is popped, or a neighbour is reached from a closed cell. */
  datatype Event = Popped(top: Node) | Reached(from: Point, next: Point)

  /** `next` is neither closed nor blocked, and so far not reached as cheaply. */
  ghost predicate Improves(free: set<Point>, s: Search, cur: Point, next: Point)
    requires cur in s.g
  {
    next !in s.closed && next in free && (next in s.g ==> s.g[cur] + Manhattan(cur, next) < s.g[next])
  }

  ghost predicate Possible(free: set<Point>, s: Search, e: Event) {
    match e
    case Popped(top) => Least(s.open, top)
    case Reached(from, next) => from in s.closed && from in s.g && Adjacent(from, next) && Improves(free, s, from, next)
  }

  ghost function After(free: set<Point>, end: Point, s: Search, e: Event): Search
    requires Possible(free, s, e)
  {
    match e
    case Popped(top) => Pop(s, top)
    case Reached(from, next) => Relax(s, from, next, end)
  }

  /** The states a search went through, and the events between them. */
  datatype Run = Run(states: seq<Search>, events: seq<Event>)

  ghost predicate StepAt(free: set<Point>, end: Point, run: Run, i: nat)
    requires i < |run.events| && |run.states| == |run.events| + 1
  {
    Possible(free, run.states[i], run.events[i]) &&
    run.states[i + 1] == After(free, end, run.states[i], run.events[i])
  }

  ghost predicate IsRun(free: set<Point>, start: Point, end: Point, run: Run) {
    && |run.states| == |run.events| + 1 && run.states[0] == Initial(start)
    && forall i {:trigger StepAt(free, end, run, i)} :: 0 <= i < |run.events| ==> StepAt(free, end, run, i)
  }

  ghost predicate RunTo(free: set<Point>, start: Point, end: Point, run: Run, s: Search) {
    IsRun(free, start, end, run) && run.states[|run.events|] == s
  }

  ghost function Extended(run: Run, e: Event, t: Search): Run {
    Run(run.states + [t], run.events + [e])
  }

  lemma ExtendRun(free: set<Point>, start: Point, end: Point, run: Run, s: Search, e: Event)
    requires RunTo(free, start, end, run, s) && Possible(free, s, e)
    ensures RunTo(free, start, end, Extended(run, e, After(free, end, s, e)), After(free, end, s, e))
  {
    var longer := Extended(run, e, After(free, end, s, e));
    forall i | 0 <= i < |longer.events| ensures StepAt(free, end, longer, i) {
      if i < |run.events| { assert StepAt(free, end, run, i); }
    }
  }

  /** The largest value any g or f entry can take on this grid. */
  function GLimit(grid: Grid): int {
    2 * (grid.rows * grid.cols - 1)
  }

  function FLimit(grid: Grid): int {
    GLimit(grid) + (grid.rows - 1) + (grid.cols - 1)
  }

  lemma FreeCellsFit(grid: Grid, start: Point)
    requires grid.Valid() && grid.IsInside(start)
    ensures |grid.Free() + {start}| <= grid.rows * grid.cols
  {
    SubsetSize(grid.Free() + {start}, Cells(grid.rows, grid.cols));
  }

  lemma StoredWithinLimits(grid: Grid, start: Point, end: Point, s: Search, x: Point)
    requires grid.Valid() && grid.IsInside(start) && grid.IsInside(end)
    requires Tree(grid.Free(), start, s) && x in s.g
    ensures s.g[x] <= GLimit(grid) && s.g[x] + Heuristic(x, end) <= FLimit(grid)
  {
    GBound(grid.Free(), start, s, x);
    FreeCellsFit(grid, start);
    if x != start { assert Edge(grid.Free(), s, x); }
    assert grid.IsInside(x);
  }

  ghost predicate WithinLimits(grid: Grid, s: Search) {
    && (forall x :: x in s.g ==> 0 <= s.g[x] <= GLimit(grid))
    && (forall e :: e in s.open ==> 0 <= e.f <= FLimit(grid))
  }

  /** What every state of every run satisfies, whatever the order of pops and relaxations. */
  ghost predicate Bounded(grid: Grid, start: Point, s: Search)
    requires grid.Valid()
  {
    && Tree(grid.Free(), start, s) && WithinLimits(grid, s)
    && (forall e :: e in s.open ==> e.p in s.g)
    && (start in s.closed || s == Initial(start))
  }

  lemma InitialIsBounded(grid: Grid, start: Point)
    requires grid.Valid() && grid.IsInside(start)
    ensures Bounded(grid, start, Initial(start))
  {
    FreeCellsFit(grid, start);
    assert |grid.Free() + {start}| >= 1 by { assert start in grid.Free() + {start}; }
  }

  lemma StepKeepsBounded(grid: Grid, start: Point, end: Point, s: Search, e: Event)
    requires grid.Valid() && grid.IsInside(start) && grid.IsInside(end)
    requires Bounded(grid, start, s) && Possible(grid.Free(), s, e)
    ensures Bounded(grid, start, After(grid.Free(), end, s, e))
  {
    match e
    case Popped(top) => PopTree(grid.Free(), start, s, top);
    case Reached(from, next) =>
      RelaxTree(grid.Free(), start, end, s, from, next);
      StoredWithinLimits(grid, start, end, Relax(s, from, next, end), next);
  }

  /** In every state of every run all stored values stay within the limits. */
  lemma {:induction false} RunWithinLimits(grid: Grid, start: Point, end: Point, run: Run, k: nat)
    requires grid.Valid() && grid.IsInside(start) && grid.IsInside(end)
    requires IsRun(grid.Free(), start, end, run) && k < |run.states|
    ensures Bounded(grid, start, run.states[k])
  {
    if k == 0 {
      InitialIsBounded(grid, start);
    } else {
      RunWithinLimits(grid, start, end, run, k - 1);
      assert StepAt(grid.Free(), end, run, k - 1);
      StepKeepsBounded(grid, start, end, run.states[k - 1], run.events[k - 1]);
    }
  }

  lemma AllWithinLimits(grid: Grid, start: Point, end: Point, run: Run)
    requires grid.Valid() && grid.IsInside(start) && grid.IsInside(end) && IsRun(grid.Free(), start, end, run)
    ensures forall s :: s in run.states ==> WithinLimits(grid, s)
  {
    forall s | s in run.states ensures WithinLimits(grid, s) {
      var k :| 0 <= k < |run.states| && run.states[k] == s;
      RunWithinLimits(grid, start, end, run, k);
    }
  }

  /** The popped f values never fall. */
  ghost predicate PopsRise(events: seq<Event>) {
    forall i, j :: 0 <= i < j < |events| && events[i].Popped? && events[j].Popped? ==>
                     events[i].top.f <= events[j].top.f
  }

  /** No f popped so far exceeds `bound`. */
  ghost predicate PoppedBelow(events: seq<Event>, bound: int) {
    forall i :: 0 <= i < |events| && events[i].Popped? ==> events[i].top.f <= bound
  }

  lemma PopRises(events: seq<Event>, bound: int, top: Node, bound': int)
    requires PopsRise(events) && PoppedBelow(events, bound) && top.f <= bound'
    requires events != [] ==> bound <= top.f
    ensures PopsRise(events + [Popped(top)]) && PoppedBelow(events + [Popped(top)], bound')
  {
  }

  lemma ReachKeepsPops(events: seq<Event>, bound: int, from: Point, next: Point)
    requires PopsRise(events) && PoppedBelow(events, bound)
    ensures PopsRise(events + [Reached(from, next)]) && PoppedBelow(events + [Reached(from, next)], bound)
  {
  }

  // ---------------------------------------------------------------- the loop

  /** The cells not closed yet: what a first pop shrinks. */
  ghost function Unclosed(grid: Grid, closed: set<Point>): set<Point> {
    Cells(grid.rows, grid.cols) - closed
  }

  lemma PoppedInside(grid: Grid, start: Point, s: Search, x: Point)
    requires grid.Valid() && grid.IsInside(start) && Tree(grid.Free(), start, s) && x in s.closed
    ensures grid.IsInside(x) && x in Cells(grid.rows, grid.cols)
  {
    if x != start { assert Edge(grid.Free(), s, x); }
  }

  /** Only a first expansion can improve a neighbour. */
  lemma RelaxInLoop(free: set<Point>, start: Point, end: Point, s: Search, bound: int,
                    cur: Point, done: set<Point>, first: bool, next: Point)
    requires InLoop(free, start, end, s, bound, cur, done, first) && Adjacent(cur, next) && Improves(free, s, cur, next)
    ensures first && InLoop(free, start, end, Relax(s, cur, next, end), bound, cur, done + {next}, first)
  {
    if first {
      RelaxNeighbour(free, start, end, s, cur, done, next);
    } else {
      CannotImprove(free, start, end, s, bound, cur, next);
    }
  }

  predicate AreIn(points: seq<Point>, n: nat, done: set<Point>)
    requires n <= |points|
  {
    forall k :: 0 <= k < n ==> points[k] in done
  }

  lemma OneMoreIn(points: seq<Point>, n: nat, done: set<Point>)
    requires n < |points| && AreIn(points, n, done)
    ensures AreIn(points, n + 1, done + {points[n]})
  {
  }

  lemma AllTried(grid: Grid, current: Point, adjacents: seq<Point>, done: set<Point>)
    requires grid.Valid() && grid.IsInside(current) && adjacents == grid.Adjacents(current)
    requires AreIn(adjacents, |adjacents|, done)
    ensures forall n :: n in grid.Free() && Adjacent(current, n) ==> n in done
  {
    forall n | n in grid.Free() && Adjacent(current, n) ensures n in done {
      assert n in adjacents;
    }
  }

  /** What the run has to satisfy at every step: it leads to the present containers, and its pops are in order. */
  ghost predicate Recorded(free: set<Point>, start: Point, end: Point, run: Run, s: Search, bound: int) {
    RunTo(free, start, end, run, s) && PopsRise(run.events) && PoppedBelow(run.events, bound)
  }

  lemma Note(free: set<Point>, start: Point, end: Point, run: Run, s: Search, bound: int, current: Point, next: Point)
    requires Recorded(free, start, end, run, s, bound)
    requires current in s.closed && current in s.g && Adjacent(current, next) && Improves(free, s, current, next)
    ensures var t := Relax(s, current, next, end);
            Recorded(free, start, end, Extended(run, Reached(current, next), t), t, bound)
  {
    ExtendRun(free, start, end, run, s, Reached(current, next));
    ReachKeepsPops(run.events, bound, current, next);
  }

  /** One neighbour of `current`: it is passed over, or it is reached more cheaply than before. */
  method TryNeighbour(grid: Grid, ghost start: Point, end: Point, current: Point, s: Search, next: Point,
                      ghost bound: int, ghost done: set<Point>, ghost first: bool, ghost run: Run)
    returns (t: Search, ghost run': Run)
    requires grid.Valid() && Adjacent(current, next) && grid.IsInside(next)
    requires InLoop(grid.Free(), start, end, s, bound, current, done, first)
    requires Recorded(grid.Free(), start, end, run, s, bound)
    ensures t == if Improves(grid.Free(), s, current, next) then Relax(s, current, next, end) else s
    ensures Improves(grid.Free(), s, current, next) ==> first
    ensures InLoop(grid.Free(), start, end, t, bound, current, done + {next}, first)
    ensures Recorded(grid.Free(), start, end, run', t, bound)
  {
    if next in s.closed || grid.IsBlocked(next) {
      SkipStep(grid.Free(), start, end, s, bound, current, done, first, next);
      return s, run;
    }
    var gNext := s.g[current] + Manhattan(current, next);
    if next in s.g && gNext >= s.g[next] {
      SkipStep(grid.Free(), start, end, s, bound, current, done, first, next);
      return s, run;
    }
    RelaxInLoop(grid.Free(), start, end, s, bound, current, done, first, next);
    Note(grid.Free(), start, end, run, s, bound, current, next);
    run' := Extended(run, Reached(current, next), Relax(s, current, next, end));
    var f := gNext + Manhattan(next, end);
    t := Search(s.open + multiset{Node(f, next)}, s.closed, s.parents[next := current], s.g[next := gNext]);
  }

  /** The body of the search loop after the pop: try every neighbour of `current`.
      A repeated expansion changes nothing. */
  method Expand(grid: Grid, ghost start: Point, end: Point, current: Point, s0: Search,
                ghost bound: int, ghost first: bool, ghost run0: Run)
    returns (s: Search, ghost run: Run)
    requires grid.Valid() && grid.IsInside(current) && end !in s0.closed
    requires InLoop(grid.Free(), start, end, s0, bound, current, {}, first)
    requires Recorded(grid.Free(), start, end, run0, s0, bound)
    ensures AtHead(grid.Free(), start, end, s, bound)
    ensures s.closed == s0.closed && (!first ==> s == s0)
    ensures Recorded(grid.Free(), start, end, run, s, bound)
  {
    s, run := s0, run0;
    ghost var done := {};
    var adjacents := grid.Get8WayAdjacents(current);
    for i := 0 to |adjacents|
      invariant InLoop(grid.Free(), start, end, s, bound, current, done, first)
      invariant AreIn(adjacents, i, done)
      invariant s.closed == s0.closed && (!first ==> s == s0)
      invariant Recorded(grid.Free(), start, end, run, s, bound)
    {
      assert adjacents[i] in adjacents;
      s, run := TryNeighbour(grid, start, end, current, s, adjacents[i], bound, done, first, run);
      OneMoreIn(adjacents, i, done);
      done := done + {adjacents[i]};
    }
    AllTried(grid, current, adjacents, done);
    LoopEnd(grid.Free(), start, end, s, bound, current, done, first);
  }

  /** The result is read off the last state: the parent chain of `end`, which was popped last, or nothing once the
      queue is empty. */
  ghost predicate ResultOf(end: Point, path: seq<Point>, run: Run)
    requires |run.states| == |run.events| + 1
  {
    var n, last := |run.events|, run.states[|run.events|];
    if path == [] then last.open == multiset{} else
      && n > 0 && run.events[n - 1].Popped? && run.events[n - 1].top.p == end
      && exists k :: ChainEnds(last.parents, end, k) && path == Chain(last.parents, end, k)
  }

  /** A successful search has expanded no cell but promising ones. */
  ghost predicate Focused(grid: Grid, start: Point, end: Point, path: seq<Point>, run: Run)
    requires grid.Valid() && |run.states| == |run.events| + 1
  {
    path != [] ==> forall c :: c in run.states[|run.events|].closed ==> Promising(grid, start, end, c, Cost(path))
  }

  /** `run` is what the search did. */
  method Find(grid: Grid, start: Point, end: Point) returns (path: seq<Point>, ghost run: Run)
    requires grid.Valid()
    ensures path == [] <==> !grid.IsInside(end) || Unreachable(grid, start, end)
    ensures path != [] ==> Optimal(grid, path, start, end)
    ensures grid.IsInside(start) && grid.IsInside(end) ==>
              && IsRun(grid.Free(), start, end, run) && ResultOf(end, path, run) && Focused(grid, start, end, path, run)
              && PopsRise(run.events) && forall s :: s in run.states ==> WithinLimits(grid, s)
  {
    path, run := [], Run([Initial(start)], []);
    if !grid.IsInside(start) || !grid.IsInside(end) { return; }
    ghost var free := grid.Free();
    var open: multiset<Node>, closed: set<Point> := multiset{Node(0, start)}, {};
    var parents: map<Point, Point>, g: map<Point, nat> := map[], map[start := 0];
    ghost var bound := 0;
    while open != multiset{}
      invariant AtHead(free, start, end, Search(open, closed, parents, g), bound)
      invariant Recorded(free, start, end, run, Search(open, closed, parents, g), bound)
      invariant Search(open, closed, parents, g) == Initial(start) ==> run.events == []
      decreases Unclosed(grid, closed), |open|
    {
      ghost var s := Search(open, closed, parents, g);
      ghost var least := MinimumExists(open);
      var top :| top in open && Least(open, top);
      var current := top.p;
      open := open - multiset{top};
      closed := closed + {current};
      ghost var first;
      first, bound, run := RecordPop(free, start, end, s, bound, top, run);
      if current == end {
        ghost var n := Found(grid, start, end, Search(open, closed, parents, g), bound);
        path := ReconstructPath(parents, end, n);
        AllWithinLimits(grid, start, end, run);
        return;
      }
      PoppedInside(grid, start, Pop(s, top), current);
      var expanded;
      expanded, run := Expand(grid, start, end, current, Search(open, closed, parents, g), bound, first, run);
      open, parents, g := expanded.open, expanded.parents, expanded.g;
    }
    NotFound(grid, start, end, Search(open, closed, parents, g), bound);
    AllWithinLimits(grid, start, end, run);
  }

  lemma RecordPop(free: set<Point>, start: Point, end: Point, s: Search, bound: int, top: Node, run: Run)
    returns (first: bool, bound': int, run': Run)
    requires AtHead(free, start, end, s, bound) && Least(s.open, top)
    requires Recorded(free, start, end, run, s, bound) && (s == Initial(start) ==> run.events == [])
    ensures first == (top.p !in s.closed)
    ensures InLoop(free, start, end, Pop(s, top), bound', top.p, {}, first)
    ensures !first ==> Pop(s, top).closed == s.closed
    ensures run' == Extended(run, Popped(top), Pop(s, top))
    ensures Recorded(free, start, end, run', Pop(s, top), bound')
  {
    first, bound' := PopStep(free, start, end, s, bound, top);
    run' := Extended(run, Popped(top), Pop(s, top));
    ExtendRun(free, start, end, run, s, Popped(top));
    PopRises(run.events, bound, top, bound');
  }
}
