/** A* over the obstacle grid: a best-first search with lazy deletion, its invariant and its optimality. */
module Pathfinder {
  import opened Grids
  import opened Walks

  /** An entry of the open queue. */
  datatype Node = Node(f: int, p: Point)

  /** The four containers a search updates, as one value. */
  datatype Search = Search(open: multiset<Node>, closed: set<Point>, parents: map<Point, Point>, g: map<Point, nat>)

  // ---------------------------------------------------------------- parent chains

  /** Following `parents` from `p` leaves the map after exactly `n` steps. */
  ghost predicate ChainEnds(parents: map<Point, Point>, p: Point, n: nat)
    decreases n
  {
    if p in parents then n > 0 && ChainEnds(parents, parents[p], n - 1) else n == 0
  }

  /** That chain, root first. */
  ghost function Chain(parents: map<Point, Point>, p: Point, n: nat): (path: seq<Point>)
    requires ChainEnds(parents, p, n)
    ensures |path| == n + 1 && path[n] == p
    decreases n
  {
    if n == 0 then [p] else Chain(parents, parents[p], n - 1) + [p]
  }

  function Reverse(s: seq<Point>): (t: seq<Point>)
    ensures |t| == |s|
  {
    if s == [] then [] else [s[|s| - 1]] + Reverse(s[..|s| - 1])
  }

  lemma ReverseAppend(path: seq<Point>, p: Point)
    requires |path| > 0
    ensures (path + [p])[..|path|] == path
    ensures Reverse(path) == [path[|path| - 1]] + Reverse(path[..|path| - 1])
  {
  }

  lemma ChainStep(parents: map<Point, Point>, p: Point, n: nat, rest: seq<Point>)
    requires p in parents && ChainEnds(parents, p, n)
    ensures Chain(parents, p, n) + rest == Chain(parents, parents[p], n - 1) + ([p] + rest)
  {
    var prefix := Chain(parents, parents[p], n - 1);
    assert (prefix + [p]) + rest == prefix + ([p] + rest);
  }

  method ReconstructPath(parents: map<Point, Point>, end: Point, ghost n: nat) returns (path: seq<Point>)
    requires ChainEnds(parents, end, n)
    ensures path == Chain(parents, end, n)
  {
    path := [end];
    var current := end;
    ghost var left := n;
    while current in parents
      invariant |path| > 0 && path[|path| - 1] == current
      invariant ChainEnds(parents, current, left)
      invariant Chain(parents, end, n) == Chain(parents, current, left) + Reverse(path[..|path| - 1])
      decreases left
    {
      ChainStep(parents, current, left, Reverse(path[..|path| - 1]));
      current := parents[current];
      left := left - 1;
      ReverseAppend(path, current);
      path := path + [current];
    }
    ReverseAppend(path, current);
    path := Reverse(path);
  }

  // ---------------------------------------------------------------- the search invariant

  ghost function Heuristic(p: Point, end: Point): nat {
    Manhattan(p, end)
  }

  /** `x` got its value by one step from a closed parent onto a free cell. */
  ghost predicate Edge(free: set<Point>, s: Search, x: Point)
    requires x in s.parents
  {
    var p := s.parents[x];
    x in free && p in s.closed && p in s.g && x in s.g && Adjacent(p, x) && s.g[x] == s.g[p] + Manhattan(p, x)
  }

  /** `parents` is a tree rooted at `start` whose inner nodes are closed, and `g` is the cost along it. */
  ghost predicate Tree(free: set<Point>, start: Point, s: Search) {
    && start in s.g && s.g[start] == 0 && start !in s.parents
    && s.g.Keys == s.parents.Keys + {start}
    && s.closed <= s.g.Keys
    && forall x {:trigger Edge(free, s, x)} :: x in s.parents ==> Edge(free, s, x)
  }

  /** An open entry is at least as bad as its cell's current value. */
  ghost predicate Stale(end: Point, s: Search, e: Node) {
    e.p in s.g && s.g[e.p] + Heuristic(e.p, end) <= e.f
  }

  /** A reached cell is closed or waits in the queue under its current value. */
  ghost predicate Waits(end: Point, s: Search, x: Point)
    requires x in s.g
  {
    x in s.closed || Node(s.g[x] + Heuristic(x, end), x) in s.open
  }

  ghost predicate Queued(end: Point, s: Search) {
    && (forall e {:trigger Stale(end, s, e)} :: e in s.open ==> Stale(end, s, e))
    && (forall x {:trigger Waits(end, s, x)} :: x in s.g ==> Waits(end, s, x))
  }

  ghost predicate Settles(free: set<Point>, s: Search, c: Point, n: Point)
    requires c in s.g
  {
    n in free && Adjacent(c, n) ==> n in s.g && s.g[n] <= s.g[c] + Manhattan(c, n)
  }

  ghost function Initial(start: Point): Search {
    Search(multiset{Node(0, start)}, {}, map[], map[start := 0])
  }

  /** Every closed value is at most `bound`, and no open entry lies below it. */
  ghost predicate Below(end: Point, s: Search, c: Point, bound: int)
    requires c in s.g
  {
    s.g[c] + Heuristic(c, end) <= bound
  }

  ghost predicate Splits(end: Point, s: Search, bound: int)
    requires s.closed <= s.g.Keys
  {
    && (forall c {:trigger Below(end, s, c, bound)} :: c in s.closed ==> Below(end, s, c, bound))
    && (forall e :: e in s.open ==> bound <= e.f)
  }

  ghost predicate AllSettled(free: set<Point>, s: Search)
    requires s.closed <= s.g.Keys
  {
    forall c, n {:trigger Settles(free, s, c, n)} :: c in s.closed ==> Settles(free, s, c, n)
  }

  /** What holds at every loop head once the start has been popped; popped f values never fall below `bound`. */
  ghost predicate Underway(free: set<Point>, start: Point, end: Point, s: Search, bound: int) {
    && Tree(free, start, s)
    && start in s.closed
    && Queued(end, s)
    && AllSettled(free, s)
    && Splits(end, s, bound)
  }

  ghost predicate SettledBut(free: set<Point>, s: Search, cur: Point, done: set<Point>)
    requires s.closed <= s.g.Keys
  {
    forall c, n {:trigger Settles(free, s, c, n)} ::
      c in s.closed && (c == cur ==> n in done) ==> Settles(free, s, c, n)
  }

  /** What holds while the freshly closed cell `cur` is expanded and the neighbours in `done` have been tried:
      `cur` bounds every closed value from above and every open entry from below. */
  ghost predicate Expanding(free: set<Point>, start: Point, end: Point, s: Search, cur: Point, done: set<Point>) {
    && Tree(free, start, s)
    && start in s.closed && cur in s.closed
    && Queued(end, s)
    && SettledBut(free, s, cur, done)
    && Splits(end, s, s.g[cur] + Heuristic(cur, end))
  }

  /** What the queue may hand out next: equal values come in any order. */
  predicate Least(open: multiset<Node>, top: Node) {
    top in open && forall e :: e in open ==> top.f <= e.f
  }

  ghost function Pop(s: Search, top: Node): Search {
    s.(open := s.open - multiset{top}, closed := s.closed + {top.p})
  }

  ghost function Relax(s: Search, cur: Point, next: Point, end: Point): Search
    requires cur in s.g
  {
    var gNext := s.g[cur] + Manhattan(cur, next);
    Search(s.open + multiset{Node(gNext + Heuristic(next, end), next)}, s.closed,
           s.parents[next := cur], s.g[next := gNext])
  }

  lemma PopTree(free: set<Point>, start: Point, s: Search, top: Node)
    requires Tree(free, start, s) && top.p in s.g
    ensures Tree(free, start, Pop(s, top))
  {
    var t := Pop(s, top);
    forall x | x in t.parents ensures Edge(free, t, x) { assert Edge(free, s, x); }
  }

  lemma PopQueued(end: Point, s: Search, top: Node)
    requires Queued(end, s) && top in s.open
    ensures Queued(end, Pop(s, top))
  {
    var t := Pop(s, top);
    forall e | e in t.open ensures Stale(end, t, e) { assert Stale(end, s, e); }
    forall x | x in t.g ensures Waits(end, t, x) { assert Waits(end, s, x); }
  }

  /** A cell popped for the first time holds its final value. */
  lemma FirstPop(free: set<Point>, start: Point, end: Point, s: Search, bound: int, top: Node)
    requires Underway(free, start, end, s, bound)
    requires Least(s.open, top) && top.p !in s.closed
    ensures Expanding(free, start, end, Pop(s, top), top.p, {})
    ensures bound <= top.f == Pop(s, top).g[top.p] + Heuristic(top.p, end)
  {
    var t := Pop(s, top);
    assert Stale(end, s, top) && Waits(end, s, top.p);
    PopTree(free, start, s, top);
    PopQueued(end, s, top);
    forall c, n | c in t.closed && c != top.p ensures Settles(free, t, c, n) { assert Settles(free, s, c, n); }
    forall c | c in t.closed ensures Below(end, t, c, top.f) {
      if c != top.p { assert Below(end, s, c, bound); }
    }
  }

  /** The start is popped first, although it was queued under 0 rather than under its heuristic. */
  lemma StartPop(free: set<Point>, start: Point, end: Point, top: Node)
    requires top in Initial(start).open
    ensures Expanding(free, start, end, Pop(Initial(start), top), top.p, {}) && top.p == start
  {
    var t := Pop(Initial(start), top);
    assert t.open == multiset{} && t.closed == {start};
  }

  /** A cell popped again: the invariant holds as before, with the popped value as its bound. */
  lemma StalePop(free: set<Point>, start: Point, end: Point, s: Search, bound: int, top: Node)
    requires Underway(free, start, end, s, bound)
    requires Least(s.open, top) && top.p in s.closed
    ensures bound <= top.f && Underway(free, start, end, Pop(s, top), top.f)
    ensures Pop(s, top).closed == s.closed
  {
    var t := Pop(s, top);
    assert t.closed == s.closed;
    PopTree(free, start, s, top);
    PopQueued(end, s, top);
    forall c, n | c in t.closed ensures Settles(free, t, c, n) { assert Settles(free, s, c, n); }
    forall c | c in t.closed ensures Below(end, t, c, top.f) { assert Below(end, s, c, bound); }
  }

  /** Trying a neighbour without effect: it is closed, blocked, or already reached as cheaply. */
  lemma SkipNeighbour(free: set<Point>, start: Point, end: Point, s: Search, cur: Point, done: set<Point>, next: Point)
    requires Expanding(free, start, end, s, cur, done) && Adjacent(cur, next)
    requires next in s.closed || next !in free || (next in s.g && s.g[cur] + Manhattan(cur, next) >= s.g[next])
    ensures Expanding(free, start, end, s, cur, done + {next})
  {
    if next in s.closed { assert Below(end, s, next, s.g[cur] + Heuristic(cur, end)); }
    assert Settles(free, s, cur, next);
    forall c, n | c in s.closed && (c == cur ==> n in done + {next}) ensures Settles(free, s, c, n) {}
  }

  lemma RelaxTree(free: set<Point>, start: Point, end: Point, s: Search, cur: Point, next: Point)
    requires Tree(free, start, s) && cur in s.closed && start in s.closed
    requires Adjacent(cur, next) && next in free && next !in s.closed
    ensures Tree(free, start, Relax(s, cur, next, end))
  {
    var t := Relax(s, cur, next, end);
    forall x | x in t.parents ensures Edge(free, t, x) {
      if x != next { assert Edge(free, s, x); }
    }
  }

  lemma RelaxQueued(s: Search, cur: Point, next: Point, end: Point)
    requires cur in s.g && Queued(end, s)
    requires next in s.g ==> s.g[cur] + Manhattan(cur, next) < s.g[next]
    ensures Queued(end, Relax(s, cur, next, end))
  {
    var t := Relax(s, cur, next, end);
    forall e | e in t.open ensures Stale(end, t, e) {
      if e in s.open { assert Stale(end, s, e); }
    }
    forall x | x in t.g ensures Waits(end, t, x) {
      if x != next { assert Waits(end, s, x); }
    }
  }

  lemma RelaxSplits(s: Search, cur: Point, next: Point, end: Point)
    requires s.closed <= s.g.Keys && cur in s.closed && next !in s.closed
    requires Splits(end, s, s.g[cur] + Heuristic(cur, end))
    ensures Splits(end, Relax(s, cur, next, end), s.g[cur] + Heuristic(cur, end))
  {
    var t, bound := Relax(s, cur, next, end), s.g[cur] + Heuristic(cur, end);
    forall c | c in t.closed ensures Below(end, t, c, bound) { assert Below(end, s, c, bound); }
  }

  lemma RelaxNeighbour(free: set<Point>, start: Point, end: Point, s: Search, cur: Point, done: set<Point>, next: Point)
    requires Expanding(free, start, end, s, cur, done)
    requires Adjacent(cur, next) && next in free && next !in s.closed
    requires next in s.g ==> s.g[cur] + Manhattan(cur, next) < s.g[next]
    ensures Expanding(free, start, end, Relax(s, cur, next, end), cur, done + {next})
  {
    var t := Relax(s, cur, next, end);
    RelaxTree(free, start, end, s, cur, next);
    RelaxQueued(s, cur, next, end);
    RelaxSplits(s, cur, next, end);
    forall c, n | c in t.closed && (c == cur ==> n in done + {next}) ensures Settles(free, t, c, n) {
      if n != next || c != cur { assert Settles(free, s, c, n); }
    }
  }

  lemma ExpandedFully(free: set<Point>, start: Point, end: Point, s: Search, cur: Point, done: set<Point>)
    requires Expanding(free, start, end, s, cur, done)
    requires forall n :: n in free && Adjacent(cur, n) ==> n in done
    ensures Underway(free, start, end, s, s.g[cur] + Heuristic(cur, end))
  {
    forall c, n | c in s.closed ensures Settles(free, s, c, n) {}
  }

  // ---------------------------------------------------------------- what the invariant gives

  /** The parent chain of a reached cell is a legal walk over distinct cells that costs exactly its g. */
  lemma {:induction false} ChainIsWalk(free: set<Point>, start: Point, s: Search, x: Point) returns (n: nat)
    requires Tree(free, start, s) && x in s.g
    ensures ChainEnds(s.parents, x, n)
    ensures IsWalk(free, Chain(s.parents, x, n), start, x)
    ensures Cost(Chain(s.parents, x, n)) == s.g[x]
    ensures Distinct(Chain(s.parents, x, n))
    ensures forall p :: p in Chain(s.parents, x, n) ==> p in s.g && s.g[p] <= s.g[x]
    decreases s.g[x]
  {
    if x == start { return 0; }
    assert Edge(free, s, x);
    var parent := s.parents[x];
    var m := ChainIsWalk(free, start, s, parent);
    n := m + 1;
    var shorter, path := Chain(s.parents, parent, m), Chain(s.parents, x, n);
    assert path == shorter + [x];
    CostToPrefix(shorter, path, m);
  }

  /** No stored g exceeds two per cell other than the start. */
  lemma GBound(free: set<Point>, start: Point, s: Search, x: Point)
    requires Tree(free, start, s) && x in s.g
    ensures s.g[x] <= 2 * (|free + {start}| - 1)
  {
    var n := ChainIsWalk(free, start, s, x);
    DistinctWalkFits(free, Chain(s.parents, x, n), start, x);
  }

  /** From a closed cell the next one of a walk has been reached, and no later than along the walk. */
  lemma NextIsReached(free: set<Point>, start: Point, end: Point, s: Search, w: seq<Point>, k: nat)
    requires Expanding(free, start, end, s, end, {}) && IsWalk(free, w, start, end)
    requires k + 1 < |w| && w[k] != end && w[k] in s.closed && s.g[w[k]] <= CostTo(w, k)
    ensures w[k + 1] in s.g && s.g[w[k + 1]] <= CostTo(w, k + 1)
  {
    assert Settles(free, s, w[k], w[k + 1]);
  }

  /** When `end` is popped its g is a lower bound for every legal walk. */
  lemma {:induction false} NoCheaperWalk(free: set<Point>, start: Point, end: Point, s: Search, w: seq<Point>, k: nat)
    requires Expanding(free, start, end, s, end, {})
    requires IsWalk(free, w, start, end)
    requires k < |w| && w[k] in s.closed && s.g[w[k]] <= CostTo(w, k)
    ensures s.g[end] <= Cost(w)
    decreases |w| - k
  {
    if w[k] == end {
      DistanceBelowCost(w, k, |w| - 1);
    } else {
      NextIsReached(free, start, end, s, w, k);
      if w[k + 1] in s.closed {
        NoCheaperWalk(free, start, end, s, w, k + 1);
      } else {
        WaitingCell(end, s, w[k + 1], CostTo(w, k + 1));
        DistanceBelowCost(w, k + 1, |w| - 1);
      }
    }
  }

  /** A cell still waiting when `end` is popped is too far away to improve on it. */
  lemma WaitingCell(end: Point, s: Search, x: Point, cost: nat)
    requires s.closed <= s.g.Keys && end in s.closed && Queued(end, s) && Splits(end, s, s.g[end])
    requires x in s.g && x !in s.closed && s.g[x] <= cost
    ensures s.g[end] <= cost + Heuristic(x, end)
  {
    assert Waits(end, s, x);
  }

  /** Once the queue is empty every cell a legal walk visits has been closed. */
  lemma {:induction false} ReachesOnlyClosed(free: set<Point>, start: Point, end: Point, s: Search, bound: int,
                                             w: seq<Point>, k: nat)
    requires Underway(free, start, end, s, bound) && s.open == multiset{}
    requires IsWalk(free, w, start, end) && k < |w|
    ensures w[k] in s.closed
  {
    if k > 0 {
      ReachesOnlyClosed(free, start, end, s, bound, w, k - 1);
      assert Settles(free, s, w[k - 1], w[k]);
      assert Waits(end, s, w[k]);
    }
  }

  lemma {:induction false} MinimumExists(open: multiset<Node>) returns (top: Node)
    requires open != multiset{}
    ensures Least(open, top)
  {
    top :| top in open;
    var rest := open - multiset{top};
    if rest == multiset{} {
      forall m | m in open ensures m == top {
        assert m == top || m in rest;
      }
    } else {
      var best := MinimumExists(rest);
      if best.f < top.f {
        LeastOfMore(open, top, best);
        top := best;
      } else {
        LeastOfMore(open, top, best);
      }
    }
  }

  lemma LeastOfMore(open: multiset<Node>, x: Node, best: Node)
    requires x in open && Least(open - multiset{x}, best)
    ensures Least(open, if best.f < x.f then best else x)
  {
    var rest := open - multiset{x};
    var least := if best.f < x.f then best else x;
    forall m | m in open ensures least.f <= m.f {
      assert m == x || m in rest;
    }
  }
}
