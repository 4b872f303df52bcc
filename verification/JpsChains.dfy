/** What lets the parent chains of jump point search end: the one write of `parents`, visit by visit and over runs. */
module JpsChains {
  import opened Grids
  import opened Pathfinder
  import opened Jps
  import opened JpsFirstJump

  ghost predicate Ends(parents: map<Point, Point>, x: Point) {
    exists n: nat :: ChainEnds(parents, x, n)
  }

  ghost predicate AllEnd(parents: map<Point, Point>) {
    forall x :: Ends(parents, x)
  }

  /** Following `parents` from `x`, one comes to `a` after `n` steps. */
  ghost predicate Leads(parents: map<Point, Point>, x: Point, a: Point, n: nat)
    decreases n
  {
    if n == 0 then x == a else x in parents && Leads(parents, parents[x], a, n - 1)
  }

  /** `a` is `x` or one of its ancestors. */
  ghost predicate Ancestor(parents: map<Point, Point>, x: Point, a: Point) {
    exists n: nat :: Leads(parents, x, a, n)
  }

  // ---------------------------------------------------------------- one visit

  /** Away from the descendants of `p`, chains are what they were; from a descendant one comes to `p`. */
  lemma {:induction false} ChainAfterWrite(parents: map<Point, Point>, p: Point, from: Point, x: Point, n: nat)
    returns (m: nat)
    requires ChainEnds(parents, x, n)
    ensures m <= n
    ensures if Ancestor(parents, x, p) then Leads(parents[p := from], x, p, m)
            else ChainEnds(parents[p := from], x, n) && m == n
    decreases n
  {
    if x == p {
      assert Leads(parents, x, p, 0);
      m := 0;
    } else if x in parents {
      m := ChainAfterWrite(parents, p, from, parents[x], n - 1);
      AncestorOfParent(parents, x, p);
      m := m + 1;
    } else {
      AncestorOfRoot(parents, x, p);
      m := 0;
    }
  }

  lemma AncestorOfParent(parents: map<Point, Point>, x: Point, p: Point)
    requires x in parents && x != p
    ensures Ancestor(parents, x, p) <==> Ancestor(parents, parents[x], p)
  {
    if n: nat :| Leads(parents, x, p, n) { assert Leads(parents, parents[x], p, n - 1); }
    if n: nat :| Leads(parents, parents[x], p, n) { assert Leads(parents, x, p, n + 1); }
  }

  lemma AncestorOfRoot(parents: map<Point, Point>, x: Point, p: Point)
    requires x !in parents && x != p
    ensures !Ancestor(parents, x, p)
  {
  }

  /** Going on along a chain that ends makes it shorter. */
  lemma {:induction false} ChainFrom(parents: map<Point, Point>, x: Point, n: nat, a: Point, m: nat)
    requires ChainEnds(parents, x, n) && Leads(parents, x, a, m)
    ensures m <= n && ChainEnds(parents, a, n - m)
    decreases m
  {
    if m > 0 { ChainFrom(parents, parents[x], n - 1, a, m - 1); }
  }

  /** Visiting an ancestor of the cell one comes from closes a circle. */
  lemma VisitClosesCircle(parents: map<Point, Point>, p: Point, from: Point, n: nat)
    requires ChainEnds(parents, from, n) && Ancestor(parents, from, p)
    ensures !Ends(parents[p := from], p)
  {
    var t := parents[p := from];
    var m := ChainAfterWrite(parents, p, from, from, n);
    if k: nat :| ChainEnds(t, p, k) {
      ChainFrom(t, from, k - 1, p, m);
      ChainEndsOnce(t, p, k, k - 1 - m);
    }
  }

  lemma EndsAfterWrite(parents: map<Point, Point>, p: Point, from: Point, x: Point)
    requires AllEnd(parents) && !Ancestor(parents, from, p)
    ensures Ends(parents[p := from], x)
  {
    var t := parents[p := from];
    assert Ends(parents, from) && Ends(parents, x);
    var k: nat :| ChainEnds(parents, from, k);
    var _ := ChainAfterWrite(parents, p, from, from, k);
    var n: nat :| ChainEnds(parents, x, n);
    var m := ChainAfterWrite(parents, p, from, x, n);
    if Ancestor(parents, x, p) {
      assert ChainEnds(t, p, k + 1);
      ChainBefore(t, x, p, m, k + 1);
    }
  }

  lemma {:induction false} ChainBefore(parents: map<Point, Point>, x: Point, a: Point, m: nat, k: nat)
    requires Leads(parents, x, a, m) && ChainEnds(parents, a, k)
    ensures ChainEnds(parents, x, m + k)
    decreases m
  {
    if m > 0 { ChainBefore(parents, parents[x], a, m - 1, k); }
  }

  /** Exactly when one visit leaves every chain ending: when the cell visited is not an ancestor of the one it is
      visited from. */
  lemma VisitKeepsChains(parents: map<Point, Point>, p: Point, from: Point)
    requires AllEnd(parents)
    ensures AllEnd(parents[p := from]) <==> !Ancestor(parents, from, p)
  {
    if Ancestor(parents, from, p) {
      assert Ends(parents, from);
      var n: nat :| ChainEnds(parents, from, n);
      VisitClosesCircle(parents, p, from, n);
    } else {
      var t := parents[p := from];
      forall x ensures Ends(t, x) { EndsAfterWrite(parents, p, from, x); }
    }
  }

  // ---------------------------------------------------------------- whole runs

  /** No visit so far went to an ancestor of the cell it came from. */
  ghost predicate Acyclic(visits: seq<Visit>) {
    visits == [] ||
    var last := |visits| - 1;
    Acyclic(visits[..last]) && !Ancestor(ParentsAfter(visits[..last]), visits[last].from, visits[last].p)
  }

  /** After every visit so far all chains ended. */
  ghost predicate AlwaysEnded(visits: seq<Visit>) {
    AllEnd(ParentsAfter(visits)) && (visits == [] || AlwaysEnded(visits[..|visits| - 1]))
  }

  /** Exactly when all chains have ended at all times. */
  lemma {:induction false} ChainsOfRun(visits: seq<Visit>)
    ensures AlwaysEnded(visits) <==> Acyclic(visits)
  {
    if visits == [] {
      forall x ensures Ends(map[], x) { assert ChainEnds(map[], x, 0); }
    } else {
      var last := |visits| - 1;
      ChainsOfRun(visits[..last]);
      if AlwaysEnded(visits[..last]) {
        VisitKeepsChains(ParentsAfter(visits[..last]), visits[last].p, visits[last].from);
      }
    }
  }

  /** The guard that a search could test at the write: the cell is not the start, and has no parent yet. */
  ghost predicate OnlyFirstVisits(start: Point, visits: seq<Visit>) {
    visits == [] ||
    var last := |visits| - 1;
    && OnlyFirstVisits(start, visits[..last])
    && visits[last].p != start && visits[last].p !in ParentsAfter(visits[..last])
  }

  lemma {:induction false} ParentsAreKnown(start: Point, visits: seq<Visit>, x: Point)
    requires Rooted(start, visits) && x in ParentsAfter(visits)
    ensures Known(start, ParentsAfter(visits), ParentsAfter(visits)[x])
  {
    var last := |visits| - 1;
    if x != visits[last].p { ParentsAreKnown(start, visits[..last], x); }
  }

  lemma {:induction false} AncestorsAreKnown(start: Point, visits: seq<Visit>, x: Point, a: Point, n: nat)
    requires Rooted(start, visits) && Known(start, ParentsAfter(visits), x) && Leads(ParentsAfter(visits), x, a, n)
    ensures Known(start, ParentsAfter(visits), a)
    decreases n
  {
    if n > 0 {
      ParentsAreKnown(start, visits, x);
      AncestorsAreKnown(start, visits, ParentsAfter(visits)[x], a, n - 1);
    }
  }

  /** Cells visited for the first time are nobody's ancestors. */
  lemma {:induction false} FirstVisitsAreAcyclic(start: Point, visits: seq<Visit>)
    requires Rooted(start, visits) && OnlyFirstVisits(start, visits)
    ensures Acyclic(visits)
  {
    if visits != [] {
      var last := |visits| - 1;
      FirstVisitsAreAcyclic(start, visits[..last]);
      if n: nat :| Leads(ParentsAfter(visits[..last]), visits[last].from, visits[last].p, n) {
        AncestorsAreKnown(start, visits[..last], visits[last].from, visits[last].p, n);
      }
    }
  }

  ghost predicate IterationAt(grid: Grid, end: Point, trace: seq<Sweep>, i: nat)
    requires grid.Valid() && i + 1 < |trace|
  {
    Iterates(grid, end, trace[i], trace[i + 1])
  }

  /** The containers before, between and after some iterations of the search loop. */
  ghost predicate IsTrace(grid: Grid, start: Point, end: Point, trace: seq<Sweep>)
    requires grid.Valid()
  {
    && trace != [] && trace[0] == Unstarted(start)
    && forall i: nat {:trigger IterationAt(grid, end, trace, i)} :: i + 1 < |trace| ==> IterationAt(grid, end, trace, i)
  }

  lemma {:induction false} TraceIsGood(grid: Grid, start: Point, end: Point, trace: seq<Sweep>, k: nat)
    requires grid.Valid() && IsTrace(grid, start, end, trace) && k < |trace|
    ensures Good(grid, start, trace[k])
  {
    if k > 0 {
      TraceIsGood(grid, start, end, trace, k - 1);
      assert IterationAt(grid, end, trace, k - 1);
      NextIsGood(grid, start, end, trace[k - 1], trace[k]);
    }
  }

  /** In every state of every run: all chains have ended at all times exactly when no visit went to an ancestor of the
      cell it came from; visiting only cells without a parent, and never the start, makes sure of that. */
  lemma ChainsOfSearch(grid: Grid, start: Point, end: Point, trace: seq<Sweep>, k: nat)
    requires grid.Valid() && IsTrace(grid, start, end, trace) && k < |trace|
    ensures var s := trace[k];
            && s.parents == ParentsAfter(s.visits) && (AlwaysEnded(s.visits) <==> Acyclic(s.visits))
            && (OnlyFirstVisits(start, s.visits) ==> Acyclic(s.visits))
  {
    TraceIsGood(grid, start, end, trace, k);
    ChainsOfRun(trace[k].visits);
    if OnlyFirstVisits(start, trace[k].visits) { FirstVisitsAreAcyclic(start, trace[k].visits); }
  }

  /** A search that has reached its goal without such a visit returns, with a legal walk. */
  lemma AcyclicSearchReturns(grid: Grid, start: Point, end: Point, trace: seq<Sweep>, k: nat) returns (n: nat)
    requires grid.Valid() && IsTrace(grid, start, end, trace) && k < |trace|
    requires end in trace[k].parents && Acyclic(trace[k].visits)
    ensures ChainEnds(trace[k].parents, end, n) && WalkFound(grid, start, end, Chain(trace[k].parents, end, n))
    ensures forall fuel, r :: fuel > n && Reconstructs(trace[k].parents, end, fuel, r) ==>
              r == Returned(Chain(trace[k].parents, end, n))
  {
    var s := trace[k];
    TraceIsGood(grid, start, end, trace, k);
    ChainsOfRun(s.visits);
    assert Ends(s.parents, end);
    n :| ChainEnds(s.parents, end, n);
    ReturnedWalk(grid, start, end, s, n);
    forall fuel, r | fuel > n && Reconstructs(s.parents, end, fuel, r) ensures r == Returned(Chain(s.parents, end, n)) {
      if r.Returned? {
        var m: nat :| m < fuel && ChainEnds(s.parents, end, m) && r.path == Chain(s.parents, end, m);
        ChainEndsOnce(s.parents, end, n, m);
      }
    }
  }
}
