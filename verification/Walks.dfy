/** Legal walks on a grid and their cost: the vocabulary in which both path searches are judged. */
module Walks {
  import opened Grids

  /** From `start` to `end` by 8-way steps, every cell after the first one taken from `free`. */
  ghost predicate IsWalk(free: set<Point>, w: seq<Point>, start: Point, end: Point) {
    && |w| > 0 && w[0] == start && w[|w| - 1] == end
    && forall i :: 1 <= i < |w| ==> w[i] in free && Adjacent(w[i - 1], w[i])
  }

  /** A walk inside the grid that never steps onto a blocked cell.
      The first cell itself may be blocked: neither search tests it. */
  ghost predicate LegalWalk(grid: Grid, w: seq<Point>, start: Point, end: Point)
    requires grid.Valid()
  {
    grid.IsInside(start) && IsWalk(grid.Free(), w, start, end)
  }

  /** Cost of the first `k` steps: the summed Manhattan length. */
  ghost function CostTo(w: seq<Point>, k: nat): nat
    requires k < |w|
  {
    if k == 0 then 0 else CostTo(w, k - 1) + Manhattan(w[k - 1], w[k])
  }

  ghost function Cost(w: seq<Point>): nat
    requires |w| > 0
  {
    CostTo(w, |w| - 1)
  }

  ghost predicate Distinct(w: seq<Point>) {
    forall i, j :: 0 <= i < j < |w| ==> w[i] != w[j]
  }

  lemma {:induction false} CostToPrefix(v: seq<Point>, w: seq<Point>, k: nat)
    requires k < |v| && v <= w
    ensures CostTo(v, k) == CostTo(w, k)
  {
    if k > 0 { CostToPrefix(v, w, k - 1); }
  }

  /** No walk is shorter than the Manhattan distance it spans. */
  lemma {:induction false} DistanceBelowCost(w: seq<Point>, i: nat, k: nat)
    requires i <= k < |w|
    ensures CostTo(w, i) + Manhattan(w[i], w[k]) <= CostTo(w, k)
  {
    if i < k { DistanceBelowCost(w, i, k - 1); }
  }

  /** A walk over distinct cells has at most as many cells as are free, plus its first one. */
  lemma DistinctWalkFits(free: set<Point>, w: seq<Point>, start: Point, end: Point)
    requires IsWalk(free, w, start, end) && Distinct(w)
    ensures |w| <= |free + {start}|
    ensures Cost(w) <= 2 * (|free + {start}| - 1)
  {
    var cells := set p | p in w;
    DistinctSize(w, cells);
    assert cells <= free + {start};
    SubsetSize(cells, free + {start});
    CostBound(free, w, start, end, |w| - 1);
  }

  lemma {:induction false} CostBound(free: set<Point>, w: seq<Point>, start: Point, end: Point, k: nat)
    requires IsWalk(free, w, start, end) && k < |w|
    ensures k <= CostTo(w, k) <= 2 * k
  {
    if k > 0 {
      CostBound(free, w, start, end, k - 1);
      assert Adjacent(w[k - 1], w[k]);
    }
  }

  lemma {:induction false} DistinctSize(w: seq<Point>, cells: set<Point>)
    requires Distinct(w) && cells == set p | p in w
    ensures |cells| == |w|
  {
    if |w| > 0 {
      var last := |w| - 1;
      var rest := set p | p in w[..last];
      DistinctSize(w[..last], rest);
      assert w == w[..last] + [w[last]];
      assert cells == rest + {w[last]};
    }
  }

  lemma {:induction false} SubsetSize<T>(a: set<T>, b: set<T>)
    requires a <= b
    ensures |a| <= |b|
  {
    if a != {} {
      var x :| x in a;
      SubsetSize(a - {x}, b - {x});
    }
  }
}
