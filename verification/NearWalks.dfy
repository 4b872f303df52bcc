/** A chase from anywhere in the monster's own free cell, whether or not it reaches the centres it heads for: being sent
    on early costs at most the arrival tolerance, which does not add up over the legs. */
module NearWalks {
  import opened Approaches
  import opened Grids
  import opened Monsters
  import opened PathFollowing
  import opened Subworlds
  import opened Vectors

  // ---------------------------------------------------------------- a leg that begins next to a centre

  /** The point at fraction `f` of the way from `a` to the centre of `q`. */
  function Way(a: Vec3, q: Point, f: real): Vec3 {
    a.Plus(Center(q).Minus(a).Scale(f))
  }

  lemma SquareBetween(a: real, lo: real, hi: real)
    requires 0.0 <= lo <= a <= hi || 0.0 <= lo <= -a <= hi
    ensures lo * lo <= a * a <= hi * hi
  {
    if a >= 0.0 {
      SquareMonotone(lo, a);
      SquareMonotone(a, hi);
    } else {
      SquareMonotone(lo, -a);
      SquareMonotone(-a, hi);
    }
  }

  lemma SmallSquare(a: real)
    requires -EPSILON < a < EPSILON
    ensures 0.0 <= a * a <= 0.0000000001
  {
    SquareBetween(a, 0.0, 0.00001);
  }

  /** One coordinate of such a leg: one, give or take the tolerance, or next to nothing. */
  lemma NearCoordinate(n: int, w: real)
    requires -1 <= n <= 1 && -EPSILON < w - n as real < EPSILON
    ensures if n == 0 then 0.0 <= w * w <= 0.0000000001 else 0.99998 <= w * w <= 1.00003
  {
    if n == 0 { SmallSquare(w); } else { SquareBetween(w, 0.99999, 1.00001); }
  }

  lemma RootBetween(d: real, lo: real, hi: real)
    requires d >= 0.0 && 0.0 <= lo <= hi && lo * lo < d * d < hi * hi
    ensures lo < d < hi
  {
    if d <= lo { SquareMonotone(d, lo); }
    if d >= hi { SquareMonotone(hi, d); }
  }

  lemma SumRoot(d: real, dc: int, dr: int, x: real, y: real, z: real)
    requires d >= 0.0 && d * d == x + y + z && 0.0 <= y <= 0.0000000001
    requires -1 <= dc <= 1 && -1 <= dr <= 1 && (dc != 0 || dr != 0)
    requires if dc == 0 then 0.0 <= x <= 0.0000000001 else 0.99998 <= x <= 1.00003
    requires if dr == 0 then 0.0 <= z <= 0.0000000001 else 0.99998 <= z <= 1.00003
    ensures if dc == 0 || dr == 0 then 0.9999 < d < 1.0001 else 1.4141 < d < 1.4143
  {
    if dc == 0 || dr == 0 { RootBetween(d, 0.9999, 1.0001); } else { RootBetween(d, 1.4141, 1.4143); }
  }

  /** Its length is close to 1, or to the square root of 2. */
  lemma WayLength(len: Vec3 -> real, p: Point, q: Point, a: Vec3)
    requires IsLength(len) && Adjacent(p, q) && AllNear(Center(p), a)
    ensures var d := len(Center(q).Minus(a));
            if Manhattan(p, q) == 1 then 0.9999 < d < 1.0001 else 1.4141 < d < 1.4143
  {
    var v := Center(q).Minus(a);
    assert LengthAt(len, v);
    NearCoordinate(q.c - p.c, v.x);
    NearCoordinate(q.r - p.r, v.z);
    SmallSquare(v.y);
    SumRoot(len(v), q.c - p.c, q.r - p.r, v.x * v.x, v.y * v.y, v.z * v.z);
  }

  // ---------------------------------------------------------------- its cells

  lemma AxisAtStart(from: int, to: int, a: real, f: real, w: real, x: real)
    requires -1 <= to - from <= 1 && -EPSILON < a - (from as real + 0.5) < EPSILON && 0.0 <= f <= 0.43
    requires w == to as real + 0.5 - a && x == a + f * w
    ensures x.Floor == from
  {
    ScaledBetween(f, w, 1.1, f * 1.1, x - a);
  }

  lemma AxisAtEnd(from: int, to: int, a: real, f: real, w: real, x: real)
    requires -1 <= to - from <= 1 && -EPSILON < a - (from as real + 0.5) < EPSILON && 0.0 <= 1.0 - f <= 0.44
    requires w == to as real + 0.5 - a && x == a + f * w
    ensures x.Floor == to
  {
    var g, y := 1.0 - f, to as real + 0.5 - x;
    assert y == g * w;
    ScaledBetween(g, w, 1.1, g * 1.1, y);
  }

  /** No step of SPEED ends near the middle of the way. */
  lemma FarFromMiddle(d: real, k: nat, f: real, straight: bool)
    requires if straight then 0.9999 < d < 1.0001 else 1.4141 < d < 1.4143
    requires f >= 0.0 && f * d == k as real * SPEED < d
    ensures f < 1.0 && (f <= 0.43 || 1.0 - f <= 0.44)
  {
    var s, n := k as real * SPEED, if straight then 2 else 3;
    if f >= 1.0 { ScaledOrder(1.0, f, d); }
    if k <= n {
      assert s <= n as real * SPEED;
      if f > 0.43 { ScaledOrder(0.43, f, d); }
    } else {
      assert k as real >= n as real + 1.0;
      assert s >= if straight then 0.6 else 0.8;
      if f < 0.56 { ScaledOrder(f, 0.56, d); }
    }
  }

  lemma WayCellFar(p: Point, q: Point, a: Vec3, f: real)
    requires Adjacent(p, q) && AllNear(Center(p), a) && 0.0 <= f < 1.0 && (f <= 0.43 || 1.0 - f <= 0.44)
    ensures CellOf(Way(a, q, f)) in {p, q}
  {
    var v, u := Center(q).Minus(a), Way(a, q, f);
    if f <= 0.43 {
      AxisAtStart(p.c, q.c, a.x, f, v.x, u.x);
      AxisAtStart(p.r, q.r, a.z, f, v.z, u.z);
    } else {
      AxisAtEnd(p.c, q.c, a.x, f, v.x, u.x);
      AxisAtEnd(p.r, q.r, a.z, f, v.z, u.z);
    }
  }

  /** So it always ends in one of the two cells, also when the way is a diagonal between mixed cells. */
  lemma WayCell(p: Point, q: Point, a: Vec3, d: real, k: nat)
    requires Adjacent(p, q) && AllNear(Center(p), a)
    requires if Manhattan(p, q) == 1 then 0.9999 < d < 1.0001 else 1.4141 < d < 1.4143
    requires k as real * SPEED < d
    ensures CellOf(Way(a, q, Covered(k, d))) in {p, q}
  {
    var f := Covered(k, d);
    QuotientSign(k as real * SPEED, d);
    assert f * d == k as real * SPEED;
    FarFromMiddle(d, k, f, Manhattan(p, q) == 1);
    WayCellFar(p, q, a, f);
  }

  // ---------------------------------------------------------------- its steps

  /** The monster is `k` steps into the leg that began at `a` and ends at cell `i` of its path. */
  ghost predicate OnTheWay(grid: Grid, len: Vec3 -> real, m: Monster, i: nat, a: Vec3, k: nat)
    requires grid.Valid()
  {
    && Following(grid, m) && 1 <= i < |m.path| && m.index == i && m.body.target == Center(m.path[i])
    && AllNear(Center(m.path[i - 1]), a) && !AllNear(m.body.target, m.body.position)
    && var d := len(Center(m.path[i]).Minus(a));
       d > 0.0 && k as real * SPEED < d && m.body.position == Way(a, m.path[i], Covered(k, d))
  }

  /** It has just been pointed at cell `i`, next to the centre of the cell before, or has reached the end of its
      path. */
  ghost predicate NextTo(grid: Grid, m: Monster, i: nat)
    requires grid.Valid()
  {
    && Following(grid, m) && 1 <= i <= |m.path| && m.index == i && AllNear(Center(m.path[i - 1]), m.body.position)
    && (i < |m.path| ==> m.body.target == Center(m.path[i]))
  }

  lemma RestOfWay(len: Vec3 -> real, a: Vec3, q: Point, k: nat, d: real)
    requires IsLength(len) && d == len(Center(q).Minus(a)) > 0.0 && k as real * SPEED < d
    ensures var f := Covered(k, d);
            && 0.0 <= 1.0 - f && Center(q).Minus(Way(a, q, f)) == Center(q).Minus(a).Scale(1.0 - f)
            && len(Center(q).Minus(Way(a, q, f))) == d - k as real * SPEED == (1.0 - f) * d
  {
    var f := Covered(k, d);
    assert f * d == k as real * SPEED;
    if f > 1.0 { ScaledOrder(1.0, f, d); }
    Remainder(a, Center(q), f);
    LengthScales(len, Center(q).Minus(a), 1.0 - f);
    assert (1.0 - f) * d == d - f * d;
  }

  lemma NextFractionOfWay(k: nat, d: real, rest: real)
    requires d > 0.0 && rest > 0.0 && rest == d - k as real * SPEED
    ensures Covered(k, d) + (1.0 - Covered(k, d)) * (SPEED / rest) == Covered(k + 1, d)
  {
    var f, g, h := Covered(k, d), SPEED / rest, Covered(k + 1, d);
    assert f * d == k as real * SPEED && h * d == (k + 1) as real * SPEED && g * rest == SPEED;
    assert (1.0 - f) * d == rest;
    assert ((1.0 - f) * g) * d == g * ((1.0 - f) * d);
    assert (f + (1.0 - f) * g) * d == f * d + ((1.0 - f) * g) * d;
    CancelFactor(f + (1.0 - f) * g, h, d);
  }

  lemma WayOn(a: Vec3, q: Point, f: real, g: real, h: real)
    requires f + (1.0 - f) * g == h
    ensures Way(a, q, f).Plus(Center(q).Minus(a).Scale(1.0 - f).Scale(g)) == Way(a, q, h)
  {
    var v := Center(q).Minus(a);
    ScaleTwice(v, 1.0 - f, g);
    SplitScale(v.x, f, (1.0 - f) * g, h);
    SplitScale(v.y, f, (1.0 - f) * g, h);
    SplitScale(v.z, f, (1.0 - f) * g, h);
  }

  lemma SplitScale(x: real, f: real, e: real, h: real)
    requires f + e == h
    ensures f * x + e * x == h * x
  {
  }

  /** What a tick on the way proposes: the next point of it. */
  lemma ProposalOnWay(len: Vec3 -> real, b: Body, a: Vec3, q: Point, k: nat, d: real)
    requires IsLength(len) && b.mode == Target && b.speed == SPEED && !b.attacking && b.target == Center(q)
    requires d == len(Center(q).Minus(a)) > 0.0 && k as real * SPEED < d
    requires b.position == Way(a, q, Covered(k, d)) && !AllNear(b.target, b.position)
    ensures Proposes(len, b)
    ensures Proposal(len, b) == if d - k as real * SPEED <= SPEED then Center(q) else Way(a, q, Covered(k + 1, d))
  {
    var rest, w := d - k as real * SPEED, b.target.Minus(b.position);
    RestOfWay(len, a, q, k, d);
    NearByLength(len, b.target, b.position);
    if rest > SPEED {
      HeadingScaled(w, rest, SPEED, SPEED / rest);
      NextFractionOfWay(k, d, rest);
      WayOn(a, q, Covered(k, d), SPEED / rest, Covered(k + 1, d));
    }
  }

  /** One tick on the way: nothing is refused, and the monster is one step further, or next to the centre and sent
      on. */
  lemma WayTick(grid: Grid, len: Vec3 -> real, m: Monster, i: nat, a: Vec3, k: nat)
    requires grid.Valid() && IsLength(len) && OnTheWay(grid, len, m, i, a, k)
    ensures var t := ZoneTick(grid, len, m);
            && Unrefused(grid, len, m.body) && t.path == m.path && CellOf(t.body.position) in m.path
            && (NextTo(grid, t, i + 1) || OnTheWay(grid, len, t, i, a, k + 1))
  {
    var p, q := m.path[i - 1], m.path[i];
    var d := len(Center(q).Minus(a));
    PathCells(grid, m, i);
    WayLength(len, p, q, a);
    ProposalOnWay(len, m.body, a, q, k, d);
    CellOnCentre(q);
    if d - k as real * SPEED > SPEED { WayCell(p, q, a, d, k + 1); }
  }

  /** A way begins where the one before it ended. */
  lemma WayBegins(grid: Grid, len: Vec3 -> real, m: Monster, i: nat)
    requires grid.Valid() && IsLength(len) && NextTo(grid, m, i) && i < |m.path|
    ensures OnTheWay(grid, len, m, i, m.body.position, 0)
  {
    var a, q := m.body.position, m.path[i];
    PathCells(grid, m, i);
    WayLength(len, m.path[i - 1], q, a);
    NearByLength(len, Center(q), a);
    assert Covered(0, len(Center(q).Minus(a))) == 0.0;
  }

  // ---------------------------------------------------------------- whole runs

  /** `n` ticks take the monster next to the centre of the last cell of `path`, with no cell left to head for; nothing
      is refused on the way, and the monster stays on the cells of the path. */
  ghost predicate EndsNear(grid: Grid, len: Vec3 -> real, m: Monster, path: seq<Point>, n: nat)
    requires grid.Valid()
  {
    var e := RunTicks(grid, len, m, n);
    && e.path == path != [] && e.index == |path| && AllNear(Center(path[|path| - 1]), e.body.position)
    && forall j {:trigger StaysOnPath(grid, len, m, path, j)} :: 0 <= j < n ==> StaysOnPath(grid, len, m, path, j)
  }

  lemma EndsNearBefore(grid: Grid, len: Vec3 -> real, m: Monster, t: Monster, path: seq<Point>, n: nat)
    requires grid.Valid() && t == ZoneTick(grid, len, m) && EndsNear(grid, len, t, path, n)
    requires Unrefused(grid, len, m.body) && CellOf(t.body.position) in path
    ensures EndsNear(grid, len, m, path, n + 1)
  {
    forall j | 0 <= j < n + 1 ensures StaysOnPath(grid, len, m, path, j) {
      if j > 0 { assert StaysOnPath(grid, len, t, path, j - 1); }
    }
  }

  /** At most one tick more than usual for each leg from `i` on. */
  function TicksAtMost(path: seq<Point>, i: nat): nat
    requires 1 <= i <= |path|
  {
    TicksFrom(path, i) + |path| - i
  }

  lemma StepsFit(grid: Grid, len: Vec3 -> real, m: Monster, i: nat, a: Vec3, k: nat)
    requires grid.Valid() && IsLength(len) && OnTheWay(grid, len, m, i, a, k)
    ensures k <= LegTicks(m.path[i - 1], m.path[i]) <= 8
  {
    PathCells(grid, m, i);
    WayLength(len, m.path[i - 1], m.path[i], a);
  }

  /** The rest of the path from a point on a way. */
  lemma {:induction false} WaysEndNear(grid: Grid, len: Vec3 -> real, m: Monster, path: seq<Point>, i: nat, a: Vec3,
                                       k: nat)
    returns (n: nat)
    requires grid.Valid() && IsLength(len) && OnTheWay(grid, len, m, i, a, k) && m.path == path
    ensures EndsNear(grid, len, m, path, n) && n + k <= TicksAtMost(path, i)
    decreases |path| - i, 8 - k, 0
  {
    var t := ZoneTick(grid, len, m);
    WayTick(grid, len, m, i, a, k);
    StepsFit(grid, len, m, i, a, k);
    if NextTo(grid, t, i + 1) {
      n := NextEndsNear(grid, len, t, path, i + 1);
      EndsNearBefore(grid, len, m, t, path, n);
    } else {
      StepsFit(grid, len, t, i, a, k + 1);
      n := WaysEndNear(grid, len, t, path, i, a, k + 1);
      EndsNearBefore(grid, len, m, t, path, n);
    }
    n := n + 1;
  }

  lemma NextEndsNear(grid: Grid, len: Vec3 -> real, m: Monster, path: seq<Point>, i: nat) returns (n: nat)
    requires grid.Valid() && IsLength(len) && NextTo(grid, m, i) && m.path == path
    ensures EndsNear(grid, len, m, path, n) && n <= TicksAtMost(path, i)
    decreases |path| - i, 9, 0
  {
    if i == |path| {
      n := 0;
    } else {
      WayBegins(grid, len, m, i);
      n := WaysEndNear(grid, len, m, path, i, m.body.position, 0);
    }
  }

  /** A tick of the approach that is not a full step: the monster is sent on, next to the centre or on it. */
  lemma SentOnTick(grid: Grid, len: Vec3 -> real, m: Monster)
    requires grid.Valid() && IsLength(len) && Approaching(grid, m) && Remaining(len, m.body) <= SPEED
    ensures var t := ZoneTick(grid, len, m);
            && Unrefused(grid, len, m.body) && t.path == m.path
            && NextTo(grid, t, 1) && CellOf(t.body.position) == m.path[0]
  {
    CellOnCentre(m.path[0]);
    ZeroLength(len, m.body.target, m.body.position);
    if Remaining(len, m.body) < EPSILON {
      NearByLength(len, m.body.target, m.body.position);
    } else {
      ApproachesCentre(grid, len, m.body);
    }
  }

  /** From anywhere in its own free cell a monster walks its path to the end: no position it proposes is refused, it
      never leaves the cells of the path, and it ends next to the centre of the last one, after at most the ticks of its
      approach plus six for each straight and nine for each diagonal step. */
  lemma {:induction false} ChaseEndsNear(grid: Grid, len: Vec3 -> real, m: Monster) returns (n: nat)
    requires grid.Valid() && IsLength(len) && Approaching(grid, m)
    ensures EndsNear(grid, len, m, m.path, n)
    ensures n <= (if StepsLeft(len, m.body) == 0 then 1 else StepsLeft(len, m.body)) + TicksAtMost(m.path, 1)
    decreases StepsLeft(len, m.body)
  {
    var t, d := ZoneTick(grid, len, m), Remaining(len, m.body);
    if d <= SPEED {
      SentOnTick(grid, len, m);
      n := NextEndsNear(grid, len, t, m.path, 1);
    } else {
      FullStepTick(grid, len, m);
      StepsAfterOne(d);
      if AllNear(t.body.target, t.body.position) || t.index == 1 {
        n := NextEndsNear(grid, len, t, m.path, 1);
      } else {
        n := ChaseEndsNear(grid, len, t);
      }
    }
    EndsNearBefore(grid, len, m, t, m.path, n);
    n := n + 1;
  }
}
