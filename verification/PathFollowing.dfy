/** The composition of path search, monster and movement: a monster walks the path it was given to its end,
    and no position it proposes on the way is refused. */
module PathFollowing {
  import opened Grids
  import opened Walks
  import opened Vectors
  import opened Subworlds
  import opened Monsters

  // ---------------------------------------------------------------- between two neighbouring centres

  /** The point at fraction `x` of the way from the centre of `p` to the centre of `q`. */
  function OnLeg(p: Point, q: Point, x: real): Vec3 {
    Vec3(p.c as real + 0.5 + (q.c - p.c) as real * x, 0.0, p.r as real + 0.5 + (q.r - p.r) as real * x)
  }

  /** One coordinate grows while the other shrinks. */
  predicate MixedDiagonal(p: Point, q: Point) {
    q.r - p.r == p.c - q.c != 0
  }

  lemma FloorOnAxis(from: int, to: int, x: real)
    requires -1 <= to - from <= 1 && 0.0 <= x <= 1.0
    ensures var f := (from as real + 0.5 + (to - from) as real * x).Floor;
            f == if x < 0.5 then from else if x > 0.5 then to else if to > from then to else from
  {
    if to == from + 1 { assert (to - from) as real * x == x; }
    if to == from { assert (to - from) as real * x == 0.0; }
    if to == from - 1 { assert (to - from) as real * x == -x; }
  }

  /** A leg runs through its two cells only, except that a mixed-sign diagonal touches a third cell at the corner. */
  lemma CellOnLeg(p: Point, q: Point, x: real)
    requires Adjacent(p, q) && 0.0 <= x <= 1.0
    ensures CellOf(OnLeg(p, q, x)) == p || CellOf(OnLeg(p, q, x)) == q <==> !(MixedDiagonal(p, q) && x == 0.5)
  {
    FloorOnAxis(p.r, q.r, x);
    FloorOnAxis(p.c, q.c, x);
  }

  // ---------------------------------------------------------------- lengths

  lemma RootIsUnique(a: real, b: real)
    requires a >= 0.0 && b >= 0.0 && a * a == b * b
    ensures a == b
  {
    if a < b { SquareStrict(a, b); }
    if b < a { SquareStrict(b, a); }
  }

  lemma LengthScales(len: Vec3 -> real, v: Vec3, k: real)
    requires IsLength(len) && k >= 0.0
    ensures len(v.Scale(k)) == k * len(v)
  {
    var a, b := len(v.Scale(k)), len(v);
    assert LengthAt(len, v) && LengthAt(len, v.Scale(k));
    assert v.Scale(k).NormSq() == k * k * v.NormSq();
    ProductSign(k, b);
    assert (k * b) * (k * b) == k * k * (b * b);
    RootIsUnique(a, k * b);
  }

  function Leg(p: Point, q: Point): Vec3 {
    Center(q).Minus(Center(p))
  }

  /** How many ticks at SPEED a leg takes: five for a straight one, eight for a diagonal. */
  function LegTicks(p: Point, q: Point): nat {
    if Manhattan(p, q) == 1 then 5 else 8
  }

  /** On neighbouring cells the squared Euclidean and the Manhattan distance agree. */
  lemma LegSquare(p: Point, q: Point)
    requires Adjacent(p, q)
    ensures Leg(p, q) == Vec3((q.c - p.c) as real, 0.0, (q.r - p.r) as real)
    ensures Leg(p, q).NormSq() == Manhattan(p, q) as real
    ensures Manhattan(p, q) == 1 || Manhattan(p, q) == 2
  {
    UnitSquare(q.c - p.c);
    UnitSquare(q.r - p.r);
  }

  lemma UnitSquare(n: int)
    requires -1 <= n <= 1
    ensures (n as real) * (n as real) == Abs(n) as real
  {
    if n == 0 { assert (n as real) == 0.0; }
    if n == 1 { assert (n as real) == 1.0; }
    if n == -1 { assert (n as real) == -1.0; }
  }

  lemma SquareRootOfTwo(d: real)
    requires d >= 0.0 && d * d == 2.0
    ensures 1.414 < d < 1.415
  {
    if d <= 1.414 { SquareMonotone(d, 1.414); }
    if d >= 1.415 { SquareMonotone(1.415, d); }
  }

  /** The length of a leg is 1 or the square root of 2. */
  lemma LegLength(len: Vec3 -> real, p: Point, q: Point)
    requires IsLength(len) && Adjacent(p, q)
    ensures var d := len(Leg(p, q)); if Manhattan(p, q) == 1 then d == 1.0 else 1.414 < d < 1.415
  {
    var v := Leg(p, q);
    LegSquare(p, q);
    assert LengthAt(len, v);
    if Manhattan(p, q) == 1 { RootIsUnique(len(v), 1.0); } else { SquareRootOfTwo(len(v)); }
  }

  /** The fraction of a leg covered after `k` full steps. */
  function Covered(k: nat, d: real): real
    requires d > 0.0
  {
    k as real * SPEED / d
  }

  /** Steps at SPEED never land on the corner of a diagonal, and what is left is never mistaken for arrival. */
  lemma CoveredBounds(k: nat, d: real, straight: bool)
    requires if straight then d == 1.0 else 1.414 < d < 1.415
    requires k < if straight then 5 else 8
    ensures var x := Covered(k, d);
            && 0.0 <= x < 1.0 && (straight || x != 0.5)
            && (1.0 - x) * d == d - k as real * SPEED > 0.01
            && 1.0 - x > 0.005
            && (d - k as real * SPEED <= SPEED <==> k + 1 == if straight then 5 else 8)
  {
    var x, s := Covered(k, d), k as real * SPEED;
    QuotientSign(s, d);
    assert x * d == s;
    assert (1.0 - x) * d == d - s;
    assert d - s > 0.01;
    assert 1.0 - x > 0.005 by {
      if 1.0 - x <= 0.005 { ScaledOrder(1.0 - x, 0.005, d); }
    }
    assert !straight ==> 2.0 * s != d;
    assert x == 0.5 ==> 0.5 * d == s;
  }

  lemma QuotientSign(s: real, d: real)
    requires s >= 0.0 && d > 0.0
    ensures s / d >= 0.0
  {
    var x := s / d;
    assert x * d == s;
    if x < 0.0 { ScaledOrder(x, 0.0, d); }
  }

  lemma ScaledOrder(a: real, b: real, d: real)
    requires a <= b && d > 0.0
    ensures a * d <= b * d
    ensures a < b ==> a * d < b * d
  {
    ProductSign(b - a, d);
    assert b * d - a * d == (b - a) * d;
  }

  // ---------------------------------------------------------------- one tick of the zone

  /** One zone tick without a repath: movement, then the monster's own tick. At the end of the path the monster
      decides between attacking and giving up, which does not move it. */
  function ZoneTick(grid: Grid, len: Vec3 -> real, m: Monster): Monster
    requires grid.Valid()
  {
    var moved := m.(body := Moved(grid, len, m.body));
    if m.index < |m.path| then Followed(moved) else moved
  }

  /** It is the movement of the subworld followed by what a monster does that has a path, sees its player still in the
      zone and has not been chasing for too long. */
  lemma ZoneTickIsMoveThenChase(grid: Grid, len: Vec3 -> real, v: View, m: Monster, t: Monster, now: real)
    requires grid.Valid() && m.index < |m.path| && now <= m.started + REPATH_AFTER && QuarryAt(v, m).Some?
    requires Chased(grid, v, m.(body := Moved(grid, len, m.body)), t, now)
    ensures t == ZoneTick(grid, len, m)
  {
  }

  /** The proposed position, if any, is taken. */
  predicate Unrefused(grid: Grid, len: Vec3 -> real, b: Body)
    requires grid.Valid()
  {
    Proposes(len, b) ==> Accepts(grid, Proposal(len, b))
  }

  /** A chasing monster that is free to move, on a legal path that starts on a free cell. */
  ghost predicate Following(grid: Grid, m: Monster)
    requires grid.Valid()
  {
    && m.path != [] && grid.IsFree(m.path[0])
    && LegalWalk(grid, m.path, m.path[0], m.path[|m.path| - 1])
    && m.state == Chasing && m.body.mode == Target && m.body.speed == SPEED && !m.body.attacking
  }

  /** The monster is `k` steps into the leg that ends at cell `i` of its path. */
  ghost predicate InLeg(grid: Grid, len: Vec3 -> real, m: Monster, i: nat, k: nat)
    requires grid.Valid()
  {
    && Following(grid, m) && 1 <= i < |m.path| && m.index == i
    && var p, q := m.path[i - 1], m.path[i];
       && len(Leg(p, q)) > 0.0
       && k < LegTicks(p, q)
       && m.body.target == Center(q)
       && m.body.position == OnLeg(p, q, Covered(k, len(Leg(p, q))))
  }

  /** The monster stands on the centre of the last cell, with no cell left to head for. */
  ghost predicate AtEnd(m: Monster) {
    m.path != [] && m.index == |m.path| && m.body.position == Center(m.path[|m.path| - 1])
  }

  /** Either at the beginning of the next leg or at the end. */
  ghost predicate NextLeg(grid: Grid, len: Vec3 -> real, m: Monster, i: nat)
    requires grid.Valid()
  {
    if i < |m.path| then InLeg(grid, len, m, i, 0) else i == |m.path| && AtEnd(m) && Following(grid, m)
  }

  lemma PathCells(grid: Grid, m: Monster, i: nat)
    requires grid.Valid() && Following(grid, m) && 1 <= i < |m.path|
    ensures Adjacent(m.path[i - 1], m.path[i]) && grid.IsFree(m.path[i - 1]) && grid.IsFree(m.path[i])
  {
  }

  lemma OnLegEnds(p: Point, q: Point)
    ensures OnLeg(p, q, 0.0) == Center(p) && OnLeg(p, q, 1.0) == Center(q)
  {
  }

  /** What is left of a leg at fraction `x` points along the leg. */
  lemma RestOfLeg(len: Vec3 -> real, p: Point, q: Point, x: real)
    requires IsLength(len) && 0.0 <= x <= 1.0
    ensures Center(q).Minus(OnLeg(p, q, x)) == Leg(p, q).Scale(1.0 - x)
    ensures len(Center(q).Minus(OnLeg(p, q, x))) == (1.0 - x) * len(Leg(p, q))
  {
    var dc, dr := (q.c - p.c) as real, (q.r - p.r) as real;
    assert Leg(p, q) == Vec3(dc, 0.0, dr);
    assert Center(q).Minus(OnLeg(p, q, x)) == Vec3(dc - dc * x, 0.0, dr - dr * x);
    LengthScales(len, Leg(p, q), 1.0 - x);
  }

  /** A step of SPEED along the leg, expressed as the fraction it leads to. */
  lemma StepOnLeg(p: Point, q: Point, x: real, d: real)
    requires x < 1.0 && d > 0.0
    ensures (1.0 - x) * d > 0.0
    ensures OnLeg(p, q, x).Plus(Leg(p, q).Scale(1.0 - x).Scale(1.0 / ((1.0 - x) * d)).Scale(SPEED))
         == OnLeg(p, q, x + SPEED / d)
  {
    var y := 1.0 - x;
    ProductSign(y, d);
    var f := SPEED / d;
    var u := 1.0 / (y * d);
    assert u * (y * d) == 1.0;
    assert u * y * d == 1.0;
    assert f * d == SPEED;
    assert SPEED * (u * y) == f by {
      assert SPEED * (u * y) * d == f * d;
      CancelFactor(SPEED * (u * y), f, d);
    }
    ScaleThrice(Leg(p, q), y, u, f);
    assert Leg(p, q) == Vec3((q.c - p.c) as real, 0.0, (q.r - p.r) as real);
  }

  lemma CancelFactor(a: real, b: real, d: real)
    requires d > 0.0 && a * d == b * d
    ensures a == b
  {
    if a < b { ScaledOrder(a, b, d); }
    if b < a { ScaledOrder(b, a, d); }
  }

  lemma ScaleThrice(v: Vec3, y: real, u: real, f: real)
    requires SPEED * (u * y) == f
    ensures v.Scale(y).Scale(u).Scale(SPEED) == v.Scale(f)
  {
    assert SPEED * (u * (y * v.x)) == f * v.x;
    assert SPEED * (u * (y * v.y)) == f * v.y;
    assert SPEED * (u * (y * v.z)) == f * v.z;
  }

  lemma CoveredNext(k: nat, d: real)
    requires d > 0.0
    ensures Covered(k + 1, d) == Covered(k, d) + SPEED / d
  {
    var a, b, c := Covered(k + 1, d), Covered(k, d), SPEED / d;
    assert a * d == (k + 1) as real * SPEED && b * d == k as real * SPEED && c * d == SPEED;
    assert (b + c) * d == a * d;
    CancelFactor(a, b + c, d);
  }

  /** The next fraction: one more step of SPEED, the last of which ends exactly on the centre. */
  function NextFraction(p: Point, q: Point, k: nat, d: real): real
    requires d > 0.0
  {
    if k + 1 == LegTicks(p, q) then 1.0 else Covered(k + 1, d)
  }

  /** The proposal, from the fraction `x` covered and the length `rest` still to go. */
  lemma ProposalFrom(len: Vec3 -> real, b: Body, p: Point, q: Point, x: real, d: real, rest: real)
    requires b.mode == Target && b.speed == SPEED && !b.attacking && b.target == Center(q)
    requires b.position == OnLeg(p, q, x) && x < 1.0 && d > 0.0
    requires b.target.Minus(b.position) == Leg(p, q).Scale(1.0 - x)
    requires len(Leg(p, q).Scale(1.0 - x)) == rest == (1.0 - x) * d && rest > 0.01
    ensures Proposes(len, b)
    ensures Proposal(len, b) == if rest <= SPEED then OnLeg(p, q, 1.0) else OnLeg(p, q, x + SPEED / d)
  {
    if rest <= SPEED {
      OnLegEnds(p, q);
    } else {
      assert Heading(len, b) == Leg(p, q).Scale(1.0 - x).Scale(1.0 / rest);
      StepOnLeg(p, q, x, d);
    }
  }

  /** The numbers of a monster that is `k` steps into a leg. */
  lemma LegNumbers(len: Vec3 -> real, p: Point, q: Point, k: nat, d: real, x: real, rest: real)
    requires IsLength(len) && Adjacent(p, q) && k < LegTicks(p, q)
    requires d == len(Leg(p, q)) > 0.0 && x == Covered(k, d) && rest == d - k as real * SPEED
    ensures 0.0 <= x < 1.0 && rest > 0.01 && rest == (1.0 - x) * d
    ensures rest <= SPEED <==> k + 1 == LegTicks(p, q)
  {
    LegLength(len, p, q);
    LegSquare(p, q);
    CoveredBounds(k, d, Manhattan(p, q) == 1);
  }

  lemma LegFacts(len: Vec3 -> real, p: Point, q: Point, k: nat, d: real, x: real, rest: real)
    requires IsLength(len) && Adjacent(p, q) && k < LegTicks(p, q)
    requires d == len(Leg(p, q)) > 0.0 && x == Covered(k, d) && rest == d - k as real * SPEED
    ensures 0.0 <= x < 1.0 && rest > 0.01 && rest == (1.0 - x) * d
    ensures rest <= SPEED <==> k + 1 == LegTicks(p, q)
    ensures Center(q).Minus(OnLeg(p, q, x)) == Leg(p, q).Scale(1.0 - x) && len(Leg(p, q).Scale(1.0 - x)) == rest
  {
    LegNumbers(len, p, q, k, d, x, rest);
    RestOfLeg(len, p, q, x);
  }

  /** What a tick proposes in the middle of a leg: the next point of the leg. */
  lemma ProposalOnLeg(len: Vec3 -> real, b: Body, p: Point, q: Point, k: nat)
    requires IsLength(len) && Adjacent(p, q) && len(Leg(p, q)) > 0.0 && k < LegTicks(p, q)
    requires b.mode == Target && b.speed == SPEED && !b.attacking && b.target == Center(q)
    requires b.position == OnLeg(p, q, Covered(k, len(Leg(p, q))))
    ensures Proposes(len, b)
    ensures Proposal(len, b) == OnLeg(p, q, NextFraction(p, q, k, len(Leg(p, q))))
    ensures len(b.target.Minus(b.position)) == len(Leg(p, q)) - k as real * SPEED
  {
    var d := len(Leg(p, q));
    var x, rest := Covered(k, d), d - k as real * SPEED;
    LegFacts(len, p, q, k, d, x, rest);
    CoveredNext(k, d);
    ProposalFrom(len, b, p, q, x, d, rest);
  }

  /** The next point of a leg lies in one of the leg's two cells. */
  lemma NextCellOnLeg(len: Vec3 -> real, p: Point, q: Point, k: nat)
    requires IsLength(len) && Adjacent(p, q) && len(Leg(p, q)) > 0.0 && k < LegTicks(p, q)
    ensures CellOf(OnLeg(p, q, NextFraction(p, q, k, len(Leg(p, q))))) in {p, q}
  {
    var d := len(Leg(p, q));
    LegLength(len, p, q);
    LegSquare(p, q);
    if k + 1 < LegTicks(p, q) { CoveredBounds(k + 1, d, Manhattan(p, q) == 1); }
    CellOnLeg(p, q, NextFraction(p, q, k, d));
  }

  lemma NotThereYet(p: Point, q: Point, x: real)
    requires Adjacent(p, q) && x < 1.0 - 0.005
    ensures !AllNear(Center(q), OnLeg(p, q, x))
  {
    var y := 1.0 - x;
    assert Center(q).x - OnLeg(p, q, x).x == (q.c - p.c) as real * y;
    assert Center(q).z - OnLeg(p, q, x).z == (q.r - p.r) as real * y;
    if q.c == p.c + 1 { assert (q.c - p.c) as real * y == y; }
    if q.c == p.c - 1 { assert (q.c - p.c) as real * y == -y; }
    if q.r == p.r + 1 { assert (q.r - p.r) as real * y == y; }
    if q.r == p.r - 1 { assert (q.r - p.r) as real * y == -y; }
  }

  /** Short of its last step a monster is not mistaken to have arrived. */
  lemma StillOnTheWay(len: Vec3 -> real, p: Point, q: Point, k: nat)
    requires IsLength(len) && Adjacent(p, q) && len(Leg(p, q)) > 0.0 && k < LegTicks(p, q)
    ensures !AllNear(Center(q), OnLeg(p, q, Covered(k, len(Leg(p, q)))))
  {
    LegLength(len, p, q);
    LegSquare(p, q);
    CoveredBounds(k, len(Leg(p, q)), Manhattan(p, q) == 1);
    NotThereYet(p, q, Covered(k, len(Leg(p, q))));
  }

  /** One tick within a leg: nothing is refused, and the monster is one step further, or at the next leg. */
  lemma LegTick(grid: Grid, len: Vec3 -> real, m: Monster, i: nat, k: nat)
    requires grid.Valid() && IsLength(len) && InLeg(grid, len, m, i, k)
    ensures Unrefused(grid, len, m.body) && CellOf(ZoneTick(grid, len, m).body.position) in m.path
    ensures var t := ZoneTick(grid, len, m);
            && t.path == m.path
            && if k + 1 < LegTicks(m.path[i - 1], m.path[i]) then InLeg(grid, len, t, i, k + 1)
               else NextLeg(grid, len, t, i + 1)
  {
    var p, q := m.path[i - 1], m.path[i];
    PathCells(grid, m, i);
    ProposalOnLeg(len, m.body, p, q, k);
    NextCellOnLeg(len, p, q, k);
    if k + 1 < LegTicks(p, q) {
      StillOnTheWay(len, p, q, k + 1);
    } else {
      OnLegEnds(p, q);
      var t := ZoneTick(grid, len, m);
      assert t.body.position == Center(q) && t.index == i + 1;
      if i + 1 < |m.path| { LegBegins(grid, len, t, i + 1); }
    }
  }

  /** A monster that has just been pointed at cell `i` from the centre of the cell before it. */
  lemma LegBegins(grid: Grid, len: Vec3 -> real, m: Monster, i: nat)
    requires grid.Valid() && IsLength(len) && Following(grid, m)
    requires 1 <= i < |m.path| && m.index == i
    requires m.body.position == Center(m.path[i - 1]) && m.body.target == Center(m.path[i])
    ensures InLeg(grid, len, m, i, 0)
  {
    var p, q := m.path[i - 1], m.path[i];
    PathCells(grid, m, i);
    LegLength(len, p, q);
    OnLegEnds(p, q);
    assert Covered(0, len(Leg(p, q))) == 0.0;
  }

  // ---------------------------------------------------------------- whole runs

  function RunTicks(grid: Grid, len: Vec3 -> real, m: Monster, n: nat): Monster
    requires grid.Valid()
    decreases n
  {
    if n == 0 then m else RunTicks(grid, len, ZoneTick(grid, len, m), n - 1)
  }

  /** The ticks it takes to walk the legs that end at the cells from `i` on. */
  function TicksFrom(path: seq<Point>, i: nat): nat
    requires 1 <= i <= |path|
    decreases |path| - i
  {
    if i == |path| then 0 else LegTicks(path[i - 1], path[i]) + TicksFrom(path, i + 1)
  }

  /** The `j`-th tick refuses nothing and leads to a cell of `path`. */
  ghost predicate StaysOnPath(grid: Grid, len: Vec3 -> real, m: Monster, path: seq<Point>, j: nat)
    requires grid.Valid()
  {
    && Unrefused(grid, len, RunTicks(grid, len, m, j).body)
    && CellOf(RunTicks(grid, len, m, j + 1).body.position) in path
  }

  /** `n` ticks take the monster to the end of `path`: no proposed position is refused on the way, and the monster
      stays on the cells of the path. */
  ghost predicate Completes(grid: Grid, len: Vec3 -> real, m: Monster, path: seq<Point>, n: nat)
    requires grid.Valid()
  {
    && AtEnd(RunTicks(grid, len, m, n)) && RunTicks(grid, len, m, n).path == path
    && forall j {:trigger StaysOnPath(grid, len, m, path, j)} :: 0 <= j < n ==> StaysOnPath(grid, len, m, path, j)
  }

  /** One tick before a completion. */
  lemma CompletesBefore(grid: Grid, len: Vec3 -> real, m: Monster, t: Monster, path: seq<Point>, n: nat)
    requires grid.Valid() && t == ZoneTick(grid, len, m) && Completes(grid, len, t, path, n)
    requires Unrefused(grid, len, m.body) && CellOf(t.body.position) in path
    ensures Completes(grid, len, m, path, n + 1)
  {
    forall j | 0 <= j < n + 1 ensures StaysOnPath(grid, len, m, path, j) {
      if j > 0 { assert StaysOnPath(grid, len, t, path, j - 1); }
    }
  }

  /** A tick within a leg, as one step of a completion. */
  lemma TickTowardsEnd(grid: Grid, len: Vec3 -> real, m: Monster, i: nat, k: nat) returns (t: Monster)
    requires grid.Valid() && IsLength(len) && InLeg(grid, len, m, i, k)
    ensures t == ZoneTick(grid, len, m) && t.path == m.path
    ensures Unrefused(grid, len, m.body) && CellOf(t.body.position) in m.path
    ensures if k + 1 < LegTicks(m.path[i - 1], m.path[i]) then InLeg(grid, len, t, i, k + 1)
            else if i + 1 < |m.path| then InLeg(grid, len, t, i + 1, 0)
            else Completes(grid, len, t, m.path, 0)
  {
    LegTick(grid, len, m, i, k);
    t := ZoneTick(grid, len, m);
  }

  /** From anywhere within a leg the monster reaches the end of its path in exactly the ticks its legs take. */
  lemma {:induction false} WalksFrom(grid: Grid, len: Vec3 -> real, m: Monster, path: seq<Point>, i: nat, k: nat,
                                     n: nat)
    requires grid.Valid() && IsLength(len) && InLeg(grid, len, m, i, k) && m.path == path
    requires n + k == TicksFrom(path, i)
    ensures Completes(grid, len, m, path, n)
    decreases n, 1
  {
    var t := TickTowardsEnd(grid, len, m, i, k);
    WalksOn(grid, len, t, path, i, k, n);
    CompletesBefore(grid, len, m, t, path, n - 1);
  }

  /** One tick later: in the same leg, in the next one, or at the end. */
  lemma WalksOn(grid: Grid, len: Vec3 -> real, t: Monster, path: seq<Point>, i: nat, k: nat, n: nat)
    requires grid.Valid() && IsLength(len) && t.path == path && 1 <= i < |path| && k < LegTicks(path[i - 1], path[i])
    requires n + k == TicksFrom(path, i)
    requires if k + 1 < LegTicks(path[i - 1], path[i]) then InLeg(grid, len, t, i, k + 1)
             else if i + 1 < |path| then InLeg(grid, len, t, i + 1, 0) else Completes(grid, len, t, path, 0)
    ensures n > 0 && Completes(grid, len, t, path, n - 1)
    decreases n, 0
  {
    assert n + k == LegTicks(path[i - 1], path[i]) + TicksFrom(path, i + 1);
    if k + 1 < LegTicks(path[i - 1], path[i]) {
      WalksFrom(grid, len, t, path, i, k + 1, n - 1);
    } else if i + 1 < |path| {
      WalksFrom(grid, len, t, path, i + 1, 0, n - 1);
    }
  }

  /** Each tick of the walk brings the monster to a later cell, or SPEED closer to the cell it is heading for. */
  lemma TickMakesProgress(grid: Grid, len: Vec3 -> real, m: Monster, i: nat, k: nat)
    requires grid.Valid() && IsLength(len) && InLeg(grid, len, m, i, k)
    ensures var t := ZoneTick(grid, len, m);
            || t.index == m.index + 1
            || (t.index == m.index &&
                len(t.body.target.Minus(t.body.position)) == len(m.body.target.Minus(m.body.position)) - SPEED)
  {
    LegTick(grid, len, m, i, k);
    var t, p, q := ZoneTick(grid, len, m), m.path[i - 1], m.path[i];
    PathCells(grid, m, i);
    ProposalOnLeg(len, m.body, p, q, k);
    if k + 1 < LegTicks(p, q) { ProposalOnLeg(len, t.body, p, q, k + 1); }
  }

  /** The monster has just set out and stands on the centre of its own, free cell. */
  ghost predicate AtStart(grid: Grid, m: Monster)
    requires grid.Valid()
  {
    Following(grid, m) && m.index == 0 && m.body.target == Center(m.path[0]) == m.body.position
  }

  lemma StandingStill(len: Vec3 -> real, b: Body)
    requires IsLength(len) && b.position == b.target
    ensures AtTarget(len, b)
  {
    var v := b.target.Minus(b.position);
    assert v == ZERO && LengthAt(len, v);
    RootIsUnique(len(v), 0.0);
  }

  /** The first tick of a chase only turns the monster to the second cell of its path. */
  lemma FirstTick(grid: Grid, len: Vec3 -> real, m: Monster)
    requires grid.Valid() && IsLength(len) && AtStart(grid, m)
    ensures Unrefused(grid, len, m.body) && ZoneTick(grid, len, m).body.position == m.body.position
    ensures ZoneTick(grid, len, m).path == m.path
    ensures NextLeg(grid, len, ZoneTick(grid, len, m), 1)
  {
    StandingStill(len, m.body);
    var t := ZoneTick(grid, len, m);
    if |m.path| > 1 { LegBegins(grid, len, t, 1); }
  }

  /** The whole chase: on a path computed by A*, from the centre of a free cell, without a repath, the monster reaches
      the centre of the path's last cell after one tick, plus five for each straight and eight for each diagonal step.
      No position it proposes on the way is refused, and it never leaves the cells of the path. */
  lemma PathIsWalkedToItsEnd(grid: Grid, len: Vec3 -> real, m: Monster)
    requires grid.Valid() && IsLength(len) && AtStart(grid, m)
    ensures Completes(grid, len, m, m.path, 1 + TicksFrom(m.path, 1))
    ensures AtEnd(RunTicks(grid, len, m, 1 + TicksFrom(m.path, 1)))
  {
    FirstTick(grid, len, m);
    CellOnCentre(m.path[0]);
    RestIsCompleted(grid, len, ZoneTick(grid, len, m));
    CompletesBefore(grid, len, m, ZoneTick(grid, len, m), m.path, TicksFrom(m.path, 1));
  }

  lemma RestIsCompleted(grid: Grid, len: Vec3 -> real, t: Monster)
    requires grid.Valid() && IsLength(len) && t.path != [] && NextLeg(grid, len, t, 1)
    ensures Completes(grid, len, t, t.path, TicksFrom(t.path, 1))
  {
    if |t.path| > 1 { WalksFrom(grid, len, t, t.path, 1, 0, TicksFrom(t.path, 1)); }
  }

  lemma CellOnCentre(p: Point)
    ensures CellOf(Center(p)) == p
  {
  }

  /** Setting out from the centre of a free cell is such a start. */
  lemma SettingOutStarts(grid: Grid, m: Monster, t: Monster, player: Vec3, e: EntityId, now: real)
    requires grid.Valid() && SetsOut(grid, m, t, player, e, now)
    requires m.body.mode == Target && m.body.speed == SPEED && !m.body.attacking
    requires grid.IsFree(CellOf(m.body.position)) && m.body.position == Center(CellOf(m.body.position))
    ensures AtStart(grid, t)
  {
  }

  // ---------------------------------------------------------------- reaching the first centre

  /** Anywhere between two points of a cell one is in that cell. */
  lemma CellIsConvex(a: Vec3, b: Vec3, f: real)
    requires 0.0 <= f <= 1.0 && CellOf(a) == CellOf(b)
    ensures CellOf(a.Plus(b.Minus(a).Scale(f))) == CellOf(a)
  {
    AxisIsConvex(a.x, b.x, f, a.x.Floor);
    AxisIsConvex(a.z, b.z, f, a.z.Floor);
  }

  lemma AxisIsConvex(a: real, b: real, f: real, n: int)
    requires 0.0 <= f <= 1.0 && a.Floor == n == b.Floor
    ensures (a + f * (b - a)).Floor == n
  {
    var d := b - a;
    var v := a + f * d;
    if d >= 0.0 {
      ScaledUp(f, d);
      assert a <= v <= b;
    } else {
      ScaledUp(f, -d);
      assert f * d == -(f * -d);
      assert b <= v <= a;
    }
  }

  lemma ScaledUp(f: real, d: real)
    requires 0.0 <= f <= 1.0 && d >= 0.0
    ensures 0.0 <= f * d <= d
  {
    ProductSign(f, d);
    ProductSign(1.0 - f, d);
    assert (1.0 - f) * d == d - f * d;
  }

  /** On its way to the centre of its own cell a monster proposes only positions inside that cell, at any speed.
      So it is refused exactly when the cell is blocked - which no path search checks of its start. */
  lemma ProposesWithinCell(grid: Grid, len: Vec3 -> real, b: Body)
    requires grid.Valid() && IsLength(len)
    requires b.mode == Target && b.speed > 0.0 && Proposes(len, b) && b.target == Center(CellOf(b.position))
    ensures CellOf(Proposal(len, b)) == CellOf(b.position)
    ensures Accepts(grid, Proposal(len, b)) <==> grid.IsFree(CellOf(b.position))
    ensures var d := len(b.target.Minus(b.position));
            if d <= b.speed then Proposal(len, b) == b.target
            else len(b.target.Minus(Proposal(len, b))) == d - b.speed
  {
    var v := b.target.Minus(b.position);
    var d := len(v);
    CellOnCentre(CellOf(b.position));
    if d > b.speed {
      var f := b.speed / d;
      QuotientSign(b.speed, d);
      assert f * d == b.speed;
      if f > 1.0 { ScaledOrder(1.0, f, d); }
      HeadingScaled(v, d, b.speed, f);
      CellIsConvex(b.position, b.target, f);
      Remainder(b.position, b.target, f);
      LengthScales(len, v, 1.0 - f);
    }
  }

  /** From anywhere in a free cell a tick leads to its centre exactly, or one whole step closer to it. */
  lemma ApproachesCentre(grid: Grid, len: Vec3 -> real, b: Body)
    requires grid.Valid() && IsLength(len)
    requires b.mode == Target && b.speed > 0.0 && Proposes(len, b)
    requires grid.IsFree(CellOf(b.position)) && b.target == Center(CellOf(b.position))
    ensures CellOf(Moved(grid, len, b).position) == CellOf(b.position)
    ensures var d, t := len(b.target.Minus(b.position)), Moved(grid, len, b);
            if d <= b.speed then t.position == b.target
            else len(b.target.Minus(t.position)) == d - b.speed
  {
    ProposesWithinCell(grid, len, b);
  }

  lemma HeadingScaled(v: Vec3, d: real, speed: real, f: real)
    requires d > 0.0 && f == speed / d
    ensures v.Scale(1.0 / d).Scale(speed) == v.Scale(f)
  {
    var u := 1.0 / d;
    assert u * d == 1.0 && f * d == speed;
    assert speed * u == f by {
      assert speed * u * d == f * d;
      CancelFactor(speed * u, f, d);
    }
    assert speed * (u * v.x) == f * v.x && speed * (u * v.y) == f * v.y && speed * (u * v.z) == f * v.z;
  }

  lemma Remainder(a: Vec3, b: Vec3, f: real)
    ensures b.Minus(a.Plus(b.Minus(a).Scale(f))) == b.Minus(a).Scale(1.0 - f)
  {
  }

  function Remaining(len: Vec3 -> real, b: Body): real {
    len(b.target.Minus(b.position))
  }

  lemma CoordinateBelowLength(a: real, b: real, c: real, d: real)
    requires d >= 0.0 && a * a + b * b + c * c == d * d
    ensures -d <= a <= d
  {
    SquareNonNegative(b);
    SquareNonNegative(c);
    if a > d { SquareStrict(d, a); }
    if a < -d { SquareStrict(d, -a); }
  }

  /** A point closer than EPSILON counts as reached; one at least twice as far away does not. */
  lemma NearByLength(len: Vec3 -> real, u: Vec3, v: Vec3)
    requires IsLength(len)
    ensures len(u.Minus(v)) < EPSILON ==> AllNear(u, v)
    ensures len(u.Minus(v)) >= 2.0 * EPSILON ==> !AllNear(u, v)
  {
    var w, d := u.Minus(v), len(u.Minus(v));
    assert LengthAt(len, w);
    CoordinateBelowLength(w.x, w.y, w.z, d);
    CoordinateBelowLength(w.y, w.x, w.z, d);
    CoordinateBelowLength(w.z, w.x, w.y, d);
    if AllNear(u, v) && d >= 2.0 * EPSILON {
      SquareBelow(w.x, EPSILON);
      SquareBelow(w.y, EPSILON);
      SquareBelow(w.z, EPSILON);
      SquareMonotone(2.0 * EPSILON, d);
      assert false;
    }
  }

  lemma SquareBelow(a: real, e: real)
    requires -e < a < e
    ensures a * a < e * e
  {
    if a >= 0.0 { SquareStrict(a, e); } else { SquareStrict(-a, e); }
  }

  /** A full step, as a fraction of the way to the target. */
  lemma FullStep(len: Vec3 -> real, b: Body, v: Vec3, d: real) returns (f: real)
    requires b.mode == Target && b.speed > 0.0 && Proposes(len, b)
    requires v == b.target.Minus(b.position) && d == len(v) > b.speed
    ensures f >= 0.0 && f * d == b.speed
    ensures var w := Proposal(len, b).Minus(b.position); w.x == f * v.x && w.z == f * v.z
  {
    f := b.speed / d;
    QuotientSign(b.speed, d);
    HeadingScaled(v, d, b.speed, f);
    StepOf(b.position, v.Scale(f));
  }

  lemma StepOf(a: Vec3, v: Vec3)
    ensures a.Plus(v).Minus(a) == v
  {
  }

  lemma LengthBoundsCoordinates(len: Vec3 -> real, v: Vec3)
    requires IsLength(len)
    ensures -len(v) <= v.x <= len(v) && -len(v) <= v.z <= len(v)
  {
    assert LengthAt(len, v);
    CoordinateBelowLength(v.x, v.y, v.z, len(v));
    CoordinateBelowLength(v.z, v.x, v.y, len(v));
  }

  /** What a step proposes is no farther away, in any direction, than the speed. */
  lemma ProposalWithinSpeed(len: Vec3 -> real, b: Body)
    requires IsLength(len) && b.mode == Target && b.speed > 0.0 && Proposes(len, b)
    ensures var v := Proposal(len, b).Minus(b.position);
            -b.speed <= v.x <= b.speed && -b.speed <= v.z <= b.speed
  {
    var v := b.target.Minus(b.position);
    var d := len(v);
    LengthBoundsCoordinates(len, v);
    if d > b.speed {
      var f := FullStep(len, b, v, d);
      var w := Proposal(len, b).Minus(b.position);
      ScaledBetween(f, v.x, d, b.speed, w.x);
      ScaledBetween(f, v.z, d, b.speed, w.z);
    } else {
      assert Proposal(len, b).Minus(b.position) == v;
    }
  }

  lemma ScaledBetween(f: real, a: real, d: real, s: real, x: real)
    requires f >= 0.0 && -d <= a <= d && f * d == s && x == f * a
    ensures -s <= x <= s
  {
    ProductSign(f, d - a);
    ProductSign(f, d + a);
    assert f * (d - a) == s - x && f * (d + a) == s + x;
  }
}
