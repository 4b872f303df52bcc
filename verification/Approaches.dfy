/** The first ticks of a chase: a monster heads for the centre of the free cell it stands in. Exactly when does it reach
    that centre, and what does the walk that follows look like if it does? */
module Approaches {
  import opened Grids
  import opened Monsters
  import opened Nodes
  import opened Options
  import opened PathFollowing
  import opened Subworlds
  import opened Vectors
  import opened Walks

  /** The monster has set out and stands anywhere in its own free cell, heading for that cell's centre. */
  ghost predicate Approaching(grid: Grid, m: Monster)
    requires grid.Valid()
  {
    Following(grid, m) && m.index == 0 && m.body.target == Center(m.path[0]) && CellOf(m.body.position) == m.path[0]
  }

  /** How many steps of SPEED a distance takes; the last one may be shorter. */
  function Steps(d: real): (n: nat)
    requires d >= 0.0
    ensures n as real * SPEED - SPEED < d <= n as real * SPEED
  {
    var k := (5.0 * d).Floor;
    if k as real == 5.0 * d then k else k + 1
  }

  function StepsLeft(len: Vec3 -> real, b: Body): nat
    requires IsLength(len)
  {
    assert LengthAt(len, b.target.Minus(b.position));
    Steps(Remaining(len, b))
  }

  /** What is left for the last step. */
  function Rest(len: Vec3 -> real, b: Body): real
    requires IsLength(len)
  {
    Remaining(len, b) - StepsLeft(len, b) as real * SPEED + SPEED
  }

  /** The one way to miss the centre: before its last step the monster is so close to it that it counts as having
      arrived. When that step is the only one this is judged by its length, and otherwise coordinate by coordinate. */
  predicate Mistaken(len: Vec3 -> real, b: Body)
    requires IsLength(len)
  {
    var v, d := b.target.Minus(b.position), Remaining(len, b);
    if StepsLeft(len, b) <= 1 then 0.0 < d < EPSILON
    else d > 0.0 && AllNear(v.Scale(Rest(len, b) / d), ZERO)
  }

  // ---------------------------------------------------------------- one tick

  lemma ZeroLength(len: Vec3 -> real, u: Vec3, v: Vec3)
    requires IsLength(len)
    ensures len(u.Minus(v)) >= 0.0 && (len(u.Minus(v)) == 0.0 <==> u == v)
  {
    var w := u.Minus(v);
    assert LengthAt(len, w) && LengthAt(len, ZERO);
    CoordinateBelowLength(w.x, w.y, w.z, len(w));
    CoordinateBelowLength(w.y, w.x, w.z, len(w));
    CoordinateBelowLength(w.z, w.x, w.y, len(w));
    if w == ZERO { RootIsUnique(len(w), 0.0); }
  }

  /** A full step shortens the way by its fraction. */
  lemma StepShortens(len: Vec3 -> real, b: Body)
    requires IsLength(len) && b.mode == Target && b.speed == SPEED && Proposes(len, b) && Remaining(len, b) > SPEED
    ensures b.target.Minus(Proposal(len, b)) == b.target.Minus(b.position).Scale(1.0 - SPEED / Remaining(len, b))
  {
    var v, d := b.target.Minus(b.position), Remaining(len, b);
    HeadingScaled(v, d, SPEED, SPEED / d);
    Remainder(b.position, b.target, SPEED / d);
  }

  /** A tick of an approach with more than one step to go: a full step is made. */
  lemma FullStepTick(grid: Grid, len: Vec3 -> real, m: Monster)
    requires grid.Valid() && IsLength(len) && Approaching(grid, m) && Remaining(len, m.body) > SPEED
    ensures Unrefused(grid, len, m.body)
    ensures var b, d := Moved(grid, len, m.body), Remaining(len, m.body);
            && b.target == m.body.target && CellOf(b.position) == m.path[0]
            && b.target.Minus(b.position) == m.body.target.Minus(m.body.position).Scale(1.0 - SPEED / d)
            && Remaining(len, b) == d - SPEED
  {
    ApproachesCentre(grid, len, m.body);
    StepShortens(len, m.body);
  }

  /** The last step reaches the centre, unless it is too short to be made. */
  lemma LastStepTick(grid: Grid, len: Vec3 -> real, m: Monster)
    requires grid.Valid() && IsLength(len) && Approaching(grid, m) && EPSILON <= Remaining(len, m.body) <= SPEED
    ensures var t := ZoneTick(grid, len, m);
            && Unrefused(grid, len, m.body) && NextLeg(grid, len, t, 1) && t.path == m.path
            && t.body.position == Center(m.path[0])
  {
    ApproachesCentre(grid, len, m.body);
    var t := ZoneTick(grid, len, m);
    if |m.path| > 1 { LegBegins(grid, len, t, 1); }
  }

  // ---------------------------------------------------------------- the condition, one step later

  lemma StepsAfterOne(d: real)
    requires d > SPEED
    ensures Steps(d) > 1 && Steps(d - SPEED) == Steps(d) - 1
  {
  }

  /** What is left for the last step is the same fraction of the present way, whether seen from here or from one step
      further on. */
  lemma SameRest(d: real, r: real)
    requires d > SPEED
    ensures (1.0 - SPEED / d) * (r / (d - SPEED)) == r / d
  {
    var a, c, e := SPEED / d, r / (d - SPEED), r / d;
    assert a * d == SPEED && c * (d - SPEED) == r && e * d == r;
    assert (1.0 - a) * d == d - SPEED;
    assert ((1.0 - a) * c) * d == c * ((1.0 - a) * d);
    CancelFactor((1.0 - a) * c, e, d);
  }

  lemma ScaleTwice(v: Vec3, a: real, b: real)
    ensures v.Scale(a).Scale(b) == v.Scale(a * b)
  {
    assert b * (a * v.x) == (a * b) * v.x && b * (a * v.y) == (a * b) * v.y && b * (a * v.z) == (a * b) * v.z;
  }

  lemma ScaledRest(v: Vec3, w: Vec3, d: real, r: real)
    requires d > SPEED && w == v.Scale(1.0 - SPEED / d)
    ensures w.Scale(r / (d - SPEED)) == v.Scale(r / d)
  {
    SameRest(d, r);
    ScaleTwice(v, 1.0 - SPEED / d, r / (d - SPEED));
  }

  /** The condition is the same after a full step, as long as that is not the last but one. */
  lemma MistakenLater(len: Vec3 -> real, b: Body, c: Body)
    requires IsLength(len) && Remaining(len, b) > SPEED && StepsLeft(len, b) > 2
    requires c.target.Minus(c.position) == b.target.Minus(b.position).Scale(1.0 - SPEED / Remaining(len, b))
    requires Remaining(len, c) == Remaining(len, b) - SPEED
    ensures StepsLeft(len, c) == StepsLeft(len, b) - 1 && (Mistaken(len, c) <==> Mistaken(len, b))
  {
    var d := Remaining(len, b);
    StepsAfterOne(d);
    assert Rest(len, c) == Rest(len, b);
    ScaledRest(b.target.Minus(b.position), c.target.Minus(c.position), d, Rest(len, b));
  }

  /** Before the last but one step it says whether that step leads too close. */
  lemma MistakenNext(len: Vec3 -> real, b: Body, c: Body)
    requires IsLength(len) && Remaining(len, b) > SPEED && c.target == b.target
    requires c.target.Minus(c.position) == b.target.Minus(b.position).Scale(1.0 - SPEED / Remaining(len, b))
    requires StepsLeft(len, b) == 2
    ensures AllNear(c.target, c.position) <==> Mistaken(len, b)
  {
    var d := Remaining(len, b);
    var f, g := 1.0 - SPEED / d, Rest(len, b) / d;
    assert Rest(len, b) == d - SPEED;
    assert f * d == d - SPEED && g * d == d - SPEED;
    CancelFactor(f, g, d);
  }

  // ---------------------------------------------------------------- the exact condition

  /** After `j` ticks, and not before, the monster has been turned to the second cell of its path. */
  ghost predicate SentOnAfter(grid: Grid, len: Vec3 -> real, m: Monster, j: nat)
    requires grid.Valid()
  {
    && RunTicks(grid, len, m, j).index == 1
    && forall i {:trigger RunTicks(grid, len, m, i)} :: 0 <= i < j ==> RunTicks(grid, len, m, i).index == 0
  }

  lemma SentOnLater(grid: Grid, len: Vec3 -> real, m: Monster, t: Monster, j: nat)
    requires grid.Valid() && m.index == 0 && t == ZoneTick(grid, len, m) && SentOnAfter(grid, len, t, j)
    ensures SentOnAfter(grid, len, m, j + 1)
    ensures RunTicks(grid, len, m, j + 1) == RunTicks(grid, len, t, j)
  {
    forall i | 0 <= i < j + 1 ensures RunTicks(grid, len, m, i).index == 0 {
      if i > 0 { assert RunTicks(grid, len, m, i) == RunTicks(grid, len, t, i - 1); }
    }
  }

  lemma SentOnNow(grid: Grid, len: Vec3 -> real, m: Monster)
    requires grid.Valid() && m.index == 0 && ZoneTick(grid, len, m).index == 1
    ensures SentOnAfter(grid, len, m, 1) && RunTicks(grid, len, m, 1) == ZoneTick(grid, len, m)
  {
    assert RunTicks(grid, len, ZoneTick(grid, len, m), 0) == ZoneTick(grid, len, m);
  }

  /** What an approach comes to, after `j` ticks: the monster is sent on, and it is then on the centre or not. */
  ghost predicate Outcome(grid: Grid, len: Vec3 -> real, m: Monster, j: nat, exact: bool)
    requires grid.Valid()
  {
    && SentOnAfter(grid, len, m, j)
    && (exact <==> m.path != [] && RunTicks(grid, len, m, j).body.position == Center(m.path[0]))
    && (exact ==> m.path != [] && Completes(grid, len, m, m.path, j + TicksFrom(m.path, 1)))
  }

  lemma OutcomeLater(grid: Grid, len: Vec3 -> real, m: Monster, t: Monster, j: nat, exact: bool)
    requires grid.Valid() && Approaching(grid, m) && t == ZoneTick(grid, len, m) && t.path == m.path
    requires Unrefused(grid, len, m.body) && CellOf(t.body.position) == m.path[0]
    requires Outcome(grid, len, t, j, exact)
    ensures Outcome(grid, len, m, j + 1, exact)
  {
    SentOnLater(grid, len, m, t, j);
    if exact { CompletesBefore(grid, len, m, t, m.path, j + TicksFrom(m.path, 1)); }
  }

  /** Sent on without having reached the centre. */
  lemma OutcomeMissed(grid: Grid, len: Vec3 -> real, m: Monster)
    requires grid.Valid() && IsLength(len) && Approaching(grid, m) && ZoneTick(grid, len, m).index == 1
    requires Moved(grid, len, m.body).position != m.body.target
    ensures Outcome(grid, len, m, 1, false)
  {
    SentOnNow(grid, len, m);
  }

  /** No step, or one, is left. */
  lemma LastStep(grid: Grid, len: Vec3 -> real, m: Monster)
    requires grid.Valid() && IsLength(len) && Approaching(grid, m) && Remaining(len, m.body) <= SPEED
    ensures Outcome(grid, len, m, 1, !Mistaken(len, m.body))
  {
    var b, t := m.body, ZoneTick(grid, len, m);
    ZeroLength(len, b.target, b.position);
    CellOnCentre(m.path[0]);
    if Mistaken(len, b) {
      NearByLength(len, b.target, b.position);
      OutcomeMissed(grid, len, m);
    } else {
      if b.position == b.target { FirstTick(grid, len, m); } else { LastStepTick(grid, len, m); }
      SentOnNow(grid, len, m);
      RestIsCompleted(grid, len, t);
      CompletesBefore(grid, len, m, t, m.path, TicksFrom(m.path, 1));
    }
  }

  /** How many ticks it takes until the monster is sent on. */
  function TicksToCentre(len: Vec3 -> real, b: Body): nat
    requires IsLength(len)
  {
    var n := StepsLeft(len, b);
    if n == 0 then 1 else if n > 1 && Mistaken(len, b) then n - 1 else n
  }

  /** Two steps left: the first of them decides. */
  lemma LastButOneStep(grid: Grid, len: Vec3 -> real, m: Monster)
    requires grid.Valid() && IsLength(len) && Approaching(grid, m)
    requires Remaining(len, m.body) > SPEED && StepsLeft(len, m.body) == 2
    ensures Outcome(grid, len, m, if Mistaken(len, m.body) then 1 else 2, !Mistaken(len, m.body))
  {
    var b, t := Moved(grid, len, m.body), ZoneTick(grid, len, m);
    FullStepTick(grid, len, m);
    MistakenNext(len, m.body, b);
    if Mistaken(len, m.body) {
      ZeroLength(len, b.target, b.position);
      OutcomeMissed(grid, len, m);
    } else {
      NearByLength(len, b.target, b.position);
      LastStep(grid, len, t);
      OutcomeLater(grid, len, m, t, 1, true);
    }
  }

  /** Exactly when a monster that sets out from anywhere in its own free cell reaches that cell's centre: when it is not
      mistaken to have arrived before its last step. If so it completes its path in the ticks the approach and the legs
      take; if not it is sent on one step early, from somewhere else. */
  lemma {:induction false} ApproachIsExact(grid: Grid, len: Vec3 -> real, m: Monster)
    requires grid.Valid() && IsLength(len) && Approaching(grid, m)
    ensures Outcome(grid, len, m, TicksToCentre(len, m.body), !Mistaken(len, m.body))
    decreases StepsLeft(len, m.body)
  {
    var d := Remaining(len, m.body);
    if d <= SPEED {
      LastStep(grid, len, m);
    } else if StepsLeft(len, m.body) == 2 {
      LastButOneStep(grid, len, m);
    } else {
      var b, t := Moved(grid, len, m.body), ZoneTick(grid, len, m);
      FullStepTick(grid, len, m);
      StepsAfterOne(d);
      NearByLength(len, b.target, b.position);
      MistakenLater(len, m.body, b);
      ApproachIsExact(grid, len, t);
      OutcomeLater(grid, len, m, t, TicksToCentre(len, t.body), !Mistaken(len, t.body));
    }
  }

  /** A place from which the centre is missed: one step and 0.000005 away from it. */
  lemma MissedFrom(len: Vec3 -> real, b: Body)
    requires IsLength(len) && b.target == Center(Point(0, 0)) && b.position == Vec3(0.700005, 0.0, 0.5)
    ensures CellOf(b.position) == Point(0, 0) && StepsLeft(len, b) == 2 && Mistaken(len, b)
  {
    var v, d := b.target.Minus(b.position), Remaining(len, b);
    assert LengthAt(len, v) && v == Vec3(-0.200005, 0.0, 0.0);
    RootIsUnique(d, 0.200005);
    assert Rest(len, b) == 0.000005;
    assert 0.000005 / 0.200005 * -0.200005 == -0.000005;
  }

  function CorridorGrid(): Grid {
    Grid(1, 2, [false, false])
  }

  /** A monster on a grid of two free cells that sets out from there. */
  function OffCentre(): Monster {
    Monster(Body(Vec3(0.700005, 0.0, 0.5), Rotation(1.0, 0.0), ZERO, Center(Point(0, 0)), Target, SPEED, false),
            Chasing, [Point(0, 0), Point(0, 1)], 0, 0.0, None)
  }

  /** After its first tick it heads for the second cell without having reached the centre of the first. */
  lemma CentreIsMissed(len: Vec3 -> real)
    requires IsLength(len)
    ensures Approaching(CorridorGrid(), OffCentre()) && Outcome(CorridorGrid(), len, OffCentre(), 1, false)
  {
    var g, m := CorridorGrid(), OffCentre();
    assert g.IsFree(Point(0, 0)) && g.IsFree(Point(0, 1)) && m.path[0] == Point(0, 0) && m.path[1] == Point(0, 1);
    assert LegalWalk(g, m.path, m.path[0], m.path[|m.path| - 1]);
    MissedFrom(len, m.body);
    ApproachIsExact(g, len, m);
  }
}
