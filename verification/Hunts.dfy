/** When a monster sets out, strikes or gives up; and a whole hunt, from the first look to the strike. */
module Hunts {
  import opened Approaches
  import opened Arrivals
  import opened Grids
  import opened Monsters
  import opened NearWalks
  import opened Options
  import opened PathFollowing
  import opened StuckMonsters
  import opened Subworlds
  import opened Vectors
  import opened Walks

  // ---------------------------------------------------------------- which state comes next

  ghost predicate CanWalk(grid: Grid, from: Vec3, to: Vec3)
    requires grid.Valid()
  {
    grid.IsInside(CellOf(to)) && exists w :: LegalWalk(grid, w, CellOf(from), CellOf(to))
  }

  /** `c` belongs to a player that a monster at `b` can walk to. */
  ghost predicate IsPrey(grid: Grid, v: View, b: Body, c: Collider)
    requires grid.Valid()
  {
    && c.owner.Some? && c.owner.value in v.players
    && CanWalk(grid, b.position, RootFrame(v.world.entities, v.stray, c.owner.value).position)
  }

  /** An idle monster sets out if the closest object it detects is prey; if it detects nothing, or the closest object is
      no prey, it stays as it is. (Of several that are equally close any may be taken.) */
  lemma SetsOutWhen(grid: Grid, v: View, m: Monster, t: Monster, now: real)
    requires grid.Valid() && m.state == Idle && Acted(grid, v, m, t, now)
    ensures Detected(v, m.body) != {} &&
            (forall c :: IsClosest(v, m.body, Detected(v, m.body), c) ==> IsPrey(grid, v, m.body, c)) ==>
              t.state == Chasing
    ensures (forall c :: IsClosest(v, m.body, Detected(v, m.body), c) ==> !IsPrey(grid, v, m.body, c)) ==>
              t.state == Idle && t.body == m.body
  {
    if Detected(v, m.body) != {} {
      var c :| IsClosest(v, m.body, Detected(v, m.body), c) && Reacts(grid, v, m, t, c, now);
      ReactsToPrey(grid, v, m, t, c, now);
    }
  }

  lemma ReactsToPrey(grid: Grid, v: View, m: Monster, t: Monster, c: Collider, now: real)
    requires grid.Valid() && m.state == Idle && Reacts(grid, v, m, t, c, now)
    ensures t.state == if IsPrey(grid, v, m.body, c) then Chasing else Idle
    ensures t.state == Idle ==> t.body == m.body
  {
  }

  /** A monster that sets out remembers the player to whom a closest detected object belongs. */
  lemma ChasesNearest(grid: Grid, v: View, m: Monster, t: Monster, now: real) returns (c: Collider)
    requires grid.Valid() && m.state == Idle && Acted(grid, v, m, t, now) && t.state == Chasing
    ensures c in Detected(v, m.body) && c.owner == t.quarry && c.owner.Some? && c.owner.value in v.players
    ensures forall d :: d in Detected(v, m.body) ==>
              DistSq(ObjectPosition(v.world.entities, v.stray, c), m.body.position)
              <= DistSq(ObjectPosition(v.world.entities, v.stray, d), m.body.position)
  {
    c :| IsClosest(v, m.body, Detected(v, m.body), c) && Reacts(grid, v, m, t, c, now);
    forall d | d in Detected(v, m.body)
      ensures DistSq(ObjectPosition(v.world.entities, v.stray, c), m.body.position)
           <= DistSq(ObjectPosition(v.world.entities, v.stray, d), m.body.position)
    {
      assert DistanceTo(v, m.body, c) <= DistanceTo(v, m.body, d);
    }
  }

  /** Exactly when a chasing monster goes on, and when it changes to attacking; otherwise it gives up. */
  lemma GoesOnWhen(grid: Grid, v: View, m: Monster, t: Monster, now: real)
    requires grid.Valid() && m.state == Chasing && Acted(grid, v, m, t, now)
    ensures t.state == Chasing <==>
            QuarryAt(v, m).Some? &&
            if now > m.started + 3.0 then CanWalk(grid, m.body.position, QuarryAt(v, m).value)
            else m.index < |m.path|
    ensures t.state == Attacking <==>
            QuarryAt(v, m).Some? && now <= m.started + 3.0 && m.index >= |m.path| &&
            DistSq(m.body.position, QuarryAt(v, m).value) < 1.0
  {
  }

  /** A chase that starts over goes on heading where it was heading, unless it has just arrived there. */
  lemma StartsOver(grid: Grid, v: View, m: Monster, t: Monster, now: real)
    requires grid.Valid() && m.state == Chasing && Acted(grid, v, m, t, now)
    requires t.state == Chasing && now > m.started + 3.0
    ensures t.path != [] && t.started == now && t.quarry == m.quarry
    ensures if AllNear(m.body.target, m.body.position)
            then t.index == 1 && t.body == m.body.(target := if |t.path| > 1 then Center(t.path[1]) else m.body.target)
            else t.index == 0 && t.body == m.body
  {
  }

  /** An attacking monster goes on exactly while its player is in the zone and within reach, and then gives up. */
  lemma AttacksWhile(grid: Grid, v: View, m: Monster, t: Monster, now: real)
    requires grid.Valid() && m.state == Attacking && Acted(grid, v, m, t, now)
    ensures t.state == if QuarryAt(v, m).Some? && DistSq(m.body.position, QuarryAt(v, m).value) <= 1.0
                       then Attacking else Idle
  {
  }

  // ---------------------------------------------------------------- a whole hunt

  /** At the centre of its player's cell, or next to it, a monster is close enough to strike. */
  lemma WithinReach(p: Vec3, q: Vec3)
    requires AllNear(Center(CellOf(q)), p) && q.y == 0.0
    ensures DistSq(p, q) < 1.0
  {
    var v := p.Minus(q);
    assert -0.6 <= v.x <= 0.6 && -0.6 <= v.y <= 0.6 && -0.6 <= v.z <= 0.6;
    assert -0.1 <= v.y <= 0.1;
    BoundedSquare(v.x, 0.6);
    BoundedSquare(v.y, 0.1);
    BoundedSquare(v.z, 0.6);
  }

  lemma BoundedSquare(a: real, e: real)
    requires -e <= a <= e
    ensures a * a <= e * e
  {
    if a >= 0.0 { SquareMonotone(a, e); } else { SquareMonotone(-a, e); }
  }

  lemma {:induction false} RunTicksLast(grid: Grid, len: Vec3 -> real, m: Monster, n: nat)
    requires grid.Valid()
    ensures RunTicks(grid, len, m, n + 1) == ZoneTick(grid, len, RunTicks(grid, len, m, n))
    decreases n
  {
    if n > 0 { RunTicksLast(grid, len, ZoneTick(grid, len, m), n - 1); }
  }

  /** Until the `n`-th tick there are cells left to head for. */
  ghost predicate UnderWay(grid: Grid, len: Vec3 -> real, m: Monster, n: nat)
    requires grid.Valid()
  {
    forall j :: 0 <= j < n ==> RunTicks(grid, len, m, j).index < |m.path|
  }

  /** The last cell is reached with the tick that leaves none to head for. */
  lemma ReachesEnd(grid: Grid, len: Vec3 -> real, m: Monster, n: nat, k: nat)
    requires grid.Valid() && HeadsForCell(m) && EndsNear(grid, len, m, m.path, n) && k <= n
    requires UnderWay(grid, len, m, k) && RunTicks(grid, len, m, k).index >= |m.path| && k > 0
    ensures EndsNear(grid, len, m, m.path, k)
  {
    WalkKeeps(grid, len, m, k - 1);
    RunTicksLast(grid, len, m, k - 1);
  }

  /** The first of these ticks. */
  lemma FirstEnd(grid: Grid, len: Vec3 -> real, m: Monster, n: nat) returns (k: nat)
    requires grid.Valid() && IsLength(len) && Approaching(grid, m) && EndsNear(grid, len, m, m.path, n)
    ensures k <= n && EndsNear(grid, len, m, m.path, k) && UnderWay(grid, len, m, k)
  {
    k := 0;
    while RunTicks(grid, len, m, k).index < |m.path|
      invariant k <= n && UnderWay(grid, len, m, k)
      decreases n - k
    {
      k := k + 1;
    }
    ReachesEnd(grid, len, m, n, k);
  }

  /** Ticks in which the monster sees its player at `q`, on a path that is not yet three seconds old. */
  ghost predicate Watches(grid: Grid, len: Vec3 -> real, q: Vec3, trace: seq<Monster>)
    requires grid.Valid()
  {
    forall i {:trigger SeesNext(grid, len, q, trace, i)} :: 0 <= i < |trace| - 1 ==> SeesNext(grid, len, q, trace, i)
  }

  ghost predicate SeesNext(grid: Grid, len: Vec3 -> real, q: Vec3, trace: seq<Monster>, i: nat)
    requires grid.Valid() && i < |trace| - 1
  {
    SeesAt(grid, len, q, trace[i], trace[i + 1])
  }

  /** Such ticks make the monster walk its path. */
  lemma {:induction false} WatchedWalk(grid: Grid, len: Vec3 -> real, q: Vec3, trace: seq<Monster>, k: nat)
    requires grid.Valid() && Watches(grid, len, q, trace) && k < |trace| && HeadsForCell(trace[0])
    requires trace[0].state == Chasing && UnderWay(grid, len, trace[0], k)
    ensures trace[k] == RunTicks(grid, len, trace[0], k)
  {
    if k > 0 {
      WatchedWalk(grid, len, q, trace, k - 1);
      WalkKeeps(grid, len, trace[0], k - 1);
      RunTicksLast(grid, len, trace[0], k - 1);
      assert SeesNext(grid, len, q, trace, k - 1);
      WatchedTick(grid, len, q, trace[k - 1], trace[k]);
    }
  }

  lemma WatchedTick(grid: Grid, len: Vec3 -> real, q: Vec3, m: Monster, t: Monster)
    requires grid.Valid() && SeesAt(grid, len, q, m, t) && m.state == Chasing && m.index < |m.path|
    ensures t == ZoneTick(grid, len, m)
  {
    var v, now :| QuarryAt(v, m) == Some(q) && now <= m.started + 3.0 &&
                  Acted(grid, v, m.(body := Moved(grid, len, m.body)), t, now);
    ZoneTickIsMoveThenChase(grid, len, v, m, t, now);
  }

  /** An idle monster in a free cell that sees first a player it can walk to, sets out in that tick. If the player stays
      where it is, on the ground, then in every run of ticks from there the monster strikes it, next to the centre of
      the player's cell, after no more ticks than the approach and the legs of its path may take and two - provided only
      that the path is not three seconds old by then. */
  lemma HuntSucceeds(grid: Grid, len: Vec3 -> real, v: View, q: Vec3, m: Monster, now: real, trace: seq<Monster>)
    returns (n: nat)
    requires grid.Valid() && IsLength(len)
    requires m.state == Idle && grid.IsFree(CellOf(m.body.position))
    requires m.body.mode == Target && m.body.speed == SPEED && !m.body.attacking
    requires Detected(v, m.body) != {} && q.y == 0.0
    requires forall c :: IsClosest(v, m.body, Detected(v, m.body), c) ==>
               IsPrey(grid, v, m.body, c) && RootFrame(v.world.entities, v.stray, c.owner.value).position == q
    requires trace != [] && Acted(grid, v, m, trace[0], now) && Watches(grid, len, q, trace)
    ensures var s := trace[0];
            && s.path != []
            && n <= (if StepsLeft(len, s.body) == 0 then 1 else StepsLeft(len, s.body)) + TicksAtMost(s.path, 1)
    ensures |trace| > n + 2 ==>
              var u := trace[n + 2];
              && u.state == Attacking && u.body.attacking && u.body.target == q
              && AllNear(Center(CellOf(q)), u.body.position)
  {
    var s := trace[0];
    SetsOutWhen(grid, v, m, s, now);
    var c :| IsClosest(v, m.body, Detected(v, m.body), c) && Reacts(grid, v, m, s, c, now);
    assert IsPrey(grid, v, m.body, c);
    SettingOutDecides(grid, m, s, q, c.owner.value, now);
    LastCell(grid, s, q, m.body.position);
    n := ChaseEndsNear(grid, len, s);
    n := FirstEnd(grid, len, s, n);
    if |trace| > n + 2 {
      WatchedWalk(grid, len, q, trace, n);
      assert SeesNext(grid, len, q, trace, n) && SeesNext(grid, len, q, trace, n + 1);
      StrikesNear(grid, len, q, s, trace[n + 1], trace[n + 2], n);
    }
  }

  lemma LastCell(grid: Grid, s: Monster, q: Vec3, p: Vec3)
    requires grid.Valid() && LegalWalk(grid, s.path, CellOf(p), CellOf(q))
    ensures s.path != [] && s.path[|s.path| - 1] == CellOf(q)
  {
  }

  lemma StrikesNear(grid: Grid, len: Vec3 -> real, q: Vec3, s: Monster, t: Monster, u: Monster, n: nat)
    requires grid.Valid() && IsLength(len) && Approaching(grid, s) && EndsNear(grid, len, s, s.path, n)
    requires s.path[|s.path| - 1] == CellOf(q) && q.y == 0.0 && TwoTicks(grid, len, q, RunTicks(grid, len, s, n), t, u)
    ensures u.state == Attacking && u.body.attacking && u.body.target == q
    ensures AllNear(Center(CellOf(q)), u.body.position)
  {
    ChaseEndsInStrike(grid, len, s, q, t, u, n);
    WithinReach(u.body.position, q);
  }
}
