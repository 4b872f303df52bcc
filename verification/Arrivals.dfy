/** How a chase ends: next to its last cell the monster strikes its player or gives up. */
module Arrivals {
  import opened Approaches
  import opened Grids
  import opened Monsters
  import opened NearWalks
  import opened Options
  import opened PathFollowing
  import opened StuckMonsters
  import opened Subworlds
  import opened Vectors

  /** A body next to its target makes at most one more move, onto it. */
  lemma Settles(grid: Grid, len: Vec3 -> real, b: Body)
    requires grid.Valid() && IsLength(len) && AllNear(b.target, b.position)
    requires b.mode == Target && b.speed == SPEED && !b.attacking
    ensures var c := Moved(grid, len, b);
            && c == b.(position := c.position, direction := c.direction) && c.position in {b.position, b.target}
            && Moved(grid, len, c).position == c.position
  {
    NearByLength(len, b.target, b.position);
    StandingStill(len, b.(position := b.target, direction := Facing(len, b)));
  }

  /** Two ticks of the zone in which the monster sees its player at `q`. */
  ghost predicate TwoTicks(grid: Grid, len: Vec3 -> real, q: Vec3, m: Monster, t: Monster, u: Monster)
    requires grid.Valid()
  {
    SeesAt(grid, len, q, m, t) && SeesAt(grid, len, q, t, u)
  }

  /** One such tick, before the path is three seconds old. */
  ghost predicate SeesAt(grid: Grid, len: Vec3 -> real, q: Vec3, m: Monster, t: Monster)
    requires grid.Valid()
  {
    exists v, now :: QuarryAt(v, m) == Some(q) && now <= m.started + 3.0 &&
                     Acted(grid, v, m.(body := Moved(grid, len, m.body)), t, now)
  }

  /** A chasing monster with no cell left to head for, next to its target. */
  predicate AtLast(m: Monster) {
    && m.state == Chasing && m.index >= |m.path| && AllNear(m.body.target, m.body.position)
    && m.body.mode == Target && m.body.speed == SPEED && !m.body.attacking
  }

  /** The first tick decides, and the second strikes. */
  lemma ArrivalDecides(grid: Grid, len: Vec3 -> real, m: Monster, q: Vec3, t: Monster, u: Monster)
    requires grid.Valid() && IsLength(len) && AtLast(m) && TwoTicks(grid, len, q, m, t, u)
    ensures var p := Moved(grid, len, m.body).position;
            && t.body == m.body.(position := p, direction := t.body.direction) && u.body.position == p
            && (DistSq(p, q) < 1.0 ==> t.state == u.state == Attacking && u.body.attacking && u.body.target == q)
            && (DistSq(p, q) >= 1.0 ==> t.state == Idle && u.state != Attacking && !u.body.attacking)
  {
    Settles(grid, len, m.body);
    var v, now :| QuarryAt(v, m) == Some(q) && now <= m.started + 3.0 &&
                  Acted(grid, v, m.(body := Moved(grid, len, m.body)), t, now);
    var v', now' :| QuarryAt(v', t) == Some(q) && now' <= t.started + 3.0 &&
                    Acted(grid, v', t.(body := Moved(grid, len, t.body)), u, now');
    assert t.quarry == m.quarry;
    ActsInPlace(grid, v', t.(body := Moved(grid, len, t.body)), u, now');
    if t.state == Idle { LooksOnly(grid, v', t.(body := Moved(grid, len, t.body)), u, now'); }
  }

  lemma LooksOnly(grid: Grid, v: View, m: Monster, t: Monster, now: real)
    requires grid.Valid() && m.state == Idle && Acted(grid, v, m, t, now)
    ensures t.state != Attacking && t.body == m.body.(target := t.body.target)
  {
    if Detected(v, m.body) != {} {
      var c :| IsClosest(v, m.body, Detected(v, m.body), c) && Reacts(grid, v, m, t, c, now);
      ReactsInPlace(grid, v, m, t, c, now);
    }
  }

  // ---------------------------------------------------------------- the whole chase

  /** The monster heads for the current cell of its path, or for the last one. */
  predicate HeadsForCell(m: Monster) {
    m.path != [] && m.body.target == Center(m.path[if m.index < |m.path| then m.index else |m.path| - 1])
  }

  /** What the ticks of a walk leave alone. */
  lemma {:induction false} WalkKeeps(grid: Grid, len: Vec3 -> real, m: Monster, n: nat)
    requires grid.Valid() && HeadsForCell(m)
    ensures var e := RunTicks(grid, len, m, n);
            && HeadsForCell(e) && e.path == m.path && e.state == m.state && e.started == m.started
            && e.quarry == m.quarry && e.body.mode == m.body.mode && e.body.speed == m.body.speed
            && e.body.attacking == m.body.attacking
    decreases n
  {
    if n > 0 { WalkKeeps(grid, len, ZoneTick(grid, len, m), n - 1); }
  }

  /** A monster that sets out from anywhere in its own free cell, and whose player then stays at `q`, comes to the end
      of its path; two ticks later it has struck exactly if it stands less than 1 from the player, next to the centre of
      the last cell, and otherwise it has given up there. */
  lemma ChaseEndsInStrike(grid: Grid, len: Vec3 -> real, m: Monster, q: Vec3, t: Monster, u: Monster, n: nat)
    requires grid.Valid() && IsLength(len) && Approaching(grid, m) && EndsNear(grid, len, m, m.path, n)
    requires TwoTicks(grid, len, q, RunTicks(grid, len, m, n), t, u)
    ensures u.body.attacking <==> DistSq(u.body.position, q) < 1.0
    ensures t.state == if DistSq(u.body.position, q) < 1.0 then Attacking else Idle
    ensures AllNear(Center(m.path[|m.path| - 1]), u.body.position) && t.body.position == u.body.position
  {
    var e := RunTicks(grid, len, m, n);
    WalkKeeps(grid, len, m, n);
    Settles(grid, len, e.body);
    ArrivalDecides(grid, len, e, q, t, u);
  }
}
