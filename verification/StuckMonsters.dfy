/** What a monster does over any number of ticks of the zone when its own cell is blocked, and while it strikes. */
module StuckMonsters {
  import opened Approaches
  import opened Grids
  import opened Monsters
  import opened PathFollowing
  import opened Subworlds
  import opened Vectors

  // ---------------------------------------------------------------- ticks

  /** The body when the delayed transition has taken its state machine out of "Attacking". */
  function Rested(m: Monster): Monster {
    m.(body := m.body.(attacking := false))
  }

  /** Movement, and then what the monster's state machine makes of whatever it sees, at any time. */
  ghost predicate Ticks(grid: Grid, len: Vec3 -> real, m: Monster, t: Monster)
    requires grid.Valid()
  {
    exists v, now :: Acted(grid, v, m.(body := Moved(grid, len, m.body)), t, now)
  }

  /** The same, if meanwhile an attack may have ended. */
  ghost predicate TicksOrRests(grid: Grid, len: Vec3 -> real, m: Monster, t: Monster)
    requires grid.Valid()
  {
    Ticks(grid, len, m, t) || Ticks(grid, len, Rested(m), t)
  }

  // ---------------------------------------------------------------- strikes

  /** The monster's own tick never moves it, and never ends an attack. */
  lemma ActsInPlace(grid: Grid, v: View, m: Monster, t: Monster, now: real)
    requires grid.Valid() && Acted(grid, v, m, t, now)
    ensures t.body == m.body.(target := t.body.target, attacking := t.body.attacking)
    ensures m.body.attacking ==> t.body.attacking
  {
    if m.state == Idle && Detected(v, m.body) != {} {
      var c :| IsClosest(v, m.body, Detected(v, m.body), c) && Reacts(grid, v, m, t, c, now);
      ReactsInPlace(grid, v, m, t, c, now);
    }
  }

  lemma ReactsInPlace(grid: Grid, v: View, m: Monster, t: Monster, c: Collider, now: real)
    requires grid.Valid() && Reacts(grid, v, m, t, c, now)
    ensures t.body == m.body.(target := t.body.target)
  {
  }

  /** An attacking monster strikes exactly when its player is in the zone and within reach, and gives up otherwise. One
      that has struck stands where it is for as many ticks as its state machine stays in "Attacking", whatever else it
      does meanwhile. */
  lemma {:induction false} StrikeHoldsPosition(grid: Grid, len: Vec3 -> real, v: View, m: Monster, trace: seq<Monster>,
                                               k: nat)
    requires grid.Valid() && !m.body.attacking && k < |trace| && trace[0] == Attacked(v, m)
    requires forall i :: 0 <= i < |trace| - 1 ==> Ticks(grid, len, trace[i], trace[i + 1])
    ensures trace[0].body.attacking <==> QuarryAt(v, m).Some? && DistSq(m.body.position, QuarryAt(v, m).value) <= 1.0
    ensures !trace[0].body.attacking ==> trace[0].body == m.body && trace[0].state == Idle
    ensures trace[0].body.attacking ==> trace[k].body.attacking && trace[k].body.position == m.body.position
  {
    if k > 0 && trace[0].body.attacking {
      StrikeHoldsPosition(grid, len, v, m, trace, k - 1);
      var s, t := trace[k - 1], trace[k - 1 + 1];
      assert Ticks(grid, len, s, t);
      var u, now :| Acted(grid, u, s.(body := Moved(grid, len, s.body)), t, now);
      ActsInPlace(grid, u, s.(body := Moved(grid, len, s.body)), t, now);
    }
  }

  // ---------------------------------------------------------------- a blocked cell

  predicate ByCentre(b: Body) {
    AllNear(Center(CellOf(b.position)), b.position)
  }

  /** Next to the centre of the cell it stands in; or heading for that centre, with no step of its path behind it. */
  predicate Stuck(m: Monster) {
    && m.body.mode == Target && m.body.speed == SPEED
    && (ByCentre(m.body) ||
        (m.body.target == Center(CellOf(m.body.position)) && m.state != Attacking &&
         (m.state == Chasing ==> m.index == 0 && m.path != [])))
  }

  lemma NearTheCentre(b: Body, x: real, z: real)
    requires ByCentre(b)
    requires b.position.x - SPEED <= x <= b.position.x + SPEED && b.position.z - SPEED <= z <= b.position.z + SPEED
    ensures CellAt(z, x) == CellOf(b.position)
  {
  }

  /** Everything a stuck monster proposes lies in its own cell. */
  lemma StuckProposesWithinCell(grid: Grid, len: Vec3 -> real, m: Monster)
    requires grid.Valid() && IsLength(len) && Stuck(m) && Proposes(len, m.body)
    ensures CellOf(Proposal(len, m.body)) == CellOf(m.body.position)
  {
    if ByCentre(m.body) {
      ProposalWithinSpeed(len, m.body);
      var p := Proposal(len, m.body);
      NearTheCentre(m.body, p.x, p.z);
    } else {
      ProposesWithinCell(grid, len, m.body);
    }
  }

  /** So it does not move while that cell is blocked. */
  lemma StuckMoves(grid: Grid, len: Vec3 -> real, m: Monster)
    requires grid.Valid() && IsLength(len) && Stuck(m) && !grid.IsFree(CellOf(m.body.position))
    ensures var moved := m.(body := Moved(grid, len, m.body));
            Stuck(moved) && moved.body.position == m.body.position
  {
    if Proposes(len, m.body) { StuckProposesWithinCell(grid, len, m); }
  }

  lemma StuckReacts(grid: Grid, v: View, m: Monster, t: Monster, c: Collider, now: real)
    requires grid.Valid() && Stuck(m) && m.state == Idle && Reacts(grid, v, m, t, c, now)
    ensures Stuck(t)
  {
  }

  lemma StuckChases(grid: Grid, v: View, m: Monster, t: Monster, now: real)
    requires grid.Valid() && Stuck(m) && m.state == Chasing && Chased(grid, v, m, t, now)
    ensures Stuck(t)
  {
  }

  /** Looking, chasing and striking leave it stuck. */
  lemma StuckActs(grid: Grid, v: View, m: Monster, t: Monster, now: real)
    requires grid.Valid() && Stuck(m) && Acted(grid, v, m, t, now)
    ensures Stuck(t) && t.body.position == m.body.position
  {
    ActsInPlace(grid, v, m, t, now);
    match m.state
    case Idle =>
      if Detected(v, m.body) != {} {
        var c :| IsClosest(v, m.body, Detected(v, m.body), c) && Reacts(grid, v, m, t, c, now);
        StuckReacts(grid, v, m, t, c, now);
      }
    case Chasing => StuckChases(grid, v, m, t, now);
    case Attacking =>
  }

  lemma StuckTicks(grid: Grid, len: Vec3 -> real, m: Monster, t: Monster)
    requires grid.Valid() && IsLength(len) && Stuck(m) && !grid.IsFree(CellOf(m.body.position))
    requires Ticks(grid, len, m, t)
    ensures Stuck(t) && t.body.position == m.body.position
  {
    var moved := m.(body := Moved(grid, len, m.body));
    StuckMoves(grid, len, m);
    var v, now :| Acted(grid, v, moved, t, now);
    StuckActs(grid, v, moved, t, now);
  }

  /** Which of the two a monster that sets out is depends on its own cell alone: if that is free it approaches the
      centre, and otherwise it is stuck. */
  lemma SettingOutDecides(grid: Grid, m: Monster, t: Monster, player: Vec3, e: EntityId, now: real)
    requires grid.Valid() && SetsOut(grid, m, t, player, e, now)
    requires m.body.mode == Target && m.body.speed == SPEED && !m.body.attacking
    ensures Stuck(t) && t.body.position == m.body.position
    ensures Approaching(grid, t) <==> grid.IsFree(CellOf(m.body.position))
  {
  }

  /** A monster in a blocked cell that has set out never moves, over any number of ticks, however often it gives up,
      looks again, computes a new path, strikes, or ends a strike. */
  lemma {:induction false} NeverLeavesBlockedCell(grid: Grid, len: Vec3 -> real, trace: seq<Monster>, k: nat)
    requires grid.Valid() && IsLength(len) && k < |trace|
    requires Stuck(trace[0]) && !grid.IsFree(CellOf(trace[0].body.position))
    requires forall i :: 0 <= i < |trace| - 1 ==> TicksOrRests(grid, len, trace[i], trace[i + 1])
    ensures Stuck(trace[k]) && trace[k].body.position == trace[0].body.position
    decreases k
  {
    if k > 0 {
      NeverLeavesBlockedCell(grid, len, trace, k - 1);
      var m, t := trace[k - 1], trace[k - 1 + 1];
      assert TicksOrRests(grid, len, m, t);
      StuckTicks(grid, len, if Ticks(grid, len, m, t) then m else Rested(m), t);
    }
  }
}
