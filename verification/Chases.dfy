/** What a chasing monster follows, over any number of ticks: a path that is optimal for where it and its player were
    when it was computed, which is at most three seconds ago. */
module Chases {
  import opened Grids
  import opened Monsters
  import opened Options
  import opened StuckMonsters
  import opened Subworlds
  import opened Vectors
  import Astar

  /** What a monster sees in one tick, and when. */
  datatype Look = Look(view: View, now: real)

  /** A tick of the zone; before it an attack may have ended. */
  ghost predicate TickFrom(grid: Grid, len: Vec3 -> real, m: Monster, look: Look, t: Monster)
    requires grid.Valid()
  {
    || Acted(grid, look.view, m.(body := Moved(grid, len, m.body)), t, look.now)
    || Acted(grid, look.view, Rested(m).(body := Moved(grid, len, Rested(m).body)), t, look.now)
  }

  ghost predicate TickAt(grid: Grid, len: Vec3 -> real, trace: seq<Monster>, looks: seq<Look>, i: nat)
    requires grid.Valid() && |trace| == |looks| + 1 && i < |looks|
  {
    TickFrom(grid, len, trace[i], looks[i], trace[i + 1])
  }

  ghost predicate IsTrace(grid: Grid, len: Vec3 -> real, trace: seq<Monster>, looks: seq<Look>)
    requires grid.Valid()
  {
    && |trace| == |looks| + 1
    && forall i {:trigger TickAt(grid, len, trace, looks, i)} :: 0 <= i < |looks| ==> TickAt(grid, len, trace, looks, i)
  }

  /** The closest object that a monster at `b` detects belongs to the player `e`. */
  ghost predicate SeesFirst(v: View, b: Body, e: EntityId) {
    exists c :: IsClosest(v, b, Detected(v, b), c) && c.owner == Some(e) && e in v.players
  }

  /** In one tick a monster `m`, at `b` after its move, has computed the path that `t` follows: an optimal one from its
      own cell to that of its player. Either it was idle and has seen that player first, or it has been chasing the
      player on an older path for more than three seconds. */
  ghost predicate Computed(grid: Grid, m: Monster, look: Look, b: Body, t: Monster)
    requires grid.Valid()
  {
    && t.quarry.Some? && t.started == look.now
    && var e := t.quarry.value;
       var player := RootFrame(look.view.world.entities, look.view.stray, e).position;
       && Astar.Optimal(grid, t.path, CellOf(b.position), CellOf(player))
       && match m.state
          case Idle => SeesFirst(look.view, b, e)
          case Chasing => m.quarry == Some(e) && look.now > m.started + 3.0
          case Attacking => false
  }

  /** The same, with the move still to be made, and perhaps an attack to be ended. */
  ghost predicate ComputedIn(grid: Grid, len: Vec3 -> real, m: Monster, look: Look, t: Monster)
    requires grid.Valid()
  {
    || Computed(grid, m, look, Moved(grid, len, m.body), t)
    || Computed(grid, m, look, Moved(grid, len, Rested(m).body), t)
  }

  predicate SameChase(m: Monster, t: Monster) {
    m.state == Chasing && t.path == m.path && t.quarry == m.quarry && t.started == m.started
  }

  /** One tick that leaves a monster chasing: it goes on following its path, no more than three seconds old, or it has
      computed a new one. */
  lemma ChasesOn(grid: Grid, v: View, m: Monster, t: Monster, now: real)
    requires grid.Valid() && Acted(grid, v, m, t, now) && t.state == Chasing
    ensures || (SameChase(m, t) && now <= m.started + 3.0)
            || Computed(grid, m, Look(v, now), m.body, t)
  {
    if m.state == Idle {
      var c :| IsClosest(v, m.body, Detected(v, m.body), c) && Reacts(grid, v, m, t, c, now);
      assert PlayerOf(v, c).Some?;
    }
  }

  lemma KeepsOrComputes(grid: Grid, len: Vec3 -> real, m: Monster, look: Look, t: Monster) returns (anew: bool)
    requires grid.Valid() && TickFrom(grid, len, m, look, t) && t.state == Chasing
    ensures if anew then ComputedIn(grid, len, m, look, t) && t.started == look.now
            else SameChase(m, t) && look.now <= m.started + 3.0
  {
    anew := !(SameChase(m, t) && look.now <= m.started + 3.0);
    var a, b := m.(body := Moved(grid, len, m.body)), m.(body := Moved(grid, len, Rested(m).body));
    if Acted(grid, look.view, a, t, look.now) {
      ChasesOn(grid, look.view, a, t, look.now);
    } else {
      ChasesOn(grid, look.view, b, t, look.now);
    }
  }

  /** The path that the monster follows after `k` ticks was computed by the tick from `j`, at most three seconds before
      the last one. */
  ghost predicate FreshFrom(grid: Grid, len: Vec3 -> real, trace: seq<Monster>, looks: seq<Look>, k: nat, j: nat)
    requires grid.Valid() && |trace| == |looks| + 1
  {
    j < k < |trace| && ComputedIn(grid, len, trace[j], looks[j], trace[k]) && looks[k - 1].now <= looks[j].now + 3.0
  }

  lemma FreshNow(grid: Grid, len: Vec3 -> real, trace: seq<Monster>, looks: seq<Look>, k: nat) returns (anew: bool)
    requires grid.Valid() && IsTrace(grid, len, trace, looks) && k < |looks| && trace[k + 1].state == Chasing
    ensures if anew then FreshFrom(grid, len, trace, looks, k + 1, k)
            else SameChase(trace[k], trace[k + 1]) && looks[k].now <= trace[k].started + 3.0
  {
    assert TickAt(grid, len, trace, looks, k);
    anew := KeepsOrComputes(grid, len, trace[k], looks[k], trace[k + 1]);
  }

  lemma StillFresh(grid: Grid, len: Vec3 -> real, trace: seq<Monster>, looks: seq<Look>, k: nat, j: nat)
    requires grid.Valid() && |trace| == |looks| + 1 && FreshFrom(grid, len, trace, looks, k, j) && k + 1 < |trace|
    requires SameChase(trace[k], trace[k + 1]) && looks[k].now <= trace[k].started + 3.0
    ensures FreshFrom(grid, len, trace, looks, k + 1, j)
  {
  }

  /** In any run of ticks, a chasing monster that was not chasing at first follows a path that one of the ticks has
      computed, at most three seconds before the last one, from where the monster then stood to where its player was. It
      was computed no earlier than a chase begins or a path is too old. */
  lemma {:induction false} FollowsFreshPath(grid: Grid, len: Vec3 -> real, trace: seq<Monster>, looks: seq<Look>,
                                            k: nat)
    returns (j: nat)
    requires grid.Valid() && IsTrace(grid, len, trace, looks) && 0 < k < |trace|
    requires trace[0].state != Chasing && trace[k].state == Chasing
    ensures FreshFrom(grid, len, trace, looks, k, j)
  {
    var anew := FreshNow(grid, len, trace, looks, k - 1);
    if anew {
      j := k - 1;
    } else {
      j := FollowsFreshPath(grid, len, trace, looks, k - 1);
      StillFresh(grid, len, trace, looks, k - 1, j);
    }
  }
}
