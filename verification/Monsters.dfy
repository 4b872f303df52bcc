/** SimpleMonster: it looks for a player with the subworld's collision query, computes a path with A*, and follows that
    path cell by cell. */
module Monsters {
  import opened Grids
  import opened Nodes
  import opened Options
  import opened Shapes
  import opened Subworlds
  import opened Vectors
  import Astar

  const SPEED := 0.2
  const REPATH_AFTER := 3.0
  const DETECTION_RADIUS := 4.0
  const PLAYERS: bv32 := 4  // the layer of players

  datatype State = Idle | Chasing | Attacking

  /** `quarry` is the entity it has last set out for, if any; it is remembered even when the chase is over. */
  datatype Monster = Monster(body: Body, state: State, path: seq<Point>, index: nat, started: real,
                             quarry: Option<EntityId>)

  /** What a monster can look at in a zone: the subworld, and which entities are players. */
  datatype View = View(world: World, stray: EntityId -> Frame, players: set<EntityId>)

  // ---------------------------------------------------------------- looking for a player

  /** The detection sphere: a node below the monster, without a displacement of its own. */
  function Detection(b: Body): Placed {
    Placed(Sphere(DETECTION_RADIUS), GlobalPosition([Frame(ZERO, Rotation(1.0, 0.0)), FrameOf(b)]))
  }

  lemma DetectionIsAround(b: Body)
    ensures Detection(b).center == b.position
  {
    var f := Frame(ZERO, Rotation(1.0, 0.0));
    ZeroFrame([FrameOf(b)], f);
    assert [f, FrameOf(b)] == [f] + [FrameOf(b)];
  }

  /** The collision objects on the players' layer that reach into the detection sphere. */
  ghost function Detected(v: View, b: Body): set<Collider> {
    Found(v.world, v.stray, Detection(b), PLAYERS)
  }

  /** They are exactly those on layer 4 with a point within 4 of the monster. */
  lemma DetectedWithinReach(v: View, b: Body, c: Collider)
    requires c in v.world.objects.Values && c.shape.WellFormed()
    ensures c in Detected(v, b) <==>
            && OnLayer(4, c)
            && exists p :: Contains(PlacedShape(v.world.entities, v.stray, c), p) && Within(b.position, p, 4.0)
  {
    var placed := PlacedShape(v.world.entities, v.stray, c);
    DetectionIsAround(b);
    CollidingMeansSharingAPoint(placed, Detection(b));
    if p :| Contains(placed, p) && Within(b.position, p, DETECTION_RADIUS) { assert Contains(Detection(b), p); }
    if p :| Contains(placed, p) && Contains(Detection(b), p) { assert Within(b.position, p, DETECTION_RADIUS); }
  }

  function DistanceTo(v: View, b: Body, c: Collider): real {
    DistSq(ObjectPosition(v.world.entities, v.stray, c), b.position)
  }

  ghost predicate IsClosest(v: View, b: Body, seen: set<Collider>, c: Collider) {
    c in seen && forall d :: d in seen ==> DistanceTo(v, b, c) <= DistanceTo(v, b, d)
  }

  /** The player at the root of a collision object, if there is one. */
  function PlayerOf(v: View, c: Collider): Option<EntityId> {
    match c.owner
    case Some(e) => if e in v.players then Some(e) else None
    case None => None
  }

  /** The chase, one step: once the current cell's centre is reached, head for the next cell. */
  function Followed(m: Monster): Monster
    requires m.index < |m.path|
  {
    if !AllNear(m.body.target, m.body.position) then m
    else if m.index + 1 < |m.path| then
      m.(index := m.index + 1, body := m.body.(target := Center(m.path[m.index + 1])))
    else m.(index := m.index + 1)
  }

  /** A chasing monster at the end of its path: attack a player that is close enough, else give up. */
  function Arrived(m: Monster, quarry: Vec3): Monster {
    m.(state := if DistSq(m.body.position, quarry) < 1.0 then Attacking else Idle)
  }

  /** The monster has just set out along an optimal path from its own cell to the player's. */
  ghost predicate SetsOut(grid: Grid, m: Monster, t: Monster, player: Vec3, e: EntityId, now: real)
    requires grid.Valid()
  {
    && Astar.Optimal(grid, t.path, CellOf(m.body.position), CellOf(player))
    && t == Monster(m.body.(target := Center(CellOf(m.body.position))), Chasing, t.path, 0, now, Some(e))
  }

  /** What an idle monster does about the collision object `c`. */
  ghost predicate Reacts(grid: Grid, v: View, m: Monster, t: Monster, c: Collider, now: real)
    requires grid.Valid()
  {
    match PlayerOf(v, c)
    case None => t == m
    case Some(e) =>
      var player := RootFrame(v.world.entities, v.stray, e).position;
      var own, goal := CellOf(m.body.position), CellOf(player);
      if !grid.IsInside(goal) || Astar.Unreachable(grid, own, goal) then t == m.(path := [])
      else SetsOut(grid, m, t, player, e, now)
  }

  ghost predicate Looked(grid: Grid, v: View, m: Monster, t: Monster, now: real)
    requires grid.Valid()
  {
    var seen := Detected(v, m.body);
    if seen == {} then t == m else exists c :: IsClosest(v, m.body, seen, c) && Reacts(grid, v, m, t, c, now)
  }

  // ---------------------------------------------------------------- chasing and attacking

  /** Where the remembered player is, if it is in the zone. */
  function QuarryAt(v: View, m: Monster): Option<Vec3> {
    match m.quarry
    case Some(e) => if e in v.world.entities then Some(v.world.entities[e].position) else None
    case None => None
  }

  /** A chase that has lasted too long starts over on a fresh path, but keeps heading where it was heading. */
  ghost predicate Repathed(grid: Grid, m: Monster, t: Monster, quarry: Vec3, now: real)
    requires grid.Valid()
  {
    var own, goal := CellOf(m.body.position), CellOf(quarry);
    if !grid.IsInside(goal) || Astar.Unreachable(grid, own, goal) then t == Monster(m.body, Idle, [], 0, now, m.quarry)
    else Astar.Optimal(grid, t.path, own, goal) && t == Followed(Monster(m.body, Chasing, t.path, 0, now, m.quarry))
  }

  ghost predicate Chased(grid: Grid, v: View, m: Monster, t: Monster, now: real)
    requires grid.Valid()
  {
    match QuarryAt(v, m)
    case None => t == m.(state := Idle)
    case Some(q) =>
      if now > m.started + REPATH_AFTER then Repathed(grid, m, t, q, now)
      else if m.index >= |m.path| then t == Arrived(m, q)
      else t == Followed(m)
  }

  /** An attacking monster strikes a player within reach, which suspends its movement, and otherwise gives up. */
  function Attacked(v: View, m: Monster): Monster {
    match QuarryAt(v, m)
    case None => m.(state := Idle)
    case Some(q) =>
      if DistSq(m.body.position, q) > 1.0 then m.(state := Idle)
      else m.(body := m.body.(target := q, attacking := true))
  }

  /** The state machine: one of the three, according to the state. */
  ghost predicate Acted(grid: Grid, v: View, m: Monster, t: Monster, now: real)
    requires grid.Valid()
  {
    match m.state
    case Idle => Looked(grid, v, m, t, now)
    case Chasing => Chased(grid, v, m, t, now)
    case Attacking => t == Attacked(v, m)
  }

  class SimpleMonster {
    const id: EntityId
    var state: State
    var path: seq<Point>
    var index: nat
    var started: real
    var quarry: Option<EntityId>

    /** The monster with its body, which is the subworld's. */
    ghost function Get(sub: Subworld): Monster
      requires id in sub.entities
      reads this, sub
    {
      Monster(sub.entities[id], state, path, index, started, quarry)
    }

    constructor (id: EntityId)
      ensures this.id == id && state == Idle && path == [] && index == 0 && started == 0.0 && quarry == None
    {
      this.id := id;
      state, path, index, started, quarry := Idle, [], 0, 0.0, None;
    }

    method Target(sub: Subworld, target: Vec3)
      requires id in sub.entities
      modifies sub`entities
      ensures sub.entities == old(sub.entities)[id := old(sub.entities)[id].(target := target)]
    {
      sub.entities := sub.entities[id := sub.entities[id].(target := target)];
    }

    /** The first of the targets, sorted by distance. */
    method Closest(sub: Subworld, stray: EntityId -> Frame, seen: set<Collider>, ghost v: View)
      returns (closest: Collider)
      requires id in sub.entities && seen != {} && v.world == sub.State() && v.stray == stray
      ensures IsClosest(v, sub.entities[id], seen, closest)
    {
      closest :| closest in seen;
      var todo := seen - {closest};
      var my := sub.entities[id].position;
      var best := DistSq(ObjectPosition(sub.entities, stray, closest), my);
      while todo != {}
        invariant todo <= seen && closest in seen && best == DistanceTo(v, sub.entities[id], closest)
        invariant forall d :: d in seen - todo ==> best <= DistanceTo(v, sub.entities[id], d)
        decreases todo
      {
        var c :| c in todo;
        todo := todo - {c};
        var distance := DistSq(ObjectPosition(sub.entities, stray, c), my);
        if distance < best { closest, best := c, distance; }
      }
    }

    /** IDLE: chase the closest collider in the detection area, provided it is a player that can be reached. */
    method LookForTarget(sub: Subworld, stray: EntityId -> Frame, players: set<EntityId>, now: real)
      requires sub.grid.Valid() && id in sub.entities && state == Idle
      modifies this, sub`entities
      ensures sub.entities.Keys == old(sub.entities.Keys)
      ensures forall e :: e in sub.entities && e != id ==> sub.entities[e] == old(sub.entities)[e]
      ensures Looked(sub.grid, View(old(sub.State()), stray, players), old(Get(sub)), Get(sub), now)
    {
      ghost var v := View(sub.State(), stray, players);
      var body := sub.entities[id];
      var seen := sub.GetCollisions(stray, Detection(body), PLAYERS);
      assert seen == Detected(v, body);
      if seen == {} { return; }
      var closest := Closest(sub, stray, seen, v);
      if closest.owner.None? || closest.owner.value !in players { return; }
      var player := RootFrame(sub.entities, stray, closest.owner.value).position;
      ghost var run;
      path, run := Astar.Find(sub.grid, CellOf(body.position), CellOf(player));
      if path == [] { return; }
      quarry, started, index, state := closest.owner, now, 0, Chasing;
      Target(sub, Center(path[0]));
    }

    /** CHASING. */
    method Chase(sub: Subworld, ghost stray: EntityId -> Frame, ghost players: set<EntityId>, now: real)
      requires sub.grid.Valid() && id in sub.entities && state == Chasing
      modifies this, sub`entities
      ensures sub.entities.Keys == old(sub.entities.Keys)
      ensures forall e :: e in sub.entities && e != id ==> sub.entities[e] == old(sub.entities)[e]
      ensures Chased(sub.grid, View(old(sub.State()), stray, players), old(Get(sub)), Get(sub), now)
    {
      if quarry.None? || quarry.value !in sub.entities {
        state := Idle;
        return;
      }
      var body, player := sub.entities[id], sub.entities[quarry.value].position;
      if now > started + REPATH_AFTER {
        ghost var run;
        path, run := Astar.Find(sub.grid, CellOf(body.position), CellOf(player));
        index, started := 0, now;
        if path == [] {
          state := Idle;
          return;
        }
      }
      if index >= |path| {
        state := if DistSq(body.position, player) < 1.0 then Attacking else Idle;
        return;
      }
      if !AllNear(body.target, body.position) { return; }
      index := index + 1;
      if index < |path| { Target(sub, Center(path[index])); }
    }

    /** ATTACKING: stay close and strike; striking suspends movement. */
    method Attack(sub: Subworld, ghost stray: EntityId -> Frame, ghost players: set<EntityId>)
      requires id in sub.entities && state == Attacking
      modifies this, sub`entities
      ensures sub.entities.Keys == old(sub.entities.Keys)
      ensures forall e :: e in sub.entities && e != id ==> sub.entities[e] == old(sub.entities)[e]
      ensures Get(sub) == Attacked(View(old(sub.State()), stray, players), old(Get(sub)))
    {
      if quarry.None? || quarry.value !in sub.entities {
        state := Idle;
        return;
      }
      var body, player := sub.entities[id], sub.entities[quarry.value].position;
      if DistSq(body.position, player) > 1.0 {
        state := Idle;
        return;
      }
      sub.entities := sub.entities[id := body.(target := player, attacking := true)];
    }

    method Tick(sub: Subworld, stray: EntityId -> Frame, players: set<EntityId>, now: real)
      requires sub.grid.Valid() && id in sub.entities
      modifies this, sub`entities
      ensures sub.entities.Keys == old(sub.entities.Keys)
      ensures forall e :: e in sub.entities && e != id ==> sub.entities[e] == old(sub.entities)[e]
      ensures Acted(sub.grid, View(old(sub.State()), stray, players), old(Get(sub)), Get(sub), now)
    {
      match state
      case Idle => LookForTarget(sub, stray, players, now);
      case Chasing => Chase(sub, stray, players, now);
      case Attacking => Attack(sub, stray, players);
    }
  }
}
