/** The subworld of a zone: obstacle-checked movement, the index of collision objects, and the contact protocol. */
module Subworlds {
  import opened Grids
  import opened Nodes
  import opened Options
  import opened Shapes
  import opened Vectors

  const EPSILON := 0.00001

  predicate Near(a: real, b: real) {
    -EPSILON < a - b < EPSILON
  }

  predicate AllNear(u: Vec3, v: Vec3) {
    Near(u.x, v.x) && Near(u.y, v.y) && Near(u.z, v.z)
  }

  /** The centre of a cell: `point2position`. */
  function Center(p: Point): Vec3 {
    Vec3(p.c as real + 0.5, 0.0, p.r as real + 0.5)
  }

  function CellOf(position: Vec3): Point {
    CellAt(position.z, position.x)
  }

  /** `len` is the Euclidean length. It is a parameter because real square roots are not expressions of the language;
      the length function of three-dimensional space meets the condition, and no other function does. */
  ghost predicate IsLength(len: Vec3 -> real) {
    forall v {:trigger LengthAt(len, v)} :: LengthAt(len, v)
  }

  predicate LengthAt(len: Vec3 -> real, v: Vec3) {
    len(v) >= 0.0 && len(v) * len(v) == v.NormSq()
  }

  // ---------------------------------------------------------------- movement

  datatype Mode = Forward | Target

  /** The moving part of an entity; `attacking` says that its state machine is in "Attacking". */
  datatype Body = Body(position: Vec3, rotation: Rotation, direction: Vec3, target: Vec3, mode: Mode, speed: real,
                       attacking: bool)

  predicate AtTarget(len: Vec3 -> real, b: Body) {
    Near(len(b.target.Minus(b.position)), 0.0)
  }

  /** Towards the target, at unit length. */
  function Heading(len: Vec3 -> real, b: Body): Vec3
    requires !AtTarget(len, b)
  {
    b.target.Minus(b.position).Scale(1.0 / len(b.target.Minus(b.position)))
  }

  /** Does a tick propose a new position at all? */
  predicate Proposes(len: Vec3 -> real, b: Body) {
    && !b.attacking
    && match b.mode
       case Forward => !AllNear(b.direction, ZERO)
       case Target => !AtTarget(len, b)
  }

  function Proposal(len: Vec3 -> real, b: Body): Vec3
    requires Proposes(len, b)
  {
    match b.mode
    case Forward => b.position.Plus(b.direction.Scale(b.speed))
    case Target =>
      if len(b.target.Minus(b.position)) <= b.speed then b.target
      else b.position.Plus(Heading(len, b).Scale(b.speed))
  }

  /** The direction an entity faces after its move. */
  function Facing(len: Vec3 -> real, b: Body): Vec3 {
    if b.attacking || b.mode.Forward? then b.direction
    else if AtTarget(len, b) then ZERO else Heading(len, b)
  }

  predicate Accepts(grid: Grid, position: Vec3)
    requires grid.Valid()
  {
    grid.IsFree(CellOf(position))
  }

  /** One tick of movement: the proposed position is taken unless it lies in an obstacle or outside the grid. */
  function Moved(grid: Grid, len: Vec3 -> real, b: Body): (moved: Body)
    requires grid.Valid()
    ensures grid.IsFree(CellOf(b.position)) ==> grid.IsFree(CellOf(moved.position))
  {
    b.(direction := Facing(len, b),
       position := if Proposes(len, b) && Accepts(grid, Proposal(len, b)) then Proposal(len, b) else b.position)
  }

  // ---------------------------------------------------------------- collision objects and node trees

  type NodeId = nat
  type EntityId = nat

  /** What makes a node a collision object; its shape is a node below it, with a frame of its own. */
  datatype Solid = Solid(id: NodeId, layer: bv32, mask: bv32, shape: Shape, shapeFrame: Frame)

  /** A node with its children. */
  datatype Tree = Tree(frame: Frame, solid: Option<Solid>, children: seq<Tree>)

  /** A collision object and where it hangs: its own frame, those above it, and the entity they end at, if any. */
  datatype Collider = Collider(id: NodeId, layer: bv32, mask: bv32, shape: Shape,
                               shapeFrame: Frame, frame: Frame, above: seq<Frame>, owner: Option<EntityId>)

  /** The collision object that a node below an entity may be. */
  function Own(owner: EntityId, above: seq<Frame>, node: Tree): map<NodeId, Collider> {
    match node.solid
    case Some(s) => map[s.id := Collider(s.id, s.layer, s.mask, s.shape, s.shapeFrame, node.frame, above, Some(owner))]
    case None => map[]
  }

  /** The collision objects among some nodes and everything below them, by id. */
  function Objects(owner: EntityId, above: seq<Frame>, nodes: seq<Tree>): map<NodeId, Collider>
    decreases nodes
  {
    if nodes == [] then map[] else
      var inner := Objects(owner, [nodes[0].frame] + above, nodes[0].children);
      Own(owner, above, nodes[0]) + inner + Objects(owner, above, nodes[1..])
  }

  lemma MergeThree(m: map<NodeId, Collider>, a: map<NodeId, Collider>, b: map<NodeId, Collider>,
                   c: map<NodeId, Collider>)
    ensures m + a + b + c == m + (a + b + c)
  {
  }

  // ---------------------------------------------------------------- contacts

  datatype Contact = Entered | Staying | Exited

  predicate OnLayer(mask: bv32, c: Collider) {
    mask & c.layer != 0
  }

  predicate IsBit(b: bv32) {
    b != 0 && b & (b - 1) == 0
  }

  lemma LowestBit(x: bv32) returns (b: bv32)
    requires x != 0
    ensures IsBit(b) && x & b == b
  {
    b := x & (0 - x);
  }

  /** One of the layers has its bit set in both. */
  ghost predicate BitInBoth(x: bv32, y: bv32, b: bv32) {
    IsBit(b) && x & b != 0 && y & b != 0
  }

  lemma BothHaveBit(x: bv32, y: bv32) returns (b: bv32)
    requires x & y != 0
    ensures BitInBoth(x, y, b)
  {
    b := LowestBit(x & y);
  }

  lemma BitOfBoth(x: bv32, y: bv32, b: bv32)
    requires BitInBoth(x, y, b)
    ensures x & y != 0
  {
  }

  lemma SharesLayer(mask: bv32, c: Collider)
    ensures OnLayer(mask, c) <==> exists b :: BitInBoth(mask, c.layer, b)
  {
    if OnLayer(mask, c) {
      var b := BothHaveBit(mask, c.layer);
    } else if b :| BitInBoth(mask, c.layer, b) {
      BitOfBoth(mask, c.layer, b);
    }
  }

  /** Is `c` on a layer of `mask` and does its shape collide with `target`? */
  predicate Hits(at: Collider -> Placed, target: Placed, mask: bv32, c: Collider) {
    OnLayer(mask, c) && IsColliding(at(c), target)
  }

  /** `area->is_colliding(body)`, with every shape where `at` places it. */
  predicate Touches(at: Collider -> Placed, area: Collider, body: Collider) {
    area.id != body.id && OnLayer(area.mask, body) && IsColliding(at(area), at(body))
  }

  /** What an area signals about one body. */
  function Signals(before: bool, touching: bool): seq<Contact> {
    if touching then [if before then Staying else Entered] else if before then [Exited] else []
  }

  function Past(history: map<NodeId, seq<Contact>>, body: NodeId): seq<Contact> {
    if body in history then history[body] else []
  }

  /** An area's contact set and the signals it has given, per body, since it was added. */
  datatype Area = Area(collider: Collider, contacts: set<NodeId>, history: map<NodeId, seq<Contact>>)

  /** One area looks at one body. */
  function Checked(at: Collider -> Placed, a: Area, body: NodeId, c: Collider): Area {
    var touching := Touches(at, a.collider, c);
    a.(contacts := if touching then a.contacts + {body} else a.contacts - {body},
       history := a.history[body := Past(a.history, body) + Signals(body in a.contacts, touching)])
  }

  /** What an area has signalled about `b` once it has looked at all the bodies in `objects`. */
  function Told(at: Collider -> Placed, a: Area, objects: map<NodeId, Collider>, b: NodeId): seq<Contact> {
    Past(a.history, b) +
    if b in objects then Signals(b in a.contacts, Touches(at, a.collider, objects[b])) else []
  }

  /** One area looks at all the bodies in `objects`. */
  function Refreshed(at: Collider -> Placed, a: Area, objects: map<NodeId, Collider>): Area {
    a.(contacts := (a.contacts - objects.Keys) + (set b | b in objects && Touches(at, a.collider, objects[b])),
       history := map b | b in a.history.Keys + objects.Keys :: Told(at, a, objects, b))
  }

  lemma RefreshOneMoreContacts(at: Collider -> Placed, a: Area, objects: map<NodeId, Collider>, body: NodeId,
                               c: Collider)
    requires body !in objects
    ensures Checked(at, Refreshed(at, a, objects), body, c).contacts == Refreshed(at, a, objects[body := c]).contacts
  {
    var more := objects[body := c];
    var T := set b | b in objects && Touches(at, a.collider, objects[b]);
    var T' := set b | b in more && Touches(at, a.collider, more[b]);
    assert T' == if Touches(at, a.collider, c) then T + {body} else T;
  }

  /** Looking at a body not looked at before adds its signals to its own past, and nothing to another's. */
  lemma ToldOneMore(at: Collider -> Placed, a: Area, objects: map<NodeId, Collider>, body: NodeId, c: Collider)
    requires body !in objects
    ensures var r, touching := Refreshed(at, a, objects), Touches(at, a.collider, c);
            Told(at, a, objects[body := c], body) == Past(r.history, body) + Signals(body in r.contacts, touching)
    ensures forall b :: b != body ==> Told(at, a, objects[body := c], b) == Told(at, a, objects, b)
  {
    assert Told(at, a, objects, body) == Past(a.history, body);
  }

  lemma RefreshOneMore(at: Collider -> Placed, a: Area, objects: map<NodeId, Collider>, body: NodeId, c: Collider)
    requires body !in objects
    ensures Checked(at, Refreshed(at, a, objects), body, c) == Refreshed(at, a, objects[body := c])
  {
    RefreshOneMoreContacts(at, a, objects, body, c);
    ToldOneMore(at, a, objects, body, c);
    assert Checked(at, Refreshed(at, a, objects), body, c).history == Refreshed(at, a, objects[body := c]).history;
  }

  lemma RefreshNothing(at: Collider -> Placed, a: Area)
    ensures Refreshed(at, a, map[]) == a
  {
    var r := Refreshed(at, a, map[]);
    assert r.contacts == a.contacts;
    assert forall b :: b in a.history ==> r.history[b] == a.history[b];
    assert r.history == a.history;
  }

  // ---------------------------------------------------------------- where collision objects are

  function FrameOf(b: Body): Frame {
    Frame(b.position, b.rotation)
  }

  /** The frame of an entity; `stray` tells it for entities that are not in the subworld. */
  function RootFrame(entities: map<EntityId, Body>, stray: EntityId -> Frame, e: EntityId): Frame {
    if e in entities then FrameOf(entities[e]) else stray(e)
  }

  function FramesAbove(entities: map<EntityId, Body>, stray: EntityId -> Frame, c: Collider): seq<Frame> {
    c.above + match c.owner case Some(e) => [RootFrame(entities, stray, e)] case None => []
  }

  /** The global position of the object itself, ... */
  function ObjectPosition(entities: map<EntityId, Body>, stray: EntityId -> Frame, c: Collider): Vec3 {
    GlobalPosition([c.frame] + FramesAbove(entities, stray, c))
  }

  /** ... and its shape at the global position of the shape's node. */
  function PlacedShape(entities: map<EntityId, Body>, stray: EntityId -> Frame, c: Collider): Placed {
    Placed(c.shape, GlobalPosition([c.shapeFrame, c.frame] + FramesAbove(entities, stray, c)))
  }

  function Places(entities: map<EntityId, Body>, stray: EntityId -> Frame): Collider -> Placed {
    c => PlacedShape(entities, stray, c)
  }

  // ---------------------------------------------------------------- the subworld

  datatype World = World(entities: map<EntityId, Body>, objects: map<NodeId, Collider>, areas: map<NodeId, Area>)

  /** The entity's own node is not indexed, only the nodes below it. */
  function EntityAdded(w: World, id: EntityId, body: Body, children: seq<Tree>): World {
    w.(entities := w.entities[id := body], objects := w.objects + Objects(id, [], children))
  }

  function EntityRemoved(w: World, id: EntityId, children: seq<Tree>): World {
    w.(entities := w.entities - {id}, objects := w.objects - Objects(id, [], children).Keys)
  }

  function AreaAdded(w: World, area: Collider): World {
    w.(areas := w.areas[area.id := Area(area, {}, map[])])
  }

  function AreaRemoved(w: World, id: NodeId): World {
    w.(areas := w.areas - {id})
  }

  function AllMoved(grid: Grid, len: Vec3 -> real, entities: map<EntityId, Body>): map<EntityId, Body>
    requires grid.Valid()
  {
    map e | e in entities :: Moved(grid, len, entities[e])
  }

  /** A tick: the entities move, and then every area looks at every indexed body where the moves have led it. */
  function Ticked(grid: Grid, len: Vec3 -> real, stray: EntityId -> Frame, w: World): World
    requires grid.Valid()
  {
    var moved := AllMoved(grid, len, w.entities);
    w.(entities := moved, areas := map a | a in w.areas :: Refreshed(Places(moved, stray), w.areas[a], w.objects))
  }

  /** What a collision query finds: the indexed objects on a layer of `mask` whose shapes collide with `target`. */
  ghost function Found(w: World, stray: EntityId -> Frame, target: Placed, mask: bv32): set<Collider> {
    set c | c in w.objects.Values && Hits(Places(w.entities, stray), target, mask, c)
  }

  class Subworld {
    const grid: Grid
    var entities: map<EntityId, Body>
    var collisionObjects: map<NodeId, Collider>
    var areas: map<NodeId, Area>

    function State(): World
      reads this
    {
      World(entities, collisionObjects, areas)
    }

    constructor (grid: Grid)
      ensures this.grid == grid && State() == World(map[], map[], map[])
    {
      this.grid := grid;
      entities, collisionObjects, areas := map[], map[], map[];
    }

    method AddCollisionObjects(owner: EntityId, above: seq<Frame>, nodes: seq<Tree>)
      modifies this`collisionObjects
      ensures collisionObjects == old(collisionObjects) + Objects(owner, above, nodes)
      decreases nodes
    {
      if nodes == [] { return; }
      var node, before := nodes[0], collisionObjects;
      if node.solid.Some? {
        var s := node.solid.value;
        var c := Collider(s.id, s.layer, s.mask, s.shape, s.shapeFrame, node.frame, above, Some(owner));
        collisionObjects := collisionObjects[c.id := c];
      }
      assert collisionObjects == before + Own(owner, above, node);
      AddCollisionObjects(owner, [node.frame] + above, node.children);
      AddCollisionObjects(owner, above, nodes[1..]);
      MergeThree(before, Own(owner, above, node), Objects(owner, [node.frame] + above, node.children),
                 Objects(owner, above, nodes[1..]));
    }

    method RemoveCollisionObjects(ghost owner: EntityId, ghost above: seq<Frame>, nodes: seq<Tree>)
      modifies this`collisionObjects
      ensures collisionObjects == old(collisionObjects) - Objects(owner, above, nodes).Keys
      decreases nodes
    {
      if nodes == [] { return; }
      if nodes[0].solid.Some? {
        collisionObjects := collisionObjects - {nodes[0].solid.value.id};
      }
      RemoveCollisionObjects(owner, [nodes[0].frame] + above, nodes[0].children);
      RemoveCollisionObjects(owner, above, nodes[1..]);
    }

    method AddEntity(id: EntityId, body: Body, children: seq<Tree>)
      modifies this`entities, this`collisionObjects
      ensures State() == EntityAdded(old(State()), id, body, children)
    {
      AddCollisionObjects(id, [], children);
      entities := entities[id := body];
    }

    method RemoveEntity(id: EntityId, children: seq<Tree>)
      modifies this`entities, this`collisionObjects
      ensures State() == EntityRemoved(old(State()), id, children)
    {
      RemoveCollisionObjects(id, [], children);
      entities := entities - {id};
    }

    method AddCollisionArea(area: Collider)
      modifies this`areas
      ensures State() == AreaAdded(old(State()), area)
    {
      areas := areas[area.id := Area(area, {}, map[])];
    }

    method RemoveCollisionArea(id: NodeId)
      modifies this`areas
      ensures State() == AreaRemoved(old(State()), id)
    {
      areas := areas - {id};
    }

    /** The collision objects on a layer of `mask` that collide with a shape. */
    method GetCollisions(stray: EntityId -> Frame, target: Placed, mask: bv32) returns (found: set<Collider>)
      ensures found == Found(State(), stray, target, mask)
    {
      var at := Places(entities, stray);
      found := {};
      var todo := collisionObjects.Keys;
      while todo != {}
        invariant todo <= collisionObjects.Keys
        invariant forall c :: c in found ==> c in collisionObjects.Values && Hits(at, target, mask, c)
        invariant forall k :: k in collisionObjects.Keys - todo && Hits(at, target, mask, collisionObjects[k]) ==>
                    collisionObjects[k] in found
        decreases todo
      {
        var k :| k in todo;
        var c := collisionObjects[k];
        todo := todo - {k};
        if !OnLayer(mask, c) { continue; }
        if !IsColliding(at(c), target) { continue; }
        found := found + {c};
      }
    }

    /** One entity's move; the source has this as the body of the loop below. */
    method MoveEntity(len: Vec3 -> real, b: Body) returns (moved: Body)
      requires grid.Valid()
      ensures moved == Moved(grid, len, b)
    {
      moved := b;
      if b.attacking { return; }
      var next;
      if b.mode.Forward? {
        if AllNear(b.direction, ZERO) { return; }
        next := b.position.Plus(b.direction.Scale(b.speed));
      } else {
        var distance := len(b.target.Minus(b.position));
        if Near(distance, 0.0) { return b.(direction := ZERO); }
        moved := b.(direction := b.target.Minus(b.position).Scale(1.0 / distance));
        next := if distance <= b.speed then b.target else b.position.Plus(moved.direction.Scale(b.speed));
      }
      var p := CellAt(next.z, next.x);
      if !grid.IsInside(p) || grid.IsBlocked(p) { return; }
      moved := moved.(position := next);
    }

    method MoveEntities(len: Vec3 -> real)
      requires grid.Valid()
      modifies this`entities
      ensures entities == AllMoved(grid, len, old(entities))
    {
      var todo := entities.Keys;
      while todo != {}
        invariant todo <= entities.Keys == old(entities).Keys
        invariant forall e :: e in todo ==> entities[e] == old(entities)[e]
        invariant forall e :: e in entities.Keys - todo ==> entities[e] == Moved(grid, len, old(entities)[e])
        decreases todo
      {
        var e :| e in todo;
        todo := todo - {e};
        var moved := MoveEntity(len, entities[e]);
        entities := entities[e := moved];
      }
    }

    /** One area against every indexed body. */
    method UpdateArea(at: Collider -> Placed, id: NodeId)
      requires id in areas
      modifies this`areas
      ensures areas == old(areas)[id := Refreshed(at, old(areas)[id], collisionObjects)]
    {
      var todo := collisionObjects.Keys;
      RefreshNothing(at, areas[id]);
      assert collisionObjects - todo == map[];
      while todo != {}
        invariant todo <= collisionObjects.Keys
        invariant areas == old(areas)[id := Refreshed(at, old(areas)[id], collisionObjects - todo)]
        decreases todo
      {
        var k :| k in todo;
        RefreshOneMore(at, old(areas)[id], collisionObjects - todo, k, collisionObjects[k]);
        assert (collisionObjects - todo)[k := collisionObjects[k]] == collisionObjects - (todo - {k});
        todo := todo - {k};
        var a := CheckBody(at, areas[id], k, collisionObjects[k]);
        areas := areas[id := a];
      }
      assert collisionObjects - todo == collisionObjects;
    }

    /** The three contact signals. */
    method CheckBody(at: Collider -> Placed, a0: Area, k: NodeId, body: Collider) returns (a: Area)
      ensures a == Checked(at, a0, k, body)
    {
      var past := Past(a0.history, k);
      if Touches(at, a0.collider, body) {
        if k in a0.contacts {
          a := a0.(history := a0.history[k := past + [Staying]]);
          assert a0.contacts == a0.contacts + {k};
        } else {
          a := a0.(history := a0.history[k := past + [Entered]], contacts := a0.contacts + {k});
        }
      } else if k in a0.contacts {
        a := a0.(history := a0.history[k := past + [Exited]], contacts := a0.contacts - {k});
      } else {
        a := a0.(history := a0.history[k := past]);
        assert a0.contacts == a0.contacts - {k} && past == past + [];
      }
    }

    method UpdateContacts(at: Collider -> Placed)
      modifies this`areas
      ensures areas == map a | a in old(areas) :: Refreshed(at, old(areas)[a], collisionObjects)
    {
      var todo := areas.Keys;
      while todo != {}
        invariant todo <= areas.Keys == old(areas).Keys
        invariant forall a :: a in todo ==> areas[a] == old(areas)[a]
        invariant forall a :: a in areas.Keys - todo ==> areas[a] == Refreshed(at, old(areas)[a], collisionObjects)
        decreases todo
      {
        var a :| a in todo;
        todo := todo - {a};
        UpdateArea(at, a);
      }
    }

    /** Movement first, then the contacts: they are judged where the moves have led. */
    method Tick(len: Vec3 -> real, stray: EntityId -> Frame)
      requires grid.Valid()
      modifies this`entities, this`areas
      ensures State() == Ticked(grid, len, stray, old(State()))
    {
      MoveEntities(len);
      UpdateContacts(Places(entities, stray));
    }
  }
}
