/** Runs of a subworld: what its collision index and its contact signals keep under any sequence of entity and area
    changes and ticks. */
module SubworldRuns {
  import opened CollisionTrees
  import opened Grids
  import opened Nodes
  import opened Options
  import opened Shapes
  import opened Subworlds
  import opened Vectors

  /** What does not change during a run: the obstacles, the length function, and the nodes below each entity. */
  datatype Scene = Scene(grid: Grid, len: Vec3 -> real, forest: map<EntityId, seq<Tree>>)

  /** `Steer` is anything that the rest of the program does to an entity's body between two ticks. */
  datatype Op =
    | AddEntity(id: EntityId, body: Body)
    | RemoveEntity(id: EntityId)
    | Steer(id: EntityId, body: Body)
    | AddArea(area: Collider)
    | RemoveArea(areaId: NodeId)
    | Tick(stray: EntityId -> Frame)

  /** The collision objects below the node of an entity. */
  function Below(sc: Scene, id: EntityId): map<NodeId, Collider>
    requires id in sc.forest
  {
    Objects(id, [], sc.forest[id])
  }

  /** No two collision objects of the scene carry the same id. */
  ghost predicate Disjoint(sc: Scene) {
    && (forall e :: e in sc.forest ==> DistinctIds(sc.forest[e]))
    && (forall a, b, id ::
          a in sc.forest && b in sc.forest && HasId(sc.forest[a], id) && HasId(sc.forest[b], id) ==> a == b)
  }

  lemma WalksAreDisjoint(sc: Scene, a: EntityId, b: EntityId)
    requires Disjoint(sc) && a in sc.forest && b in sc.forest && a != b
    ensures Below(sc, a).Keys !! Below(sc, b).Keys
  {
    forall id ensures !(id in Below(sc, a) && id in Below(sc, b)) {
      IdsFound(a, [], sc.forest[a], id);
      IdsFound(b, [], sc.forest[b], id);
    }
  }

  ghost predicate Possible(sc: Scene, op: Op) {
    sc.grid.Valid() && (op.AddEntity? || op.RemoveEntity? ==> op.id in sc.forest)
  }

  ghost function Step(sc: Scene, w: World, op: Op): World
    requires Possible(sc, op)
  {
    match op
    case AddEntity(id, body) => EntityAdded(w, id, body, sc.forest[id])
    case RemoveEntity(id) => EntityRemoved(w, id, sc.forest[id])
    case Steer(id, body) => if id in w.entities then w.(entities := w.entities[id := body]) else w
    case AddArea(area) => AreaAdded(w, area)
    case RemoveArea(id) => AreaRemoved(w, id)
    case Tick(stray) => Ticked(sc.grid, sc.len, stray, w)
  }

  ghost predicate Legal(sc: Scene, ops: seq<Op>) {
    forall i :: 0 <= i < |ops| ==> Possible(sc, ops[i])
  }

  ghost function Run(sc: Scene, w: World, ops: seq<Op>): World
    requires Legal(sc, ops)
    decreases |ops|
  {
    if ops == [] then w else Run(sc, Step(sc, w, ops[0]), ops[1..])
  }

  const EMPTY := World(map[], map[], map[])

  // ---------------------------------------------------------------- the collision index

  /** The index holds exactly the collision objects of the present entities. */
  ghost predicate Indexed(sc: Scene, w: World) {
    w.entities.Keys <= sc.forest.Keys && Complete(sc, w) && Backed(sc, w)
  }

  ghost predicate Complete(sc: Scene, w: World)
    requires w.entities.Keys <= sc.forest.Keys
  {
    forall e, k :: e in w.entities && k in Below(sc, e) ==> k in w.objects && w.objects[k] == Below(sc, e)[k]
  }

  ghost predicate Backed(sc: Scene, w: World)
    requires w.entities.Keys <= sc.forest.Keys
  {
    forall k :: k in w.objects ==> exists e :: e in w.entities && k in Below(sc, e)
  }

  lemma AddKeepsComplete(sc: Scene, w: World, id: EntityId, body: Body)
    requires Disjoint(sc) && w.entities.Keys <= sc.forest.Keys && Complete(sc, w) && id in sc.forest
    ensures Complete(sc, EntityAdded(w, id, body, sc.forest[id]))
  {
    var t := EntityAdded(w, id, body, sc.forest[id]);
    forall e, k | e in t.entities && k in Below(sc, e) ensures k in t.objects && t.objects[k] == Below(sc, e)[k] {
      if e != id { WalksAreDisjoint(sc, e, id); }
    }
  }

  lemma AddKeepsIndex(sc: Scene, w: World, id: EntityId, body: Body)
    requires Disjoint(sc) && Indexed(sc, w) && id in sc.forest
    ensures Indexed(sc, EntityAdded(w, id, body, sc.forest[id]))
  {
    AddKeepsComplete(sc, w, id, body);
    var t := EntityAdded(w, id, body, sc.forest[id]);
    forall k | k in t.objects ensures exists e :: e in t.entities && k in Below(sc, e) {
      if k in Below(sc, id) { assert id in t.entities; }
      else { var e :| e in w.entities && k in Below(sc, e); assert e in t.entities; }
    }
  }

  lemma RemoveKeepsComplete(sc: Scene, w: World, id: EntityId)
    requires Disjoint(sc) && w.entities.Keys <= sc.forest.Keys && Complete(sc, w) && id in sc.forest
    ensures Complete(sc, EntityRemoved(w, id, sc.forest[id]))
  {
    var t := EntityRemoved(w, id, sc.forest[id]);
    forall e, k | e in t.entities && k in Below(sc, e) ensures k in t.objects && t.objects[k] == Below(sc, e)[k] {
      WalksAreDisjoint(sc, e, id);
      assert k in Below(sc, e).Keys;
    }
  }

  lemma RemoveKeepsIndex(sc: Scene, w: World, id: EntityId)
    requires Disjoint(sc) && Indexed(sc, w) && id in sc.forest
    ensures Indexed(sc, EntityRemoved(w, id, sc.forest[id]))
  {
    RemoveKeepsComplete(sc, w, id);
    var t := EntityRemoved(w, id, sc.forest[id]);
    forall k | k in t.objects ensures exists e :: e in t.entities && k in Below(sc, e) {
      var e :| e in w.entities && k in Below(sc, e);
      assert e in t.entities;
    }
  }

  /** The index does not depend on where the entities are. */
  lemma SameKeysKeepIndex(sc: Scene, w: World, t: World)
    requires Indexed(sc, w) && t.entities.Keys == w.entities.Keys && t.objects == w.objects
    ensures Indexed(sc, t)
  {
    forall k | k in t.objects ensures exists e :: e in t.entities && k in Below(sc, e) {
      var e :| e in w.entities && k in Below(sc, e);
      assert e in t.entities;
    }
  }

  lemma StepKeepsIndex(sc: Scene, w: World, op: Op)
    requires Disjoint(sc) && Indexed(sc, w) && Possible(sc, op)
    ensures Indexed(sc, Step(sc, w, op))
  {
    match op
    case AddEntity(id, body) => AddKeepsIndex(sc, w, id, body);
    case RemoveEntity(id) => RemoveKeepsIndex(sc, w, id);
    case _ => SameKeysKeepIndex(sc, w, Step(sc, w, op));
  }

  // ---------------------------------------------------------------- the contact protocol

  /** A prefix of (entered staying* exited)*: an entry stands at the beginning and after each exit, nowhere else. */
  ghost predicate Orderly(events: seq<Contact>) {
    forall i :: 0 <= i < |events| ==> (events[i] == Entered <==> Opens(events, i))
  }

  ghost predicate Opens(events: seq<Contact>, i: nat)
    requires i < |events|
  {
    i == 0 || events[i - 1] == Exited
  }

  /** After these events the body is inside. */
  predicate Inside(events: seq<Contact>) {
    events != [] && events[|events| - 1] != Exited
  }

  lemma SignalKeepsOrder(events: seq<Contact>, touching: bool)
    requires Orderly(events)
    ensures Orderly(events + Signals(Inside(events), touching))
    ensures Inside(events + Signals(Inside(events), touching)) <==> touching
  {
    assert events + [] == events;
    if touching && !Inside(events) { AppendKeepsOrder(events, Entered); }
    if touching && Inside(events) { AppendKeepsOrder(events, Staying); }
    if !touching && Inside(events) { AppendKeepsOrder(events, Exited); }
  }

  lemma AppendKeepsOrder(events: seq<Contact>, next: Contact)
    requires Orderly(events) && (next == Entered <==> !Inside(events))
    ensures Orderly(events + [next])
  {
    var more := events + [next];
    forall i | 0 <= i < |more| ensures more[i] == Entered <==> Opens(more, i) {
      if i < |events| { assert events[i] == Entered <==> Opens(events, i); }
    }
  }

  ghost predicate PairOrderly(a: Area, body: NodeId) {
    Orderly(Past(a.history, body)) && (body in a.contacts <==> Inside(Past(a.history, body)))
  }

  /** For every body the signals so far are in order, and the contact set says who is inside. */
  ghost predicate AreaOrderly(a: Area) {
    forall body {:trigger PairOrderly(a, body)} :: PairOrderly(a, body)
  }

  lemma RefreshKeepsOrder(at: Collider -> Placed, a: Area, objects: map<NodeId, Collider>)
    requires AreaOrderly(a)
    ensures AreaOrderly(Refreshed(at, a, objects))
  {
    var t := Refreshed(at, a, objects);
    forall body ensures PairOrderly(t, body) {
      assert PairOrderly(a, body);
      if body in objects {
        SignalKeepsOrder(Past(a.history, body), Touches(at, a.collider, objects[body]));
      } else {
        assert Past(t.history, body) == Past(a.history, body);
      }
    }
  }

  ghost predicate Inv(sc: Scene, w: World) {
    && Indexed(sc, w)
    && forall a :: a in w.areas ==> AreaOrderly(w.areas[a]) && w.areas[a].collider.id == a
  }

  lemma StepKeepsInv(sc: Scene, w: World, op: Op)
    requires Disjoint(sc) && Inv(sc, w) && Possible(sc, op)
    ensures Inv(sc, Step(sc, w, op))
  {
    StepKeepsIndex(sc, w, op);
    var t := Step(sc, w, op);
    forall a | a in t.areas ensures AreaOrderly(t.areas[a]) && t.areas[a].collider.id == a {
      if op.Tick? { RefreshKeepsOrder(Places(t.entities, op.stray), w.areas[a], w.objects); }
    }
  }

  lemma {:induction false} RunKeepsInv(sc: Scene, w: World, ops: seq<Op>)
    requires Disjoint(sc) && Inv(sc, w) && Legal(sc, ops)
    ensures Inv(sc, Run(sc, w, ops))
    decreases |ops|
  {
    if ops != [] {
      assert Possible(sc, ops[0]);
      StepKeepsInv(sc, w, ops[0]);
      RunKeepsInv(sc, Step(sc, w, ops[0]), ops[1..]);
    }
  }

  // ---------------------------------------------------------------- who is present, and what a query finds

  lemma RunLast(sc: Scene, ops: seq<Op>)
    requires Legal(sc, ops) && ops != []
    ensures Run(sc, EMPTY, ops) == Step(sc, Run(sc, EMPTY, ops[..|ops| - 1]), ops[|ops| - 1])
  {
    RunAppend(sc, EMPTY, ops[..|ops| - 1], ops[|ops| - 1]);
    assert ops[..|ops| - 1] + [ops[|ops| - 1]] == ops;
  }

  /** An entity is present if it has been added, and not removed since. */
  predicate Present(ops: seq<Op>, e: EntityId) {
    if ops == [] then false else
      match ops[|ops| - 1]
      case AddEntity(id, _) => id == e || Present(ops[..|ops| - 1], e)
      case RemoveEntity(id) => id != e && Present(ops[..|ops| - 1], e)
      case _ => Present(ops[..|ops| - 1], e)
  }

  /** The area that has been added last under an id, and not removed since. */
  function AreaAt(ops: seq<Op>, area: NodeId): Option<Collider> {
    if ops == [] then None else
      match ops[|ops| - 1]
      case AddArea(a) => if a.id == area then Some(a) else AreaAt(ops[..|ops| - 1], area)
      case RemoveArea(id) => if id == area then None else AreaAt(ops[..|ops| - 1], area)
      case _ => AreaAt(ops[..|ops| - 1], area)
  }

  /** The operations alone tell which entities and areas there are after a run. */
  lemma {:induction false} WhoIsPresent(sc: Scene, ops: seq<Op>, e: EntityId, area: NodeId)
    requires Legal(sc, ops)
    ensures var w := Run(sc, EMPTY, ops);
            && (e in w.entities <==> Present(ops, e))
            && AreaAt(ops, area) == if area in w.areas then Some(w.areas[area].collider) else None
    decreases |ops|
  {
    if ops != [] {
      assert Possible(sc, ops[|ops| - 1]);
      RunLast(sc, ops);
      WhoIsPresent(sc, ops[..|ops| - 1], e, area);
    }
  }

  /** A path leads from the present entity `e` down to `c`. */
  ghost predicate HangsFrom(sc: Scene, w: World, c: Collider, e: EntityId, path: seq<nat>) {
    e in w.entities && e in sc.forest && HangsAt(e, [], sc.forest[e], path, c)
  }

  /** An indexed object hangs below a present entity, ... */
  lemma IndexedHangs(sc: Scene, w: World, c: Collider) returns (e: EntityId, path: seq<nat>)
    requires Disjoint(sc) && Indexed(sc, w) && c in w.objects.Values
    ensures HangsFrom(sc, w, c, e, path)
  {
    var k :| k in w.objects && w.objects[k] == c;
    e :| e in w.entities && k in Below(sc, e);
    path := WalkIsSound(e, [], sc.forest[e], k);
  }

  /** ... and one that does is indexed. */
  lemma HangingIsIndexed(sc: Scene, w: World, c: Collider, e: EntityId, path: seq<nat>)
    requires Disjoint(sc) && Indexed(sc, w) && HangsFrom(sc, w, c, e, path)
    ensures c in w.objects.Values
  {
    ObjectsFound(e, [], sc.forest[e], c);
    var k :| k in Below(sc, e) && Below(sc, e)[k] == c;
    assert w.objects[k] == c;
  }

  /** A shape and a target have a point in common. For shapes of negative size, which have no points, the collision test
      itself decides. */
  ghost predicate Meets(placed: Placed, target: Placed) {
    if placed.shape.WellFormed() && target.shape.WellFormed() then SharePoint(placed, target)
    else IsColliding(placed, target)
  }

  lemma CollidingMeets(placed: Placed, target: Placed)
    ensures IsColliding(placed, target) <==> Meets(placed, target)
  {
    if placed.shape.WellFormed() && target.shape.WellFormed() { CollidingMeansSharingAPoint(placed, target); }
  }

  /** A path leads from the entity `e`, which has been added and not removed since, down to `c`; that is on a layer of
      the mask; and its shape, in its place at the end of the path, meets the target. */
  ghost predicate FoundAt(sc: Scene, ops: seq<Op>, w: World, target: Placed, mask: bv32, c: Collider, e: EntityId,
                          path: seq<nat>)
  {
    && Present(ops, e) && HangsFrom(sc, w, c, e, path) && OnLayer(mask, c)
    && var f := FrameAt(FrameOf(w.entities[e]), sc.forest[e], path);
       Meets(Placed(c.shape, Carried(f, c.shapeFrame).position), target)
  }

  lemma FoundOnPath(sc: Scene, ops: seq<Op>, w: World, stray: EntityId -> Frame, target: Placed, mask: bv32,
                    c: Collider, e: EntityId, path: seq<nat>)
    requires Disjoint(sc) && Legal(sc, ops) && w == Run(sc, EMPTY, ops) && HangsFrom(sc, w, c, e, path)
    ensures FoundAt(sc, ops, w, target, mask, c, e, path) <==> c in Found(w, stray, target, mask)
  {
    RunKeepsInv(sc, EMPTY, ops);
    HangingIsIndexed(sc, w, c, e, path);
    WhoIsPresent(sc, ops, e, 0);
    PlacedOnPath(w.entities, stray, e, sc.forest[e], path, c);
    CollidingMeets(PlacedShape(w.entities, stray, c), target);
  }

  /** After any run a collision query finds an object exactly when some path leads to it from an entity that has been
      added and not removed since, it is on a layer of the mask, and its shape meets the target there. */
  lemma QueriesAgreeWithTrees(sc: Scene, ops: seq<Op>, w: World, stray: EntityId -> Frame, target: Placed, mask: bv32,
                              c: Collider)
    requires Disjoint(sc) && Legal(sc, ops) && w == Run(sc, EMPTY, ops)
    ensures c in Found(w, stray, target, mask) <==> exists e, path :: FoundAt(sc, ops, w, target, mask, c, e, path)
  {
    RunKeepsInv(sc, EMPTY, ops);
    if c in Found(w, stray, target, mask) {
      var e, path := IndexedHangs(sc, w, c);
      FoundOnPath(sc, ops, w, stray, target, mask, c, e, path);
    }
    if e, path :| FoundAt(sc, ops, w, target, mask, c, e, path) {
      FoundOnPath(sc, ops, w, stray, target, mask, c, e, path);
    }
  }

  /** In every run the signals an area has given about a body since it was added are a prefix of
      (entered staying* exited)*, whatever entities have come and gone meanwhile. */
  lemma ContactProtocol(sc: Scene, ops: seq<Op>, area: NodeId, body: NodeId)
    requires Disjoint(sc) && Legal(sc, ops)
    requires area in Run(sc, EMPTY, ops).areas
    ensures var a := Run(sc, EMPTY, ops).areas[area];
            Orderly(Past(a.history, body)) && (body in a.contacts <==> Inside(Past(a.history, body)))
  {
    RunKeepsInv(sc, EMPTY, ops);
    assert PairOrderly(Run(sc, EMPTY, ops).areas[area], body);
  }

  // ---------------------------------------------------------------- one signal for each touch

  /** How often a body has been signalled to be in contact. */
  function Felt(events: seq<Contact>): nat {
    if events == [] then 0
    else Felt(events[..|events| - 1]) + if events[|events| - 1] == Exited then 0 else 1
  }

  lemma FeltAppend(events: seq<Contact>, before: bool, touching: bool)
    ensures Felt(events + Signals(before, touching)) == Felt(events) + if touching then 1 else 0
  {
    var more := events + Signals(before, touching);
    if touching || before { assert more[..|more| - 1] == events; } else { assert more == events; }
  }

  /** An indexed body is on a layer the area asks for, and the two shapes meet where the entities place them. */
  ghost predicate Touching(w: World, stray: EntityId -> Frame, area: NodeId, body: NodeId)
    requires area in w.areas
  {
    body in w.objects &&
    var a, b := w.areas[area].collider, w.objects[body];
    a.id != b.id && OnLayer(a.mask, b) && Meets(PlacedShape(w.entities, stray, a), PlacedShape(w.entities, stray, b))
  }

  /** In how many ticks of a run the two are left touching. */
  ghost function TouchingTicks(sc: Scene, w: World, ops: seq<Op>, area: NodeId, body: NodeId): nat
    requires Legal(sc, ops)
    decreases |ops|
  {
    if ops == [] then 0 else
      var t := Step(sc, w, ops[0]);
      (if ops[0].Tick? && area in t.areas && Touching(t, ops[0].stray, area, body) then 1 else 0)
      + TouchingTicks(sc, t, ops[1..], area, body)
  }

  predicate Resets(op: Op, area: NodeId) {
    match op
    case AddArea(a) => a.id == area
    case RemoveArea(id) => id == area
    case _ => false
  }

  lemma StepFeels(sc: Scene, w: World, op: Op, area: NodeId, body: NodeId)
    requires Possible(sc, op) && area in w.areas && !Resets(op, area)
    ensures var t := Step(sc, w, op);
            && area in t.areas
            && Felt(Past(t.areas[area].history, body)) == Felt(Past(w.areas[area].history, body)) +
               if op.Tick? && Touching(t, op.stray, area, body) then 1 else 0
  {
    if op.Tick? && body in w.objects {
      var t, a := Step(sc, w, op), w.areas[area];
      var at := Places(t.entities, op.stray);
      CollidingMeets(at(a.collider), at(w.objects[body]));
      FeltAppend(Past(a.history, body), body in a.contacts, Touches(at, a.collider, w.objects[body]));
    } else if op.Tick? {
      assert Past(Step(sc, w, op).areas[area].history, body) == Past(w.areas[area].history, body);
    }
  }

  /** Over any run an area signals a body, as entered or staying, exactly once for each tick that leaves the two
      touching. */
  lemma {:induction false} EveryTouchIsSignalled(sc: Scene, w: World, ops: seq<Op>, area: NodeId, body: NodeId)
    requires Legal(sc, ops) && area in w.areas && forall i :: 0 <= i < |ops| ==> !Resets(ops[i], area)
    ensures area in Run(sc, w, ops).areas
    ensures Felt(Past(Run(sc, w, ops).areas[area].history, body)) ==
            Felt(Past(w.areas[area].history, body)) + TouchingTicks(sc, w, ops, area, body)
    decreases |ops|
  {
    if ops != [] {
      assert Possible(sc, ops[0]) && !Resets(ops[0], area);
      StepFeels(sc, w, ops[0], area, body);
      EveryTouchIsSignalled(sc, Step(sc, w, ops[0]), ops[1..], area, body);
    }
  }

  /** In any run an area has signalled a body as often as the two were left touching since the area was last added. */
  lemma TouchesSinceAdded(sc: Scene, ops: seq<Op>, area: Collider, more: seq<Op>, body: NodeId)
    requires Legal(sc, ops) && Legal(sc, more) && Possible(sc, AddArea(area))
    requires forall i :: 0 <= i < |more| ==> !Resets(more[i], area.id)
    ensures var v := Run(sc, EMPTY, ops + [AddArea(area)]);
            var w := Run(sc, v, more);
            && area.id in v.areas && v.areas[area.id].contacts == {}
            && area.id in w.areas
            && Felt(Past(w.areas[area.id].history, body)) == TouchingTicks(sc, v, more, area.id, body)
  {
    RunAppend(sc, EMPTY, ops, AddArea(area));
    EveryTouchIsSignalled(sc, Run(sc, EMPTY, ops + [AddArea(area)]), more, area.id, body);
  }

  // ---------------------------------------------------------------- contacts and positions

  /** A body is in contact with an area exactly when the two are touching where the entities of `w` place them. */
  ghost predicate Judged(w: World, stray: EntityId -> Frame, area: NodeId, body: NodeId)
    requires area in w.areas
  {
    body in w.areas[area].contacts <==> Touching(w, stray, area, body)
  }

  /** A tick judges contacts where its moves have led. */
  lemma TickJudgesContact(grid: Grid, len: Vec3 -> real, stray: EntityId -> Frame, w: World, area: NodeId, body: NodeId)
    requires grid.Valid() && area in w.areas && body in w.objects
    ensures Judged(Ticked(grid, len, stray, w), stray, area, body)
  {
    var moved, a, b := AllMoved(grid, len, w.entities), w.areas[area].collider, w.objects[body];
    CollidingMeets(PlacedShape(moved, stray, a), PlacedShape(moved, stray, b));
  }

  /** After any run that ends with a tick, contacts are judged by where every entity of the run stands after its last
      move. */
  lemma ContactsAfterTick(sc: Scene, ops: seq<Op>, w: World, stray: EntityId -> Frame, area: NodeId, body: NodeId)
    requires Legal(sc, ops) && w == Run(sc, EMPTY, ops) && Possible(sc, Tick(stray))
    requires area in w.areas && body in w.objects
    ensures Run(sc, EMPTY, ops + [Tick(stray)]) == Step(sc, w, Tick(stray))
    ensures Step(sc, w, Tick(stray)).entities == AllMoved(sc.grid, sc.len, w.entities)
    ensures Judged(Step(sc, w, Tick(stray)), stray, area, body)
  {
    RunAppend(sc, EMPTY, ops, Tick(stray));
    TickJudgesContact(sc.grid, sc.len, stray, w, area, body);
  }

  lemma {:induction false} RunAppend(sc: Scene, w: World, ops: seq<Op>, op: Op)
    requires Legal(sc, ops) && Possible(sc, op)
    ensures Run(sc, w, ops + [op]) == Step(sc, Run(sc, w, ops), op)
    decreases |ops|
  {
    if ops == [] {
      assert [] + [op] == [op] && [op][1..] == [];
    } else {
      assert (ops + [op])[1..] == ops[1..] + [op];
      RunAppend(sc, Step(sc, w, ops[0]), ops[1..], op);
    }
  }

  /** A tick carries the collision objects of an entity along: their displacement is the entity's. */
  lemma TickCarriesColliders(grid: Grid, len: Vec3 -> real, stray: EntityId -> Frame, entities: map<EntityId, Body>,
                             c: Collider, e: EntityId)
    requires grid.Valid() && c.owner == Some(e) && e in entities
    ensures var moved := AllMoved(grid, len, entities);
            PlacedShape(moved, stray, c).center.Minus(PlacedShape(entities, stray, c).center)
            == moved[e].position.Minus(entities[e].position)
  {
    var moved := AllMoved(grid, len, entities);
    var frames := [c.shapeFrame, c.frame] + c.above;
    RootShift(frames, FrameOf(entities[e]), FrameOf(moved[e]));
    assert forall f :: [c.shapeFrame, c.frame] + (c.above + [f]) == frames + [f];
  }

  /** Moving the root of a chain, without turning it, moves the whole chain along. */
  lemma {:induction false} RootShift(frames: seq<Frame>, f: Frame, g: Frame)
    requires f.rotation == g.rotation
    ensures GlobalRotation(frames + [f]) == GlobalRotation(frames + [g])
    ensures GlobalPosition(frames + [g]).Minus(GlobalPosition(frames + [f])) == g.position.Minus(f.position)
    decreases |frames|
  {
    if frames == [] {
      assert [] + [f] == [f] && [] + [g] == [g];
    } else {
      RootShift(frames[1..], f, g);
      assert (frames + [f])[1..] == frames[1..] + [f] && (frames + [g])[1..] == frames[1..] + [g];
    }
  }

  // ---------------------------------------------------------------- bodies that are removed while in contact

  /** An operation that can change what an area says about a body that is not indexed: adding the body's entity again,
      or replacing or removing the area. */
  ghost predicate Revives(sc: Scene, op: Op, area: NodeId, body: NodeId)
    requires Possible(sc, op)
  {
    match op
    case AddEntity(id, _) => HasId(sc.forest[id], body)
    case AddArea(a) => a.id == area
    case RemoveArea(id) => id == area
    case _ => false
  }

  /** Until then an absent body keeps its contact, and nothing is signalled about it. */
  lemma AbsentStep(sc: Scene, w: World, op: Op, area: NodeId, body: NodeId)
    requires Possible(sc, op) && !Revives(sc, op, area, body) && area in w.areas && body !in w.objects
    ensures var t := Step(sc, w, op);
            && area in t.areas && body !in t.objects
            && (body in t.areas[area].contacts <==> body in w.areas[area].contacts)
            && Past(t.areas[area].history, body) == Past(w.areas[area].history, body)
  {
    var t := Step(sc, w, op);
    if op.AddEntity? { IdsFound(op.id, [], sc.forest[op.id], body); }
    assert op.Tick? ==> Past(t.areas[area].history, body) == Past(w.areas[area].history, body);
  }

  lemma {:induction false} AbsentBodyKeepsContact(sc: Scene, w: World, ops: seq<Op>, area: NodeId, body: NodeId)
    requires Legal(sc, ops) && area in w.areas && body !in w.objects
    requires forall i :: 0 <= i < |ops| ==> !Revives(sc, ops[i], area, body)
    ensures var t := Run(sc, w, ops);
            && area in t.areas && body !in t.objects
            && (body in t.areas[area].contacts <==> body in w.areas[area].contacts)
            && Past(t.areas[area].history, body) == Past(w.areas[area].history, body)
    decreases |ops|
  {
    if ops != [] {
      assert Possible(sc, ops[0]) && !Revives(sc, ops[0], area, body);
      AbsentStep(sc, w, ops[0], area, body);
      AbsentBodyKeepsContact(sc, Step(sc, w, ops[0]), ops[1..], area, body);
    }
  }

  /** An entity that is removed while one of its collision objects is in contact leaves that contact behind, and no exit
      is signalled, however long the run goes on without reviving the object. */
  lemma RemovalKeepsContact(sc: Scene, w: World, id: EntityId, ops: seq<Op>, area: NodeId, body: NodeId)
    requires sc.grid.Valid() && Legal(sc, ops) && area in w.areas && id in sc.forest && HasId(sc.forest[id], body)
    requires forall i :: 0 <= i < |ops| ==> !Revives(sc, ops[i], area, body)
    ensures var t := Run(sc, Step(sc, w, RemoveEntity(id)), ops);
            && area in t.areas && body !in t.objects
            && (body in t.areas[area].contacts <==> body in w.areas[area].contacts)
            && Past(t.areas[area].history, body) == Past(w.areas[area].history, body)
  {
    IdsFound(id, [], sc.forest[id], body);
    AbsentBodyKeepsContact(sc, Step(sc, w, RemoveEntity(id)), ops, area, body);
  }

  /** A run that comes to such a contact: an entity with one spherical object, number 7, and an area, number 9, around
      the same place. */
  ghost predicate Meeting(sc: Scene, b: Body, area: Collider, still: Frame) {
    && sc.grid.Valid() && b.mode == Forward && b.direction == ZERO && !b.attacking
    && sc.forest == map[1 := [Tree(still, Some(Solid(7, 1, 0, Sphere(1.0), still)), [])]]
    && area == Collider(9, 0, 1, Sphere(1.0), still, FrameOf(b), [], None)
    && still == Frame(ZERO, Rotation(1.0, 0.0))
  }

  lemma ObjectOfMeeting(sc: Scene, b: Body, area: Collider, still: Frame)
    requires Meeting(sc, b, area, still)
    ensures Below(sc, 1) == map[7 := Collider(7, 1, 0, Sphere(1.0), still, still, [], Some(1))]
  {
    var node := Tree(still, Some(Solid(7, 1, 0, Sphere(1.0), still)), []);
    assert sc.forest[1] == [node] && [node][1..] == [];
    assert Objects(1, [], [node]) == Own(1, [], node) + Objects(1, [still] + [], []) + Objects(1, [], []);
  }

  lemma PlacesOfMeeting(b: Body, still: Frame, entities: map<EntityId, Body>, stray: EntityId -> Frame)
    requires still == Frame(ZERO, Rotation(1.0, 0.0)) && 1 in entities && entities[1] == b
    ensures PlacedShape(entities, stray, Collider(7, 1, 0, Sphere(1.0), still, still, [], Some(1))).center == b.position
    ensures var area := Collider(9, 0, 1, Sphere(1.0), still, FrameOf(b), [], None);
            PlacedShape(entities, stray, area).center == b.position
  {
    ZeroFrame([FrameOf(b)], still);
    ZeroFrame([still, FrameOf(b)], still);
    assert [still, still] + ([] + [FrameOf(b)]) == [still] + [still, FrameOf(b)];
    assert [still, FrameOf(b)] == [still] + [FrameOf(b)] && [still, FrameOf(b)] + ([] + []) == [still, FrameOf(b)];
  }

  lemma FirstContact(at: Collider -> Placed, area: Collider, body: NodeId, c: Collider)
    requires Touches(at, area, c)
    ensures var t := Refreshed(at, Area(area, {}, map[]), map[body := c]);
            body in t.contacts && Past(t.history, body) == [Entered]
  {
  }

  lemma MeetingEnters(sc: Scene, b: Body, area: Collider, still: Frame, stray: EntityId -> Frame)
    requires Meeting(sc, b, area, still)
    ensures var w := Step(sc, Step(sc, Step(sc, EMPTY, AddEntity(1, b)), AddArea(area)), Tick(stray));
            9 in w.areas && 7 in w.areas[9].contacts && Past(w.areas[9].history, 7) == [Entered]
  {
    var v := Step(sc, Step(sc, EMPTY, AddEntity(1, b)), AddArea(area));
    ObjectOfMeeting(sc, b, area, still);
    var c := Collider(7, 1, 0, Sphere(1.0), still, still, [], Some(1));
    assert v.objects == map[7 := c] && v.entities == map[1 := b] && v.areas == map[9 := Area(area, {}, map[])];
    var moved := AllMoved(sc.grid, sc.len, v.entities);
    assert moved[1] == b;
    PlacesOfMeeting(b, still, moved, stray);
    assert area.mask & c.layer != 0;
    FirstContact(Places(moved, stray), area, 7, c);
  }

  /** After the entity has been removed, and however many ticks later, its object is still in contact: the area has
      signalled that it entered, and nothing since. */
  lemma RemovedInContact(sc: Scene, b: Body, area: Collider, still: Frame, stray: EntityId -> Frame, ticks: seq<Op>)
    requires Meeting(sc, b, area, still) && forall i :: 0 <= i < |ticks| ==> ticks[i].Tick?
    ensures Legal(sc, [AddEntity(1, b), AddArea(area), Tick(stray), RemoveEntity(1)] + ticks)
    ensures var w := Run(sc, EMPTY, [AddEntity(1, b), AddArea(area), Tick(stray), RemoveEntity(1)] + ticks);
            9 in w.areas && 7 !in w.objects && 7 in w.areas[9].contacts && Past(w.areas[9].history, 7) == [Entered]
  {
    var w := Step(sc, Step(sc, Step(sc, EMPTY, AddEntity(1, b)), AddArea(area)), Tick(stray));
    MeetingEnters(sc, b, area, still, stray);
    ObjectOfMeeting(sc, b, area, still);
    IdsFound(1, [], sc.forest[1], 7);
    RemovalKeepsContact(sc, w, 1, ticks, 9, 7);
    RunFourMore(sc, EMPTY, AddEntity(1, b), AddArea(area), Tick(stray), RemoveEntity(1), ticks);
  }

  lemma RunOneMore(sc: Scene, w: World, op: Op, rest: seq<Op>)
    requires Possible(sc, op) && Legal(sc, rest)
    ensures Legal(sc, [op] + rest) && Run(sc, w, [op] + rest) == Run(sc, Step(sc, w, op), rest)
  {
    assert ([op] + rest)[1..] == rest;
  }

  lemma RunFourMore(sc: Scene, w: World, a: Op, b: Op, c: Op, d: Op, rest: seq<Op>)
    requires Legal(sc, rest) && Possible(sc, a) && Possible(sc, b) && Possible(sc, c) && Possible(sc, d)
    ensures Legal(sc, [a, b, c, d] + rest)
    ensures Run(sc, w, [a, b, c, d] + rest) == Run(sc, Step(sc, Step(sc, Step(sc, Step(sc, w, a), b), c), d), rest)
  {
    var x, y := Step(sc, w, a), Step(sc, Step(sc, w, a), b);
    RunOneMore(sc, Step(sc, y, c), d, rest);
    RunOneMore(sc, y, c, [d] + rest);
    RunOneMore(sc, x, b, [c] + ([d] + rest));
    RunOneMore(sc, w, a, [b] + ([c] + ([d] + rest)));
    assert [a, b, c, d] + rest == [a] + ([b] + ([c] + ([d] + rest)));
  }
}
