/** What the recursive walk over a node tree indexes, told by paths: which child to take at each level. */
module CollisionTrees {
  import opened Nodes
  import opened Options
  import opened Shapes
  import opened Subworlds

  /** The node to which a path of child indices leads. */
  function NodeAt(nodes: seq<Tree>, path: seq<nat>): Option<Tree> {
    if path == [] || path[0] >= |nodes| then None
    else if |path| == 1 then Some(nodes[path[0]])
    else NodeAt(nodes[path[0]].children, path[1..])
  }

  /** The frames of the nodes that the path passes before it gets there, the last one first. */
  function FramesPassed(nodes: seq<Tree>, path: seq<nat>): seq<Frame>
    requires NodeAt(nodes, path).Some?
  {
    if |path| == 1 then [] else FramesPassed(nodes[path[0]].children, path[1..]) + [nodes[path[0]].frame]
  }

  /** The id of the collision object at the end of a path. */
  function IdAt(nodes: seq<Tree>, path: seq<nat>): Option<NodeId> {
    match NodeAt(nodes, path)
    case Some(node) => (match node.solid case Some(s) => Some(s.id) case None => None)
    case None => None
  }

  /** `c` is the collision object at the end of the path, hanging below `owner` by the frames on the way. */
  ghost predicate HangsAt(owner: EntityId, above: seq<Frame>, nodes: seq<Tree>, path: seq<nat>, c: Collider) {
    && NodeAt(nodes, path).Some?
    && var node := NodeAt(nodes, path).value;
       && node.solid.Some?
       && var s := node.solid.value;
          && c.id == s.id && c.layer == s.layer && c.mask == s.mask && c.shape == s.shape
          && c.shapeFrame == s.shapeFrame && c.frame == node.frame
          && c.above == FramesPassed(nodes, path) + above && c.owner == Some(owner)
  }

  // ---------------------------------------------------------------- paths and the recursion of the walk

  lemma InFirst(nodes: seq<Tree>, path: seq<nat>)
    requires nodes != [] && path != []
    ensures NodeAt(nodes, [0] + path) == NodeAt(nodes[0].children, path)
    ensures NodeAt(nodes, [0] + path).Some? ==>
              FramesPassed(nodes, [0] + path) == FramesPassed(nodes[0].children, path) + [nodes[0].frame]
  {
    assert ([0] + path)[1..] == path;
  }

  lemma InRest(nodes: seq<Tree>, path: seq<nat>)
    requires nodes != [] && path != []
    ensures var up := [path[0] + 1] + path[1..];
            && NodeAt(nodes, up) == NodeAt(nodes[1..], path)
            && (NodeAt(nodes, up).Some? ==> FramesPassed(nodes, up) == FramesPassed(nodes[1..], path))
  {
    var up := [path[0] + 1] + path[1..];
    assert up[1..] == path[1..];
    assert path[0] + 1 < |nodes| ==> nodes[path[0] + 1] == nodes[1..][path[0]];
  }

  /** A collision object found by the walk hangs at the end of a path. */
  lemma {:induction false} WalkIsSound(owner: EntityId, above: seq<Frame>, nodes: seq<Tree>, id: NodeId)
    returns (path: seq<nat>)
    requires id in Objects(owner, above, nodes)
    ensures HangsAt(owner, above, nodes, path, Objects(owner, above, nodes)[id])
    ensures IdAt(nodes, path) == Some(id)
    decreases nodes
  {
    var node := nodes[0];
    if id in Objects(owner, above, nodes[1..]) {
      path := WalkIsSound(owner, above, nodes[1..], id);
      InRest(nodes, path);
      path := [path[0] + 1] + path[1..];
    } else if id in Objects(owner, [node.frame] + above, node.children) {
      path := WalkIsSound(owner, [node.frame] + above, node.children, id);
      InFirst(nodes, path);
      assert FramesPassed(nodes, [0] + path) + above == FramesPassed(node.children, path) + ([node.frame] + above);
      path := [0] + path;
    } else {
      path := [0];
      assert FramesPassed(nodes, path) + above == above;
    }
  }

  /** The walk passes over no collision object. */
  lemma {:induction false} WalkIsComplete(owner: EntityId, above: seq<Frame>, nodes: seq<Tree>, path: seq<nat>)
    requires IdAt(nodes, path).Some?
    ensures IdAt(nodes, path).value in Objects(owner, above, nodes)
    decreases nodes
  {
    var rest := path[1..];
    if path[0] > 0 {
      var down := [path[0] - 1] + rest;
      InRest(nodes, down);
      assert [down[0] + 1] + down[1..] == path;
      WalkIsComplete(owner, above, nodes[1..], down);
    } else if rest != [] {
      InFirst(nodes, rest);
      assert [0] + rest == path;
      WalkIsComplete(owner, [nodes[0].frame] + above, nodes[0].children, rest);
    }
  }

  /** Some path leads to a collision object with that id. */
  ghost predicate HasId(nodes: seq<Tree>, id: NodeId) {
    exists path :: IdAt(nodes, path) == Some(id)
  }

  /** The ids that the walk finds are those of the collision objects that some path leads to. */
  lemma IdsFound(owner: EntityId, above: seq<Frame>, nodes: seq<Tree>, id: NodeId)
    ensures id in Objects(owner, above, nodes) <==> HasId(nodes, id)
  {
    if id in Objects(owner, above, nodes) { var path := WalkIsSound(owner, above, nodes, id); }
    if path :| IdAt(nodes, path) == Some(id) { WalkIsComplete(owner, above, nodes, path); }
  }

  /** No two nodes carry the same id. */
  ghost predicate DistinctIds(nodes: seq<Tree>) {
    forall p, q :: IdAt(nodes, p).Some? && IdAt(nodes, p) == IdAt(nodes, q) ==> p == q
  }

  /** The walk finds exactly the collision objects that some path leads to. */
  lemma ObjectsFound(owner: EntityId, above: seq<Frame>, nodes: seq<Tree>, c: Collider)
    requires DistinctIds(nodes)
    ensures c in Objects(owner, above, nodes).Values <==> exists path :: HangsAt(owner, above, nodes, path, c)
  {
    var objects := Objects(owner, above, nodes);
    if c in objects.Values {
      var id :| id in objects && objects[id] == c;
      var path := WalkIsSound(owner, above, nodes, id);
    }
    if path :| HangsAt(owner, above, nodes, path, c) {
      WalkIsComplete(owner, above, nodes, path);
      var other := WalkIsSound(owner, above, nodes, c.id);
      assert IdAt(nodes, path) == IdAt(nodes, other);
      assert objects[c.id] == c;
    }
  }

  // ---------------------------------------------------------------- places

  /** Where a frame is that hangs in another: from the root down. */
  function Carried(outer: Frame, inner: Frame): Frame {
    Frame(outer.position.Plus(outer.rotation.Apply(inner.position)), outer.rotation.Add(inner.rotation))
  }

  /** Where the node at the end of a path is, if the nodes hang in `root`. */
  function FrameAt(root: Frame, nodes: seq<Tree>, path: seq<nat>): Frame
    requires NodeAt(nodes, path).Some?
    decreases nodes
  {
    var here := Carried(root, nodes[path[0]].frame);
    if |path| == 1 then here else FrameAt(here, nodes[path[0]].children, path[1..])
  }

  function Global(frames: seq<Frame>): Frame
    requires frames != []
  {
    Frame(GlobalPosition(frames), GlobalRotation(frames))
  }

  lemma GlobalCarried(f: Frame, frames: seq<Frame>)
    requires frames != []
    ensures Global([f] + frames) == Carried(Global(frames), f)
  {
    assert ([f] + frames)[1..] == frames;
  }

  /** Going down from the root and walking up the parents lead to the same frame. */
  lemma {:induction false} DownIsUp(nodes: seq<Tree>, path: seq<nat>, above: seq<Frame>)
    requires NodeAt(nodes, path).Some? && above != []
    ensures FrameAt(Global(above), nodes, path)
         == Global([NodeAt(nodes, path).value.frame] + (FramesPassed(nodes, path) + above))
    decreases |path|
  {
    var f := nodes[path[0]].frame;
    GlobalCarried(f, above);
    if |path| == 1 {
      assert FramesPassed(nodes, path) + above == above;
    } else {
      DownIsUp(nodes[path[0]].children, path[1..], [f] + above);
      assert FramesPassed(nodes, path) + above
          == FramesPassed(nodes[path[0]].children, path[1..]) + ([f] + above);
    }
  }

  /** A collision object is where the path from its entity leads, and its shape is in its place there. */
  lemma PlacedOnPath(entities: map<EntityId, Body>, stray: EntityId -> Frame, e: EntityId, nodes: seq<Tree>,
                     path: seq<nat>, c: Collider)
    requires HangsAt(e, [], nodes, path, c)
    ensures var f := FrameAt(RootFrame(entities, stray, e), nodes, path);
            && ObjectPosition(entities, stray, c) == f.position
            && PlacedShape(entities, stray, c) == Placed(c.shape, Carried(f, c.shapeFrame).position)
  {
    var root := RootFrame(entities, stray, e);
    var frames := FramesPassed(nodes, path) + [root];
    FramesOnPath(entities, stray, e, nodes, path, c);
    GlobalOfRoot(root);
    DownIsUp(nodes, path, [root]);
    GlobalCarried(c.shapeFrame, [c.frame] + frames);
    assert [c.shapeFrame, c.frame] + frames == [c.shapeFrame] + ([c.frame] + frames);
  }

  lemma FramesOnPath(entities: map<EntityId, Body>, stray: EntityId -> Frame, e: EntityId, nodes: seq<Tree>,
                     path: seq<nat>, c: Collider)
    requires HangsAt(e, [], nodes, path, c)
    ensures FramesAbove(entities, stray, c) == FramesPassed(nodes, path) + [RootFrame(entities, stray, e)]
  {
    assert c.above == FramesPassed(nodes, path);
  }

  lemma GlobalOfRoot(root: Frame)
    ensures Global([root]) == root
  {
  }
}
