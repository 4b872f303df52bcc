/** Scene nodes: position and rotation relative to the parent, and the walks up the parent chain. */
module Nodes {
  import opened Vectors

  /** A rotation about the vertical axis, as the cosine and sine of its angle. */
  datatype Rotation = Rotation(cos: real, sin: real) {
    ghost predicate Unit() {
      cos * cos + sin * sin == 1.0
    }

    /** Rotating by the sum of two angles: the addition theorems. */
    function Add(other: Rotation): Rotation {
      Rotation(cos * other.cos - sin * other.sin, sin * other.cos + cos * other.sin)
    }

    /** `angleAxis(angle, up) * v`. */
    function Apply(v: Vec3): Vec3 {
      Vec3(cos * v.x + sin * v.z, v.y, cos * v.z - sin * v.x)
    }
  }

  /** What one node contributes to a transform chain. */
  datatype Frame = Frame(position: Vec3, rotation: Rotation)

  /** Frames are listed from a node up to its root. */
  function GlobalRotation(frames: seq<Frame>): Rotation
    requires |frames| > 0
  {
    if |frames| == 1 then frames[0].rotation else GlobalRotation(frames[1..]).Add(frames[0].rotation)
  }

  /** The meaning of a chain: the parent's global position plus the local position turned by the parent's
      global rotation. */
  function GlobalPosition(frames: seq<Frame>): Vec3
    requires |frames| > 0
  {
    if |frames| == 1 then frames[0].position
    else GlobalPosition(frames[1..]).Plus(GlobalRotation(frames[1..]).Apply(frames[0].position))
  }

  /** Carrying a point that is local to the bottom frame up through all of them. */
  function Lift(frames: seq<Frame>, local: Vec3): Vec3 {
    if frames == [] then local
    else Lift(frames[1..], frames[0].position.Plus(frames[0].rotation.Apply(local)))
  }

  lemma ApplyIsAdditive(r: Rotation, u: Vec3, v: Vec3)
    ensures r.Apply(u.Plus(v)) == r.Apply(u).Plus(r.Apply(v))
  {
  }

  lemma ApplyKeepsDifferences(r: Rotation, u: Vec3, v: Vec3)
    ensures r.Apply(u.Minus(v)) == r.Apply(u).Minus(r.Apply(v))
  {
  }

  lemma ApplySum(r: Rotation, q: Rotation, v: Vec3)
    ensures r.Add(q).Apply(v) == r.Apply(q.Apply(v))
  {
    var w := q.Apply(v);
    assert r.Apply(w).x == r.cos * (q.cos * v.x + q.sin * v.z) + r.sin * (q.cos * v.z - q.sin * v.x);
    assert r.Apply(w).z == r.cos * (q.cos * v.z - q.sin * v.x) - r.sin * (q.cos * v.x + q.sin * v.z);
  }

  /** `w` is `v` turned about the vertical axis: the height stays, and the cosine and the sine of the angle are those of
      the dot and the cross product of the rest. */
  predicate Turned(r: Rotation, v: Vec3, w: Vec3) {
    && w.y == v.y
    && v.x * w.x + v.z * w.z == r.cos * (v.x * v.x + v.z * v.z)
    && v.z * w.x - v.x * w.z == r.sin * (v.x * v.x + v.z * v.z)
    && (v.x == 0.0 && v.z == 0.0 ==> w.x == 0.0 && w.z == 0.0)
  }

  lemma ApplyTurns(r: Rotation, v: Vec3)
    ensures Turned(r, v, r.Apply(v))
  {
    var w := r.Apply(v);
    assert v.x * w.x == r.cos * (v.x * v.x) + r.sin * (v.x * v.z);
    assert v.z * w.z == r.cos * (v.z * v.z) - r.sin * (v.x * v.z);
    assert v.z * w.x == r.cos * (v.x * v.z) + r.sin * (v.z * v.z);
    assert v.x * w.z == r.cos * (v.x * v.z) - r.sin * (v.x * v.x);
  }

  /** What a rotation does, and nothing else, is to turn by its angle. */
  lemma ApplyIsTurn(r: Rotation, v: Vec3, w: Vec3)
    ensures w == r.Apply(v) <==> Turned(r, v, w)
  {
    ApplyTurns(r, v);
    if Turned(r, v, w) && (v.x != 0.0 || v.z != 0.0) { TurnedAlike(v, w, r.Apply(v)); }
  }

  lemma TurnedAlike(v: Vec3, w: Vec3, u: Vec3)
    requires w.y == u.y && (v.x != 0.0 || v.z != 0.0)
    requires v.x * w.x + v.z * w.z == v.x * u.x + v.z * u.z && v.z * w.x - v.x * w.z == v.z * u.x - v.x * u.z
    ensures w == u
  {
    OnlyZero(v.x, v.z, w.x - u.x, w.z - u.z);
  }

  /** Two linear equations with a determinant that is not zero. */
  lemma OnlyZero(x: real, z: real, a: real, b: real)
    requires (x != 0.0 || z != 0.0) && x * a + z * b == 0.0 && z * a - x * b == 0.0
    ensures a == 0.0 && b == 0.0
  {
    var p := SquareIsPositive(x);
    var q := SquareIsPositive(z);
    var n := p + q;
    var c, d := x * a + z * b, z * a - x * b;
    assert n * a == x * c + z * d && n * b == z * c - x * d;
    ZeroFactor(n, a);
    ZeroFactor(n, b);
  }

  lemma ZeroFactor(n: real, a: real)
    requires n > 0.0 && n * a == 0.0
    ensures a == 0.0
  {
  }

  lemma SquareIsPositive(a: real) returns (p: real)
    ensures p == a * a && p >= 0.0 && (a != 0.0 ==> p > 0.0)
  {
    p := a * a;
    if a > 0.0 { SquareStrict(0.0, a); }
    if a < 0.0 { SquareStrict(0.0, -a); }
  }

  lemma ChildOfRoot(child: Frame, root: Frame)
    ensures GlobalPosition([child, root]) == root.position.Plus(root.rotation.Apply(child.position))
  {
    assert [child, root][1..] == [root];
  }

  lemma QuarterTurns(v: Vec3)
    ensures Rotation(1.0, 0.0).Apply(v) == v
    ensures Rotation(0.0, 1.0).Apply(v) == Vec3(v.z, v.y, -v.x)
    ensures Rotation(-1.0, 0.0).Apply(v) == Vec3(-v.x, v.y, -v.z)
  {
  }

  /** Where a node is whose root is unturned, turned by a quarter, and turned by a half. */
  lemma NodeTurnsWithItsRoot(child: Frame, root: Frame)
    ensures var p, at, v := GlobalPosition([child, root]), root.position, child.position;
            && (root.rotation == Rotation(1.0, 0.0) ==> p == at.Plus(v))
            && (root.rotation == Rotation(0.0, 1.0) ==> p == at.Plus(Vec3(v.z, v.y, -v.x)))
            && (root.rotation == Rotation(-1.0, 0.0) ==> p == at.Plus(Vec3(-v.x, v.y, -v.z)))
  {
    ChildOfRoot(child, root);
    QuarterTurns(child.position);
  }

  lemma ApplyPreservesNorm(r: Rotation, v: Vec3)
    requires r.Unit()
    ensures r.Apply(v).NormSq() == v.NormSq()
  {
    var k := r.cos * r.cos + r.sin * r.sin;
    assert r.Apply(v).NormSq() == k * (v.x * v.x) + v.y * v.y + k * (v.z * v.z);
  }

  lemma AddKeepsUnit(r: Rotation, q: Rotation)
    requires r.Unit() && q.Unit()
    ensures r.Add(q).Unit()
  {
    var s := r.Add(q);
    var k, l := r.cos * r.cos + r.sin * r.sin, q.cos * q.cos + q.sin * q.sin;
    assert s.cos * s.cos + s.sin * s.sin == k * l;
  }

  /** Carrying a point upward one frame at a time reaches the recursively defined position. */
  lemma {:induction false} LiftIsGlobal(frames: seq<Frame>, local: Vec3)
    requires |frames| > 0
    ensures Lift(frames, local) == GlobalPosition(frames).Plus(GlobalRotation(frames).Apply(local))
    decreases |frames|
  {
    var f, rest := frames[0], frames[1..];
    if rest != [] {
      var turned := f.rotation.Apply(local);
      var r := GlobalRotation(rest);
      LiftIsGlobal(rest, f.position.Plus(turned));
      ApplyIsAdditive(r, f.position, turned);
      ApplySum(r, f.rotation, local);
    }
  }

  /** A node without a displacement of its own is where its parent is. */
  lemma ZeroFrame(frames: seq<Frame>, f: Frame)
    requires frames != [] && f.position == ZERO
    ensures GlobalPosition([f] + frames) == GlobalPosition(frames)
  {
    assert ([f] + frames)[1..] == frames;
  }

  ghost predicate AllUnit(frames: seq<Frame>) {
    forall i :: 0 <= i < |frames| ==> frames[i].rotation.Unit()
  }

  lemma {:induction false} GlobalRotationIsUnit(frames: seq<Frame>)
    requires |frames| > 0 && AllUnit(frames)
    ensures GlobalRotation(frames).Unit()
    decreases |frames|
  {
    if |frames| > 1 {
      GlobalRotationIsUnit(frames[1..]);
      AddKeepsUnit(GlobalRotation(frames[1..]), frames[0].rotation);
    }
  }

  /** However deep their common chain of ancestors, two siblings stay as far apart as their local positions. */
  lemma SiblingsKeepTheirDistance(a: Frame, b: Frame, ancestors: seq<Frame>)
    requires AllUnit(ancestors)
    ensures DistSq(GlobalPosition([a] + ancestors), GlobalPosition([b] + ancestors)) == DistSq(a.position, b.position)
  {
    assert ([a] + ancestors)[1..] == ancestors == ([b] + ancestors)[1..];
    if ancestors != [] {
      var p, r := GlobalPosition(ancestors), GlobalRotation(ancestors);
      GlobalRotationIsUnit(ancestors);
      ApplyKeepsDifferences(r, a.position, b.position);
      ApplyPreservesNorm(r, a.position.Minus(b.position));
      assert p.Plus(r.Apply(a.position)).Minus(p.Plus(r.Apply(b.position)))
          == r.Apply(a.position).Minus(r.Apply(b.position));
    }
  }

  class Node {
    var position: Vec3
    var rotation: Rotation
    var parent: Node?
    var children: seq<Node>

    constructor (position: Vec3, rotation: Rotation)
      ensures this.position == position && this.rotation == rotation && parent == null && children == []
    {
      this.position, this.rotation, parent, children := position, rotation, null, [];
    }

    function GetFrame(): Frame
      reads this
    {
      Frame(position, rotation)
    }

    /** `chain` is this node, its parent, its parent's parent, ... up to a node without parent. */
    ghost predicate IsChain(chain: seq<Node>)
      reads chain
    {
      && |chain| > 0 && chain[0] == this
      && (forall i :: 0 <= i < |chain| - 1 ==> chain[i].parent == chain[i + 1])
      && chain[|chain| - 1].parent == null
    }

    /** From this node `loop` leads from parent to parent back to this node. */
    ghost predicate IsLoop(loop: seq<Node>)
      reads loop
    {
      && |loop| > 0 && loop[0] == this
      && (forall i :: 0 <= i < |loop| - 1 ==> loop[i].parent == loop[i + 1])
      && loop[|loop| - 1].parent == this
    }

    lemma {:induction false} ChainFollowsLoop(loop: seq<Node>, chain: seq<Node>, i: nat)
      requires IsLoop(loop) && IsChain(chain) && i < |loop|
      ensures i + 1 < |chain| && chain[i] == loop[i]
    {
      if i > 0 {
        ChainFollowsLoop(loop, chain, i - 1);
        assert loop[i - 1].parent == loop[i - 1 + 1] && chain[i - 1].parent == chain[i - 1 + 1];
      }
      assert i < |loop| - 1 ==> loop[i].parent == loop[i + 1];
      assert chain[i].parent != null;
    }

    /** A node on a loop has no chain: the walks up to the root do not end. */
    lemma {:induction false} LoopHasNoChain(loop: seq<Node>, chain: seq<Node>)
      requires IsLoop(loop)
      ensures !IsChain(chain)
      decreases |chain|
    {
      if IsChain(chain) {
        ChainFollowsLoop(loop, chain, |loop| - 1);
        LoopHasNoChain(loop, chain[|loop|..]);
      }
    }

    /** Appends `child` and becomes its parent; a null child is ignored. A child that is not among this node's ancestors
        gets a chain: itself followed by this node's chain. One that is gets none, and neither does this node. */
    method AddChild(child: Node?, ghost chain: seq<Node>)
      requires IsChain(chain)
      modifies this`children, if child == null then {} else {child}
      ensures child == null ==> children == old(children) && IsChain(chain)
      ensures child != null ==>
                && children == old(children) + [child] && child.parent == this
                && child.GetFrame() == old(child.GetFrame())
                && (child != this ==> child.children == old(child.children))
      ensures child != null && child !in chain ==> child.IsChain([child] + chain) && IsChain(chain)
      ensures child != null && child in chain ==> forall c :: !IsChain(c)
    {
      if child == null { return; }
      children := children + [child];
      child.parent := this;
      if child in chain {
        ghost var loop := UpTo(chain, child);
        forall c ensures !IsChain(c) { LoopHasNoChain(loop, c); }
      }
    }

    method GetRoot(ghost chain: seq<Node>) returns (root: Node)
      requires IsChain(chain)
      ensures root == chain[|chain| - 1] && root.parent == null
    {
      root := this;
      ghost var i := 0;
      while root.parent != null
        invariant 0 <= i < |chain| && root == chain[i]
        invariant i < |chain| - 1 ==> root.parent == chain[i + 1]
        decreases |chain| - i
      {
        root := root.parent;
        i := i + 1;
      }
    }

    /** The upward loop computes the recursively defined global position. */
    method GetGlobalPosition(ghost chain: seq<Node>) returns (current: Vec3)
      requires IsChain(chain)
      ensures current == GlobalPosition(Frames(chain))
    {
      current := position;
      var p := parent;
      ghost var i := 1;
      ghost var frames := Frames(chain);
      while p != null
        invariant 1 <= i <= |chain| && (if i < |chain| then p == chain[i] else p == null)
        invariant Lift(frames[1..], position) == Lift(frames[i..], current)
        decreases |chain| - i
      {
        assert frames[i..][1..] == frames[i + 1..];
        current := p.position.Plus(p.rotation.Apply(current));
        p := p.parent;
        i := i + 1;
      }
      if |chain| > 1 { LiftIsGlobal(frames[1..], position); }
    }

    /** The loop's sum of angles is the rotation that GlobalPosition turns local positions by. */
    method GetGlobalRotation(ghost chain: seq<Node>) returns (current: Rotation)
      requires IsChain(chain)
      ensures current == GlobalRotation(Frames(chain))
    {
      current := rotation;
      var p := parent;
      ghost var i := 1;
      ghost var frames := Frames(chain);
      while p != null
        invariant 1 <= i <= |chain| && (if i < |chain| then p == chain[i] else p == null)
        invariant GlobalRotation(frames) == if i < |chain| then GlobalRotation(frames[i..]).Add(current) else current
        decreases |chain| - i
      {
        ghost var rest := frames[i..];
        if i + 1 < |chain| {
          assert rest[1..] == frames[i + 1..];
          AddIsAssociative(GlobalRotation(frames[i + 1..]), p.rotation, current);
        }
        current := p.rotation.Add(current);
        p := p.parent;
        i := i + 1;
      }
    }
  }

  /** The part of a chain up to the first occurrence of a node. */
  ghost function UpTo(chain: seq<Node>, node: Node): (part: seq<Node>)
    requires node in chain
    ensures 0 < |part| && part <= chain && part[|part| - 1] == node && node !in part[..|part| - 1]
  {
    if chain[0] == node then [node] else [chain[0]] + UpTo(chain[1..], node)
  }

  ghost function Frames(chain: seq<Node>): (frames: seq<Frame>)
    reads chain
    ensures |frames| == |chain| && forall i :: 0 <= i < |chain| ==> frames[i] == chain[i].GetFrame()
  {
    if chain == [] then [] else [chain[0].GetFrame()] + Frames(chain[1..])
  }

  lemma AddIsAssociative(a: Rotation, b: Rotation, c: Rotation)
    ensures a.Add(b).Add(c) == a.Add(b.Add(c))
  {
  }
}
