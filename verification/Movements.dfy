/** Where entities are after a number of ticks of the subworld. */
module Movements {
  import opened Grids
  import opened SubworldRuns
  import opened Subworlds
  import opened Vectors

  function MovedTimes(grid: Grid, len: Vec3 -> real, b: Body, n: nat): Body
    requires grid.Valid()
    decreases n
  {
    if n == 0 then b else Moved(grid, len, MovedTimes(grid, len, b, n - 1))
  }

  /** The ticks of a run move each present entity on its own. */
  lemma {:induction false} TicksMoveEntity(sc: Scene, w: World, ticks: seq<Op>, e: EntityId)
    requires sc.grid.Valid() && Legal(sc, ticks) && (forall i :: 0 <= i < |ticks| ==> ticks[i].Tick?)
    requires e in w.entities
    ensures e in Run(sc, w, ticks).entities
    ensures Run(sc, w, ticks).entities[e] == MovedTimes(sc.grid, sc.len, w.entities[e], |ticks|)
    decreases |ticks|
  {
    if ticks != [] {
      var last := |ticks| - 1;
      TicksMoveEntity(sc, w, ticks[..last], e);
      RunAppend(sc, w, ticks[..last], ticks[last]);
      assert ticks[..last] + [ticks[last]] == ticks;
    }
  }

  // ---------------------------------------------------------------- straight ahead

  /** The place `k` steps ahead. */
  function Ahead(b: Body, k: nat): Vec3 {
    b.position.Plus(b.direction.Scale(b.speed).Scale(k as real))
  }

  /** The direction is more than next to nothing. */
  predicate Directed(b: Body) {
    || b.direction.x >= 0.00001 || b.direction.x <= -0.00001
    || b.direction.y >= 0.00001 || b.direction.y <= -0.00001
    || b.direction.z >= 0.00001 || b.direction.z <= -0.00001
  }

  lemma AheadNext(b: Body, k: nat)
    ensures Ahead(b, 0) == b.position
    ensures Ahead(b, k + 1) == Ahead(b, k).Plus(b.direction.Scale(b.speed))
  {
    var s := b.direction.Scale(b.speed);
    assert s.Scale((k + 1) as real) == s.Scale(k as real).Plus(s);
    assert s.Scale(0.0) == ZERO;
  }

  lemma ForwardTick(grid: Grid, len: Vec3 -> real, b: Body, next: Vec3)
    requires grid.Valid() && b.mode == Forward && next == b.position.Plus(b.direction.Scale(b.speed))
    ensures Moved(grid, len, b) ==
            if Directed(b) && !b.attacking && grid.IsFree(CellOf(next)) then b.(position := next) else b
  {
  }

  /** An entity that drives straight ahead makes a whole step in its direction with each tick, up to the first place
      that is blocked or outside, and stays in front of that. Its direction does not change. */
  lemma {:induction false} DrivesAhead(grid: Grid, len: Vec3 -> real, b: Body, n: nat, clear: nat)
    requires grid.Valid() && b.mode == Forward && !b.attacking && Directed(b)
    requires forall k {:trigger Ahead(b, k)} :: 1 <= k <= clear ==> grid.IsFree(CellOf(Ahead(b, k)))
    requires n <= clear || !grid.IsFree(CellOf(Ahead(b, clear + 1)))
    ensures MovedTimes(grid, len, b, n) == b.(position := Ahead(b, if n <= clear then n else clear))
    decreases n
  {
    AheadNext(b, 0);
    if n > 0 {
      var k := if n - 1 <= clear then n - 1 else clear;
      DrivesAhead(grid, len, b, n - 1, clear);
      AheadNext(b, k);
      ForwardTick(grid, len, b.(position := Ahead(b, k)), Ahead(b, k + 1));
    }
  }

  /** So over any ticks of a run. */
  lemma EntityDrivesAhead(sc: Scene, w: World, ticks: seq<Op>, e: EntityId, clear: nat)
    requires sc.grid.Valid() && Legal(sc, ticks) && (forall i :: 0 <= i < |ticks| ==> ticks[i].Tick?)
    requires e in w.entities
    requires var b := w.entities[e];
             && b.mode == Forward && !b.attacking && Directed(b)
             && (forall k {:trigger Ahead(b, k)} :: 1 <= k <= clear ==> sc.grid.IsFree(CellOf(Ahead(b, k))))
             && (|ticks| <= clear || !sc.grid.IsFree(CellOf(Ahead(b, clear + 1))))
    ensures e in Run(sc, w, ticks).entities
    ensures Run(sc, w, ticks).entities[e] ==
            w.entities[e].(position := Ahead(w.entities[e], if |ticks| <= clear then |ticks| else clear))
  {
    TicksMoveEntity(sc, w, ticks, e);
    DrivesAhead(sc.grid, sc.len, w.entities[e], |ticks|, clear);
  }

  /** Exactly when it does not move: it has no direction, it is attacking, or the next place is blocked or outside. */
  lemma StandsStill(grid: Grid, len: Vec3 -> real, b: Body)
    requires grid.Valid() && b.mode == Forward && b.speed > 0.0
    ensures Moved(grid, len, b).position == b.position <==>
            !Directed(b) || b.attacking || !grid.IsFree(CellOf(Ahead(b, 1)))
  {
    AheadNext(b, 0);
    ForwardTick(grid, len, b, Ahead(b, 1));
    if Directed(b) {
      StepIsNotZero(b.speed, b.direction.x);
      StepIsNotZero(b.speed, b.direction.y);
      StepIsNotZero(b.speed, b.direction.z);
      StepLeaves(b.position, b.direction.Scale(b.speed));
    }
  }

  lemma StepIsNotZero(speed: real, x: real)
    requires speed > 0.0
    ensures speed * x == 0.0 ==> x == 0.0
  {
  }

  lemma StepLeaves(p: Vec3, step: Vec3)
    ensures p.Plus(step) == p <==> step == ZERO
  {
  }

  // ---------------------------------------------------------------- towards a target

  /** An entity that heads for a target turns to it, and makes a whole step in that direction, or what is left of the
      way, unless the place it would come to is blocked or outside. Next to its target it stays, and faces nowhere. */
  lemma FacesItsWay(grid: Grid, len: Vec3 -> real, b: Body)
    requires grid.Valid() && IsLength(len) && b.mode == Target && !b.attacking
    ensures var d, m := len(b.target.Minus(b.position)), Moved(grid, len, b);
            if d < 0.00001 then m == b.(direction := ZERO)
            else
              && m.direction.NormSq() == 1.0 && m.direction.Scale(d) == b.target.Minus(b.position)
              && var p := b.position.Plus(m.direction.Scale(if d <= b.speed then d else b.speed));
                 m == b.(direction := m.direction, position := if grid.IsFree(CellOf(p)) then p else b.position)
  {
    var v := b.target.Minus(b.position);
    assert LengthAt(len, v);
    var d := len(v);
    if d >= 0.00001 {
      var h := v.Scale(1.0 / d);
      CancelScale(v, d);
      assert b.position.Plus(h.Scale(d)) == b.target;
    }
  }

  lemma CancelScale(v: Vec3, d: real)
    requires d > 0.0 && d * d == v.NormSq()
    ensures v.Scale(1.0 / d).Scale(d) == v && v.Scale(1.0 / d).NormSq() == 1.0
  {
    var u := 1.0 / d;
    assert u * d == 1.0;
    assert d * (u * v.x) == (u * d) * v.x && d * (u * v.y) == (u * d) * v.y && d * (u * v.z) == (u * d) * v.z;
    var n := v.Scale(u).NormSq();
    assert n == (u * u) * v.NormSq() == (u * d) * (u * d);
  }
}
