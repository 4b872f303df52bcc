/** Integer points and the obstacle grid that every path search and every movement step consults. */
module Grids {

  /** A cell: row `r` grows with world z, column `c` grows with world x. */
  datatype Point = Point(r: int, c: int) {
    function Plus(other: Point): Point {
      Point(r + other.r, c + other.c)
    }
  }

  /** The cell that contains the world coordinates (z, x): both are floored. */
  function CellAt(z: real, x: real): (p: Point)
    ensures p.r as real <= z < p.r as real + 1.0
    ensures p.c as real <= x < p.c as real + 1.0
  {
    Point(z.Floor, x.Floor)
  }

  function Abs(x: int): nat {
    if x < 0 then -x else x
  }

  function Manhattan(p: Point, q: Point): nat {
    Abs(p.r - q.r) + Abs(p.c - q.c)
  }

  datatype Grid = Grid(rows: nat, cols: nat, data: seq<bool>) {
    ghost predicate Valid() {
      |data| == rows * cols
    }

    predicate IsInside(p: Point) {
      p.r >= 0 && p.c >= 0 && p.r < rows && p.c < cols
    }

    /** Where row `r` begins in `data`: rows are stored one after the other. */
    function RowStart(r: nat): nat {
      if r == 0 then 0 else RowStart(r - 1) + cols
    }

    lemma {:induction false} RowStartIsProduct(r: nat)
      ensures RowStart(r) == r * cols
    {
      if r > 0 {
        RowStartIsProduct(r - 1);
        assert r * cols == (r - 1) * cols + cols;
      }
    }

    /** The index of a cell is r * cols + c. */
    lemma IndexIsRowMajor(p: Point)
      requires IsInside(p)
      ensures RowStart(p.r) + p.c == p.r * cols + p.c < rows * cols
    {
      RowStartIsProduct(p.r);
      RowsMonotone(p.r + 1, rows, cols);
      assert (p.r + 1) * cols == p.r * cols + cols;
    }

    lemma HasEntry(p: Point)
      requires Valid() && IsInside(p)
      ensures RowStart(p.r) + p.c < |data|
    {
      IndexIsRowMajor(p);
    }

    predicate IsBlocked(p: Point)
      requires Valid() && IsInside(p)
    {
      HasEntry(p);
      data[RowStart(p.r) + p.c]
    }

    /** A cell one may step onto. */
    predicate IsFree(p: Point)
      requires Valid()
    {
      IsInside(p) && !IsBlocked(p)
    }

    /** All the cells one may step onto. */
    ghost function Free(): (free: set<Point>)
      requires Valid()
      ensures forall p :: p in free <==> IsFree(p)
    {
      set r, c | 0 <= r < rows && 0 <= c < cols && IsFree(Point(r, c)) :: Point(r, c)
    }

    /** The first `k` of the eight neighbours of `p`, as far as they lie inside. */
    function Kept(p: Point, k: nat): seq<Point> {
      if k == 0 then [] else EmplaceIf(Kept(p, k - 1), IsInside(p.Plus(Offset(k - 1))), p.Plus(Offset(k - 1)))
    }

    lemma {:induction false} KeptCells(p: Point, k: nat, q: Point)
      requires k <= 8
      ensures q in Kept(p, k) ==> IsInside(q) && Adjacent(p, q)
      ensures IsInside(q) && (exists i: nat :: i < k && q == p.Plus(Offset(i))) ==> q in Kept(p, k)
    {
      if k > 0 { KeptCells(p, k - 1, q); }
    }

    /** The in-grid neighbours of `p` in the order in which the searches try them; a cell outside has none. */
    function Adjacents(p: Point): (adjacents: seq<Point>)
      ensures forall q :: q in adjacents <==> IsInside(p) && IsInside(q) && Adjacent(p, q)
    {
      if !IsInside(p) then [] else
        var all := Kept(p, 8);
        assert forall q :: q in all <==> IsInside(q) && Adjacent(p, q) by {
          forall q ensures q in all <==> IsInside(q) && Adjacent(p, q) {
            KeptCells(p, 8, q);
            if Adjacent(p, q) { var i := OffsetIndex(p, q); }
          }
        }
        all
    }

    /** One guarded append keeps one more neighbour, if its guard says whether that neighbour lies inside. */
    lemma KeepOne(p: Point, k: nat, s: seq<Point>, guard: bool, q: Point)
      requires s == Kept(p, k) && q == p.Plus(Offset(k)) && (guard <==> IsInside(q))
      ensures EmplaceIf(s, guard, q) == Kept(p, k + 1)
    {
    }

    method GetStraightAdjacents(p: Point) returns (adjacents: seq<Point>)
      requires IsInside(p)
      ensures adjacents == Kept(p, 4)
    {
      var down, up, right, left := p.r < rows - 1, p.r >= 1, p.c < cols - 1, p.c >= 1;
      KeepOne(p, 0, [], down, Point(p.r + 1, p.c));
      adjacents := EmplaceIf([], down, Point(p.r + 1, p.c));
      KeepOne(p, 1, adjacents, up, Point(p.r - 1, p.c));
      adjacents := EmplaceIf(adjacents, up, Point(p.r - 1, p.c));
      KeepOne(p, 2, adjacents, right, Point(p.r, p.c + 1));
      adjacents := EmplaceIf(adjacents, right, Point(p.r, p.c + 1));
      KeepOne(p, 3, adjacents, left, Point(p.r, p.c - 1));
      adjacents := EmplaceIf(adjacents, left, Point(p.r, p.c - 1));
    }

    method Get8WayAdjacents(p: Point) returns (adjacents: seq<Point>)
      ensures adjacents == Adjacents(p)
    {
      if !IsInside(p) { return []; }
      var down, up, right, left := p.r < rows - 1, p.r >= 1, p.c < cols - 1, p.c >= 1;
      adjacents := GetStraightAdjacents(p);
      KeepOne(p, 4, adjacents, down && right, Point(p.r + 1, p.c + 1));
      adjacents := EmplaceIf(adjacents, down && right, Point(p.r + 1, p.c + 1));
      KeepOne(p, 5, adjacents, down && left, Point(p.r + 1, p.c - 1));
      adjacents := EmplaceIf(adjacents, down && left, Point(p.r + 1, p.c - 1));
      KeepOne(p, 6, adjacents, up && right, Point(p.r - 1, p.c + 1));
      adjacents := EmplaceIf(adjacents, up && right, Point(p.r - 1, p.c + 1));
      KeepOne(p, 7, adjacents, up && left, Point(p.r - 1, p.c - 1));
      adjacents := EmplaceIf(adjacents, up && left, Point(p.r - 1, p.c - 1));
    }
  }

  lemma RowsMonotone(a: nat, b: nat, c: nat)
    requires a <= b
    ensures a * c <= b * c
  {
    assert b * c - a * c == (b - a) * c;
  }

  /** A guarded `emplace_back`. */
  function EmplaceIf(s: seq<Point>, guard: bool, p: Point): seq<Point> {
    if guard then s + [p] else s
  }

  /** Down, up, right, left, and then the diagonals: the order in which neighbours are listed. */
  function Offset(i: nat): (d: Point)
    ensures Adjacent(Point(0, 0), d)
  {
    match i
    case 0 => Point(1, 0)
    case 1 => Point(-1, 0)
    case 2 => Point(0, 1)
    case 3 => Point(0, -1)
    case 4 => Point(1, 1)
    case 5 => Point(1, -1)
    case 6 => Point(-1, 1)
    case _ => Point(-1, -1)
  }

  lemma OffsetIndex(p: Point, q: Point) returns (i: nat)
    requires Adjacent(p, q)
    ensures i < 8 && q == p.Plus(Offset(i))
  {
    var d := Point(q.r - p.r, q.c - p.c);
    i := if d.c == 0 then (if d.r == 1 then 0 else 1)
         else if d.r == 0 then (if d.c == 1 then 2 else 3)
         else if d.r == 1 then (if d.c == 1 then 4 else 5)
         else (if d.c == 1 then 6 else 7);
  }

  /** One of the eight steps: horizontal, vertical or diagonal. */
  predicate Adjacent(p: Point, q: Point) {
    p != q && Abs(p.r - q.r) <= 1 && Abs(p.c - q.c) <= 1
  }

  /** The cells of row `r`, and of the first `rows` rows, of a grid with `cols` columns. */
  ghost function Row(r: nat, cols: nat): (row: set<Point>)
    ensures forall p :: p in row <==> p.r == r && 0 <= p.c < cols
    ensures |row| == cols
  {
    if cols == 0 then {} else Row(r, cols - 1) + {Point(r, cols - 1)}
  }

  ghost function Cells(rows: nat, cols: nat): (cells: set<Point>)
    ensures forall p :: p in cells <==> 0 <= p.r < rows && 0 <= p.c < cols
    ensures |cells| == rows * cols
  {
    if rows == 0 then {} else
      assert Cells(rows - 1, cols) !! Row(rows - 1, cols);
      assert (rows - 1) * cols + cols == rows * cols;
      Cells(rows - 1, cols) + Row(rows - 1, cols)
  }
}
