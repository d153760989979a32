/** The vehicle's local occupancy grid: a MAP_MAX x MAP_MAX field of cells, allocated
    zeroed once at start-up, cleared in place at the start of every control cycle and
    then marked by the sensor producers. The vehicle sits at a fixed cell of it. */
module OccupancyGrid {

  /** Side length of the square grid, in cells. */
  const MAP_MAX: int := 1000

  /** A cell position (the source's CvPoint). */
  datatype Point = Point(x: int, y: int)

  predicate InGrid(p: Point) {
    0 <= p.x < MAP_MAX && 0 <= p.y < MAP_MAX
  }

  /** C's conversion of a double to int: truncation toward zero. */
  function Trunc(r: real): (n: int)
    ensures r >= 0.0 ==> 0 <= n && n as real <= r < n as real + 1.0
    ensures r < 0.0 ==> n <= 0 && n as real - 1.0 < r <= n as real
  {
    if r >= 0.0 then r.Floor else -((-r).Floor)
  }

  /** The vehicle's cell, fixed for the lifetime of the run: (0.5 MAP_MAX, 0.1 MAP_MAX). */
  function BotLocation(): (p: Point)
    ensures p == Point(500, 100) && InGrid(p)
  {
    Point(Trunc(0.5 * MAP_MAX as real), Trunc(0.1 * MAP_MAX as real))
  }

  /** One write a sensor producer makes into the grid. */
  datatype CellWrite = CellWrite(row: int, col: int, value: int)

  /** The value of cell (i, j) after the writes `ws`, in order, over a cell that held `under`. */
  function Overlay(ws: seq<CellWrite>, i: int, j: int, under: int): (v: int)
    ensures (forall k :: 0 <= k < |ws| ==> ws[k].row != i || ws[k].col != j) ==> v == under
    ensures (exists k :: 0 <= k < |ws| && ws[k].row == i && ws[k].col == j) ==>
      exists k :: 0 <= k < |ws| && ws[k] == CellWrite(i, j, v) &&
        forall m :: k < m < |ws| ==> ws[m].row != i || ws[m].col != j
  {
    if ws == [] then under
    else
      var w := ws[|ws| - 1];
      if w.row == i && w.col == j then w.value
      else
        var front := ws[..|ws| - 1];
        var v := Overlay(front, i, j, under);
        assert (exists k :: 0 <= k < |ws| && ws[k].row == i && ws[k].col == j) ==>
          exists k :: 0 <= k < |ws| && ws[k] == CellWrite(i, j, v) &&
            forall m :: k < m < |ws| ==> ws[m].row != i || ws[m].col != j
        by {
          if exists k :: 0 <= k < |ws| && ws[k].row == i && ws[k].col == j {
            var k0 :| 0 <= k0 < |ws| && ws[k0].row == i && ws[k0].col == j;
            assert front[k0].row == i && front[k0].col == j;
            var k :| 0 <= k < |front| && front[k] == CellWrite(i, j, v) &&
              forall m :: k < m < |front| ==> front[m].row != i || front[m].col != j;
            assert ws[k] == CellWrite(i, j, v);
            forall m | k < m < |ws|
              ensures ws[m].row != i || ws[m].col != j
            {
              if m < |front| {
                assert ws[m] == front[m];
              }
            }
          }
        }
        v
  }

  /** The grid itself: an array of MAP_MAX row references, each to its own row of MAP_MAX cells. */
  class Grid {
    var rows: array<array?<int>>
    ghost var Repr: set<object>

    ghost predicate Valid()
      reads this, Repr
    {
      this in Repr && rows in Repr && rows.Length == MAP_MAX &&
      (forall i :: 0 <= i < MAP_MAX ==> rows[i] != null && rows[i] in Repr && rows[i].Length == MAP_MAX) &&
      (forall i, k :: 0 <= i < k < MAP_MAX ==> rows[i] != rows[k])
    }

    /** The content of cell (i, j). */
    function At(i: int, j: int): (v: int)
      reads this, Repr
      requires Valid()
      requires 0 <= i < MAP_MAX && 0 <= j < MAP_MAX
    {
      rows[i][j]
    }

    /** Every cell is free. */
    ghost predicate AllFree()
      reads this, Repr
      requires Valid()
    {
      forall i, j :: 0 <= i < MAP_MAX && 0 <= j < MAP_MAX ==> At(i, j) == 0
    }

    /** Allocation at start-up: one array of row references, then a zeroed row per entry. */
    constructor ()
      ensures Valid() && fresh(Repr) && AllFree()
    {
      var r := new array?<int>[MAP_MAX](_ => null);
      ghost var made: set<object> := {};
      var i := 0;
      while i < MAP_MAX
        invariant 0 <= i <= MAP_MAX
        invariant fresh(made) && r !in made
        invariant forall k :: 0 <= k < i ==> r[k] != null && r[k] in made && r[k].Length == MAP_MAX
        invariant forall k, l :: 0 <= k < i && 0 <= l < MAP_MAX ==> r[k][l] == 0
        invariant forall k, m :: 0 <= k < m < i ==> r[k] != r[m]
      {
        var row := new int[MAP_MAX](_ => 0);
        r[i] := row;
        made := made + {row};
        i := i + 1;
      }
      rows := r;
      new;
      Repr := {this, r} + made;
    }

    /** Clears every cell in place, whatever it held before. */
    method Refresh()
      requires Valid()
      modifies Repr
      ensures Valid() && rows == old(rows) && Repr == old(Repr)
      ensures AllFree()
    {
      var i := 0;
      while i < MAP_MAX
        invariant 0 <= i <= MAP_MAX
        invariant Valid() && rows == old(rows) && Repr == old(Repr)
        invariant forall k, l :: 0 <= k < i && 0 <= l < MAP_MAX ==> rows[k][l] == 0
      {
        var row := rows[i];
        var j := 0;
        while j < MAP_MAX
          invariant 0 <= j <= MAP_MAX
          invariant forall l :: 0 <= l < j ==> row[l] == 0
          modifies row
        {
          row[j] := 0;
          j := j + 1;
        }
        i := i + 1;
      }
    }

    /** One producer write; a position outside the grid changes nothing. */
    method Mark(w: CellWrite)
      requires Valid()
      modifies Repr
      ensures Valid() && rows == old(rows) && Repr == old(Repr)
      ensures forall i, j :: 0 <= i < MAP_MAX && 0 <= j < MAP_MAX ==>
        At(i, j) == if w.row == i && w.col == j then w.value else old(At(i, j))
    {
      if 0 <= w.row < MAP_MAX && 0 <= w.col < MAP_MAX {
        rows[w.row][w.col] := w.value;
      }
    }

    /** The writes of one cycle's producers, in order. */
    method Paint(ws: seq<CellWrite>)
      requires Valid()
      modifies Repr
      ensures Valid() && rows == old(rows) && Repr == old(Repr)
      ensures forall i, j :: 0 <= i < MAP_MAX && 0 <= j < MAP_MAX ==>
        At(i, j) == Overlay(ws, i, j, old(At(i, j)))
    {
      var k := 0;
      while k < |ws|
        invariant 0 <= k <= |ws|
        invariant Valid() && rows == old(rows) && Repr == old(Repr)
        invariant forall i, j :: 0 <= i < MAP_MAX && 0 <= j < MAP_MAX ==>
          At(i, j) == Overlay(ws[..k], i, j, old(At(i, j)))
      {
        Mark(ws[k]);
        assert ws[..k + 1][..k] == ws[..k];
        k := k + 1;
      }
      assert ws[..|ws|] == ws;
    }
  }
}
