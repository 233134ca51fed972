/**
 * The grid: `Map`, `MapCell` and `Positional.set_pos` (core.py:272-380).
 *
 * A map is an array of lazily created cells. A cell keeps the units inside it and two
 * listener lists; listeners are named by numbers and a call of a listener is recorded in
 * the cell's `fired` trace instead of running a callback.
 */
module Grid {

  import opened Util
  import opened Units

  /** Where a lookup with indices (i, j) lands in the flat cell array. */
  datatype Place = Slot(index: nat) | Outside | Overflow

  /**
   * `Map.__getitem__` computes `i * row + j`, with stride `row`, and rejects only indices
   * below 0 or above the length; the index equal to the length raises an IndexError.
   */
  function PlaceOf(row: int, len: nat, i: int, j: int): (p: Place)
    ensures p.Slot? <==> 0 <= i * row + j < len
    ensures p.Slot? ==> p.index == i * row + j
    ensures p == Overflow <==> i * row + j == len
  {
    var index := i * row + j;
    if index < 0 || index > len then Outside
    else if index == len then Overflow
    else Slot(index)
  }

  /** On a map with at least as many columns as rows every in-bounds point has a slot. */
  lemma WideMapHasSlots(row: int, col: int, i: int, j: int)
    requires 0 <= i < row && 0 <= j < col && row <= col
    ensures PlaceOf(row, row * col, i, j).Slot?
  {
    assert i * row <= (row - 1) * row;
    assert (row - 1) * row + col - 1 < row * col by {
      assert (row - 1) * (row - col) <= 0;
    }
  }

  /** Row-major order: with columns in [0, n), an earlier row has smaller flat indices. */
  lemma RowOrder(n: int, i1: int, j1: int, i2: int, j2: int)
    requires 0 <= j1 < n && 0 <= j2 < n
    ensures i1 < i2 ==> i1 * n + j1 < i2 * n + j2
  {
    if i1 < i2 {
      assert (i1 + 1) * n <= i2 * n;
    }
  }

  /** On a square map distinct in-bounds points land in distinct slots. */
  lemma SquareMapDistinct(n: int, i1: int, j1: int, i2: int, j2: int)
    requires 0 <= i1 < n && 0 <= j1 < n && 0 <= i2 < n && 0 <= j2 < n
    requires PlaceOf(n, n * n, i1, j1) == PlaceOf(n, n * n, i2, j2)
    ensures i1 == i2 && j1 == j2
  {
    WideMapHasSlots(n, n, i1, j1);
    RowOrder(n, i1, j1, i2, j2);
    RowOrder(n, i2, j2, i1, j1);
  }

  /** With more columns than rows, the point (row, 0) and the point (0, 1) share a slot. */
  lemma WideMapCollides(row: int, col: int)
    requires 0 < row < col
    ensures PlaceOf(row, row * col, 0, row) == PlaceOf(row, row * col, 1, 0)
  {
    assert row < row * col by {
      assert row * 1 < row * col;
    }
  }

  /** With more rows than columns the in-bounds point (col, 0) raises and (col, 1) is rejected. */
  lemma TallMapOverflows(row: int, col: int)
    requires 1 < col < row
    ensures PlaceOf(row, row * col, col, 0) == Overflow
    ensures PlaceOf(row, row * col, col, 1) == Outside
  {
  }

  /** The result of a lookup: a cell, `None`, or the IndexError of `__getitem__`. */
  datatype Lookup = Found(cell: MapCell) | Absent | Raised

  datatype Move = Enter | Exit

  /** One call of a listener: which listener, with which unit and cell, on which move. */
  datatype Firing = Firing(listener: nat, unit: Unit, cell: MapCell, move: Move)

  /** The calls made by `for each in listeners: each(unit, cell)`. */
  function Notify(lst: PList<nat>, unit: Unit, cell: MapCell, move: Move): seq<Firing>
  {
    match lst
    case PNil => []
    case PCons(h, t) => [Firing(h, unit, cell, move)] + Notify(t, unit, cell, move)
  }

  /** Listeners are called once each, in the order of the list. */
  lemma {:induction false} NotifyFollowsList(lst: PList<nat>, unit: Unit, cell: MapCell, move: Move)
    ensures |Notify(lst, unit, cell, move)| == |Elements(lst)|
    ensures forall k :: 0 <= k < |Elements(lst)| ==>
      Notify(lst, unit, cell, move)[k] == Firing(Elements(lst)[k], unit, cell, move)
  {
    match lst
    case PNil =>
    case PCons(h, t) =>
      NotifyFollowsList(t, unit, cell, move);
  }

  function Reversed<T>(s: seq<T>): seq<T>
  {
    if s == [] then [] else Reversed(s[1..]) + [s[0]]
  }

  /** Registering the listeners `ls[0]`, `ls[1]`, ... one after the other. */
  function RegisterAll(ls: seq<nat>, lst: PList<nat>): PList<nat>
    decreases |ls|
  {
    if ls == [] then lst else RegisterAll(ls[1..], Cons(ls[0], lst))
  }

  /** Registration conses onto the front, so listeners run in reverse registration order. */
  lemma {:induction false} RegisterAllReverses(ls: seq<nat>, lst: PList<nat>)
    ensures Elements(RegisterAll(ls, lst)) == Reversed(ls) + Elements(lst)
  {
    if ls != [] {
      RegisterAllReverses(ls[1..], Cons(ls[0], lst));
      Assoc(Reversed(ls[1..]), [ls[0]], Elements(lst));
    }
  }

  class MapCell {
    const x: int
    const y: int
    const grid: Map
    var passConsumption: int
    var units: set<Unit>
    var enterListeners: PList<nat>
    var exitListeners: PList<nat>
    /** The listener calls made so far on this cell, oldest first. */
    var fired: seq<Firing>

    constructor (y: int, x: int, grid: Map)
      ensures this.y == y && this.x == x && this.grid == grid && passConsumption == 1
      ensures units == {} && enterListeners == PNil && exitListeners == PNil && fired == []
    {
      this.x := x;
      this.y := y;
      this.grid := grid;
      passConsumption := 1;
      units := {};
      enterListeners := PNil;
      exitListeners := PNil;
      fired := [];
    }

    method RegisterLeaveEvents(listener: nat)
      modifies this`exitListeners
      ensures exitListeners == Cons(listener, old(exitListeners))
    {
      exitListeners := Cons(listener, exitListeners);
    }

    method RegisterEnterEvents(listener: nat)
      modifies this`enterListeners
      ensures enterListeners == Cons(listener, old(enterListeners))
    {
      enterListeners := Cons(listener, enterListeners);
    }

    /** `unsafe_left_by`: only a unit inside the cell leaves it, and only then are the exit listeners called. */
    method UnsafeLeftBy(unit: Unit, cell: MapCell)
      modifies this`units, this`fired
      ensures units == old(units) - {unit}
      ensures fired == old(fired) + if unit in old(units) then Notify(exitListeners, unit, cell, Exit) else []
    {
      if unit in units {
        units := units - {unit};
        fired := CallAll(fired, exitListeners, unit, cell, Exit);
      } else {
        EmptySuffix(fired);
      }
    }

    /** `unsafe_entered_by`: only a unit outside the cell enters it, and only then are the enter listeners called. */
    method UnsafeEnteredBy(unit: Unit, cell: MapCell)
      modifies this`units, this`fired
      ensures units == old(units) + {unit}
      ensures fired == old(fired) + if unit !in old(units) then Notify(enterListeners, unit, cell, Enter) else []
    {
      if unit !in units {
        units := units + {unit};
        fired := CallAll(fired, enterListeners, unit, cell, Enter);
      } else {
        EmptySuffix(fired);
      }
    }
  }

  /** The listener loop: each listener of the list is called in turn and its call recorded. */
  method CallAll(trace: seq<Firing>, listeners: PList<nat>, unit: Unit, cell: MapCell, move: Move)
    returns (r: seq<Firing>)
    ensures r == trace + Notify(listeners, unit, cell, move)
  {
    r := trace;
    var rest := listeners;
    EmptySuffix(trace);
    while rest.PCons?
      invariant r + Notify(rest, unit, cell, move) == trace + Notify(listeners, unit, cell, move)
      decreases rest
    {
      Assoc(r, [Firing(rest.head, unit, cell, move)], Notify(rest.tail, unit, cell, move));
      r := r + [Firing(rest.head, unit, cell, move)];
      rest := rest.tail;
    }
    EmptySuffix(r);
  }

  /** The centre and the rounded-up radius of `find_cells_within_circle`. */
  datatype Circle = Circle(i: int, j: int, r: int)

  /** `find_cells_within_circle` compares with the rounded-up radius: radius 1.5 reaches distance 2. */
  lemma CeilWidensCircle()
    ensures Ceil(1.5) == 2
    ensures 2 * 2 <= Ceil(1.5) * Ceil(1.5) && 2.0 * 2.0 > 1.5 * 1.5
  {
  }

  lemma SquareMonotone(a: int, b: int)
    requires 0 <= a <= b
    ensures a * a <= b * b
    ensures a < b ==> a * a < b * b
  {
    assert a * a <= a * b <= b * b;
  }

  /** For r >= 0, d * d <= r * r exactly when d lies in [-r, r]. */
  lemma SquareBound(d: int, r: int)
    requires 0 <= r
    ensures d * d <= r * r <==> -r <= d <= r
  {
    if d >= 0 {
      if d <= r { SquareMonotone(d, r); } else { SquareMonotone(r, d); }
    } else {
      assert d * d == (-d) * (-d);
      if -d <= r { SquareMonotone(-d, r); } else { SquareMonotone(r, -d); }
    }
  }

  /** A point within distance r of the centre lies in the square of side 2r + 1 around it. */
  lemma WithinSquares(di: int, dj: int, r: int)
    requires 0 <= r && di * di + dj * dj <= r * r
    ensures -r <= di <= r && -r <= dj <= r
  {
    SquareBound(di, r);
    SquareBound(dj, r);
    SquareMonotone(0, if di < 0 then -di else di);
    SquareMonotone(0, if dj < 0 then -dj else dj);
    assert di * di == (if di < 0 then -di else di) * (if di < 0 then -di else di);
    assert dj * dj == (if dj < 0 then -dj else dj) * (if dj < 0 then -dj else dj);
  }

  class Map {
    const row: int
    const col: int
    const name: string
    const cells: array<MapCell?>

    /** `Map(row, col, name)`: `row * col` empty slots, none for a non-positive product. */
    constructor (row: int, col: int, name: string)
      ensures this.row == row && this.col == col && this.name == name
      ensures cells.Length == if row * col > 0 then row * col else 0
      ensures fresh(cells) && forall k :: 0 <= k < cells.Length ==> cells[k] == null
      ensures Valid()
    {
      this.row := row;
      this.col := col;
      this.name := name;
      cells := new MapCell?[if row * col > 0 then row * col else 0](_ => null);
    }

    /** Every created cell belongs to this map and its coordinates index its own slot. */
    ghost predicate Valid()
      reads cells
    {
      forall k :: 0 <= k < cells.Length && cells[k] != null ==>
        cells[k].grid == this && cells[k].y * row + cells[k].x == k
    }

    /** The cells created so far. */
    function Occupied(): set<MapCell>
      reads cells
    {
      set k | 0 <= k < cells.Length && cells[k] != null :: cells[k]
    }

    function Place(i: int, j: int): Place
    {
      PlaceOf(row, cells.Length, i, j)
    }

    /** A lookup never replaces a created cell, and the cells it creates are new. */
    twostate predicate Kept()
      reads cells
    {
      forall k :: 0 <= k < cells.Length ==>
        (old(cells[k]) != null ==> cells[k] == old(cells[k])) && (cells[k] != null ==> old(cells[k]) != null || fresh(cells[k]))
    }

    /**
     * `__getitem__`: the cell of the slot, created on first access; `None` outside the
     * array and an IndexError at the index equal to its length.
     */
    method Get(i: int, j: int) returns (r: Lookup)
      requires Valid()
      modifies cells
      ensures Valid() && Kept()
      ensures Place(i, j) == Outside ==> r == Absent
      ensures Place(i, j) == Overflow ==> r == Raised
      ensures Place(i, j).Slot? ==> r.Found? && r.cell == cells[Place(i, j).index]
      ensures r.Found? ==> (r.cell in old(Occupied()) || (fresh(r.cell) && r.cell.units == {} && r.cell.fired == []
        && r.cell.enterListeners == PNil && r.cell.exitListeners == PNil))
      ensures forall k :: 0 <= k < cells.Length && (!Place(i, j).Slot? || k != Place(i, j).index) ==> cells[k] == old(cells[k])
    {
      var index := i * row + j;
      if index < 0 || index > cells.Length {
        return Absent;
      }
      if index == cells.Length {
        return Raised;
      }
      var cell := cells[index];
      if cell == null {
        cell := new MapCell(i, j, this);
        cells[index] := cell;
      }
      return Found(cell);
    }

    predicate InBounds(x: int, y: int)
    {
      0 <= y < row && 0 <= x < col
    }

    /** Where `find_cell_at_point(x, y)` looks: row y, column x, and only inside the bounds. */
    function Area(x: int, y: int): Place
    {
      if InBounds(x, y) then Place(y, x) else Outside
    }

    /** `find_cell_at_point`: a lookup of row y and column x, for in-bounds points only. */
    method FindCellAtPoint(x: int, y: int) returns (r: Lookup)
      requires Valid()
      modifies cells
      ensures Valid() && Kept()
      ensures Area(x, y) == Outside ==> r == Absent
      ensures Area(x, y) == Overflow ==> r == Raised
      ensures Area(x, y).Slot? ==> r.Found? && r.cell == cells[Area(x, y).index]
      ensures r.Found? ==> (r.cell in old(Occupied()) || (fresh(r.cell) && r.cell.units == {} && r.cell.fired == []
        && r.cell.enterListeners == PNil && r.cell.exitListeners == PNil))
      ensures forall k :: 0 <= k < cells.Length && (!Area(x, y).Slot? || k != Area(x, y).index) ==> cells[k] == old(cells[k])
    {
      var i := y;
      var j := x;
      if 0 <= i < row && 0 <= j < col {
        r := Get(i, j);
        return;
      }
      return Absent;
    }

    /**
     * The two lookups of `set_pos`, old position first; when the first raises the second
     * is not made.
     */
    method FindCellsAtPoints(x0: int, y0: int, x: int, y: int) returns (a: Lookup, b: Lookup)
      requires Valid()
      modifies cells
      ensures Valid() && Kept() && old(Occupied()) <= Occupied()
      ensures Area(x0, y0) == Outside ==> a == Absent
      ensures Area(x0, y0) == Overflow ==> a == Raised && b == Raised
      ensures Area(x0, y0).Slot? ==> a.Found? && a.cell == cells[Area(x0, y0).index]
      ensures a != Raised ==>
        && (Area(x, y) == Outside ==> b == Absent)
        && (Area(x, y) == Overflow ==> b == Raised)
        && (Area(x, y).Slot? ==> b.Found? && b.cell == cells[Area(x, y).index])
      ensures a.Found? ==> (a.cell in old(Occupied()) || (fresh(a.cell) && a.cell.units == {} && a.cell.fired == []))
      ensures b.Found? ==> (b.cell in old(Occupied()) || (fresh(b.cell) && b.cell.units == {} && b.cell.fired == []
        && b.cell.enterListeners == PNil))
    {
      a := FindCellAtPoint(x0, y0);
      if a == Raised {
        return a, Raised;
      }
      b := FindCellAtPoint(x, y);
      assert Kept();
    }

    /** On a map with at least as many columns as rows, a point has a cell iff it is in bounds. */
    lemma WideMapArea(x: int, y: int)
      requires row <= col && cells.Length == row * col
      ensures Area(x, y).Slot? <==> InBounds(x, y)
    {
      if InBounds(x, y) {
        WideMapHasSlots(row, col, y, x);
      }
    }

    /** Row k comes off the front of the rows from k on. */
    lemma DiskStep(c: Circle, k: int, before: seq<(int, int)>, pts: seq<(int, int)>)
      requires k <= c.i + c.r && before + DiskPoints(c, k) == pts
      ensures pts == (before + RowPoints(c, k, c.j - c.r)) + DiskPoints(c, k + 1)
    {
      Assoc(before, RowPoints(c, k, c.j - c.r), DiskPoints(c, k + 1));
    }

    static lemma PrefixAt<T>(line: seq<T>, rest: seq<T>, seen: seq<T>)
      requires |seen| < |line| && line[..|seen|] == seen
      ensures (line + rest)[..|seen|] == seen && (line + rest)[|seen|] == line[|seen|]
    {
      assert (line + rest)[..|seen|] == line[..|seen|];
    }

    /** The points of row k from column l on, in the order of the inner loop. */
    function RowPoints(c: Circle, k: int, l: int): seq<(int, int)>
      decreases c.j + c.r + 1 - l
    {
      if l > c.j + c.r then []
      else (if Inside(c, k, l) then [(k, l)] else []) + RowPoints(c, k, l + 1)
    }

    /** The points of rows k and after, in the order of the outer loop. */
    function DiskPoints(c: Circle, k: int): seq<(int, int)>
      decreases c.i + c.r + 1 - k
    {
      if k > c.i + c.r then [] else RowPoints(c, k, c.j - c.r) + DiskPoints(c, k + 1)
    }

    /** The test of the loop body: in bounds and within the rounded radius. */
    predicate Inside(c: Circle, k: int, l: int)
    {
      0 <= k < row && 0 <= l < col && (k - c.i) * (k - c.i) + (l - c.j) * (l - c.j) <= c.r * c.r
    }

    lemma {:induction false} RowPointsMembers(c: Circle, k: int, l: int, p: (int, int))
      ensures p in RowPoints(c, k, l) <==> p.0 == k && l <= p.1 <= c.j + c.r && Inside(c, p.0, p.1)
      decreases c.j + c.r + 1 - l
    {
      if l <= c.j + c.r {
        RowPointsMembers(c, k, l + 1, p);
      }
    }

    lemma {:induction false} DiskPointsMembers(c: Circle, k: int, p: (int, int))
      ensures p in DiskPoints(c, k) <==>
        k <= p.0 <= c.i + c.r && c.j - c.r <= p.1 <= c.j + c.r && Inside(c, p.0, p.1)
      decreases c.i + c.r + 1 - k
    {
      if k <= c.i + c.r {
        RowPointsMembers(c, k, c.j - c.r, p);
        DiskPointsMembers(c, k + 1, p);
      }
    }

    /**
     * The points visited are exactly the in-bounds points within the rounded-up radius of
     * the centre (row y, column x).
     */
    lemma CirclePointsExact(c: Circle, p: (int, int))
      requires c.r >= 0
      ensures p in DiskPoints(c, c.i - c.r) <==> Inside(c, p.0, p.1)
    {
      DiskPointsMembers(c, c.i - c.r, p);
      if Inside(c, p.0, p.1) {
        WithinSquares(p.0 - c.i, p.1 - c.j, c.r);
      }
    }

    /** The cells listed so far are those of the slots of the points visited so far. */
    ghost predicate Lists(seen: seq<(int, int)>, found: seq<MapCell>)
      reads cells
    {
      && |found| == |seen|
      && forall n :: 0 <= n < |seen| ==>
           Place(seen[n].0, seen[n].1).Slot? && found[n] == cells[Place(seen[n].0, seen[n].1).index]
    }

    /**
     * `find_cells_within_circle`: the cells of the visited points, in visiting order. When a
     * visited point has no slot the generator fails there (IndexError or the `assert`), after
     * yielding the cells before it; `failed` reports that.
     */
    method FindCellsWithinCircle(x: int, y: int, radius: real) returns (found: seq<MapCell>, failed: bool)
      requires Valid()
      modifies cells
      ensures Valid() && Kept()
      ensures Scanned(DiskPoints(Circle(y, x, Ceil(radius)), y - Ceil(radius)), found, failed)
    {
      var i := y;
      var j := x;
      var r := Ceil(radius);
      var c := Circle(i, j, r);
      ghost var pts := DiskPoints(c, i - r);
      ghost var seen: seq<(int, int)> := [];
      found, failed := [], false;
      var k := i - r;
      EmptyPrefix(pts);
      while k <= i + r
        invariant Valid() && Kept()
        invariant seen + DiskPoints(c, k) == pts
        invariant Lists(seen, found)
        decreases i + r + 1 - k
      {
        DiskStep(c, k, seen, pts);
        ghost var line := seen + RowPoints(c, k, j - r);
        seen, found, failed := ScanRow(c, k, seen, found);
        if failed {
          PrefixAt(line, DiskPoints(c, k + 1), seen);
          Listed(pts, seen, found, failed);
          return;
        }
        k := k + 1;
      }
      assert DiskPoints(c, k) == [];
      EmptySuffix(seen);
      Listed(pts, seen, found, failed);
    }

    /**
     * The outcome of a scan over the points `pts`: the cells of the points in order, and a
     * failure exactly when the scan stopped early, at a point without a slot.
     */
    ghost predicate Scanned(pts: seq<(int, int)>, found: seq<MapCell>, failed: bool)
      reads cells
    {
      && |found| <= |pts|
      && (failed <==> |found| < |pts|)
      && (failed ==> !Place(pts[|found|].0, pts[|found|].1).Slot?)
      && forall n :: 0 <= n < |found| ==>
           Place(pts[n].0, pts[n].1).Slot? && found[n] == cells[Place(pts[n].0, pts[n].1).index]
    }

    /** The cells listed for a prefix of the points, read against the whole sequence of points. */
    lemma Listed(pts: seq<(int, int)>, seen: seq<(int, int)>, found: seq<MapCell>, failed: bool)
      requires Lists(seen, found) && |seen| <= |pts| && pts[..|seen|] == seen
      requires failed <==> |seen| < |pts|
      requires failed ==> !Place(pts[|seen|].0, pts[|seen|].1).Slot?
      ensures Scanned(pts, found, failed)
    {
      forall n | 0 <= n < |found|
        ensures pts[n] == seen[n]
      {
        assert pts[..|seen|][n] == pts[n];
      }
    }

    /**
     * The inner loop of `find_cells_within_circle` over row k: the cells of the row's visited
     * points are appended, up to the first visited point without a slot.
     */
    method ScanRow(c: Circle, k: int, ghost seen0: seq<(int, int)>, found0: seq<MapCell>)
      returns (ghost seen: seq<(int, int)>, found: seq<MapCell>, failed: bool)
      requires Valid() && Lists(seen0, found0)
      modifies cells
      ensures Valid() && Kept() && Lists(seen, found)
      ensures !failed ==> seen == seen0 + RowPoints(c, k, c.j - c.r)
      ensures failed ==>
        var line := seen0 + RowPoints(c, k, c.j - c.r);
        |seen| < |line| && line[..|seen|] == seen && !Place(line[|seen|].0, line[|seen|].1).Slot?
    {
      var l := c.j - c.r;
      seen, found, failed := seen0, found0, false;
      ghost var line := seen0 + RowPoints(c, k, l);
      while l <= c.j + c.r
        invariant Valid() && Kept() && Lists(seen, found)
        invariant seen + RowPoints(c, k, l) == line
        decreases c.j + c.r + 1 - l
      {
        if 0 <= k < row && 0 <= l < col && (k - c.i) * (k - c.i) + (l - c.j) * (l - c.j) <= c.r * c.r {
          assert RowPoints(c, k, l) == [(k, l)] + RowPoints(c, k, l + 1);
          Assoc(seen, [(k, l)], RowPoints(c, k, l + 1));
          assert line[|seen|] == (k, l) && line[..|seen|] == seen;
          var cell := Get(k, l);
          if !cell.Found? {
            failed := true;
            return;
          }
          found := found + [cell.cell];
          seen := seen + [(k, l)];
        } else {
          assert RowPoints(c, k, l) == RowPoints(c, k, l + 1);
        }
        l := l + 1;
      }
      assert RowPoints(c, k, l) == [];
      EmptySuffix(seen);
    }
  }

  /** The `Positional` component of a unit. Its position starts at (-1, -1). */
  class Positional {
    var grid: Map
    const unit: Unit
    var X: int
    var Y: int

    constructor (grid: Map, unit: Unit)
      ensures this.grid == grid && this.unit == unit && X == -1 && Y == -1
    {
      this.grid := grid;
      this.unit := unit;
      X := -1;
      Y := -1;
    }

    /** `loc`: note that it looks up `map[X, Y]`, row X and column Y, without a bounds test. */
    method Loc() returns (r: Lookup)
      requires grid.Valid()
      modifies grid.cells
      ensures grid.Valid() && grid.Kept()
      ensures grid.Place(X, Y) == Outside ==> r == Absent
      ensures grid.Place(X, Y) == Overflow ==> r == Raised
      ensures grid.Place(X, Y).Slot? ==> r.Found? && r.cell == grid.cells[grid.Place(X, Y).index]
    {
      r := grid.Get(X, Y);
    }

    /** The map that `set_pos` moves on: the given one, else the current one. */
    function Target(newMap: Map?): Map
      reads this
    {
      if newMap != null then newMap else grid
    }

    /**
     * `set_pos`: the new map is assigned first and both the old and the new position are
     * looked up on it. Only when the two lookups give different cells does the old cell
     * see the unit leave and the new one see it enter. An IndexError from either lookup
     * leaves the position as it was. `before` is the lookup of the old position.
     */
    method SetPos(x: int, y: int, newMap: Map?) returns (r: Lookup, ghost before: Lookup)
      requires Target(newMap).Valid()
      modifies this, Target(newMap).cells, Target(newMap).Occupied()
      ensures grid == old(Target(newMap)) && grid.Kept()
      ensures Moved(grid, old(X), old(Y), x, y, r, before)
      ensures Fired(unit, old(Target(newMap).Occupied()), r, before)
    {
      var m := if newMap != null then newMap else grid;
      grid := m;
      r, before := MoveOn(m, x, y);
    }

    /** The position and the lookups after a `set_pos` from (x0, y0) to (x, y) on `m`. */
    ghost predicate Moved(m: Map, x0: int, y0: int, x: int, y: int, r: Lookup, before: Lookup)
      reads this, m.cells
    {
      && m.Valid()
      && (before == Raised || r == Raised ==> X == x0 && Y == y0)
      && (before != Raised && r != Raised ==> X == x && Y == y)
      && (m.Area(x0, y0) == Outside ==> before == Absent)
      && (m.Area(x0, y0) == Overflow ==> before == Raised)
      && (m.Area(x0, y0).Slot? ==> before.Found? && before.cell == m.cells[m.Area(x0, y0).index])
      && (before != Raised ==>
        && (m.Area(x, y) == Outside ==> r == Absent)
        && (m.Area(x, y) == Overflow ==> r == Raised)
        && (m.Area(x, y).Slot? ==> r.Found? && r.cell == m.cells[m.Area(x, y).index]))
    }

    /** `set_pos` once the map is chosen. */
    method MoveOn(m: Map, x: int, y: int) returns (r: Lookup, ghost before: Lookup)
      requires m.Valid()
      modifies this`X, this`Y, m.cells, m.Occupied()
      ensures m.Kept()
      ensures Moved(m, old(X), old(Y), x, y, r, before)
      ensures Fired(unit, old(m.Occupied()), r, before)
    {
      var oldArea;
      oldArea, r := m.FindCellsAtPoints(X, Y, x, y);
      before := oldArea;
      if oldArea == Raised || r == Raised {
        return;
      }
      X := x;
      Y := y;
      if oldArea != r {
        Relocate(unit, oldArea, r, old(m.Occupied()));
      }
    }
  }

  function CellsOf(a: Lookup, b: Lookup): set<MapCell>
  {
    (if a.Found? then {a.cell} else {}) + (if b.Found? then {b.cell} else {})
  }

  /**
   * What the cells saw in a `set_pos` whose lookups gave `before` and `r`: when the lookups
   * differ the old cell lost the unit and the new one gained it, each calling its listeners
   * only if its membership changed; no other cell changed, and no listener list changed.
   */
  twostate predicate Fired(unit: Unit, cells: set<MapCell>, new r: Lookup, new before: Lookup)
    reads cells, CellsOf(r, before)
  {
    && (forall c :: c in cells ==> c.enterListeners == old(c.enterListeners) && c.exitListeners == old(c.exitListeners))
    && (forall c :: c in cells && (r == Raised || before == r || (Found(c) != before && Found(c) != r)) ==>
         c.units == old(c.units) && c.fired == old(c.fired))
    && (r != Raised && before != r && before.Found? && before.cell in cells ==>
         var c := before.cell;
         c.units == old(c.units) - {unit} &&
         c.fired == old(c.fired) + if unit in old(c.units) then Notify(c.exitListeners, unit, c, Exit) else [])
    && (r != Raised && before != r && r.Found? && r.cell in cells ==>
         var c := r.cell;
         c.units == old(c.units) + {unit} &&
         c.fired == old(c.fired) + if unit !in old(c.units) then Notify(c.enterListeners, unit, c, Enter) else [])
    && (r.Found? && r.cell !in cells ==> r.cell.fired == [] && r.cell.units == if before != r then {unit} else {})
  }

  /** The branch of `set_pos` taken when the cells differ: leave the old one, enter the new one. */
  method Relocate(unit: Unit, from: Lookup, to: Lookup, ghost cells: set<MapCell>)
    requires from != to && to != Raised
    requires to.Found? && to.cell !in cells ==> to.cell.fired == [] && to.cell.units == {} && to.cell.enterListeners == PNil
    modifies CellsOf(from, to)
    ensures Fired(unit, cells, to, from)
  {
    if from.Found? {
      from.cell.UnsafeLeftBy(unit, from.cell);
    }
    if to.Found? {
      to.cell.UnsafeEnteredBy(unit, to.cell);
    }
  }

  /** The cell at row 4, column 2 of a 100 by 100 map, slot 4 * 100 + 2. */
  const Slot42: nat := 402

  /**
   * The scenario of the map test: on a 100 by 100 map a unit placed at (-1, -1) has no
   * cell (`loc` gives None); moving it to (2, 4) and then to (10, 10) calls the enter listener and then the
   * leave listener registered on the cell at (2, 4), each once.
   */
  method EnterThenLeave(u: Unit) returns (here: Lookup, trace: seq<Firing>, cell: MapCell)
    ensures here == Absent
    ensures trace == [Firing(0, u, cell, Enter), Firing(1, u, cell, Exit)]
  {
    var m, pos;
    m, cell, pos := Placed(u);
    here := pos.Loc();
    ArriveThenLeave(m, cell, pos);
    trace := cell.fired;
  }

  /** The test's set-up: the listeners are registered and the unit is placed at (-1, -1). */
  method Placed(u: Unit) returns (m: Map, cell: MapCell, pos: Positional)
    ensures fresh(m) && fresh(m.cells) && fresh(pos) && m.Valid()
    ensures m.row == 100 && m.col == 100 && m.cells.Length == 10000
    ensures pos.grid == m && pos.unit == u && pos.X == -1 && pos.Y == -1
    ensures m.cells[Slot42] == cell && cell.units == {} && cell.fired == []
    ensures cell.enterListeners == PCons(0, PNil) && cell.exitListeners == PCons(1, PNil)
  {
    m, cell := Listening();
    pos := new Positional(m, u);
    assert cell in m.Occupied();
    var r, before := pos.SetPos(-1, -1, m);
  }

  /** A 100 by 100 map whose cell at (2, 4) has enter listener 0 and leave listener 1. */
  method Listening() returns (m: Map, cell: MapCell)
    ensures fresh(m) && fresh(m.cells) && m.Valid()
    ensures m.row == 100 && m.col == 100 && m.cells.Length == 10000
    ensures m.cells[Slot42] == cell && cell.units == {} && cell.fired == []
    ensures cell.enterListeners == PCons(0, PNil) && cell.exitListeners == PCons(1, PNil)
  {
    m := new Map(100, 100, "m");
    var found := m.FindCellAtPoint(2, 4);
    cell := found.cell;
    cell.RegisterEnterEvents(0);
    cell.RegisterLeaveEvents(1);
  }

  /** Moving to (2, 4) enters the cell; moving on to (10, 10) leaves it. */
  method ArriveThenLeave(m: Map, cell: MapCell, pos: Positional)
    requires m.Valid() && m.row == 100 && m.col == 100 && m.cells.Length == 10000
    requires pos.grid == m && pos.X == -1 && pos.Y == -1
    requires m.cells[Slot42] == cell && cell.units == {} && cell.fired == []
    requires cell.enterListeners == PCons(0, PNil) && cell.exitListeners == PCons(1, PNil)
    modifies pos, m.cells, m.Occupied()
    ensures cell.fired == [Firing(0, pos.unit, cell, Enter), Firing(1, pos.unit, cell, Exit)]
  {
    Arrive(m, cell, pos);
    assert cell in m.Occupied();
    var r, before := pos.SetPos(10, 10, null);
    assert before == Found(cell);
    assert m.cells[Slot42] == cell;
    assert r != before;
    assert cell.fired == [Firing(0, pos.unit, cell, Enter)] + Notify(cell.exitListeners, pos.unit, cell, Exit);
  }

  method Arrive(m: Map, cell: MapCell, pos: Positional)
    requires m.Valid() && m.row == 100 && m.col == 100 && m.cells.Length == 10000
    requires pos.grid == m && pos.X == -1 && pos.Y == -1
    requires m.cells[Slot42] == cell && cell.units == {} && cell.fired == []
    requires cell.enterListeners == PCons(0, PNil) && cell.exitListeners == PCons(1, PNil)
    modifies pos, m.cells, m.Occupied()
    ensures m.Valid() && m.Kept() && pos.grid == m && pos.X == 2 && pos.Y == 4
    ensures m.cells[Slot42] == cell && cell.units == {pos.unit} && cell.fired == [Firing(0, pos.unit, cell, Enter)]
    ensures cell.enterListeners == PCons(0, PNil) && cell.exitListeners == PCons(1, PNil)
  {
    assert cell in m.Occupied();
    var r, before := pos.SetPos(2, 4, null);
    assert before == Absent;
    assert r == Found(cell);
    assert cell.fired == Notify(cell.enterListeners, pos.unit, cell, Enter);
  }
}
