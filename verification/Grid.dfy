/** Boxes on the dashboard grid and the first-fit search for a free one. */
module Grid {
  import opened Options
  import opened Sorting

  const MAX_LAYOUT_Y := 10_000

  datatype Box = Box(x: int, y: int, w: int, h: int)

  predicate Overlaps(a: Box, b: Box) {
    !(a.x + a.w <= b.x || b.x + b.w <= a.x || a.y + a.h <= b.y || b.y + b.h <= a.y)
  }

  ghost predicate Covers(b: Box, column: int, row: int) {
    b.x <= column < b.x + b.w && b.y <= row < b.y + b.h
  }

  /** The interval arithmetic of `Overlaps` means exactly "some cell belongs to both". */
  lemma OverlapsIffSharedCell(a: Box, b: Box)
    requires a.w > 0 && a.h > 0 && b.w > 0 && b.h > 0
    ensures Overlaps(a, b) <==> exists column, row :: Covers(a, column, row) && Covers(b, column, row)
  {
    if Overlaps(a, b) {
      var column := if a.x > b.x then a.x else b.x;
      var row := if a.y > b.y then a.y else b.y;
      assert Covers(a, column, row) && Covers(b, column, row);
    }
  }

  /** Row by row, left to right: the order in which the search visits positions. */
  predicate ReadingOrder(a: Box, b: Box) {
    a.y < b.y || (a.y == b.y && a.x <= b.x)
  }

  ghost predicate Free(c: Box, columns: int, width: int, height: int, occupied: set<Box>) {
    && c.w == width && c.h == height
    && 0 <= c.x <= columns - width && 0 <= c.y <= MAX_LAYOUT_Y
    && forall other | other in occupied :: !Overlaps(c, other)
  }

  ghost predicate FirstFree(c: Box, columns: int, width: int, height: int, occupied: set<Box>) {
    && Free(c, columns, width, height, occupied)
    && forall d | Free(d, columns, width, height, occupied) :: ReadingOrder(c, d)
  }

  lemma FirstFreeUnique(c: Box, d: Box, columns: int, width: int, height: int, occupied: set<Box>)
    requires FirstFree(c, columns, width, height, occupied)
    requires FirstFree(d, columns, width, height, occupied)
    ensures c == d
  {
    assert ReadingOrder(c, d) && ReadingOrder(d, c);
  }

  lemma {:induction false} LeastOfFree(c: Box, columns: int, width: int, height: int, occupied: set<Box>)
    requires Free(c, columns, width, height, occupied)
    ensures exists d :: FirstFree(d, columns, width, height, occupied)
    decreases c.y, c.x
  {
    if !FirstFree(c, columns, width, height, occupied) {
      var d :| Free(d, columns, width, height, occupied) && !ReadingOrder(c, d);
      LeastOfFree(d, columns, width, height, occupied);
    }
  }

  /** What the search must return: the first free position in reading order, if any is free. */
  ghost function FirstAvailable(columns: int, width: int, height: int, occupied: set<Box>): (r: Option<Box>)
    ensures r.Some? ==> FirstFree(r.value, columns, width, height, occupied)
    ensures r.None? ==> forall c :: !Free(c, columns, width, height, occupied)
  {
    if c :| Free(c, columns, width, height, occupied) then
      LeastOfFree(c, columns, width, height, occupied);
      var d :| FirstFree(d, columns, width, height, occupied);
      Some(d)
    else None
  }

  /** The nested search loops of the source; `None` is its ValueError. */
  method FirstAvailableCoordinates(columns: int, width: int, height: int, occupied: seq<Box>)
    returns (r: Option<Box>)
    ensures r == FirstAvailable(columns, width, height, set o | o in occupied)
  {
    ghost var taken := set o | o in occupied;
    var y := 0;
    while y < MAX_LAYOUT_Y + 1
      invariant 0 <= y <= MAX_LAYOUT_Y + 1
      invariant forall c | Free(c, columns, width, height, taken) :: c.y >= y
    {
      var x := 0;
      while x < columns - width + 1
        invariant 0 <= x
        invariant forall c | Free(c, columns, width, height, taken) :: c.y > y || (c.y == y && c.x >= x)
      {
        var candidate := Box(x, y, width, height);
        if forall other | other in occupied :: !Overlaps(candidate, other) {
          assert FirstFree(candidate, columns, width, height, taken);
          FirstAvailableIs(candidate, columns, width, height, taken);
          return Some(candidate);
        }
        assert forall c | Free(c, columns, width, height, taken) :: c.y > y || c != candidate;
        x := x + 1;
      }
      y := y + 1;
    }
    return None;
  }

  lemma FirstAvailableIs(c: Box, columns: int, width: int, height: int, occupied: set<Box>)
    requires FirstFree(c, columns, width, height, occupied)
    ensures FirstAvailable(columns, width, height, occupied) == Some(c)
  {
    FirstFreeUnique(c, FirstAvailable(columns, width, height, occupied).value, columns, width, height, occupied);
  }

  // ----- how far down the search can be pushed

  ghost function Rows(lo: int, hi: int): (r: set<int>)
    ensures forall y :: y in r <==> lo <= y < hi
    ensures |r| == if lo < hi then hi - lo else 0
    decreases hi - lo
  {
    if lo < hi then Rows(lo, hi - 1) + {hi - 1} else {}
  }

  /** Rows y at which a box of the given height would touch the rows of `o`. */
  ghost function BlockedRows(o: Box, height: int): set<int> {
    Rows(o.y - height + 1, o.y + o.h)
  }

  /** Each placed box blocks at most six rows, so more than 6k rows leave one free of k boxes. */
  lemma {:induction false} RowEscapes(placed: map<nat, Box>, ids: set<nat>, rows: set<int>, height: int)
    returns (y: int)
    requires ids <= placed.Keys && 0 < height <= 3
    requires forall id | id in placed :: 0 < placed[id].h <= 4
    requires |rows| > 6 * |ids|
    ensures y in rows && forall id | id in ids :: y !in BlockedRows(placed[id], height)
    decreases ids
  {
    if ids == {} {
      y := Pick(rows);
    } else {
      var id :| id in ids;
      var rest := rows - BlockedRows(placed[id], height);
      assert |rest| >= |rows| - 6 by {
        assert rows == rest + (rows * BlockedRows(placed[id], height));
        SubsetSize(rows * BlockedRows(placed[id], height), BlockedRows(placed[id], height));
      }
      y := RowEscapes(placed, ids - {id}, rest, height);
    }
  }

  /** First fit below k boxes of height at most four: it succeeds, and no lower than row 6k. */
  lemma FirstFitBound(columns: int, width: int, height: int, placed: map<nat, Box>)
    requires 0 < width <= columns && 0 < height <= 3
    requires forall id | id in placed :: 0 < placed[id].h <= 4
    requires 6 * |placed| <= MAX_LAYOUT_Y
    ensures FirstAvailable(columns, width, height, placed.Values).Some?
    ensures FirstAvailable(columns, width, height, placed.Values).value.y <= 6 * |placed|
  {
    var rows := Rows(0, 6 * |placed| + 1);
    assert |placed.Keys| == |placed|;
    var y := RowEscapes(placed, placed.Keys, rows, height);
    var c := Box(0, y, width, height);
    forall other | other in placed.Values ensures !Overlaps(c, other) {
      var id :| id in placed && placed[id] == other;
      assert y !in BlockedRows(placed[id], height);
    }
    assert Free(c, columns, width, height, placed.Values);
  }
}
