/** Where a table's cells go: `_Writer._table` of worker/translation_docx.py, an allocator
    for colspan and rowspan (section 4.9.12.1, "Forming a table", of the HTML Standard).

    The source keeps the set of squares already taken; `Allocate` does the same. The
    functions describe the placements by the cells placed before, and `AllocationIsATable`
    proves what makes them fit for merging: no two share a square, and every row span is
    honoured although the source has a branch that would cut one short. */
module TableGrid {
  import opened Options

  /** A cell's `colspan` and `rowspan`; None when absent or not a number. */
  datatype CellSpan = CellSpan(colspan: Option<int>, rowspan: Option<int>)

  datatype Placement = Placement(row: nat, column: nat, rows: nat, columns: nat)

  const MAX_COLUMNS := 63

  function Max(a: int, b: int): int { if a > b then a else b }

  function Min(a: int, b: int): int { if a < b then a else b }

  /** `_span`: the attribute, kept between the two bounds. */
  function Span(raw: Option<int>, minimum: int, maximum: int): int {
    Max(minimum, Min(if raw.None? then minimum else raw.value, Max(minimum, maximum)))
  }

  predicate Covers(p: Placement, row: int, column: int) {
    p.row <= row < p.row + p.rows && p.column <= column < p.column + p.columns
  }

  predicate Taken(ps: seq<Placement>, row: int, column: int) {
    exists k :: 0 <= k < |ps| && Covers(ps[k], row, column)
  }

  // ---- One cell ----

  function RightEdge(ps: seq<Placement>): nat {
    if ps == [] then 0
    else Max(RightEdge(ps[..|ps| - 1]), ps[|ps| - 1].column + ps[|ps| - 1].columns)
  }

  lemma {:induction false} TakenIsLeftOfEdge(ps: seq<Placement>, row: int, column: int)
    requires Taken(ps, row, column)
    ensures column < RightEdge(ps)
  {
    var k :| 0 <= k < |ps| && Covers(ps[k], row, column);
    var n := |ps| - 1;
    if k < n {
      assert Covers(ps[..n][k], row, column);
      TakenIsLeftOfEdge(ps[..n], row, column);
    }
  }

  /** The first square of the row, from a column on, that no cell has. */
  function FirstFree(ps: seq<Placement>, row: nat, column: nat): (free: nat)
    ensures column <= free && !Taken(ps, row, free)
    ensures forall c | column <= c < free :: Taken(ps, row, c)
    decreases RightEdge(ps) - column
  {
    if Taken(ps, row, column) then
      TakenIsLeftOfEdge(ps, row, column);
      FirstFree(ps, row, column + 1)
    else column
  }

  /** How many of the columns asked for are free, at least `i`. */
  function FreeColumns(ps: seq<Placement>, row: nat, column: nat, i: nat, columns: nat): (free: nat)
    requires i <= columns
    ensures i <= free <= columns
    ensures forall c | column + i <= c < column + free :: !Taken(ps, row, c)
    ensures free < columns ==> Taken(ps, row, column + free)
    decreases columns - i
  {
    if i == columns || Taken(ps, row, column + i) then i else FreeColumns(ps, row, column, i + 1, columns)
  }

  predicate RowTaken(ps: seq<Placement>, row: nat, column: nat, columns: nat) {
    exists c :: column <= c < column + columns && Taken(ps, row, c)
  }

  /** How many of the rows asked for are free across those columns, at least `i`. */
  function FreeRows(ps: seq<Placement>, row: nat, column: nat, columns: nat, i: nat, rows: nat): (free: nat)
    requires i <= rows
    ensures i <= free <= rows
    ensures free < rows ==> RowTaken(ps, row + free, column, columns)
    decreases rows - i
  {
    if i == rows || RowTaken(ps, row + i, column, columns) then i
    else FreeRows(ps, row, column, columns, i + 1, rows)
  }

  /** The next cell of a row, after those in `ps`, at or after a column. */
  function PlaceCell(ps: seq<Placement>, row: nat, from: nat, cell: CellSpan, height: nat): Placement {
    var column := FirstFree(ps, row, from);
    var columns := FreeColumns(ps, row, column, 1, Span(cell.colspan, 1, MAX_COLUMNS));
    var rows := FreeRows(ps, row, column, columns, 1, Span(cell.rowspan, 1, height - row));
    Placement(row, column, rows, columns)
  }

  /** The cells of a row from the `j`th on. */
  function PlaceRow(ps: seq<Placement>, row: nat, from: nat, cells: seq<CellSpan>, j: nat, height: nat): seq<Placement>
    requires j <= |cells|
    decreases |cells| - j
  {
    if j == |cells| then ps
    else
      var p := PlaceCell(ps, row, from, cells[j], height);
      PlaceRow(ps + [p], row, p.column + p.columns, cells, j + 1, height)
  }

  function PlaceRows(ps: seq<Placement>, row: nat, rows: seq<seq<CellSpan>>): seq<Placement>
    requires row <= |rows|
    decreases |rows| - row
  {
    if row == |rows| then ps else PlaceRows(PlaceRow(ps, row, 0, rows[row], 0, |rows|), row + 1, rows)
  }

  function Placements(rows: seq<seq<CellSpan>>): seq<Placement> {
    PlaceRows([], 0, rows)
  }

  function Width(ps: seq<Placement>): nat { RightEdge(ps) }

  // ---- The allocator as the source runs it ----

  /** The squares already taken are those of the cells placed. */
  ghost predicate Tracks(occupied: set<(int, int)>, ps: seq<Placement>) {
    forall r, c :: (r, c) in occupied <==> Taken(ps, r, c)
  }

  method CountFreeColumns(occupied: set<(int, int)>, ghost ps: seq<Placement>, row: nat, column: nat, columns: nat)
    returns (free: nat)
    requires Tracks(occupied, ps) && columns >= 1
    ensures free == FreeColumns(ps, row, column, 1, columns)
  {
    free := 1;
    while free < columns && (row, column + free) !in occupied
      invariant 1 <= free <= columns
      invariant FreeColumns(ps, row, column, free, columns) == FreeColumns(ps, row, column, 1, columns)
    {
      free := free + 1;
    }
  }

  method AnyTaken(occupied: set<(int, int)>, ghost ps: seq<Placement>, row: nat, column: nat, columns: nat)
    returns (found: bool)
    requires Tracks(occupied, ps)
    ensures found <==> RowTaken(ps, row, column, columns)
  {
    for c := 0 to columns
      invariant forall d | column <= d < column + c :: !Taken(ps, row, d)
    {
      if (row, column + c) in occupied { return true; }
    }
    return false;
  }

  method CountFreeRows(occupied: set<(int, int)>, ghost ps: seq<Placement>, row: nat, column: nat, columns: nat,
                       rows: nat)
    returns (free: nat)
    requires Tracks(occupied, ps) && rows >= 1
    ensures free == FreeRows(ps, row, column, columns, 1, rows)
  {
    free := 1;
    while free < rows
      invariant 1 <= free <= rows
      invariant FreeRows(ps, row, column, columns, free, rows) == FreeRows(ps, row, column, columns, 1, rows)
    {
      var taken := AnyTaken(occupied, ps, row + free, column, columns);
      if taken { return; }
      free := free + 1;
    }
  }

  /** Takes a placement's squares, row by row. */
  method Occupy(occupied: set<(int, int)>, ghost ps: seq<Placement>, p: Placement) returns (after: set<(int, int)>)
    requires Tracks(occupied, ps)
    ensures Tracks(after, ps + [p])
  {
    after := occupied;
    for r := 0 to p.rows
      invariant forall x, y :: (x, y) in after <==>
                Taken(ps, x, y) || (p.row <= x < p.row + r && p.column <= y < p.column + p.columns)
    {
      for c := 0 to p.columns
        invariant forall x, y :: (x, y) in after <==>
                  || Taken(ps, x, y)
                  || (p.row <= x < p.row + r && p.column <= y < p.column + p.columns)
                  || (x == p.row + r && p.column <= y < p.column + c)
      {
        after := after + {(p.row + r, p.column + c)};
      }
    }
    forall x, y ensures (x, y) in after <==> Taken(ps + [p], x, y) {
      TakenSnoc(ps, p, x, y);
    }
  }

  lemma TakenSnoc(ps: seq<Placement>, p: Placement, row: int, column: int)
    ensures Taken(ps + [p], row, column) <==> Taken(ps, row, column) || Covers(p, row, column)
  {
    if Covers(p, row, column) {
      assert Covers((ps + [p])[|ps|], row, column);
    }
    if Taken(ps, row, column) {
      var k :| 0 <= k < |ps| && Covers(ps[k], row, column);
      assert Covers((ps + [p])[k], row, column);
    }
  }

  /** The next free column, found by stepping. */
  method NextFree(occupied: set<(int, int)>, ghost ps: seq<Placement>, row: nat, from: nat) returns (column: nat)
    requires Tracks(occupied, ps)
    ensures column == FirstFree(ps, row, from)
  {
    column := from;
    while (row, column) in occupied
      invariant from <= column
      invariant FirstFree(ps, row, column) == FirstFree(ps, row, from)
      decreases RightEdge(ps) - column
    {
      TakenIsLeftOfEdge(ps, row, column);
      column := column + 1;
    }
  }

  method NextPlacement(occupied: set<(int, int)>, ghost ps: seq<Placement>, row: nat, from: nat, cell: CellSpan, height: nat)
    returns (p: Placement)
    requires Tracks(occupied, ps)
    ensures p == PlaceCell(ps, row, from, cell, height)
  {
    var column := NextFree(occupied, ps, row, from);
    var columns := CountFreeColumns(occupied, ps, row, column, Span(cell.colspan, 1, MAX_COLUMNS));
    var rows := CountFreeRows(occupied, ps, row, column, columns, Span(cell.rowspan, 1, height - row));
    p := Placement(row, column, rows, columns);
  }

  method AllocateRow(placed: seq<Placement>, taken: set<(int, int)>, row: nat, cells: seq<CellSpan>, height: nat)
    returns (placements: seq<Placement>, occupied: set<(int, int)>)
    requires Tracks(taken, placed)
    ensures placements == PlaceRow(placed, row, 0, cells, 0, height)
    ensures Tracks(occupied, placements)
  {
    hide PlaceCell, Taken;
    placements, occupied := placed, taken;
    var column: nat := 0;
    for j := 0 to |cells|
      invariant Tracks(occupied, placements)
      invariant PlaceRow(placements, row, column, cells, j, height) == PlaceRow(placed, row, 0, cells, 0, height)
    {
      var p := NextPlacement(occupied, placements, row, column, cells[j], height);
      occupied := Occupy(occupied, placements, p);
      placements := placements + [p];
      column := p.column + p.columns;
    }
  }

  /** The placements, and the squares they take. */
  method Allocate(rows: seq<seq<CellSpan>>) returns (placements: seq<Placement>, occupied: set<(int, int)>)
    ensures placements == Placements(rows)
    ensures Tracks(occupied, placements)
  {
    placements, occupied := [], {};
    for row := 0 to |rows|
      invariant Tracks(occupied, placements)
      invariant PlaceRows(placements, row, rows) == Placements(rows)
    {
      placements, occupied := AllocateRow(placements, occupied, row, rows[row], |rows|);
    }
  }

  // ---- What the placements are ----

  ghost predicate Disjoint(p: Placement, q: Placement) {
    forall r, c :: !(Covers(p, r, c) && Covers(q, r, c))
  }

  /** A table being filled, with the cells of rows up to `row` placed. */
  ghost predicate Filling(ps: seq<Placement>, row: nat, height: nat) {
    && (forall k | 0 <= k < |ps| :: ps[k].row <= row && ps[k].row + ps[k].rows <= height
                                    && ps[k].rows >= 1 && ps[k].columns >= 1)
    && (forall i, k | 0 <= i < k < |ps| :: Disjoint(ps[i], ps[k]))
    && (forall i, k | 0 <= i < k < |ps| :: ps[i].row < ps[k].row
                                         || (ps[i].row == ps[k].row && ps[i].column + ps[i].columns <= ps[k].column))
  }

  /** What is taken in a row below is taken in this one: every cell so far begins here or above. */
  lemma TakenAbove(ps: seq<Placement>, row: nat, below: int, column: int)
    requires forall k | 0 <= k < |ps| :: ps[k].row <= row
    requires row <= below && Taken(ps, below, column)
    ensures Taken(ps, row, column)
  {
    var k :| 0 <= k < |ps| && Covers(ps[k], below, column);
    assert Covers(ps[k], row, column);
  }

  /** The row span asked for, up to the end of the table, is never cut short. */
  lemma RowSpanHonoured(ps: seq<Placement>, row: nat, from: nat, cell: CellSpan, height: nat)
    requires forall k | 0 <= k < |ps| :: ps[k].row <= row
    ensures PlaceCell(ps, row, from, cell, height).rows == Span(cell.rowspan, 1, height - row)
  {
    var p := PlaceCell(ps, row, from, cell, height);
    if p.rows < Span(cell.rowspan, 1, height - row) {
      var c :| p.column <= c < p.column + p.columns && Taken(ps, row + p.rows, c);
      TakenAbove(ps, row, row + p.rows, c);
      assert false;
    }
  }

  /** Where the cell goes: the first free square, and as many free columns as it asks for. */
  ghost predicate Fits(ps: seq<Placement>, row: nat, from: nat, cell: CellSpan, height: nat, p: Placement) {
    && p.row == row && from <= p.column
    && (forall c | from <= c < p.column :: Taken(ps, row, c))
    && (forall c | p.column <= c < p.column + p.columns :: !Taken(ps, row, c))
    && 1 <= p.columns <= Span(cell.colspan, 1, MAX_COLUMNS)
    && (p.columns < Span(cell.colspan, 1, MAX_COLUMNS) ==> Taken(ps, row, p.column + p.columns))
    && p.rows == Span(cell.rowspan, 1, height - row)
  }

  lemma PlaceCellFits(ps: seq<Placement>, row: nat, from: nat, cell: CellSpan, height: nat)
    requires row < height && Filling(ps, row, height)
    requires forall k | 0 <= k < |ps| && ps[k].row == row :: ps[k].column + ps[k].columns <= from
    ensures var p := PlaceCell(ps, row, from, cell, height);
            Fits(ps, row, from, cell, height, p) && Filling(ps + [p], row, height)
  {
    var p := PlaceCell(ps, row, from, cell, height);
    RowSpanHonoured(ps, row, from, cell, height);
    forall k | 0 <= k < |ps| ensures Disjoint(ps[k], p) {
      forall r, c | Covers(ps[k], r, c) && Covers(p, r, c) ensures false {
        assert Taken(ps, r, c);
        TakenAbove(ps, row, r, c);
      }
    }
  }

  /** How many cells the rows before `row` have. */
  function CellsBefore(rows: seq<seq<CellSpan>>, row: nat): nat
    requires row <= |rows|
  {
    if row == 0 then 0 else CellsBefore(rows, row - 1) + |rows[row - 1]|
  }

  /** The column after the cell at `k`, or 0 when `k` is the first of its row. */
  function After(ps: seq<Placement>, k: nat, first: nat): nat
    requires first <= k <= |ps|
  {
    if k == first then 0 else ps[k - 1].column + ps[k - 1].columns
  }

  /** The placements from `first` on are those of a row's first `count` cells. */
  ghost predicate RowPlaced(ps: seq<Placement>, first: nat, row: nat, cells: seq<CellSpan>, count: nat, height: nat) {
    && first + count <= |ps| && count <= |cells|
    && forall j {:trigger cells[j]} | 0 <= j < count ::
         Fits(ps[..first + j], row, After(ps, first + j, first), cells[j], height, ps[first + j])
  }

  lemma RowPlacedSnoc(ps: seq<Placement>, p: Placement, first: nat, row: nat, cells: seq<CellSpan>, done: nat, height: nat)
    requires first + done == |ps| && done < |cells|
    requires RowPlaced(ps, first, row, cells, done, height)
    requires Fits(ps, row, After(ps, |ps|, first), cells[done], height, p)
    ensures RowPlaced(ps + [p], first, row, cells, done + 1, height)
  {
    var more := ps + [p];
    forall j {:trigger cells[j]} | 0 <= j < done + 1
      ensures Fits(more[..first + j], row, After(more, first + j, first), cells[j], height, more[first + j])
    {
      if j < done {
        assert more[..first + j] == ps[..first + j];
      } else {
        assert more[..|ps|] == ps;
      }
    }
  }

  /** A row being placed: `done` of its cells are in, from `first` on. */
  ghost predicate InRow(ps: seq<Placement>, first: nat, row: nat, cells: seq<CellSpan>, done: nat, height: nat) {
    && row < height && Filling(ps, row, height)
    && first + done == |ps| && done <= |cells|
    && RowPlaced(ps, first, row, cells, done, height)
    && forall k | 0 <= k < |ps| && ps[k].row == row :: ps[k].column + ps[k].columns <= After(ps, |ps|, first)
  }

  lemma InRowStep(ps: seq<Placement>, first: nat, row: nat, cells: seq<CellSpan>, done: nat, height: nat)
    requires InRow(ps, first, row, cells, done, height) && done < |cells|
    ensures var p := PlaceCell(ps, row, After(ps, |ps|, first), cells[done], height);
            && InRow(ps + [p], first, row, cells, done + 1, height)
            && After(ps + [p], |ps| + 1, first) == p.column + p.columns
  {
    var from := After(ps, |ps|, first);
    PlaceCellFits(ps, row, from, cells[done], height);
    RowPlacedSnoc(ps, PlaceCell(ps, row, from, cells[done], height), first, row, cells, done, height);
  }

  lemma {:induction false} PlaceRowFits(ps: seq<Placement>, first: nat, row: nat, cells: seq<CellSpan>, done: nat, height: nat)
    requires InRow(ps, first, row, cells, done, height)
    ensures var all := PlaceRow(ps, row, After(ps, |ps|, first), cells, done, height);
            ps <= all && InRow(all, first, row, cells, |cells|, height)
    decreases |cells| - done
  {
    hide PlaceCell, Filling, RowPlaced;
    if done < |cells| {
      InRowStep(ps, first, row, cells, done, height);
      var p := PlaceCell(ps, row, After(ps, |ps|, first), cells[done], height);
      PlaceRowFits(ps + [p], first, row, cells, done + 1, height);
    }
  }

  /** The placements of every row so far. */
  ghost predicate RowsPlaced(ps: seq<Placement>, rows: seq<seq<CellSpan>>, upTo: nat) {
    && upTo <= |rows| && CellsBefore(rows, upTo) <= |ps|
    && forall row {:trigger rows[row]} | 0 <= row < upTo ::
         RowPlaced(ps, CellsBefore(rows, row), row, rows[row], |rows[row]|, |rows|)
  }

  lemma {:induction false} RowPlacedExtends(ps: seq<Placement>, more: seq<Placement>, first: nat, row: nat, cells: seq<CellSpan>, height: nat)
    requires ps <= more && RowPlaced(ps, first, row, cells, |cells|, height)
    ensures RowPlaced(more, first, row, cells, |cells|, height)
  {
    forall j {:trigger cells[j]} | 0 <= j < |cells|
      ensures Fits(more[..first + j], row, After(more, first + j, first), cells[j], height, more[first + j])
    {
      assert more[..first + j] == ps[..first + j];
    }
  }

  /** A table being placed: all the rows before `row` are in. */
  ghost predicate InTable(ps: seq<Placement>, row: nat, rows: seq<seq<CellSpan>>) {
    && row <= |rows| && |ps| == CellsBefore(rows, row)
    && RowsPlaced(ps, rows, row)
    && Filling(ps, row, |rows|)
    && forall k | 0 <= k < |ps| :: ps[k].row < row
  }

  lemma RowsPlacedStep(ps: seq<Placement>, more: seq<Placement>, row: nat, rows: seq<seq<CellSpan>>)
    requires row < |rows| && ps <= more && |ps| == CellsBefore(rows, row) && |more| == CellsBefore(rows, row + 1)
    requires RowsPlaced(ps, rows, row)
    requires RowPlaced(more, |ps|, row, rows[row], |rows[row]|, |rows|)
    ensures RowsPlaced(more, rows, row + 1)
  {
    hide RowPlaced;
    forall r {:trigger rows[r]} | 0 <= r < row + 1
      ensures RowPlaced(more, CellsBefore(rows, r), r, rows[r], |rows[r]|, |rows|)
    {
      if r < row {
        RowPlacedExtends(ps, more, CellsBefore(rows, r), r, rows[r], |rows|);
      }
    }
  }

  lemma InTableStep(ps: seq<Placement>, row: nat, rows: seq<seq<CellSpan>>)
    requires InTable(ps, row, rows) && row < |rows|
    ensures InTable(PlaceRow(ps, row, 0, rows[row], 0, |rows|), row + 1, rows)
  {
    hide PlaceRow, PlaceCell;
    var more := PlaceRow(ps, row, 0, rows[row], 0, |rows|);
    assert InRow(ps, |ps|, row, rows[row], 0, |rows|);
    PlaceRowFits(ps, |ps|, row, rows[row], 0, |rows|);
    RowsPlacedStep(ps, more, row, rows);
    assert Filling(more, row + 1, |rows|);
  }

  lemma {:induction false} PlaceRowsFit(ps: seq<Placement>, row: nat, rows: seq<seq<CellSpan>>)
    requires InTable(ps, row, rows)
    ensures InTable(PlaceRows(ps, row, rows), |rows|, rows)
    decreases |rows| - row
  {
    hide PlaceRow, RowsPlaced, Filling;
    if row < |rows| {
      InTableStep(ps, row, rows);
      PlaceRowsFit(PlaceRow(ps, row, 0, rows[row], 0, |rows|), row + 1, rows);
    }
  }

  /** Every cell is placed once, in row-major order; no two placements share a square; every
      row span up to the table's end is honoured; and each cell takes the first free square
      of its row with as many columns as it asks for and are free. */
  lemma AllocationIsATable(rows: seq<seq<CellSpan>>)
    ensures var ps := Placements(rows);
            && |ps| == CellsBefore(rows, |rows|)
            && RowsPlaced(ps, rows, |rows|)
            && Filling(ps, |rows|, |rows|)
  {
    PlaceRowsFit([], 0, rows);
  }

  lemma {:induction false} EdgeBounds(ps: seq<Placement>)
    ensures forall k | 0 <= k < |ps| :: ps[k].column + ps[k].columns <= Width(ps)
    ensures Width(ps) > 0 ==> exists k :: 0 <= k < |ps| && ps[k].column + ps[k].columns == Width(ps)
  {
    if ps != [] {
      var n := |ps| - 1;
      EdgeBounds(ps[..n]);
      if Width(ps) == Width(ps[..n]) && Width(ps) > 0 {
        var k :| 0 <= k < n && ps[..n][k].column + ps[..n][k].columns == Width(ps[..n]);
        assert ps[k].column + ps[k].columns == Width(ps);
      }
    }
  }
}
