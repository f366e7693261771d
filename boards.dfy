/**
 * The cell-grid board: `Rows` by `Cols` cells, row 0 at the bottom, each cell knowing its
 * own coordinates and holding at most one disc. Discs are placed from the bottom of a
 * column; gravity packs every column down; the board can be turned a quarter clockwise.
 */
module Boards {
  import opened Options
  import opened Grids
  import opened Discs

  /** A cell: its coordinates and the disc it holds, if any. */
  datatype Cell = Cell(row: int, col: int, disc: Option<Disc>) {
    predicate IsEmpty() {
      disc.None?
    }
  }

  /** Every cell carries its own position. */
  ghost predicate Positioned(cells: Grid<Cell>) {
    forall r, c :: InGrid(cells, r, c) ==> cells[r][c].row == r && cells[r][c].col == c
  }

  /** The grid of empty cells the constructor builds. */
  function EmptyCells(rows: nat, cols: nat): (g: Grid<Cell>)
    ensures IsRect(g, rows, cols) && Positioned(g)
    ensures forall r, c :: 0 <= r < rows && 0 <= c < cols ==> g[r][c].IsEmpty()
  {
    seq(rows, r => seq(cols, c => Cell(r, c, None)))
  }

  /** `cells` with the disc slot of cell (r, c) set to `d`; coordinates stay. */
  function SetDisc(cells: Grid<Cell>, r: int, c: int, d: Option<Disc>): (g: Grid<Cell>)
    requires InGrid(cells, r, c)
    ensures SameShape(cells, g)
    ensures g[r][c] == cells[r][c].(disc := d)
    ensures forall i, j :: InGrid(cells, i, j) && (i != r || j != c) ==> g[i][j] == cells[i][j]
    ensures Positioned(cells) ==> Positioned(g)
  {
    Set(cells, r, c, cells[r][c].(disc := d))
  }

  /** `cells` with the disc slots of column `c` replaced by `slots`, bottom first. */
  function WithColumn(cells: Grid<Cell>, c: int, slots: seq<Option<Disc>>): (g: Grid<Cell>)
    requires HasColumn(cells, c) && |slots| == |cells|
    ensures SameShape(cells, g)
    ensures forall r :: 0 <= r < |cells| ==> g[r][c] == cells[r][c].(disc := slots[r])
    ensures forall i, j :: InGrid(cells, i, j) && j != c ==> g[i][j] == cells[i][j]
    ensures Positioned(cells) ==> Positioned(g)
  {
    seq(|cells|, r requires 0 <= r < |cells| => cells[r][c := cells[r][c].(disc := slots[r])])
  }

  /** Column `c`: the disc slot of every row, bottom first. */
  function Column(cells: Grid<Cell>, c: int): (slots: seq<Option<Disc>>)
    requires HasColumn(cells, c)
    ensures |slots| == |cells|
    ensures forall r :: 0 <= r < |cells| ==> slots[r] == cells[r][c].disc
  {
    seq(|cells|, r requires 0 <= r < |cells| => cells[r][c].disc)
  }

  /** The discs of a column, bottom first, the gaps left out. */
  function DiscsOf(slots: seq<Option<Disc>>): (ds: seq<Disc>)
    ensures |ds| <= |slots|
  {
    if |slots| == 0 then []
    else DiscsOf(slots[..|slots| - 1]) + (if slots[|slots| - 1].Some? then [slots[|slots| - 1].value] else [])
  }

  /** The discs `ds`, bottom first, packed into a column of `n` slots. */
  function Packed(ds: seq<Disc>, n: nat): (slots: seq<Option<Disc>>)
    requires |ds| <= n
    ensures |slots| == n
  {
    seq(n, i requires 0 <= i < n => if i < |ds| then Some(ds[i]) else None)
  }

  /** No disc of the column floats above an empty slot. */
  predicate Compact(slots: seq<Option<Disc>>) {
    forall i :: 0 < i < |slots| && slots[i].Some? ==> slots[i - 1].Some?
  }

  /** A packed column is compact. */
  lemma PackedIsCompact(ds: seq<Disc>, n: nat)
    requires |ds| <= n
    ensures Compact(Packed(ds, n))
  {
  }

  /** Packing keeps the discs and their order: reading a packed column back gives `ds`. */
  lemma {:induction false} DiscsOfPacked(ds: seq<Disc>, n: nat)
    requires |ds| <= n
    ensures DiscsOf(Packed(ds, n)) == ds
  {
    if n > 0 {
      var p := Packed(ds, n);
      if |ds| == n {
        DiscsOfPacked(ds[..n - 1], n - 1);
        assert p[..n - 1] == Packed(ds[..n - 1], n - 1);
        assert ds[..n - 1] + [ds[n - 1]] == ds;
      } else {
        DiscsOfPacked(ds, n - 1);
        assert p[..n - 1] == Packed(ds, n - 1);
      }
    }
  }

  /** A column whose slots are all filled has one disc per slot. */
  lemma {:induction false} AllFilled(slots: seq<Option<Disc>>)
    requires forall i :: 0 <= i < |slots| ==> slots[i].Some?
    ensures |DiscsOf(slots)| == |slots|
    ensures forall i :: 0 <= i < |slots| ==> DiscsOf(slots)[i] == slots[i].value
  {
    if |slots| > 0 {
      AllFilled(slots[..|slots| - 1]);
    }
  }

  /** In a compact column every slot below a disc holds a disc. */
  lemma {:induction false} FilledBelow(slots: seq<Option<Disc>>, j: int, i: int)
    requires Compact(slots) && 0 <= i <= j < |slots| && slots[j].Some?
    ensures slots[i].Some?
    decreases j - i
  {
    if i < j {
      FilledBelow(slots, j - 1, i);
    }
  }

  /** Packing a compact column gives it back: gravity leaves a settled column alone. */
  lemma {:induction false} CompactIsPacked(slots: seq<Option<Disc>>)
    requires Compact(slots)
    ensures Packed(DiscsOf(slots), |slots|) == slots
  {
    var n := |slots|;
    if n > 0 {
      var front := slots[..n - 1];
      assert Compact(front);
      CompactIsPacked(front);
      if slots[n - 1].Some? {
        forall i | 0 <= i < n - 1
          ensures front[i].Some?
        {
          FilledBelow(slots, n - 1, i);
        }
        AllFilled(front);
      }
    }
  }

  /** Gravity twice is gravity once. */
  lemma GravityIdempotent(slots: seq<Option<Disc>>)
    ensures Packed(DiscsOf(Packed(DiscsOf(slots), |slots|)), |slots|) == Packed(DiscsOf(slots), |slots|)
  {
    DiscsOfPacked(DiscsOf(slots), |slots|);
  }

  /**
   * A board whose columns are all settled is the board gravity gives back: once every
   * column reads as its own discs packed down, the cells are the old cells.
   */
  lemma {:induction false} SettledBoardUnchanged(before: Grid<Cell>, after: Grid<Cell>, rows: int, cols: int)
    requires IsRect(before, rows, cols) && IsRect(after, rows, cols)
    requires Positioned(before) && Positioned(after)
    requires forall c :: 0 <= c < cols ==> Compact(Column(before, c))
    requires forall c :: 0 <= c < cols ==> Column(after, c) == Packed(DiscsOf(Column(before, c)), rows)
    ensures after == before
  {
    forall r, c | 0 <= r < rows && 0 <= c < cols
      ensures after[r][c] == before[r][c]
    {
      CompactIsPacked(Column(before, c));
      assert Column(after, c)[r] == Column(before, c)[r];
    }
    SameCells(after, before, rows, cols);
  }

  /**
   * The column walk of gravity: every disc met going up is moved down to the next row to
   * fill, and its old slot emptied. The result is the column's discs packed down in order.
   */
  method Compress(col0: seq<Option<Disc>>) returns (slots: seq<Option<Disc>>)
    ensures slots == Packed(DiscsOf(col0), |col0|)
  {
    slots := col0;
    var nextFillRow := 0;
    for r := 0 to |col0|
      invariant |slots| == |col0|
      invariant nextFillRow == |DiscsOf(col0[..r])|
      invariant forall i :: 0 <= i < nextFillRow ==> slots[i] == Some(DiscsOf(col0[..r])[i])
      invariant forall i :: nextFillRow <= i < r ==> slots[i].None?
      invariant forall i :: r <= i < |col0| ==> slots[i] == col0[i]
    {
      assert col0[..r + 1][..r] == col0[..r];
      var disc := slots[r];
      if disc.Some? {
        if nextFillRow != r {
          slots := slots[nextFillRow := disc];
          slots := slots[r := None];
        }
        nextFillRow := nextFillRow + 1;
      }
    }
    assert col0[..|col0|] == col0;
  }

  /**
   * The board turned a quarter clockwise: the disc of cell (r, c) moves to cell
   * (c, rows - 1 - r), and the cells get their new coordinates.
   */
  function Rotated(cells: Grid<Cell>, rows: nat, cols: nat): (g: Grid<Cell>)
    requires IsRect(cells, rows, cols)
    ensures IsRect(g, cols, rows) && Positioned(g)
    ensures forall r, c :: 0 <= r < rows && 0 <= c < cols ==> g[c][rows - 1 - r].disc == cells[r][c].disc
  {
    seq(cols, r requires 0 <= r < cols => seq(rows, c requires 0 <= c < rows => Cell(r, c, cells[rows - 1 - c][r].disc)))
  }

  /** Two quarter turns are a half turn. */
  lemma HalfTurn(cells: Grid<Cell>, rows: nat, cols: nat)
    requires IsRect(cells, rows, cols)
    ensures var h := Rotated(Rotated(cells, rows, cols), cols, rows);
            IsRect(h, rows, cols) && Positioned(h)
            && forall r, c :: 0 <= r < rows && 0 <= c < cols ==> h[r][c].disc == cells[rows - 1 - r][cols - 1 - c].disc
  {
  }

  /** Four quarter turns give back the board. */
  lemma FourTurns(cells: Grid<Cell>, rows: nat, cols: nat)
    requires IsRect(cells, rows, cols) && Positioned(cells)
    ensures Rotated(Rotated(Rotated(Rotated(cells, rows, cols), cols, rows), rows, cols), cols, rows) == cells
  {
    var h := Rotated(Rotated(cells, rows, cols), cols, rows);
    HalfTurn(cells, rows, cols);
    HalfTurn(h, rows, cols);
    var f := Rotated(Rotated(h, rows, cols), cols, rows);
    forall r, c | 0 <= r < rows && 0 <= c < cols
      ensures f[r][c] == cells[r][c]
    {
      assert f[r][c].disc == h[rows - 1 - r][cols - 1 - c].disc;
    }
    SameCells(f, cells, rows, cols);
  }

  /** The placement hook of `disc` at (row, col): the base hook, which no disc kind overrides, does nothing. */
  method OnPlaced(disc: Disc, board: Board, row: int, col: int)
    ensures unchanged(board)
  {
  }

  class Board {
    var Rows: int
    var Cols: int
    var Cells: Grid<Cell>

    ghost predicate Valid()
      reads this
    {
      0 <= Rows && 0 <= Cols && IsRect(Cells, Rows, Cols) && Positioned(Cells)
    }

    /** A board of empty cells, each made with its coordinates. */
    constructor (rows: int, cols: int)
      requires 0 <= rows && 0 <= cols
      ensures Valid() && Rows == rows && Cols == cols && Cells == EmptyCells(rows, cols)
    {
      var cells: Grid<Cell> := [];
      for r := 0 to rows
        invariant cells == EmptyCells(r, cols)
      {
        var line: seq<Cell> := [];
        for c := 0 to cols
          invariant line == seq(c, j => Cell(r, j, None))
        {
          line := line + [Cell(r, c, None)];
        }
        cells := cells + [line];
      }
      Rows, Cols, Cells := rows, cols, cells;
    }

    /** (row, col) is a cell of the board. */
    predicate InBounds(row: int, col: int): (inside: bool)
      reads this
      ensures Valid() ==> (inside <==> InGrid(Cells, row, col))
    {
      row >= 0 && row < Rows && col >= 0 && col < Cols
    }

    /** The cell at (row, col); None stands for the out-of-range exception. */
    function GetCell(row: int, col: int): (cell: Option<Cell>)
      reads this
      requires Valid()
      ensures cell.Some? <==> InGrid(Cells, row, col)
      ensures cell.Some? ==> cell.value == Cells[row][col] && cell.value.row == row && cell.value.col == col
    {
      if !InBounds(row, col) then None else Some(Cells[row][col])
    }

    /**
     * A move in `col` is legal when the column exists and its top cell is empty. With no rows
     * at all, reading the top cell of an existing column raises the out-of-range exception
     * (None).
     */
    function IsLegalMove(col: int): (legal: Option<bool>)
      reads this
      requires Valid()
      ensures legal.None? <==> 0 <= col < Cols && Rows == 0
      ensures legal == Some(true) <==> HasColumn(Cells, col) && col < Cols && Rows > 0 && Column(Cells, col)[Rows - 1].None?
    {
      if col < 0 || col >= Cols then Some(false)
      else
        match GetCell(Rows - 1, col)
        case None => None
        case Some(cell) => Some(cell.IsEmpty())
    }

    /**
     * Places `disc` in the lowest empty cell of `col` and returns its row; -1 for an
     * illegal move; None when IsLegalMove raises its exception. Nothing else changes.
     */
    method PlaceDisc(col: int, disc: Disc) returns (placed: Option<int>)
      requires Valid()
      modifies this
      ensures Valid() && Rows == old(Rows) && Cols == old(Cols)
      ensures old(IsLegalMove(col)).None? ==> placed.None? && Cells == old(Cells)
      ensures old(IsLegalMove(col)) == Some(false) ==> placed == Some(-1) && Cells == old(Cells)
      ensures old(IsLegalMove(col)) == Some(true) ==>
                && placed.Some? && 0 <= placed.value < Rows
                && old(Cells)[placed.value][col].IsEmpty()
                && (forall r :: 0 <= r < placed.value ==> !old(Cells)[r][col].IsEmpty())
                && Cells == SetDisc(old(Cells), placed.value, col, Some(disc))
    {
      var legal := IsLegalMove(col);
      if legal.None? {
        return None;
      }
      if !legal.value {
        return Some(-1);
      }
      for r := 0 to Rows
        invariant Cells == old(Cells)
        invariant forall i :: 0 <= i < r ==> !Cells[i][col].IsEmpty()
      {
        if Cells[r][col].disc.None? {
          Cells := SetDisc(Cells, r, col, Some(disc));
          return Some(r);
        }
      }
      return Some(-1);
    }

    /** Gravity on every column: each column's discs packed down in the same order. */
    method ApplyGravity()
      requires Valid()
      modifies this
      ensures Valid() && Rows == old(Rows) && Cols == old(Cols)
      ensures forall c :: 0 <= c < Cols ==> Column(Cells, c) == Packed(DiscsOf(Column(old(Cells), c)), Rows)
      ensures forall c :: 0 <= c < Cols ==> Compact(Column(Cells, c)) && DiscsOf(Column(Cells, c)) == DiscsOf(Column(old(Cells), c))
      ensures (forall c :: 0 <= c < Cols ==> Compact(Column(old(Cells), c))) ==> Cells == old(Cells)
    {
      for c := 0 to Cols
        invariant Valid() && Rows == old(Rows) && Cols == old(Cols)
        invariant forall j :: 0 <= j < c ==> Column(Cells, j) == Packed(DiscsOf(Column(old(Cells), j)), Rows)
        invariant forall j :: c <= j < Cols ==> Column(Cells, j) == Column(old(Cells), j)
      {
        SettleColumn(c);
      }
      forall c | 0 <= c < Cols
        ensures Compact(Column(Cells, c)) && DiscsOf(Column(Cells, c)) == DiscsOf(Column(old(Cells), c))
      {
        PackedIsCompact(DiscsOf(Column(old(Cells), c)), Rows);
        DiscsOfPacked(DiscsOf(Column(old(Cells), c)), Rows);
      }
      if forall c :: 0 <= c < Cols ==> Compact(Column(old(Cells), c)) {
        SettledBoardUnchanged(old(Cells), Cells, Rows, Cols);
      }
    }

    /** The inner loop of ApplyGravity: packs column `c` down, other columns untouched. */
    method SettleColumn(c: int)
      requires Valid() && 0 <= c < Cols
      modifies this
      ensures Valid() && Rows == old(Rows) && Cols == old(Cols)
      ensures Column(Cells, c) == Packed(DiscsOf(Column(old(Cells), c)), Rows)
      ensures forall j :: 0 <= j < Cols && j != c ==> Column(Cells, j) == Column(old(Cells), j)
    {
      var slots := Compress(Column(Cells, c));
      ghost var old0 := Cells;
      Cells := WithColumn(Cells, c, slots);
      forall j | 0 <= j < Cols && j != c
        ensures Column(Cells, j) == Column(old0, j)
      {
        assert forall i :: 0 <= i < Rows ==> Column(Cells, j)[i] == Column(old0, j)[i];
      }
    }

    /**
     * Turns the board a quarter clockwise: a new grid of empty cells with the dimensions
     * exchanged, then every disc moved from (r, c) to (c, Rows - 1 - r).
     */
    method RotateCW()
      requires Valid()
      modifies this
      ensures Valid() && Rows == old(Cols) && Cols == old(Rows)
      ensures Cells == Rotated(old(Cells), old(Rows), old(Cols))
    {
      var oldRows, oldCols := Rows, Cols;
      var newRows, newCols := oldCols, oldRows;
      var newCells: Grid<Cell> := [];
      for r := 0 to newRows
        invariant newCells == EmptyCells(r, newCols)
      {
        var line: seq<Cell> := [];
        for c := 0 to newCols
          invariant line == seq(c, j => Cell(r, j, None))
        {
          line := line + [Cell(r, c, None)];
        }
        newCells := newCells + [line];
      }
      for oldRow := 0 to oldRows
        invariant IsRect(newCells, newRows, newCols) && Positioned(newCells)
        invariant forall i, j :: 0 <= i < newRows && 0 <= j < newCols ==>
                    newCells[i][j].disc == (if j >= oldRows - oldRow then Cells[oldRows - 1 - j][i].disc else None)
      {
        for oldCol := 0 to oldCols
          invariant IsRect(newCells, newRows, newCols) && Positioned(newCells)
          invariant forall i, j :: 0 <= i < newRows && 0 <= j < newCols ==>
                      newCells[i][j].disc ==
                        (if j > oldRows - 1 - oldRow || (j == oldRows - 1 - oldRow && i < oldCol)
                         then Cells[oldRows - 1 - j][i].disc else None)
        {
          newCells := SetDisc(newCells, oldCol, oldRows - 1 - oldRow, Cells[oldRow][oldCol].disc);
        }
      }
      ghost var want := Rotated(Cells, oldRows, oldCols);
      SameCells(newCells, want, newRows, newCols);
      Cells, Rows, Cols := newCells, newRows, newCols;
    }
  }
}
