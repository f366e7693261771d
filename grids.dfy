/**
 * Row-major grids of cells. Row 0 is the bottom of the board, as in the C# engines;
 * `g[r][c]` is the cell at row `r`, column `c`.
 */
module Grids {

  type Grid<T> = seq<seq<T>>

  /** `g` has exactly `rows` rows, each of `cols` cells. */
  ghost predicate IsRect<T>(g: Grid<T>, rows: int, cols: int) {
    |g| == rows && forall r :: 0 <= r < |g| ==> |g[r]| == cols
  }

  predicate InGrid<T>(g: Grid<T>, r: int, c: int) {
    0 <= r < |g| && 0 <= c < |g[r]|
  }

  /** Column `col` exists in every row of `g`. */
  ghost predicate HasColumn<T>(g: Grid<T>, col: int) {
    0 <= col && forall r :: 0 <= r < |g| ==> col < |g[r]|
  }

  ghost predicate SameShape<T, U>(g: Grid<T>, h: Grid<U>) {
    |g| == |h| && forall r :: 0 <= r < |g| ==> |g[r]| == |h[r]|
  }

  /** `g` with the one cell (r, c) replaced by `v`. */
  function Set<T>(g: Grid<T>, r: int, c: int, v: T): (h: Grid<T>)
    requires InGrid(g, r, c)
    ensures SameShape(g, h)
    ensures h[r][c] == v
    ensures forall i, j :: InGrid(g, i, j) && (i != r || j != c) ==> h[i][j] == g[i][j]
  {
    g[r := g[r][c := v]]
  }

  /** `g` with cell (i, col) and the cell directly above it exchanged. */
  function SwapUp<T>(g: Grid<T>, i: int, col: int): (h: Grid<T>)
    requires InGrid(g, i, col) && InGrid(g, i + 1, col)
    ensures SameShape(g, h)
    ensures h[i][col] == g[i + 1][col] && h[i + 1][col] == g[i][col]
    ensures forall r, c :: InGrid(g, r, c) && (c != col || (r != i && r != i + 1)) ==> h[r][c] == g[r][c]
  {
    Set(Set(g, i, col, g[i + 1][col]), i + 1, col, g[i][col])
  }

  /** `g` with every cell of column `col` set to `v`. */
  function ClearColumn<T>(g: Grid<T>, col: int, v: T): (h: Grid<T>)
    requires HasColumn(g, col)
    ensures SameShape(g, h)
    ensures forall r :: 0 <= r < |g| ==> h[r][col] == v
    ensures forall r, c :: InGrid(g, r, c) && c != col ==> h[r][c] == g[r][c]
  {
    seq(|g|, r requires 0 <= r < |g| => g[r][col := v])
  }

  /** A `rows` by `cols` grid with every cell `v`. */
  function Filled<T>(rows: nat, cols: nat, v: T): (g: Grid<T>)
    ensures IsRect(g, rows, cols)
    ensures forall r, c :: 0 <= r < rows && 0 <= c < cols ==> g[r][c] == v
  {
    seq(rows, r => seq(cols, c => v))
  }

  /** Two grids of the same shape with the same cells are equal. */
  lemma SameCells<T>(g: Grid<T>, h: Grid<T>, rows: int, cols: int)
    requires IsRect(g, rows, cols) && IsRect(h, rows, cols)
    requires forall r, c :: 0 <= r < rows && 0 <= c < cols ==> g[r][c] == h[r][c]
    ensures g == h
  {
    forall r | 0 <= r < rows
      ensures g[r] == h[r]
    {
      assert |g[r]| == |h[r]|;
    }
  }

  /** The array `a` holds exactly the grid `g`. */
  ghost predicate Holds<T>(a: array2<T>, g: Grid<T>)
    reads a
  {
    IsRect(g, a.Length0, a.Length1) &&
    forall r, c :: 0 <= r < a.Length0 && 0 <= c < a.Length1 ==> a[r, c] == g[r][c]
  }

  /** The grid an array holds. */
  ghost function Contents<T>(a: array2<T>): (g: Grid<T>)
    reads a
    ensures IsRect(g, a.Length0, a.Length1)
  {
    RowsOf(a, a.Length0)
  }

  /** The first `n` rows of `a`. */
  ghost function RowsOf<T>(a: array2<T>, n: nat): (g: Grid<T>)
    reads a
    requires n <= a.Length0
    ensures |g| == n && forall r :: 0 <= r < n ==> |g[r]| == a.Length1
  {
    if n == 0 then [] else RowsOf(a, n - 1) + [CellsOf(a, n - 1, a.Length1)]
  }

  /** The first `n` cells of row `r` of `a`. */
  ghost function CellsOf<T>(a: array2<T>, r: nat, n: nat): (cells: seq<T>)
    reads a
    requires r < a.Length0 && n <= a.Length1
    ensures |cells| == n
  {
    if n == 0 then [] else CellsOf(a, r, n - 1) + [a[r, n - 1]]
  }

  lemma {:induction false} CellsOfHolds<T>(a: array2<T>, r: nat, n: nat)
    requires r < a.Length0 && n <= a.Length1
    ensures forall c :: 0 <= c < n ==> CellsOf(a, r, n)[c] == a[r, c]
  {
    if n > 0 {
      CellsOfHolds(a, r, n - 1);
    }
  }

  lemma {:induction false} RowsOfHolds<T>(a: array2<T>, n: nat)
    requires n <= a.Length0
    ensures forall r :: 0 <= r < n ==> RowsOf(a, n)[r] == CellsOf(a, r, a.Length1)
  {
    if n > 0 {
      RowsOfHolds(a, n - 1);
    }
  }

  /** The cells of `Contents(a)` are those of `a`. */
  lemma ContentsHolds<T>(a: array2<T>)
    ensures Holds(a, Contents(a))
  {
    RowsOfHolds(a, a.Length0);
    forall r | 0 <= r < a.Length0
      ensures |Contents(a)[r]| == a.Length1
      ensures forall c :: 0 <= c < a.Length1 ==> Contents(a)[r][c] == a[r, c]
    {
      CellsOfHolds(a, r, a.Length1);
    }
  }

  /** Only one grid fits an array. */
  lemma HoldsUnique<T>(a: array2<T>, g: Grid<T>, h: Grid<T>)
    requires Holds(a, g) && Holds(a, h)
    ensures g == h
  {
    forall r | 0 <= r < |g|
      ensures g[r] == h[r]
    {
      assert |g[r]| == |h[r]|;
    }
  }

  /** An array holding `g` has `g` as its contents. */
  lemma ContentsOf<T>(a: array2<T>, g: Grid<T>)
    requires Holds(a, g)
    ensures Contents(a) == g
  {
    ContentsHolds(a);
    HoldsUnique(a, Contents(a), g);
  }

  /** The `(T[,])a.Clone()` of the C# code: a fresh array with the same cells. */
  method Clone<T>(a: array2<T>) returns (b: array2<T>)
    ensures fresh(b) && b.Length0 == a.Length0 && b.Length1 == a.Length1 && Contents(b) == Contents(a)
  {
    b := new T[a.Length0, a.Length1]((r, c) requires 0 <= r < a.Length0 && 0 <= c < a.Length1 reads a => a[r, c]);
    ContentsHolds(a);
    ContentsOf(b, Contents(a));
  }

  /** Copies `src` into `dst` cell by cell, row by row. */
  method CopyInto<T>(dst: array2<T>, src: array2<T>)
    requires dst.Length0 == src.Length0 && dst.Length1 == src.Length1
    modifies dst
    ensures Contents(dst) == old(Contents(src))
  {
    ghost var g := Contents(src);
    ContentsHolds(src);
    for r := 0 to dst.Length0
      invariant Holds(src, g)
      invariant forall i, j :: 0 <= i < r && 0 <= j < dst.Length1 ==> dst[i, j] == g[i][j]
    {
      for c := 0 to dst.Length1
        invariant Holds(src, g)
        invariant forall i, j :: 0 <= i < r && 0 <= j < dst.Length1 ==> dst[i, j] == g[i][j]
        invariant forall j :: 0 <= j < c ==> dst[r, j] == g[r][j]
      {
        dst[r, c] := src[r, c];
      }
    }
    ContentsOf(dst, g);
  }
}
