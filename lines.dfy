/**
 * The line rule shared by all three win detectors (LineUpClassic.CheckCellWin,
 * GameEngine.WinCheck and WinRule.CheckCellWin): a cell wins when the run of cells with
 * its owner through it, along one of four axes, is at least the win length.
 */
module Lines {
  import opened Grids

  /** The four axes, each given by its forward step (rows, columns). */
  datatype Axis = Vertical | Horizontal | Diagonal | AntiDiagonal {
    function DR(): int {
      if this == Horizontal then 0 else 1
    }
    function DC(): int {
      match this
      case Vertical => 0
      case Horizontal => 1
      case Diagonal => 1
      case AntiDiagonal => -1
    }
  }

  /** Both directions of every axis are steps to a neighbouring cell. */
  lemma AxisSteps(a: Axis)
    ensures IsStep(a.DR(), a.DC()) && IsStep(-a.DR(), -a.DC())
  {
  }

  /** A step to one of the eight neighbouring cells. */
  predicate IsStep(dr: int, dc: int) {
    -1 <= dr <= 1 && -1 <= dc <= 1 && (dr != 0 || dc != 0)
  }

  /** How far (r, c) is from leaving the grid when walking by (dr, dc). */
  function Distance(g: Grid<int>, r: int, c: int, dr: int, dc: int): nat {
    if !InGrid(g, r, c) then 0
    else if dr == 1 then |g| - r
    else if dr == -1 then r + 1
    else if dc == 1 then |g[r]| - c
    else c + 1
  }

  predicate Owns(g: Grid<int>, p: int, r: int, c: int) {
    InGrid(g, r, c) && g[r][c] == p
  }

  /** The number of consecutive cells owned by `p`, starting at (r, c) and walking by (dr, dc). */
  function Ray(g: Grid<int>, p: int, r: int, c: int, dr: int, dc: int): nat
    requires IsStep(dr, dc)
    decreases Distance(g, r, c, dr, dc)
  {
    if Owns(g, p, r, c) then 1 + Ray(g, p, r + dr, c + dc, dr, dc) else 0
  }

  /** Ray counts exactly the leading cells of the walk that `p` owns. */
  lemma {:induction false} RayCells(g: Grid<int>, p: int, r: int, c: int, dr: int, dc: int, k: nat)
    requires IsStep(dr, dc)
    ensures Ray(g, p, r, c, dr, dc) >= k <==>
            forall i :: 0 <= i < k ==> Owns(g, p, r + i * dr, c + i * dc)
    decreases k
  {
    if k > 0 {
      RayCells(g, p, r + dr, c + dc, dr, dc, k - 1);
      WalkShift(g, p, r, c, dr, dc, k);
    }
  }

  /** The first k cells of a walk are its first cell and the first k - 1 cells of the walk one step on. */
  lemma WalkShift(g: Grid<int>, p: int, r: int, c: int, dr: int, dc: int, k: nat)
    requires k > 0
    ensures (forall i :: 0 <= i < k ==> Owns(g, p, r + i * dr, c + i * dc)) <==>
            Owns(g, p, r, c) && forall j :: 0 <= j < k - 1 ==> Owns(g, p, (r + dr) + j * dr, (c + dc) + j * dc)
  {
    forall j | 0 <= j < k - 1
      ensures r + (j + 1) * dr == (r + dr) + j * dr && c + (j + 1) * dc == (c + dc) + j * dc
    {
      NextMultiple(j, dr);
      NextMultiple(j, dc);
    }
    if forall i :: 0 <= i < k ==> Owns(g, p, r + i * dr, c + i * dc) {
      forall j | 0 <= j < k - 1
        ensures Owns(g, p, (r + dr) + j * dr, (c + dc) + j * dc)
      {
        assert Owns(g, p, r + (j + 1) * dr, c + (j + 1) * dc);
      }
    }
    if forall j :: 0 <= j < k - 1 ==> Owns(g, p, (r + dr) + j * dr, (c + dc) + j * dc) {
      forall i | 1 <= i < k
        ensures Owns(g, p, r + i * dr, c + i * dc)
      {
        assert Owns(g, p, (r + dr) + (i - 1) * dr, (c + dc) + (i - 1) * dc);
      }
    }
    assert r + 0 * dr == r && c + 0 * dc == c;
  }

  lemma NextMultiple(j: int, d: int)
    ensures (j + 1) * d == j * d + d
  {
  }

  /**
   * The length of the run of cells owned by the owner of (r, c) along `a` through (r, c):
   * the cell itself, the run walking backwards and the run walking forwards.
   */
  function AxisRun(g: Grid<int>, r: int, c: int, a: Axis): nat
    requires InGrid(g, r, c)
  {
    var p := g[r][c];
    1 + Ray(g, p, r - a.DR(), c - a.DC(), -a.DR(), -a.DC())
      + Ray(g, p, r + a.DR(), c + a.DC(), a.DR(), a.DC())
  }

  /** An owned cell wins when its run along some axis reaches `winLen`. */
  predicate CellWins(g: Grid<int>, winLen: int, r: int, c: int)
    requires InGrid(g, r, c)
  {
    g[r][c] != 0 && exists a: Axis :: AxisRun(g, r, c, a) >= winLen
  }

  /** A run one short of the win length never wins. */
  lemma ShortRunLoses(g: Grid<int>, winLen: int, r: int, c: int)
    requires InGrid(g, r, c)
    requires forall a: Axis :: AxisRun(g, r, c, a) <= winLen - 1
    ensures !CellWins(g, winLen, r, c)
  {
  }

  /** (r, c) is on the board, owned by `p`, and wins. */
  predicate WinsFor(g: Grid<int>, winLen: int, r: int, c: int, p: int) {
    InGrid(g, r, c) && g[r][c] == p && CellWins(g, winLen, r, c)
  }

  /** Some listed cell is a winning cell of `p`. */
  predicate AnyWinFor(g: Grid<int>, winLen: int, cells: seq<(int, int)>, p: int) {
    exists i :: 0 <= i < |cells| && WinsFor(g, winLen, cells[i].0, cells[i].1, p)
  }

  /** Scanning one more listed cell adds exactly that cell's win to the wins found so far. */
  lemma AnyWinForStep(g: Grid<int>, winLen: int, cells: seq<(int, int)>, k: int, p: int)
    requires 0 <= k < |cells|
    ensures AnyWinFor(g, winLen, cells[..k + 1], p) <==>
            AnyWinFor(g, winLen, cells[..k], p) || WinsFor(g, winLen, cells[k].0, cells[k].1, p)
  {
    var pre, next := cells[..k], cells[..k + 1];
    assert next[k] == cells[k];
    assert forall i :: 0 <= i < k ==> next[i] == pre[i];
  }

  /** A win found among the first k cells is a win of the whole list. */
  lemma AnyWinForPrefix(g: Grid<int>, winLen: int, cells: seq<(int, int)>, k: int, p: int)
    requires 0 <= k <= |cells| && AnyWinFor(g, winLen, cells[..k], p)
    ensures AnyWinFor(g, winLen, cells, p)
  {
    var i :| 0 <= i < k && WinsFor(g, winLen, cells[..k][i].0, cells[..k][i].1, p);
    assert cells[..k][i] == cells[i];
  }

  /** The other player: 1 becomes 2, anything else becomes 1. */
  function Other(p: int): (q: int)
    ensures q != p && (q == 1 || q == 2)
  {
    if p == 1 then 2 else 1
  }

  /** Switching twice gives the player back. */
  lemma OtherInvolution(p: int)
    requires p == 1 || p == 2
    ensures Other(Other(p)) == p
  {
  }

  /** Count the cells owned by `p` from (r, c) on, walking by (dr, dc), in the array `a`. */
  method Walk(a: array2<int>, ghost g: Grid<int>, p: int, r: int, c: int, dr: int, dc: int) returns (n: nat)
    requires Holds(a, g) && IsStep(dr, dc)
    ensures n == Ray(g, p, r, c, dr, dc)
  {
    n := 0;
    var i, j := r, c;
    while 0 <= i < a.Length0 && 0 <= j < a.Length1 && a[i, j] == p
      invariant n + Ray(g, p, i, j, dr, dc) == Ray(g, p, r, c, dr, dc)
      decreases Distance(g, i, j, dr, dc)
    {
      n, i, j := n + 1, i + dr, j + dc;
    }
  }

  /**
   * The four-axis check on an owner array: the vertical, horizontal and both diagonal runs
   * through (row, col) are counted in turn, and the first one reaching `winLen` wins.
   */
  method CheckCell(a: array2<int>, ghost g: Grid<int>, winLen: int, row: int, col: int) returns (win: bool)
    requires Holds(a, g) && 0 <= row < a.Length0 && 0 <= col < a.Length1
    ensures win == CellWins(g, winLen, row, col)
  {
    var player := a[row, col];
    if player == 0 {
      return false;
    }
    var back := Walk(a, g, player, row - 1, col, -1, 0);
    var forth := Walk(a, g, player, row + 1, col, 1, 0);
    if 1 + back + forth >= winLen {
      assert AxisRun(g, row, col, Vertical) >= winLen;
      return true;
    }
    back := Walk(a, g, player, row, col - 1, 0, -1);
    forth := Walk(a, g, player, row, col + 1, 0, 1);
    if 1 + back + forth >= winLen {
      assert AxisRun(g, row, col, Horizontal) >= winLen;
      return true;
    }
    back := Walk(a, g, player, row - 1, col - 1, -1, -1);
    forth := Walk(a, g, player, row + 1, col + 1, 1, 1);
    if 1 + back + forth >= winLen {
      assert AxisRun(g, row, col, Diagonal) >= winLen;
      return true;
    }
    back := Walk(a, g, player, row - 1, col + 1, -1, 1);
    forth := Walk(a, g, player, row + 1, col - 1, 1, -1);
    if 1 + back + forth >= winLen {
      assert AxisRun(g, row, col, AntiDiagonal) >= winLen;
      return true;
    }
    assert forall x: Axis :: AxisRun(g, row, col, x) < winLen by {
      forall x: Axis ensures AxisRun(g, row, col, x) < winLen {
        match x
        case Vertical =>
        case Horizontal =>
        case Diagonal =>
        case AntiDiagonal =>
      }
    }
    return false;
  }
}
