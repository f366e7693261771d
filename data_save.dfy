/**
 * Saving and loading the live engine: the saved record holds the dimensions, the win length,
 * the game mode, the player to move, both boards as arrays of rows, and the six stock
 * counters. A loaded record builds a new engine and restores that state into it.
 */
module DataSave {
  import opened Options
  import opened Grids
  import opened DiscStock
  import opened EngineState
  import opened ClassicRules
  import opened Classic

  /** The saved record; `Board` and `BoardType` are arrays of rows, bottom row first. */
  datatype SavedState = SavedState(
    Rows: int, Cols: int, WinLen: int, IsVsComputer: bool, CurrentPlayer: int,
    Board: Grid<int>, BoardType: Grid<DiscType>,
    P1O: int, P1M: int, P1B: int, P2O: int, P2M: int, P2B: int)

  /** The width the loader reads off an array of rows: the length of its first row, 0 when it has none. */
  function Width<T>(src: Grid<T>): nat {
    if |src| > 0 then |src[0]| else 0
  }

  /** No row is shorter than the first: the loader can read Width cells from every row. */
  predicate Fits<T>(src: Grid<T>) {
    forall r :: 0 <= r < |src| ==> Width(src) <= |src[r]|
  }

  /** The grid the loader builds: the first Width cells of every row. */
  function Trimmed<T>(src: Grid<T>): (g: Grid<T>)
    requires Fits(src)
    ensures IsRect(g, |src|, Width(src))
    ensures forall r, c :: 0 <= r < |src| && 0 <= c < Width(src) ==> g[r][c] == src[r][c]
  {
    seq(|src|, r requires 0 <= r < |src| => src[r][..Width(src)])
  }

  /**
   * Reading back a rectangular grid gives it back, unless it has no rows but a positive
   * width: the width of a grid without rows is read as 0.
   */
  lemma JaggedRoundTrip<T>(g: Grid<T>, rows: nat, cols: nat)
    requires IsRect(g, rows, cols)
    ensures Fits(g)
    ensures Width(g) == cols <==> rows > 0 || cols == 0
    ensures rows > 0 ==> Trimmed(g) == g
  {
    if rows > 0 {
      SameCells(Trimmed(g), g, rows, cols);
    }
  }

  /** The record Save writes for an engine with configuration `cfg`, mode `isVsComputer` and state `s`. */
  function Saved(cfg: Config, isVsComputer: bool, s: State<DiscType>): SavedState {
    SavedState(cfg.rows, cfg.cols, cfg.winLen, isVsComputer, s.current, s.board, s.kinds,
               s.p1.ordinary, s.p1.magnetic, s.p1.boring, s.p2.ordinary, s.p2.magnetic, s.p2.boring)
  }

  /**
   * A record Load accepts: dimensions an engine can be built with, and boards that the loader
   * can read in full and whose read-back dimensions match the engine's.
   */
  predicate Loadable(st: SavedState) {
    && st.Rows >= 0 && st.Cols >= 0
    && Fits(st.Board) && |st.Board| == st.Rows && Width(st.Board) == st.Cols
    && Fits(st.BoardType) && |st.BoardType| == st.Rows && Width(st.BoardType) == st.Cols
  }

  /** The state Load restores from an accepted record. */
  function Restored(st: SavedState): (s: State<DiscType>)
    requires Loadable(st)
    ensures WellFormed(Config(st.Rows, st.Cols, st.WinLen), s)
    ensures s.current == 1 || s.current == 2
  {
    State(Trimmed(st.Board), Trimmed(st.BoardType), if st.CurrentPlayer == 1 then 1 else 2,
          Stock(st.P1O, st.P1M, st.P1B), Stock(st.P2O, st.P2M, st.P2B))
  }

  /**
   * Save then Load gives back the configuration, the mode and the whole state, for every
   * engine with at least one row (and for the engine with no cells at all).
   */
  lemma SaveLoadRoundTrip(cfg: Config, isVsComputer: bool, s: State<DiscType>)
    requires WellFormed(cfg, s) && cfg.rows >= 0 && cfg.cols >= 0 && (cfg.rows > 0 || cfg.cols == 0)
    requires s.current == 1 || s.current == 2
    ensures var st := Saved(cfg, isVsComputer, s);
            && Loadable(st)
            && Config(st.Rows, st.Cols, st.WinLen) == cfg && st.IsVsComputer == isVsComputer
            && Restored(st) == s
  {
    JaggedRoundTrip(s.board, cfg.rows, cfg.cols);
    JaggedRoundTrip(s.kinds, cfg.rows, cfg.cols);
  }

  /** A board with no rows but some columns is saved with a width the loader cannot recover. */
  lemma NoRowsNotLoadable(cfg: Config, isVsComputer: bool, s: State<DiscType>)
    requires WellFormed(cfg, s) && cfg.rows == 0 && cfg.cols > 0
    ensures !Loadable(Saved(cfg, isVsComputer, s))
  {
    JaggedRoundTrip(s.board, cfg.rows, cfg.cols);
  }

  /** The rows of a two-dimensional array, each a fresh row of its cells. */
  method ToJagged<T>(src: array2<T>) returns (dst: Grid<T>)
    ensures dst == Contents(src)
  {
    var rows, cols := src.Length0, src.Length1;
    dst := [];
    for r := 0 to rows
      invariant IsRect(dst, r, cols)
      invariant forall i, j :: 0 <= i < r && 0 <= j < cols ==> dst[i][j] == src[i, j]
    {
      var line: seq<T> := [];
      for c := 0 to cols
        invariant |line| == c && forall j :: 0 <= j < c ==> line[j] == src[r, j]
      {
        line := line + [src[r, c]];
      }
      dst := dst + [line];
    }
    ContentsOf(src, dst);
  }

  /**
   * A two-dimensional array from an array of rows: as many rows as given and as many columns
   * as the first row has (0 without rows). A row shorter than the first makes the copy fail
   * (None: the out-of-range exception); longer rows are cut.
   */
  method FromJagged<T(0)>(src: Grid<T>) returns (dst: Option<array2<T>>)
    ensures dst.Some? <==> Fits(src)
    ensures dst.Some? ==> fresh(dst.value) && dst.value.Length0 == |src| && dst.value.Length1 == Width(src)
                          && Contents(dst.value) == Trimmed(src)
  {
    var rows := |src|;
    var cols := if rows > 0 then |src[0]| else 0;
    var a := new T[rows, cols];
    for r := 0 to rows
      invariant forall i :: 0 <= i < r ==> cols <= |src[i]|
      invariant forall i, j :: 0 <= i < r && 0 <= j < cols ==> a[i, j] == src[i][j]
    {
      for c := 0 to cols
        invariant c <= |src[r]|
        invariant forall i, j :: 0 <= i < r && 0 <= j < cols ==> a[i, j] == src[i][j]
        invariant forall j :: 0 <= j < c ==> a[r, j] == src[r][j]
      {
        if c >= |src[r]| {
          return None;
        }
        a[r, c] := src[r][c];
      }
    }
    ContentsOf(a, Trimmed(src));
    return Some(a);
  }

  /** The record of the engine's configuration, mode and state; writing it out is not modelled. */
  method Save(engine: LineUpClassic) returns (state: SavedState)
    requires engine.Valid()
    ensures state == Saved(engine.Cfg(), engine.IsVsComputer, engine.Model())
  {
    var board := ToJagged(engine.Board);
    var boardType := ToJagged(engine.BoardType);
    state := SavedState(engine.Rows, engine.Cols, engine.WinLen, engine.IsVsComputer, engine.CurrentPlayer,
                        board, boardType,
                        engine.Player1.ordinary, engine.Player1.magnetic, engine.Player1.boring,
                        engine.Player2.ordinary, engine.Player2.magnetic, engine.Player2.boring);
  }

  /**
   * A new engine built from the record and restored to its state; None where the source
   * throws: dimensions no array can have, a ragged board, or boards whose read-back
   * dimensions differ from the engine's.
   */
  method Load(state: SavedState) returns (engine: Option<LineUpClassic>)
    ensures engine.Some? <==> Loadable(state)
    ensures engine.Some? ==>
              && fresh(engine.value) && engine.value.Valid() && engine.value.backup.None?
              && engine.value.Cfg() == Config(state.Rows, state.Cols, state.WinLen)
              && engine.value.IsVsComputer == state.IsVsComputer
              && engine.value.Model() == Restored(state)
  {
    if state.Rows < 0 || state.Cols < 0 {
      return None;
    }
    var e := new LineUpClassic(state.Rows, state.Cols, state.WinLen, state.IsVsComputer);
    var board := FromJagged(state.Board);
    if board.None? {
      return None;
    }
    var boardType := FromJagged(state.BoardType);
    if boardType.None? {
      return None;
    }
    var ok := e.RestoreState(board.value, boardType.value, state.CurrentPlayer,
                             Stock(state.P1O, state.P1M, state.P1B), Stock(state.P2O, state.P2M, state.P2B));
    if !ok {
      return None;
    }
    return Some(e);
  }
}
