/**
 * The simple automated opponent: among the playable columns (left to right) and the kinds
 * the player to move holds (Ordinary, Magnetic, Boring), the first probe that wins at once;
 * otherwise any playable column with any held kind.
 */
module AI {
  import opened Grids
  import opened DiscStock
  import opened EngineState
  import opened ClassicRules
  import opened Classic

  /**
   * Chooses a move for the player to move. `ok` is false, with (-1, Ordinary), exactly when
   * no column is playable or no kind is held. When some move wins at once, the move chosen
   * is the first winning one in the search order; otherwise it is some playable column and
   * some held kind (a random choice, left open). The engine's state is the same afterwards.
   */
  method FindMove(engine: LineUpClassic) returns (ok: bool, col: int, kind: DiscType)
    requires engine.Valid() && (engine.Rows > 0 || engine.Cols == 0)
    modifies engine, engine.Board, engine.BoardType
    ensures engine.Valid() && engine.Model() == old(engine.Model())
    ensures ok <==> (exists j :: ColumnPlayable(engine.Cfg(), old(engine.Model()), j))
                    && |HeldKinds(CurrentStock(old(engine.Model())))| > 0
    ensures !ok ==> col == -1 && kind == Ordinary
    ensures ok ==> ColumnPlayable(engine.Cfg(), old(engine.Model()), col)
                   && Has(CurrentStock(old(engine.Model())), SlotOf(kind))
    ensures (exists j, t :: WinsNow(engine.Cfg(), old(engine.Model()), j, t)) ==>
              && ok && WinsNow(engine.Cfg(), old(engine.Model()), col, kind)
              && forall j, t :: MoveBefore(j, t, col, kind) ==> !WinsNow(engine.Cfg(), old(engine.Model()), j, t)
    ensures ok ==> engine.backup.None?
    ensures !ok ==> engine.backup == old(engine.backup)
  {
    var playableCols := PlayableColumns(engine);
    if |playableCols| == 0 {
      return false, -1, Ordinary;
    }
    var current := if engine.CurrentPlayer == 1 then engine.Player1 else engine.Player2;
    var playableTypes := HeldKinds(current);
    if |playableTypes| == 0 {
      return false, -1, Ordinary;
    }
    var found;
    found, col, kind := FirstWinningMove(engine, playableCols, playableTypes);
    if found {
      return true, col, kind;
    }
    ghost var c0, t0 := playableCols[0], playableTypes[0];
    assert c0 in playableCols && t0 in playableTypes;
    col :| col in playableCols;
    kind :| kind in playableTypes;
    ok := true;
  }

  /** The playable columns of the engine, in increasing order: those whose top cell is empty. */
  method PlayableColumns(engine: LineUpClassic) returns (playableCols: seq<int>)
    requires engine.Valid() && (engine.Rows > 0 || engine.Cols == 0)
    ensures forall x :: x in playableCols <==> ColumnPlayable(engine.Cfg(), engine.Model(), x)
    ensures forall a, b :: 0 <= a < b < |playableCols| ==> playableCols[a] < playableCols[b]
  {
    ghost var s := engine.Model();
    var cfg := engine.Cfg();
    var rows, cols := engine.Rows, engine.Cols;
    var board := engine.Board;
    ContentsHolds(board);
    playableCols := [];
    for j := 0 to cols
      invariant forall x :: x in playableCols <==> 0 <= x < j && ColumnPlayable(cfg, s, x)
      invariant forall a, b :: 0 <= a < b < |playableCols| ==> playableCols[a] < playableCols[b]
      invariant forall a :: 0 <= a < |playableCols| ==> playableCols[a] < j
    {
      if board[rows - 1, j] == 0 {
        playableCols := playableCols + [j];
      }
    }
  }

  /**
   * The winning-move search of FindMove: the columns in the given order and, in each, the
   * kinds in the given order; the first probe that wins.
   */
  method FirstWinningMove(engine: LineUpClassic, playableCols: seq<int>, playableTypes: seq<DiscType>)
    returns (found: bool, col: int, kind: DiscType)
    requires engine.Valid() && (engine.Rows > 0 || engine.Cols == 0)
    requires forall x :: x in playableCols <==> ColumnPlayable(engine.Cfg(), engine.Model(), x)
    requires forall a, b :: 0 <= a < b < |playableCols| ==> playableCols[a] < playableCols[b]
    requires playableTypes == HeldKinds(CurrentStock(engine.Model()))
    modifies engine, engine.Board, engine.BoardType
    ensures engine.Valid() && engine.Model() == old(engine.Model())
    ensures found ==> WinsNow(engine.Cfg(), old(engine.Model()), col, kind)
    ensures found ==> forall j, t :: MoveBefore(j, t, col, kind) ==> !WinsNow(engine.Cfg(), old(engine.Model()), j, t)
    ensures !found ==> forall j, t :: !WinsNow(engine.Cfg(), old(engine.Model()), j, t)
    ensures |playableCols| > 0 && |playableTypes| > 0 ==> engine.backup.None?
    ensures !(|playableCols| > 0 && |playableTypes| > 0) ==> engine.backup == old(engine.backup)
  {
    ghost var s := engine.Model();
    var cfg := engine.Cfg();
    found, col, kind := false, -1, Ordinary;
    for i := 0 to |playableCols|
      invariant engine.Valid() && engine.Model() == s
      invariant i > 0 && |playableTypes| > 0 ==> engine.backup.None?
      invariant !(i > 0 && |playableTypes| > 0) ==> engine.backup == old(engine.backup)
      invariant (engine.Board == old(engine.Board) || fresh(engine.Board))
      invariant (engine.BoardType == old(engine.BoardType) || fresh(engine.BoardType))
      invariant forall x, t :: x in playableCols[..i] ==> !WinsNow(cfg, s, x, t)
    {
      var j := playableCols[i];
      var wins, t := FirstWinningKind(engine, j, playableTypes);
      if wins {
        forall x, u | MoveBefore(x, u, j, t)
          ensures !WinsNow(cfg, s, x, u)
        {
          if x < j && ColumnPlayable(cfg, s, x) {
            var a :| 0 <= a < |playableCols| && playableCols[a] == x;
            assert playableCols[..i][a] == x;
          }
        }
        return true, j, t;
      }
      assert playableCols[..i + 1] == playableCols[..i] + [j];
    }
    assert playableCols[..|playableCols|] == playableCols;
  }

  /** The inner search of FindMove: the first of `types` whose probe in column `j` wins. */
  method FirstWinningKind(engine: LineUpClassic, j: int, types: seq<DiscType>) returns (found: bool, kind: DiscType)
    requires engine.Valid() && (engine.Rows > 0 || engine.Cols == 0)
    requires types == HeldKinds(CurrentStock(engine.Model()))
    modifies engine, engine.Board, engine.BoardType
    ensures engine.Valid() && engine.Model() == old(engine.Model())
    ensures (engine.Board == old(engine.Board) || fresh(engine.Board))
    ensures (engine.BoardType == old(engine.BoardType) || fresh(engine.BoardType))
    ensures found ==> WinsNow(engine.Cfg(), old(engine.Model()), j, kind)
    ensures found ==> forall u :: KindBefore(u, kind) ==> !WinsNow(engine.Cfg(), old(engine.Model()), j, u)
    ensures !found ==> forall t :: !WinsNow(engine.Cfg(), old(engine.Model()), j, t)
    ensures ColumnPlayable(engine.Cfg(), old(engine.Model()), j) && |types| > 0 ==> engine.backup.None?
    ensures !(ColumnPlayable(engine.Cfg(), old(engine.Model()), j) && |types| > 0) ==> engine.backup == old(engine.backup)
  {
    ghost var s := engine.Model();
    var cfg := engine.Cfg();
    found, kind := false, Ordinary;
    for k := 0 to |types|
      invariant engine.Valid() && engine.Model() == s
      invariant k > 0 && ColumnPlayable(cfg, s, j) ==> engine.backup.None?
      invariant !(k > 0 && ColumnPlayable(cfg, s, j)) ==> engine.backup == old(engine.backup)
      invariant (engine.Board == old(engine.Board) || fresh(engine.Board))
      invariant (engine.BoardType == old(engine.BoardType) || fresh(engine.BoardType))
      invariant forall i :: 0 <= i < k ==> !WinsNow(cfg, s, j, types[i])
    {
      var t := types[k];
      var wins := engine.TryMoveWins(j, t);
      if wins {
        EarlierKindsLose(cfg, s, j, types, k);
        return true, t;
      }
      assert !WinsNow(cfg, s, j, types[k]);
    }
    HeldKindsLose(cfg, s, j, types);
  }
}
