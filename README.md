# LineUp rule engine in Dafny

LineUp is a Connect-Four variant with three kinds of disc. Players drop discs into
columns. A disc falls to the lowest unowned cell and then takes effect:
- a boring disc clears its column, hands the cleared discs back to their owners' stocks and settles at the bottom;
- a magnetic disc pulls its owner's nearest ordinary disc one slot up.

A player wins with a run of `WinLen` owned cells along a row, a column or a diagonal.

This project models the rule engine of the repository, in all three versions it contains:

- `Classic.LineUpClassic` (classic.dfy) is the live engine. It is a class over two
  `array2` matrices: owners (0, 1, 2) and disc kinds (Ordinary, Magnetic, Boring). It also
  holds the player to move, both players' stocks and an optional record for snapshot and
  rollback.
  - Every method is proved against a pure rule on state values (`ClassicRules`, `EngineState`).
  - Those rules are proved to keep two invariants:
    - in every column, the owned cells form a prefix from row 0;
    - unowned cells carry the default kind.
  - The one-ply search (`TryMoveWins`, `FindWinningMove`) is proved to leave the state unchanged. It returns the first winning move in search order.
- `Engine.GameEngine` (game_engine.dfy, rules in `EngineRules`) is the earlier engine. Its
  plain disc is `Boring`, its clearing disc is `Drill`, and its magnetic disc has no shortcut
  for a disc already resting on one of its owner's discs.
  - Both engines share the state type and the drop rule (`EngineState.State`, `EngineState.Drop`).
  - Each class still declares its own `Model()`, the same in shape, because the repository has
    two separate engine classes with their own matrices and fields.
- `WinRules.WinRule` (win_rule.dfy) is the stand-alone win detector. It has an overload on
  owner arrays and one on the cell board.
- `Boards.Board` (boards.dfy) is the cell-grid board:
  - placement;
  - whole-board gravity, proved to pack each column in order and to be idempotent;
  - quarter-turn rotation, proved to give the original back after four turns.
- `Discs` models the disc hierarchy and its factory.
- `AI.FindMove` is the automated opponent.
- `DataSave` models the conversions between matrices and jagged arrays, and the field mapping of save and load. It proves the save/load round trip.

All three win detectors share one line rule, `Lines.CellWins`. A cell wins when it is owned and
the run of its owner's cells through it, along one of four axes, reaches the win length.
Each detector is proved equal to that rule.

## Model

| member | source | states |
|---|---|---|
| Classic.LineUpClassic.constructor | LineUp/LineUpClassic.cs:26-36 | an empty board of the given size with Ordinary kinds, player 1 to move, both stocks at the initial allocation for rows*cols cells, no record |
| Classic.LineUpClassic.BeginRecord | LineUp/LineUpClassic.cs:55-63 | the state is unchanged and the record now holds a copy of it (owners, kinds, player to move, six counters) |
| Classic.LineUpClassic.RollBack | LineUp/LineUpClassic.cs:65-76 | with a record: the state becomes exactly the recorded one and the record ends; without one: nothing changes, so a second rollback is a no-op |
| Classic.LineUpClassic.FindTargetRow | LineUp/LineUpClassic.cs:84-92 | the row found is the lowest unowned cell of the column, or -1 when there is none |
| Classic.LineUpClassic.DropDisc | LineUp/LineUpClassic.cs:79-103 | success exactly when the drop rule accepts; the new state is the rule's result (lowest empty cell gets the mover and the kind, one disc of that kind consumed); on failure placedRow is -1 and nothing changes |
| Classic.LineUpClassic.PutCell | LineUp/LineUpClassic.cs:99-100 | the owner and kind matrices change at (row, col) only, to the mover and the kind, the step of DropDisc that lands the disc |
| Classic.LineUpClassic.ApplyDiscEffect | LineUp/LineUpClassic.cs:105-170 | the reported cells and the new state are exactly those of the effect rule for the disc at (row, col) |
| Classic.LineUpClassic.Bore | LineUp/LineUpClassic.cs:120-142 | the new state is the boring outcome: column cleared, cleared discs credited, mover's disc at row 0 |
| Classic.LineUpClassic.SweepColumn | LineUp/LineUpClassic.cs:122-133 | the counts are the numbers of player 1's and player 2's discs in the column other than at `row`, and the column is cleared to (0, Ordinary) |
| Classic.LineUpClassic.Attract | LineUp/LineUpClassic.cs:145-168 | the reported cells and new state are the magnetic outcome |
| Classic.LineUpClassic.SwapWithAbove | LineUp/LineUpClassic.cs:158-159 | cell (i, col) and the cell above it exchange owner and kind in both matrices, nothing else changes: the pull step of Attract |
| Classic.LineUpClassic.SetKind | LineUp/LineUpClassic.cs:166 | only the kind at (row, col) changes, to the given kind (the magnetic disc turned ordinary, here and at line 151) |
| Classic.LineUpClassic.FindMagnet | LineUp/LineUpClassic.cs:154-165 | the row found is the first from row-2 downwards holding an ordinary disc of the owner, or -1 |
| Classic.LineUpClassic.CheckCellWin | LineUp/LineUpClassic.cs:172-257 | the result equals the line rule: an owned cell whose run along some axis reaches WinLen |
| Classic.LineUpClassic.WinCheck | LineUp/LineUpClassic.cs:259-281 | curWin (oppWin) holds exactly when some listed in-range cell owned by the mover (the other player) wins; an empty list gives (false, false) |
| Classic.LineUpClassic.SwitchPlayer | LineUp/LineUpClassic.cs:283-286 | only the player to move changes, 1 to 2 and anything else to 1 |
| Classic.LineUpClassic.IsBoardFull | LineUp/LineUpClassic.cs:288-295 | full exactly when no column is playable |
| Classic.LineUpClassic.IsColumnPlayable | LineUp/LineUpClassic.cs:297-301 | playable exactly when the column is in range and its top cell is unowned |
| Classic.LineUpClassic.PlayableTypes | LineUp/LineUpClassic.cs:345-348 | a kind is listed exactly when the mover holds one |
| Classic.LineUpClassic.TryMoveWins | LineUp/LineUpClassic.cs:308-337 | the answer is the probe rule (playable column, held kind, mover wins and opponent does not after drop and effect) and the state afterwards equals the state before; with a playable column and a held kind the probe records and rolls back, so no record remains, otherwise the record is untouched |
| Classic.LineUpClassic.PlayAndCheck | LineUp/LineUpClassic.cs:327-331 | on a playable column the drop, effect and win check answer the probe rule |
| Classic.LineUpClassic.FindWinningMove | LineUp/LineUpClassic.cs:339-364 | a found move wins and no move earlier in search order (column, then Ordinary, Magnetic, Boring) does; not found means no move wins, with (-1, Ordinary); state unchanged; the record has ended when some column is playable and some kind held (a probe ran), and is untouched otherwise |
| Classic.LineUpClassic.FindInColumn | LineUp/LineUpClassic.cs:343-358 | in one column: the first held kind that wins, or none wins; state unchanged; the record has ended when the column is playable and some kind held, and is untouched otherwise |
| Classic.LineUpClassic.RandomMove | LineUp/LineUpClassic.cs:366-394 | succeeds exactly when some column is playable and some kind is held; then the column is playable and the kind held; otherwise (-1, Ordinary) |
| Classic.LineUpClassic.RestoreState | LineUp/LineUpClassic.cs:397-416 | succeeds exactly when both arrays have the engine's dimensions; the state becomes their contents, the two stocks and player 1 or 2; a mismatch changes nothing |
| ClassicRules.HeldKinds | LineUp/LineUpClassic.cs:345-348 | a kind is listed exactly when the stock holds it, in the order Ordinary, Magnetic, Boring |
| ClassicRules.PlainEffect | LineUp/LineUpClassic.cs:107-118 | an empty cell reports nothing and changes nothing; an ordinary disc reports only its own cell and changes nothing |
| ClassicRules.BoringEffect | LineUp/LineUpClassic.cs:120-142 | the column's only owned cell is row 0 (mover, Ordinary), the rest of the column is (0, Ordinary), other columns are untouched, each stock gains its cleared discs, report is [(0, col)] |
| ClassicRules.MagneticEffect | LineUp/LineUpClassic.cs:145-168 | the cell ends Ordinary; at row 0 or on an own disc nothing else changes; otherwise the first own ordinary disc from row-2 down swaps with the cell above it and the report is [(row,col),(i+1,col),(i,col)]; no such disc means no swap |
| ClassicRules.EffectKeepsInvariant | LineUp/LineUpClassic.cs:105-170 | every effect keeps owned cells a prefix of each column and unowned cells Ordinary |
| ClassicRules.MagneticKeepsInvariant | LineUp/LineUpClassic.cs:154-166 | the magnetic pull keeps both invariants: it only exchanges two owned cells |
| ClassicRules.WinsNowNeedsLegalMove | LineUp/LineUpClassic.cs:308-311 | a winning probe has an in-range column with an unowned top cell and a held kind |
| ClassicRules.EarlierKindsLose | LineUp/LineUpClassic.cs:350-358 | when the first k held kinds lose, every kind ordered before the k-th held kind loses |
| ClassicRules.HeldKindsLose | LineUp/LineUpClassic.cs:345-358 | when every held kind loses in a column, every kind does |
| EngineState.Drop | LineUp/LineUpClassic.cs:79-103 | an accepted drop lands on a row of the board and keeps the dimensions |
| EngineState.DropContract | LineUp/GameEngine.cs:48-73 | accepted exactly for an in-range column with an unowned cell and a held kind; the lowest such cell gets (mover, kind), no other cell changes, exactly that counter drops by one, the other player's stock and the mover are unchanged |
| EngineState.PlayableDropSucceeds | LineUp/LineUpClassic.cs:310-327 | a drop in a playable column with a held kind is accepted |
| EngineState.DropKeepsInvariant | LineUp/LineUpClassic.cs:99-100 | a drop keeps owned cells a prefix of each column and unowned cells at the plain kind |
| DiscStock.Consume | LineUp/LineUpClassic.cs:96-97 | one counter drops by one, the others stay |
| DiscStock.ReturnDisc | LineUp/LineUpClassic.cs:135-136 | the plain counter gains n, the others stay |
| DiscStock.InitialStock | LineUp/LineUpClassic.cs:34-35 | two magnetic, two clearing discs and half the cells in all |
| DiscStock.ConsumeKeepsNonNegative | LineUp/LineUpClassic.cs:96-97 | consuming a held kind keeps every counter non-negative |
| Columns.FirstEmptyFrom | LineUp/LineUpClassic.cs:85-92 | the first unowned row at or after i, or -1 exactly when all are owned |
| Columns.CountOwned | LineUp/LineUpClassic.cs:123-129 | the count of rows other than the skipped one owned by p is at most the rows scanned |
| Columns.CountOwnedNone | LineUp/LineUpClassic.cs:123-129 | with no disc of p in the column, the count is 0 |
| Columns.MagnetTarget | LineUp/LineUpClassic.cs:154-165 | the row is -1 or the highest row at or below the start holding an ordinary disc of the owner; none above it qualifies |
| Columns.SettledColumnIsPrefix | LineUp/LineUpClassic.cs:84-93 | on a settled board the cells below the lowest empty row are owned and those from it up are not |
| Columns.PlaceKeepsSettled | LineUp/LineUpClassic.cs:99 | owning the lowest empty cell keeps the board settled |
| Columns.ResetColumnKeepsSettled | LineUp/LineUpClassic.cs:131-138 | clearing a column and owning row 0 keeps the board settled |
| Columns.SwapKeepsSettled | LineUp/LineUpClassic.cs:158-159 | exchanging two owned cells of a column keeps the board settled |
| Columns.OwnedBelow | LineUp/LineUpClassic.cs:149 | on a settled board every cell below an owned cell is owned |
| Columns.TopRowFull | LineUp/LineUpClassic.cs:288-295 | on a settled board the top row is full exactly when every cell is owned |
| Lines.RayCells | LineUp/WinRule.cs:22-26 | the walk count reaches k exactly when the first k cells of the walk are owned by the player |
| Lines.ShortRunLoses | LineUp/LineUpClassic.cs:255-256 | a cell whose runs are all shorter than the win length does not win |
| Lines.AnyWinForStep | LineUp/LineUpClassic.cs:269-280 | scanning one more listed cell adds exactly that cell's win |
| Lines.Other | LineUp/LineUpClassic.cs:267 | the other player differs from p and is 1 or 2 |
| Lines.OtherInvolution | LineUp/LineUpClassic.cs:285 | switching twice gives players 1 and 2 back |
| Lines.Walk | LineUp/WinRule.cs:24 | the count equals the run of the player's cells from the start along the step |
| Lines.CheckCell | LineUp/WinRule.cs:17-51 | the result equals the line rule at (row, col) |
| EngineRules.SlotOf | LineUp/GameEngine.cs:38-41 | Boring uses the plain counter and Drill the clearing counter |
| EngineRules.PullRow | LineUp/GameEngine.cs:110-118 | -1, or a row at or below row-2 |
| EngineRules.PlainEffect | LineUp/GameEngine.cs:76-80 | an empty cell or a Boring disc changes nothing and newRow is row |
| EngineRules.DrillEffect | LineUp/GameEngine.cs:83-105 | newRow 0; row 0 is (owner, Boring), the rest of the column (0, Boring), other columns untouched, each stock gains its cleared discs |
| EngineRules.MagneticEffect | LineUp/GameEngine.cs:108-122 | newRow is row, the cell ends Boring; the first own Boring disc from row-2 down swaps with the cell above it, with no adjacency shortcut; otherwise no swap |
| EngineRules.EffectKeepsInvariant | LineUp/GameEngine.cs:75-124 | every effect keeps owned cells a prefix of each column and unowned cells Boring |
| EngineRules.MagnetKeepsInvariant | LineUp/GameEngine.cs:110-119 | the magnetic pull keeps both invariants |
| Engine.GameEngine.constructor | LineUp/GameEngine.cs:17-26 | an empty board of Boring kinds, player 1 to move, both stocks at the initial allocation |
| Engine.GameEngine.FindTargetRow | LineUp/GameEngine.cs:53-62 | the lowest unowned row of the column, or -1 |
| Engine.GameEngine.DropDisc | LineUp/GameEngine.cs:48-73 | success exactly when the drop rule accepts; the new state is its result; on failure placedRow is -1 and nothing changes |
| Engine.GameEngine.PutCell | LineUp/GameEngine.cs:69-70 | the owner and kind matrices change at (row, col) only, to the mover and the kind, the step of DropDisc that lands the disc |
| Engine.GameEngine.ApplyDiscEffect | LineUp/GameEngine.cs:75-124 | newRow and the new state are exactly those of the effect rule |
| Engine.GameEngine.DrillColumn | LineUp/GameEngine.cs:83-105 | the new state is the drill outcome |
| Engine.GameEngine.SweepColumn | LineUp/GameEngine.cs:85-96 | the counts are each player's discs in the column other than at `row`, and the column is cleared to (0, Boring) |
| Engine.GameEngine.Attract | LineUp/GameEngine.cs:108-121 | the new state is the magnetic outcome |
| Engine.GameEngine.SwapWithAbove | LineUp/GameEngine.cs:114-115 | cell (i, col) and the cell above it exchange owner and kind in both matrices, nothing else changes: the pull step of Attract |
| Engine.GameEngine.SetKind | LineUp/GameEngine.cs:119 | only the kind at (row, col) changes, to the given kind (the magnetic disc turned boring) |
| Engine.GameEngine.FindMagnet | LineUp/GameEngine.cs:110-118 | the row found is the pull row of the rule |
| Engine.GameEngine.WinCheck | LineUp/GameEngine.cs:126-212 | the result equals the line rule at (row, col) |
| Engine.GameEngine.SwitchPlayer | LineUp/GameEngine.cs:214-217 | only the player to move changes, 1 to 2 and anything else to 1 |
| Engine.GameEngine.IsBoardFull | LineUp/GameEngine.cs:219-226 | full exactly when no column is playable |
| WinRules.OwnerGrid | LineUp/WinRule.cs:11-15 | the owner matrix induced by the cells: same shape, each entry the owner of that cell |
| WinRules.Coords | LineUp/WinRule.cs:136 | the coordinates of each listed cell, in order |
| WinRules.FirstOwner | LineUp/WinRule.cs:133-139 | 0 exactly when no listed cell is owned; otherwise the owner of the first owned listed cell |
| WinRules.UnownedListNoWin | LineUp/WinRule.cs:139 | when no listed cell is owned, no player has a winning listed cell |
| WinRules.WinRule.constructor | LineUp/WinRule.cs:9 | the win length is kept |
| WinRules.WinRule.OwnerAt | LineUp/WinRule.cs:11-15 | 0 for a cell with no disc, the disc's owner otherwise, i.e. the entry of the induced owner matrix |
| WinRules.WinRule.CheckCellWin | LineUp/WinRule.cs:17-51 | the result equals the line rule on the array's contents |
| WinRules.WinRule.WinCheck | LineUp/WinRule.cs:92-115 | curWin (oppWin) holds exactly when some listed in-range cell owned by currentPlayer (the other player) wins; an empty list gives (false, false) |
| WinRules.WinRule.IsBoardFull | LineUp/WinRule.cs:117-124 | full exactly when there are no columns or every cell of the top row is owned |
| WinRules.WinRule.WalkBoard | LineUp/WinRule.cs:63 | the count equals the run of the player's cells along the step in the induced owner matrix |
| WinRules.WinRule.AxisCount | LineUp/WinRule.cs:61-66 | the count equals the run through the cell along the axis |
| WinRules.WinRule.CheckBoardCellWin | LineUp/WinRule.cs:54-90 | the Board overload equals the line rule on the induced owner matrix, the rule the array overload is also proved equal to (no separate lemma links the two overloads) |
| WinRules.WinRule.BoardWinCheck | LineUp/WinRule.cs:127-153 | with p the owner of the first owned listed cell: curWin (oppWin) holds exactly when some listed cell of p (of the other player) wins; with no owned listed cell both are false |
| WinRules.WinRule.FindFirstOwner | LineUp/WinRule.cs:133-138 | the owner of the first owned listed cell, or 0 |
| WinRules.WinRule.ScanWins | LineUp/WinRule.cs:142-152 | curWin and oppWin are the wins of the two given owners among the listed cells |
| WinRules.WinRule.TallyCell | LineUp/WinRule.cs:144-151 | the two flags are whether the cell is a winning cell of each given owner |
| Boards.Board.constructor | LineUp/Board.cs:12-25 | Rows by Cols cells, each with its own coordinates and no disc |
| Boards.EmptyCells | LineUp/Board.cs:16-24 | a rectangle of empty cells carrying their coordinates |
| Boards.Board.InBounds | LineUp/Board.cs:27 | true exactly when 0 <= row < Rows and 0 <= col < Cols; on a valid board, exactly when (row, col) is a cell of the grid |
| Boards.Board.GetCell | LineUp/Board.cs:29-33 | a cell exactly when (row, col) is in bounds (None for the exception), and then the cell at those coordinates |
| Boards.Board.IsLegalMove | LineUp/Board.cs:35-40 | true exactly when the column is in range and its top cell is empty; None for the exception on a board with no rows |
| Boards.Board.PlaceDisc | LineUp/Board.cs:43-55 | an illegal move gives -1 and changes nothing; a legal one puts the disc in the lowest empty cell, returns its row and changes no other cell |
| Boards.Board.ApplyGravity | LineUp/Board.cs:58-77 | each column becomes its discs packed from row 0 in their original order; each column is compact and keeps its discs; a board whose columns are all compact is left exactly as it was, so a second pass changes nothing |
| Boards.Board.SettleColumn | LineUp/Board.cs:60-76 | one column is packed and the others are unchanged |
| Boards.Compress | LineUp/Board.cs:62-75 | the column afterwards is its discs in order, then empty slots |
| Boards.PackedIsCompact | LineUp/Board.cs:58-77 | a packed column has no empty slot below a disc |
| Boards.DiscsOfPacked | LineUp/Board.cs:58-77 | packing keeps the discs and their order |
| Boards.CompactIsPacked | LineUp/Board.cs:58-77 | a compact column is its own packing |
| Boards.GravityIdempotent | LineUp/Board.cs:58-77 | per column: packing the packed column again gives the same column |
| Boards.SettledBoardUnchanged | LineUp/Board.cs:58-77 | when every column was compact and every column of the result is its packing, the result is the original grid, cell for cell |
| Boards.Board.RotateCW | LineUp/Board.cs:82-113 | dimensions swap and the cells become the rotation of the old ones |
| Boards.Rotated | LineUp/Board.cs:90-108 | the disc at old (r, c) is at new (c, rows-1-r), and every new cell carries its own coordinates |
| Boards.HalfTurn | LineUp/Board.cs:82-113 | two turns map the disc at (r, c) to (rows-1-r, cols-1-c) |
| Boards.FourTurns | LineUp/Board.cs:82-113 | four turns give the original board back |
| Boards.OnPlaced | LineUp/Disc.cs:22 | the default hook leaves the board unchanged |
| Discs.Unowned | LineUp/Disc.cs:11-14 | the parameterless constructors give owner 0 and the class's fixed kind |
| Discs.Owned | LineUp/Disc.cs:16-19 | the owner constructor keeps ownerId and the class's fixed kind |
| Discs.Create | LineUp/Disc.cs:63-72 | the factory's disc has the requested kind (Ordinary by default) and owner 0 |
| Discs.CreateInjective | LineUp/Disc.cs:63-72 | different kinds give different discs |
| AI.FindMove | LineUp/AIStrategy.cs:14-58 | false with (-1, Ordinary) exactly when no column is playable or no kind is held; a winning move, when one exists, is chosen and is the first in search order; otherwise a playable column and a held kind; engine state unchanged; the engine's record has ended when a move is returned and is untouched otherwise |
| AI.PlayableColumns | LineUp/AIStrategy.cs:20-24 | exactly the playable columns, in increasing order |
| AI.FirstWinningMove | LineUp/AIStrategy.cs:42-51 | a found move wins and none before it in search order does; otherwise no move wins; state unchanged; the record has ended when there are columns and kinds to try, and is untouched otherwise |
| AI.FirstWinningKind | LineUp/AIStrategy.cs:44-50 | in one column: the first held kind that wins, or none wins; the record has ended when the column is playable and some kind held, and is untouched otherwise |
| DataSave.Trimmed | LineUp/DataSave.cs:123-137 | the rectangle of the rows cut to the first row's length, entry by entry equal to the source |
| DataSave.JaggedRoundTrip | LineUp/DataSave.cs:60-153 | the rows of a matrix can be read back, with its width exactly when it has a row or no columns, and then read back unchanged |
| DataSave.Restored | LineUp/DataSave.cs:108-118 | the restored state has the saved dimensions and player 1 or 2 to move |
| DataSave.SaveLoadRoundTrip | LineUp/DataSave.cs:35-53 | a saved engine with a row (or no cells) loads back with the same configuration, mode, boards, player to move and stocks |
| DataSave.NoRowsNotLoadable | LineUp/DataSave.cs:123-127 | a board with no rows but some columns is saved in a form the loader refuses |
| DataSave.ToJagged | LineUp/DataSave.cs:60-94 | one row per array row, each of the array's width, entry by entry equal |
| DataSave.FromJagged | LineUp/DataSave.cs:123-153 | an array exactly when every row is at least as long as the first; then |rows| by first-row-length, entry by entry equal; no rows gives 0 by 0 |
| DataSave.Save | LineUp/DataSave.cs:29-59 | the record holds the engine's dimensions, win length, mode, player to move, both matrices and the six counters |
| DataSave.Load | LineUp/DataSave.cs:97-121 | an engine exactly when the record is loadable; it is built with the saved dimensions, win length and mode, and its state is the restored one |

## Left out

- Console play, prompting, file and directory access and the JSON serializer are not modelled. `Save` returns the record and `Load` takes it.
- The win length computed with floating point at game set-up is not modelled. The win length is a constructor parameter.
- Randomness: the uniform choice of `RandomMove` and of the automated opponent's fallback is an arbitrary element of the candidate lists.
- The stock class the engines use (`Has`, `Consume`, `ReturnDisc`, `SetStock`, the human and computer players) is not part of this model. A stock is three counters. `ReturnDisc(n)` is assumed to credit the plain counter.
- DiscStock.InitialStock: the allocation (half the cells, two magnetic, two clearing discs) is assumed. LineUp/Player.cs does not compile and the player classes the engines build are not part of this model.
- LineUp/Cell.cs has no disc property, although the board and the win detector read one. A cell is modelled as coordinates plus an optional disc.
- Cells, discs and the record are values. Aliasing of `Cell` objects between boards is not modelled.
- The comment on `RotateCW` says a non-square board is left unchanged. The code rotates it anyway, and the model follows the code.
- `GetBoard`, `GetBoardType` and the other read accessors are fields read directly.
- `LineUpBasic`, `Move`, `History`, `CellChange` and the console game hold no rule logic and are not modelled.
- Null arguments (null lists, null arrays) are not modelled. An empty list plays the part of the null list.
- Engines are built with non-negative dimensions, where the source's array allocation would throw. `Load` returns None for negative dimensions.
- Disc-kind values outside the declared enumerations cannot be expressed, so the factory's default branch is only reached by Ordinary.
- Classic.LineUpClassic.IsBoardFull: requires a row when there are columns. With no rows and some columns the source throws; with no rows and no columns it returns true, as the model does.
- Engine.GameEngine.IsBoardFull: requires a row when there are columns, for the same reason.
- Classic.LineUpClassic.IsColumnPlayable: requires a row when the column is in range. With no rows an in-range column throws in the source.
- Classic.LineUpClassic.TryMoveWins: requires a row when the column is in range, where the source's playability test throws.
- Classic.LineUpClassic.FindWinningMove: requires a row when there are columns. With no rows and some columns the source throws; with no columns it returns (false, -1, Ordinary), as the model does.
- Classic.LineUpClassic.FindInColumn: requires a row when there are columns, for the same reason.
- Classic.LineUpClassic.RandomMove: requires a row when there are columns. With no rows and some columns the source throws; with no columns it returns (false, -1, Ordinary), as the model does.
- AI.FindMove: requires a row when there are columns. With no rows and some columns the source throws; with no columns it returns false with (-1, Ordinary), as the model does.
- AI.PlayableColumns: requires a row when there are columns, where the source reads the top row and throws.
- AI.FirstWinningMove: requires a row when there are columns, for the same reason.
- AI.FirstWinningKind: requires a row when there are columns, for the same reason.
- Classic.LineUpClassic.CheckCellWin: requires (row, col) on the board, where the source throws.
- Classic.LineUpClassic.ApplyDiscEffect: requires (row, col) on the board, where the source throws.
- Engine.GameEngine.WinCheck: requires (row, col) on the board, where the source throws.
- Engine.GameEngine.ApplyDiscEffect: requires (row, col) on the board, where the source throws.
- WinRules.WinRule.CheckCellWin: requires `rows` and `cols` equal to the array's dimensions. Smaller values in the source check a sub-board.
- WinRules.WinRule.WinCheck: same requirement on `rows` and `cols`.
- WinRules.WinRule.IsBoardFull: same requirement on `rows` and `cols`, and requires a row when there are columns. With no rows and some columns the source reads row -1 and throws; with no columns it returns true, as the model does.
- WinRules.WinRule.CheckBoardCellWin: requires the cell to be on the board, where `GetCell` throws in the source.
- WinRules.WinRule.BoardWinCheck: requires every listed cell to be on the board, where `GetCell` throws in the source.
- DataSave.Load: a saved board with no rows but some columns does not load back. Its jagged form reads back as 0 by 0 and the restore refuses it (see `DataSave.NoRowsNotLoadable`). The round trip holds for every other board.
