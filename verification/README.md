# Chess rules engine of RPG-Chess, modelled in Dafny

This project models the rules engine of RPG-Chess (`rpg_chess/Controller/chess_engine.py`).
That engine is made of two classes:

- `Move` is an immutable record of one board transition. It snapshots the moved and captured
  pieces, detects promotion, carries the en-passant flag and has an integer key that decides equality.
- `GameState` owns an 8x8 board that it changes in place. It also holds the turn flag, the move
  log, both king locations, the en-passant target and the checkmate and stalemate flags. It
  generates pseudo-legal moves piece by piece, filters out moves that leave the mover's king
  attacked by making, testing and undoing each one, and applies and undoes moves.

Layout:

- `pieces.dfy` (modules `Options`, `Pieces`): squares, the board as a value, the start position.
- `moves.dfy` (module `Moves`): the `Move` datatype, its constructor, `move_id` and `__eq__`, the rank/file tables and chess notation.
- `rules.dfy` (module `Rules`): the engine's behaviour as pure functions of a `State` value. These cover make and undo, each piece generator, the board scan, the attack test, the self-check filter and `list.remove`.
- `generation.dfy` (module `Generation`): what each generator emits, in both directions. It also proves that every generated move has the shape make and undo rely on, and that generated moves have pairwise distinct keys.
- `invariants.dfy` (module `Invariants`): the game-state invariant `Sound`. It holds at the start, every pseudo-legal move keeps it, and it makes every pseudo-legal move undoable. The module also holds the step lemmas of the filter loop.
- `engine.dfy` (module `Engine`): class `GameState`, with the board as an `array2<Square>` updated in place. Each method is proved to compute the function of `Rules` that specifies it: `Model()` after the call equals the `Rules` function of `old(Model())`.
- `clicks.dfy` (module `Clicks`): the move-entry step of the game loop in `main.py`, which turns two clicked cells into a `Move` and plays it when `get_valid_moves` offered an equal one.

Two details of the code shape the model:

- `undo_move` writes `piece_moved` back onto the start cell (chess_engine.py:54). Undoing a
  promotion therefore puts the pawn back, not the queen, and `Rules.UndoMakeRoundTrip` proves
  that undo right after make restores the board.
- `get_valid_moves` sets the checkmate and stalemate flags (chess_engine.py:107-114) before it
  writes the saved en-passant target back (chess_engine.py:116). The attack test behind the
  flags therefore sees the target left by the filter loop's last undo
  (`Invariants.EnPassantAfterFilter`), and the contract of `Engine.GameState.GetValidMoves`
  states that order.

## Model

| member | source | states |
|---|---|---|
| Pieces.Put | rpg_chess/Controller/chess_engine.py:26-27 | one write `board[row][col] = x` changes exactly that cell and keeps an 8x8 board |
| Moves.NewMove | rpg_chess/Controller/chess_engine.py:257-269 | `Move.__init__`: both pieces are read from the snapshot, promotion is set exactly when a pawn reaches its far rank, the en-passant flag makes the captured piece the opposing pawn, and the result is well formed |
| Moves.PromotesAt | rpg_chess/Controller/chess_engine.py:265 | a promotion is only ever flagged for a pawn landing on row 0 or row 7 |
| Moves.EnPassantVictim | rpg_chess/Controller/chess_engine.py:268-269 | the piece recorded as captured en passant is a pawn, of the colour opposite to a moving pawn |
| Moves.Move.MoveId | rpg_chess/Controller/chess_engine.py:271 | `move_id` of a move between two cells on the board lies between 0 and 7777 |
| Moves.MoveIdInjective | rpg_chess/Controller/chess_engine.py:271 | on the board, two moves have the same `move_id` exactly when their four coordinates match |
| Moves.Equal | rpg_chess/Controller/chess_engine.py:275-278 | on the board, two moves are `==` exactly when their four coordinates match, whatever pieces or flags they carry |
| Moves.RowTablesInverse | rpg_chess/Controller/chess_engine.py:249-251 | `rows_to_ranks` and `ranks_to_rows` are inverse to each other on all eight rows and ranks |
| Moves.ColTablesInverse | rpg_chess/Controller/chess_engine.py:253-255 | `cols_to_files` and `files_to_cols` are inverse to each other on all eight columns and files |
| Moves.RankFile | rpg_chess/Controller/chess_engine.py:283-284 | `get_rank_file` is two characters, the file letter of the column then the rank digit of the row |
| Moves.ChessNotation | rpg_chess/Controller/chess_engine.py:280-281 | `get_chess_notation` is four characters: start file, start rank, end file, end rank |
| Moves.ParseSquare | rpg_chess/Controller/chess_engine.py:249-255 | reading a cell name through the forward tables yields only cells on the board |
| Moves.RankFileRoundTrip | rpg_chess/Controller/chess_engine.py:283-284 | every cell's name reads back as that cell, and the only text that reads back as a cell is its name |
| Moves.NotationRoundTrip | rpg_chess/Controller/chess_engine.py:271-284 | a move's notation reads back as its two cells, and two moves are equal exactly when their notations are |
| Rules.InitialState | rpg_chess/Controller/chess_engine.py:2-22 | the start position: white to move, empty log, no en-passant target, kings on (7,4) and (0,4) standing where their location fields say, black pawns on row 1, white pawns on row 6, rows 2 to 5 empty |
| Rules.MakeMove | rpg_chess/Controller/chess_engine.py:25-48 | make_move keeps an 8x8 board (its full effect is stated by `Rules.MakeMoveEffects`) |
| Rules.MakeMoveEffects | rpg_chess/Controller/chess_engine.py:25-48 | make_move empties the start cell and puts the mover (a queen of its colour on promotion) on the end cell. An en-passant capture empties the cell beside the start. Every other cell is unchanged. The move is logged, the turn passes, a moving king's location follows it, and the en-passant target is the skipped cell of a two-row pawn step and cleared otherwise. No pawn is left on its last rank. |
| Rules.UndoMove | rpg_chess/Controller/chess_engine.py:51-69 | undo_move is a no-op on an empty log; otherwise it pops the last move and passes the turn back |
| Rules.TargetNotRead | rpg_chess/Controller/chess_engine.py:25-48 | make_move never reads the en-passant target, and neither does whether a move can be undone |
| Rules.UndoMakeRoundTrip | rpg_chess/Controller/chess_engine.py:25-69 | undo right after make restores board (promotions included), turn, log and both kings. The en-passant target becomes the landing cell of an en-passant capture and is cleared otherwise. |
| Rules.PawnMoves | rpg_chess/Controller/chess_engine.py:131-166 | every pawn move is well formed and starts on the pawn's cell |
| Rules.PawnPush | rpg_chess/Controller/chess_engine.py:134-138 | the single and double pushes are well formed and start on the pawn's cell |
| Rules.PawnCapture | rpg_chess/Controller/chess_engine.py:139-148 | the diagonal capture toward one column is well formed and starts on the pawn's cell |
| Rules.Ray | rpg_chess/Controller/chess_engine.py:174-188 | the steps of one slide direction are well formed and start on the sliding piece's cell |
| Rules.Slides | rpg_chess/Controller/chess_engine.py:169-209 | the slides along a direction table are well formed and start on the piece's cell |
| Rules.Jump | rpg_chess/Controller/chess_engine.py:220-228 | one knight or king step is well formed and starts on the piece's cell |
| Rules.Jumps | rpg_chess/Controller/chess_engine.py:215-243 | the steps along an offset table are well formed and start on the piece's cell |
| Rules.PieceMoves | rpg_chess/Controller/chess_engine.py:124-128 | every move handed out for a cell is well formed and starts on that cell |
| Rules.RowMoves | rpg_chess/Controller/chess_engine.py:123-128 | the inner scan over the first `n` columns of a row yields well-formed moves starting in that row, left of column `n` |
| Rules.ScanMoves | rpg_chess/Controller/chess_engine.py:122-128 | the outer scan over the first `n` rows yields well-formed moves starting above row `n` |
| Rules.AllMoves | rpg_chess/Controller/chess_engine.py:120-129 | get_all_possible_moves yields only well-formed moves (which moves it yields is stated by `Generation.AllMovesIff`) |
| Rules.SquareUnderAttack | rpg_chess/Controller/chess_engine.py:77-85 | only a cell on the board can be attacked |
| Rules.KingInCheck | rpg_chess/Controller/chess_engine.py:71-75 | the side to move can only be in check when its king location is on the board |
| Rules.LeavesKingInCheck | rpg_chess/Controller/chess_engine.py:97-101 | a trial move leaves its mover in check exactly when, after the move with the turn handed back, the other side attacks the mover's king: its landing cell when the king moved, its old location otherwise |
| Rules.Keep | rpg_chess/Controller/chess_engine.py:95-105 | the filter never lengthens the list |
| Rules.KeepIff | rpg_chess/Controller/chess_engine.py:95-105 | a move survives the self-check filter exactly when it was offered, is well formed and does not leave its mover's king attacked |
| Rules.ValidMoves | rpg_chess/Controller/chess_engine.py:88-117 | the moves get_valid_moves returns are exactly the pseudo-legal moves that do not leave the mover's king attacked, and there are no more of them than pseudo-legal moves |
| Rules.RemoveFirst | rpg_chess/Controller/chess_engine.py:102 | `list.remove` fails exactly when no element is `==` the argument, and otherwise removes one element |
| Rules.RemoveFirstAt | rpg_chess/Controller/chess_engine.py:102 | when no earlier element equals position i, `remove(moves[i])` removes exactly position i |
| Generation.PawnMovesIff | rpg_chess/Controller/chess_engine.py:131-166 | get_pawn_moves emits a move exactly when the pawn rule allows it. The rule covers the single push onto an empty cell, the double push from the home row over two empty cells, and the diagonal capture of an enemy piece or, failing that, the en-passant capture onto the target. |
| Generation.RayIff | rpg_chess/Controller/chess_engine.py:174-188 | one direction of a slide emits a move to step k exactly when step k is on the board and enterable and every earlier step is empty |
| Generation.SlidesIff | rpg_chess/Controller/chess_engine.py:169-209 | the rook and bishop loops emit exactly the moves to slide targets of one of their directions |
| Generation.JumpsIff | rpg_chess/Controller/chess_engine.py:215-243 | the knight and king loops emit exactly the moves to on-board, empty or enemy cells at one of their offsets |
| Generation.DirectionTables | rpg_chess/Controller/chess_engine.py:170-191 | the rook and bishop direction tables are eight distinct unit steps with none in common |
| Generation.OffsetTables | rpg_chess/Controller/chess_engine.py:216-231 | the knight and king offset tables each list eight distinct non-zero offsets |
| Generation.PawnGenerated | rpg_chess/Controller/chess_engine.py:131-166 | every pawn move has the generated shape that make and undo rely on |
| Generation.SlideGenerated | rpg_chess/Controller/chess_engine.py:169-209 | every rook, bishop or queen move has the generated shape |
| Generation.JumpGenerated | rpg_chess/Controller/chess_engine.py:215-243 | every knight or king move has the generated shape |
| Generation.PieceMovesGenerated | rpg_chess/Controller/chess_engine.py:124-128 | every move generated for a cell has the generated shape, whatever the piece kind |
| Generation.RowMovesOrigin | rpg_chess/Controller/chess_engine.py:123-128 | every move of the inner scan over a row was produced by the generator of its own start cell |
| Generation.ScanMovesOrigin | rpg_chess/Controller/chess_engine.py:122-128 | every move of the outer scan over the rows was produced by the generator of its own start cell |
| Generation.RowAdds | rpg_chess/Controller/chess_engine.py:123-128 | the inner scan up to and including a cell holds every move that cell's generator hands out |
| Generation.RowMovesMonotone | rpg_chess/Controller/chess_engine.py:123-128 | scanning more cells of a row only appends: the shorter scan is a prefix of the longer |
| Generation.ScanAdds | rpg_chess/Controller/chess_engine.py:122-128 | the outer scan up to and including a row holds every move of that row's inner scan |
| Generation.ScanMovesMonotone | rpg_chess/Controller/chess_engine.py:122-128 | scanning more rows only appends: the shorter scan is a prefix of the longer |
| Generation.AllMovesIff | rpg_chess/Controller/chess_engine.py:120-129 | a move is pseudo-legal exactly when it starts on the board and the generator of its start cell hands it out |
| Generation.AllMovesGenerated | rpg_chess/Controller/chess_engine.py:120-129 | every pseudo-legal move starts on a piece of the side to move and lands elsewhere, on an enterable cell whose content it records, or is an en-passant capture of the current target; a two-row pawn move is a double push |
| Generation.RayDistinctEnds | rpg_chess/Controller/chess_engine.py:174-188 | one direction of a slide never lands twice on a cell |
| Generation.SlidesDistinctEnds | rpg_chess/Controller/chess_engine.py:173-188 | slides along distinct unit directions never land twice on a cell |
| Generation.SlidesDisjoint | rpg_chess/Controller/chess_engine.py:211-213 | the queen's rook part and bishop part never land on a common cell |
| Generation.JumpsDistinctEnds | rpg_chess/Controller/chess_engine.py:219-243 | distinct offsets never land twice on a cell |
| Generation.PawnDistinctEnds | rpg_chess/Controller/chess_engine.py:131-166 | a pawn's pushes and captures land on distinct cells |
| Generation.PieceDistinctIds | rpg_chess/Controller/chess_engine.py:124-128 | the moves of one piece have pairwise distinct `move_id`s |
| Generation.AllMovesDistinctIds | rpg_chess/Controller/chess_engine.py:120-129 | no two pseudo-legal moves are `==`, so `moves.remove(moves[i])` in the filter removes position i itself |
| Invariants.InitialStateSound | rpg_chess/Controller/chess_engine.py:2-22 | the start position has no pawn on its last rank and both kings where their location fields say |
| Invariants.GeneratedRestorable | rpg_chess/Controller/chess_engine.py:51-69 | under the invariant, every move of the generated shape can be undone exactly |
| Invariants.MakeMovePreservesSound | rpg_chess/Controller/chess_engine.py:25-48 | every pseudo-legal move keeps the invariant: no pawn on its last rank, king locations tracked, en-passant target empty with the enemy pawn just beyond it |
| Invariants.ValidMovePreservesSound | rpg_chess/Controller/chess_engine.py:88-117 | a move get_valid_moves returns is pseudo-legal and leaves no self-check; playing it keeps the invariant, and it can be undone |
| Invariants.UndoAfterMakeSound | rpg_chess/Controller/chess_engine.py:25-69 | undoing a pseudo-legal move right after making it leaves a state that keeps the invariant, including the en-passant target that undo sets |
| Invariants.NoKingCapture | rpg_chess/Controller/chess_engine.py:88-117 | after a move get_valid_moves returns, no move the other side can generate lands on a cell holding a king |
| Invariants.EnPassantAfterFilter | rpg_chess/Controller/chess_engine.py:95-116 | the en-passant target the filter loop leaves behind is the original target or none |
| Invariants.KeepAt | rpg_chess/Controller/chess_engine.py:95-105 | filtering from position i is the verdict on position i followed by the filtered rest |
| Invariants.RemoveAfterPrefix | rpg_chess/Controller/chess_engine.py:102 | with distinct keys, removing the i-th move after a filtered suffix drops exactly that move |
| Invariants.PseudoLegalRestorable | rpg_chess/Controller/chess_engine.py:95-105 | under the invariant, every pseudo-legal move can be tried and undone |
| Invariants.FilterStep | rpg_chess/Controller/chess_engine.py:95-105 | one backward step of the filter: position i holds the i-th pseudo-legal move; removing it, or keeping it, yields the list filtered from position i |
| Engine.GameState.constructor | rpg_chess/Controller/chess_engine.py:2-22 | a new game is the start position, white to move, empty log, kings on (7,4) and (0,4), no en-passant target, no terminal flag |
| Engine.GameState.SetCell | rpg_chess/Controller/chess_engine.py:26 | one in-place write to the board array changes exactly that cell of the board value |
| Engine.GameState.MakeMove | rpg_chess/Controller/chess_engine.py:25-48 | make_move changes the board in place and the fields so that the new state is `Rules.MakeMove` of the old |
| Engine.GameState.MakeMoveSteps | rpg_chess/Controller/chess_engine.py:25-48 | the stages of make_move's writes (board, log, turn, kings, promotion, en passant, target) add up to `Rules.MakeMove` |
| Engine.GameState.UndoMove | rpg_chess/Controller/chess_engine.py:51-69 | undo_move changes the board and fields in place so that the new state is `Rules.UndoMove` of the old |
| Engine.GameState.IsKingInCheck | rpg_chess/Controller/chess_engine.py:71-75 | answers whether the side to move's king location is attacked, and leaves the turn as it found it |
| Engine.GameState.IsSquareUnderAttack | rpg_chess/Controller/chess_engine.py:77-85 | answers whether some move of the other side ends on the cell, and leaves the turn as it found it |
| Engine.GameState.GetValidMoves | rpg_chess/Controller/chess_engine.py:88-117 | returns the pseudo-legal moves, in generation order, that do not leave the mover's king attacked. Board, turn, log, kings and en-passant target are as before. With moves left both flags are cleared; with none, checkmate is set when the king is attacked and stalemate otherwise. |
| Engine.GameState.DecideTerminal | rpg_chess/Controller/chess_engine.py:107-114 | with no move left, checkmate is set when the side to move is in check and stalemate otherwise; with moves left both flags are cleared |
| Engine.GameState.FilterMoves | rpg_chess/Controller/chess_engine.py:95-105 | the backward loop leaves exactly the moves that do not leave the mover in check, with the state restored except the en-passant target set by the last undo |
| Engine.GameState.FilterAt | rpg_chess/Controller/chess_engine.py:96-105 | one pass of the loop at position i turns the list filtered from i+1 into the list filtered from i |
| Engine.GameState.TrialMove | rpg_chess/Controller/chess_engine.py:97-105 | make, flip, check, flip, undo: answers whether the move leaves its mover's king attacked and restores everything but the en-passant target |
| Engine.GameState.GetAllPossibleMoves | rpg_chess/Controller/chess_engine.py:120-129 | the row-by-row, cell-by-cell scan returns `Rules.AllMoves` of the current state |
| Engine.GameState.CellMoves | rpg_chess/Controller/chess_engine.py:124-128 | a piece of the side to move is handed to the generator of its kind; other cells add nothing |
| Engine.GameState.GetPawnMoves | rpg_chess/Controller/chess_engine.py:131-166 | appends exactly `Rules.PawnMoves` of the current state |
| Engine.GameState.PawnCaptureMoves | rpg_chess/Controller/chess_engine.py:139-148 | appends the diagonal capture toward one column: an enemy piece there, or failing that the en-passant target |
| Engine.GameState.GetRookMoves | rpg_chess/Controller/chess_engine.py:169-188 | appends the slides along up, left, down, right |
| Engine.GameState.GetBishopMoves | rpg_chess/Controller/chess_engine.py:190-209 | appends the slides along the four diagonals |
| Engine.GameState.GetQueenMoves | rpg_chess/Controller/chess_engine.py:211-213 | appends the rook moves followed by the bishop moves |
| Engine.GameState.GetKnightMoves | rpg_chess/Controller/chess_engine.py:215-228 | appends the knight steps that land on an empty or enemy cell |
| Engine.GameState.GetKingMoves | rpg_chess/Controller/chess_engine.py:230-243 | appends the king steps that land on an empty or enemy cell |
| Engine.GameState.SlideMoves | rpg_chess/Controller/chess_engine.py:173-188 | the direction loop appends each direction's ray in table order |
| Engine.GameState.RayMoves | rpg_chess/Controller/chess_engine.py:174-188 | the step loop appends empty cells until the edge or the first piece, which is kept only when it is an enemy |
| Engine.GameState.JumpMoves | rpg_chess/Controller/chess_engine.py:219-228 | the offset loop appends each offset's step in table order |
| Engine.GameState.JumpStep | rpg_chess/Controller/chess_engine.py:220-228 | one offset is kept exactly when it lands on the board on an empty or enemy cell |
| Clicks.FindEqual | main.py:46 | `move in valid_moves` finds an offered move `==` the clicked one exactly when one exists, and points at it |
| Clicks.PlayClicksAsWritten | main.py:42-47 | as written, the clicked cells play a move built without the en-passant flag, and play nothing when no offered move is equal |
| Clicks.EnPassantByClicksKeepsVictim | main.py:42-47 | an offered en-passant capture entered by clicks leaves the captured pawn on the board, where the offered move removes it |
| Clicks.PlayClicks | main.py:42-47 | the intended step plays nothing when no offered move is equal to the clicked one |
| Clicks.SameCellsSameMove | rpg_chess/Controller/chess_engine.py:120-129 | two pseudo-legal moves between the same cells are the same move |
| Clicks.PlayClicksPlaysIt | main.py:42-47 | under the intended step, clicking the cells of an offered move plays exactly that move |
| Clicks.PlayClicksPlaysOfferedMove | main.py:42-47 | under the intended step, clicking an offered move's cells plays it, keeps the invariant and removes a pawn captured en passant; other clicks change nothing |

## Left out

- The user interface (`main.py`, `rpg_chess/View/draw.py`, the pygame constants): window, sprites, pixel-to-cell conversion, click selection and the event loop are not part of this model. Only the step that turns two clicked cells into a played move (main.py:42-47) is modelled, in module `Clicks`; the cells are parameters.
- `move_functions`, the dictionary from piece letter to bound generator method, becomes a `match` on the piece kind in `Engine.GameState.CellMoves`.
- Piece codes such as `"wP"` become the `Square` datatype. The empty tuple `()` used for "no en-passant target" becomes `None`.
- Engine.GameState.GetPawnMoves: requires that the pawn is not on its last rank. There the source would read row -1 (which Python wraps to row 7) or row 8 (an `IndexError`). The invariant `NoPawnOnLastRank`, kept by every move because promotion replaces the pawn, shows this never happens from a reachable position.
- Rules.UndoMove: undo does not restore the en-passant target that was in force before the undone move, and the model states it exactly as the code leaves it. Undo right after make keeps the invariant `Sound` (`Invariants.UndoAfterMakeSound`). Undoing an older log entry, one not made from the current state, is not claimed to keep it; that would need an invariant over the whole move history.
- Invariants.KingsTracked: states only that every king stands on its location field. That a location field always points at a king is not claimed.
- Engine.GameState.RayMoves: the source leaves the step loop with `break`; the model returns from a helper method that holds that loop. The helpers `SlideMoves`, `RayMoves`, `JumpMoves`, `JumpStep`, `PawnCaptureMoves`, `FilterMoves`, `FilterAt`, `TrialMove` and `DecideTerminal` split the source's loops and branches without changing their order.
- Python's dynamic typing is not modelled: `Move.__eq__` returning `False` for a non-Move.
- `list.remove` raising `ValueError` is modelled as `None` from `Rules.RemoveFirst`. `Engine.GameState.FilterAt` proves that this case never happens in the filter loop, because the loop removes an element of the list itself.

## Findings

| source | as written | input that shows it | evidently intended | confidence | as-written member | corrected member |
|---|---|---|---|---|---|---|
| main.py:43-47 | the game loop plays its own `Move(player_clicks[0], player_clicks[1], gs.board)`, built without the en-passant flag, once an offered move is `==` to it | white pawn on e5, black has just played d7-d5; white clicks e5 then d6: the en-passant capture is offered and matched, but the played move leaves the black pawn on d5 | play the offered move that matched, so the en-passant capture removes the pawn | not executed | Clicks.EnPassantByClicksKeepsVictim | Clicks.PlayClicksPlaysOfferedMove |
