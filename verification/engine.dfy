/**
 * GameState: the board changed in place, the turn, the move log, both king locations,
 * the en-passant target and the terminal flags. Each method is proved to compute the
 * function of module Rules that specifies it.
 */
module Engine {
  import opened Options
  import opened Pieces
  import opened Moves
  import opened Rules
  import opened Generation
  import opened Invariants

  class GameState {
    const board: array2<Square>
    var whiteToMove: bool
    var moveLog: seq<Move>
    var whiteKingLocation: (int, int)
    var blackKingLocation: (int, int)
    var checkmate: bool
    var stalemate: bool
    var enpassantPossible: Option<(int, int)>

    ghost predicate Valid()
      reads this`moveLog
    {
      board.Length0 == Dimension && board.Length1 == Dimension && LogWellFormed(moveLog)
    }

    /** The board as a value: what a Move snapshots when it is built. */
    function Cells(): (b: Board)
      reads board
      requires board.Length0 == Dimension && board.Length1 == Dimension
      ensures IsBoard(b)
    {
      seq(Dimension, i requires 0 <= i < board.Length0 reads board =>
        seq(Dimension, j requires 0 <= j < board.Length1 reads board => board[i, j]))
    }

    /** Cell (i, j) of the snapshot is board[i][j]. */
    lemma CellAt(i: int, j: int)
      requires board.Length0 == Dimension && board.Length1 == Dimension && OnBoard(i, j)
      ensures At(Cells(), i, j) == board[i, j]
    {
    }

    /** Every cell of the snapshot is the array's cell. */
    lemma CellsAt()
      requires board.Length0 == Dimension && board.Length1 == Dimension
      ensures forall i, j :: OnBoard(i, j) ==> At(Cells(), i, j) == board[i, j]
    {
    }

    /** Everything but the terminal flags, as a value of Rules.State. */
    ghost function Model(): State
      reads this`whiteToMove, this`moveLog, this`whiteKingLocation, this`blackKingLocation
      reads this`enpassantPossible, board
      requires Valid()
    {
      State(Cells(), whiteToMove, moveLog, whiteKingLocation, blackKingLocation, enpassantPossible)
    }

    /** A new game: the start position, white to move. */
    constructor ()
      ensures Valid() && Model() == InitialState()
      ensures !checkmate && !stalemate
    {
      board := new Square[Dimension, Dimension]((i, j) requires 0 <= i < Dimension && 0 <= j < Dimension =>
        InitialBoard[i][j]);
      whiteToMove := true;
      moveLog := [];
      whiteKingLocation := (7, 4);
      blackKingLocation := (0, 4);
      checkmate := false;
      stalemate := false;
      enpassantPossible := None;
      new;
      CellsAt();
      SameBoard(Cells(), InitialBoard);
    }

    /** One in-place write, `board[row][col] = x`. */
    method SetCell(row: int, col: int, x: Square)
      requires board.Length0 == Dimension && board.Length1 == Dimension && OnBoard(row, col)
      modifies board
      ensures Cells() == Put(old(Cells()), row, col, x)
    {
      ghost var b0 := Cells();
      CellsAt();
      board[row, col] := x;
      CellsAt();
      SameBoard(Cells(), Put(b0, row, col, x));
    }

    /** make_move: applies `move` to the board in place and records it. */
    method MakeMove(move: Move)
      requires Valid() && move.WellFormed()
      modifies this`whiteToMove, this`moveLog, this`whiteKingLocation, this`blackKingLocation
      modifies this`enpassantPossible, board
      ensures Valid()
      ensures Model() == Rules.MakeMove(old(Model()), move)
    {
      ghost var s0 := Model();
      SetCell(move.startRow, move.startCol, Empty);
      SetCell(move.endRow, move.endCol, move.pieceMoved);
      ghost var b1 := Cells();
      moveLog := moveLog + [move];
      whiteToMove := !whiteToMove;
      if move.pieceMoved == Piece(White, King) {
        whiteKingLocation := (move.endRow, move.endCol);
      } else if move.pieceMoved == Piece(Black, King) {
        blackKingLocation := (move.endRow, move.endCol);
      }
      assert whiteKingLocation == if move.pieceMoved == Piece(White, King) then (move.endRow, move.endCol) else s0.whiteKingLocation;
      assert blackKingLocation == if move.pieceMoved == Piece(Black, King) then (move.endRow, move.endCol) else s0.blackKingLocation;
      if move.isPawnPromotion {
        SetCell(move.endRow, move.endCol, Piece(move.pieceMoved.color, Queen));
      }
      ghost var b2 := Cells();
      assert b2 == if move.isPawnPromotion then Put(b1, move.endRow, move.endCol, Piece(move.pieceMoved.color, Queen)) else b1;
      if move.isEnpassant {
        SetCell(move.startRow, move.endCol, Empty);
      }
      assert Cells() == if move.isEnpassant then Put(b2, move.startRow, move.endCol, Empty) else b2;
      if IsDoublePawnStep(move) {
        enpassantPossible := Some(((move.startRow + move.endRow) / 2, move.startCol));
      } else {
        enpassantPossible := None;
      }
      MakeMoveSteps(s0, move, b1, b2, Model());
    }

    /** The stages of make_move's writes add up to Rules.MakeMove. */
    static lemma MakeMoveSteps(s0: State, move: Move, b1: Board, b2: Board, t: State)
      requires IsBoard(s0.board) && move.WellFormed()
      requires b1 == Put(Put(s0.board, move.startRow, move.startCol, Empty), move.endRow, move.endCol, move.pieceMoved)
      requires b2 == if move.isPawnPromotion then Put(b1, move.endRow, move.endCol, Piece(move.pieceMoved.color, Queen)) else b1
      requires t.board == if move.isEnpassant then Put(b2, move.startRow, move.endCol, Empty) else b2
      requires t.moveLog == s0.moveLog + [move] && t.whiteToMove == !s0.whiteToMove
      requires t.whiteKingLocation == if move.pieceMoved == Piece(White, King) then (move.endRow, move.endCol) else s0.whiteKingLocation
      requires t.blackKingLocation == if move.pieceMoved == Piece(Black, King) then (move.endRow, move.endCol) else s0.blackKingLocation
      requires t.enpassantPossible == if IsDoublePawnStep(move) then Some(((move.startRow + move.endRow) / 2, move.startCol)) else None
      ensures Rules.MakeMove(s0, move) == t
    {
    }

    /** undo_move: reverses the last logged move; does nothing when the log is empty. */
    method UndoMove()
      requires Valid()
      modifies this`whiteToMove, this`moveLog, this`whiteKingLocation, this`blackKingLocation
      modifies this`enpassantPossible, board
      ensures Valid()
      ensures Model() == Rules.UndoMove(old(Model()))
    {
      if |moveLog| != 0 {
        ghost var s0 := Model();
        var move := moveLog[|moveLog| - 1];
        assert move in moveLog;
        ghost var b1 := Put(Put(s0.board, move.startRow, move.startCol, move.pieceMoved), move.endRow, move.endCol, move.pieceCaptured);
        moveLog := moveLog[..|moveLog| - 1];
        SetCell(move.startRow, move.startCol, move.pieceMoved);
        SetCell(move.endRow, move.endCol, move.pieceCaptured);
        whiteToMove := !whiteToMove;
        if move.pieceMoved == Piece(White, King) {
          whiteKingLocation := (move.startRow, move.startCol);
        } else if move.pieceMoved == Piece(Black, King) {
          blackKingLocation := (move.startRow, move.startCol);
        }
        if move.isEnpassant {
          SetCell(move.endRow, move.endCol, Empty);
          SetCell(move.startRow, move.endCol, move.pieceCaptured);
          enpassantPossible := Some((move.endRow, move.endCol));
        }
        if IsDoublePawnStep(move) {
          enpassantPossible := None;
        }
        assert Cells() == if move.isEnpassant then Put(Put(b1, move.endRow, move.endCol, Empty), move.startRow, move.endCol, move.pieceCaptured) else b1;
        assert Model() == Rules.UndoMove(s0);
      }
    }

    /** is_king_in_check: is the side to move's king location attacked? */
    method IsKingInCheck() returns (inCheck: bool)
      requires Valid() && NoPawnOnLastRank(Cells())
      modifies this`whiteToMove
      ensures whiteToMove == old(whiteToMove)
      ensures inCheck == KingInCheck(Model())
    {
      if whiteToMove {
        inCheck := IsSquareUnderAttack(whiteKingLocation.0, whiteKingLocation.1);
      } else {
        inCheck := IsSquareUnderAttack(blackKingLocation.0, blackKingLocation.1);
      }
    }

    /** is_square_under_attack: generates the other side's moves and looks for one ending on (row, col). */
    method IsSquareUnderAttack(row: int, col: int) returns (attacked: bool)
      requires Valid() && NoPawnOnLastRank(Cells())
      modifies this`whiteToMove
      ensures whiteToMove == old(whiteToMove)
      ensures attacked == SquareUnderAttack(Model(), row, col)
    {
      whiteToMove := !whiteToMove;
      var opponentMoves := GetAllPossibleMoves();
      whiteToMove := !whiteToMove;
      for i := 0 to |opponentMoves|
        invariant forall k :: 0 <= k < i ==> opponentMoves[k].endRow != row || opponentMoves[k].endCol != col
      {
        if opponentMoves[i].endRow == row && opponentMoves[i].endCol == col {
          return true;
        }
      }
      return false;
    }

    /**
     * get_valid_moves: tries every pseudo-legal move (from the back of the list), removes
     * those after which the mover's king is attacked, undoes each trial, restores the
     * en-passant target and sets the terminal flags.
     */
    method GetValidMoves() returns (moves: seq<Move>)
      requires Valid() && Sound(Model())
      modifies this, board
      ensures Valid() && Model() == old(Model())
      ensures moves == ValidMoves(old(Model()))
      ensures moves != [] ==> !checkmate && !stalemate
      ensures moves == [] ==>
        var inCheck := KingInCheck(old(Model()).(enpassantPossible := EnPassantAfterFilter(old(Model()))));
        (inCheck ==> checkmate && stalemate == old(stalemate)) &&
        (!inCheck ==> stalemate && checkmate == old(checkmate))
    {
      ghost var s := Model();
      var tempEnpassantPossible := enpassantPossible;
      var all := GetAllPossibleMoves();
      moves := FilterMoves(s, all);
      ghost var filtered := Model();
      DecideTerminal(filtered, |moves| == 0);
      enpassantPossible := tempEnpassantPossible;
      assert Model() == s;
    }

    /**
     * The end of get_valid_moves: with no move left the game is over, checkmate when the
     * side to move is in check and stalemate otherwise; with moves left both flags are cleared.
     */
    method DecideTerminal(ghost s: State, noMoves: bool)
      requires Valid() && Model() == s && NoPawnOnLastRank(s.board)
      modifies this`whiteToMove, this`checkmate, this`stalemate
      ensures Valid() && Model() == s
      ensures !noMoves ==> !checkmate && !stalemate
      ensures noMoves && KingInCheck(s) ==> checkmate && stalemate == old(stalemate)
      ensures noMoves && !KingInCheck(s) ==> stalemate && checkmate == old(checkmate)
    {
      if noMoves {
        var inCheck := IsKingInCheck();
        if inCheck {
          checkmate := true;
        } else {
          stalemate := true;
        }
      } else {
        checkmate := false;
        stalemate := false;
      }
    }

    /**
     * The loop of get_valid_moves: from the back of the list, each pseudo-legal move is
     * tried and removed when it leaves the mover's king attacked. The board, turn, log and
     * kings come back unchanged; the en-passant target is left as the last undo set it.
     */
    method FilterMoves(ghost s: State, all: seq<Move>) returns (moves: seq<Move>)
      requires Valid() && Sound(s) && Model() == s && all == AllMoves(s)
      modifies this`whiteToMove, this`moveLog, this`whiteKingLocation, this`blackKingLocation
      modifies this`enpassantPossible, board
      ensures Valid() && Model() == s.(enpassantPossible := EnPassantAfterFilter(s))
      ensures moves == ValidMoves(s)
    {
      moves := all;
      assert all == Filtered(s, all, |all|);
      for i := |all| downto 0
        invariant Valid() && Model() == s.(enpassantPossible := TargetAfter(s, all, i))
        invariant moves == Filtered(s, all, i)
      {
        moves := FilterAt(s, all, i, moves);
      }
      assert all[..0] == [] && all[0..] == all;
    }

    /**
     * One pass of get_valid_moves' loop at position i: the i-th pseudo-legal move is tried
     * and, when it leaves the mover's king attacked, removed from the list.
     */
    method FilterAt(ghost s: State, ghost all: seq<Move>, i: int, moves: seq<Move>) returns (kept: seq<Move>)
      requires Valid() && Sound(s) && all == AllMoves(s) && 0 <= i < |all|
      requires Model() == s.(enpassantPossible := TargetAfter(s, all, i + 1))
      requires moves == Filtered(s, all, i + 1)
      modifies this`whiteToMove, this`moveLog, this`whiteKingLocation, this`blackKingLocation
      modifies this`enpassantPossible, board
      ensures Valid() && Model() == s.(enpassantPossible := TargetAfter(s, all, i))
      ensures kept == Filtered(s, all, i)
    {
      PseudoLegalRestorable(s, i);
      AllMovesDistinctIds(s);
      FilterStep(s, all, i, moves);
      TargetNotRead(s, moves[i], enpassantPossible);
      var inCheck := TrialMove(moves[i]);
      kept := moves;
      if inCheck {
        kept := RemoveFirst(moves, moves[i]).value;
      }
    }

    /**
     * The trial in get_valid_moves' loop: make the move, hand the turn back to its mover,
     * ask whether that king is attacked, hand the turn on again and undo the move. Everything
     * is restored except the en-passant target, which undo leaves at the landing cell of an
     * en-passant capture and clears otherwise.
     */
    method TrialMove(move: Move) returns (inCheck: bool)
      requires Valid() && NoPawnOnLastRank(Cells()) && move.WellFormed() && Restorable(Model(), move)
      modifies this`whiteToMove, this`moveLog, this`whiteKingLocation, this`blackKingLocation
      modifies this`enpassantPossible, board
      ensures Valid()
      ensures Model() == old(Model()).(enpassantPossible :=
        if move.isEnpassant then Some((move.endRow, move.endCol)) else None)
      ensures inCheck == LeavesKingInCheck(old(Model()), move)
    {
      ghost var before := Model();
      MakeMove(move);
      whiteToMove := !whiteToMove;
      inCheck := IsKingInCheck();
      whiteToMove := !whiteToMove;
      UndoMove();
      UndoMakeRoundTrip(before, move);
    }

    /** get_all_possible_moves: scans the board row by row, cell by cell. */
    method GetAllPossibleMoves() returns (moves: seq<Move>)
      requires Valid() && NoPawnOnLastRank(Cells())
      ensures moves == AllMoves(Model())
    {
      ghost var s := Model();
      moves := [];
      for row := 0 to Dimension
        invariant moves == ScanMoves(s, row)
      {
        for col := 0 to Dimension
          invariant moves == ScanMoves(s, row) + RowMoves(s, row, col)
        {
          moves := CellMoves(row, col, moves);
          ConcatAssoc(ScanMoves(s, row), RowMoves(s, row, col), PieceMoves(s, row, col));
          assert RowMoves(s, row, col + 1) == RowMoves(s, row, col) + PieceMoves(s, row, col);
        }
        assert ScanMoves(s, row + 1) == ScanMoves(s, row) + RowMoves(s, row, Dimension);
      }
    }

    /**
     * The body of get_all_possible_moves' inner loop: a piece of the side to move is handed
     * to the generator for its kind (the source's move_functions table).
     */
    method CellMoves(row: int, col: int, moves: seq<Move>) returns (result: seq<Move>)
      requires Valid() && NoPawnOnLastRank(Cells()) && OnBoard(row, col)
      ensures result == moves + PieceMoves(Model(), row, col)
    {
      ghost var s := Model();
      result := moves;
      var piece := board[row, col];
      CellAt(row, col);
      if piece.Piece? && piece.color == (if whiteToMove then White else Black) {
        match piece.kind
        case Pawn =>
          result := GetPawnMoves(row, col, moves);
          assert PieceMoves(s, row, col) == PawnMoves(s, row, col);
        case Rook =>
          result := GetRookMoves(row, col, moves);
          assert PieceMoves(s, row, col) == Slides(s, row, col, RookDirections);
        case Knight =>
          result := GetKnightMoves(row, col, moves);
          assert PieceMoves(s, row, col) == Jumps(s, row, col, KnightOffsets);
        case Bishop =>
          result := GetBishopMoves(row, col, moves);
          assert PieceMoves(s, row, col) == Slides(s, row, col, BishopDirections);
        case Queen =>
          result := GetQueenMoves(row, col, moves);
          ConcatAssoc(moves, Slides(s, row, col, RookDirections), Slides(s, row, col, BishopDirections));
          assert PieceMoves(s, row, col) == Slides(s, row, col, RookDirections) + Slides(s, row, col, BishopDirections);
        case King =>
          result := GetKingMoves(row, col, moves);
          assert PieceMoves(s, row, col) == Jumps(s, row, col, KingOffsets);
      } else {
        assert PieceMoves(s, row, col) == [];
      }
    }

    /** get_pawn_moves: pushes onto empty cells, diagonal captures, en-passant captures. */
    method GetPawnMoves(row: int, col: int, moves: seq<Move>) returns (result: seq<Move>)
      requires Valid() && OnBoard(row, col)
      requires whiteToMove ==> row != 0
      requires !whiteToMove ==> row != Dimension - 1
      ensures result == moves + PawnMoves(Model(), row, col)
    {
      ghost var s := Model();
      var snapshot := Cells();
      var forward := if whiteToMove then -1 else 1;
      var home := if whiteToMove then 6 else 1;
      result := moves;
      CellAt(row + forward, col);
      if board[row + forward, col] == Empty {
        result := result + [NewMove((row, col), (row + forward, col), snapshot, false)];
        if row == home {
          CellAt(row + 2 * forward, col);
        }
        if row == home && board[row + 2 * forward, col] == Empty {
          result := result + [NewMove((row, col), (row + 2 * forward, col), snapshot, false)];
        }
      }
      ghost var push := result;
      assert push == moves + PawnPush(s, row, col);
      result := PawnCaptureMoves(row, col, col - 1, result);
      result := PawnCaptureMoves(row, col, col + 1, result);
      ConcatAssoc(moves, PawnPush(s, row, col), PawnCapture(s, row, col, col - 1));
      ConcatAssoc(moves, PawnPush(s, row, col) + PawnCapture(s, row, col, col - 1), PawnCapture(s, row, col, col + 1));
    }

    /** The diagonal part of get_pawn_moves toward column `toCol`. */
    method PawnCaptureMoves(row: int, col: int, toCol: int, moves: seq<Move>) returns (result: seq<Move>)
      requires Valid() && OnBoard(row, col)
      requires whiteToMove ==> row != 0
      requires !whiteToMove ==> row != Dimension - 1
      ensures result == moves + PawnCapture(Model(), row, col, toCol)
    {
      var forward := if whiteToMove then -1 else 1;
      var enemyColor := if whiteToMove then Black else White;
      result := moves;
      if 0 <= toCol <= Dimension - 1 {
        var target := board[row + forward, toCol];
        CellAt(row + forward, toCol);
        if target.Piece? && target.color == enemyColor {
          result := result + [NewMove((row, col), (row + forward, toCol), Cells(), false)];
        } else if enpassantPossible == Some((row + forward, toCol)) {
          result := result + [NewMove((row, col), (row + forward, toCol), Cells(), true)];
        }
      }
    }

    /** get_rook_moves. */
    method GetRookMoves(row: int, col: int, moves: seq<Move>) returns (result: seq<Move>)
      requires Valid() && OnBoard(row, col)
      ensures result == moves + Slides(Model(), row, col, RookDirections)
    {
      result := SlideMoves(row, col, RookDirections, moves);
    }

    /** get_bishop_moves. */
    method GetBishopMoves(row: int, col: int, moves: seq<Move>) returns (result: seq<Move>)
      requires Valid() && OnBoard(row, col)
      ensures result == moves + Slides(Model(), row, col, BishopDirections)
    {
      result := SlideMoves(row, col, BishopDirections, moves);
    }

    /** get_queen_moves: the rook moves followed by the bishop moves. */
    method GetQueenMoves(row: int, col: int, moves: seq<Move>) returns (result: seq<Move>)
      requires Valid() && OnBoard(row, col)
      ensures result == moves + Slides(Model(), row, col, RookDirections) + Slides(Model(), row, col, BishopDirections)
    {
      result := GetRookMoves(row, col, moves);
      result := GetBishopMoves(row, col, result);
    }

    /** get_knight_moves. */
    method GetKnightMoves(row: int, col: int, moves: seq<Move>) returns (result: seq<Move>)
      requires Valid() && OnBoard(row, col)
      ensures result == moves + Jumps(Model(), row, col, KnightOffsets)
    {
      result := JumpMoves(row, col, KnightOffsets, moves);
    }

    /** get_king_moves (no castling). */
    method GetKingMoves(row: int, col: int, moves: seq<Move>) returns (result: seq<Move>)
      requires Valid() && OnBoard(row, col)
      ensures result == moves + Jumps(Model(), row, col, KingOffsets)
    {
      result := JumpMoves(row, col, KingOffsets, moves);
    }

    /**
     * The loop shared by get_rook_moves and get_bishop_moves: each direction is followed
     * for up to seven steps, stopping at the edge or at the first occupied cell, which is
     * kept when it holds an enemy piece.
     */
    method SlideMoves(row: int, col: int, directions: seq<(int, int)>, moves: seq<Move>) returns (result: seq<Move>)
      requires Valid() && OnBoard(row, col)
      ensures result == moves + Slides(Model(), row, col, directions)
    {
      ghost var s := Model();
      result := moves;
      for k := 0 to |directions|
        invariant result == moves + Slides(s, row, col, directions[..k])
      {
        result := RayMoves(row, col, directions[k], result);
        SlidesSnoc(s, row, col, directions, k);
        ConcatAssoc(moves, Slides(s, row, col, directions[..k]), Ray(s, row, col, directions[k], 1));
      }
      assert directions[..|directions|] == directions;
    }

    /** One direction of the slide loop: steps 1 to 7, left by `break` at the edge or a piece. */
    method RayMoves(row: int, col: int, d: (int, int), moves: seq<Move>) returns (result: seq<Move>)
      requires Valid() && OnBoard(row, col)
      ensures result == moves + Ray(Model(), row, col, d, 1)
    {
      ghost var s := Model();
      var cells := Cells();
      var enemyColor := if whiteToMove then Black else White;
      assert cells == s.board && enemyColor == Enemy(s);
      result := moves;
      for i := 1 to Dimension
        invariant result + Ray(s, row, col, d, i) == moves + Ray(s, row, col, d, 1)
      {
        var endRow := row + d.0 * i;
        var endCol := col + d.1 * i;
        if !OnBoard(endRow, endCol) {
          assert Ray(s, row, col, d, i) == [];
          return;
        }
        var endPiece := board[endRow, endCol];
        CellAt(endRow, endCol);
        var move := NewMove((row, col), (endRow, endCol), cells, false);
        if endPiece == Empty {
          assert Ray(s, row, col, d, i) == [move] + Ray(s, row, col, d, i + 1);
          ConcatAssoc(result, [move], Ray(s, row, col, d, i + 1));
          result := result + [move];
        } else if endPiece.color == enemyColor {
          assert Ray(s, row, col, d, i) == [move];
          result := result + [move];
          return;
        } else {
          assert Ray(s, row, col, d, i) == [];
          return;
        }
      }
    }

    /**
     * The loop shared by get_knight_moves and get_king_moves: each offset is kept when it
     * lands on the board on an empty or enemy cell.
     */
    method JumpMoves(row: int, col: int, offsets: seq<(int, int)>, moves: seq<Move>) returns (result: seq<Move>)
      requires Valid() && OnBoard(row, col)
      ensures result == moves + Jumps(Model(), row, col, offsets)
    {
      ghost var s := Model();
      result := moves;
      for k := 0 to |offsets|
        invariant result == moves + Jumps(s, row, col, offsets[..k])
      {
        result := JumpStep(row, col, offsets[k], result);
        JumpsSnoc(s, row, col, offsets, k);
        ConcatAssoc(moves, Jumps(s, row, col, offsets[..k]), Jump(s, row, col, offsets[k]));
      }
      assert offsets[..|offsets|] == offsets;
    }

    /** One offset of the jump loop: kept when it lands on the board on an empty or enemy cell. */
    method JumpStep(row: int, col: int, o: (int, int), moves: seq<Move>) returns (result: seq<Move>)
      requires Valid() && OnBoard(row, col)
      ensures result == moves + Jump(Model(), row, col, o)
    {
      var enemyColor := if whiteToMove then Black else White;
      result := moves;
      var endRow := row + o.0;
      var endCol := col + o.1;
      if OnBoard(endRow, endCol) {
        var endPiece := board[endRow, endCol];
        CellAt(endRow, endCol);
        if endPiece == Empty {
          result := result + [NewMove((row, col), (endRow, endCol), Cells(), false)];
        } else if endPiece.color == enemyColor {
          result := result + [NewMove((row, col), (endRow, endCol), Cells(), false)];
        }
      }
    }
  }
}
