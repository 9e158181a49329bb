/**
 * The game-state invariant the engine relies on: no pawn on its last rank (so the pawn
 * generator never indexes off the board), every king standing where its location field
 * says, and an en-passant target that is an empty cell with the enemy pawn that just
 * passed it right behind. It holds at the start, it is kept by every pseudo-legal move,
 * and it makes every pseudo-legal move undoable.
 */
module Invariants {
  import opened Options
  import opened Pieces
  import opened Moves
  import opened Rules
  import opened Generation

  /** Every white king stands on white_king_location, every black king on black_king_location. */
  ghost predicate KingsTracked(s: State)
    requires IsBoard(s.board)
  {
    forall i, j :: OnBoard(i, j) ==>
      (At(s.board, i, j) == Piece(White, King) ==> s.whiteKingLocation == (i, j)) &&
      (At(s.board, i, j) == Piece(Black, King) ==> s.blackKingLocation == (i, j))
  }

  /** The en-passant target is empty, and the enemy pawn that skipped over it stands just beyond. */
  ghost predicate EnPassantSound(s: State)
    requires IsBoard(s.board)
  {
    match s.enpassantPossible
    case None => true
    case Some(p) =>
      OnBoard(p.0, p.1) && At(s.board, p.0, p.1) == Empty &&
      OnBoard(p.0 - Forward(s), p.1) && At(s.board, p.0 - Forward(s), p.1) == Piece(Enemy(s), Pawn)
  }

  ghost predicate Sound(s: State) {
    IsBoard(s.board) && NoPawnOnLastRank(s.board) && KingsTracked(s) && EnPassantSound(s)
  }

  /** The start position satisfies the invariant. */
  lemma InitialStateSound()
    ensures Sound(InitialState())
  {
    var s := InitialState();
    forall i, j | OnBoard(i, j)
      ensures At(s.board, i, j) == Piece(White, King) ==> (i, j) == (7, 4)
      ensures At(s.board, i, j) == Piece(Black, King) ==> (i, j) == (0, 4)
    {
      assert s.board[i] == InitialBoard[i];
    }
  }

  /** Under the invariant every pseudo-legal move can be undone exactly. */
  lemma GeneratedRestorable(s: State, m: Move)
    requires Sound(s) && Generated(s, m)
    ensures Restorable(s, m)
  {
    if m.isEnpassant {
      var p := s.enpassantPossible.value;
      assert (m.startRow, m.endCol) == (p.0 - Forward(s), p.1);
    }
  }

  /** Every pseudo-legal move keeps the invariant. */
  lemma MakeMovePreservesSound(s: State, m: Move)
    requires Sound(s) && Generated(s, m)
    ensures Sound(MakeMove(s, m))
  {
    var t := MakeMove(s, m);
    forall i, j | OnBoard(i, j)
      ensures At(t.board, i, j) == Piece(White, King) ==> t.whiteKingLocation == (i, j)
      ensures At(t.board, i, j) == Piece(Black, King) ==> t.blackKingLocation == (i, j)
    {
    }
    if IsDoublePawnStep(m) {
      assert (m.startRow + m.endRow) / 2 == m.startRow + Forward(s);
      assert !m.isPawnPromotion;
    }
  }

  /**
   * Playing a move get_valid_moves returns keeps the invariant, and that move can be taken
   * back exactly by undo_move (up to the en-passant target).
   */
  lemma ValidMovePreservesSound(s: State, m: Move)
    requires Sound(s) && m in ValidMoves(s)
    ensures Generated(s, m) && !LeavesKingInCheck(s, m)
    ensures Sound(MakeMove(s, m)) && Restorable(s, m)
  {
    KeepIff(s, AllMoves(s));
    AllMovesGenerated(s);
    MakeMovePreservesSound(s, m);
    GeneratedRestorable(s, m);
  }

  /**
   * Undoing a pseudo-legal move right after making it leaves a state that satisfies the
   * invariant; after an en-passant capture the target undo sets is the landing cell again,
   * empty, with the captured pawn restored just beyond it.
   */
  lemma UndoAfterMakeSound(s: State, m: Move)
    requires Sound(s) && Generated(s, m) && LogWellFormed(s.moveLog)
    ensures Sound(UndoMove(MakeMove(s, m)))
  {
    GeneratedRestorable(s, m);
    UndoMakeRoundTrip(s, m);
    if m.isEnpassant {
      assert m.endRow - Forward(s) == m.startRow;
      assert m.pieceCaptured == Piece(Enemy(s), Pawn);
    }
  }

  /**
   * After a move get_valid_moves returns, no reply the other side can generate lands on a
   * king: the mover's king is not attacked, and no side generates a move onto its own king.
   */
  lemma NoKingCapture(s: State, m: Move)
    requires Sound(s) && m in ValidMoves(s)
    ensures m.WellFormed() && Sound(MakeMove(s, m))
    ensures forall reply :: reply in AllMoves(MakeMove(s, m)) ==>
      At(MakeMove(s, m).board, reply.endRow, reply.endCol).Piece? ==>
        At(MakeMove(s, m).board, reply.endRow, reply.endCol).kind != King
  {
    ValidMovePreservesSound(s, m);
    var t := MakeMove(s, m);
    var u := t.(whiteToMove := s.whiteToMove);
    var king := if s.whiteToMove then t.whiteKingLocation else t.blackKingLocation;
    assert !KingInCheck(u);
    assert Flip(u) == t;
    assert !EndsOn(AllMoves(t), king.0, king.1);
    AllMovesGenerated(t);
    forall reply | reply in AllMoves(t)
      ensures At(t.board, reply.endRow, reply.endCol).Piece? ==> At(t.board, reply.endRow, reply.endCol).kind != King
    {
      var i :| 0 <= i < |AllMoves(t)| && AllMoves(t)[i] == reply;
      assert (reply.endRow, reply.endCol) != king;
      assert Generated(t, reply);
    }
  }

  /** Filtering a suffix from position i: the verdict on position i, then the rest. */
  lemma KeepAt(s: State, all: seq<Move>, i: int)
    requires IsBoard(s.board) && NoPawnOnLastRank(s.board) && LogWellFormed(all) && 0 <= i < |all|
    ensures all[i].WellFormed()
    ensures LeavesKingInCheck(s, all[i]) ==> Keep(s, all[i..]) == Keep(s, all[i + 1..])
    ensures !LeavesKingInCheck(s, all[i]) ==> Keep(s, all[i..]) == [all[i]] + Keep(s, all[i + 1..])
  {
    assert all[i] in all;
    assert all[i..][0] == all[i] && all[i..][1..] == all[i + 1..];
  }

  /** With distinct keys, removing the i-th element finds it at position i and nowhere earlier. */
  lemma RemoveAfterPrefix(all: seq<Move>, i: int, tail: seq<Move>)
    requires DistinctIds(all) && 0 <= i < |all|
    ensures RemoveFirst(all[..i + 1] + tail, all[i]) == Some(all[..i] + tail)
  {
    var moves := all[..i + 1] + tail;
    forall j | 0 <= j < i
      ensures !Equal(moves[j], moves[i])
    {
      assert moves[j] == all[j];
    }
    RemoveFirstAt(moves, i);
    assert moves[..i] == all[..i];
    assert moves[i + 1..] == tail;
  }

  /**
   * get_valid_moves' list once positions i.. have been filtered: the untouched prefix,
   * then the survivors of the suffix.
   */
  function Filtered(s: State, all: seq<Move>, i: int): seq<Move>
    requires IsBoard(s.board) && NoPawnOnLastRank(s.board) && LogWellFormed(all) && 0 <= i <= |all|
  {
    all[..i] + Keep(s, all[i..])
  }

  /** The en-passant target once positions i.. have been tried: the last undo decides it. */
  function TargetAfter(s: State, all: seq<Move>, i: int): Option<(int, int)>
    requires 0 <= i <= |all|
  {
    if i == |all| then s.enpassantPossible
    else if all[i].isEnpassant then Some((all[i].endRow, all[i].endCol)) else None
  }

  /**
   * The en-passant target get_valid_moves' loop leaves behind: the trial of the first
   * generated move is undone last, and undo sets the target to an en-passant capture's
   * landing cell and clears it otherwise. The terminal flags are decided while this
   * target is in place; the original is restored only afterwards. An en-passant capture
   * lands on the current target, so the loop can only keep the target or clear it.
   */
  function EnPassantAfterFilter(s: State): (r: Option<(int, int)>)
    requires IsBoard(s.board) && NoPawnOnLastRank(s.board)
    ensures r == s.enpassantPossible || r == None
  {
    var all := AllMoves(s);
    if all == [] then s.enpassantPossible
    else if all[0].isEnpassant then
      AllMovesGenerated(s);
      assert all[0] in all;
      Some((all[0].endRow, all[0].endCol))
    else None
  }

  /** Under the invariant, every pseudo-legal move can be tried and undone. */
  lemma PseudoLegalRestorable(s: State, i: int)
    requires Sound(s) && 0 <= i < |AllMoves(s)|
    ensures AllMoves(s)[i].WellFormed() && Restorable(s, AllMoves(s)[i])
  {
    assert AllMoves(s)[i] in AllMoves(s);
    AllMovesGenerated(s);
    GeneratedRestorable(s, AllMoves(s)[i]);
  }

  /**
   * One step of get_valid_moves' backward loop over a list of moves with distinct keys:
   * with positions i+1.. already filtered, moves[i] is the i-th move of the list. When the
   * trial finds the mover in check, `remove` drops exactly position i (no earlier move is
   * equal to it); otherwise the list is already the one filtered from position i.
   */
  lemma FilterStep(s: State, all: seq<Move>, i: int, moves: seq<Move>)
    requires IsBoard(s.board) && NoPawnOnLastRank(s.board) && LogWellFormed(all) && DistinctIds(all)
    requires 0 <= i < |all| && moves == Filtered(s, all, i + 1)
    ensures moves[i] == all[i] && moves[i].WellFormed()
    ensures LeavesKingInCheck(s, moves[i]) ==> RemoveFirst(moves, moves[i]) == Some(Filtered(s, all, i))
    ensures !LeavesKingInCheck(s, moves[i]) ==> moves == Filtered(s, all, i)
  {
    assert moves[i] == all[i];
    KeepAt(s, all, i);
    if LeavesKingInCheck(s, all[i]) {
      RemoveAfterPrefix(all, i, Keep(s, all[i + 1..]));
    } else {
      assert all[..i + 1] == all[..i] + [all[i]];
      ConcatAssoc(all[..i], [all[i]], Keep(s, all[i + 1..]));
    }
  }
}
