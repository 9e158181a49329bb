/**
 * The move-entry step of the game loop: two clicked cells become a Move built from the
 * current board, and a move is played when get_valid_moves offered one equal to it.
 * As written, the loop plays its own Move, which never carries the en-passant flag; the
 * intended step plays the offered move instead.
 */
module Clicks {
  import opened Options
  import opened Pieces
  import opened Moves
  import opened Rules
  import opened Generation
  import opened Invariants

  /** `move in valid_moves`: the position of the first offered move that is == `move`. */
  function FindEqual(valid: seq<Move>, move: Move): (r: Option<nat>)
    ensures r.None? <==> forall k :: 0 <= k < |valid| ==> !Equal(valid[k], move)
    ensures r.Some? ==> r.value < |valid| && Equal(valid[r.value], move)
  {
    if valid == [] then None
    else if Equal(valid[0], move) then Some(0)
    else match FindEqual(valid[1..], move)
      case None => None
      case Some(k) => Some(k + 1)
  }

  /** `m` goes from the first clicked cell to the second. */
  predicate Clicked(m: Move, from: (int, int), to: (int, int)) {
    m.startRow == from.0 && m.startCol == from.1 && m.endRow == to.0 && m.endCol == to.1
  }

  /** The step as written: the clicked Move itself is played once an offered move equals it. */
  function PlayClicksAsWritten(s: State, valid: seq<Move>, from: (int, int), to: (int, int)): (t: State)
    requires IsBoard(s.board) && OnBoard(from.0, from.1) && OnBoard(to.0, to.1)
    ensures IsBoard(t.board)
    ensures FindEqual(valid, NewMove(from, to, s.board, false)).None? ==> t == s
    ensures t != s ==> |t.moveLog| > 0 && !t.moveLog[|t.moveLog| - 1].isEnpassant
  {
    var move := NewMove(from, to, s.board, false);
    if FindEqual(valid, move).Some? then MakeMove(s, move) else s
  }

  /**
   * The discrepancy: an offered en-passant capture entered by clicks is played without its
   * flag, so the captured pawn stays on the board, where the offered move would remove it.
   */
  lemma EnPassantByClicksKeepsVictim(s: State, m: Move)
    requires Sound(s) && m in ValidMoves(s) && m.isEnpassant
    ensures var t := PlayClicksAsWritten(s, ValidMoves(s), (m.startRow, m.startCol), (m.endRow, m.endCol));
      At(t.board, m.startRow, m.endCol) == Piece(Enemy(s), Pawn) &&
      At(MakeMove(s, m).board, m.startRow, m.endCol) == Empty
  {
    ValidMovePreservesSound(s, m);
    var valid := ValidMoves(s);
    var move := NewMove((m.startRow, m.startCol), (m.endRow, m.endCol), s.board, false);
    var i :| 0 <= i < |valid| && valid[i] == m;
    assert Equal(valid[i], move);
    MakeMoveEffects(s, move);
    MakeMoveEffects(s, m);
    assert m.pieceCaptured == Piece(Enemy(s), Pawn);
  }

  /** The intended step: the offered move equal to the clicked one is the move played. */
  function PlayClicks(s: State, valid: seq<Move>, from: (int, int), to: (int, int)): (t: State)
    requires IsBoard(s.board) && LogWellFormed(valid) && OnBoard(from.0, from.1) && OnBoard(to.0, to.1)
    ensures IsBoard(t.board)
    ensures FindEqual(valid, NewMove(from, to, s.board, false)).None? ==> t == s
  {
    var move := NewMove(from, to, s.board, false);
    match FindEqual(valid, move)
    case None => s
    case Some(i) => MakeMove(s, valid[i])
  }

  /** Two pseudo-legal moves between the same cells are the same move. */
  lemma SameCellsSameMove(s: State, a: Move, b: Move)
    requires IsBoard(s.board) && NoPawnOnLastRank(s.board)
    requires a in AllMoves(s) && b in AllMoves(s)
    requires Clicked(a, (b.startRow, b.startCol), (b.endRow, b.endCol))
    ensures a == b
  {
    var all := AllMoves(s);
    AllMovesDistinctIds(s);
    var i :| 0 <= i < |all| && all[i] == a;
    var j :| 0 <= j < |all| && all[j] == b;
    assert a.MoveId() == b.MoveId();
    assert i == j;
  }

  /** Clicking the cells of an offered move plays exactly that move under the intended step. */
  lemma PlayClicksPlaysIt(s: State, m: Move)
    requires Sound(s) && m in ValidMoves(s)
    ensures m.WellFormed()
    ensures PlayClicks(s, ValidMoves(s), (m.startRow, m.startCol), (m.endRow, m.endCol)) == MakeMove(s, m)
  {
    var valid := ValidMoves(s);
    var move := NewMove((m.startRow, m.startCol), (m.endRow, m.endCol), s.board, false);
    var i :| 0 <= i < |valid| && valid[i] == m;
    assert Equal(valid[i], move);
    var k := FindEqual(valid, move).value;
    SameCellsSameMove(s, valid[k], m);
  }

  /**
   * With the intended step, clicking the cells of an offered move plays exactly that move:
   * the invariant is kept and an en-passant capture removes the captured pawn. Clicks that
   * match no offered move change nothing.
   */
  lemma PlayClicksPlaysOfferedMove(s: State, from: (int, int), to: (int, int))
    requires Sound(s) && OnBoard(from.0, from.1) && OnBoard(to.0, to.1)
    ensures forall m :: m in ValidMoves(s) && Clicked(m, from, to) ==>
      PlayClicks(s, ValidMoves(s), from, to) == MakeMove(s, m) && Sound(MakeMove(s, m)) &&
      (m.isEnpassant ==> At(MakeMove(s, m).board, from.0, to.1) == Empty)
    ensures (forall m :: m in ValidMoves(s) ==> !Clicked(m, from, to)) ==>
      PlayClicks(s, ValidMoves(s), from, to) == s
  {
    var valid := ValidMoves(s);
    forall m | m in valid && Clicked(m, from, to)
      ensures PlayClicks(s, valid, from, to) == MakeMove(s, m) && Sound(MakeMove(s, m)) &&
        (m.isEnpassant ==> At(MakeMove(s, m).board, from.0, to.1) == Empty)
    {
      ValidMovePreservesSound(s, m);
      MakeMoveEffects(s, m);
      PlayClicksPlaysIt(s, m);
    }
    if forall m :: m in valid ==> !Clicked(m, from, to) {
      var move := NewMove(from, to, s.board, false);
      forall k | 0 <= k < |valid|
        ensures !Equal(valid[k], move)
      {
        assert valid[k] in valid;
      }
    }
  }
}
