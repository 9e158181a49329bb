/**
 * The rules of the engine as pure functions of a game state: applying and undoing a move,
 * pseudo-legal generation per piece kind, attack tests and the self-check filter.
 * The GameState class in module Engine is proved to compute exactly these.
 */
module Rules {
  import opened Options
  import opened Pieces
  import opened Moves

  /** Everything GameState keeps apart from the two terminal flags. */
  datatype State = State(board: Board, whiteToMove: bool, moveLog: seq<Move>,
                         whiteKingLocation: (int, int), blackKingLocation: (int, int),
                         enpassantPossible: Option<(int, int)>)

  /** The position a new game starts from: white to move, empty log, no en-passant target. */
  function InitialState(): (s: State)
    ensures IsBoard(s.board) && NoPawnOnLastRank(s.board)
    ensures s.whiteToMove && s.moveLog == [] && s.enpassantPossible == None
    ensures s.whiteKingLocation == (7, 4) && At(s.board, 7, 4) == Piece(White, King)
    ensures s.blackKingLocation == (0, 4) && At(s.board, 0, 4) == Piece(Black, King)
    ensures forall j :: 0 <= j < Dimension ==>
      At(s.board, 1, j) == Piece(Black, Pawn) && At(s.board, 6, j) == Piece(White, Pawn)
    ensures forall i, j :: 2 <= i < 6 && 0 <= j < Dimension ==> At(s.board, i, j) == Empty
  {
    State(InitialBoard, true, [], (7, 4), (0, 4), None)
  }

  function Mover(s: State): Color {
    if s.whiteToMove then White else Black
  }

  function Enemy(s: State): Color {
    if s.whiteToMove then Black else White
  }

  /** Row step of the side to move's pawns: white moves toward row 0. */
  function Forward(s: State): int {
    if s.whiteToMove then -1 else 1
  }

  /** The row the side to move's pawns start on. */
  function HomeRow(s: State): int {
    if s.whiteToMove then 6 else 1
  }

  function Abs(x: int): nat {
    if x < 0 then -x else x
  }

  predicate LogWellFormed(log: seq<Move>) {
    forall m :: m in log ==> m.WellFormed()
  }

  /** A pawn that moved two rows: what make_move records an en-passant target for. */
  predicate IsDoublePawnStep(m: Move) {
    m.pieceMoved.Piece? && m.pieceMoved.kind == Pawn && Abs(m.startRow - m.endRow) == 2
  }

  // ---------------------------------------------------------------------------------
  // make_move and undo_move

  /** make_move. */
  function MakeMove(s: State, m: Move): (t: State)
    requires IsBoard(s.board) && m.WellFormed()
    ensures IsBoard(t.board)
  {
    var b1 := Put(Put(s.board, m.startRow, m.startCol, Empty), m.endRow, m.endCol, m.pieceMoved);
    var b2 := if m.isPawnPromotion then Put(b1, m.endRow, m.endCol, Piece(m.pieceMoved.color, Queen)) else b1;
    var b3 := if m.isEnpassant then Put(b2, m.startRow, m.endCol, Empty) else b2;
    State(b3, !s.whiteToMove, s.moveLog + [m],
          if m.pieceMoved == Piece(White, King) then (m.endRow, m.endCol) else s.whiteKingLocation,
          if m.pieceMoved == Piece(Black, King) then (m.endRow, m.endCol) else s.blackKingLocation,
          if IsDoublePawnStep(m) then Some(((m.startRow + m.endRow) / 2, m.startCol)) else None)
  }

  /**
   * What make_move does: the start cell is emptied, the end cell receives the moving piece
   * (a queen of its colour on promotion), an en-passant capture empties the cell beside the
   * start, no other cell changes; the move is logged, the turn passes, a moving king's
   * location follows it, and the en-passant target is the skipped cell of a two-row pawn
   * step and cleared otherwise. No pawn reaches its last rank without being promoted.
   */
  lemma MakeMoveEffects(s: State, m: Move)
    requires IsBoard(s.board) && m.WellFormed()
    ensures var t := MakeMove(s, m);
      (m.startRow != m.endRow || m.startCol != m.endCol ==> At(t.board, m.startRow, m.startCol) == Empty) &&
      (!(m.isEnpassant && m.startRow == m.endRow) ==>
        At(t.board, m.endRow, m.endCol) ==
          if m.isPawnPromotion then Piece(m.pieceMoved.color, Queen) else m.pieceMoved) &&
      (m.isEnpassant ==> At(t.board, m.startRow, m.endCol) == Empty) &&
      t.moveLog == s.moveLog + [m] && t.whiteToMove == !s.whiteToMove &&
      t.whiteKingLocation == (if m.pieceMoved == Piece(White, King) then (m.endRow, m.endCol) else s.whiteKingLocation) &&
      t.blackKingLocation == (if m.pieceMoved == Piece(Black, King) then (m.endRow, m.endCol) else s.blackKingLocation) &&
      t.enpassantPossible ==
        (if IsDoublePawnStep(m) then Some(((m.startRow + m.endRow) / 2, m.startCol)) else None) &&
      (NoPawnOnLastRank(s.board) ==> NoPawnOnLastRank(t.board))
    ensures forall i, j ::
      (OnBoard(i, j) && (i != m.startRow || j != m.startCol) && (i != m.endRow || j != m.endCol) &&
       (!m.isEnpassant || i != m.startRow || j != m.endCol)) ==> At(MakeMove(s, m).board, i, j) == At(s.board, i, j)
  {
  }

  /** undo_move: a no-op on an empty log, otherwise it reverses the last logged move. */
  function UndoMove(s: State): (t: State)
    requires IsBoard(s.board) && LogWellFormed(s.moveLog)
    ensures IsBoard(t.board) && LogWellFormed(t.moveLog)
    ensures s.moveLog == [] ==> t == s
    ensures s.moveLog != [] ==>
      t.moveLog == s.moveLog[..|s.moveLog| - 1] && t.whiteToMove == !s.whiteToMove
  {
    if |s.moveLog| == 0 then s
    else
      var m := s.moveLog[|s.moveLog| - 1];
      assert m in s.moveLog;
      var b1 := Put(Put(s.board, m.startRow, m.startCol, m.pieceMoved), m.endRow, m.endCol, m.pieceCaptured);
      var b2 := if m.isEnpassant then Put(Put(b1, m.endRow, m.endCol, Empty), m.startRow, m.endCol, m.pieceCaptured) else b1;
      var ep1 := if m.isEnpassant then Some((m.endRow, m.endCol)) else s.enpassantPossible;
      var ep2 := if IsDoublePawnStep(m) then None else ep1;
      State(b2, !s.whiteToMove, s.moveLog[..|s.moveLog| - 1],
            if m.pieceMoved == Piece(White, King) then (m.startRow, m.startCol) else s.whiteKingLocation,
            if m.pieceMoved == Piece(Black, King) then (m.startRow, m.startCol) else s.blackKingLocation,
            ep2)
  }

  /**
   * What undo needs in order to reverse `m` made in `s`: the move was read off this board
   * (for en passant: the captured pawn beside the start, the landing cell empty) and a
   * moving king starts where its location field says.
   */
  predicate Restorable(s: State, m: Move)
    requires IsBoard(s.board) && m.WellFormed()
  {
    (m.startRow != m.endRow || m.startCol != m.endCol) &&
    At(s.board, m.startRow, m.startCol) == m.pieceMoved &&
    (if m.isEnpassant
     then Abs(m.startRow - m.endRow) == 1 && m.startCol != m.endCol &&
          At(s.board, m.endRow, m.endCol) == Empty && At(s.board, m.startRow, m.endCol) == m.pieceCaptured
     else At(s.board, m.endRow, m.endCol) == m.pieceCaptured) &&
    (m.pieceMoved == Piece(White, King) ==> s.whiteKingLocation == (m.startRow, m.startCol)) &&
    (m.pieceMoved == Piece(Black, King) ==> s.blackKingLocation == (m.startRow, m.startCol))
  }

  /** Neither make_move nor the check after it reads the en-passant target. */
  lemma TargetNotRead(s: State, m: Move, ep: Option<(int, int)>)
    requires IsBoard(s.board) && m.WellFormed()
    ensures MakeMove(s.(enpassantPossible := ep), m) == MakeMove(s, m)
    ensures Restorable(s.(enpassantPossible := ep), m) == Restorable(s, m)
  {
  }

  /**
   * Undo right after make restores the board (promotions included), the turn, the log and
   * both king locations; the en-passant target becomes the landing cell of an en-passant
   * capture and is cleared otherwise.
   */
  lemma UndoMakeRoundTrip(s: State, m: Move)
    requires IsBoard(s.board) && LogWellFormed(s.moveLog) && m.WellFormed() && Restorable(s, m)
    ensures UndoMove(MakeMove(s, m)) ==
      s.(enpassantPossible := if m.isEnpassant then Some((m.endRow, m.endCol)) else None)
  {
    var t := MakeMove(s, m);
    assert t.moveLog[..|t.moveLog| - 1] == s.moveLog;
    var u := UndoMove(t);
    assert t.moveLog[|t.moveLog| - 1] == m;
    forall i, j | OnBoard(i, j)
      ensures At(u.board, i, j) == At(s.board, i, j)
    {
    }
    SameBoard(u.board, s.board);
  }

  // ---------------------------------------------------------------------------------
  // Pseudo-legal generation

  /** get_pawn_moves: the pawn on (row, col) of the side to move. */
  function PawnMoves(s: State, row: int, col: int): (r: seq<Move>)
    requires IsBoard(s.board) && OnBoard(row, col) && OnBoard(row + Forward(s), col)
    ensures forall m :: m in r ==> m.WellFormed() && m.startRow == row && m.startCol == col
  {
    PawnPush(s, row, col) + PawnCapture(s, row, col, col - 1) + PawnCapture(s, row, col, col + 1)
  }

  /** The forward part of get_pawn_moves: one step onto an empty cell, then two from the home row. */
  function PawnPush(s: State, row: int, col: int): (r: seq<Move>)
    requires IsBoard(s.board) && OnBoard(row, col) && OnBoard(row + Forward(s), col)
    ensures forall m :: m in r ==> m.WellFormed() && m.startRow == row && m.startCol == col
  {
    var ahead := row + Forward(s);
    if At(s.board, ahead, col) == Empty then
      [NewMove((row, col), (ahead, col), s.board, false)] +
      (if row == HomeRow(s) && At(s.board, row + 2 * Forward(s), col) == Empty
       then [NewMove((row, col), (row + 2 * Forward(s), col), s.board, false)]
       else [])
    else []
  }

  /** The diagonal step of get_pawn_moves toward column `toCol`. */
  function PawnCapture(s: State, row: int, col: int, toCol: int): (r: seq<Move>)
    requires IsBoard(s.board) && OnBoard(row, col) && OnBoard(row + Forward(s), col)
    ensures forall m :: m in r ==> m.WellFormed() && m.startRow == row && m.startCol == col
  {
    var ahead := row + Forward(s);
    if !(0 <= toCol < Dimension) then []
    else if At(s.board, ahead, toCol).Piece? && At(s.board, ahead, toCol).color == Enemy(s)
    then [NewMove((row, col), (ahead, toCol), s.board, false)]
    else if s.enpassantPossible == Some((ahead, toCol))
    then [NewMove((row, col), (ahead, toCol), s.board, true)]
    else []
  }

  /** One direction of a rook or bishop slide, from step `i` on. */
  function Ray(s: State, row: int, col: int, d: (int, int), i: int): (r: seq<Move>)
    requires IsBoard(s.board) && OnBoard(row, col) && 1 <= i
    ensures forall m :: m in r ==> m.WellFormed() && m.startRow == row && m.startCol == col
    decreases Dimension - i
  {
    if i >= Dimension then []
    else
      var endRow := row + d.0 * i;
      var endCol := col + d.1 * i;
      if !OnBoard(endRow, endCol) then []
      else if At(s.board, endRow, endCol) == Empty then
        [NewMove((row, col), (endRow, endCol), s.board, false)] + Ray(s, row, col, d, i + 1)
      else if At(s.board, endRow, endCol).color == Enemy(s) then
        [NewMove((row, col), (endRow, endCol), s.board, false)]
      else []
  }

  /** The rays along a table of directions, in table order. */
  function Slides(s: State, row: int, col: int, dirs: seq<(int, int)>): (r: seq<Move>)
    requires IsBoard(s.board) && OnBoard(row, col)
    ensures forall m :: m in r ==> m.WellFormed() && m.startRow == row && m.startCol == col
  {
    if dirs == [] then []
    else Slides(s, row, col, dirs[..|dirs| - 1]) + Ray(s, row, col, dirs[|dirs| - 1], 1)
  }

  /** Concatenation regroups; stated once so that callers need not rediscover it. */
  lemma ConcatAssoc<T>(a: seq<T>, b: seq<T>, c: seq<T>)
    ensures a + b + c == a + (b + c)
  {
  }

  /** An element of either part is an element of the concatenation. */
  /** Appending to a sequence that extends `a` keeps `a` a prefix. */
  lemma PrefixConcat<T>(a: seq<T>, b: seq<T>, c: seq<T>)
    requires a <= b
    ensures a <= b + c
  {
    assert (b + c)[..|b|] == b;
  }

  /** A member of a prefix is a member of the whole. */
  lemma PrefixMember<T>(x: T, a: seq<T>, b: seq<T>)
    requires x in a && a <= b
    ensures x in b
  {
    var i :| 0 <= i < |a| && a[i] == x;
    assert b[i] == x;
  }

  lemma InConcat<T>(x: T, a: seq<T>, b: seq<T>)
    requires x in a || x in b
    ensures x in a + b
  {
  }

  /** Sliding along one more direction appends that direction's ray. */
  lemma SlidesSnoc(s: State, row: int, col: int, dirs: seq<(int, int)>, k: int)
    requires IsBoard(s.board) && OnBoard(row, col) && 0 <= k < |dirs|
    ensures Slides(s, row, col, dirs[..k + 1]) == Slides(s, row, col, dirs[..k]) + Ray(s, row, col, dirs[k], 1)
  {
    assert dirs[..k + 1][..k] == dirs[..k];
  }

  /** One knight or king step: kept if it lands on the board on an empty or enemy cell. */
  function Jump(s: State, row: int, col: int, offset: (int, int)): (r: seq<Move>)
    requires IsBoard(s.board) && OnBoard(row, col)
    ensures forall m :: m in r ==> m.WellFormed() && m.startRow == row && m.startCol == col
  {
    var endRow := row + offset.0;
    var endCol := col + offset.1;
    if OnBoard(endRow, endCol) &&
       (At(s.board, endRow, endCol) == Empty || At(s.board, endRow, endCol).color == Enemy(s))
    then [NewMove((row, col), (endRow, endCol), s.board, false)]
    else []
  }

  /** The steps along a table of offsets, in table order. */
  function Jumps(s: State, row: int, col: int, offsets: seq<(int, int)>): (r: seq<Move>)
    requires IsBoard(s.board) && OnBoard(row, col)
    ensures forall m :: m in r ==> m.WellFormed() && m.startRow == row && m.startCol == col
  {
    if offsets == [] then []
    else Jumps(s, row, col, offsets[..|offsets| - 1]) + Jump(s, row, col, offsets[|offsets| - 1])
  }

  /** Stepping along one more offset appends that step. */
  lemma JumpsSnoc(s: State, row: int, col: int, offsets: seq<(int, int)>, k: int)
    requires IsBoard(s.board) && OnBoard(row, col) && 0 <= k < |offsets|
    ensures Jumps(s, row, col, offsets[..k + 1]) == Jumps(s, row, col, offsets[..k]) + Jump(s, row, col, offsets[k])
  {
    assert offsets[..k + 1][..k] == offsets[..k];
  }

  /** Up, left, down, right. */
  const RookDirections: seq<(int, int)> := [(-1, 0), (0, -1), (1, 0), (0, 1)]

  /** Up-left, up-right, down-left, down-right. */
  const BishopDirections: seq<(int, int)> := [(-1, -1), (-1, 1), (1, -1), (1, 1)]

  const KnightOffsets: seq<(int, int)> :=
    [(-2, -1), (-2, 1), (-1, -2), (-1, 2), (1, -2), (1, 2), (2, -1), (2, 1)]

  const KingOffsets: seq<(int, int)> :=
    [(-1, -1), (-1, 0), (-1, 1), (0, -1), (0, 1), (1, -1), (1, 0), (1, 1)]

  /** The moves of whatever stands on (row, col), if it belongs to the side to move. */
  function PieceMoves(s: State, row: int, col: int): (r: seq<Move>)
    requires IsBoard(s.board) && NoPawnOnLastRank(s.board) && OnBoard(row, col)
    ensures forall m :: m in r ==> m.WellFormed() && m.startRow == row && m.startCol == col
  {
    match At(s.board, row, col)
    case Empty => []
    case Piece(color, kind) =>
      if color != Mover(s) then []
      else
        match kind
        case Pawn => PawnMoves(s, row, col)
        case Rook => Slides(s, row, col, RookDirections)
        case Bishop => Slides(s, row, col, BishopDirections)
        case Queen => Slides(s, row, col, RookDirections) + Slides(s, row, col, BishopDirections)
        case Knight => Jumps(s, row, col, KnightOffsets)
        case King => Jumps(s, row, col, KingOffsets)
  }

  /** The moves of the first `n` cells of row `row`, left to right. */
  function RowMoves(s: State, row: int, n: int): (r: seq<Move>)
    requires IsBoard(s.board) && NoPawnOnLastRank(s.board) && 0 <= row < Dimension && 0 <= n <= Dimension
    ensures forall m :: m in r ==> m.WellFormed() && m.startRow == row && 0 <= m.startCol < n
  {
    if n == 0 then []
    else RowMoves(s, row, n - 1) + PieceMoves(s, row, n - 1)
  }

  /** The moves of the first `n` rows, top to bottom. */
  function ScanMoves(s: State, n: int): (r: seq<Move>)
    requires IsBoard(s.board) && NoPawnOnLastRank(s.board) && 0 <= n <= Dimension
    ensures forall m :: m in r ==> m.WellFormed() && 0 <= m.startRow < n
  {
    if n == 0 then []
    else ScanMoves(s, n - 1) + RowMoves(s, n - 1, Dimension)
  }

  /** get_all_possible_moves: every pseudo-legal move of the side to move. */
  function AllMoves(s: State): (r: seq<Move>)
    requires IsBoard(s.board) && NoPawnOnLastRank(s.board)
    ensures forall m :: m in r ==> m.WellFormed()
  {
    ScanMoves(s, Dimension)
  }

  // ---------------------------------------------------------------------------------
  // Attacks and the self-check filter

  function Flip(s: State): State {
    s.(whiteToMove := !s.whiteToMove)
  }

  predicate EndsOn(moves: seq<Move>, row: int, col: int) {
    exists i :: 0 <= i < |moves| && moves[i].endRow == row && moves[i].endCol == col
  }

  /** is_square_under_attack: some move of the other side ends on (row, col). */
  predicate SquareUnderAttack(s: State, row: int, col: int)
    requires IsBoard(s.board) && NoPawnOnLastRank(s.board)
    ensures SquareUnderAttack(s, row, col) ==> OnBoard(row, col)
  {
    EndsOn(AllMoves(Flip(s)), row, col)
  }

  /** is_king_in_check: the side to move's king location is attacked. */
  predicate KingInCheck(s: State)
    requires IsBoard(s.board) && NoPawnOnLastRank(s.board)
    ensures KingInCheck(s) ==>
      if s.whiteToMove then OnBoard(s.whiteKingLocation.0, s.whiteKingLocation.1)
      else OnBoard(s.blackKingLocation.0, s.blackKingLocation.1)
  {
    if s.whiteToMove
    then SquareUnderAttack(s, s.whiteKingLocation.0, s.whiteKingLocation.1)
    else SquareUnderAttack(s, s.blackKingLocation.0, s.blackKingLocation.1)
  }

  /**
   * After `m`, with the turn handed back to its mover, that mover's king is attacked: the
   * cell tested is the landing cell when the king itself moved, and its old location otherwise.
   */
  predicate LeavesKingInCheck(s: State, m: Move)
    requires IsBoard(s.board) && NoPawnOnLastRank(s.board) && m.WellFormed()
    ensures var king := if m.pieceMoved == Piece(Mover(s), King) then (m.endRow, m.endCol)
                        else if s.whiteToMove then s.whiteKingLocation else s.blackKingLocation;
      LeavesKingInCheck(s, m) <==>
        SquareUnderAttack(MakeMove(s, m).(whiteToMove := s.whiteToMove), king.0, king.1)
  {
    KingInCheck(MakeMove(s, m).(whiteToMove := s.whiteToMove))
  }

  /** The moves of `moves`, in order, that do not leave their mover in check. */
  function Keep(s: State, moves: seq<Move>): (r: seq<Move>)
    requires IsBoard(s.board) && NoPawnOnLastRank(s.board) && LogWellFormed(moves)
    ensures |r| <= |moves|
  {
    if moves == [] then []
    else (if LeavesKingInCheck(s, moves[0]) then [] else [moves[0]]) + Keep(s, moves[1..])
  }

  /** A move survives the filter exactly when it was offered and does not leave its mover in check. */
  lemma {:induction false} KeepIff(s: State, moves: seq<Move>)
    requires IsBoard(s.board) && NoPawnOnLastRank(s.board) && LogWellFormed(moves)
    ensures forall m :: m in Keep(s, moves) <==> m in moves && m.WellFormed() && !LeavesKingInCheck(s, m)
  {
    if moves != [] {
      assert moves == [moves[0]] + moves[1..];
      KeepIff(s, moves[1..]);
    }
  }

  /**
   * list.remove(x): drops the first element equal to `x` under Move.__eq__; None where the
   * source raises ValueError because no element is equal.
   */
  function RemoveFirst(ms: seq<Move>, x: Move): (r: Option<seq<Move>>)
    ensures r.None? <==> forall k :: 0 <= k < |ms| ==> !Equal(ms[k], x)
    ensures r.Some? ==> |r.value| == |ms| - 1
  {
    if ms == [] then None
    else if Equal(ms[0], x) then Some(ms[1..])
    else match RemoveFirst(ms[1..], x)
      case None => None
      case Some(rest) => Some([ms[0]] + rest)
  }

  /** Removing an element no earlier element equals removes exactly that position. */
  lemma {:induction false} RemoveFirstAt(ms: seq<Move>, i: int)
    requires 0 <= i < |ms| && forall j :: 0 <= j < i ==> !Equal(ms[j], ms[i])
    ensures RemoveFirst(ms, ms[i]) == Some(ms[..i] + ms[i + 1..])
  {
    if i > 0 {
      var tail := ms[1..];
      assert tail[i - 1] == ms[i];
      assert !Equal(ms[0], ms[i]);
      RemoveFirstAt(tail, i - 1);
      assert [ms[0]] + (tail[..i - 1] + tail[i..]) == ms[..i] + ms[i + 1..];
    } else {
      assert ms[..0] + ms[1..] == ms[1..];
    }
  }

  /** get_valid_moves' result: the pseudo-legal moves that do not leave the mover in check. */
  function ValidMoves(s: State): (r: seq<Move>)
    requires IsBoard(s.board) && NoPawnOnLastRank(s.board)
    ensures |r| <= |AllMoves(s)|
    ensures forall m :: m in r <==> m in AllMoves(s) && !LeavesKingInCheck(s, m)
  {
    KeepIff(s, AllMoves(s));
    Keep(s, AllMoves(s))
  }
}
