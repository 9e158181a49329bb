/**
 * What the pseudo-legal generators produce, stated declaratively: each generator's output is
 * characterised by a rule about the board (both directions), and every generated move has the
 * shape that make_move and undo_move rely on.
 */
module Generation {
  import opened Options
  import opened Pieces
  import opened Moves
  import opened Rules

  /** The cell `t` steps from (row, col) in direction `d`. */
  function Step(row: int, col: int, d: (int, int), t: int): (int, int) {
    (row + d.0 * t, col + d.1 * t)
  }

  /** A cell the side to move may land on: empty, or holding an enemy piece. */
  predicate Enterable(s: State, row: int, col: int)
    requires IsBoard(s.board) && OnBoard(row, col)
  {
    At(s.board, row, col) == Empty || At(s.board, row, col).color == Enemy(s)
  }

  /** The cell `p` is on the board and empty. */
  predicate Vacant(s: State, p: (int, int))
    requires IsBoard(s.board)
  {
    OnBoard(p.0, p.1) && At(s.board, p.0, p.1) == Empty
  }

  // ---------------------------------------------------------------------------------
  // Pawns

  /**
   * The pawn rule: a single push onto an empty cell; a double push from the home row over
   * two empty cells; a diagonal step onto an enemy piece (not en passant) or, failing that,
   * onto the en-passant target (en passant).
   */
  predicate PawnRule(s: State, row: int, col: int, m: Move)
    requires IsBoard(s.board) && OnBoard(row, col) && OnBoard(row + Forward(s), col)
  {
    var ahead := row + Forward(s);
    m.startRow == row && m.startCol == col && OnBoard(m.endRow, m.endCol) &&
    m == NewMove((row, col), (m.endRow, m.endCol), s.board, m.isEnpassant) &&
    ((m.endRow == ahead && m.endCol == col && !m.isEnpassant && At(s.board, ahead, col) == Empty) ||
     (m.endRow == row + 2 * Forward(s) && m.endCol == col && !m.isEnpassant && row == HomeRow(s) &&
      At(s.board, ahead, col) == Empty && At(s.board, m.endRow, col) == Empty) ||
     (m.endRow == ahead && Abs(m.endCol - col) == 1 &&
      if At(s.board, ahead, m.endCol).Piece? && At(s.board, ahead, m.endCol).color == Enemy(s)
      then !m.isEnpassant
      else m.isEnpassant && s.enpassantPossible == Some((ahead, m.endCol))))
  }

  /** get_pawn_moves emits exactly the moves the pawn rule allows. */
  lemma PawnMovesIff(s: State, row: int, col: int, m: Move)
    requires IsBoard(s.board) && OnBoard(row, col) && OnBoard(row + Forward(s), col)
    ensures m in PawnMoves(s, row, col) <==> PawnRule(s, row, col, m)
  {
    var ahead := row + Forward(s);
    if m in PawnMoves(s, row, col) {
      if m in PawnPush(s, row, col) {
        assert At(s.board, ahead, col) == Empty;
      } else if m in PawnCapture(s, row, col, col - 1) {
        assert m.endCol == col - 1;
      } else {
        assert m in PawnCapture(s, row, col, col + 1);
        assert m.endCol == col + 1;
      }
    }
    if PawnRule(s, row, col, m) {
      if m.endCol == col && m.endRow == ahead {
        assert m in PawnPush(s, row, col);
      } else if m.endCol == col {
        assert m.endRow == row + 2 * Forward(s) && row == HomeRow(s);
        assert m in PawnPush(s, row, col);
      } else if m.endCol == col - 1 {
        assert m in PawnCapture(s, row, col, col - 1);
      } else {
        assert m.endCol == col + 1;
        assert m in PawnCapture(s, row, col, col + 1);
      }
    }
  }

  // ---------------------------------------------------------------------------------
  // Slides

  /**
   * Step `k` of direction `d` is a slide target, counting from step `i`: it is on the board
   * and enterable, and every step from `i` up to it is an empty cell.
   */
  predicate SlideTarget(s: State, row: int, col: int, d: (int, int), i: int, k: int)
    requires IsBoard(s.board)
  {
    i <= k < Dimension && OnBoard(Step(row, col, d, k).0, Step(row, col, d, k).1) &&
    (forall t :: i <= t < k ==> Vacant(s, Step(row, col, d, t))) &&
    Enterable(s, Step(row, col, d, k).0, Step(row, col, d, k).1)
  }

  /** The move from (row, col) to step `k` of direction `d`. */
  function SlideMove(s: State, row: int, col: int, d: (int, int), k: int): (m: Move)
    requires IsBoard(s.board) && OnBoard(row, col) && OnBoard(Step(row, col, d, k).0, Step(row, col, d, k).1)
    ensures (m.endRow, m.endCol) == Step(row, col, d, k) && !m.isEnpassant
  {
    NewMove((row, col), Step(row, col, d, k), s.board, false)
  }

  /**
   * A ray emits a move to step `k` exactly when that step is a slide target: the slide
   * stops at the first occupied cell and keeps it only when it holds an enemy piece.
   */
  lemma {:induction false} RayIff(s: State, row: int, col: int, d: (int, int), i: int, m: Move)
    requires IsBoard(s.board) && OnBoard(row, col) && 1 <= i
    ensures m in Ray(s, row, col, d, i) <==>
      exists k :: SlideTarget(s, row, col, d, i, k) && m == SlideMove(s, row, col, d, k)
    decreases Dimension - i
  {
    if i >= Dimension {
      assert forall k :: !SlideTarget(s, row, col, d, i, k);
    } else {
      var e := Step(row, col, d, i);
      if !OnBoard(e.0, e.1) {
        forall k
          ensures !SlideTarget(s, row, col, d, i, k)
        {
          if k > i {
            assert !Vacant(s, Step(row, col, d, i));
          }
        }
      } else if At(s.board, e.0, e.1) == Empty {
        assert Ray(s, row, col, d, i) == [SlideMove(s, row, col, d, i)] + Ray(s, row, col, d, i + 1);
        RayIff(s, row, col, d, i + 1, m);
        if m in Ray(s, row, col, d, i) {
          if m == SlideMove(s, row, col, d, i) {
            assert SlideTarget(s, row, col, d, i, i);
          } else {
            var k :| SlideTarget(s, row, col, d, i + 1, k) && m == SlideMove(s, row, col, d, k);
            assert SlideTarget(s, row, col, d, i, k);
          }
        }
        if exists k :: SlideTarget(s, row, col, d, i, k) && m == SlideMove(s, row, col, d, k) {
          var k :| SlideTarget(s, row, col, d, i, k) && m == SlideMove(s, row, col, d, k);
          if k > i {
            assert SlideTarget(s, row, col, d, i + 1, k);
          }
        }
      } else {
        forall k | k > i
          ensures !SlideTarget(s, row, col, d, i, k)
        {
          assert !Vacant(s, Step(row, col, d, i));
        }
        if At(s.board, e.0, e.1).color == Enemy(s) {
          if m in Ray(s, row, col, d, i) {
            assert SlideTarget(s, row, col, d, i, i);
          }
        }
      }
    }
  }

  /** A slide along `dirs` emits exactly the moves to slide targets of one of its directions. */
  lemma {:induction false} SlidesIff(s: State, row: int, col: int, dirs: seq<(int, int)>, m: Move)
    requires IsBoard(s.board) && OnBoard(row, col)
    ensures m in Slides(s, row, col, dirs) <==>
      exists j, k :: 0 <= j < |dirs| && SlideTarget(s, row, col, dirs[j], 1, k) &&
                     m == SlideMove(s, row, col, dirs[j], k)
  {
    if dirs != [] {
      var n := |dirs| - 1;
      var init := dirs[..n];
      assert Slides(s, row, col, dirs) == Slides(s, row, col, init) + Ray(s, row, col, dirs[n], 1);
      SlidesIff(s, row, col, init, m);
      RayIff(s, row, col, dirs[n], 1, m);
      if m in Slides(s, row, col, dirs) {
        if m in Slides(s, row, col, init) {
          var j, k :| 0 <= j < |init| && SlideTarget(s, row, col, init[j], 1, k) &&
                      m == SlideMove(s, row, col, init[j], k);
          assert init[j] == dirs[j];
        } else {
          var k :| SlideTarget(s, row, col, dirs[n], 1, k) && m == SlideMove(s, row, col, dirs[n], k);
          assert 0 <= n < |dirs|;
        }
      }
      if exists j, k :: 0 <= j < |dirs| && SlideTarget(s, row, col, dirs[j], 1, k) &&
                        m == SlideMove(s, row, col, dirs[j], k) {
        var j, k :| 0 <= j < |dirs| && SlideTarget(s, row, col, dirs[j], 1, k) &&
                    m == SlideMove(s, row, col, dirs[j], k);
        if j < n {
          assert init[j] == dirs[j];
        }
      }
    }
  }

  // ---------------------------------------------------------------------------------
  // Knight and king steps

  /** The cell at offset `o` is on the board and enterable. */
  predicate JumpTarget(s: State, row: int, col: int, o: (int, int))
    requires IsBoard(s.board)
  {
    OnBoard(row + o.0, col + o.1) && Enterable(s, row + o.0, col + o.1)
  }

  /** The move from (row, col) by offset `o`. */
  function JumpMove(s: State, row: int, col: int, o: (int, int)): (m: Move)
    requires IsBoard(s.board) && OnBoard(row, col) && OnBoard(row + o.0, col + o.1)
    ensures m.endRow == row + o.0 && m.endCol == col + o.1 && !m.isEnpassant
  {
    NewMove((row, col), (row + o.0, col + o.1), s.board, false)
  }

  /** One step emits a move exactly when its offset reaches a jump target. */
  lemma JumpIff(s: State, row: int, col: int, o: (int, int), m: Move)
    requires IsBoard(s.board) && OnBoard(row, col)
    ensures m in Jump(s, row, col, o) <==> JumpTarget(s, row, col, o) && m == JumpMove(s, row, col, o)
  {
  }

  /** The steps along `offsets` emit exactly the moves to the jump targets among them. */
  lemma {:induction false} JumpsIff(s: State, row: int, col: int, offsets: seq<(int, int)>, m: Move)
    requires IsBoard(s.board) && OnBoard(row, col)
    ensures m in Jumps(s, row, col, offsets) <==>
      exists j :: 0 <= j < |offsets| && JumpTarget(s, row, col, offsets[j]) &&
                  m == JumpMove(s, row, col, offsets[j])
  {
    if offsets != [] {
      var n := |offsets| - 1;
      var init := offsets[..n];
      assert Jumps(s, row, col, offsets) == Jumps(s, row, col, init) + Jump(s, row, col, offsets[n]);
      JumpsIff(s, row, col, init, m);
      JumpIff(s, row, col, offsets[n], m);
      if m in Jumps(s, row, col, offsets) {
        if m in Jumps(s, row, col, init) {
          var j :| 0 <= j < |init| && JumpTarget(s, row, col, init[j]) && m == JumpMove(s, row, col, init[j]);
          assert init[j] == offsets[j];
        }
      }
      if exists j :: 0 <= j < |offsets| && JumpTarget(s, row, col, offsets[j]) &&
                     m == JumpMove(s, row, col, offsets[j]) {
        var j :| 0 <= j < |offsets| && JumpTarget(s, row, col, offsets[j]) && m == JumpMove(s, row, col, offsets[j]);
        if j < n {
          assert init[j] == offsets[j];
        }
      }
    }
  }

  // ---------------------------------------------------------------------------------
  // Directions

  /** A king step: each component in -1..1, not both zero. */
  predicate Unit(d: (int, int)) {
    -1 <= d.0 <= 1 && -1 <= d.1 <= 1 && d != (0, 0)
  }

  predicate Distinct<T(==)>(xs: seq<T>) {
    forall i, j :: 0 <= i < j < |xs| ==> xs[i] != xs[j]
  }

  /** The rook and bishop tables together are eight distinct king steps. */
  lemma DirectionTables()
    ensures forall j :: 0 <= j < |RookDirections| ==> Unit(RookDirections[j])
    ensures forall j :: 0 <= j < |BishopDirections| ==> Unit(BishopDirections[j])
    ensures Distinct(RookDirections) && Distinct(BishopDirections)
    ensures forall i, j :: 0 <= i < |RookDirections| && 0 <= j < |BishopDirections| ==>
      RookDirections[i] != BishopDirections[j]
  {
  }

  /** Neither offset table contains (0, 0), and each lists eight distinct offsets. */
  lemma OffsetTables()
    ensures forall j :: 0 <= j < |KnightOffsets| ==> KnightOffsets[j] != (0, 0)
    ensures forall j :: 0 <= j < |KingOffsets| ==> KingOffsets[j] != (0, 0)
    ensures Distinct(KnightOffsets) && Distinct(KingOffsets)
  {
  }

  /** A unit step times a positive count is its own sign pattern scaled: two rays meet only if they are one ray. */
  lemma StepInjective(row: int, col: int, d1: (int, int), k1: int, d2: (int, int), k2: int)
    requires Unit(d1) && Unit(d2) && 1 <= k1 && 1 <= k2
    ensures Step(row, col, d1, k1) != (row, col)
    ensures Step(row, col, d1, k1) == Step(row, col, d2, k2) ==> d1 == d2 && k1 == k2
  {
    assert d1.0 * k1 == if d1.0 == 1 then k1 else if d1.0 == -1 then -k1 else 0;
    assert d1.1 * k1 == if d1.1 == 1 then k1 else if d1.1 == -1 then -k1 else 0;
    assert d2.0 * k2 == if d2.0 == 1 then k2 else if d2.0 == -1 then -k2 else 0;
    assert d2.1 * k2 == if d2.1 == 1 then k2 else if d2.1 == -1 then -k2 else 0;
  }

  // ---------------------------------------------------------------------------------
  // The shape of every generated move

  /**
   * What make_move and undo_move need of a move: it starts on a piece of the side to move,
   * which it records; it lands elsewhere, on an enterable cell whose content it records,
   * or it is an en-passant capture of the current target one row ahead and one column
   * aside; and a two-row pawn move is a double push from the home row over an empty cell.
   */
  predicate Generated(s: State, m: Move)
    requires IsBoard(s.board)
  {
    m.WellFormed() &&
    (m.startRow != m.endRow || m.startCol != m.endCol) &&
    At(s.board, m.startRow, m.startCol) == m.pieceMoved &&
    m.pieceMoved.Piece? && m.pieceMoved.color == Mover(s) &&
    (if m.isEnpassant
     then m.pieceMoved.kind == Pawn && s.enpassantPossible == Some((m.endRow, m.endCol)) &&
          m.endRow == m.startRow + Forward(s) && Abs(m.endCol - m.startCol) == 1
     else m.pieceCaptured == At(s.board, m.endRow, m.endCol) && Enterable(s, m.endRow, m.endCol)) &&
    (IsDoublePawnStep(m) ==>
       m.startCol == m.endCol && m.startRow == HomeRow(s) && m.endRow == m.startRow + 2 * Forward(s) &&
       At(s.board, m.startRow + Forward(s), m.startCol) == Empty)
  }

  /** A non-pawn move of the side to move onto another, enterable cell has the generated shape. */
  lemma PieceStepGenerated(s: State, row: int, col: int, end: (int, int))
    requires IsBoard(s.board) && OnBoard(row, col) && OnBoard(end.0, end.1) && end != (row, col)
    requires At(s.board, row, col).Piece? && At(s.board, row, col).color == Mover(s)
    requires At(s.board, row, col).kind != Pawn && Enterable(s, end.0, end.1)
    ensures Generated(s, NewMove((row, col), end, s.board, false))
  {
  }

  /** Every pawn move has the generated shape. */
  lemma PawnGenerated(s: State, row: int, col: int, m: Move)
    requires IsBoard(s.board) && OnBoard(row, col) && OnBoard(row + Forward(s), col)
    requires At(s.board, row, col) == Piece(Mover(s), Pawn) && m in PawnMoves(s, row, col)
    ensures Generated(s, m)
  {
    PawnMovesIff(s, row, col, m);
  }

  /** Every slide of a non-pawn piece of the side to move has the generated shape. */
  lemma SlideGenerated(s: State, row: int, col: int, dirs: seq<(int, int)>, m: Move)
    requires IsBoard(s.board) && OnBoard(row, col) && forall j :: 0 <= j < |dirs| ==> Unit(dirs[j])
    requires At(s.board, row, col).Piece? && At(s.board, row, col).color == Mover(s)
    requires At(s.board, row, col).kind != Pawn && m in Slides(s, row, col, dirs)
    ensures Generated(s, m)
  {
    SlidesIff(s, row, col, dirs, m);
    var j, k :| 0 <= j < |dirs| && SlideTarget(s, row, col, dirs[j], 1, k) &&
                m == SlideMove(s, row, col, dirs[j], k);
    StepInjective(row, col, dirs[j], k, dirs[j], k);
    PieceStepGenerated(s, row, col, Step(row, col, dirs[j], k));
  }

  /** Every knight or king step of a non-pawn piece of the side to move has the generated shape. */
  lemma JumpGenerated(s: State, row: int, col: int, offsets: seq<(int, int)>, m: Move)
    requires IsBoard(s.board) && OnBoard(row, col) && forall j :: 0 <= j < |offsets| ==> offsets[j] != (0, 0)
    requires At(s.board, row, col).Piece? && At(s.board, row, col).color == Mover(s)
    requires At(s.board, row, col).kind != Pawn && m in Jumps(s, row, col, offsets)
    ensures Generated(s, m)
  {
    JumpsIff(s, row, col, offsets, m);
    var j :| 0 <= j < |offsets| && JumpTarget(s, row, col, offsets[j]) && m == JumpMove(s, row, col, offsets[j]);
    JumpStepGenerated(s, row, col, offsets[j]);
  }

  /** One knight or king step to a jump target has the generated shape. */
  lemma JumpStepGenerated(s: State, row: int, col: int, o: (int, int))
    requires IsBoard(s.board) && OnBoard(row, col) && o != (0, 0) && JumpTarget(s, row, col, o)
    requires At(s.board, row, col).Piece? && At(s.board, row, col).color == Mover(s)
    requires At(s.board, row, col).kind != Pawn
    ensures Generated(s, JumpMove(s, row, col, o))
  {
    assert (row + o.0, col + o.1) != (row, col);
    PieceStepGenerated(s, row, col, (row + o.0, col + o.1));
  }

  /** Every move of the piece on (row, col) has the generated shape. */
  lemma PieceMovesGenerated(s: State, row: int, col: int, m: Move)
    requires IsBoard(s.board) && NoPawnOnLastRank(s.board) && OnBoard(row, col)
    requires m in PieceMoves(s, row, col)
    ensures Generated(s, m)
  {
    var cell := At(s.board, row, col);
    assert cell.Piece? && cell.color == Mover(s);
    DirectionTables();
    OffsetTables();
    match cell.kind
    case Pawn => PawnGenerated(s, row, col, m);
    case Rook => SlideGenerated(s, row, col, RookDirections, m);
    case Bishop => SlideGenerated(s, row, col, BishopDirections, m);
    case Queen =>
      if m in Slides(s, row, col, RookDirections) {
        SlideGenerated(s, row, col, RookDirections, m);
      } else {
        SlideGenerated(s, row, col, BishopDirections, m);
      }
    case Knight => JumpGenerated(s, row, col, KnightOffsets, m);
    case King => JumpGenerated(s, row, col, KingOffsets, m);
  }

  /** `m` is one of the moves generated for its own start cell. */
  ghost predicate FromStartCell(s: State, m: Move)
    requires IsBoard(s.board) && NoPawnOnLastRank(s.board)
  {
    OnBoard(m.startRow, m.startCol) && m in PieceMoves(s, m.startRow, m.startCol)
  }

  /** Every move of the scan over the first `n` cells of a row comes from its start cell's generator. */
  lemma {:induction false} RowMovesOrigin(s: State, row: int, n: int, m: Move)
    requires IsBoard(s.board) && NoPawnOnLastRank(s.board) && 0 <= row < Dimension && 0 <= n <= Dimension
    requires m in RowMoves(s, row, n)
    ensures FromStartCell(s, m)
  {
    var before := RowMoves(s, row, n - 1);
    var here := PieceMoves(s, row, n - 1);
    assert RowMoves(s, row, n) == before + here;
    if m in before {
      RowMovesOrigin(s, row, n - 1, m);
    } else {
      assert m.startRow == row && m.startCol == n - 1;
    }
  }

  /** Every move of the scan over the first `n` rows comes from its start cell's generator. */
  lemma {:induction false} ScanMovesOrigin(s: State, n: int, m: Move)
    requires IsBoard(s.board) && NoPawnOnLastRank(s.board) && 0 <= n <= Dimension
    requires m in ScanMoves(s, n)
    ensures FromStartCell(s, m)
  {
    var before := ScanMoves(s, n - 1);
    assert ScanMoves(s, n) == before + RowMoves(s, n - 1, Dimension);
    if m in before {
      ScanMovesOrigin(s, n - 1, m);
    } else {
      RowMovesOrigin(s, n - 1, Dimension, m);
    }
  }

  /** Every pseudo-legal move has the generated shape. */
  lemma AllMovesGenerated(s: State)
    requires IsBoard(s.board) && NoPawnOnLastRank(s.board)
    ensures forall m :: m in AllMoves(s) ==> Generated(s, m)
  {
    forall m | m in AllMoves(s)
      ensures Generated(s, m)
    {
      ScanMovesOrigin(s, Dimension, m);
      PieceMovesGenerated(s, m.startRow, m.startCol, m);
    }
  }

  /** The inner scan over the cells up to `col` holds what cell `col` hands out. */
  lemma RowAdds(s: State, row: int, col: int, m: Move)
    requires IsBoard(s.board) && NoPawnOnLastRank(s.board) && 0 <= row < Dimension && 0 <= col < Dimension
    requires m in PieceMoves(s, row, col)
    ensures m in RowMoves(s, row, col + 1)
  {
    InConcat(m, RowMoves(s, row, col), PieceMoves(s, row, col));
  }

  /** Scanning more cells of a row only appends: the shorter scan is a prefix of the longer. */
  lemma {:induction false} RowMovesMonotone(s: State, row: int, k: int, n: int)
    requires IsBoard(s.board) && NoPawnOnLastRank(s.board) && 0 <= row < Dimension && 0 <= k <= n <= Dimension
    ensures RowMoves(s, row, k) <= RowMoves(s, row, n)
  {
    if k < n {
      RowMovesMonotone(s, row, k, n - 1);
      PrefixConcat(RowMoves(s, row, k), RowMoves(s, row, n - 1), PieceMoves(s, row, n - 1));
    }
  }

  /** The outer scan over the rows up to `row` holds what the inner scan of `row` found. */
  lemma ScanAdds(s: State, row: int, m: Move)
    requires IsBoard(s.board) && NoPawnOnLastRank(s.board) && 0 <= row < Dimension
    requires m in RowMoves(s, row, Dimension)
    ensures m in ScanMoves(s, row + 1)
  {
    InConcat(m, ScanMoves(s, row), RowMoves(s, row, Dimension));
  }

  /** Scanning more rows only appends: the shorter scan is a prefix of the longer. */
  lemma {:induction false} ScanMovesMonotone(s: State, k: int, n: int)
    requires IsBoard(s.board) && NoPawnOnLastRank(s.board) && 0 <= k <= n <= Dimension
    ensures ScanMoves(s, k) <= ScanMoves(s, n)
  {
    if k < n {
      ScanMovesMonotone(s, k, n - 1);
      PrefixConcat(ScanMoves(s, k), ScanMoves(s, n - 1), RowMoves(s, n - 1, Dimension));
    }
  }

  /**
   * get_all_possible_moves yields exactly the moves the generators of the on-board cells
   * hand out: a move is in the scan if and only if its own start cell's generator produced it.
   */
  lemma AllMovesIff(s: State, m: Move)
    requires IsBoard(s.board) && NoPawnOnLastRank(s.board)
    ensures m in AllMoves(s) <==>
      OnBoard(m.startRow, m.startCol) && m in PieceMoves(s, m.startRow, m.startCol)
  {
    if m in AllMoves(s) {
      ScanMovesOrigin(s, Dimension, m);
    }
    if OnBoard(m.startRow, m.startCol) && m in PieceMoves(s, m.startRow, m.startCol) {
      RowAdds(s, m.startRow, m.startCol, m);
      RowMovesMonotone(s, m.startRow, m.startCol + 1, Dimension);
      PrefixMember(m, RowMoves(s, m.startRow, m.startCol + 1), RowMoves(s, m.startRow, Dimension));
      ScanAdds(s, m.startRow, m);
      ScanMovesMonotone(s, m.startRow + 1, Dimension);
      PrefixMember(m, ScanMoves(s, m.startRow + 1), ScanMoves(s, Dimension));
    }
  }

  // ---------------------------------------------------------------------------------
  // No two generated moves share a key

  /** No two moves of `ms` land on the same cell. */
  predicate DistinctEnds(ms: seq<Move>) {
    forall i, j :: 0 <= i < j < |ms| ==> (ms[i].endRow, ms[i].endCol) != (ms[j].endRow, ms[j].endCol)
  }

  /** No two moves of `ms` have the same move_id, so no two are equal. */
  predicate DistinctIds(ms: seq<Move>) {
    forall i, j :: 0 <= i < j < |ms| ==> ms[i].MoveId() != ms[j].MoveId()
  }

  lemma ConcatDistinctEnds(a: seq<Move>, b: seq<Move>)
    requires DistinctEnds(a) && DistinctEnds(b)
    requires forall x, y :: x in a && y in b ==> (x.endRow, x.endCol) != (y.endRow, y.endCol)
    ensures DistinctEnds(a + b)
  {
    var c := a + b;
    forall i, j | 0 <= i < j < |c|
      ensures (c[i].endRow, c[i].endCol) != (c[j].endRow, c[j].endCol)
    {
      if j < |a| {
        assert c[i] == a[i] && c[j] == a[j];
      } else if i >= |a| {
        assert c[i] == b[i - |a|] && c[j] == b[j - |a|];
      } else {
        assert c[i] in a && c[j] in b;
      }
    }
  }

  lemma ConcatDistinctIds(a: seq<Move>, b: seq<Move>)
    requires DistinctIds(a) && DistinctIds(b)
    requires forall x, y :: x in a && y in b ==> x.MoveId() != y.MoveId()
    ensures DistinctIds(a + b)
  {
    var c := a + b;
    forall i, j | 0 <= i < j < |c|
      ensures c[i].MoveId() != c[j].MoveId()
    {
      if j < |a| {
        assert c[i] == a[i] && c[j] == a[j];
      } else if i >= |a| {
        assert c[i] == b[i - |a|] && c[j] == b[j - |a|];
      } else {
        assert c[i] in a && c[j] in b;
      }
    }
  }



  /** A ray never lands twice on one cell. */
  lemma {:induction false} RayDistinctEnds(s: State, row: int, col: int, d: (int, int), i: int)
    requires IsBoard(s.board) && OnBoard(row, col) && 1 <= i && Unit(d)
    ensures DistinctEnds(Ray(s, row, col, d, i))
    decreases Dimension - i
  {
    if i < Dimension {
      var e := Step(row, col, d, i);
      if OnBoard(e.0, e.1) && At(s.board, e.0, e.1) == Empty {
        RayDistinctEnds(s, row, col, d, i + 1);
        forall y | y in Ray(s, row, col, d, i + 1)
          ensures (y.endRow, y.endCol) != e
        {
          RayIff(s, row, col, d, i + 1, y);
          var k :| SlideTarget(s, row, col, d, i + 1, k) && y == SlideMove(s, row, col, d, k);
          StepInjective(row, col, d, k, d, i);
        }
        ConcatDistinctEnds([SlideMove(s, row, col, d, i)], Ray(s, row, col, d, i + 1));
      }
    }
  }

  /** Slides along distinct king steps never land twice on one cell. */
  lemma {:induction false} SlidesDistinctEnds(s: State, row: int, col: int, dirs: seq<(int, int)>)
    requires IsBoard(s.board) && OnBoard(row, col)
    requires (forall j :: 0 <= j < |dirs| ==> Unit(dirs[j])) && Distinct(dirs)
    ensures DistinctEnds(Slides(s, row, col, dirs))
  {
    if dirs != [] {
      var n := |dirs| - 1;
      var init := dirs[..n];
      SlidesDistinctEnds(s, row, col, init);
      RayDistinctEnds(s, row, col, dirs[n], 1);
      forall x, y | x in Slides(s, row, col, init) && y in Ray(s, row, col, dirs[n], 1)
        ensures (x.endRow, x.endCol) != (y.endRow, y.endCol)
      {
        SlidesIff(s, row, col, init, x);
        var j, k :| 0 <= j < |init| && SlideTarget(s, row, col, init[j], 1, k) &&
                    x == SlideMove(s, row, col, init[j], k);
        RayIff(s, row, col, dirs[n], 1, y);
        var k2 :| SlideTarget(s, row, col, dirs[n], 1, k2) && y == SlideMove(s, row, col, dirs[n], k2);
        assert init[j] == dirs[j] && dirs[j] != dirs[n];
        StepInjective(row, col, dirs[j], k, dirs[n], k2);
      }
      ConcatDistinctEnds(Slides(s, row, col, init), Ray(s, row, col, dirs[n], 1));
    }
  }

  /** Slides along two tables with no direction in common never land on a common cell. */
  lemma SlidesDisjoint(s: State, row: int, col: int, a: seq<(int, int)>, b: seq<(int, int)>)
    requires IsBoard(s.board) && OnBoard(row, col)
    requires forall j :: 0 <= j < |a| ==> Unit(a[j])
    requires forall j :: 0 <= j < |b| ==> Unit(b[j])
    requires forall i, j :: 0 <= i < |a| && 0 <= j < |b| ==> a[i] != b[j]
    ensures forall x, y :: x in Slides(s, row, col, a) && y in Slides(s, row, col, b) ==>
      (x.endRow, x.endCol) != (y.endRow, y.endCol)
  {
    forall x, y | x in Slides(s, row, col, a) && y in Slides(s, row, col, b)
      ensures (x.endRow, x.endCol) != (y.endRow, y.endCol)
    {
      SlidesIff(s, row, col, a, x);
      var i, k :| 0 <= i < |a| && SlideTarget(s, row, col, a[i], 1, k) && x == SlideMove(s, row, col, a[i], k);
      SlidesIff(s, row, col, b, y);
      var j, k2 :| 0 <= j < |b| && SlideTarget(s, row, col, b[j], 1, k2) && y == SlideMove(s, row, col, b[j], k2);
      StepInjective(row, col, a[i], k, b[j], k2);
    }
  }

  /** Distinct offsets never land twice on one cell. */
  lemma {:induction false} JumpsDistinctEnds(s: State, row: int, col: int, offsets: seq<(int, int)>)
    requires IsBoard(s.board) && OnBoard(row, col) && Distinct(offsets)
    ensures DistinctEnds(Jumps(s, row, col, offsets))
  {
    if offsets != [] {
      var n := |offsets| - 1;
      var init := offsets[..n];
      JumpsDistinctEnds(s, row, col, init);
      forall x, y | x in Jumps(s, row, col, init) && y in Jump(s, row, col, offsets[n])
        ensures (x.endRow, x.endCol) != (y.endRow, y.endCol)
      {
        JumpsIff(s, row, col, init, x);
        var j :| 0 <= j < |init| && JumpTarget(s, row, col, init[j]) && x == JumpMove(s, row, col, init[j]);
        assert init[j] == offsets[j] && offsets[j] != offsets[n];
      }
      ConcatDistinctEnds(Jumps(s, row, col, init), Jump(s, row, col, offsets[n]));
    }
  }

  /** A pawn's pushes and captures land on distinct cells. */
  lemma PawnDistinctEnds(s: State, row: int, col: int)
    requires IsBoard(s.board) && OnBoard(row, col) && OnBoard(row + Forward(s), col)
    ensures DistinctEnds(PawnMoves(s, row, col))
  {
    var push := PawnPush(s, row, col);
    var left := PawnCapture(s, row, col, col - 1);
    var right := PawnCapture(s, row, col, col + 1);
    assert forall y :: y in left ==> y.endCol == col - 1;
    assert forall y :: y in right ==> y.endCol == col + 1;
    assert forall y :: y in push ==> y.endCol == col;
    ConcatDistinctEnds(push, left);
    ConcatDistinctEnds(push + left, right);
  }

  /** The moves of one piece land on distinct cells. */
  lemma PieceDistinctEnds(s: State, row: int, col: int)
    requires IsBoard(s.board) && NoPawnOnLastRank(s.board) && OnBoard(row, col)
    ensures DistinctEnds(PieceMoves(s, row, col))
  {
    var cell := At(s.board, row, col);
    if cell.Piece? && cell.color == Mover(s) {
      DirectionTables();
      OffsetTables();
      match cell.kind
      case Pawn => PawnDistinctEnds(s, row, col);
      case Rook => SlidesDistinctEnds(s, row, col, RookDirections);
      case Bishop => SlidesDistinctEnds(s, row, col, BishopDirections);
      case Queen =>
        SlidesDistinctEnds(s, row, col, RookDirections);
        SlidesDistinctEnds(s, row, col, BishopDirections);
        SlidesDisjoint(s, row, col, RookDirections, BishopDirections);
        ConcatDistinctEnds(Slides(s, row, col, RookDirections), Slides(s, row, col, BishopDirections));
      case Knight => JumpsDistinctEnds(s, row, col, KnightOffsets);
      case King => JumpsDistinctEnds(s, row, col, KingOffsets);
    }
  }

  /** The moves of one piece have distinct keys. */
  lemma PieceDistinctIds(s: State, row: int, col: int)
    requires IsBoard(s.board) && NoPawnOnLastRank(s.board) && OnBoard(row, col)
    ensures DistinctIds(PieceMoves(s, row, col))
  {
    var ms := PieceMoves(s, row, col);
    PieceDistinctEnds(s, row, col);
    forall i, j | 0 <= i < j < |ms|
      ensures ms[i].MoveId() != ms[j].MoveId()
    {
      assert ms[i] in ms && ms[j] in ms;
      MoveIdInjective(ms[i], ms[j]);
    }
  }

  /** The moves of the first `n` cells of a row have distinct keys. */
  lemma {:induction false} RowDistinctIds(s: State, row: int, n: int)
    requires IsBoard(s.board) && NoPawnOnLastRank(s.board) && 0 <= row < Dimension && 0 <= n <= Dimension
    ensures DistinctIds(RowMoves(s, row, n))
  {
    if n > 0 {
      RowDistinctIds(s, row, n - 1);
      PieceDistinctIds(s, row, n - 1);
      RowStepIds(s, row, n);
    }
  }

  /** Cell n-1's moves start right of every earlier cell's, so their keys are new. */
  lemma RowStepIds(s: State, row: int, n: int)
    requires IsBoard(s.board) && NoPawnOnLastRank(s.board) && 0 <= row < Dimension && 0 < n <= Dimension
    requires DistinctIds(RowMoves(s, row, n - 1)) && DistinctIds(PieceMoves(s, row, n - 1))
    ensures DistinctIds(RowMoves(s, row, n))
  {
    var before := RowMoves(s, row, n - 1);
    var here := PieceMoves(s, row, n - 1);
    assert RowMoves(s, row, n) == before + here;
    forall x, y | x in before && y in here
      ensures x.MoveId() != y.MoveId()
    {
      MoveIdInjective(x, y);
    }
    ConcatDistinctIds(before, here);
  }

  /** The moves of the first `n` rows have distinct keys. */
  lemma {:induction false} ScanDistinctIds(s: State, n: int)
    requires IsBoard(s.board) && NoPawnOnLastRank(s.board) && 0 <= n <= Dimension
    ensures DistinctIds(ScanMoves(s, n))
  {
    if n > 0 {
      ScanDistinctIds(s, n - 1);
      RowDistinctIds(s, n - 1, Dimension);
      ScanStepIds(s, n);
    }
  }

  /** Row n-1's moves start below every earlier row's, so their keys are new. */
  lemma ScanStepIds(s: State, n: int)
    requires IsBoard(s.board) && NoPawnOnLastRank(s.board) && 0 < n <= Dimension
    requires DistinctIds(ScanMoves(s, n - 1)) && DistinctIds(RowMoves(s, n - 1, Dimension))
    ensures DistinctIds(ScanMoves(s, n))
  {
    var before := ScanMoves(s, n - 1);
    var here := RowMoves(s, n - 1, Dimension);
    assert ScanMoves(s, n) == before + here;
    forall x, y | x in before && y in here
      ensures x.MoveId() != y.MoveId()
    {
      MoveIdInjective(x, y);
    }
    ConcatDistinctIds(before, here);
  }

  /**
   * No two pseudo-legal moves are equal: one piece per start cell, and each piece's moves
   * land on distinct cells (rook and bishop directions are disjoint, so the queen's too).
   */
  lemma AllMovesDistinctIds(s: State)
    requires IsBoard(s.board) && NoPawnOnLastRank(s.board)
    ensures DistinctIds(AllMoves(s))
  {
    ScanDistinctIds(s, Dimension);
  }
}
