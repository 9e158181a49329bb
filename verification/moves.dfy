/** The Move value: one board transition, the pieces it found, and its coordinate key. */
module Moves {
  import opened Options
  import opened Pieces

  /** True when `p` is a pawn that has reached the far rank for its colour. */
  predicate PromotesAt(p: Square, endRow: int)
    ensures PromotesAt(p, endRow) ==> p.Piece? && p.kind == Pawn && (endRow == 0 || endRow == 7)
  {
    (p == Piece(White, Pawn) && endRow == 0) || (p == Piece(Black, Pawn) && endRow == 7)
  }

  /** The pawn an en-passant capture by `moved` takes: "wP" if the mover is "bP", otherwise "bP". */
  function EnPassantVictim(moved: Square): (victim: Square)
    ensures victim.Piece? && victim.kind == Pawn
    ensures moved.Piece? && moved.kind == Pawn ==> victim.color != moved.color
  {
    if moved == Piece(Black, Pawn) then Piece(White, Pawn) else Piece(Black, Pawn)
  }

  datatype Move = Move(startRow: int, startCol: int, endRow: int, endCol: int,
                       pieceMoved: Square, pieceCaptured: Square,
                       isPawnPromotion: bool, isEnpassant: bool)
  {
    /** move_id: the four coordinates written as the digits of one number. */
    function MoveId(): (id: int)
      ensures OnBoard(startRow, startCol) && OnBoard(endRow, endCol) ==> 0 <= id <= 7777
    {
      startRow * 1000 + startCol * 100 + endRow * 10 + endCol
    }

    /** What every Move built by its constructor satisfies. */
    predicate WellFormed() {
      OnBoard(startRow, startCol) && OnBoard(endRow, endCol) &&
      isPawnPromotion == PromotesAt(pieceMoved, endRow) &&
      (isEnpassant ==> pieceCaptured == EnPassantVictim(pieceMoved))
    }
  }

  /**
   * Move(start_square, end_square, board, is_enpassant_move): both pieces are read from
   * the snapshot `b` when the move is built; promotion is detected; an en-passant flag
   * replaces the captured piece by the opposing pawn.
   */
  function NewMove(start: (int, int), end: (int, int), b: Board, isEnpassantMove: bool): (m: Move)
    requires IsBoard(b) && OnBoard(start.0, start.1) && OnBoard(end.0, end.1)
    ensures m.WellFormed()
    ensures m.startRow == start.0 && m.startCol == start.1
    ensures m.endRow == end.0 && m.endCol == end.1
    ensures m.pieceMoved == At(b, start.0, start.1) && m.isEnpassant == isEnpassantMove
    ensures !isEnpassantMove ==> m.pieceCaptured == At(b, end.0, end.1)
  {
    var moved := At(b, start.0, start.1);
    Move(start.0, start.1, end.0, end.1, moved,
         if isEnpassantMove then EnPassantVictim(moved) else At(b, end.0, end.1),
         PromotesAt(moved, end.0), isEnpassantMove)
  }

  /** Move.__eq__: two moves are equal when their keys are, which on the board means same four coordinates. */
  predicate Equal(a: Move, b: Move)
    ensures OnBoard(a.startRow, a.startCol) && OnBoard(a.endRow, a.endCol) &&
            OnBoard(b.startRow, b.startCol) && OnBoard(b.endRow, b.endCol) ==>
      (Equal(a, b) <==>
       a.startRow == b.startRow && a.startCol == b.startCol && a.endRow == b.endRow && a.endCol == b.endCol)
  {
    MoveIdInjective(a, b);
    a.MoveId() == b.MoveId()
  }

  /** Splitting off the last decimal digit is unique. */
  lemma DigitSplit(x: int, a: int, y: int, c: int)
    requires 0 <= a < 10 && 0 <= c < 10 && x * 10 + a == y * 10 + c
    ensures x == y && a == c
  {
  }

  /**
   * On the board, the key is injective: two moves have the same move_id exactly when their
   * four coordinates match, whatever pieces or flags they carry.
   */
  lemma MoveIdInjective(a: Move, b: Move)
    ensures OnBoard(a.startRow, a.startCol) && OnBoard(a.endRow, a.endCol) &&
            OnBoard(b.startRow, b.startCol) && OnBoard(b.endRow, b.endCol) ==>
      (a.MoveId() == b.MoveId() <==>
       a.startRow == b.startRow && a.startCol == b.startCol && a.endRow == b.endRow && a.endCol == b.endCol)
  {
    if OnBoard(a.startRow, a.startCol) && OnBoard(a.endRow, a.endCol) &&
       OnBoard(b.startRow, b.startCol) && OnBoard(b.endRow, b.endCol) && a.MoveId() == b.MoveId() {
      var x := (a.startRow * 10 + a.startCol) * 10 + a.endRow;
      var y := (b.startRow * 10 + b.startCol) * 10 + b.endRow;
      assert a.MoveId() == x * 10 + a.endCol;
      assert b.MoveId() == y * 10 + b.endCol;
      DigitSplit(x, a.endCol, y, b.endCol);
      DigitSplit(a.startRow * 10 + a.startCol, a.endRow, b.startRow * 10 + b.startCol, b.endRow);
      DigitSplit(a.startRow, a.startCol, b.startRow, b.startCol);
    }
  }

  /** ranks_to_rows: rank digit to board row. */
  const RanksToRows: map<char, int> :=
    map['1' := 7, '2' := 6, '3' := 5, '4' := 4, '5' := 3, '6' := 2, '7' := 1, '8' := 0]

  /** rows_to_ranks: the inverse table. */
  const RowsToRanks: map<int, char> :=
    map[7 := '1', 6 := '2', 5 := '3', 4 := '4', 3 := '5', 2 := '6', 1 := '7', 0 := '8']

  /** files_to_cols: file letter to board column. */
  const FilesToCols: map<char, int> :=
    map['a' := 0, 'b' := 1, 'c' := 2, 'd' := 3, 'e' := 4, 'f' := 5, 'g' := 6, 'h' := 7]

  /** cols_to_files: the inverse table. */
  const ColsToFiles: map<int, char> :=
    map[0 := 'a', 1 := 'b', 2 := 'c', 3 := 'd', 4 := 'e', 5 := 'f', 6 := 'g', 7 := 'h']

  /** Row and rank tables are inverse to each other. */
  lemma RowTablesInverse()
    ensures forall r :: 0 <= r < Dimension ==> r in RowsToRanks && RowsToRanks[r] in RanksToRows && RanksToRows[RowsToRanks[r]] == r
    ensures forall k :: k in RanksToRows ==> RanksToRows[k] in RowsToRanks && RowsToRanks[RanksToRows[k]] == k
  {
    assert RanksToRows.Keys == {'1', '2', '3', '4', '5', '6', '7', '8'};
  }

  /** Column and file tables are inverse to each other. */
  lemma ColTablesInverse()
    ensures forall c :: 0 <= c < Dimension ==> c in ColsToFiles && ColsToFiles[c] in FilesToCols && FilesToCols[ColsToFiles[c]] == c
    ensures forall f :: f in FilesToCols ==> FilesToCols[f] in ColsToFiles && ColsToFiles[FilesToCols[f]] == f
  {
    assert FilesToCols.Keys == {'a', 'b', 'c', 'd', 'e', 'f', 'g', 'h'};
  }

  /** get_rank_file: file letter then rank digit of one cell. */
  function RankFile(row: int, col: int): (t: string)
    requires OnBoard(row, col)
    ensures |t| == 2 && t[0] == "abcdefgh"[col] && t[1] == "87654321"[row]
  {
    [ColsToFiles[col], RowsToRanks[row]]
  }

  /** get_chess_notation: start cell then end cell, four characters. */
  function ChessNotation(m: Move): (t: string)
    requires OnBoard(m.startRow, m.startCol) && OnBoard(m.endRow, m.endCol)
    ensures |t| == 4
    ensures t[0] == "abcdefgh"[m.startCol] && t[1] == "87654321"[m.startRow]
    ensures t[2] == "abcdefgh"[m.endCol] && t[3] == "87654321"[m.endRow]
  {
    RankFile(m.startRow, m.startCol) + RankFile(m.endRow, m.endCol)
  }

  /** Reads one cell back through the forward tables, or None for text that names no cell. */
  function ParseSquare(t: string): (r: Option<(int, int)>)
    ensures r.Some? ==> OnBoard(r.value.0, r.value.1)
  {
    if |t| == 2 && t[0] in FilesToCols && t[1] in RanksToRows
    then Some((RanksToRows[t[1]], FilesToCols[t[0]]))
    else None
  }

  /** Reads a four-character notation back into its two cells. */
  function ParseNotation(t: string): Option<((int, int), (int, int))> {
    if |t| == 4 && ParseSquare(t[..2]).Some? && ParseSquare(t[2..]).Some?
    then Some((ParseSquare(t[..2]).value, ParseSquare(t[2..]).value))
    else None
  }

  /** Every cell's name reads back as that cell, and every readable name is a cell's name. */
  lemma RankFileRoundTrip(row: int, col: int, t: string)
    requires OnBoard(row, col)
    ensures ParseSquare(RankFile(row, col)) == Some((row, col))
    ensures ParseSquare(t) == Some((row, col)) ==> t == RankFile(row, col)
  {
    var name := RankFile(row, col);
    assert name[0] == ColsToFiles[col] && name[1] == RowsToRanks[row];
    RowTablesInverse();
    ColTablesInverse();
    if ParseSquare(t) == Some((row, col)) {
      assert t[0] in FilesToCols && t[1] in RanksToRows;
      assert t == [t[0], t[1]];
    }
  }

  /** The notation of a move reads back as its two cells; equal moves have the same notation. */
  lemma NotationRoundTrip(m: Move, other: Move)
    requires OnBoard(m.startRow, m.startCol) && OnBoard(m.endRow, m.endCol)
    requires OnBoard(other.startRow, other.startCol) && OnBoard(other.endRow, other.endCol)
    ensures ParseNotation(ChessNotation(m)) == Some(((m.startRow, m.startCol), (m.endRow, m.endCol)))
    ensures Equal(m, other) <==> ChessNotation(m) == ChessNotation(other)
  {
    var t := ChessNotation(m);
    assert t[..2] == RankFile(m.startRow, m.startCol);
    assert t[2..] == RankFile(m.endRow, m.endCol);
    RankFileRoundTrip(m.startRow, m.startCol, "");
    RankFileRoundTrip(m.endRow, m.endCol, "");
    if ChessNotation(m) == ChessNotation(other) {
      var u := ChessNotation(other);
      assert u[..2] == RankFile(other.startRow, other.startCol);
      assert u[2..] == RankFile(other.endRow, other.endCol);
      RankFileRoundTrip(other.startRow, other.startCol, "");
      RankFileRoundTrip(other.endRow, other.endCol, "");
    }
  }
}
