/** The optional value the engine uses where the source stores an empty tuple. */
module Options {
  datatype Option<T> = None | Some(value: T)
}

/** Cells, pieces and the 8x8 grid that the engine plays on. */
module Pieces {

  /** Number of rows and of columns of the board (DIMENSION). */
  const Dimension := 8

  datatype Color = White | Black

  datatype Kind = Pawn | Rook | Knight | Bishop | Queen | King

  /** What one cell holds: the source's "--", or a code such as "wP" (colour, kind). */
  datatype Square = Empty | Piece(color: Color, kind: Kind)

  predicate OnBoard(row: int, col: int) {
    0 <= row < Dimension && 0 <= col < Dimension
  }

  /** Row 0 is black's back rank, row 7 white's. */
  type Board = seq<seq<Square>>

  predicate IsBoard(b: Board) {
    |b| == Dimension && forall r :: 0 <= r < Dimension ==> |b[r]| == Dimension
  }

  function At(b: Board, row: int, col: int): Square
    requires IsBoard(b) && OnBoard(row, col)
  {
    b[row][col]
  }

  /** The board with one cell overwritten: `board[row][col] = x`. */
  function Put(b: Board, row: int, col: int, x: Square): (r: Board)
    requires IsBoard(b) && OnBoard(row, col)
    ensures IsBoard(r)
    ensures forall i, j :: OnBoard(i, j) ==>
      At(r, i, j) == if i == row && j == col then x else At(b, i, j)
  {
    b[row := b[row][col := x]]
  }

  /** Two boards that agree on every cell are the same board. */
  lemma SameBoard(a: Board, b: Board)
    requires IsBoard(a) && IsBoard(b)
    requires forall i, j :: OnBoard(i, j) ==> At(a, i, j) == At(b, i, j)
    ensures a == b
  {
    forall i | 0 <= i < Dimension
      ensures a[i] == b[i]
    {
      forall j | 0 <= j < Dimension
        ensures a[i][j] == b[i][j]
      {
        assert At(a, i, j) == At(b, i, j);
      }
    }
  }

  /** Promotion keeps this true: no white pawn on row 0, no black pawn on row 7. */
  predicate NoPawnOnLastRank(b: Board)
    requires IsBoard(b)
  {
    forall c :: 0 <= c < Dimension ==>
      At(b, 0, c) != Piece(White, Pawn) && At(b, 7, c) != Piece(Black, Pawn)
  }

  /** The start position laid out in GameState.__init__. */
  const InitialBoard: Board := [
    [Piece(Black, Rook), Piece(Black, Knight), Piece(Black, Bishop), Piece(Black, Queen),
     Piece(Black, King), Piece(Black, Bishop), Piece(Black, Knight), Piece(Black, Rook)],
    [Piece(Black, Pawn), Piece(Black, Pawn), Piece(Black, Pawn), Piece(Black, Pawn),
     Piece(Black, Pawn), Piece(Black, Pawn), Piece(Black, Pawn), Piece(Black, Pawn)],
    [Empty, Empty, Empty, Empty, Empty, Empty, Empty, Empty],
    [Empty, Empty, Empty, Empty, Empty, Empty, Empty, Empty],
    [Empty, Empty, Empty, Empty, Empty, Empty, Empty, Empty],
    [Empty, Empty, Empty, Empty, Empty, Empty, Empty, Empty],
    [Piece(White, Pawn), Piece(White, Pawn), Piece(White, Pawn), Piece(White, Pawn),
     Piece(White, Pawn), Piece(White, Pawn), Piece(White, Pawn), Piece(White, Pawn)],
    [Piece(White, Rook), Piece(White, Knight), Piece(White, Bishop), Piece(White, Queen),
     Piece(White, King), Piece(White, Bishop), Piece(White, Knight), Piece(White, Rook)]
  ]
}
