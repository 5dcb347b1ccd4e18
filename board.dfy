/**
 * The board model of pieces.py: coordinates, the 9x9 grid, side reflection
 * of direction vectors, cell classification, applying a move, and locating
 * a king.
 */
module BoardModel {
  import opened Wrappers
  import opened Catalog

  /** A square (row, col); row 0 is the far rank of the upper side. */
  datatype Pos = Pos(row: int, col: int)

  /** is_on_board */
  predicate IsOnBoard(row: int, col: int)
  {
    0 <= row < 9 && 0 <= col < 9
  }

  predicate OnBoard(p: Pos)
  {
    IsOnBoard(p.row, p.col)
  }

  predicate IsGrid(rows: seq<seq<Cell>>)
  {
    |rows| == 9 && forall r | 0 <= r < 9 :: |rows[r]| == 9
  }

  /** A board: nine rows of nine cells (the source's list of lists). */
  type Board = rows: seq<seq<Cell>> | IsGrid(rows) witness seq(9, _ => seq(9, _ => Empty))

  /** A board with every cell "EMPTY". */
  const EmptyBoard: Board := seq(9, _ => seq(9, _ => Empty))

  function At(b: Board, p: Pos): Cell
    requires OnBoard(p)
  {
    b[p.row][p.col]
  }

  /** The board that differs from `b` only in that square `p` holds `x`. */
  function Put(b: Board, p: Pos, x: Cell): (r: Board)
    requires OnBoard(p)
    ensures At(r, p) == x
    ensures forall q | OnBoard(q) && q != p :: At(r, q) == At(b, q)
  {
    b[p.row := b[p.row][p.col := x]]
  }

  /** orient_move: a lower-side (lower-case) piece mirrors the row delta. */
  function OrientMove(dr: int, dc: int, piece: Piece): (v: (int, int))
    ensures v.1 == dc
    ensures piece.side == Upper ==> v.0 == dr
    ensures piece.side == Lower ==> v.0 == -dr
  {
    if piece.side == Lower then (-dr, dc) else (dr, dc)
  }

  /** Orienting twice for the same piece gives back the authored vector, and
      a non-zero vector stays non-zero. */
  lemma OrientInvolutive(dr: int, dc: int, piece: Piece)
    ensures OrientMove(OrientMove(dr, dc, piece).0, OrientMove(dr, dc, piece).1, piece) == (dr, dc)
    ensures (dr, dc) != (0, 0) ==> OrientMove(dr, dc, piece) != (0, 0)
  {
  }

  /** The answers of classify_cell. */
  datatype CellClass = EmptyCell | Friend | Enemy

  /** classify_cell: a piece whose code has the same case as the mover's is a friend. */
  function ClassifyCell(piece: Piece, state: Cell): (c: CellClass)
    ensures c == EmptyCell <==> state == Empty
    ensures c == Friend <==> state.Occupied? && state.piece.side == piece.side
    ensures c == Enemy <==> state.Occupied? && state.piece.side != piece.side
  {
    if state == Empty then EmptyCell
    else if piece.side == state.piece.side then Friend
    else Enemy
  }

  /** The tag of a generated move: "move" onto an empty square, or "capture". */
  datatype MoveType = Move | Capture

  /** What apply_move returns: the new board and the captured cell, if any. */
  datatype Applied = Applied(board: Board, captured: Option<Cell>)

  /** apply_move on a fresh copy of the board: the destination receives
      `piece`, then the origin is emptied. */
  function ApplyMove(b: Board, from: Pos, to: Pos, moveType: MoveType, piece: Piece): (a: Applied)
    requires OnBoard(from) && OnBoard(to)
    ensures At(a.board, from) == Empty
    ensures to != from ==> At(a.board, to) == Occupied(piece)
    ensures forall q | OnBoard(q) && q != from && q != to :: At(a.board, q) == At(b, q)
    ensures a.captured == if moveType == Capture then Some(At(b, to)) else None
  {
    var captured := if moveType == Capture then Some(At(b, to)) else None;
    Applied(Put(Put(b, to, Occupied(piece)), from, Empty), captured)
  }

  /** The king code of a side ("OU" for upper, "ou" for lower). */
  function King(side: Side): Piece
  {
    Piece(side, Ou)
  }

  /** Row-major order on squares: the order of the source's nested scans. */
  predicate Before(p: Pos, q: Pos)
  {
    p.row < q.row || (p.row == q.row && p.col < q.col)
  }

  /** The first square holding `side`'s king at or after (r, c) in row-major order. */
  function KingScan(b: Board, side: Side, r: int, c: int): Option<Pos>
    requires 0 <= r <= 9 && 0 <= c <= 9
    decreases 9 - r, 9 - c
  {
    if r == 9 then None
    else if c == 9 then KingScan(b, side, r + 1, 0)
    else if b[r][c] == Occupied(King(side)) then Some(Pos(r, c))
    else KingScan(b, side, r, c + 1)
  }

  /** The square find_king_position answers (see KingSquareIsFirstKing). */
  function KingSquare(b: Board, side: Side): (k: Option<Pos>)
    ensures k.Some? ==> OnBoard(k.value)
  {
    KingScanFinds(b, side, 0, 0);
    KingScan(b, side, 0, 0)
  }

  lemma {:induction false} KingScanFinds(b: Board, side: Side, r: int, c: int)
    requires 0 <= r <= 9 && 0 <= c <= 9
    decreases 9 - r, 9 - c
    ensures var k := KingScan(b, side, r, c);
      && (k.Some? ==> OnBoard(k.value) && At(b, k.value) == Occupied(King(side)) && !Before(k.value, Pos(r, c)))
      && (k.Some? ==> forall p | OnBoard(p) && !Before(p, Pos(r, c)) && Before(p, k.value) ::
                        At(b, p) != Occupied(King(side)))
      && (k.None? ==> forall p | OnBoard(p) && !Before(p, Pos(r, c)) :: At(b, p) != Occupied(King(side)))
  {
    if r == 9 {
    } else if c == 9 {
      KingScanFinds(b, side, r + 1, 0);
    } else if b[r][c] != Occupied(King(side)) {
      KingScanFinds(b, side, r, c + 1);
    }
  }

  /** KingSquare is the first square, in row-major order, holding the king of
      `side`, and None exactly when that side has no king on the board. */
  lemma KingSquareIsFirstKing(b: Board, side: Side)
    ensures var k := KingSquare(b, side);
      && (k.None? <==> forall p | OnBoard(p) :: At(b, p) != Occupied(King(side)))
      && (k.Some? ==> At(b, k.value) == Occupied(King(side)))
      && (k.Some? ==> forall p | OnBoard(p) && Before(p, k.value) :: At(b, p) != Occupied(King(side)))
  {
    KingScanFinds(b, side, 0, 0);
  }

  /** find_king_position: scan rows, then columns, and return at the first king. */
  method FindKingPosition(b: Board, side: Side) returns (k: Option<Pos>)
    ensures k == KingSquare(b, side)
  {
    KingSquareIsFirstKing(b, side);
    var king := King(side);
    for row := 0 to 9
      invariant forall p | OnBoard(p) && p.row < row :: At(b, p) != Occupied(king)
    {
      for col := 0 to 9
        invariant forall p | OnBoard(p) && Before(p, Pos(row, col)) :: At(b, p) != Occupied(king)
      {
        if b[row][col] == Occupied(king) {
          assert At(b, Pos(row, col)) == Occupied(king);
          assert KingSquare(b, side).Some?;
          return Some(Pos(row, col));
        }
      }
    }
    return None;
  }
}
