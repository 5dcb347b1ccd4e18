/**
 * The check detector of pieces.py (is_in_check): a side is in check when it
 * has a king and some piece of the other side generates a move onto the
 * king's square.
 */
module Check {
  import opened Wrappers
  import opened Catalog
  import opened BoardModel
  import opened MoveGen

  /** Some move generated for `piece` on `from` lands on `k`. */
  predicate Reaches(b: Board, from: Pos, piece: Piece, k: Pos)
  {
    exists i | 0 <= i < |Moves(b, from, piece)| :: Moves(b, from, piece)[i].to == k
  }

  /** The square `from` holds a piece of the side opposing `side`, and that
      piece reaches `k`. */
  predicate Attacks(b: Board, from: Pos, side: Side, k: Pos)
    requires OnBoard(from)
  {
    At(b, from).Occupied? && At(b, from).piece.side != side && Reaches(b, from, At(b, from).piece, k)
  }

  /** Some opposing piece on the board reaches `k`. */
  ghost predicate Attacked(b: Board, side: Side, k: Pos)
  {
    exists p | OnBoard(p) :: Attacks(b, p, side, k)
  }

  /** What is_in_check answers: false without a king; otherwise whether an
      opposing piece's generated targets include the (first) king square. */
  ghost predicate InCheck(b: Board, side: Side)
  {
    match KingSquare(b, side)
    case None => false
    case Some(k) => Attacked(b, side, k)
  }

  /** The source's loop over one piece's moves, looking for the king square. */
  method AnyMoveTo(moves: seq<Target>, k: Pos) returns (found: bool)
    ensures found <==> exists j | 0 <= j < |moves| :: moves[j].to == k
  {
    for i := 0 to |moves|
      invariant forall j | 0 <= j < i :: moves[j].to != k
    {
      if moves[i].to == k {
        return true;
      }
    }
    return false;
  }

  /** The body of is_in_check's scan for one square: an opposing piece there
      (lower against upper, upper against lower) whose moves reach `k`. */
  method SquareAttacks(b: Board, row: int, col: int, side: Side, k: Pos) returns (hit: bool)
    requires IsOnBoard(row, col)
    ensures hit == Attacks(b, Pos(row, col), side, k)
  {
    var cell := b[row][col];
    if cell == Empty {
      return false;
    }
    var piece := cell.piece;
    hit := false;
    if side == Upper && piece.side == Lower {
      var moves := GenerateLegalMoves(b, Pos(row, col), piece);
      hit := AnyMoveTo(moves, k);
    } else if side == Lower && piece.side == Upper {
      var moves := GenerateLegalMoves(b, Pos(row, col), piece);
      hit := AnyMoveTo(moves, k);
    }
  }

  /** One row of is_in_check's scan. */
  method RowAttacks(b: Board, row: int, side: Side, k: Pos) returns (hit: bool)
    requires 0 <= row < 9
    ensures hit <==> exists p | OnBoard(p) && p.row == row :: Attacks(b, p, side, k)
  {
    for col := 0 to 9
      invariant forall p | OnBoard(p) && p.row == row && p.col < col :: !Attacks(b, p, side, k)
    {
      hit := SquareAttacks(b, row, col, side, k);
      if hit {
        assert Pos(row, col).row == row;
        return;
      }
    }
    return false;
  }

  /** is_in_check's scan of the board, row by row, for an opposing piece
      reaching `k`; it stops at the first one. */
  method ScanForAttack(b: Board, side: Side, k: Pos) returns (hit: bool)
    ensures hit == Attacked(b, side, k)
  {
    for row := 0 to 9
      invariant forall p | OnBoard(p) && p.row < row :: !Attacks(b, p, side, k)
    {
      hit := RowAttacks(b, row, side, k);
      if hit {
        return;
      }
    }
    return false;
  }

  /** is_in_check: find the king, then scan the board for an opposing piece
      that reaches it. */
  method IsInCheck(b: Board, side: Side) returns (check: bool)
    ensures check == InCheck(b, side)
    ensures KingSquare(b, side).None? ==> !check
  {
    var kingPos := FindKingPosition(b, side);
    if kingPos.None? {
      return false;
    }
    check := ScanForAttack(b, side, kingPos.value);
  }
}
