/**
 * The drop rules of pieces.py (_can_drop_piece): a piece from the hand may
 * be put on an empty square of the board, except a pawn on a file that
 * already holds a pawn of the same side (nifu), and a pawn, lance or knight
 * on a rank from which it could never move again.
 */
module Drops {
  import opened Catalog
  import opened BoardModel
  import opened Promotion
  import opened MoveGen

  /** Column `col` holds a pawn of `side`. */
  predicate OwnPawnInColumn(b: Board, side: Side, col: int)
    requires 0 <= col < 9
  {
    exists r | 0 <= r < 9 :: b[r][col] == Occupied(Piece(side, Fu))
  }

  /** A rank where a dropped piece of `kind` would be stuck: the last rank
      for a pawn or lance, the last two for a knight, counted from `side`. */
  predicate DeadRank(side: Side, kind: Kind, row: int)
  {
    ((kind == Fu || kind == Ky) && ((side == Upper && row == 0) || (side == Lower && row == 8))) ||
    (kind == Ke && ((side == Upper && row <= 1) || (side == Lower && row >= 7)))
  }

  /** What _can_drop_piece answers for dropping a piece of `kind` for `side`
      on `to`. */
  predicate DropAllowed(b: Board, side: Side, kind: Kind, to: Pos)
  {
    OnBoard(to) && At(b, to) == Empty &&
    !(kind == Fu && OwnPawnInColumn(b, side, to.col)) &&
    !DeadRank(side, kind, to.row)
  }

  /** The nifu scan down one column, stopping at the first own pawn. */
  method ColumnHasOwnPawn(b: Board, side: Side, col: int) returns (found: bool)
    requires 0 <= col < 9
    ensures found == OwnPawnInColumn(b, side, col)
  {
    var ownFu := Occupied(Piece(side, Fu));
    for r := 0 to 9
      invariant forall r' | 0 <= r' < r :: b[r'][col] != ownFu
    {
      if b[r][col] == ownFu {
        return true;
      }
    }
    return false;
  }

  /** _can_drop_piece. Only the kind of the hand piece is consulted; the
      side is the one dropping. */
  method CanDropPiece(b: Board, side: Side, handPiece: Piece, to: Pos) returns (ok: bool)
    ensures ok == DropAllowed(b, side, handPiece.kind, to)
  {
    var row, col := to.row, to.col;
    if !IsOnBoard(row, col) {
      return false;
    }
    if b[row][col] != Empty {
      return false;
    }
    var base := handPiece.kind;
    if base == Fu {
      var nifu := ColumnHasOwnPawn(b, side, col);
      if nifu {
        return false;
      }
    }
    if base == Fu || base == Ky {
      if side == Upper && row == 0 {
        return false;
      }
      if side == Lower && row == 8 {
        return false;
      }
    }
    if base == Ke {
      if side == Upper && row <= 1 {
        return false;
      }
      if side == Lower && row >= 7 {
        return false;
      }
    }
    return true;
  }

  /** The ranks barred to a drop are exactly the ranks on which a piece
      arriving by a move must promote. */
  lemma DeadRankIsForcedRank(side: Side, kind: Kind, row: int)
    ensures DeadRank(side, kind, row) <==> ForcePromote(row, Piece(side, kind))
  {
  }

  /** A pawn, lance or knight that may legally be dropped keeps a move: on an
      empty board it generates at least one target from its drop square. */
  lemma DroppedPieceCanMove(b: Board, side: Side, kind: Kind, to: Pos)
    requires DropAllowed(b, side, kind, to)
    requires kind in {Fu, Ky, Ke}
    ensures Moves(EmptyBoard, to, Piece(side, kind)) != []
  {
    DeadRankIsForcedRank(side, kind, to.row);
    ForcedMeansNoMoves(EmptyBoard, to, Piece(side, kind));
  }

  /** No file holds two pawns of `side`. */
  predicate NoNifu(b: Board, side: Side)
  {
    forall c, r1, r2 | 0 <= c < 9 && 0 <= r1 < 9 && 0 <= r2 < 9 ::
      b[r1][c] == Occupied(Piece(side, Fu)) && b[r2][c] == Occupied(Piece(side, Fu)) ==> r1 == r2
  }

  /** The nifu rule keeps its invariant: a drop _can_drop_piece allows
      leaves every file with at most one pawn of each side. */
  lemma DropKeepsNoNifu(b: Board, side: Side, kind: Kind, to: Pos, s: Side)
    requires DropAllowed(b, side, kind, to)
    requires NoNifu(b, s)
    ensures NoNifu(Put(b, to, Occupied(Piece(side, kind))), s)
  {
    var nb := Put(b, to, Occupied(Piece(side, kind)));
    var pawn := Occupied(Piece(s, Fu));
    forall c, r1, r2 | 0 <= c < 9 && 0 <= r1 < 9 && 0 <= r2 < 9 && nb[r1][c] == pawn && nb[r2][c] == pawn
      ensures r1 == r2
    {
      assert At(nb, Pos(r1, c)) == pawn && At(nb, Pos(r2, c)) == pawn;
      if Pos(r1, c) == to || Pos(r2, c) == to {
        // The dropped piece is a pawn of `s`, so `side == s`, the file had
        // no pawn of `s` before, and the other square must be `to` as well.
        assert kind == Fu && side == s;
        assert !OwnPawnInColumn(b, s, c);
      } else {
        assert b[r1][c] == At(nb, Pos(r1, c)) && b[r2][c] == At(nb, Pos(r2, c));
      }
    }
  }
}
