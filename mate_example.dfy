/**
 * A concrete checkmate for is_checkmate: the upper king alone in the corner
 * (8, 0), a lower gold on (7, 0) giving check, and a lower silver on (6, 1)
 * guarding the gold. Every king move stays in check, and so does every drop
 * of a pawn from upper's hand, so the position is mate with or without the
 * hand.
 */
module MateExample {
  import opened Wrappers
  import opened Catalog
  import opened BoardModel
  import opened Promotion
  import opened MoveGen
  import opened Check
  import opened Drops
  import opened Checkmate

  // ===== Facts about single squares and single pieces =====

  /** A side whose only king stands on `k` has its king found there. */
  lemma OnlyKing(b: Board, side: Side, k: Pos)
    requires OnBoard(k) && At(b, k) == Occupied(King(side))
    requires forall p | OnBoard(p) && p != k :: At(b, p) != Occupied(King(side))
    ensures KingSquare(b, side) == Some(k)
  {
    KingSquareIsFirstKing(b, side);
  }

  /** A piece whose i-th direction, oriented for its side, steps from `from`
      onto `k` attacks `k` when `k` is empty or holds a piece of `side`. */
  lemma StepAttacks(b: Board, from: Pos, i: nat, side: Side, k: Pos)
    requires OnBoard(from) && At(b, from).Occupied? && At(b, from).piece.side != side
    requires i < |MoveSpecs(At(b, from).piece.kind)|
    requires var s := MoveSpecs(At(b, from).piece.kind)[i];
      var v := OrientMove(s.dr, s.dc, At(b, from).piece);
      k == Pos(from.row + v.0, from.col + v.1)
    requires OnBoard(k) && (At(b, k) == Empty || (At(b, k).Occupied? && At(b, k).piece.side == side))
    ensures Attacks(b, from, side, k)
  {
    var piece := At(b, from).piece;
    var specs := MoveSpecs(piece.kind);
    var v := OrientMove(specs[i].dr, specs[i].dc, piece);
    RayUnfold(b, piece, from, v.0, v.1, specs[i].limit);
    var ray := RayOf(b, from, piece, specs[i]);
    assert ray[0].to == k;
    MovesAlongHasRay(b, from, piece, specs, i);
    var moves := Moves(b, from, piece);
    assert ray[0] in moves;
    var j :| 0 <= j < |moves| && moves[j] == ray[0];
  }

  /** Every move of the rays of `specs` comes from the ray of one of them. */
  lemma {:induction false} MovesAlongMember(b: Board, from: Pos, piece: Piece, specs: seq<MoveSpec>, t: Target)
    requires NonZeroSpecs(specs)
    requires t in MovesAlong(b, from, piece, specs)
    ensures exists i | 0 <= i < |specs| :: t in RayOf(b, from, piece, specs[i])
  {
    var last := |specs| - 1;
    if t !in RayOf(b, from, piece, specs[last]) {
      MovesAlongMember(b, from, piece, specs[..last], t);
      var i :| 0 <= i < last && t in RayOf(b, from, piece, specs[..last][i]);
      assert specs[..last][i] == specs[i];
    }
  }

  /** A king only moves to a neighbouring square. */
  lemma KingMovesAdjacent(b: Board, from: Pos, side: Side, t: Target)
    requires t in Moves(b, from, King(side))
    ensures -1 <= t.to.row - from.row <= 1 && -1 <= t.to.col - from.col <= 1
  {
    var piece := King(side);
    var specs := MoveSpecs(Ou);
    MovesAlongMember(b, from, piece, specs, t);
    var i :| 0 <= i < |specs| && t in RayOf(b, from, piece, specs[i]);
    var d := BaseMoveDirections(Ou)[i];
    assert specs[i] == SpecFor(Ou, d);
    assert d != NNE && d != NNW;
    var v := OrientMove(specs[i].dr, specs[i].dc, piece);
    RayLimited(b, piece, from, v.0, v.1);
    RayStart(b, piece, from, v.0, v.1, Some(1));
  }

  // ===== The position =====

  /** The boxed king, square by square: upper's king on (8, 0), a lower
      gold on (7, 0) and a lower silver on (6, 1); every other square is
      empty. */
  function BoxedCell(p: Pos): Cell
  {
    if p == Pos(8, 0) then Occupied(King(Upper))
    else if p == Pos(7, 0) then Occupied(Piece(Lower, Ki))
    else if p == Pos(6, 1) then Occupied(Piece(Lower, Gi))
    else Empty
  }

  /** A board holding exactly the boxed-king position. */
  ghost predicate IsBoxed(b: Board)
  {
    forall p | OnBoard(p) :: At(b, p) == BoxedCell(p)
  }

  function Boxed(): (b: Board)
    ensures IsBoxed(b)
  {
    seq(9, r => seq(9, c => BoxedCell(Pos(r, c))))
  }

  /** Upper is in check on `a` when its only king stands on `k` and the
      i-th direction of the lower piece on `from` steps onto `k`. */
  lemma CheckedBy(a: Board, k: Pos, from: Pos, i: nat)
    requires OnBoard(k) && At(a, k) == Occupied(King(Upper))
    requires forall p | OnBoard(p) && p != k :: At(a, p) != Occupied(King(Upper))
    requires OnBoard(from) && At(a, from).Occupied? && At(a, from).piece.side == Lower
    requires i < |MoveSpecs(At(a, from).piece.kind)|
    requires var s := MoveSpecs(At(a, from).piece.kind)[i];
      var v := OrientMove(s.dr, s.dc, At(a, from).piece);
      k == Pos(from.row + v.0, from.col + v.1)
    ensures InCheck(a, Upper)
  {
    OnlyKing(a, Upper, k);
    StepAttacks(a, from, i, Upper, k);
    assert Attacked(a, Upper, k);
  }

  /** The king's three squares out of the corner are each covered: (7, 0)
      by the silver, (7, 1) and (8, 1) by the gold. */
  lemma KingStepChecked(b: Board, t: Target)
    requires IsBoxed(b)
    requires t.to == Pos(7, 0) || t.to == Pos(7, 1) || t.to == Pos(8, 1)
    ensures InCheck(MoveResult(b, Defender(Pos(8, 0), King(Upper)), t, false), Upper)
  {
    var to := t.to;
    var a := MoveResult(b, Defender(Pos(8, 0), King(Upper)), t, false);
    assert a == ApplyMove(b, Pos(8, 0), to, t.moveType, King(Upper)).board;
    assert At(a, to) == Occupied(King(Upper));
    forall p | OnBoard(p) && p != to
      ensures At(a, p) != Occupied(King(Upper))
    {
      if p != Pos(8, 0) {
        assert At(a, p) == At(b, p) == BoxedCell(p);
      }
    }
    if to == Pos(7, 0) {
      assert At(a, Pos(6, 1)) == At(b, Pos(6, 1)) == BoxedCell(Pos(6, 1));
      assert MoveSpecs(Gi)[2] == MoveSpec(-1, -1, Some(1));
      CheckedBy(a, to, Pos(6, 1), 2);
    } else {
      assert At(a, Pos(7, 0)) == At(b, Pos(7, 0)) == BoxedCell(Pos(7, 0));
      if to == Pos(7, 1) {
        assert MoveSpecs(Ki)[1] == MoveSpec(0, 1, Some(1));
        CheckedBy(a, to, Pos(7, 0), 1);
      } else {
        assert MoveSpecs(Ki)[4] == MoveSpec(-1, 1, Some(1));
        CheckedBy(a, to, Pos(7, 0), 4);
      }
    }
  }

  /** No move of the cornered king escapes the check. */
  lemma KingMoveStaysInCheck(b: Board, t: Target)
    requires IsBoxed(b)
    requires t in Moves(b, Pos(8, 0), King(Upper))
    ensures !MoveEscapes(b, Upper, Defender(Pos(8, 0), King(Upper)), t)
  {
    MovesSound(b, Pos(8, 0), King(Upper));
    KingMovesAdjacent(b, Pos(8, 0), Upper, t);
    assert OnBoard(t.to) && t.to != Pos(8, 0);
    assert At(b, t.to) != Occupied(King(Upper));
    assert PromoteOptions(King(Upper), 8, t.to.row) == [false];
    KingStepChecked(b, t);
  }

  /** After any drop by upper, the gold still attacks the king. */
  lemma DropStaysInCheck(b: Board, kind: Kind, to: Pos)
    requires IsBoxed(b)
    requires OnBoard(to) && At(b, to) == Empty && kind != Ou
    ensures InCheck(DropResult(b, Upper, kind, to), Upper)
  {
    var a := DropResult(b, Upper, kind, to);
    forall p | OnBoard(p) && p != Pos(8, 0)
      ensures At(a, p) != Occupied(King(Upper))
    {
      if p != to {
        assert At(a, p) == At(b, p) == BoxedCell(p);
      }
    }
    assert At(a, Pos(8, 0)) == At(b, Pos(8, 0)) == BoxedCell(Pos(8, 0));
    assert At(a, Pos(7, 0)) == At(b, Pos(7, 0)) == BoxedCell(Pos(7, 0));
    assert MoveSpecs(Ki)[0] == MoveSpec(-1, 0, Some(1));
    CheckedBy(a, Pos(8, 0), Pos(7, 0), 0);
  }

  /** The boxed king is in check and mated, whether or not hands are
      consulted; with a pawn in upper's hand it is still mate. */
  lemma BoxedKingIsMated(b: Board)
    requires IsBoxed(b)
    ensures IsMate(b, Upper, None)
    ensures IsMate(b, Upper, Some(map[Upper := [Piece(Upper, Fu)]]))
  {
    // In check: the gold steps straight onto the king.
    assert At(b, Pos(8, 0)) == BoxedCell(Pos(8, 0));
    assert At(b, Pos(7, 0)) == BoxedCell(Pos(7, 0));
    assert MoveSpecs(Ki)[0] == MoveSpec(-1, 0, Some(1));
    CheckedBy(b, Pos(8, 0), Pos(7, 0), 0);
    // No board move escapes: the king is upper's only piece.
    var f := Defender(Pos(8, 0), King(Upper));
    var moves := Moves(b, Pos(8, 0), King(Upper));
    if AnyOf(moves, t => MoveEscapes(b, Upper, f, t)) {
      var j := AnyOfAt(moves, t => MoveEscapes(b, Upper, f, t));
      KingMoveStaysInCheck(b, moves[j]);
    }
    BoardEscapeIffSomePiece(b, Upper);
    // No drop of the pawn escapes.
    var hand := [Piece(Upper, Fu)];
    forall p | OnBoard(p)
      ensures !DropEscapesAt(b, Upper, Fu, p)
    {
      if DropAllowed(b, Upper, Fu, p) {
        DropStaysInCheck(b, Fu, p);
      }
    }
    assert hand[1..] == [];
    assert !DropEscape(b, Upper, hand);
  }

  /** The position exists, so the mate is not vacuous. */
  lemma BoxedKingExists()
    ensures IsMate(Boxed(), Upper, None)
  {
    BoxedKingIsMated(Boxed());
  }
}
