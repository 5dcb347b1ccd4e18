/**
 * The promotion resolver of pieces.py: which kinds promote, the promotion
 * zone, forced promotion, and the promoted form of a piece.
 */
module Promotion {
  import opened Catalog

  /** can_promote: the kind is one of the six promotable kinds. */
  predicate CanPromote(p: Piece)
  {
    p.kind in {Fu, Ky, Ke, Gi, Hi, Ka}
  }

  /** The set can_promote tests is exactly the key set of PROMOTE_MAP, and no
      promoted form can promote again. */
  lemma CanPromoteIffPromoteMapKey(p: Piece)
    ensures CanPromote(p) <==> p.kind in PromoteMap
    ensures p.kind in PromoteMap ==> !CanPromote(Piece(p.side, PromoteMap[p.kind]))
  {
  }

  /** is_promote_zone: either end of the move is in the mover's far three ranks. */
  predicate IsPromoteZone(fromRow: int, toRow: int, p: Piece)
  {
    (p.side == Upper && (fromRow <= 2 || toRow <= 2)) ||
    (p.side == Lower && (fromRow >= 6 || toRow >= 6))
  }

  /** force_promote: a pawn or lance reaching the last rank, or a knight
      reaching the last two ranks, of its own side. */
  predicate ForcePromote(toRow: int, p: Piece)
  {
    (p.kind in {Fu, Ky} && ((p.side == Upper && toRow == 0) || (p.side == Lower && toRow == 8))) ||
    (p.kind == Ke && ((p.side == Upper && toRow <= 1) || (p.side == Lower && toRow >= 7)))
  }

  /** A forced promotion is always a permitted one: the piece can promote and
      the destination lies in its zone, whatever the origin row. */
  lemma ForcedImpliesZone(fromRow: int, toRow: int, p: Piece)
    requires ForcePromote(toRow, p)
    ensures CanPromote(p)
    ensures IsPromoteZone(fromRow, toRow, p)
  {
  }

  /** promotion: the promoted code of the same case when `promote` is set,
      the piece itself otherwise. PROMOTE_MAP is indexed directly, so a
      promotion may only be asked of a promotable piece. */
  function Promotion(p: Piece, promote: bool): (r: Piece)
    requires promote ==> CanPromote(p)
    ensures !promote ==> r == p
    ensures promote ==> p.kind in PromoteMap && r == Piece(p.side, PromoteMap[p.kind])
    ensures r.side == p.side
  {
    if promote then Piece(p.side, PromoteMap[p.kind]) else p
  }

  /** The promotion choices a move offers (the if/elif/else shared by
      is_checkmate and expand_legal_moves): promotion alone when it is
      forced, both choices when it is merely possible, no promotion else. */
  function PromoteOptions(p: Piece, fromRow: int, toRow: int): (opts: seq<bool>)
    ensures 1 <= |opts| <= 2
    ensures |opts| == 2 ==> opts == [false, true]
    ensures forall i | 0 <= i < |opts| :: opts[i] ==> CanPromote(p) && IsPromoteZone(fromRow, toRow, p)
    ensures CanPromote(p) && IsPromoteZone(fromRow, toRow, p) ==> true in opts
    ensures ForcePromote(toRow, p) ==> opts == [true]
    ensures !ForcePromote(toRow, p) ==> false in opts
  {
    var can := CanPromote(p);
    var inZone := IsPromoteZone(fromRow, toRow, p);
    var forced := ForcePromote(toRow, p);
    if can && inZone && forced then [true]
    else if can && inZone then [false, true]
    else [false]
  }
}
