/**
 * The piece catalog of pieces.py: sides, the 14 piece kinds, and the static
 * movement grammar (direction vectors, the directions of each kind, which
 * of them slide) together with the promotion table.
 */
module Catalog {
  import opened Wrappers

  /** The two players. The source spells a side "upper" (sente, whose piece
      codes are upper-case) or "lower" (gote, lower-case codes). */
  datatype Side = Upper | Lower

  /** The 14 kinds, named by the source's two-letter codes:
      Fu pawn, Ky lance, Ke knight, Gi silver, Ki gold, Ou king, Ka bishop,
      Hi rook, To/Ny/Nk/Ng the promoted pawn/lance/knight/silver,
      Um the horse (promoted bishop), Ry the dragon (promoted rook). */
  datatype Kind = Fu | Ky | Ke | Gi | Ki | Ou | Ka | Hi | To | Ny | Nk | Ng | Um | Ry

  /** A piece code such as "FU" or "fu": the case of the code is `side`. */
  datatype Piece = Piece(side: Side, kind: Kind)

  /** A board cell: the source's "EMPTY" marker, or a piece code. */
  datatype Cell = Empty | Occupied(piece: Piece)

  /** The names of DIRECTION_VECTORS. */
  datatype Direction = N | NE | E | SE | S | SW | W | NW | NNE | NNW

  /** DIRECTION_VECTORS: (row delta, column delta), authored for the upper
      side, whose forward direction is decreasing row. */
  function Vector(d: Direction): (v: (int, int))
    ensures v != (0, 0)
    ensures -2 <= v.0 <= 1 && -1 <= v.1 <= 1
  {
    match d
    case N => (-1, 0)
    case NE => (-1, 1)
    case E => (0, 1)
    case SE => (1, 1)
    case S => (1, 0)
    case SW => (1, -1)
    case W => (0, -1)
    case NW => (-1, -1)
    case NNE => (-2, 1)
    case NNW => (-2, -1)
  }

  /** BASE_MOVE_DIRECTIONS (the same table serves both cases of a code). */
  function BaseMoveDirections(k: Kind): seq<Direction>
  {
    match k
    case Fu => [N]
    case Gi => [N, NE, NW, SE, SW]
    case Ki => [N, E, W, S, NE, NW]
    case To => [N, E, W, S, NE, NW]
    case Ny => [N, E, W, S, NE, NW]
    case Nk => [N, E, W, S, NE, NW]
    case Ng => [N, E, W, S, NE, NW]
    case Ou => [N, E, W, S, NE, SE, SW, NW]
    case Ke => [NNE, NNW]
    case Ky => [N]
    case Hi => [N, E, S, W]
    case Ka => [NE, SE, SW, NW]
    case Ry => [N, E, S, W, NE, SE, SW, NW]
    case Um => [N, E, S, W, NE, SE, SW, NW]
  }

  /** _unlimited_directions: the directions along which a kind slides. */
  function UnlimitedDirections(k: Kind): set<Direction>
  {
    match k
    case Ky => {N}
    case Hi => {N, E, S, W}
    case Ka => {NE, SE, SW, NW}
    case Ry => {N, E, S, W}
    case Um => {NE, SE, SW, NW}
    case _ => {}
  }

  /** The three answers of get_piece_type. */
  datatype MoveStyle = Slide | Jump | Step

  /** get_piece_type */
  function PieceType(k: Kind): MoveStyle
  {
    if k in {Hi, Ka, Ky, Ry, Um} then Slide
    else if k == Ke then Jump
    else Step
  }

  /** A kind slides in some direction exactly when get_piece_type calls it a
      sliding piece, and every sliding direction is one of its directions. */
  lemma SlideIffUnlimited(k: Kind)
    ensures PieceType(k) == Slide <==> UnlimitedDirections(k) != {}
    ensures forall d :: d in UnlimitedDirections(k) ==> d in BaseMoveDirections(k)
  {
  }

  /** One entry of _move_specs: a direction vector and its step limit
      (None for a slide, Some(1) for a single step or leap). */
  datatype MoveSpec = MoveSpec(dr: int, dc: int, limit: Option<nat>)

  function SpecFor(k: Kind, d: Direction): MoveSpec
  {
    MoveSpec(Vector(d).0, Vector(d).1, if d in UnlimitedDirections(k) then None else Some(1))
  }

  predicate NonZeroSpecs(specs: seq<MoveSpec>)
  {
    forall i | 0 <= i < |specs| :: (specs[i].dr, specs[i].dc) != (0, 0)
  }

  /** _move_specs, as a value: one spec per direction of the kind, in order. */
  function MoveSpecs(k: Kind): (specs: seq<MoveSpec>)
    ensures |specs| == |BaseMoveDirections(k)|
    ensures NonZeroSpecs(specs)
    ensures forall i | 0 <= i < |specs| :: specs[i].limit == None || specs[i].limit == Some(1)
    ensures forall i | 0 <= i < |specs| :: specs[i].limit == None ==> PieceType(k) == Slide
  {
    var dirs := BaseMoveDirections(k);
    seq(|dirs|, i requires 0 <= i < |dirs| => SpecFor(k, dirs[i]))
  }

  /** _move_specs: builds the list by appending one spec per direction. */
  method BuildMoveSpecs(k: Kind) returns (specs: seq<MoveSpec>)
    ensures specs == MoveSpecs(k)
  {
    var unlimited := UnlimitedDirections(k);
    var dirs := BaseMoveDirections(k);
    specs := [];
    for i := 0 to |dirs|
      invariant |specs| == i
      invariant forall j | 0 <= j < i :: specs[j] == SpecFor(k, dirs[j])
    {
      var v := Vector(dirs[i]);
      var limit: Option<nat> := if dirs[i] in unlimited then None else Some(1);
      specs := specs + [MoveSpec(v.0, v.1, limit)];
    }
    assert forall j | 0 <= j < |specs| :: MoveSpecs(k)[j] == SpecFor(k, dirs[j]);
  }

  /** PROMOTE_MAP: the six promotable kinds and what each becomes. */
  const PromoteMap: map<Kind, Kind> := map[Fu := To, Ky := Ny, Ke := Nk, Gi := Ng, Hi := Ry, Ka := Um]
}
