/**
 * The move generator of pieces.py (generate_legal_moves): for each direction
 * of the piece's grammar, oriented for its side, walk outward square by
 * square. An empty square is emitted as a "move" and the walk goes on only
 * for a slide; an enemy square is emitted as a "capture" and ends the ray; a
 * friendly square or the board's edge ends the ray with nothing emitted.
 */
module MoveGen {
  import opened Wrappers
  import opened Catalog
  import opened BoardModel
  import opened Promotion

  /** One generated move: the destination and its tag. */
  datatype Target = Target(to: Pos, moveType: MoveType)

  /** Distance, in steps of (dr, dc), from `cur` to the edge of the board
      ahead; it shrinks with every step of a ray and so bounds the walk. */
  function Progress(cur: Pos, dr: int, dc: int): int
  {
    if dr > 0 then 9 - cur.row
    else if dr < 0 then cur.row + 1
    else if dc > 0 then 9 - cur.col
    else cur.col + 1
  }

  /** The rest of a ray whose last visited square is `cur`. */
  function Ray(b: Board, piece: Piece, cur: Pos, dr: int, dc: int, limit: Option<nat>): seq<Target>
    requires (dr, dc) != (0, 0)
    decreases Progress(cur, dr, dc)
  {
    var next := Pos(cur.row + dr, cur.col + dc);
    if !IsOnBoard(next.row, next.col) then []
    else
      match ClassifyCell(piece, At(b, next))
      case EmptyCell =>
        [Target(next, Move)] + (if limit == Some(1) then [] else Ray(b, piece, next, dr, dc, limit))
      case Enemy => [Target(next, Capture)]
      case Friend => []
  }

  /** The ray of one move spec, oriented for the piece's side. */
  function RayOf(b: Board, from: Pos, piece: Piece, spec: MoveSpec): seq<Target>
    requires (spec.dr, spec.dc) != (0, 0)
  {
    var v := OrientMove(spec.dr, spec.dc, piece);
    Ray(b, piece, from, v.0, v.1, spec.limit)
  }

  /** The rays of `specs`, concatenated in order. */
  function MovesAlong(b: Board, from: Pos, piece: Piece, specs: seq<MoveSpec>): seq<Target>
    requires NonZeroSpecs(specs)
  {
    if specs == [] then []
    else MovesAlong(b, from, piece, specs[..|specs| - 1]) + RayOf(b, from, piece, specs[|specs| - 1])
  }

  /** What generate_legal_moves returns for `piece` standing on `from`. */
  function Moves(b: Board, from: Pos, piece: Piece): seq<Target>
  {
    MovesAlong(b, from, piece, MoveSpecs(piece.kind))
  }

  /** i steps of d, taken one at a time. */
  function Steps(d: int, i: nat): int
  {
    if i == 0 then 0 else Steps(d, i - 1) + d
  }

  lemma {:induction false} StepsIsProduct(d: int, i: nat)
    ensures Steps(d, i) == d * i
  {
    if i > 0 {
      StepsIsProduct(d, i - 1);
    }
  }

  /** The square i steps along (dr, dc) from (row, col). */
  function Square(row: int, col: int, dr: int, dc: int, i: nat): Pos
  {
    Pos(row + Steps(dr, i), col + Steps(dc, i))
  }

  /** The i-th square along (dr, dc) from (row, col), computed as the source
      does, (row + dr * i, col + dc * i): one step beyond the (i-1)-th. */
  method RaySquare(row: int, col: int, dr: int, dc: int, i: nat, ghost cur: Pos) returns (p: Pos)
    requires i >= 1 && cur == Square(row, col, dr, dc, i - 1)
    ensures p == Square(row, col, dr, dc, i)
    ensures p == Pos(cur.row + dr, cur.col + dc)
  {
    StepsIsProduct(dr, i);
    StepsIsProduct(dc, i);
    p := Pos(row + dr * i, col + dc * i);
  }

  /** One step of a ray, case by case. */
  lemma RayUnfold(b: Board, piece: Piece, cur: Pos, dr: int, dc: int, limit: Option<nat>)
    requires (dr, dc) != (0, 0)
    ensures var next := Pos(cur.row + dr, cur.col + dc);
      && (!OnBoard(next) ==> Ray(b, piece, cur, dr, dc, limit) == [])
      && (OnBoard(next) && At(b, next) == Empty && limit == Some(1) ==>
            Ray(b, piece, cur, dr, dc, limit) == [Target(next, Move)])
      && (OnBoard(next) && At(b, next) == Empty && limit != Some(1) ==>
            Ray(b, piece, cur, dr, dc, limit) == [Target(next, Move)] + Ray(b, piece, next, dr, dc, limit))
      && (OnBoard(next) && ClassifyCell(piece, At(b, next)) == Enemy ==>
            Ray(b, piece, cur, dr, dc, limit) == [Target(next, Capture)])
      && (OnBoard(next) && ClassifyCell(piece, At(b, next)) == Friend ==>
            Ray(b, piece, cur, dr, dc, limit) == [])
  {
  }

  /** The walk along one oriented direction (the source's inner `while True`
      loop), appending to the moves found so far. */
  method WalkRay(b: Board, piece: Piece, row: int, col: int, dr: int, dc: int, limit: Option<nat>,
                 found: seq<Target>)
    returns (legal: seq<Target>)
    requires (dr, dc) != (0, 0)
    ensures legal == found + Ray(b, piece, Pos(row, col), dr, dc, limit)
  {
    legal := found;
    var i := 1;
    ghost var cur := Pos(row, col);
    while true
      invariant i >= 1 && cur == Square(row, col, dr, dc, i - 1)
      invariant legal + Ray(b, piece, cur, dr, dc, limit) == found + Ray(b, piece, Pos(row, col), dr, dc, limit)
      decreases Progress(cur, dr, dc)
    {
      var next := RaySquare(row, col, dr, dc, i, cur);
      var newRow, newCol := next.row, next.col;
      RayUnfold(b, piece, cur, dr, dc, limit);
      if !IsOnBoard(newRow, newCol) {
        break;
      }
      var state := b[newRow][newCol];
      var cellClass := ClassifyCell(piece, state);
      if cellClass == EmptyCell {
        legal := legal + [Target(Pos(newRow, newCol), Move)];
      } else if cellClass == Enemy {
        legal := legal + [Target(Pos(newRow, newCol), Capture)];
        break;
      } else {
        break;
      }
      if limit == Some(1) {
        break;
      }
      cur := next;
      i := i + 1;
    }
  }

  /** generate_legal_moves: the source's loop over the piece's move specs. */
  method GenerateLegalMoves(b: Board, from: Pos, piece: Piece) returns (legal: seq<Target>)
    ensures legal == Moves(b, from, piece)
  {
    legal := [];
    var row, col := from.row, from.col;
    var specs := BuildMoveSpecs(piece.kind);
    for k := 0 to |specs|
      invariant legal == MovesAlong(b, from, piece, specs[..k])
    {
      assert specs[..k + 1][..k] == specs[..k];
      var v := OrientMove(specs[k].dr, specs[k].dc, piece);
      legal := WalkRay(b, piece, row, col, v.0, v.1, specs[k].limit, legal);
    }
    assert specs[..|specs|] == specs;
  }

  // ===== The ray rule =====

  /** A generated move is on the board, onto an empty square when tagged
      "move", onto an enemy piece when tagged "capture": never onto a friend. */
  predicate SoundTarget(b: Board, piece: Piece, t: Target)
  {
    OnBoard(t.to) &&
    match t.moveType
    case Move => At(b, t.to) == Empty
    case Capture => At(b, t.to).Occupied? && At(b, t.to).piece.side != piece.side
  }

  /** Why a ray ended with nothing more to emit after `last`: the next square
      is off the board or holds a friend. */
  predicate Blocked(b: Board, piece: Piece, last: Pos, dr: int, dc: int)
  {
    var next := Pos(last.row + dr, last.col + dc);
    !OnBoard(next) || (At(b, next).Occupied? && At(b, next).piece.side == piece.side)
  }

  /** Every target of `ray` is sound and lies strictly ahead of `cur` along (dr, dc). */
  predicate SoundAhead(b: Board, piece: Piece, ray: seq<Target>, cur: Pos, dr: int, dc: int)
  {
    forall j | 0 <= j < |ray| :: SoundTarget(b, piece, ray[j]) && Progress(ray[j].to, dr, dc) < Progress(cur, dr, dc)
  }

  lemma SoundAheadPrepend(b: Board, piece: Piece, t: Target, rest: seq<Target>, cur: Pos, dr: int, dc: int)
    requires SoundTarget(b, piece, t) && Progress(t.to, dr, dc) < Progress(cur, dr, dc)
    requires SoundAhead(b, piece, rest, t.to, dr, dc)
    ensures SoundAhead(b, piece, [t] + rest, cur, dr, dc)
  {
    var ray := [t] + rest;
    forall j | 0 <= j < |ray|
      ensures SoundTarget(b, piece, ray[j]) && Progress(ray[j].to, dr, dc) < Progress(cur, dr, dc)
    {
      if j > 0 {
        assert ray[j] == rest[j - 1];
      }
    }
  }

  /** The ray rule, soundness: every square a ray emits is on the board and
      lies strictly ahead of `cur`; a "move" lands on an empty square and a
      "capture" on an enemy piece. */
  lemma {:induction false} RaySound(b: Board, piece: Piece, cur: Pos, dr: int, dc: int, limit: Option<nat>)
    requires (dr, dc) != (0, 0)
    ensures SoundAhead(b, piece, Ray(b, piece, cur, dr, dc, limit), cur, dr, dc)
    decreases Progress(cur, dr, dc)
  {
    var next := Pos(cur.row + dr, cur.col + dc);
    RayUnfold(b, piece, cur, dr, dc, limit);
    if OnBoard(next) && At(b, next) == Empty && limit != Some(1) {
      RaySound(b, piece, next, dr, dc, limit);
      SoundAheadPrepend(b, piece, Target(next, Move), Ray(b, piece, next, dr, dc, limit), cur, dr, dc);
    }
  }

  /** Each target but the last is a "move", and each target is one step of
      (dr, dc) beyond the one before it. */
  predicate Consecutive(ray: seq<Target>, dr: int, dc: int)
  {
    forall j | 0 <= j < |ray| - 1 ::
      ray[j].moveType == Move && ray[j + 1].to == Pos(ray[j].to.row + dr, ray[j].to.col + dc)
  }

  lemma ConsecutivePrepend(t: Target, rest: seq<Target>, dr: int, dc: int)
    requires t.moveType == Move && Consecutive(rest, dr, dc)
    requires rest != [] ==> rest[0].to == Pos(t.to.row + dr, t.to.col + dc)
    ensures Consecutive([t] + rest, dr, dc)
  {
    var ray := [t] + rest;
    forall j | 0 <= j < |ray| - 1
      ensures ray[j].moveType == Move && ray[j + 1].to == Pos(ray[j].to.row + dr, ray[j].to.col + dc)
    {
      if j > 0 {
        assert ray[j] == rest[j - 1] && ray[j + 1] == rest[j];
      }
    }
  }

  /** A ray starts on the square next to `cur`. */
  lemma RayStart(b: Board, piece: Piece, cur: Pos, dr: int, dc: int, limit: Option<nat>)
    requires (dr, dc) != (0, 0)
    ensures var ray := Ray(b, piece, cur, dr, dc, limit);
      |ray| > 0 ==> ray[0].to == Pos(cur.row + dr, cur.col + dc)
  {
    RayUnfold(b, piece, cur, dr, dc, limit);
  }

  /** The ray rule, shape: a ray visits consecutive squares, and every
      square but the last is an empty one tagged "move", so a capture can
      only come last. */
  lemma {:induction false} RayContiguous(b: Board, piece: Piece, cur: Pos, dr: int, dc: int, limit: Option<nat>)
    requires (dr, dc) != (0, 0)
    ensures Consecutive(Ray(b, piece, cur, dr, dc, limit), dr, dc)
    decreases Progress(cur, dr, dc)
  {
    var next := Pos(cur.row + dr, cur.col + dc);
    RayUnfold(b, piece, cur, dr, dc, limit);
    if OnBoard(next) && At(b, next) == Empty && limit != Some(1) {
      var rest := Ray(b, piece, next, dr, dc, limit);
      RayContiguous(b, piece, next, dr, dc, limit);
      RayStart(b, piece, next, dr, dc, limit);
      ConsecutivePrepend(Target(next, Move), rest, dr, dc);
    }
  }

  /** The ray rule, limit: a direction limited to one square yields at most one. */
  lemma RayLimited(b: Board, piece: Piece, cur: Pos, dr: int, dc: int)
    requires (dr, dc) != (0, 0)
    ensures |Ray(b, piece, cur, dr, dc, Some(1))| <= 1
  {
    RayUnfold(b, piece, cur, dr, dc, Some(1));
  }

  /** The ray rule, termination: an unlimited walk stops with nothing emitted,
      or with its last square a "move", only at the edge or before a friend. */
  lemma {:induction false} RayEnds(b: Board, piece: Piece, cur: Pos, dr: int, dc: int, limit: Option<nat>)
    requires (dr, dc) != (0, 0)
    ensures var ray := Ray(b, piece, cur, dr, dc, limit);
      && (|ray| == 0 ==> Blocked(b, piece, cur, dr, dc))
      && (|ray| > 0 && ray[|ray| - 1].moveType == Move && limit != Some(1) ==>
            Blocked(b, piece, ray[|ray| - 1].to, dr, dc))
    decreases Progress(cur, dr, dc)
  {
    var next := Pos(cur.row + dr, cur.col + dc);
    RayUnfold(b, piece, cur, dr, dc, limit);
    if OnBoard(next) && At(b, next) == Empty && limit != Some(1) {
      RayEnds(b, piece, next, dr, dc, limit);
      var rest := Ray(b, piece, next, dr, dc, limit);
      var ray := Ray(b, piece, cur, dr, dc, limit);
      assert ray == [Target(next, Move)] + rest;
      if |rest| > 0 {
        assert ray[|ray| - 1] == rest[|rest| - 1];
      }
    }
  }

  /** Every move of every ray of `specs` obeys SoundTarget and leaves `from`. */
  lemma {:induction false} MovesAlongSound(b: Board, from: Pos, piece: Piece, specs: seq<MoveSpec>)
    requires NonZeroSpecs(specs)
    ensures forall t | t in MovesAlong(b, from, piece, specs) :: SoundTarget(b, piece, t) && t.to != from
  {
    if specs != [] {
      var last := specs[|specs| - 1];
      MovesAlongSound(b, from, piece, specs[..|specs| - 1]);
      var v := OrientMove(last.dr, last.dc, piece);
      RaySound(b, piece, from, v.0, v.1, last.limit);
      var ray := RayOf(b, from, piece, last);
      assert ray == Ray(b, piece, from, v.0, v.1, last.limit);
      forall t | t in ray
        ensures SoundTarget(b, piece, t) && t.to != from
      {
        var j :| 0 <= j < |ray| && ray[j] == t;
        assert SoundTarget(b, piece, ray[j]) && Progress(ray[j].to, v.0, v.1) < Progress(from, v.0, v.1);
      }
    }
  }

  /** Every square generate_legal_moves returns is on the board and differs
      from the origin; a "move" lands on an empty square and a "capture" on an
      enemy piece, so a friendly square is never returned. */
  lemma MovesSound(b: Board, from: Pos, piece: Piece)
    ensures forall t | t in Moves(b, from, piece) ::
      OnBoard(t.to) && t.to != from &&
      (t.moveType == Move <==> At(b, t.to) == Empty) &&
      (t.moveType == Capture <==> At(b, t.to).Occupied? && At(b, t.to).piece.side != piece.side)
  {
    MovesAlongSound(b, from, piece, MoveSpecs(piece.kind));
  }

  /** Every generated destination is on the board. */
  lemma MovesOnBoard(b: Board, from: Pos, piece: Piece)
    ensures forall i | 0 <= i < |Moves(b, from, piece)| :: OnBoard(Moves(b, from, piece)[i].to)
  {
    MovesSound(b, from, piece);
    forall i | 0 <= i < |Moves(b, from, piece)|
      ensures OnBoard(Moves(b, from, piece)[i].to)
    {
      assert Moves(b, from, piece)[i] in Moves(b, from, piece);
    }
  }

  lemma {:induction false} MovesAlongBound(b: Board, from: Pos, piece: Piece, specs: seq<MoveSpec>)
    requires NonZeroSpecs(specs)
    requires forall i | 0 <= i < |specs| :: specs[i].limit == Some(1)
    ensures |MovesAlong(b, from, piece, specs)| <= |specs|
  {
    if specs != [] {
      var last := specs[|specs| - 1];
      MovesAlongBound(b, from, piece, specs[..|specs| - 1]);
      var v := OrientMove(last.dr, last.dc, piece);
      RayLimited(b, piece, from, v.0, v.1);
    }
  }

  /** A piece that does not slide (every direction limited to one square)
      yields at most one move per direction of its grammar. */
  lemma NonSlidingMoveBound(b: Board, from: Pos, piece: Piece)
    requires PieceType(piece.kind) != Slide
    ensures |Moves(b, from, piece)| <= |BaseMoveDirections(piece.kind)|
  {
    MovesAlongBound(b, from, piece, MoveSpecs(piece.kind));
  }

  /** The side reflection, seen on the pawn: an upper pawn steps to the row
      above, a lower pawn to the row below, and nothing else is generated. */
  lemma PawnMovesForward(b: Board, pos: Pos, side: Side)
    ensures var fwd := Pos(pos.row + (if side == Upper then -1 else 1), pos.col);
      var ms := Moves(b, pos, Piece(side, Fu));
      && (!OnBoard(fwd) ==> ms == [])
      && (OnBoard(fwd) && At(b, fwd) == Empty ==> ms == [Target(fwd, Move)])
      && (OnBoard(fwd) && At(b, fwd).Occupied? && At(b, fwd).piece.side != side ==> ms == [Target(fwd, Capture)])
      && (OnBoard(fwd) && At(b, fwd).Occupied? && At(b, fwd).piece.side == side ==> ms == [])
  {
    var piece := Piece(side, Fu);
    var specs := MoveSpecs(Fu);
    assert |specs| == 1 && specs[0] == MoveSpec(-1, 0, Some(1));
    assert specs[..0] == [];
    calc {
      Moves(b, pos, piece);
      MovesAlong(b, pos, piece, specs);
      MovesAlong(b, pos, piece, specs[..0]) + RayOf(b, pos, piece, specs[0]);
      RayOf(b, pos, piece, specs[0]);
    }
    var v := OrientMove(-1, 0, piece);
    RayUnfold(b, piece, pos, v.0, v.1, Some(1));
  }

  // ===== Forced promotion and the generator =====

  /** When the first square of every direction is off the board, nothing is generated. */
  lemma {:induction false} MovesAlongOffBoard(b: Board, from: Pos, piece: Piece, specs: seq<MoveSpec>)
    requires NonZeroSpecs(specs)
    requires forall i | 0 <= i < |specs| ::
      var v := OrientMove(specs[i].dr, specs[i].dc, piece); !OnBoard(Pos(from.row + v.0, from.col + v.1))
    ensures MovesAlong(b, from, piece, specs) == []
  {
    if specs != [] {
      var last := specs[|specs| - 1];
      MovesAlongOffBoard(b, from, piece, specs[..|specs| - 1]);
      var v := OrientMove(last.dr, last.dc, piece);
      RayUnfold(b, piece, from, v.0, v.1, last.limit);
    }
  }

  /** Every move of one ray is among the moves of all the rays. */
  lemma {:induction false} MovesAlongHasRay(b: Board, from: Pos, piece: Piece, specs: seq<MoveSpec>, i: nat)
    requires NonZeroSpecs(specs) && i < |specs|
    ensures forall t | t in RayOf(b, from, piece, specs[i]) :: t in MovesAlong(b, from, piece, specs)
  {
    if i < |specs| - 1 {
      MovesAlongHasRay(b, from, piece, specs[..|specs| - 1], i);
    }
  }

  /** force_promote holds exactly where the unpromoted piece could never move
      again: a forced piece generates no move on any board, and a pawn, lance
      or knight that is not forced has a move on the empty board. */
  lemma ForcedMeansNoMoves(b: Board, pos: Pos, piece: Piece)
    requires OnBoard(pos)
    ensures ForcePromote(pos.row, piece) ==> Moves(b, pos, piece) == []
    ensures piece.kind in {Fu, Ky, Ke} && !ForcePromote(pos.row, piece) ==> Moves(EmptyBoard, pos, piece) != []
  {
    var specs := MoveSpecs(piece.kind);
    if ForcePromote(pos.row, piece) {
      forall i | 0 <= i < |specs|
        ensures var v := OrientMove(specs[i].dr, specs[i].dc, piece); !OnBoard(Pos(pos.row + v.0, pos.col + v.1))
      {
        assert specs[i] == SpecFor(piece.kind, BaseMoveDirections(piece.kind)[i]);
      }
      MovesAlongOffBoard(b, pos, piece, specs);
    } else if piece.kind in {Fu, Ky, Ke} {
      // The first spec (N for pawn and lance, NNE for the knight) or, for a
      // knight on the right-hand file, the second (NNW) stays on the board.
      var i := if piece.kind == Ke && pos.col == 8 then 1 else 0;
      assert specs[i] == SpecFor(piece.kind, BaseMoveDirections(piece.kind)[i]);
      var v := OrientMove(specs[i].dr, specs[i].dc, piece);
      var first := Pos(pos.row + v.0, pos.col + v.1);
      assert OnBoard(first) && At(EmptyBoard, first) == Empty;
      RayUnfold(EmptyBoard, piece, pos, v.0, v.1, specs[i].limit);
      assert Target(first, Move) in RayOf(EmptyBoard, pos, piece, specs[i]);
      MovesAlongHasRay(EmptyBoard, pos, piece, specs, i);
    }
  }
}
