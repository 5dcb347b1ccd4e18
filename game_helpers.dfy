/**
 * The game-rule helpers of game_helpers.py: the opening position, the
 * check, checkmate and game-end summaries, the expansion of generated moves
 * into promotion choices, turn switching, captured pieces going to the hand,
 * overwriting the live board, the drop-pawn-mate rule, and drop validation
 * with its error messages.
 */
module GameHelpers {
  import opened Wrappers
  import opened Catalog
  import opened BoardModel
  import opened Promotion
  import opened MoveGen
  import opened Check
  import opened Drops
  import opened Checkmate

  // ===== Demotion of captured pieces =====

  /** UNPROMOTE_MAP: each promoted kind to the kind it was promoted from. */
  const UnpromoteMap: map<Kind, Kind> := map[To := Fu, Ny := Ky, Nk := Ke, Ng := Gi, Um := Ka, Ry := Hi]

  /** UNPROMOTE_MAP.get(k, k): the kind a captured piece goes to the hand as. */
  function Unpromote(k: Kind): Kind
  {
    if k in UnpromoteMap then UnpromoteMap[k] else k
  }

  /** UNPROMOTE_MAP is the inverse of PROMOTE_MAP: the two maps pair the
      same six kinds with the same six promoted kinds. */
  lemma UnpromoteInvertsPromote(k: Kind)
    ensures k in PromoteMap ==> PromoteMap[k] in UnpromoteMap && UnpromoteMap[PromoteMap[k]] == k
    ensures k in UnpromoteMap ==> UnpromoteMap[k] in PromoteMap && PromoteMap[UnpromoteMap[k]] == k
    ensures Unpromote(k) == k <==> k !in UnpromoteMap
  {
  }

  /** A demoted kind is never a promoted one, so demoting twice changes
      nothing: a hand only ever receives kinds that can be dropped. */
  lemma UnpromoteIdempotent(k: Kind)
    ensures Unpromote(k) !in UnpromoteMap
    ensures Unpromote(Unpromote(k)) == Unpromote(k)
  {
  }

  // ===== Turns and the game verdict =====

  /** switch_side */
  function SwitchSide(side: Side): (other: Side)
    ensures other != side
  {
    if side == Upper then Lower else Upper
  }

  /** Switching twice gives the side back, and every side is the switch of
      exactly one side. */
  lemma SwitchSideInvolutive(side: Side, other: Side)
    ensures SwitchSide(SwitchSide(side)) == side
    ensures SwitchSide(side) == other <==> SwitchSide(other) == side
  {
  }

  /** A pair of answers, one per side (the source's {"upper": …, "lower": …}). */
  datatype PerSide = PerSide(upper: bool, lower: bool)

  function ForSide(s: PerSide, side: Side): bool
  {
    if side == Upper then s.upper else s.lower
  }

  /** build_check_status */
  method BuildCheckStatus(b: Board) returns (status: PerSide)
    ensures forall side :: ForSide(status, side) == InCheck(b, side)
  {
    var upper := IsInCheck(b, Upper);
    var lower := IsInCheck(b, Lower);
    status := PerSide(upper, lower);
  }

  /** build_checkmate_status: is_checkmate for each side, with the hands. */
  method BuildCheckmateStatus(b: Board, hands: map<Side, seq<Piece>>) returns (status: PerSide)
    ensures forall side :: ForSide(status, side) == IsMate(b, side, Some(hands))
    ensures forall side :: ForSide(status, side) ==> InCheck(b, side)
  {
    var upper := IsCheckmate(b, Upper, Some(hands));
    var lower := IsCheckmate(b, Lower, Some(hands));
    status := PerSide(upper, lower);
  }

  datatype State = Ongoing | Ended

  datatype Reason = CheckmateReason

  /** The game status of a response: state, winner and reason. */
  datatype GameStatus = GameStatus(state: State, winner: Option<Side>, reason: Option<Reason>)

  /** build_game_status: the game ends by checkmate when either side is
      mated, upper looked at first; the winner is the other side. */
  function BuildGameStatus(mated: PerSide): (g: GameStatus)
    ensures g.state == Ended <==> mated.upper || mated.lower
    ensures g.state == Ended <==> g.winner.Some?
    ensures g.state == Ended <==> g.reason == Some(CheckmateReason)
    ensures g.state == Ongoing ==> g.reason == None
    ensures mated.upper ==> g.winner == Some(SwitchSide(Upper))
    ensures !mated.upper && mated.lower ==> g.winner == Some(SwitchSide(Lower))
  {
    if mated.upper then GameStatus(Ended, Some(Lower), Some(CheckmateReason))
    else if mated.lower then GameStatus(Ended, Some(Upper), Some(CheckmateReason))
    else GameStatus(Ongoing, None, None)
  }

  /** The winner of an ended game was not mated, and the loser is a side
      that was. */
  lemma WinnerNotMated(mated: PerSide)
    requires BuildGameStatus(mated).state == Ended
    ensures var w := BuildGameStatus(mated).winner.value;
      ForSide(mated, SwitchSide(w)) && (ForSide(mated, w) ==> w == Lower)
  {
  }

  // ===== The opening position =====

  /** The back rank, left to right, as both sides set it up. */
  function BackRank(col: int): Kind
    requires 0 <= col < 9
  {
    [Ky, Ke, Gi, Ki, Ou, Ki, Gi, Ke, Ky][col]
  }

  /** The opening position, square by square: lower's pieces on rows 0 to 2,
      upper's on rows 6 to 8. */
  function InitialCell(p: Pos): Cell
    requires OnBoard(p)
  {
    if p.row == 0 then Occupied(Piece(Lower, BackRank(p.col)))
    else if p.row == 1 && p.col == 1 then Occupied(Piece(Lower, Hi))
    else if p.row == 1 && p.col == 7 then Occupied(Piece(Lower, Ka))
    else if p.row == 2 then Occupied(Piece(Lower, Fu))
    else if p.row == 6 then Occupied(Piece(Upper, Fu))
    else if p.row == 7 && p.col == 1 then Occupied(Piece(Upper, Ka))
    else if p.row == 7 && p.col == 7 then Occupied(Piece(Upper, Hi))
    else if p.row == 8 then Occupied(Piece(Upper, BackRank(p.col)))
    else Empty
  }

  /** A row of nine copies of one cell (the source's ["fu"] * 9). */
  function Row(x: Cell): (r: seq<Cell>)
    ensures |r| == 9 && forall c | 0 <= c < 9 :: r[c] == x
  {
    seq(9, _ => x)
  }

  /** A back rank of `side`. */
  function BackRow(side: Side): (r: seq<Cell>)
    ensures |r| == 9 && forall c | 0 <= c < 9 :: r[c] == Occupied(Piece(side, BackRank(c)))
  {
    seq(9, c requires 0 <= c < 9 => Occupied(Piece(side, BackRank(c))))
  }

  /** create_initial_board: an empty grid, then the rows and squares of the
      opening set one after another. */
  method CreateInitialBoard() returns (b: Board)
    ensures forall p | OnBoard(p) :: At(b, p) == InitialCell(p)
  {
    var initial := seq(9, _ => Row(Empty));
    initial := initial[0 := BackRow(Lower)];
    initial := initial[1 := initial[1][1 := Occupied(Piece(Lower, Hi))]];
    initial := initial[1 := initial[1][7 := Occupied(Piece(Lower, Ka))]];
    initial := initial[2 := Row(Occupied(Piece(Lower, Fu)))];
    initial := initial[6 := Row(Occupied(Piece(Upper, Fu)))];
    initial := initial[7 := initial[7][1 := Occupied(Piece(Upper, Ka))]];
    initial := initial[7 := initial[7][7 := Occupied(Piece(Upper, Hi))]];
    initial := initial[8 := BackRow(Upper)];
    b := initial;
  }

  /** The square opposite `p` under a half turn of the board. */
  function Rotate(p: Pos): (q: Pos)
    ensures OnBoard(p) ==> OnBoard(q)
  {
    Pos(8 - p.row, 8 - p.col)
  }

  /** The same cell with the piece, if any, handed to the other side. */
  function Flip(x: Cell): Cell
  {
    if x.Empty? then Empty else Occupied(Piece(SwitchSide(x.piece.side), x.piece.kind))
  }

  /** The opening is symmetric: turning the board half way round and
      swapping the sides gives the same position. */
  lemma InitialSymmetric(p: Pos)
    requires OnBoard(p)
    ensures InitialCell(Rotate(p)) == Flip(InitialCell(p))
  {
  }

  /** The opening has exactly one king per side, upper's "OU" at (8, 4) and
      lower's "ou" at (0, 4), and the kings are what find_king_position finds. */
  lemma InitialKings(b: Board)
    requires forall p | OnBoard(p) :: At(b, p) == InitialCell(p)
    ensures forall p | OnBoard(p) :: At(b, p) == Occupied(King(Upper)) <==> p == Pos(8, 4)
    ensures forall p | OnBoard(p) :: At(b, p) == Occupied(King(Lower)) <==> p == Pos(0, 4)
    ensures KingSquare(b, Upper) == Some(Pos(8, 4))
    ensures KingSquare(b, Lower) == Some(Pos(0, 4))
  {
    forall p | OnBoard(p)
      ensures At(b, p) == Occupied(King(Upper)) <==> p == Pos(8, 4)
      ensures At(b, p) == Occupied(King(Lower)) <==> p == Pos(0, 4)
    {
      assert At(b, p) == InitialCell(p);
    }
    KingSquareIsFirstKing(b, Upper);
    KingSquareIsFirstKing(b, Lower);
    assert At(b, Pos(8, 4)) == Occupied(King(Upper));
    assert At(b, Pos(0, 4)) == Occupied(King(Lower));
  }

  /** Each side starts with one pawn per file. */
  lemma InitialNoNifu(b: Board, side: Side)
    requires forall p | OnBoard(p) :: At(b, p) == InitialCell(p)
    ensures NoNifu(b, side)
  {
    forall c, r1, r2 | 0 <= c < 9 && 0 <= r1 < 9 && 0 <= r2 < 9 &&
        b[r1][c] == Occupied(Piece(side, Fu)) && b[r2][c] == Occupied(Piece(side, Fu))
      ensures r1 == r2
    {
      assert At(b, Pos(r1, c)) == InitialCell(Pos(r1, c));
      assert At(b, Pos(r2, c)) == InitialCell(Pos(r2, c));
    }
  }

  // ===== Promotion choices for the client =====

  /** One entry of expand_legal_moves' answer. */
  datatype MoveOption = MoveOption(row: int, col: int, moveType: MoveType, promote: bool)

  /** The options of one generated move, one per promotion choice. */
  function OptionsOf(t: Target, fromRow: int, piece: Piece): seq<MoveOption>
  {
    var opts := PromoteOptions(piece, fromRow, t.to.row);
    seq(|opts|, i requires 0 <= i < |opts| => MoveOption(t.to.row, t.to.col, t.moveType, opts[i]))
  }

  /** The options of `moves`, move by move, in order. */
  function Expanded(moves: seq<Target>, fromRow: int, piece: Piece): seq<MoveOption>
  {
    if moves == [] then []
    else Expanded(moves[..|moves| - 1], fromRow, piece) + OptionsOf(moves[|moves| - 1], fromRow, piece)
  }

  /** expand_legal_moves: the promotion choices of each move, appended in the
      order of the moves. */
  method ExpandLegalMoves(rawMoves: seq<Target>, fromRow: int, piece: Piece) returns (expanded: seq<MoveOption>)
    ensures expanded == Expanded(rawMoves, fromRow, piece)
  {
    expanded := [];
    for k := 0 to |rawMoves|
      invariant expanded == Expanded(rawMoves[..k], fromRow, piece)
    {
      assert rawMoves[..k + 1][..k] == rawMoves[..k];
      var t := rawMoves[k];
      var toRow, toCol, moveType := t.to.row, t.to.col, t.moveType;
      var can := CanPromote(piece);
      var inZone := IsPromoteZone(fromRow, toRow, piece);
      var forced := ForcePromote(toRow, piece);
      if can && inZone && forced {
        expanded := expanded + [MoveOption(toRow, toCol, moveType, true)];
        continue;
      }
      if can && inZone {
        expanded := expanded + [MoveOption(toRow, toCol, moveType, false)];
        expanded := expanded + [MoveOption(toRow, toCol, moveType, true)];
        continue;
      }
      expanded := expanded + [MoveOption(toRow, toCol, moveType, false)];
    }
    assert rawMoves[..|rawMoves|] == rawMoves;
  }

  /** The options of one move: promotion alone when forced, not promoting
      then promoting when it is merely allowed, not promoting otherwise;
      every option keeps the move's square and tag. */
  lemma OptionsOfShape(t: Target, fromRow: int, piece: Piece)
    ensures var os := OptionsOf(t, fromRow, piece);
      && (forall i | 0 <= i < |os| :: os[i].row == t.to.row && os[i].col == t.to.col && os[i].moveType == t.moveType)
      && (ForcePromote(t.to.row, piece) ==> |os| == 1 && os[0].promote)
      && (!ForcePromote(t.to.row, piece) && CanPromote(piece) && IsPromoteZone(fromRow, t.to.row, piece) ==>
            |os| == 2 && !os[0].promote && os[1].promote)
      && (!(CanPromote(piece) && IsPromoteZone(fromRow, t.to.row, piece)) ==> |os| == 1 && !os[0].promote)
  {
    var opts := PromoteOptions(piece, fromRow, t.to.row);
    if ForcePromote(t.to.row, piece) {
      ForcedImpliesZone(fromRow, t.to.row, piece);
    } else if CanPromote(piece) && IsPromoteZone(fromRow, t.to.row, piece) {
      assert opts == [false, true];
    } else {
      assert opts == [false];
    }
  }

  /** Each move gives one or two options, so n moves give between n and 2n. */
  lemma {:induction false} ExpandedLength(moves: seq<Target>, fromRow: int, piece: Piece)
    ensures |moves| <= |Expanded(moves, fromRow, piece)| <= 2 * |moves|
  {
    if moves != [] {
      ExpandedLength(moves[..|moves| - 1], fromRow, piece);
    }
  }

  /** Every option offered promotes only a piece that can promote, on a move
      touching its zone, and never leaves a forced piece unpromoted. */
  lemma {:induction false} ExpandedSound(moves: seq<Target>, fromRow: int, piece: Piece)
    ensures forall o | o in Expanded(moves, fromRow, piece) ::
      (o.promote ==> CanPromote(piece) && IsPromoteZone(fromRow, o.row, piece)) &&
      (ForcePromote(o.row, piece) ==> o.promote)
  {
    if moves != [] {
      var t := moves[|moves| - 1];
      ExpandedSound(moves[..|moves| - 1], fromRow, piece);
      OptionsOfShape(t, fromRow, piece);
      forall o | o in OptionsOf(t, fromRow, piece)
        ensures (o.promote ==> CanPromote(piece) && IsPromoteZone(fromRow, o.row, piece)) &&
          (ForcePromote(o.row, piece) ==> o.promote)
      {
        var i :| 0 <= i < |OptionsOf(t, fromRow, piece)| && OptionsOf(t, fromRow, piece)[i] == o;
        assert o.promote == PromoteOptions(piece, fromRow, t.to.row)[i];
      }
    }
  }

  // ===== The live hands and board =====

  /** Pieces in hand are stored with their owner's case and unpromoted. */
  predicate HandsWellFormed(hands: map<Side, seq<Piece>>)
  {
    forall s | s in hands :: forall i | 0 <= i < |hands[s]| ::
      hands[s][i].side == s && hands[s][i].kind !in UnpromoteMap
  }

  /** The hands of a game, which the server updates in place. */
  class LiveHands {
    var hands: map<Side, seq<Piece>>

    constructor (initial: map<Side, seq<Piece>>)
      ensures hands == initial
    {
      hands := initial;
    }

    /** add_captured_to_hands: the captured piece, demoted, joins the end of
        the mover's hand in the mover's case; the other hand is untouched. */
    method AddCapturedToHands(captured: Piece, mover: Side)
      requires mover in hands
      modifies this
      ensures hands == old(hands)[mover := old(hands)[mover] + [Piece(mover, Unpromote(captured.kind))]]
      ensures HandsWellFormed(old(hands)) ==> HandsWellFormed(hands)
    {
      var capturedBase := Unpromote(captured.kind);
      UnpromoteIdempotent(captured.kind);
      if mover == Upper {
        hands := hands[Upper := hands[Upper] + [Piece(Upper, capturedBase)]];
        return;
      }
      hands := hands[Lower := hands[Lower] + [Piece(Lower, capturedBase)]];
    }
  }

  /** The server's board: a list of nine rows that sync_board overwrites in
      place, row by row. */
  class LiveBoard {
    var rows: array<seq<Cell>>

    predicate Valid()
      reads this, rows
    {
      rows.Length == 9 && IsGrid(rows[..])
    }

    function Current(): Board
      reads this, rows
      requires Valid()
    {
      rows[..]
    }

    constructor (b: Board)
      ensures Valid() && Current() == b && fresh(rows)
    {
      rows := new seq<Cell>[9](i requires 0 <= i < 9 => b[i]);
      new;
      assert rows[..] == b;
    }

    /** sync_board: each row of the live board becomes the matching row of
        `newBoard`; the list object itself stays the same. */
    method SyncBoard(newBoard: Board)
      requires Valid()
      modifies rows
      ensures Valid() && Current() == newBoard
    {
      for row := 0 to 9
        invariant rows.Length == 9
        invariant forall r | 0 <= r < row :: rows[r] == newBoard[r]
      {
        rows[row] := newBoard[row];
      }
      assert rows[..] == newBoard;
    }
  }

  // ===== The drop-pawn-mate rule =====

  /** is_drop_checkmate: after a drop by `mover`, the opponent is in check
      and mated (hands consulted). */
  method IsDropCheckmate(newBoard: Board, mover: Side, hands: map<Side, seq<Piece>>) returns (mate: bool)
    ensures mate == IsMate(newBoard, SwitchSide(mover), Some(hands))
    ensures mate ==> InCheck(newBoard, SwitchSide(mover))
  {
    var opponent := SwitchSide(mover);
    var check := IsInCheck(newBoard, opponent);
    if !check {
      return false;
    }
    mate := IsCheckmate(newBoard, opponent, Some(hands));
  }

  /** is_uchifuzume_allowed: a drop is refused only when it is a pawn
      (either case) that mates the opponent. */
  method IsUchifuzumeAllowed(newBoard: Board, mover: Side, handPiece: Piece, hands: map<Side, seq<Piece>>)
    returns (allowed: bool)
    ensures !allowed <==> handPiece.kind == Fu && IsMate(newBoard, SwitchSide(mover), Some(hands))
    ensures handPiece.kind != Fu ==> allowed
    ensures !InCheck(newBoard, SwitchSide(mover)) ==> allowed
  {
    if handPiece.kind != Fu {
      return true;
    }
    var mate := IsDropCheckmate(newBoard, mover, hands);
    allowed := !mate;
  }

  // ===== Drop validation =====

  /** The violations validate_drop_constraints reports, in the order it
      checks them. */
  datatype DropError = NotEmpty | Nifu | LastRank | LastTwoRanks

  /** The message the source returns for each violation. */
  function Message(e: DropError): (m: string)
    ensures m != []
  {
    match e
    case NotEmpty => "Drop target must be empty."
    case Nifu => "Nifu is not allowed."
    case LastRank => "FU/KY cannot be dropped on last rank."
    case LastTwoRanks => "KE cannot be dropped on last two ranks."
  }

  /** Different violations are reported with different messages. */
  lemma MessagesDistinct(e1: DropError, e2: DropError)
    ensures Message(e1) == Message(e2) <==> e1 == e2
  {
  }

  /** validate_drop_constraints: the first violated constraint, or None. The
      kind of the hand piece decides, whichever case it was written in. */
  method ValidateDropConstraints(b: Board, to: Pos, side: Side, handPiece: Piece) returns (err: Option<DropError>)
    requires OnBoard(to)
    ensures err.None? <==> DropAllowed(b, side, handPiece.kind, to)
    ensures err == Some(NotEmpty) <==> At(b, to) != Empty
    ensures err == Some(Nifu) <==>
      At(b, to) == Empty && handPiece.kind == Fu && OwnPawnInColumn(b, side, to.col)
    ensures err == Some(LastRank) <==>
      At(b, to) == Empty && !(handPiece.kind == Fu && OwnPawnInColumn(b, side, to.col)) &&
      handPiece.kind in {Fu, Ky} && DeadRank(side, handPiece.kind, to.row)
    ensures err == Some(LastTwoRanks) <==>
      At(b, to) == Empty && handPiece.kind == Ke && DeadRank(side, Ke, to.row)
  {
    if b[to.row][to.col] != Empty {
      return Some(NotEmpty);
    }
    if handPiece.kind == Fu {
      var nifu := ColumnHasOwnPawn(b, side, to.col);
      if nifu {
        return Some(Nifu);
      }
    }
    var base := handPiece.kind;
    var toRow := to.row;
    if base == Fu || base == Ky {
      if side == Upper && toRow == 0 {
        return Some(LastRank);
      }
      if side == Lower && toRow == 8 {
        return Some(LastRank);
      }
    }
    if base == Ke {
      if side == Upper && toRow <= 1 {
        return Some(LastTwoRanks);
      }
      if side == Lower && toRow >= 7 {
        return Some(LastTwoRanks);
      }
    }
    return None;
  }
}
