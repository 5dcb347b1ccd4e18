/**
 * The checkmate detector of pieces.py (is_checkmate, _can_escape_by_drop):
 * a side is mated when it is in check, no move of any of its pieces (with
 * every promotion choice the move offers) leaves it out of check, and, when
 * hands are given, no legal drop from its hand does either.
 */
module Checkmate {
  import opened Wrappers
  import opened Catalog
  import opened BoardModel
  import opened Promotion
  import opened MoveGen
  import opened Check
  import opened Drops

  /** One entry of is_checkmate's list of the defender's pieces. */
  datatype Defender = Defender(pos: Pos, piece: Piece)

  /** A square holding a piece of `side`, in the list's form. */
  predicate IsFriend(b: Board, side: Side, f: Defender)
  {
    OnBoard(f.pos) && At(b, f.pos) == Occupied(f.piece) && f.piece.side == side
  }

  /** Every entry of `fs` is a piece of `side` where the list says it is. */
  predicate AllFriends(b: Board, side: Side, fs: seq<Defender>)
  {
    forall f | f in fs :: IsFriend(b, side, f)
  }

  // ===== The list of the defender's pieces =====

  /** The list entry for square (row, col): one entry when it holds a piece
      of `side`, none otherwise. */
  function EntryAt(b: Board, side: Side, row: int, col: int): seq<Defender>
    requires IsOnBoard(row, col)
  {
    var cell := b[row][col];
    if cell.Occupied? && cell.piece.side == side then [Defender(Pos(row, col), cell.piece)] else []
  }

  /** The pieces of `side` in row `row` left of column `col`, left to right. */
  function RowFriends(b: Board, side: Side, row: int, col: int): seq<Defender>
    requires 0 <= row < 9 && 0 <= col <= 9
  {
    if col == 0 then [] else RowFriends(b, side, row, col - 1) + EntryAt(b, side, row, col - 1)
  }

  /** The pieces of `side` above row `row`, in row-major order. */
  function FriendsBefore(b: Board, side: Side, row: int): seq<Defender>
    requires 0 <= row <= 9
  {
    if row == 0 then [] else FriendsBefore(b, side, row - 1) + RowFriends(b, side, row - 1, 9)
  }

  /** The list is_checkmate builds before trying any move. */
  function Friends(b: Board, side: Side): seq<Defender>
  {
    FriendsBefore(b, side, 9)
  }

  lemma {:induction false} RowFriendsExact(b: Board, side: Side, row: int, col: int)
    requires 0 <= row < 9 && 0 <= col <= 9
    ensures AllFriends(b, side, RowFriends(b, side, row, col))
    ensures forall p | OnBoard(p) && p.row == row && p.col < col && At(b, p).Occupied? && At(b, p).piece.side == side ::
      Defender(p, At(b, p).piece) in RowFriends(b, side, row, col)
  {
    if col > 0 {
      RowFriendsExact(b, side, row, col - 1);
      assert At(b, Pos(row, col - 1)) == b[row][col - 1];
    }
  }

  lemma {:induction false} FriendsBeforeExact(b: Board, side: Side, row: int)
    requires 0 <= row <= 9
    ensures AllFriends(b, side, FriendsBefore(b, side, row))
    ensures forall p | OnBoard(p) && p.row < row && At(b, p).Occupied? && At(b, p).piece.side == side ::
      Defender(p, At(b, p).piece) in FriendsBefore(b, side, row)
  {
    if row > 0 {
      FriendsBeforeExact(b, side, row - 1);
      RowFriendsExact(b, side, row - 1, 9);
      var last := RowFriends(b, side, row - 1, 9);
      forall p | OnBoard(p) && p.row < row && At(b, p).Occupied? && At(b, p).piece.side == side
        ensures Defender(p, At(b, p).piece) in FriendsBefore(b, side, row)
      {
        if p.row == row - 1 {
          assert Defender(p, At(b, p).piece) in last;
        }
      }
    }
  }

  /** The list holds exactly the pieces of `side` on the board, each with
      the square it stands on. */
  lemma FriendsExact(b: Board, side: Side)
    ensures AllFriends(b, side, Friends(b, side))
    ensures forall p | OnBoard(p) && At(b, p).Occupied? && At(b, p).piece.side == side ::
      Defender(p, At(b, p).piece) in Friends(b, side)
  {
    FriendsBeforeExact(b, side, 9);
  }

  lemma FriendsOnBoard(b: Board, side: Side)
    ensures forall j | 0 <= j < |Friends(b, side)| :: OnBoard(Friends(b, side)[j].pos)
  {
    FriendsExact(b, side);
    forall j | 0 <= j < |Friends(b, side)|
      ensures OnBoard(Friends(b, side)[j].pos)
    {
      assert Friends(b, side)[j] in Friends(b, side);
    }
  }

  /** The inner loop of the list's construction: one row, left to right. */
  method CollectRow(b: Board, side: Side, row: int) returns (friends: seq<Defender>)
    requires 0 <= row < 9
    ensures friends == RowFriends(b, side, row, 9)
  {
    friends := [];
    for col := 0 to 9
      invariant friends == RowFriends(b, side, row, col)
    {
      var piece := b[row][col];
      if piece != Empty && piece.piece.side == side {
        friends := friends + [Defender(Pos(row, col), piece.piece)];
      }
    }
  }

  /** The first loop of is_checkmate: the defender's pieces, row by row. */
  method CollectFriends(b: Board, side: Side) returns (friends: seq<Defender>)
    ensures friends == Friends(b, side)
  {
    friends := [];
    for row := 0 to 9
      invariant friends == FriendsBefore(b, side, row)
    {
      var rowFriends := CollectRow(b, side, row);
      friends := friends + rowFriends;
    }
  }

  // ===== Searches that stop at the first success =====

  /** Some element of `s` satisfies `P`, trying the elements in order: the
      shape of each of is_checkmate's loops that returns at the first
      escape. */
  ghost predicate AnyOf<T>(s: seq<T>, P: T -> bool)
  {
    s != [] && (P(s[0]) || AnyOf(s[1..], P))
  }

  /** An element satisfying `P` is found by the in-order search. */
  lemma {:induction false} AnyOfFrom<T>(s: seq<T>, P: T -> bool, j: int)
    requires 0 <= j < |s| && P(s[j])
    ensures AnyOf(s, P)
  {
    if j > 0 {
      assert s[1..][j - 1] == s[j];
      AnyOfFrom(s[1..], P, j - 1);
    }
  }

  /** The in-order search succeeds only at an element satisfying `P`. */
  lemma {:induction false} AnyOfAt<T>(s: seq<T>, P: T -> bool) returns (j: int)
    requires AnyOf(s, P)
    ensures 0 <= j < |s| && P(s[j])
  {
    if P(s[0]) {
      j := 0;
    } else {
      var k := AnyOfAt(s[1..], P);
      assert s[1..][k] == s[k + 1];
      j := k + 1;
    }
  }

  /** A success stays a success when more elements are appended. */
  lemma {:induction false} AnyOfAppend<T>(s: seq<T>, x: T, P: T -> bool)
    requires AnyOf(s, P)
    ensures AnyOf(s + [x], P)
  {
    assert (s + [x])[0] == s[0];
    if !P(s[0]) {
      AnyOfAppend(s[1..], x, P);
      assert (s + [x])[1..] == s[1..] + [x];
    }
  }

  // ===== Escapes by moving a piece on the board =====

  /** The board after `f` makes move `t`, promoting or not. */
  function MoveResult(b: Board, f: Defender, t: Target, promote: bool): Board
    requires OnBoard(f.pos) && OnBoard(t.to)
    requires promote ==> CanPromote(f.piece)
  {
    ApplyMove(b, f.pos, t.to, t.moveType, Promotion.Promotion(f.piece, promote)).board
  }

  /** Some promotion choice that move `t` of `f` offers leaves `side` out of check. */
  ghost predicate MoveEscapes(b: Board, side: Side, f: Defender, t: Target)
  {
    OnBoard(f.pos) && OnBoard(t.to) &&
    var opts := PromoteOptions(f.piece, f.pos.row, t.to.row);
    exists o | 0 <= o < |opts| :: !InCheck(MoveResult(b, f, t, opts[o]), side)
  }

  /** Some move of `moves` escapes, trying them in order. */
  ghost predicate SomeMoveEscapes(b: Board, side: Side, f: Defender, moves: seq<Target>)
  {
    AnyOf(moves, t => MoveEscapes(b, side, f, t))
  }

  /** Some generated move of `f` escapes. */
  ghost predicate PieceEscapes(b: Board, side: Side, f: Defender)
  {
    SomeMoveEscapes(b, side, f, Moves(b, f.pos, f.piece))
  }

  /** Some piece of `friends` escapes, trying them in order. */
  ghost predicate SomePieceEscapes(b: Board, side: Side, friends: seq<Defender>)
  {
    AnyOf(friends, f => PieceEscapes(b, side, f))
  }

  /** Some piece of the defender's list escapes. */
  ghost predicate BoardEscape(b: Board, side: Side)
  {
    SomePieceEscapes(b, side, Friends(b, side))
  }

  /** The loop over one move's promotion choices. */
  method TryPromoteOptions(b: Board, side: Side, f: Defender, t: Target) returns (escapes: bool)
    requires OnBoard(f.pos) && OnBoard(t.to)
    ensures escapes == MoveEscapes(b, side, f, t)
  {
    var opts := PromoteOptions(f.piece, f.pos.row, t.to.row);
    for o := 0 to |opts|
      invariant forall o' | 0 <= o' < o :: InCheck(MoveResult(b, f, t, opts[o']), side)
    {
      var pieceToPlace := Promotion.Promotion(f.piece, opts[o]);
      var newBoard := ApplyMove(b, f.pos, t.to, t.moveType, pieceToPlace).board;
      var check := IsInCheck(newBoard, side);
      if !check {
        return true;
      }
    }
    return false;
  }

  /** The loop over one piece's generated moves. */
  method TryMoves(b: Board, side: Side, f: Defender, moves: seq<Target>) returns (escapes: bool)
    requires OnBoard(f.pos)
    requires forall i | 0 <= i < |moves| :: OnBoard(moves[i].to)
    ensures escapes == SomeMoveEscapes(b, side, f, moves)
  {
    for i := 0 to |moves|
      invariant SomeMoveEscapes(b, side, f, moves[i..]) == SomeMoveEscapes(b, side, f, moves)
    {
      assert moves[i..][1..] == moves[i + 1..];
      escapes := TryPromoteOptions(b, side, f, moves[i]);
      if escapes {
        return;
      }
    }
    return false;
  }

  /** generate_legal_moves for one piece of the list, then the loop over its moves. */
  method TryPieceMoves(b: Board, side: Side, f: Defender) returns (escapes: bool)
    requires OnBoard(f.pos)
    ensures escapes == PieceEscapes(b, side, f)
  {
    var moves := GenerateLegalMoves(b, f.pos, f.piece);
    MovesOnBoard(b, f.pos, f.piece);
    escapes := TryMoves(b, side, f, moves);
  }

  /** The loop over the defender's list. */
  method TryBoardMoves(b: Board, side: Side, friends: seq<Defender>) returns (escapes: bool)
    requires forall j | 0 <= j < |friends| :: OnBoard(friends[j].pos)
    ensures escapes == SomePieceEscapes(b, side, friends)
  {
    for j := 0 to |friends|
      invariant SomePieceEscapes(b, side, friends[j..]) == SomePieceEscapes(b, side, friends)
    {
      assert friends[j..][1..] == friends[j + 1..];
      escapes := TryPieceMoves(b, side, friends[j]);
      if escapes {
        return;
      }
    }
    return false;
  }

  /** A board-move escape is a move of some piece of the defender, wherever
      it stands: the list misses none of them and holds nothing else. */
  lemma BoardEscapeIffSomePiece(b: Board, side: Side)
    ensures BoardEscape(b, side) <==>
      exists p | OnBoard(p) && At(b, p).Occupied? && At(b, p).piece.side == side ::
        PieceEscapes(b, side, Defender(p, At(b, p).piece))
  {
    FriendsExact(b, side);
    var fs := Friends(b, side);
    if BoardEscape(b, side) {
      var j := AnyOfAt(fs, f => PieceEscapes(b, side, f));
      assert fs[j] in fs;
      var p := fs[j].pos;
      assert Defender(p, At(b, p).piece) == fs[j];
    }
    if exists p | OnBoard(p) && At(b, p).Occupied? && At(b, p).piece.side == side ::
        PieceEscapes(b, side, Defender(p, At(b, p).piece)) {
      var p :| OnBoard(p) && At(b, p).Occupied? && At(b, p).piece.side == side &&
        PieceEscapes(b, side, Defender(p, At(b, p).piece));
      var f := Defender(p, At(b, p).piece);
      assert f in fs;
      var j :| 0 <= j < |fs| && fs[j] == f;
      AnyOfFrom(fs, f => PieceEscapes(b, side, f), j);
    }
  }

  // ===== Escapes by dropping a piece from the hand =====

  /** hands.get(side, []) */
  function HandOf(hands: map<Side, seq<Piece>>, side: Side): seq<Piece>
  {
    if side in hands then hands[side] else []
  }

  /** The board after `side` drops a piece of `kind` on `to`. */
  function DropResult(b: Board, side: Side, kind: Kind, to: Pos): Board
    requires OnBoard(to)
  {
    Put(b, to, Occupied(Piece(side, kind)))
  }

  /** Dropping a piece of `kind` on `to` is allowed and leaves `side` out of check. */
  ghost predicate DropEscapesAt(b: Board, side: Side, kind: Kind, to: Pos)
  {
    DropAllowed(b, side, kind, to) && !InCheck(DropResult(b, side, kind, to), side)
  }

  /** Some square where a piece of `kind` can be dropped to escape. */
  ghost predicate KindEscapes(b: Board, side: Side, kind: Kind)
  {
    exists p | OnBoard(p) :: DropEscapesAt(b, side, kind, p)
  }

  /** What _can_escape_by_drop answers for the pieces `hand`, tried in order. */
  ghost predicate DropEscape(b: Board, side: Side, hand: seq<Piece>)
  {
    AnyOf(hand, (p: Piece) => KindEscapes(b, side, p.kind))
  }

  /** One row of the drop search for one hand piece. */
  method TryDropRow(b: Board, side: Side, handPiece: Piece, row: int) returns (escapes: bool)
    requires 0 <= row < 9 && handPiece.side == side
    ensures escapes <==> exists p | OnBoard(p) && p.row == row :: DropEscapesAt(b, side, handPiece.kind, p)
  {
    for col := 0 to 9
      invariant forall p | OnBoard(p) && p.row == row && p.col < col :: !DropEscapesAt(b, side, handPiece.kind, p)
    {
      var ok := CanDropPiece(b, side, handPiece, Pos(row, col));
      if ok {
        var newBoard := b[row := b[row][col := Occupied(handPiece)]];
        assert newBoard == DropResult(b, side, handPiece.kind, Pos(row, col));
        var check := IsInCheck(newBoard, side);
        if !check {
          return true;
        }
      }
    }
    return false;
  }

  /** The board search for one hand piece, re-cased for `side`. */
  method TryDropKind(b: Board, side: Side, handPiece: Piece) returns (escapes: bool)
    requires handPiece.side == side
    ensures escapes == KindEscapes(b, side, handPiece.kind)
  {
    for row := 0 to 9
      invariant forall p | OnBoard(p) && p.row < row :: !DropEscapesAt(b, side, handPiece.kind, p)
    {
      escapes := TryDropRow(b, side, handPiece, row);
      if escapes {
        return;
      }
    }
    return false;
  }

  /** _can_escape_by_drop: each piece of the defender's hand, taken as a
      piece of the defender whatever case it was stored in, tried on every
      square. */
  method CanEscapeByDrop(b: Board, side: Side, hands: map<Side, seq<Piece>>) returns (escapes: bool)
    ensures escapes == DropEscape(b, side, HandOf(hands, side))
  {
    var hand := if side in hands then hands[side] else [];
    for i := 0 to |hand|
      invariant DropEscape(b, side, hand[i..]) == DropEscape(b, side, hand)
    {
      assert hand[i..][1..] == hand[i + 1..];
      var handPiece := Piece(side, hand[i].kind);
      escapes := TryDropKind(b, side, handPiece);
      if escapes {
        return;
      }
    }
    return false;
  }

  // ===== The verdict =====

  /** What is_checkmate answers: in check, no escaping move on the board and,
      when hands are given, no escaping drop. */
  ghost predicate IsMate(b: Board, side: Side, hands: Option<map<Side, seq<Piece>>>)
  {
    InCheck(b, side) && !BoardEscape(b, side) &&
    !(hands.Some? && DropEscape(b, side, HandOf(hands.value, side)))
  }

  /** is_checkmate */
  method IsCheckmate(b: Board, side: Side, hands: Option<map<Side, seq<Piece>>>) returns (mate: bool)
    ensures mate == IsMate(b, side, hands)
    ensures mate ==> InCheck(b, side) && KingSquare(b, side).Some?
  {
    var check := IsInCheck(b, side);
    if !check {
      return false;
    }
    var friends := CollectFriends(b, side);
    FriendsOnBoard(b, side);
    var escapes := TryBoardMoves(b, side, friends);
    if escapes {
      return false;
    }
    if hands.Some? {
      escapes := CanEscapeByDrop(b, side, hands.value);
      if escapes {
        return false;
      }
    }
    return true;
  }

  /** One more piece in the defender's hand can only remove a mate: a mate
      with the larger hand is a mate with the smaller one, and a mate with
      hands is a mate when hands are not consulted at all. */
  lemma MateWithFewerPieces(b: Board, side: Side, hands: map<Side, seq<Piece>>, p: Piece)
    requires IsMate(b, side, Some(hands[side := HandOf(hands, side) + [p]]))
    ensures IsMate(b, side, Some(hands))
    ensures IsMate(b, side, None)
  {
    if DropEscape(b, side, HandOf(hands, side)) {
      AnyOfAppend(HandOf(hands, side), p, (p: Piece) => KindEscapes(b, side, p.kind));
    }
  }

  /** A mate leaves every board move in check: whichever piece of the
      defender moves, along whichever generated move, with whichever
      promotion choice the move offers, the defender is still in check. */
  lemma MateKeepsEveryMoveInCheck(b: Board, side: Side, hands: Option<map<Side, seq<Piece>>>, p: Pos, j: int, o: int)
    requires IsMate(b, side, hands)
    requires OnBoard(p) && At(b, p).Occupied? && At(b, p).piece.side == side
    requires 0 <= j < |Moves(b, p, At(b, p).piece)|
    requires 0 <= o < |PromoteOptions(At(b, p).piece, p.row, Moves(b, p, At(b, p).piece)[j].to.row)|
    ensures var f := Defender(p, At(b, p).piece);
      var t := Moves(b, p, f.piece)[j];
      OnBoard(t.to) && InCheck(MoveResult(b, f, t, PromoteOptions(f.piece, p.row, t.to.row)[o]), side)
  {
    var f := Defender(p, At(b, p).piece);
    var moves := Moves(b, p, f.piece);
    MovesOnBoard(b, p, f.piece);
    var t := moves[j];
    var opts := PromoteOptions(f.piece, p.row, t.to.row);
    if !InCheck(MoveResult(b, f, t, opts[o]), side) {
      assert MoveEscapes(b, side, f, t);
      AnyOfFrom(moves, t => MoveEscapes(b, side, f, t), j);
      BoardEscapeIffSomePiece(b, side);
      assert false;
    }
  }

  /** A mate with hands leaves every drop in check: no piece of the
      defender's hand, dropped where _can_drop_piece allows it, ends the
      check. */
  lemma MateKeepsEveryDropInCheck(b: Board, side: Side, hands: map<Side, seq<Piece>>, i: int, to: Pos)
    requires IsMate(b, side, Some(hands))
    requires 0 <= i < |HandOf(hands, side)|
    requires DropAllowed(b, side, HandOf(hands, side)[i].kind, to)
    ensures InCheck(DropResult(b, side, HandOf(hands, side)[i].kind, to), side)
  {
    var hand := HandOf(hands, side);
    if !InCheck(DropResult(b, side, hand[i].kind, to), side) {
      assert DropEscapesAt(b, side, hand[i].kind, to);
      assert KindEscapes(b, side, hand[i].kind);
      AnyOfFrom(hand, (p: Piece) => KindEscapes(b, side, p.kind), i);
      assert false;
    }
  }

  /** The drop search only looks at the defender's own hand. */
  lemma MateIgnoresOpponentHand(b: Board, side: Side, hands: map<Side, seq<Piece>>, o: Side, other: seq<Piece>)
    requires o != side
    ensures IsMate(b, side, Some(hands[o := other])) == IsMate(b, side, Some(hands))
  {
    assert HandOf(hands[o := other], side) == HandOf(hands, side);
  }
}
