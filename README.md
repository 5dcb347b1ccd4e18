# Shogi rules engine: a verified model

This project models the rules engine of a small two-player shogi
application. It covers three core files:

- **The engine**, `buckend/pieces.py`. It holds the piece catalog and its
  movement grammar, and the ray-walking move generator with side
  reflection. It also has the promotion rules, board update, the king
  search and check detection, drop legality, and the exhaustive checkmate
  search over board moves, promotion choices and drops from the hand.
- **The server helpers**, `buckend/api/game_helpers.py`. They provide the
  opening position and the check, checkmate and game-end summaries. They
  expand generated moves into promotion choices, switch turns, and move
  captured pieces to the hand (demoted). They also overwrite the live
  board in place, apply the drop-pawn-mate rule, and validate drops with
  their error messages.
- **The client helpers**, `frontend/src/utils/gameHelpers.js`. They give
  the label of a side, count a hand by piece, and list the squares on
  which a hand piece may be dropped.

The source encodes a piece's side by the case of its two-letter code:
upper-case is the "upper" side (sente) and lower-case is the "lower" side
(gote). The model gives every piece an explicit `Side` field, and a cell
is `Empty` or `Occupied(Piece(side, kind))` over the 14 kinds. Copying
with `copy.deepcopy` becomes value semantics: a `Board` is a 9×9
`seq<seq<Cell>>`.

The source code's loops become methods, each proved equal to a
specification function. For example:

- `GenerateLegalMoves` equals `Moves`.
- `IsInCheck` equals `InCheck`.
- `IsCheckmate` equals `IsMate`.
- `ComputeDropTargets` equals `DropTargets`.

Lemmas then state what the rules promise about those functions. Examples
are the ray rule, forced promotion lying in the zone, nifu being
preserved by drops, and a mate leaving every move and drop in check.

The searches that stop at the first success use the suffix-recursive
predicate `Checkmate.AnyOf`. This applies to the checkmate search's loops
over pieces, moves and hand pieces. Two callers need to move between
`AnyOf` and the existential form:

- `Checkmate.BoardEscapeIffSomePiece` links the search over the defender's
  list to "some piece of the defender, wherever it stands".
- `Checkmate.MateKeepsEveryMoveInCheck` and
  `Checkmate.MateKeepsEveryDropInCheck` state the universal meaning of a
  mate.

Modules, one file each:

- `Wrappers`: the `Option` type.
- `Catalog`: sides, kinds, direction vectors, direction tables, move specs
  and `PROMOTE_MAP`.
- `BoardModel`: coordinates, the board, `orient_move`, `classify_cell`,
  `apply_move` and `find_king_position`.
- `Promotion`: `can_promote`, `is_promote_zone`, `force_promote`,
  `promotion`, and the promotion choices of a move.
- `MoveGen`: `generate_legal_moves` and the ray rule.
- `Check`: `is_in_check`.
- `Drops`: `_can_drop_piece`.
- `Checkmate`: `is_checkmate` and `_can_escape_by_drop`.
- `GameHelpers`: `game_helpers.py`.
- `FrontendHelpers`: `gameHelpers.js`.
- `MateExample`: a concrete mate (the boxed king), which shows that the
  mate condition is met by a real position.

## Model

| member | source | states |
|---|---|---|
| Catalog.Vector | shogi_app/application/buckend/pieces.py:19-30 | every direction vector is non-zero, moves at most two rows and one column |
| Catalog.BaseMoveDirections | shogi_app/application/buckend/pieces.py:32-47 | (definition) the directions of each kind, in the table's order; both cases of a code share one entry |
| Catalog.UnlimitedDirections | shogi_app/application/buckend/pieces.py:76-88 | (definition) lance slides forward, rook and dragon orthogonally, bishop and horse diagonally; no other kind slides |
| Catalog.PieceType | shogi_app/application/buckend/pieces.py:50-57 | (definition) rook, bishop, lance, dragon and horse slide, the knight jumps, every other kind steps |
| Catalog.SlideIffUnlimited | shogi_app/application/buckend/pieces.py:76-88 | a kind has an unlimited direction exactly when get_piece_type calls it sliding, and every unlimited direction is one of its base directions |
| Catalog.MoveSpecs | shogi_app/application/buckend/pieces.py:91-98 | one spec per base direction, each non-zero, limited to one step unless the direction slides, and only sliding kinds have an unlimited spec |
| Catalog.BuildMoveSpecs | shogi_app/application/buckend/pieces.py:91-98 | the appending loop of _move_specs builds exactly the move specs |
| BoardModel.Put | shogi_app/application/buckend/pieces.py:248-249 | (proof helper) writing one cell changes that cell and no other |
| BoardModel.IsOnBoard | shogi_app/application/buckend/pieces.py:101-102 | (definition) row and column both lie in 0..8 |
| BoardModel.OrientMove | shogi_app/application/buckend/pieces.py:105-109 | the column delta is kept; the row delta is kept for upper pieces and negated for lower pieces |
| BoardModel.OrientInvolutive | shogi_app/application/buckend/pieces.py:105-109 | orienting twice restores the authored vector, and a non-zero vector stays non-zero |
| BoardModel.ClassifyCell | shogi_app/application/buckend/pieces.py:112-119 | empty exactly for an empty cell, friend exactly for a piece of the mover's side, enemy exactly for a piece of the other side |
| BoardModel.ApplyMove | shogi_app/application/buckend/pieces.py:233-251 | the origin is emptied, the destination holds the placed piece, every other cell is unchanged, and the captured value is the old destination cell exactly for a capture |
| BoardModel.KingSquare | shogi_app/application/buckend/pieces.py:161-167 | a found king square is on the board |
| BoardModel.KingScanFinds | shogi_app/application/buckend/pieces.py:163-166 | the scan from a square finds the first king at or after it in row-major order, or proves there is none |
| BoardModel.KingSquareIsFirstKing | shogi_app/application/buckend/pieces.py:161-167 | the king square is the first square in row-major order holding the side's king, and absent exactly when the side has no king |
| BoardModel.FindKingPosition | shogi_app/application/buckend/pieces.py:161-167 | the nested row and column scan returns the king square |
| Promotion.CanPromoteIffPromoteMapKey | shogi_app/application/buckend/pieces.py:122-124 | can_promote holds exactly for the keys of PROMOTE_MAP, and a promoted kind cannot promote again |
| Promotion.CanPromote | shogi_app/application/buckend/pieces.py:122-124 | (definition) the kind is pawn, lance, knight, silver, rook or bishop, whatever the side |
| Promotion.IsPromoteZone | shogi_app/application/buckend/pieces.py:127-132 | (definition) either end of the move lies in the mover's far three ranks: rows 0-2 for upper, 6-8 for lower |
| Promotion.ForcePromote | shogi_app/application/buckend/pieces.py:135-147 | (definition) a pawn or lance reaching the mover's last rank, or a knight reaching its last two ranks |
| Promotion.ForcedImpliesZone | shogi_app/application/buckend/pieces.py:127-147 | when promotion is forced, the piece can promote and the move lies in its promotion zone whatever the origin row |
| Promotion.Promotion | shogi_app/application/buckend/pieces.py:150-158 | no promotion returns the piece unchanged; promotion returns PROMOTE_MAP of its kind with the same side |
| Promotion.PromoteOptions | shogi_app/application/buckend/pieces.py:318-327 | one or two choices; only promotion when forced; not promoting then promoting when merely possible; never promotion outside the zone or for a non-promotable kind |
| MoveGen.RaySquare | shogi_app/application/buckend/pieces.py:209-210 | the square row + dr*i, col + dc*i is one step beyond the previous square of the ray |
| MoveGen.StepsIsProduct | shogi_app/application/buckend/pieces.py:209-210 | (proof helper) i repeated steps of d add up to d*i |
| MoveGen.RayUnfold | shogi_app/application/buckend/pieces.py:212-227 | one step of a ray: stop at the edge or before a friend, emit a capture and stop on an enemy, emit a move on an empty square and go on only for a slide |
| MoveGen.WalkRay | shogi_app/application/buckend/pieces.py:204-229 | the while loop appends exactly the ray of the oriented direction to the moves found so far |
| MoveGen.GenerateLegalMoves | shogi_app/application/buckend/pieces.py:193-231 | the loop over the move specs returns exactly the concatenated rays |
| MoveGen.RaySound | shogi_app/application/buckend/pieces.py:208-224 | every square a ray emits is on the board and strictly ahead; a move lands on an empty square and a capture on an enemy |
| MoveGen.RayContiguous | shogi_app/application/buckend/pieces.py:208-224 | a ray visits consecutive squares, and every square but the last is an empty one tagged move |
| MoveGen.RayLimited | shogi_app/application/buckend/pieces.py:226-227 | a direction limited to one step yields at most one target |
| MoveGen.RayEnds | shogi_app/application/buckend/pieces.py:212-224 | a ray that emits nothing, or ends on a move, stopped at the edge of the board or before a friendly piece |
| MoveGen.MovesAlongSound | shogi_app/application/buckend/pieces.py:204-229 | every move of every ray is sound and leaves the origin |
| MoveGen.MovesSound | shogi_app/application/buckend/pieces.py:193-231 | every generated move is on the board and off the origin; tagged move exactly onto an empty square and capture exactly onto an enemy, never onto a friend |
| MoveGen.MovesOnBoard | shogi_app/application/buckend/pieces.py:212-213 | every generated destination is on the board |
| MoveGen.MovesAlongBound | shogi_app/application/buckend/pieces.py:226-227 | specs limited to one step yield at most one move each |
| MoveGen.NonSlidingMoveBound | shogi_app/application/buckend/pieces.py:76-98 | a non-sliding piece has at most as many moves as base directions |
| MoveGen.PawnMovesForward | shogi_app/application/buckend/pieces.py:105-109 | an upper pawn steps up a row and a lower pawn down a row: a move onto empty, a capture onto an enemy, nothing off the board or onto a friend |
| MoveGen.MovesAlongOffBoard | shogi_app/application/buckend/pieces.py:212-213 | when the first square of every direction is off the board, nothing is generated |
| MoveGen.MovesAlongHasRay | shogi_app/application/buckend/pieces.py:204-229 | every target of one direction's ray is among the generated moves |
| MoveGen.ForcedMeansNoMoves | shogi_app/application/buckend/pieces.py:135-147 | a piece on a forced-promotion rank has no move on any board, and an unforced pawn, lance or knight has a move on the empty board |
| Check.AnyMoveTo | shogi_app/application/buckend/pieces.py:181-183 | the loop over one piece's moves finds the king square exactly when some move lands on it |
| Check.SquareAttacks | shogi_app/application/buckend/pieces.py:175-184 | a square attacks the king exactly when it holds an opposing piece whose moves reach the king |
| Check.RowAttacks | shogi_app/application/buckend/pieces.py:174-184 | one row's scan is true exactly when some square of that row attacks the king |
| Check.ScanForAttack | shogi_app/application/buckend/pieces.py:174-189 | the board scan is true exactly when some square attacks the king |
| Check.IsInCheck | shogi_app/application/buckend/pieces.py:170-190 | false when the side has no king; otherwise true exactly when some opposing piece's generated moves reach the first king square |
| Drops.ColumnHasOwnPawn | shogi_app/application/buckend/pieces.py:263-267 | the column scan finds exactly a pawn of the side in that column |
| Drops.CanDropPiece | shogi_app/application/buckend/pieces.py:254-281 | true exactly for an on-board empty square, without an own pawn in the column for a pawn, off the dead ranks of pawn, lance and knight |
| Drops.DeadRankIsForcedRank | shogi_app/application/buckend/pieces.py:269-279 | the ranks barred to a drop are exactly the ranks where promotion is forced |
| Drops.DroppedPieceCanMove | shogi_app/application/buckend/pieces.py:269-279 | a pawn, lance or knight that may be dropped has a move from its square on the empty board |
| Drops.DropKeepsNoNifu | shogi_app/application/buckend/pieces.py:262-267 | an allowed drop keeps every file free of a second pawn of each side |
| Checkmate.RowFriendsExact | shogi_app/application/buckend/pieces.py:305-313 | one row's list holds exactly the side's pieces left of the column, where they stand |
| Checkmate.FriendsBeforeExact | shogi_app/application/buckend/pieces.py:303-313 | the list up to a row holds exactly the side's pieces above that row |
| Checkmate.FriendsExact | shogi_app/application/buckend/pieces.py:303-313 | the defender's list holds every piece of the side on the board and nothing else |
| Checkmate.FriendsOnBoard | shogi_app/application/buckend/pieces.py:303-313 | every entry of the defender's list is on the board |
| Checkmate.CollectRow | shogi_app/application/buckend/pieces.py:305-313 | one row of the collection loop builds that row's part of the list |
| Checkmate.CollectFriends | shogi_app/application/buckend/pieces.py:303-313 | the nested collection loop builds the defender's list |
| Checkmate.TryPromoteOptions | shogi_app/application/buckend/pieces.py:327-338 | the loop over promotion choices escapes exactly when some choice leaves the side out of check |
| Checkmate.TryMoves | shogi_app/application/buckend/pieces.py:316-338 | the loop over one piece's moves escapes exactly when some move escapes |
| Checkmate.TryPieceMoves | shogi_app/application/buckend/pieces.py:315-338 | one piece escapes exactly when some generated move of it escapes |
| Checkmate.TryBoardMoves | shogi_app/application/buckend/pieces.py:315-338 | the loop over the list escapes exactly when some listed piece escapes |
| Checkmate.BoardEscapeIffSomePiece | shogi_app/application/buckend/pieces.py:303-338 | a board-move escape exists exactly when some piece of the side, wherever it stands, has an escaping move |
| Checkmate.TryDropRow | shogi_app/application/buckend/pieces.py:288-295 | one row of the drop search escapes exactly when an allowed drop on that row leaves the side out of check |
| Checkmate.TryDropKind | shogi_app/application/buckend/pieces.py:287-295 | the board search for one hand piece escapes exactly when an allowed drop of its kind somewhere ends the check |
| Checkmate.CanEscapeByDrop | shogi_app/application/buckend/pieces.py:284-296 | the hand loop escapes exactly when some piece of the side's own hand has an escaping drop |
| Checkmate.IsCheckmate | shogi_app/application/buckend/pieces.py:299-345 | true exactly when in check with no escaping board move and, when hands are given, no escaping drop; a mated side is in check and has a king |
| Checkmate.MateKeepsEveryMoveInCheck | shogi_app/application/buckend/pieces.py:315-338 | under a mate every generated move of every piece of the side, under every promotion choice it offers, leaves the side in check |
| Checkmate.MateKeepsEveryDropInCheck | shogi_app/application/buckend/pieces.py:284-296 | under a mate with hands, every allowed drop of every piece in the side's hand leaves the side in check |
| Checkmate.MateWithFewerPieces | shogi_app/application/buckend/pieces.py:341-343 | a mate with one more piece in hand is a mate with the smaller hand and a mate when hands are not consulted |
| Checkmate.MateIgnoresOpponentHand | shogi_app/application/buckend/pieces.py:286 | changing the opponent's hand does not change the verdict |
| MateExample.OnlyKing | shogi_app/application/buckend/pieces.py:161-167 | (proof helper) a side whose only king stands on a square has its king found there |
| MateExample.StepAttacks | shogi_app/application/buckend/pieces.py:174-184 | (proof helper) a piece whose oriented direction steps onto an empty or opposing square attacks it |
| MateExample.MovesAlongMember | shogi_app/application/buckend/pieces.py:204-229 | (proof helper) every generated move comes from the ray of one spec |
| MateExample.KingMovesAdjacent | shogi_app/application/buckend/pieces.py:204-229 | a king only ever moves to a neighbouring square |
| MateExample.Boxed | shogi_app/application/buckend/pieces.py:299-345 | (proof helper) the board holds the boxed-king position |
| MateExample.CheckedBy | shogi_app/application/buckend/pieces.py:170-190 | (proof helper) upper is in check when its only king stands where a lower piece's direction steps |
| MateExample.KingStepChecked | shogi_app/application/buckend/pieces.py:315-338 | in the boxed position each square the king can reach is covered by the gold or the silver |
| MateExample.KingMoveStaysInCheck | shogi_app/application/buckend/pieces.py:315-338 | no move of the cornered king escapes the check |
| MateExample.DropStaysInCheck | shogi_app/application/buckend/pieces.py:284-296 | no drop by upper blocks or removes the gold's check |
| MateExample.BoxedKingIsMated | shogi_app/application/buckend/pieces.py:299-345 | upper's king on (8, 0), checked by a lower gold on (7, 0) that a silver on (6, 1) guards, is mate without hands and with a pawn in hand |
| MateExample.BoxedKingExists | shogi_app/application/buckend/pieces.py:299-345 | the boxed position exists, so the mate condition is met by a real board |
| GameHelpers.UnpromoteInvertsPromote | shogi_app/application/buckend/api/game_helpers.py:16-23 | UNPROMOTE_MAP and PROMOTE_MAP are inverse maps, and demotion changes exactly the promoted kinds |
| GameHelpers.Unpromote | shogi_app/application/buckend/api/game_helpers.py:109 | (definition) UNPROMOTE_MAP.get(k, k): a promoted kind goes back to its base kind, any other kind is kept |
| GameHelpers.UnpromoteIdempotent | shogi_app/application/buckend/api/game_helpers.py:109 | a demoted kind is never a promoted one, so demoting twice is demoting once |
| GameHelpers.SwitchSide | shogi_app/application/buckend/api/game_helpers.py:103-104 | the result is the other side |
| GameHelpers.SwitchSideInvolutive | shogi_app/application/buckend/api/game_helpers.py:103-104 | switching twice gives the side back, and switching is symmetric |
| GameHelpers.BuildCheckStatus | shogi_app/application/buckend/api/game_helpers.py:46-50 | each side's entry is whether that side is in check |
| GameHelpers.BuildCheckmateStatus | shogi_app/application/buckend/api/game_helpers.py:54-58 | each side's entry is the checkmate verdict with hands, and a mated side is in check |
| GameHelpers.BuildGameStatus | shogi_app/application/buckend/api/game_helpers.py:62-72 | ended exactly when a side is mated, then with a winner and reason checkmate; the winner is the other side of upper if upper is mated, else of lower; ongoing has no reason |
| GameHelpers.WinnerNotMated | shogi_app/application/buckend/api/game_helpers.py:62-72 | the winner's opponent was mated, and a winner that was itself mated can only be lower, when both sides were |
| GameHelpers.Row | shogi_app/application/buckend/api/game_helpers.py:32-33 | (proof helper) nine copies of the cell |
| GameHelpers.BackRow | shogi_app/application/buckend/api/game_helpers.py:29 | (proof helper) the side's back rank, lance to lance |
| GameHelpers.CreateInitialBoard | shogi_app/application/buckend/api/game_helpers.py:27-37 | every square holds its opening cell |
| GameHelpers.Rotate | shogi_app/application/buckend/api/game_helpers.py:27-37 | (proof helper) a half turn keeps a square on the board |
| GameHelpers.InitialSymmetric | shogi_app/application/buckend/api/game_helpers.py:27-37 | the opening is unchanged by a half turn with the sides swapped |
| GameHelpers.InitialKings | shogi_app/application/buckend/api/game_helpers.py:27-37 | exactly one upper king, at (8, 4), and one lower king, at (0, 4), and these are the squares find_king_position returns |
| GameHelpers.InitialNoNifu | shogi_app/application/buckend/api/game_helpers.py:32-33 | the opening has at most one pawn of each side per file |
| GameHelpers.ExpandLegalMoves | shogi_app/application/buckend/api/game_helpers.py:84-99 | the loop appends the promotion options of each move, in the order of the moves |
| GameHelpers.OptionsOfShape | shogi_app/application/buckend/api/game_helpers.py:87-98 | one move gives promotion alone when forced, not promoting then promoting when promotion is merely allowed, not promoting otherwise; each option keeps the move's square and tag |
| GameHelpers.ExpandedLength | shogi_app/application/buckend/api/game_helpers.py:84-99 | n moves expand to between n and 2n options |
| GameHelpers.ExpandedSound | shogi_app/application/buckend/api/game_helpers.py:84-99 | every option promotes only a promotable piece in its zone, and never leaves a forced piece unpromoted |
| GameHelpers.LiveHands.AddCapturedToHands | shogi_app/application/buckend/api/game_helpers.py:108-113 | exactly one piece, the demoted kind of the captured piece in the mover's case, is appended to the mover's hand; the other hand is unchanged; well-formed hands stay well-formed |
| GameHelpers.LiveBoard.SyncBoard | shogi_app/application/buckend/api/game_helpers.py:117-119 | every row of the live board becomes the matching row of the new board |
| GameHelpers.IsDropCheckmate | shogi_app/application/buckend/api/game_helpers.py:123-127 | true exactly when the mover's opponent is mated on the new board, hands consulted; a true answer implies check |
| GameHelpers.IsUchifuzumeAllowed | shogi_app/application/buckend/api/game_helpers.py:131-134 | refused exactly for a pawn drop that mates the opponent; any other kind, or a drop that gives no check, is allowed |
| GameHelpers.Message | shogi_app/application/buckend/api/game_helpers.py:145-164 | every violation has a non-empty message |
| GameHelpers.MessagesDistinct | shogi_app/application/buckend/api/game_helpers.py:145-164 | different violations have different messages |
| GameHelpers.ValidateDropConstraints | shogi_app/application/buckend/api/game_helpers.py:138-165 | no violation exactly when _can_drop_piece allows the drop; otherwise the first violated check in the order empty, nifu, pawn/lance last rank, knight last two ranks |
| FrontendHelpers.LabelsDistinct | shogi_app/application/frontend/src/utils/gameHelpers.js:4-8 | (proof helper) the three labels are different |
| FrontendHelpers.SideLabel | shogi_app/application/frontend/src/utils/gameHelpers.js:4-8 | 先手 exactly for upper, 後手 exactly for lower, なし exactly for no side |
| FrontendHelpers.HandCounts | shogi_app/application/frontend/src/utils/gameHelpers.js:11-17 | the keys are exactly the pieces of the hand, each counted with its number of occurrences; a missing hand counts as empty |
| FrontendHelpers.KeysExact | shogi_app/application/frontend/src/utils/gameHelpers.js:11-17 | the keys in first-occurrence order are distinct and are exactly the pieces of the hand |
| FrontendHelpers.CountDistinct | shogi_app/application/frontend/src/utils/gameHelpers.js:11-17 | (proof helper) a piece occurs once in a list without repetition exactly when it is in it |
| FrontendHelpers.SumOverAdd | shogi_app/application/frontend/src/utils/gameHelpers.js:13-15 | (proof helper) adding one piece to the tally adds its count over the keys |
| FrontendHelpers.SumOverKeys | shogi_app/application/frontend/src/utils/gameHelpers.js:13-15 | the multiplicities over the distinct pieces add up to the hand's length |
| FrontendHelpers.SumCountsIsSumOver | shogi_app/application/frontend/src/utils/gameHelpers.js:11-17 | (proof helper) summing the counts over any keys sums the multiplicities |
| FrontendHelpers.HandCountsTotal | shogi_app/application/frontend/src/utils/gameHelpers.js:11-17 | the counts have exactly the hand's pieces as keys and add up to the hand's length |
| FrontendHelpers.RowMajorAppend | shogi_app/application/frontend/src/utils/gameHelpers.js:34-35 | (proof helper) joining two row-major lists, the first wholly before the second, is row-major |
| FrontendHelpers.RowTargetsExact | shogi_app/application/frontend/src/utils/gameHelpers.js:35-59 | one row's targets are in order and are exactly the allowed drop squares of that row left of the column |
| FrontendHelpers.TargetsBeforeExact | shogi_app/application/frontend/src/utils/gameHelpers.js:34-61 | the targets above a row are in row-major order and are exactly the allowed drop squares above it |
| FrontendHelpers.DropTargetsExact | shogi_app/application/frontend/src/utils/gameHelpers.js:27-63 | the targets are in row-major order without repetition, and a square is listed exactly when _can_drop_piece allows the drop (empty, no own pawn in the file for a pawn, not a dead rank) |
| FrontendHelpers.RowDropTargets | shogi_app/application/frontend/src/utils/gameHelpers.js:35-60 | the inner loop lists one row's drop targets |
| FrontendHelpers.ComputeDropTargets | shogi_app/application/frontend/src/utils/gameHelpers.js:27-63 | no targets for a missing piece; otherwise exactly the drop targets of the piece's kind for the side to move |

## Left out

- GameHelpers.ValidateDropConstraints: requires an on-board target. The
  source indexes the board without a bounds check, so an off-board index
  raises or, when negative, wraps around in Python. This model does not
  reproduce either behaviour.
- GameHelpers.SwitchSide: defined on the two sides only. In the source,
  any string other than "upper" maps to "upper".
- GameHelpers.LiveHands.AddCapturedToHands: requires the mover's hand to
  exist, where the source raises a KeyError. A captured "EMPTY" marker
  (a capture tag on an empty square) cannot be expressed, because the
  captured value is a piece.
- GameHelpers.LiveBoard.SyncBoard: rows are values, so the aliasing
  between the live board's row lists and the new board's is not modelled.
  Hands are likewise a map of values rather than shared lists.
- FrontendHelpers.ComputeDropTargets: targets are squares, not the
  source's "row,col" strings. A falsy piece (null, undefined, "") is
  modelled as a missing piece.
- FrontendHelpers.HandCounts: the answer is a map from pieces to counts.
  The JavaScript object's string keys and their key order are described
  by `Keys`, not by the map.
- FrontendHelpers.SideLabel: the argument is an optional side. Any value
  other than "upper" or "lower" is the missing side.
- Checkmate.CanEscapeByDrop: a hand is a sequence of pieces. The source
  re-cases each code to the defender's case, so only its kind matters,
  and the model uses that kind.
- `get_piece_type`, `move_piece`, `_piece_directions` and `move_list` in
  `pieces.py` are table lookups. The model uses the tables directly
  (`PieceType`, `Vector`, `BaseMoveDirections`).
- Piece codes outside the 14 known kinds, or in mixed case, cannot occur,
  because piece strings are modelled as `Piece(side, kind)`. The source
  would raise a KeyError or misclassify them.
- `parse_position` and `is_board_payload` (JSON payload shaping) are not
  part of this model. Neither is `getPieceImageSrc` (image paths).
- The Flask application `app.py`, the React UI, the network client and
  the constants file are not part of this model.
- validate_drop_constraints does not check that the target is on the
  board. `_can_drop_piece` does check it, and the server checks
  `is_on_board` before it validates a drop
  (shogi_app/application/buckend/api/app.py:144).
