/**
 * The client-side helpers of gameHelpers.js: the label of the side to
 * move, the tally of a hand by piece, and the squares on which a hand piece
 * may be dropped.
 */
module FrontendHelpers {
  import opened Wrappers
  import opened Catalog
  import opened BoardModel
  import opened Drops

  // ===== sideLabel =====

  /** sideLabel: "先手" for upper, "後手" for lower, "なし" for anything
      else (None). */
  lemma LabelsDistinct()
    ensures "先手" != "後手" && "先手" != "なし" && "後手" != "なし"
  {
    assert "先手"[0] != "後手"[0] && "先手"[0] != "なし"[0] && "後手"[0] != "なし"[0];
  }

  function SideLabel(side: Option<Side>): (text: string)
    ensures text == "先手" <==> side == Some(Upper)
    ensures text == "後手" <==> side == Some(Lower)
    ensures text == "なし" <==> side.None?
  {
    LabelsDistinct();
    match side
    case Some(Upper) => "先手"
    case Some(Lower) => "後手"
    case None => "なし"
  }

  // ===== handCounts =====

  /** `counts` has a key exactly for each piece occurring in `items`, and
      the number of times it occurs as its value. */
  ghost predicate CountsOf(counts: map<Piece, nat>, items: seq<Piece>)
  {
    forall p :: (p in counts <==> p in items) && (p in counts ==> counts[p] == multiset(items)[p])
  }

  /** The elements of `arr || []`. */
  function ItemsOf(arr: Option<seq<Piece>>): seq<Piece>
  {
    if arr.Some? then arr.value else []
  }

  /** handCounts: one pass over the hand, adding one to the piece's count. */
  method HandCounts(arr: Option<seq<Piece>>) returns (counts: map<Piece, nat>)
    ensures CountsOf(counts, ItemsOf(arr))
  {
    var items := ItemsOf(arr);
    counts := map[];
    for i := 0 to |items|
      invariant CountsOf(counts, items[..i])
    {
      var piece := items[i];
      assert items[..i + 1] == items[..i] + [piece];
      counts := counts[piece := (if piece in counts then counts[piece] else 0) + 1];
    }
    assert items[..|items|] == items;
  }

  /** The number of times `x` occurs in `xs`. */
  function Count(x: Piece, xs: seq<Piece>): nat
  {
    if xs == [] then 0 else Count(x, xs[..|xs| - 1]) + (if xs[|xs| - 1] == x then 1 else 0)
  }

  /** The distinct pieces of `items` in order of first occurrence: the keys
      of handCounts' answer, in the order the object lists them. */
  function Keys(items: seq<Piece>): seq<Piece>
  {
    if items == [] then []
    else
      var keys := Keys(items[..|items| - 1]);
      if items[|items| - 1] in keys then keys else keys + [items[|items| - 1]]
  }

  predicate Distinct(xs: seq<Piece>)
  {
    forall i, j | 0 <= i < j < |xs| :: xs[i] != xs[j]
  }

  lemma {:induction false} KeysExact(items: seq<Piece>)
    ensures Distinct(Keys(items))
    ensures forall x :: x in Keys(items) <==> x in items
  {
    if items != [] {
      var init := items[..|items| - 1];
      KeysExact(init);
      assert items == init + [items[|items| - 1]];
    }
  }

  lemma {:induction false} CountDistinct(x: Piece, xs: seq<Piece>)
    requires Distinct(xs)
    ensures Count(x, xs) == if x in xs then 1 else 0
  {
    if xs != [] {
      var init := xs[..|xs| - 1];
      CountDistinct(x, init);
      assert xs == init + [xs[|xs| - 1]];
    }
  }

  /** The sum of the counts of the pieces `keys` (0 for a missing key). */
  function SumCounts(counts: map<Piece, nat>, keys: seq<Piece>): nat
  {
    if keys == [] then 0
    else SumCounts(counts, keys[..|keys| - 1]) + (if keys[|keys| - 1] in counts then counts[keys[|keys| - 1]] else 0)
  }

  /** The sum of the multiplicities in `m` of the pieces `keys`. */
  function SumOver(m: multiset<Piece>, keys: seq<Piece>): nat
  {
    if keys == [] then 0 else SumOver(m, keys[..|keys| - 1]) + m[keys[|keys| - 1]]
  }

  lemma {:induction false} SumOverAdd(m: multiset<Piece>, x: Piece, keys: seq<Piece>)
    ensures SumOver(m + multiset{x}, keys) == SumOver(m, keys) + Count(x, keys)
  {
    if keys != [] {
      SumOverAdd(m, x, keys[..|keys| - 1]);
    }
  }

  /** Summing the multiplicities over the distinct pieces gives the length. */
  lemma {:induction false} SumOverKeys(items: seq<Piece>)
    ensures SumOver(multiset(items), Keys(items)) == |items|
  {
    if items != [] {
      var init := items[..|items| - 1];
      var x := items[|items| - 1];
      assert items == init + [x];
      SumOverKeys(init);
      KeysExact(init);
      var keys := Keys(init);
      SumOverAdd(multiset(init), x, keys);
      CountDistinct(x, keys);
      if x !in keys {
        assert (keys + [x])[..|keys|] == keys;
      }
    }
  }

  lemma {:induction false} SumCountsIsSumOver(counts: map<Piece, nat>, items: seq<Piece>, keys: seq<Piece>)
    requires CountsOf(counts, items)
    ensures SumCounts(counts, keys) == SumOver(multiset(items), keys)
  {
    if keys != [] {
      var x := keys[|keys| - 1];
      SumCountsIsSumOver(counts, items, keys[..|keys| - 1]);
      assert x !in counts ==> x !in items;
    }
  }

  /** Every piece of the hand is a key of handCounts' answer, and the counts
      over its keys add up to the length of the hand. */
  lemma HandCountsTotal(counts: map<Piece, nat>, items: seq<Piece>)
    requires CountsOf(counts, items)
    ensures forall x :: x in Keys(items) <==> x in counts
    ensures SumCounts(counts, Keys(items)) == |items|
  {
    KeysExact(items);
    SumCountsIsSumOver(counts, items, Keys(items));
    SumOverKeys(items);
  }

  // ===== computeDropTargets =====

  /** The drop squares of row `row` left of column `col`, left to right. */
  function RowTargets(b: Board, side: Side, kind: Kind, row: int, col: int): seq<Pos>
    requires 0 <= row < 9 && 0 <= col <= 9
  {
    if col == 0 then []
    else
      var here := if DropAllowed(b, side, kind, Pos(row, col - 1)) then [Pos(row, col - 1)] else [];
      RowTargets(b, side, kind, row, col - 1) + here
  }

  /** The drop squares above row `row`, in row-major order. */
  function TargetsBefore(b: Board, side: Side, kind: Kind, row: int): seq<Pos>
    requires 0 <= row <= 9
  {
    if row == 0 then [] else TargetsBefore(b, side, kind, row - 1) + RowTargets(b, side, kind, row - 1, 9)
  }

  /** The squares computeDropTargets lists for a piece of `kind`. */
  function DropTargets(b: Board, side: Side, kind: Kind): seq<Pos>
  {
    TargetsBefore(b, side, kind, 9)
  }

  /** Strictly increasing in row-major order, hence without repetition. */
  predicate RowMajor(ps: seq<Pos>)
  {
    forall i, j | 0 <= i < j < |ps| :: Before(ps[i], ps[j])
  }

  lemma RowMajorAppend(xs: seq<Pos>, ys: seq<Pos>)
    requires RowMajor(xs) && RowMajor(ys)
    requires forall i, j | 0 <= i < |xs| && 0 <= j < |ys| :: Before(xs[i], ys[j])
    ensures RowMajor(xs + ys)
  {
    var zs := xs + ys;
    forall i, j | 0 <= i < j < |zs|
      ensures Before(zs[i], zs[j])
    {
      if j < |xs| {
        assert zs[i] == xs[i] && zs[j] == xs[j];
      } else if i >= |xs| {
        assert zs[i] == ys[i - |xs|] && zs[j] == ys[j - |xs|];
      } else {
        assert zs[i] == xs[i] && zs[j] == ys[j - |xs|];
      }
    }
  }

  lemma {:induction false} RowTargetsExact(b: Board, side: Side, kind: Kind, row: int, col: int)
    requires 0 <= row < 9 && 0 <= col <= 9
    ensures var ts := RowTargets(b, side, kind, row, col);
      && RowMajor(ts)
      && (forall i | 0 <= i < |ts| :: ts[i].row == row && ts[i].col < col)
      && (forall p :: p in ts <==> DropAllowed(b, side, kind, p) && p.row == row && p.col < col)
  {
    if col > 0 {
      RowTargetsExact(b, side, kind, row, col - 1);
      var prev := RowTargets(b, side, kind, row, col - 1);
      var here := if DropAllowed(b, side, kind, Pos(row, col - 1)) then [Pos(row, col - 1)] else [];
      RowMajorAppend(prev, here);
    }
  }

  lemma {:induction false} TargetsBeforeExact(b: Board, side: Side, kind: Kind, row: int)
    requires 0 <= row <= 9
    ensures var ts := TargetsBefore(b, side, kind, row);
      && RowMajor(ts)
      && (forall i | 0 <= i < |ts| :: ts[i].row < row)
      && (forall p :: p in ts <==> DropAllowed(b, side, kind, p) && p.row < row)
  {
    if row > 0 {
      TargetsBeforeExact(b, side, kind, row - 1);
      RowTargetsExact(b, side, kind, row - 1, 9);
      var prev := TargetsBefore(b, side, kind, row - 1);
      var last := RowTargets(b, side, kind, row - 1, 9);
      RowMajorAppend(prev, last);
    }
  }

  /** computeDropTargets lists exactly the squares where _can_drop_piece
      (and so validate_drop_constraints) allows the drop: empty, no own
      pawn in the file for a pawn, not a dead rank; in row-major order and
      without repetition. */
  lemma DropTargetsExact(b: Board, side: Side, kind: Kind)
    ensures RowMajor(DropTargets(b, side, kind))
    ensures forall p :: p in DropTargets(b, side, kind) <==> DropAllowed(b, side, kind, p)
  {
    TargetsBeforeExact(b, side, kind, 9);
  }

  /** The body of computeDropTargets' double loop for one row. */
  method RowDropTargets(b: Board, side: Side, kind: Kind, row: int) returns (targets: seq<Pos>)
    requires 0 <= row < 9
    ensures targets == RowTargets(b, side, kind, row, 9)
  {
    targets := [];
    for col := 0 to 9
      invariant targets == RowTargets(b, side, kind, row, col)
    {
      if b[row][col] != Empty {
        continue;
      }
      if kind == Fu {
        var hasNifu := ColumnHasOwnPawn(b, side, col);
        if hasNifu {
          continue;
        }
      }
      if kind == Fu || kind == Ky {
        if side == Upper && row == 0 {
          continue;
        }
        if side == Lower && row == 8 {
          continue;
        }
      }
      if kind == Ke {
        if side == Upper && row <= 1 {
          continue;
        }
        if side == Lower && row >= 7 {
          continue;
        }
      }
      targets := targets + [Pos(row, col)];
    }
  }

  /** computeDropTargets: nothing for a missing piece; otherwise the piece is
      re-cased for the side to move and every square is tried, row by row. */
  method ComputeDropTargets(b: Board, sideToMove: Side, piece: Option<Piece>) returns (targets: seq<Pos>)
    ensures piece.None? ==> targets == []
    ensures piece.Some? ==> targets == DropTargets(b, sideToMove, piece.value.kind)
  {
    if piece.None? {
      return [];
    }
    var handPiece := Piece(sideToMove, piece.value.kind);
    var base := handPiece.kind;
    targets := [];
    for row := 0 to 9
      invariant targets == TargetsBefore(b, sideToMove, base, row)
    {
      var rowTargets := RowDropTargets(b, sideToMove, base, row);
      targets := targets + rowTargets;
    }
  }
}
