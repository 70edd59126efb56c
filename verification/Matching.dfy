/** Best-execution selection of swap-core/dex-core/src/matching.rs, proved cheapest. */
module Matching {
  import opened Orders
  import opened Book

  datatype Pick = Pick(entry: BookEntry, take: nat)

  predicate IsSelfMatch(e: BookEntry, taker: Bytes32) {
    e.order.body.maker == taker
  }

  /** What the taker may hit of an entry: all of it, or nothing of its own. */
  function Cap(e: BookEntry, taker: Bytes32): nat {
    if IsSelfMatch(e, taker) then 0 else e.order.body.amount
  }

  /** All that other makers offer. */
  function Depth(es: seq<BookEntry>, taker: Bytes32): nat {
    if es == [] then 0
    else (if es[0].order.body.maker != taker then es[0].order.body.amount else 0) + Depth(es[1..], taker)
  }

  function Least(a: nat, b: nat): nat { if a < b then a else b }

  // ---------- fills: how much to take of each entry of a side ----------

  function Total(fill: seq<nat>): nat {
    if fill == [] then 0 else fill[0] + Total(fill[1..])
  }

  /** What a fill trades on the other side: the sum of rate times amount taken. */
  function Cost(es: seq<BookEntry>, fill: seq<nat>): nat
    requires |es| == |fill|
  {
    if es == [] then 0 else Rate(es[0]) * fill[0] + Cost(es[1..], fill[1..])
  }

  /** Respects the order sizes and skips the taker's own orders. */
  predicate Feasible(es: seq<BookEntry>, taker: Bytes32, fill: seq<nat>) {
    |fill| == |es| && forall i :: 0 <= i < |es| ==>
      fill[i] <= es[i].order.body.amount && (es[i].order.body.maker == taker ==> fill[i] == 0)
  }

  // ---------- the greedy walk ----------

  /** What the walk takes of each entry: as much as is there until the amount is filled. */
  function Walk(es: seq<BookEntry>, amount: nat, taker: Bytes32): (fill: seq<nat>)
    ensures |fill| == |es|
  {
    if es == [] then []
    else
      var take := Least(amount, Cap(es[0], taker));
      [take] + Walk(es[1..], amount - take, taker)
  }

  lemma {:induction false} WalkFills(es: seq<BookEntry>, amount: nat, taker: Bytes32)
    ensures Feasible(es, taker, Walk(es, amount, taker))
    ensures Total(Walk(es, amount, taker)) == Least(amount, Depth(es, taker))
  {
    if es != [] {
      WalkFills(es[1..], amount - Least(amount, Cap(es[0], taker)), taker);
    }
  }

  lemma {:induction false} WalkOfNothing(es: seq<BookEntry>, taker: Bytes32)
    ensures forall i :: 0 <= i < |es| ==> Walk(es, 0, taker)[i] == 0
  {
    if es != [] {
      WalkOfNothing(es[1..], taker);
    }
  }

  /** The walk leaves an entry short only when nothing is taken after it. */
  lemma {:induction false} WalkIsGreedy(es: seq<BookEntry>, amount: nat, taker: Bytes32, i: nat, j: nat)
    requires i < j < |es| && Walk(es, amount, taker)[j] > 0
    ensures Walk(es, amount, taker)[i] == Cap(es[i], taker)
  {
    var left := amount - Least(amount, Cap(es[0], taker));
    if i > 0 {
      WalkIsGreedy(es[1..], left, taker, i - 1, j - 1);
    } else if left == 0 {
      WalkOfNothing(es[1..], taker);
    }
  }

  // ---------- optimality ----------

  /** Cost measured against a threshold rate. */
  function Weighted(es: seq<BookEntry>, fill: seq<nat>, threshold: nat): int
    requires |es| == |fill|
  {
    if es == [] then 0 else (Rate(es[0]) - threshold) * fill[0] + Weighted(es[1..], fill[1..], threshold)
  }

  lemma Distribute(rate: nat, threshold: nat, a: nat, t: nat)
    ensures (rate - threshold) * a == rate * a - threshold * a
    ensures threshold * (a + t) == threshold * a + threshold * t
  {
  }

  lemma {:induction false} WeightedIs(es: seq<BookEntry>, fill: seq<nat>, threshold: nat)
    requires |es| == |fill|
    ensures Weighted(es, fill, threshold) == Cost(es, fill) - threshold * Total(fill)
  {
    if es != [] {
      WeightedIs(es[1..], fill[1..], threshold);
      Distribute(Rate(es[0]), threshold, fill[0], Total(fill[1..]));
    }
  }

  lemma Sign(d: int, g: nat, o: nat)
    ensures d <= 0 && g >= o ==> d * g <= d * o
    ensures d >= 0 && g <= o ==> d * g <= d * o
    ensures d >= 0 && g >= o ==> d * g >= d * o
    ensures d <= 0 && g <= o ==> d * g >= d * o
  {
  }

  predicate Better(side: Side, rate: nat, threshold: nat) {
    if side == SellXno then rate < threshold else rate > threshold
  }

  predicate Worse(side: Side, rate: nat, threshold: nat) {
    Better(side, threshold, rate)
  }

  /** Entry by entry, `walk` takes at least as much at better rates than the threshold and at
      most as much at worse ones. */
  predicate Favours(es: seq<BookEntry>, side: Side, walk: seq<nat>, other: seq<nat>, threshold: nat)
    requires |es| == |walk| == |other|
  {
    forall i :: 0 <= i < |es| ==>
      && (Better(side, Rate(es[i]), threshold) ==> walk[i] >= other[i])
      && (Worse(side, Rate(es[i]), threshold) ==> walk[i] <= other[i])
  }

  lemma {:induction false} WeightedBeats(es: seq<BookEntry>, side: Side, walk: seq<nat>, other: seq<nat>,
                                         threshold: nat)
    requires |es| == |walk| == |other| && Favours(es, side, walk, other, threshold)
    ensures side == SellXno ==> Weighted(es, walk, threshold) <= Weighted(es, other, threshold)
    ensures side == SellXmr ==> Weighted(es, walk, threshold) >= Weighted(es, other, threshold)
  {
    if es != [] {
      assert Favours(es[1..], side, walk[1..], other[1..], threshold) by {
        forall i | 0 <= i < |es| - 1
          ensures Better(side, Rate(es[1..][i]), threshold) ==> walk[1..][i] >= other[1..][i]
          ensures Worse(side, Rate(es[1..][i]), threshold) ==> walk[1..][i] <= other[1..][i]
        {
          assert es[1..][i] == es[i + 1];
        }
      }
      WeightedBeats(es[1..], side, walk[1..], other[1..], threshold);
      Sign(Rate(es[0]) - threshold, walk[0], other[0]);
    }
  }

  predicate PriceOrdered(es: seq<BookEntry>, side: Side) {
    forall i, j :: 0 <= i < j < |es| ==> NoWorse(side, es[i], es[j])
  }

  /** The last entry a fill touches. */
  lemma {:induction false} LastTaken(fill: seq<nat>) returns (k: nat)
    requires Total(fill) > 0
    ensures k < |fill| && fill[k] > 0
    ensures forall i :: k < i < |fill| ==> fill[i] == 0
  {
    if Total(fill[1..]) > 0 {
      var j := LastTaken(fill[1..]);
      k := j + 1;
      forall i | k < i < |fill| ensures fill[i] == 0 {
        assert fill[i] == fill[1..][i - 1];
      }
    } else {
      k := 0;
      ZeroTotal(fill[1..]);
      forall i | 0 < i < |fill| ensures fill[i] == 0 {
        assert fill[i] == fill[1..][i - 1];
      }
    }
  }

  lemma {:induction false} ZeroTotal(fill: seq<nat>)
    requires Total(fill) == 0
    ensures forall i :: 0 <= i < |fill| ==> fill[i] == 0
  {
    if fill != [] {
      ZeroTotal(fill[1..]);
      forall i | 0 < i < |fill| ensures fill[i] == 0 {
        assert fill[i] == fill[1..][i - 1];
      }
    }
  }

  /** At the rate of the last entry it touches, the walk is favourable against any fill. */
  lemma WalkIsFavourable(es: seq<BookEntry>, side: Side, amount: nat, taker: Bytes32, other: seq<nat>)
    returns (threshold: nat)
    requires PriceOrdered(es, side) && Feasible(es, taker, other)
    requires Total(Walk(es, amount, taker)) > 0
    ensures Favours(es, side, Walk(es, amount, taker), other, threshold)
  {
    var walk := Walk(es, amount, taker);
    WalkFills(es, amount, taker);
    var k := LastTaken(walk);
    threshold := Rate(es[k]);
    forall i | 0 <= i < k ensures walk[i] == Cap(es[i], taker) && NoWorse(side, es[i], es[k]) {
      WalkIsGreedy(es, amount, taker, i, k);
    }
  }

  /** CHEAPEST FILL.  Among all fills of the same total that respect the order sizes and skip
      the taker's own orders, the walk pays the least (or, against XMR sellers, gets the most). */
  lemma WalkIsBest(es: seq<BookEntry>, side: Side, amount: nat, taker: Bytes32, other: seq<nat>)
    requires PriceOrdered(es, side) && Feasible(es, taker, other)
    requires Total(other) == Total(Walk(es, amount, taker))
    ensures side == SellXno ==> Cost(es, Walk(es, amount, taker)) <= Cost(es, other)
    ensures side == SellXmr ==> Cost(es, Walk(es, amount, taker)) >= Cost(es, other)
  {
    var walk := Walk(es, amount, taker);
    if Total(walk) == 0 {
      ZeroTotal(walk);
      ZeroTotal(other);
      assert walk == other;
    } else {
      var threshold := WalkIsFavourable(es, side, amount, taker, other);
      WeightedBeats(es, side, walk, other, threshold);
      WeightedIs(es, walk, threshold);
      WeightedIs(es, other, threshold);
    }
  }

  // ---------- the walk as the source does it ----------

  /** The picks of a fill: what it takes of the entries that are not the taker's own, up to
      the point where nothing is left to take. */
  function Picks(es: seq<BookEntry>, amount: nat, taker: Bytes32): seq<Pick> {
    if es == [] || amount == 0 then []
    else if IsSelfMatch(es[0], taker) then Picks(es[1..], amount, taker)
    else
      var take := Least(amount, es[0].order.body.amount);
      [Pick(es[0], take)] + Picks(es[1..], amount - take, taker)
  }

  function TakenOf(picks: seq<Pick>, e: BookEntry): nat {
    if picks == [] then 0 else (if picks[0].entry == e then picks[0].take else 0) + TakenOf(picks[1..], e)
  }

  /** What the picks trade on the other side, and how much they take. */
  function PickCost(picks: seq<Pick>): nat {
    if picks == [] then 0 else Rate(picks[0].entry) * picks[0].take + PickCost(picks[1..])
  }

  function PickTotal(picks: seq<Pick>): nat {
    if picks == [] then 0 else picks[0].take + PickTotal(picks[1..])
  }

  lemma {:induction false} FreeOfNothing(es: seq<BookEntry>, taker: Bytes32)
    ensures Cost(es, Walk(es, 0, taker)) == 0 && Total(Walk(es, 0, taker)) == 0
  {
    if es != [] {
      FreeOfNothing(es[1..], taker);
    }
  }

  /** The list of picks costs and takes what the walk does. */
  lemma {:induction false} PicksCostTheWalk(es: seq<BookEntry>, amount: nat, taker: Bytes32)
    ensures PickCost(Picks(es, amount, taker)) == Cost(es, Walk(es, amount, taker))
    ensures PickTotal(Picks(es, amount, taker)) == Total(Walk(es, amount, taker))
  {
    if amount == 0 {
      FreeOfNothing(es, taker);
    } else if es != [] {
      PicksCostTheWalk(es[1..], amount - Least(amount, Cap(es[0], taker)), taker);
    }
  }

  /** The picks are the walk: of every entry of a side they take what the walk does. */
  lemma {:induction false} PicksAreTheWalk(es: seq<BookEntry>, amount: nat, taker: Bytes32, i: nat)
    requires forall k, l :: 0 <= k < l < |es| ==> es[k] != es[l]
    requires i < |es|
    ensures TakenOf(Picks(es, amount, taker), es[i]) == Walk(es, amount, taker)[i]
    ensures forall p <- Picks(es, amount, taker) :: p.entry in es && !IsSelfMatch(p.entry, taker)
  {
    PicksAreFrom(es, amount, taker);
    if amount == 0 {
      WalkOfNothing(es, taker);
    } else {
      var left := amount - Least(amount, Cap(es[0], taker));
      PicksAreFrom(es[1..], left, taker);
      if i == 0 {
        NotTaken(Picks(es[1..], left, taker), es[0], es[1..]);
      } else {
        PicksAreTheWalk(es[1..], left, taker, i - 1);
      }
    }
  }

  lemma {:induction false} PicksAreFrom(es: seq<BookEntry>, amount: nat, taker: Bytes32)
    ensures forall p <- Picks(es, amount, taker) ::
              && p.entry in es && p.entry.order.body.maker != taker && p.take <= p.entry.order.body.amount
              && (p.entry.order.body.amount > 0 ==> p.take > 0)
  {
    if es != [] && amount > 0 {
      PicksAreFrom(es[1..], amount - Least(amount, Cap(es[0], taker)), taker);
    }
  }

  lemma {:induction false} NotTaken(picks: seq<Pick>, e: BookEntry, es: seq<BookEntry>)
    requires e !in es && forall p <- picks :: p.entry in es
    ensures TakenOf(picks, e) == 0
  {
    if picks != [] { NotTaken(picks[1..], e, es); }
  }

  lemma SidePicks(entries: seq<BookEntry>, side: Side, wanted: nat, taker: Bytes32)
    requires Sorted(entries)
    ensures var es := SideView(entries, side);
            && PriceOrdered(es, side)
            && (forall i :: 0 <= i < |es| ==> TakenOf(Picks(es, wanted, taker), es[i]) == Walk(es, wanted, taker)[i])
            && Total(Walk(es, wanted, taker)) == Least(wanted, Depth(es, taker))
            && PickTotal(Picks(es, wanted, taker)) == Total(Walk(es, wanted, taker))
            && PickCost(Picks(es, wanted, taker)) == Cost(es, Walk(es, wanted, taker))
  {
    var es := SideView(entries, side);
    PicksCostTheWalk(es, wanted, taker);
    BestFirst(entries, side);
    WalkFills(es, wanted, taker);
    forall i | 0 <= i < |es| ensures TakenOf(Picks(es, wanted, taker), es[i]) == Walk(es, wanted, taker)[i] {
      PicksAreTheWalk(es, wanted, taker, i);
    }
  }

  /** No allocation of the same total is better. */
  ghost predicate Unbeaten(es: seq<BookEntry>, side: Side, taker: Bytes32, picks: seq<Pick>) {
    forall fill :: Feasible(es, taker, fill) && Total(fill) == PickTotal(picks) ==>
      if side == SellXno then PickCost(picks) <= Cost(es, fill) else PickCost(picks) >= Cost(es, fill)
  }

  lemma PicksAreBest(es: seq<BookEntry>, side: Side, wanted: nat, taker: Bytes32)
    requires PriceOrdered(es, side)
    ensures Unbeaten(es, side, taker, Picks(es, wanted, taker))
  {
    var picks := Picks(es, wanted, taker);
    PicksCostTheWalk(es, wanted, taker);
    forall fill | Feasible(es, taker, fill) && Total(fill) == PickTotal(picks)
      ensures if side == SellXno then PickCost(picks) <= Cost(es, fill) else PickCost(picks) >= Cost(es, fill)
    {
      WalkIsBest(es, side, wanted, taker, fill);
    }
  }

  /** `select_for_amount` over a book's side: the returned list fills what can be filled, and
      no allocation of the same total is better. */
  method SelectForAmount(book: OrderBook, side: Side, wanted: nat, taker: Bytes32) returns (picks: seq<Pick>)
    requires book.Valid()
    ensures var es := SideView(book.entries, side);
            && picks == Picks(es, wanted, taker)
            && PriceOrdered(es, side)
            && (forall i :: 0 <= i < |es| ==> TakenOf(picks, es[i]) == Walk(es, wanted, taker)[i])
            && PickTotal(picks) == Least(wanted, Depth(es, taker))
            && PickCost(picks) == Cost(es, Walk(es, wanted, taker))
    ensures Unbeaten(SideView(book.entries, side), side, taker, picks)
    ensures forall p <- picks ::
              && p.entry in book.entries && p.entry.order.body.side == side && p.entry.order.body.maker != taker
              && 0 < p.take <= p.entry.order.body.amount
  {
    var es := book.ListSide(side);
    picks := [];
    var amount := wanted;
    for i := 0 to |es|
      invariant 0 <= amount
      invariant Picks(es, wanted, taker) == picks + Picks(es[i..], amount, taker)
    {
      if amount == 0 { break; }
      assert es[i..][1..] == es[i + 1..];
      var e := es[i];
      if IsSelfMatch(e, taker) {
        continue;
      }
      var take := if amount < e.order.body.amount then amount else e.order.body.amount;
      picks := picks + [Pick(e, take)];
      amount := amount - take;
    }
    assert picks == Picks(es, wanted, taker);
    SidePicks(book.entries, side, wanted, taker);
    PicksAreBest(es, side, wanted, taker);
    PicksAreFrom(es, wanted, taker);
    BestFirst(book.entries, side);
  }
}
