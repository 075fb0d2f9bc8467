/** The orders a rebalance issues, as a list of intents in the order the
    strategy issues them: one close per open position, then one buy per
    selected stock, each sized to an equal `1 / top_quintile` share of the
    portfolio value. */
module Orders {
  import opened Lists
  import opened Ranking

  /** One entry of the broker's position book: a data feed and the number of
      shares held (negative for a short position). */
  datatype Holding = Holding(asset: Asset, size: int)

  /** What the strategy asks of the broker: `self.close(d)` or
      `self.buy(d, size=size)`. */
  datatype Intent = Close(asset: Asset) | Buy(asset: Asset, size: int)

  predicate IsOpen(h: Holding)
  {
    h.size > 0
  }

  /** `open_positions`: the book's entries with a positive size, in book order. */
  function OpenPositions(positions: seq<Holding>): (r: seq<Holding>)
    ensures |r| <= |positions|
    ensures forall i :: 0 <= i < |r| ==> r[i] in positions && r[i].size > 0
    ensures forall i :: 0 <= i < |positions| && positions[i].size > 0 ==> positions[i] in r
  {
    Filter(IsOpen, positions)
  }

  /** Python's `int(x)` on a float: truncation toward zero. */
  function TruncToInt(x: real): (n: int)
    ensures 0.0 <= x ==> n as real <= x < n as real + 1.0
    ensures x < 0.0 ==> n as real - 1.0 < x <= n as real
  {
    if x >= 0.0 then x.Floor else -((-x).Floor)
  }

  /** `weight = 1 / top_quintile`: the share of the portfolio value each
      selected stock receives. */
  function Weight(topQuintile: nat): (w: real)
    requires topQuintile >= 1
    ensures 0.0 < w <= 1.0
  {
    1.0 / topQuintile as real
  }

  /** `int(portfolio_value * weight / d.close[0])`. */
  function BuySize(portfolioValue: real, weight: real, close: real): (n: int)
    requires close != 0.0
    ensures 0.0 <= portfolioValue * weight / close ==>
      0 <= n && n as real <= portfolioValue * weight / close < n as real + 1.0
  {
    TruncToInt(portfolioValue * weight / close)
  }

  lemma ProductNonNeg(a: real, b: real)
    requires a >= 0.0 && b >= 0.0
    ensures a * b >= 0.0
  {
  }

  lemma QuotientTimes(s: real, c: real)
    requires s >= 0.0 && c > 0.0
    ensures s / c >= 0.0 && s / c * c == s
  {
  }

  lemma ScaleLe(a: real, b: real, c: real)
    requires c > 0.0 && a <= b
    ensures a * c <= b * c
  {
  }

  lemma ScaleLt(a: real, b: real, c: real)
    requires c > 0.0 && a < b
    ensures a * c < b * c
  {
  }

  /** With a non-negative value and a positive close, `int()` is the floor:
      the size is the floor of `value * weight / close`, it is not negative,
      and buying it costs at most `value * weight`. */
  lemma BuySizeBounds(portfolioValue: real, weight: real, close: real)
    requires weight > 0.0 && close > 0.0 && portfolioValue >= 0.0
    ensures BuySize(portfolioValue, weight, close) == (portfolioValue * weight / close).Floor
    ensures 0 <= BuySize(portfolioValue, weight, close)
    ensures BuySize(portfolioValue, weight, close) as real * close <= portfolioValue * weight
    ensures portfolioValue * weight < (BuySize(portfolioValue, weight, close) + 1) as real * close
  {
    var share := portfolioValue * weight;
    var n := BuySize(portfolioValue, weight, close);
    assert n == TruncToInt(share / close);
    assert share >= 0.0 by {
      ProductNonNeg(portfolioValue, weight);
    }
    assert share / close >= 0.0 && share / close * close == share by {
      QuotientTimes(share, close);
    }
    assert n as real * close <= share / close * close by {
      ScaleLe(n as real, share / close, close);
    }
    assert share / close < (n + 1) as real;
    assert share / close * close < (n + 1) as real * close by {
      ScaleLt(share / close, (n + 1) as real, close);
    }
    assert share < (n + 1) as real * close;
  }

  lemma WeightQuotient(portfolioValue: real, topQuintile: nat, close: real)
    requires topQuintile >= 1 && close > 0.0
    ensures portfolioValue * Weight(topQuintile) / close == portfolioValue / (topQuintile as real * close)
    ensures portfolioValue * Weight(topQuintile) == portfolioValue / topQuintile as real
  {
  }

  /** The size bought is `floor(value / (top_quintile * close))`: the largest
      whole number of shares whose cost fits in one `1 / top_quintile` share
      of the value, and never negative. */
  lemma BuySizeIsFloor(portfolioValue: real, topQuintile: nat, close: real)
    requires topQuintile >= 1 && close > 0.0 && portfolioValue >= 0.0
    ensures BuySize(portfolioValue, Weight(topQuintile), close)
         == (portfolioValue / (topQuintile as real * close)).Floor
    ensures 0 <= BuySize(portfolioValue, Weight(topQuintile), close)
    ensures BuySize(portfolioValue, Weight(topQuintile), close) as real * close
         <= portfolioValue / topQuintile as real
    ensures portfolioValue / topQuintile as real
         < (BuySize(portfolioValue, Weight(topQuintile), close) + 1) as real * close
  {
    BuySizeBounds(portfolioValue, Weight(topQuintile), close);
    WeightQuotient(portfolioValue, topQuintile, close);
  }

  /** One close per open position, in book order. */
  function CloseIntents(open: seq<Holding>): (r: seq<Intent>)
    ensures |r| == |open|
    ensures forall i :: 0 <= i < |r| ==> r[i] == Close(open[i].asset)
  {
    seq(|open|, i requires 0 <= i < |open| => Close(open[i].asset))
  }

  /** Every stock has a non-zero close, so a buy can be sized for it. */
  predicate ClosesNonZero(stocks: seq<Stock>)
  {
    forall i :: 0 <= i < |stocks| ==> stocks[i].close != 0.0
  }

  /** One buy per selected stock, in ranking order. */
  function BuyIntents(selected: seq<Stock>, portfolioValue: real, topQuintile: nat): (r: seq<Intent>)
    requires topQuintile >= 1
    requires ClosesNonZero(selected)
    ensures |r| == |selected|
    ensures forall i :: 0 <= i < |r| ==>
      r[i] == Buy(selected[i].asset, BuySize(portfolioValue, Weight(topQuintile), selected[i].close))
  {
    seq(|selected|, i requires 0 <= i < |selected| =>
      Buy(selected[i].asset, BuySize(portfolioValue, Weight(topQuintile), selected[i].close)))
  }

  /** Closing one more position appends its close. */
  lemma CloseIntentsSnoc(open: seq<Holding>, i: nat)
    requires i < |open|
    ensures CloseIntents(open[..i + 1]) == CloseIntents(open[..i]) + [Close(open[i].asset)]
  {
  }

  /** Buying one more selected stock appends its buy. */
  lemma BuyIntentsSnoc(selected: seq<Stock>, i: nat, portfolioValue: real, topQuintile: nat)
    requires topQuintile >= 1 && ClosesNonZero(selected) && i < |selected|
    ensures ClosesNonZero(selected[..i]) && ClosesNonZero(selected[..i + 1])
    ensures BuyIntents(selected[..i + 1], portfolioValue, topQuintile)
         == BuyIntents(selected[..i], portfolioValue, topQuintile)
            + [Buy(selected[i].asset, BuySize(portfolioValue, Weight(topQuintile), selected[i].close))]
  {
  }

  /** What `rebalance` demands of its inputs: a positive `top_quintile`, and a
      non-zero close for every stock it sizes a buy for. */
  predicate CanRebalance(stocks: seq<Stock>, topQuintile: nat)
  {
    topQuintile >= 1 && ClosesNonZero(Selected(stocks, topQuintile))
  }

  /** The intents one rebalance issues: close every open position, then buy
      the first `top_quintile` ranked stocks. */
  function RebalanceIntents(stocks: seq<Stock>, positions: seq<Holding>, portfolioValue: real, topQuintile: nat): (r: seq<Intent>)
    requires CanRebalance(stocks, topQuintile)
    ensures |r| == |OpenPositions(positions)| + Min(topQuintile, |Rank(stocks)|)
  {
    CloseIntents(OpenPositions(positions)) + BuyIntents(Selected(stocks, topQuintile), portfolioValue, topQuintile)
  }

  /** The intents are the closes, then the buys: one close per open position
      in book order, followed by one buy per selected stock in ranking order
      (`Selected` is a prefix of the ranking). */
  lemma RebalanceLayout(stocks: seq<Stock>, positions: seq<Holding>, portfolioValue: real, topQuintile: nat)
    requires CanRebalance(stocks, topQuintile)
    ensures |RebalanceIntents(stocks, positions, portfolioValue, topQuintile)|
         == |OpenPositions(positions)| + Min(topQuintile, |Rank(stocks)|)
    ensures forall i :: 0 <= i < |OpenPositions(positions)| ==>
      RebalanceIntents(stocks, positions, portfolioValue, topQuintile)[i] == Close(OpenPositions(positions)[i].asset)
    ensures forall i :: 0 <= i < |Selected(stocks, topQuintile)| ==>
      RebalanceIntents(stocks, positions, portfolioValue, topQuintile)[|OpenPositions(positions)| + i]
        == Buy(Selected(stocks, topQuintile)[i].asset,
               BuySize(portfolioValue, Weight(topQuintile), Selected(stocks, topQuintile)[i].close))
  {
    ClosesThenBuys(OpenPositions(positions), Selected(stocks, topQuintile), portfolioValue, topQuintile);
  }

  /** The concatenation of the closes and the buys, position by position. */
  lemma ClosesThenBuys(open: seq<Holding>, selected: seq<Stock>, portfolioValue: real, topQuintile: nat)
    requires topQuintile >= 1 && ClosesNonZero(selected)
    ensures var r := CloseIntents(open) + BuyIntents(selected, portfolioValue, topQuintile);
            |r| == |open| + |selected| &&
            (forall i :: 0 <= i < |open| ==> r[i] == Close(open[i].asset)) &&
            (forall i :: 0 <= i < |selected| ==>
               r[|open| + i] == Buy(selected[i].asset, BuySize(portfolioValue, Weight(topQuintile), selected[i].close)))
  {
    var buys := BuyIntents(selected, portfolioValue, topQuintile);
    var r := CloseIntents(open) + buys;
    forall i | 0 <= i < |selected|
      ensures r[|open| + i] == Buy(selected[i].asset, BuySize(portfolioValue, Weight(topQuintile), selected[i].close))
    {
      assert r[|open| + i] == buys[i];
    }
  }

  /** No close follows a buy: every position is closed before any stock is
      bought. */
  lemma ClosesBeforeBuys(stocks: seq<Stock>, positions: seq<Holding>, portfolioValue: real, topQuintile: nat)
    requires CanRebalance(stocks, topQuintile)
    ensures var r := RebalanceIntents(stocks, positions, portfolioValue, topQuintile);
            forall i, j :: 0 <= i < j < |r| && r[i].Buy? ==> r[j].Buy?
  {
    BuysAfterCloses(CloseIntents(OpenPositions(positions)),
                    BuyIntents(Selected(stocks, topQuintile), portfolioValue, topQuintile));
  }

  /** Closes followed by buys: a buy is followed only by buys. */
  lemma BuysAfterCloses(closes: seq<Intent>, buys: seq<Intent>)
    requires forall i :: 0 <= i < |closes| ==> closes[i].Close?
    requires forall i :: 0 <= i < |buys| ==> buys[i].Buy?
    ensures forall i, j :: 0 <= i < j < |closes + buys| && (closes + buys)[i].Buy? ==> (closes + buys)[j].Buy?
  {
    var r := closes + buys;
    forall i, j | 0 <= i < j < |r| && r[i].Buy?
      ensures r[j].Buy?
    {
      assert |closes| <= i;
      assert r[j] == buys[j - |closes|];
    }
  }

  /** A close is issued for an asset exactly when the book holds a positive
      size of it. */
  lemma ClosesExactlyOpen(stocks: seq<Stock>, positions: seq<Holding>, portfolioValue: real, topQuintile: nat, a: Asset)
    requires CanRebalance(stocks, topQuintile)
    ensures Close(a) in RebalanceIntents(stocks, positions, portfolioValue, topQuintile)
        <==> exists h :: h in positions && h.asset == a && h.size > 0
  {
    var r := RebalanceIntents(stocks, positions, portfolioValue, topQuintile);
    var open := OpenPositions(positions);
    if Close(a) in r {
      var i :| 0 <= i < |r| && r[i] == Close(a);
      assert i < |open|;
      assert open[i] in positions && open[i].asset == a && open[i].size > 0;
    }
    if h :| h in positions && h.asset == a && h.size > 0 {
      var j :| 0 <= j < |positions| && positions[j] == h;
      assert h in open;
      var i :| 0 <= i < |open| && open[i] == h;
      assert r[i] == Close(a);
    }
  }

  /** A buy is issued for an asset exactly when it is among the first
      `top_quintile` ranked stocks. */
  lemma BuysExactlySelected(stocks: seq<Stock>, positions: seq<Holding>, portfolioValue: real, topQuintile: nat, a: Asset)
    requires CanRebalance(stocks, topQuintile)
    ensures (exists n :: Buy(a, n) in RebalanceIntents(stocks, positions, portfolioValue, topQuintile))
        <==> exists s :: s in Selected(stocks, topQuintile) && s.asset == a
  {
    BuyFor(CloseIntents(OpenPositions(positions)), Selected(stocks, topQuintile), portfolioValue, topQuintile, a);
  }

  /** After a run of closes, the buys name exactly the assets of `selected`. */
  lemma BuyFor(closes: seq<Intent>, selected: seq<Stock>, portfolioValue: real, topQuintile: nat, a: Asset)
    requires topQuintile >= 1 && ClosesNonZero(selected)
    requires forall i :: 0 <= i < |closes| ==> closes[i].Close?
    ensures (exists n :: Buy(a, n) in closes + BuyIntents(selected, portfolioValue, topQuintile))
        <==> exists s :: s in selected && s.asset == a
  {
    var buys := BuyIntents(selected, portfolioValue, topQuintile);
    var r := closes + buys;
    if n :| Buy(a, n) in r {
      var i :| 0 <= i < |r| && r[i] == Buy(a, n);
      assert |closes| <= i;
      assert buys[i - |closes|] == Buy(a, n);
      assert selected[i - |closes|] in selected && selected[i - |closes|].asset == a;
    }
    if s :| s in selected && s.asset == a {
      var i :| 0 <= i < |selected| && selected[i] == s;
      var n := BuySize(portfolioValue, Weight(topQuintile), s.close);
      assert buys[i] == Buy(a, n);
      assert r[|closes| + i] == Buy(a, n);
    }
  }

  /** With no eligible stock the rebalance only closes positions. */
  lemma NoEligibleNoBuys(stocks: seq<Stock>, positions: seq<Holding>, portfolioValue: real, topQuintile: nat)
    requires CanRebalance(stocks, topQuintile)
    requires Eligible(stocks) == []
    ensures RebalanceIntents(stocks, positions, portfolioValue, topQuintile) == CloseIntents(OpenPositions(positions))
  {
    assert Rank(stocks) == [];
    assert Selected(stocks, topQuintile) == [];
  }

  /** The nominal cost of the buys at the current closes. */
  function BuyCost(selected: seq<Stock>, portfolioValue: real, topQuintile: nat): real
    requires topQuintile >= 1
    requires ClosesNonZero(selected)
  {
    if selected == [] then 0.0
    else BuySize(portfolioValue, Weight(topQuintile), selected[0].close) as real * selected[0].close
         + BuyCost(selected[1..], portfolioValue, topQuintile)
  }

  /** Each buy costs at most one `1 / top_quintile` share of the value, so
      the buys together cost at most `|selected| / top_quintile` of it. */
  lemma {:induction false} BuyCostBound(selected: seq<Stock>, portfolioValue: real, topQuintile: nat)
    requires topQuintile >= 1 && portfolioValue >= 0.0
    requires forall i :: 0 <= i < |selected| ==> selected[i].close > 0.0
    ensures 0.0 <= BuyCost(selected, portfolioValue, topQuintile)
    ensures BuyCost(selected, portfolioValue, topQuintile)
         <= |selected| as real * (portfolioValue / topQuintile as real)
  {
    if selected != [] {
      var share := portfolioValue / topQuintile as real;
      var head := BuySize(portfolioValue, Weight(topQuintile), selected[0].close) as real * selected[0].close;
      var rest := BuyCost(selected[1..], portfolioValue, topQuintile);
      assert 0.0 <= head <= share by {
        BuySizeIsFloor(portfolioValue, topQuintile, selected[0].close);
        ProductNonNeg(BuySize(portfolioValue, Weight(topQuintile), selected[0].close) as real, selected[0].close);
      }
      assert 0.0 <= rest <= (|selected| - 1) as real * share by {
        BuyCostBound(selected[1..], portfolioValue, topQuintile);
      }
      assert BuyCost(selected, portfolioValue, topQuintile) == head + rest;
      assert (|selected| - 1) as real * share + share == |selected| as real * share;
    }
  }

  /** The selected stocks are stocks of the input, so they inherit its
      positive closes. */
  lemma SelectedClosesPositive(stocks: seq<Stock>, topQuintile: nat)
    requires forall s :: s in stocks ==> s.close > 0.0
    ensures forall i :: 0 <= i < |Selected(stocks, topQuintile)| ==> Selected(stocks, topQuintile)[i].close > 0.0
  {
    var sel := Selected(stocks, topQuintile);
    forall i | 0 <= i < |sel|
      ensures sel[i].close > 0.0
    {
      assert sel[i] in Rank(stocks) by {
        assert sel[i] == Rank(stocks)[i];
      }
      RankingsSpec(stocks, 0.0);
    }
  }

  /** At most `top_quintile` buys, each sized to `1 / top_quintile` of a
      non-negative value, cost at most that value together. */
  lemma BuysWithinBudget(selected: seq<Stock>, portfolioValue: real, topQuintile: nat)
    requires topQuintile >= 1 && portfolioValue >= 0.0 && |selected| <= topQuintile
    requires forall i :: 0 <= i < |selected| ==> selected[i].close > 0.0
    ensures 0.0 <= BuyCost(selected, portfolioValue, topQuintile) <= portfolioValue
  {
    BuyCostBound(selected, portfolioValue, topQuintile);
    ShareBound(|selected|, topQuintile, portfolioValue);
  }

  /** The buys of one rebalance never cost more than the portfolio value they
      were sized from, even when fewer than `top_quintile` stocks qualify. */
  lemma RebalanceWithinBudget(stocks: seq<Stock>, portfolioValue: real, topQuintile: nat)
    requires topQuintile >= 1 && portfolioValue >= 0.0
    requires forall s :: s in stocks ==> s.close > 0.0
    ensures forall i :: 0 <= i < |Selected(stocks, topQuintile)| ==> Selected(stocks, topQuintile)[i].close > 0.0
    ensures 0.0 <= BuyCost(Selected(stocks, topQuintile), portfolioValue, topQuintile) <= portfolioValue
  {
    SelectedClosesPositive(stocks, topQuintile);
    BuysWithinBudget(Selected(stocks, topQuintile), portfolioValue, topQuintile);
  }

  /** At most `k` shares of `1 / k` of a non-negative value add up to at most
      the value. */
  lemma ShareBound(count: nat, k: nat, value: real)
    requires 1 <= k && count <= k && value >= 0.0
    ensures count as real * (value / k as real) <= value
  {
    var share := value / k as real;
    assert share >= 0.0;
    assert count as real * share <= k as real * share;
  }
}
