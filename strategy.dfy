/** The strategy object: it remembers which months it has already rebalanced
    in, and on the first bar of each new month ranks the stocks and issues
    the orders of a rebalance. */
module Strategy {
  import opened Lists
  import opened MonthKeys
  import opened Ranking
  import opened Orders

  /** The calendar date of the benchmark's current bar. */
  datatype Date = Date(year: nat, month: nat, day: nat)

  /** What the strategy reads of the market and the broker on the current
      bar: each stock's feed, the broker's position book and the portfolio
      value the broker reports once the closes have been issued. */
  datatype Snapshot = Snapshot(stocks: seq<Stock>, positions: seq<Holding>, portfolioValue: real)

  class MomStrategy {
    /** `params.period`: the momentum lookback, used only by the indicator. */
    const period: nat
    /** `params.top_quintile`: how many stocks are held each month. */
    const topQuintile: nat
    /** `month_year`: the keys of the months already rebalanced in. */
    var monthYear: seq<string>
    /** `rankings`: the ranking of the last rebalance. */
    var rankings: seq<Stock>
    /** The (year, month) pairs behind `monthYear`. */
    ghost var months: seq<(nat, nat)>
    /** How many times `Rebalance` has run. */
    ghost var rebalances: nat

    ghost predicate Valid()
      reads this
    {
      topQuintile >= 1 &&
      monthYear == Keys(months) &&
      NoDuplicates(monthYear) &&
      NoDuplicates(months) &&
      rebalances == |monthYear|
    }

    constructor (period: nat, topQuintile: nat)
      requires topQuintile >= 1
      ensures Valid()
      ensures this.period == period && this.topQuintile == topQuintile
      ensures monthYear == [] && rankings == [] && months == [] && rebalances == 0
    {
      this.period := period;
      this.topQuintile := topQuintile;
      monthYear := [];
      rankings := [];
      months := [];
      rebalances := 0;
    }

    /** Ranks the eligible stocks, closes every open position, then buys the
        top `top_quintile` ranked stocks, each for `1 / top_quintile` of the
        portfolio value. */
    method Rebalance(view: Snapshot) returns (orders: seq<Intent>)
      requires CanRebalance(view.stocks, topQuintile)
      modifies this`rankings, this`rebalances
      ensures rankings == Rank(view.stocks)
      ensures orders == RebalanceIntents(view.stocks, view.positions, view.portfolioValue, topQuintile)
      ensures rebalances == old(rebalances) + 1
    {
      rebalances := rebalances + 1;
      rankings := Eligible(view.stocks);
      rankings := SortDesc(rankings);

      orders := [];
      var open := OpenPositions(view.positions);
      for i := 0 to |open|
        invariant orders == CloseIntents(open[..i])
        modifies {}
      {
        orders := orders + [Close(open[i].asset)];
        CloseIntentsSnoc(open, i);
      }
      assert open[..|open|] == open;

      var portfolioValue := view.portfolioValue;
      var weight := Weight(topQuintile);
      var top := rankings[..Min(topQuintile, |rankings|)];
      assert ClosesNonZero(top) by {
        assert top == Selected(view.stocks, topQuintile);
      }
      for i := 0 to |top|
        invariant ClosesNonZero(top[..i])
        invariant orders == CloseIntents(open) + BuyIntents(top[..i], portfolioValue, topQuintile)
        modifies {}
      {
        var size := BuySize(portfolioValue, weight, top[i].close);
        orders := orders + [Buy(top[i].asset, size)];
        BuyIntentsSnoc(top, i, portfolioValue, topQuintile);
      }
      assert top[..|top|] == top;
    }

    /** Called on every bar: rebalances on the first bar of a month whose key
        has not been seen, then records the key; any later bar of that month
        issues nothing. */
    method Next(date: Date, view: Snapshot) returns (orders: seq<Intent>)
      requires Valid()
      requires MonthKey(date.year, date.month) !in monthYear ==> CanRebalance(view.stocks, topQuintile)
      modifies this`monthYear, this`rankings, this`months, this`rebalances
      ensures Valid()
      ensures MonthKey(date.year, date.month) in monthYear
      ensures MonthKey(date.year, date.month) in old(monthYear) ==>
        orders == [] && monthYear == old(monthYear) && rankings == old(rankings) &&
        months == old(months) && rebalances == old(rebalances)
      ensures MonthKey(date.year, date.month) !in old(monthYear) ==>
        orders == RebalanceIntents(view.stocks, view.positions, view.portfolioValue, topQuintile) &&
        monthYear == old(monthYear) + [MonthKey(date.year, date.month)] &&
        rankings == Rank(view.stocks) &&
        months == old(months) + [(date.year, date.month)] &&
        rebalances == old(rebalances) + 1
    {
      var currentMonth := MonthKey(date.year, date.month);
      if currentMonth !in monthYear {
        orders := Rebalance(view);
        monthYear := monthYear + [currentMonth];
        months := months + [(date.year, date.month)];
        assert Keys(months) == Keys(old(months)) + [currentMonth];
        DistinctKeysDistinctMonths(months);
      } else {
        orders := [];
      }
    }

    /** Called while some feeds have no bar yet; behaves exactly like `Next`. */
    method Prenext(date: Date, view: Snapshot) returns (orders: seq<Intent>)
      requires Valid()
      requires MonthKey(date.year, date.month) !in monthYear ==> CanRebalance(view.stocks, topQuintile)
      modifies this`monthYear, this`rankings, this`months, this`rebalances
      ensures Valid()
      ensures MonthKey(date.year, date.month) in monthYear
      ensures MonthKey(date.year, date.month) in old(monthYear) ==>
        orders == [] && monthYear == old(monthYear) && rankings == old(rankings) &&
        months == old(months) && rebalances == old(rebalances)
      ensures MonthKey(date.year, date.month) !in old(monthYear) ==>
        orders == RebalanceIntents(view.stocks, view.positions, view.portfolioValue, topQuintile) &&
        monthYear == old(monthYear) + [MonthKey(date.year, date.month)] &&
        rankings == Rank(view.stocks) &&
        months == old(months) + [(date.year, date.month)] &&
        rebalances == old(rebalances) + 1
    {
      orders := Next(date, view);
    }
  }

  /** Two bars of the same month: the second one issues no order and leaves
      the recorded months as the first one left them. */
  method SameMonthTwice(s: MomStrategy, first: Date, second: Date, view1: Snapshot, view2: Snapshot)
    returns (orders1: seq<Intent>, orders2: seq<Intent>)
    requires s.Valid()
    requires first.year == second.year && first.month == second.month
    requires MonthKey(first.year, first.month) !in s.monthYear ==> CanRebalance(view1.stocks, s.topQuintile)
    modifies s
    ensures s.Valid()
    ensures orders2 == []
    ensures s.rebalances <= old(s.rebalances) + 1
  {
    orders1 := s.Next(first, view1);
    orders2 := s.Next(second, view2);
  }
}
