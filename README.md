# Monthly momentum rebalance — a Dafny model

This project models the trading logic of `MomStrategy` in `backtest.py`, a
backtrader strategy. The strategy works like this:

- It is called on every bar of the benchmark.
- On the first bar of each calendar month it ranks the stocks that have more
  than 100 revealed bars by their momentum reading, highest first. Ties keep
  the order in which the stocks were registered, because Python's sort is
  stable.
- It then closes every open position and buys the first `top_quintile`
  ranked stocks. Each buy is sized to `1 / top_quintile` of the portfolio value.

The model has five modules:

- `Lists`: Python's `filter` and `xs[:k]` length, with their order and
  multiplicity facts.
- `MonthKeys`: the month key `f'{year}{month}'` as a string, its decimal
  round trip, and why it identifies the month for four-digit years.
- `Ranking`: stocks, eligibility, and the stable descending sort. The sort is
  an insertion sort, proved to be a sorted permutation that keeps ties in input
  order. The lemma `StableSortUnique` proves it is the only result with these
  properties.
- `Orders`: the order intents `Close(asset)` and `Buy(asset, size)`, `int()`
  truncation, buy sizing, and the intent sequence a rebalance issues, with its
  layout, membership and budget properties.
- `Strategy`: the class `MomStrategy`. Its fields are `monthYear` (the
  source's `month_year` list of string keys) and `rankings`, plus two ghost
  fields: the (year, month) pairs behind the keys and a count of rebalances.
  The methods `Rebalance`, `Next` and `Prenext` update the fields in place
  and return the intents they issue, in issue order.

The broker is an input. Each call to `Next` receives a `Snapshot` with the
following:

- each stock's revealed bar count, momentum reading and close;
- the broker's position book;
- the portfolio value the broker reports once the closes have been issued.

Prices, momentum readings and values are reals.

When fewer than `top_quintile` stocks are eligible, `backtest.py:89` still
sizes every buy with `weight = 1 / top_quintile`, so part of the value stays
in cash. `RebalanceWithinBudget` shows that the buys then cost at most the
portfolio value.

## Model

| member | source | states |
|---|---|---|
| `Strategy.MomStrategy.constructor` | backtest.py:7-26 | the parameters `period` and `top_quintile` are stored, `month_year` starts empty, and the invariant holds |
| `Strategy.MomStrategy.Next` | backtest.py:69-74 | after the call the month's key is recorded. A seen key issues no order and changes nothing. A new key issues exactly the rebalance intents, appends exactly that key, sets the rankings and counts one more rebalance. Keys and months stay duplicate-free and the rebalance count equals the number of recorded keys |
| `Strategy.MomStrategy.Prenext` | backtest.py:65-67 | behaves exactly as `Next` on the same bar |
| `Strategy.MomStrategy.Rebalance` | backtest.py:80-92 | the two loops issue the closes of the open positions, then the sized buys of the selected stocks, and the result equals `RebalanceIntents`. `rankings` becomes the stable descending ranking of the eligible stocks |
| `Strategy.SameMonthTwice` | backtest.py:69-74 | two bars of the same month: the second one issues no order, and at most one rebalance happens |
| `Lists.Filter` | backtest.py:81 | the result keeps only elements satisfying the predicate, contains every input element that satisfies it, and is no longer than the input |
| `Lists.FilterAppend` | backtest.py:81 | filtering preserves the input order: the filter of a concatenation is the concatenation of the filters |
| `Lists.FilterCount` | backtest.py:81 | every kept element occurs as often as in the input, and every dropped one does not occur |
| `Lists.FilterKeepsAll` | backtest.py:81 | when every element qualifies, the filter returns its input |
| `Lists.Min` | backtest.py:90 | the length of `xs[:k]` is the smaller of `k` and `len(xs)` |
| `MonthKeys.Decimal` | backtest.py:71 | `str(n)` is a non-empty string of decimal digits without a leading zero, one digit long exactly when `n < 10` |
| `MonthKeys.ParseDecimalInverts` | backtest.py:71 | reading back the decimal string of `n` gives `n` |
| `MonthKeys.DecimalInjective` | backtest.py:71 | different numbers have different decimal strings |
| `MonthKeys.DecimalLength` | backtest.py:71 | a month has 1 or 2 digits and a four-digit year has 4 |
| `MonthKeys.MonthKey` | backtest.py:71 | the key `f'{year}{month}'` consists of decimal digits |
| `MonthKeys.MonthKeyInjective` | backtest.py:71 | for years 1000-9999 and months 1-12 two keys are equal exactly when the (year, month) pairs are |
| `MonthKeys.ShortYearsCollide` | backtest.py:71 | without the four-digit restriction the key is not injective: November of year 201 and January 2011 share the key "20111" |
| `MonthKeys.Keys` | backtest.py:74 | one key per recorded month |
| `MonthKeys.KeySeenIffMonthSeen` | backtest.py:72 | for calendar months, the test `current_month not in month_year` is the test "this (year, month) was not seen" |
| `MonthKeys.DistinctKeysDistinctMonths` | backtest.py:72-74 | distinct recorded keys mean distinct recorded months, and conversely for calendar months, so a rebalance runs at most once per month |
| `Ranking.Eligible` | backtest.py:81 | the filtered list holds only input stocks with more than 100 revealed bars, holds every such stock, and is no longer than the input |
| `Ranking.EligibleExactly` | backtest.py:81 | a stock is eligible exactly when it is an input stock with more than 100 revealed bars, and it then occurs as often as in the input |
| `Ranking.EligibleAppend` | backtest.py:81 | eligibility keeps the input order: the eligible stocks of a concatenation are those of the parts, in order |
| `Ranking.SortedCons` | backtest.py:82 | a stock with momentum at least that of the head of a non-increasing sequence can be placed in front of it |
| `Ranking.InsertDesc` | backtest.py:82 | insertion adds exactly one element and keeps the sequence non-increasing in momentum |
| `Ranking.SortDesc` | backtest.py:82 | the sort is a permutation of its input and non-increasing in momentum |
| `Ranking.Ties` | backtest.py:82 | the tie group of a momentum value holds exactly the stocks with that value |
| `Ranking.InsertDescTies` | backtest.py:82 | an inserted stock goes to the front of the stocks it ties with |
| `Ranking.SortDescStable` | backtest.py:82 | the sort is stable: every tie group comes out in input order |
| `Ranking.TiesCons` | backtest.py:82 | the tie group of a consed sequence starts with the head when the head has that momentum |
| `Ranking.HeadIsHighest` | backtest.py:82 | the head of a non-increasing sequence has the highest momentum in it |
| `Ranking.NonEmptyTies` | backtest.py:82 | a sequence sharing the head's tie group with a non-empty one is non-empty |
| `Ranking.SortedTail` | backtest.py:82 | the tail of a non-increasing sequence is non-increasing |
| `Ranking.SameHead` | backtest.py:82 | two non-increasing sequences with the same tie groups start with the same stock |
| `Ranking.SameTailTies` | backtest.py:82 | removing a common head keeps the tie groups equal |
| `Ranking.TiesMember` | backtest.py:82 | a member of a tie group is a stock of the sequence with that momentum |
| `Ranking.SortedTiesDetermine` | backtest.py:82 | two non-increasing sequences with the same tie groups are equal |
| `Ranking.StableSortUnique` | backtest.py:82 | any non-increasing result that keeps ties in input order is exactly the model's sort, so the model's sort is what a stable `sort(reverse=True)` returns |
| `Ranking.Rank` | backtest.py:81-82 | `rankings` is a permutation of the eligible stocks and is non-increasing in momentum |
| `Ranking.RankingsSpec` | backtest.py:81-82 | `rankings` is a permutation of the eligible stocks, non-increasing in momentum, with ties in input order, and holds exactly the stocks with more than 100 bars |
| `Ranking.Selected` | backtest.py:90 | `rankings[:top_quintile]` has `min(top_quintile, len(rankings))` stocks and is a prefix of the ranking |
| `Ranking.SortDescSorted` | backtest.py:82 | sorting a sequence that is already non-increasing in momentum leaves it unchanged, so re-sorting the rankings changes nothing |
| `Ranking.RankedInOrder` | backtest.py:81-82 | any list of eligible stocks already in non-increasing momentum is ranked in its input order |
| `Ranking.TiedLeadersKeepOrder` | backtest.py:81-90 | with momenta 0.5, 0.5, 0.3 in that order, the top two are the two tied stocks, in input order |
| `Orders.OpenPositions` | backtest.py:76-78 | the open positions are entries of the book with a positive size, every book entry with a positive size is among them, and there are no more of them than entries |
| `Orders.TruncToInt` | backtest.py:91 | `int()` truncates toward zero, which is the floor for non-negative values and the ceiling for negative ones |
| `Orders.Weight` | backtest.py:89 | `1 / top_quintile` lies in (0, 1] |
| `Orders.BuySize` | backtest.py:91 | when `value * weight / close` is not negative, the size is its floor: not negative, at most the quotient and more than the quotient minus one |
| `Orders.BuySizeBounds` | backtest.py:91 | for a non-negative value and a positive close the size is the floor of `value * weight / close` and is not negative. Its cost is at most `value * weight`, and one more share would cost more than that |
| `Orders.WeightQuotient` | backtest.py:89-91 | `value * (1 / k) / close` equals `value / (k * close)` |
| `Orders.BuySizeIsFloor` | backtest.py:88-91 | each size is `floor(value / (top_quintile * close))` and is not negative. It costs at most `value / top_quintile`, and one more share would cost more than that |
| `Orders.CloseIntents` | backtest.py:85-86 | one `Close` per open position, in book order |
| `Orders.BuyIntents` | backtest.py:90-92 | one `Buy` per selected stock, in ranking order, with the stock's size |
| `Orders.CloseIntentsSnoc` | backtest.py:85-86 | one more loop iteration appends the next position's close |
| `Orders.BuyIntentsSnoc` | backtest.py:90-92 | one more loop iteration appends the next stock's buy |
| `Orders.RebalanceIntents` | backtest.py:80-92 | a rebalance issues one intent per open position plus one per stock in `rankings[:top_quintile]` |
| `Orders.RebalanceLayout` | backtest.py:80-92 | the intents are the closes of the open positions in book order, then the buys of `rankings[:top_quintile]` in ranking order, `len(open) + min(top_quintile, len(rankings))` in all |
| `Orders.ClosesThenBuys` | backtest.py:85-92 | the closes followed by the buys hold, position by position, the close of each open position and then the buy of each selected stock |
| `Orders.ClosesBeforeBuys` | backtest.py:85-92 | no close follows a buy |
| `Orders.BuysAfterCloses` | backtest.py:85-92 | in closes followed by buys, every intent after a buy is a buy |
| `Orders.ClosesExactlyOpen` | backtest.py:76-86 | a close is issued for an asset exactly when the book holds a positive size of it |
| `Orders.BuysExactlySelected` | backtest.py:90-92 | a buy is issued for an asset exactly when it is among the first `top_quintile` ranked stocks |
| `Orders.BuyFor` | backtest.py:90-92 | after the closes, the buys name exactly the assets of the selected stocks |
| `Orders.NoEligibleNoBuys` | backtest.py:81-92 | with no eligible stock a rebalance only closes positions |
| `Orders.BuyCostBound` | backtest.py:88-92 | the buys together cost between 0 and `len(selected) / top_quintile` of the value |
| `Orders.SelectedClosesPositive` | backtest.py:81-90 | the selected stocks inherit the positive closes of the input |
| `Orders.BuysWithinBudget` | backtest.py:88-92 | at most `top_quintile` buys cost at most the portfolio value |
| `Orders.RebalanceWithinBudget` | backtest.py:88-92 | the buys of a rebalance cost at most the portfolio value they were sized from, also when fewer than `top_quintile` stocks qualify |
| `Orders.ShareBound` | backtest.py:89-92 | at most `k` shares of `1 / k` of a non-negative value add up to at most the value |

## Left out

- `log`, `notify_order` and `notify_trade` (backtest.py:13-63) only print or set fields that nothing reads, so they are not modelled.
- The `__main__` block (backtest.py:95-131) is not modelled: CSV loading, date filtering and Cerebro setup are input and framework wiring.
- The momentum indicator (`bt.indicators.Momentum`, backtest.py:26) is computed inside backtrader, which is not part of this model. Each stock's reading is an input real. The indicator can still be undefined (NaN) for a stock with more than 100 but fewer than 241 bars. The model assumes a defined reading, so a NaN ranking is not modelled.
- `period` is stored but only feeds the indicator, so no property mentions it.
- Broker behaviour is not modelled: fills, rejections for lack of cash, commissions and how `get_value` marks to market. `close` and `buy` are modelled as appended intents. The portfolio value is an input. A buy of size 0, which the library may drop, is kept as an intent.
- Floating-point rounding is not modelled. Prices, momentum readings and values are exact reals, and `int()` truncates an exact real.
- `top_quintile` must be at least 1 (`CanRebalance`). With 0 the source raises `ZeroDivisionError` after it has issued the closes. A negative value is not a meaningful parameter. Neither case is modelled.
- A selected stock with a close of 0 makes the source raise `ZeroDivisionError` part-way through the buys. `CanRebalance` requires a non-zero close for every selected stock, so this exception path is not modelled.
- The broker's position book, a dictionary in the source, is a sequence in book order. The model does not constrain how backtrader orders it. Unlike the dictionary, the sequence may list an asset twice; the model then issues one close per entry, an input the source cannot produce.
- `Next` compares the string keys for any year, as the source does. For years below 1000 two months can share a key (`ShortYearsCollide`), and the later one is then skipped. Injectivity is proved for four-digit years only.
