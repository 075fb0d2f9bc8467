/** Which stocks take part in a rebalance and in what order: the stocks with
    enough history, ranked by momentum from highest to lowest, ties kept in
    the order the stocks were registered (Python's sort is stable, also with
    `reverse=True`). */
module Ranking {
  import opened Lists

  /** A ticker name. */
  type Asset = string

  /** What the strategy reads of one stock's feed at the current bar: how many
      bars have been revealed (`len(d)`), the momentum indicator's current
      reading and the current close. */
  datatype Stock = Stock(asset: Asset, revealed: nat, momentum: real, close: real)

  /** A stock is ranked only once more than this many bars have been revealed. */
  const MinHistory: nat := 100

  predicate IsEligible(s: Stock)
  {
    s.revealed > MinHistory
  }

  /** `filter(lambda d: len(d) > 100, self.stocks)`. */
  function Eligible(stocks: seq<Stock>): (r: seq<Stock>)
    ensures |r| <= |stocks|
    ensures forall i :: 0 <= i < |r| ==> r[i] in stocks && r[i].revealed > MinHistory
    ensures forall i :: 0 <= i < |stocks| && stocks[i].revealed > MinHistory ==> stocks[i] in r
  {
    Filter(IsEligible, stocks)
  }

  /** A stock is eligible exactly when it is an input stock with more than
      `MinHistory` revealed bars, and then it occurs as often as in the input. */
  lemma EligibleExactly(stocks: seq<Stock>, s: Stock)
    ensures s in Eligible(stocks) <==> s in stocks && s.revealed > MinHistory
    ensures multiset(Eligible(stocks))[s] == if s.revealed > MinHistory then multiset(stocks)[s] else 0
  {
    FilterCount(IsEligible, stocks, s);
  }

  /** The eligible stocks keep the input order: those of a concatenation are
      those of the first part followed by those of the second. */
  lemma EligibleAppend(before: seq<Stock>, after: seq<Stock>)
    ensures Eligible(before + after) == Eligible(before) + Eligible(after)
  {
    FilterAppend(IsEligible, before, after);
  }

  /** Non-increasing in momentum. */
  predicate SortedDesc(s: seq<Stock>)
  {
    forall i, j :: 0 <= i < j < |s| ==> s[i].momentum >= s[j].momentum
  }

  /** A stock whose momentum is at least that of the head of a sorted
      sequence can be put in front of it. */
  lemma SortedCons(a: Stock, s: seq<Stock>)
    ensures SortedDesc(s) && (s != [] ==> a.momentum >= s[0].momentum) ==> SortedDesc([a] + s)
  {
    if SortedDesc(s) && (s != [] ==> a.momentum >= s[0].momentum) {
      forall i, j | 0 <= i < j < |[a] + s|
        ensures ([a] + s)[i].momentum >= ([a] + s)[j].momentum
      {
        if i == 0 && j > 1 {
          assert s[0].momentum >= s[j - 1].momentum;
        }
      }
    }
  }

  /** Places `x` after every stock of `t` with strictly higher momentum and
      before the rest, so that `x` precedes the stocks it ties with. */
  function InsertDesc(x: Stock, t: seq<Stock>): (r: seq<Stock>)
    ensures |r| == |t| + 1
    ensures r[0] == x || (t != [] && r[0] == t[0])
    ensures multiset(r) == multiset(t) + multiset{x}
    ensures SortedDesc(t) ==> SortedDesc(r)
  {
    if t == [] then [x]
    else if x.momentum >= t[0].momentum then
      SortedCons(x, t);
      [x] + t
    else
      var rest := InsertDesc(x, t[1..]);
      assert t == [t[0]] + t[1..];
      SortedCons(t[0], rest);
      [t[0]] + rest
  }

  /** `sorted(s, key=momentum, reverse=True)`, as an insertion sort: every
      stock is inserted ahead of the later stocks it ties with. */
  function SortDesc(s: seq<Stock>): (r: seq<Stock>)
    ensures multiset(r) == multiset(s)
    ensures SortedDesc(r)
  {
    if s == [] then []
    else
      assert s == [s[0]] + s[1..];
      InsertDesc(s[0], SortDesc(s[1..]))
  }

  /** The stocks whose momentum is exactly `v`, in their order: the group of
      stocks that tie at `v`. */
  function Ties(v: real, s: seq<Stock>): (r: seq<Stock>)
    ensures forall i :: 0 <= i < |r| ==> r[i] in s && r[i].momentum == v
    ensures forall i :: 0 <= i < |s| && s[i].momentum == v ==> s[i] in r
  {
    if s == [] then [] else (if s[0].momentum == v then [s[0]] else []) + Ties(v, s[1..])
  }

  /** Inserting `x` adds it at the head of the stocks it ties with. */
  lemma {:induction false} InsertDescTies(x: Stock, t: seq<Stock>, v: real)
    ensures Ties(v, InsertDesc(x, t)) == (if x.momentum == v then [x] else []) + Ties(v, t)
  {
    if t == [] || x.momentum >= t[0].momentum {
      assert InsertDesc(x, t) == [x] + t;
      TiesCons(v, x, t);
    } else {
      var inserted := InsertDesc(x, t[1..]);
      var rest := Ties(v, t[1..]);
      assert InsertDesc(x, t) == [t[0]] + inserted;
      InsertDescTies(x, t[1..], v);
      TiesCons(v, t[0], inserted);
      TiesCons(v, t[0], t[1..]);
      assert t == [t[0]] + t[1..];
      if x.momentum == v {
        // `x` ranks below `t[0]`, so `t[0]` is not in the tie group of `v`
        assert Ties(v, inserted) == [x] + rest;
        assert Ties(v, InsertDesc(x, t)) == [x] + rest;
        assert Ties(v, t) == rest;
      } else {
        assert Ties(v, inserted) == rest;
      }
    }
  }

  /** Stability: the stocks that tie on momentum come out of the sort in the
      order they went in. */
  lemma {:induction false} SortDescStable(s: seq<Stock>, v: real)
    ensures Ties(v, SortDesc(s)) == Ties(v, s)
  {
    if s != [] {
      SortDescStable(s[1..], v);
      InsertDescTies(s[0], SortDesc(s[1..]), v);
    }
  }

  /** The head of a non-empty tie group. */
  lemma TiesCons(v: real, a: Stock, s: seq<Stock>)
    ensures Ties(v, [a] + s) == (if a.momentum == v then [a] else []) + Ties(v, s)
  {
    assert ([a] + s)[1..] == s;
  }

  /** The head of a sorted sequence has the highest momentum in it. */
  lemma HeadIsHighest(t: seq<Stock>, x: Stock)
    requires SortedDesc(t)
    requires x in t
    ensures t[0].momentum >= x.momentum
  {
    var k :| 0 <= k < |t| && t[k] == x;
    if k > 0 {
      assert t[0].momentum >= t[k].momentum;
    }
  }

  /** A sequence that shares the tie group of another's head is not empty. */
  lemma NonEmptyTies(t: seq<Stock>, u: seq<Stock>)
    requires t != []
    requires Ties(t[0].momentum, t) == Ties(t[0].momentum, u)
    ensures u != []
  {
    assert t[0] in Ties(t[0].momentum, t);
  }

  /** The tail of a non-increasing sequence is non-increasing. */
  lemma SortedTail(t: seq<Stock>)
    requires SortedDesc(t) && t != []
    ensures SortedDesc(t[1..])
  {
    var tail := t[1..];
    forall i, j | 0 <= i < j < |tail|
      ensures tail[i].momentum >= tail[j].momentum
    {
      assert tail[i] == t[i + 1] && tail[j] == t[j + 1];
    }
  }

  /** Two non-increasing sequences with the same tie groups have the same
      head. */
  lemma SameHead(t1: seq<Stock>, t2: seq<Stock>)
    requires SortedDesc(t1) && SortedDesc(t2) && t1 != []
    requires forall v :: Ties(v, t1) == Ties(v, t2)
    ensures t2 != [] && t1[0] == t2[0]
  {
    NonEmptyTies(t1, t2);
    var a, b := t1[0], t2[0];
    var ta, tb := Ties(a.momentum, t1), Ties(b.momentum, t2);
    assert ta == [a] + Ties(a.momentum, t1[1..]);
    assert tb == [b] + Ties(b.momentum, t2[1..]);
    assert a.momentum == b.momentum by {
      assert ta == Ties(a.momentum, t2) && tb == Ties(b.momentum, t1);
      TiesMember(a.momentum, t2, a);
      TiesMember(b.momentum, t1, b);
      HeadIsHighest(t1, b);
      HeadIsHighest(t2, a);
    }
    assert ta == tb;
    assert a == ta[0] == tb[0] == b;
  }

  /** A member of a tie group is a member of the sequence with that momentum. */
  lemma TiesMember(v: real, s: seq<Stock>, x: Stock)
    requires x in Ties(v, s)
    ensures x in s && x.momentum == v
  {
    var i :| 0 <= i < |Ties(v, s)| && Ties(v, s)[i] == x;
  }

  /** Removing a common head keeps the tie groups equal. */
  lemma SameTailTies(t1: seq<Stock>, t2: seq<Stock>, v: real)
    requires t1 != [] && t2 != [] && t1[0] == t2[0]
    requires Ties(v, t1) == Ties(v, t2)
    ensures Ties(v, t1[1..]) == Ties(v, t2[1..])
  {
    var head := if t1[0].momentum == v then [t1[0]] else [];
    var rest1, rest2 := Ties(v, t1[1..]), Ties(v, t2[1..]);
    assert Ties(v, t1) == head + rest1;
    assert Ties(v, t2) == head + rest2;
    assert rest1 == (head + rest1)[|head|..];
    assert rest2 == (head + rest2)[|head|..];
  }

  /** Two sequences that are both non-increasing in momentum and list the
      stocks of each momentum value in the same order are equal. */
  lemma {:induction false} SortedTiesDetermine(t1: seq<Stock>, t2: seq<Stock>)
    requires SortedDesc(t1) && SortedDesc(t2)
    requires forall v :: Ties(v, t1) == Ties(v, t2)
    ensures t1 == t2
  {
    if t2 != [] {
      NonEmptyTies(t2, t1);
    }
    if t1 != [] {
      SameHead(t1, t2);
      forall v
        ensures Ties(v, t1[1..]) == Ties(v, t2[1..])
      {
        SameTailTies(t1, t2, v);
      }
      SortedTail(t1);
      SortedTail(t2);
      SortedTiesDetermine(t1[1..], t2[1..]);
      assert t1 == [t1[0]] + t1[1..] && t2 == [t2[0]] + t2[1..];
    }
  }

  /** Any stable descending sort of `s` yields `SortDesc(s)`: a result that is
      non-increasing in momentum and keeps the input order among ties is
      exactly the insertion sort's. */
  lemma StableSortUnique(s: seq<Stock>, t: seq<Stock>)
    requires SortedDesc(t)
    requires forall v :: Ties(v, t) == Ties(v, s)
    ensures t == SortDesc(s)
  {
    forall v
      ensures Ties(v, t) == Ties(v, SortDesc(s))
    {
      SortDescStable(s, v);
    }
    SortedTiesDetermine(t, SortDesc(s));
  }

  /** `self.rankings`: the eligible stocks, sorted by momentum descending. */
  function Rank(stocks: seq<Stock>): (r: seq<Stock>)
    ensures multiset(r) == multiset(Eligible(stocks))
    ensures SortedDesc(r)
  {
    SortDesc(Eligible(stocks))
  }

  /** The rankings are a permutation of the eligible stocks, non-increasing in
      momentum, with ties in their original order. */
  lemma RankingsSpec(stocks: seq<Stock>, v: real)
    ensures multiset(Rank(stocks)) == multiset(Eligible(stocks))
    ensures SortedDesc(Rank(stocks))
    ensures Ties(v, Rank(stocks)) == Ties(v, Eligible(stocks))
    ensures forall s :: s in Rank(stocks) <==> s in stocks && s.revealed > MinHistory
  {
    SortDescStable(Eligible(stocks), v);
    forall s
      ensures s in Rank(stocks) <==> s in stocks && s.revealed > MinHistory
    {
      assert s in Rank(stocks) <==> s in multiset(Rank(stocks));
      EligibleExactly(stocks, s);
    }
  }

  /** `self.rankings[:top_quintile]`: the first `k` ranked stocks, or all of
      them when fewer than `k` are eligible. */
  function Selected(stocks: seq<Stock>, k: nat): (r: seq<Stock>)
    ensures |r| == Min(k, |Rank(stocks)|)
    ensures r == Rank(stocks)[..|r|]
  {
    Rank(stocks)[..Min(k, |Rank(stocks)|)]
  }

  /** Sorting a sequence that is already non-increasing in momentum leaves it
      unchanged; in particular sorting is idempotent. */
  lemma {:induction false} SortDescSorted(s: seq<Stock>)
    requires SortedDesc(s)
    ensures SortDesc(s) == s
  {
    if s != [] {
      var tail := s[1..];
      SortedTail(s);
      SortDescSorted(tail);
      assert SortDesc(s) == InsertDesc(s[0], tail);
      assert tail == [] || s[0].momentum >= tail[0].momentum by {
        if tail != [] {
          assert tail[0] == s[1];
        }
      }
      assert InsertDesc(s[0], tail) == [s[0]] + tail;
      assert s == [s[0]] + tail;
    }
  }

  /** Eligible stocks that are already listed in non-increasing momentum are
      ranked in their input order. */
  lemma RankedInOrder(stocks: seq<Stock>)
    requires forall i :: 0 <= i < |stocks| ==> stocks[i].revealed > MinHistory
    requires SortedDesc(stocks)
    ensures Rank(stocks) == stocks
  {
    FilterKeepsAll(IsEligible, stocks);
    SortDescSorted(stocks);
  }

  /** Three eligible stocks with momentum 0.5, 0.5 and 0.3, in that order:
      the top two are the two that tie, in their original order. */
  lemma TiedLeadersKeepOrder(a: Stock, b: Stock, c: Stock)
    requires a.revealed > MinHistory && b.revealed > MinHistory && c.revealed > MinHistory
    requires a.momentum == 0.5 && b.momentum == 0.5 && c.momentum == 0.3
    ensures Selected([a, b, c], 2) == [a, b]
  {
    RankedInOrder([a, b, c]);
    assert [a, b, c][..2] == [a, b];
  }
}
