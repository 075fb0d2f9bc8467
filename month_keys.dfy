/** The month key the strategy records: the decimal year followed by the
    decimal month, with no padding (so May 2015 is "20155" and November 2015
    is "201511"). */
module MonthKeys {
  import opened Lists

  predicate IsDigit(c: char)
  {
    '0' <= c <= '9'
  }

  function DigitChar(d: nat): (c: char)
    requires d < 10
    ensures IsDigit(c)
  {
    ('0' as int + d) as char
  }

  function DigitValue(c: char): (d: nat)
    requires IsDigit(c)
    ensures d < 10 && DigitChar(d) == c
  {
    c as int - '0' as int
  }

  /** `str(n)` for a non-negative integer: its decimal digits, most
      significant first, without leading zeros. */
  function Decimal(n: nat): (s: string)
    ensures 1 <= |s|
    ensures forall i :: 0 <= i < |s| ==> IsDigit(s[i])
    ensures n < 10 <==> |s| == 1
    ensures n >= 1 ==> s[0] != '0'
  {
    if n < 10 then [DigitChar(n)] else Decimal(n / 10) + [DigitChar(n % 10)]
  }

  /** Reads a string of decimal digits back as a number. */
  function ParseDecimal(s: string): (n: nat)
    requires forall i :: 0 <= i < |s| ==> IsDigit(s[i])
  {
    if s == [] then 0 else ParseDecimal(s[..|s| - 1]) * 10 + DigitValue(s[|s| - 1])
  }

  /** Reading back what `Decimal` writes gives the number written. */
  lemma {:induction false} ParseDecimalInverts(n: nat)
    ensures ParseDecimal(Decimal(n)) == n
  {
    var s := Decimal(n);
    if n >= 10 {
      assert s[..|s| - 1] == Decimal(n / 10);
      ParseDecimalInverts(n / 10);
    }
  }

  /** Different numbers have different decimal strings. */
  lemma DecimalInjective(a: nat, b: nat)
    requires Decimal(a) == Decimal(b)
    ensures a == b
  {
    ParseDecimalInverts(a);
    ParseDecimalInverts(b);
  }

  /** The length of `Decimal(n)` for the ranges a calendar date produces. */
  lemma DecimalLength(n: nat)
    ensures 1 <= n <= 9 ==> |Decimal(n)| == 1
    ensures 10 <= n <= 99 ==> |Decimal(n)| == 2
    ensures 1000 <= n <= 9999 ==> |Decimal(n)| == 4
  {
    if n >= 10 {
      DecimalLength(n / 10);
      if n >= 100 {
        DecimalLength(n / 100);
        assert Decimal(n / 10) == Decimal(n / 10 / 10) + [DigitChar(n / 10 % 10)];
        assert n / 10 / 10 == n / 100;
      }
    }
  }

  /** The key `f'{year}{month}'` for a date's year and month. */
  function MonthKey(year: nat, month: nat): (key: string)
    ensures forall i :: 0 <= i < |key| ==> IsDigit(key[i])
  {
    Decimal(year) + Decimal(month)
  }

  /** A four-digit year and a month between 1 and 12. */
  predicate IsCalendarMonth(year: nat, month: nat)
  {
    1000 <= year <= 9999 && 1 <= month <= 12
  }

  /** For four-digit years the key identifies the (year, month) pair: keys are
      equal exactly when the pairs are. */
  lemma MonthKeyInjective(y1: nat, m1: nat, y2: nat, m2: nat)
    requires IsCalendarMonth(y1, m1) && IsCalendarMonth(y2, m2)
    ensures MonthKey(y1, m1) == MonthKey(y2, m2) <==> y1 == y2 && m1 == m2
  {
    if MonthKey(y1, m1) == MonthKey(y2, m2) {
      var k := MonthKey(y1, m1);
      DecimalLength(y1);
      DecimalLength(y2);
      DecimalLength(m1);
      DecimalLength(m2);
      assert k[..4] == Decimal(y1) && k[..4] == Decimal(y2);
      DecimalInjective(y1, y2);
      assert k[4..] == Decimal(m1) && k[4..] == Decimal(m2);
      DecimalInjective(m1, m2);
    }
  }

  /** Without the four-digit restriction two months share a key: November of
      the year 201 and January 2011 are both "20111". */
  lemma ShortYearsCollide()
    ensures MonthKey(201, 11) == MonthKey(2011, 1)
  {
    assert Decimal(201) == "201";
    assert Decimal(2011) == "2011";
  }

  /** The keys of a list of months, in order. */
  function Keys(months: seq<(nat, nat)>): (keys: seq<string>)
    ensures |keys| == |months|
  {
    seq(|months|, i requires 0 <= i < |months| => MonthKey(months[i].0, months[i].1))
  }

  /** Checking a key against the recorded keys is checking the month against
      the recorded months, when every month has a four-digit year. */
  lemma KeySeenIffMonthSeen(months: seq<(nat, nat)>, year: nat, month: nat)
    requires forall i :: 0 <= i < |months| ==> IsCalendarMonth(months[i].0, months[i].1)
    requires IsCalendarMonth(year, month)
    ensures MonthKey(year, month) in Keys(months) <==> (year, month) in months
  {
    var keys := Keys(months);
    if MonthKey(year, month) in keys {
      var i :| 0 <= i < |keys| && keys[i] == MonthKey(year, month);
      MonthKeyInjective(months[i].0, months[i].1, year, month);
      assert months[i] == (year, month);
    }
    if (year, month) in months {
      var i :| 0 <= i < |months| && months[i] == (year, month);
      assert keys[i] == MonthKey(year, month);
    }
  }

  /** Recording a key once per distinct key records each month once; for
      four-digit years the converse holds too, so "no key twice" and "no month
      twice" say the same thing. */
  lemma DistinctKeysDistinctMonths(months: seq<(nat, nat)>)
    ensures NoDuplicates(Keys(months)) ==> NoDuplicates(months)
    ensures (forall i :: 0 <= i < |months| ==> IsCalendarMonth(months[i].0, months[i].1)) ==>
      (NoDuplicates(months) ==> NoDuplicates(Keys(months)))
  {
    var keys := Keys(months);
    if NoDuplicates(keys) {
      forall i, j | 0 <= i < j < |months|
        ensures months[i] != months[j]
      {
        assert keys[i] != keys[j];
      }
    }
    if (forall i :: 0 <= i < |months| ==> IsCalendarMonth(months[i].0, months[i].1)) && NoDuplicates(months) {
      forall i, j | 0 <= i < j < |keys|
        ensures keys[i] != keys[j]
      {
        MonthKeyInjective(months[i].0, months[i].1, months[j].0, months[j].1);
      }
    }
  }
}
