/** The recommendation: this month's expenses against last month's, where
    "last month" is found with `setMonth(getMonth() - 1)` on today's date. */
module Recommendations {
  import opened Calendar
  import opened Ledger

  /** The message's four cases. Percentages are exact here; the page rounds
      them to two decimals. */
  datatype Advice =
    | NoExpensesLastMonth
    | Increased(percent: real)
    | Decreased(percent: real)
    | Unchanged

  /** `new Date(now.setMonth(now.getMonth() - 1))`: the same day a month
      earlier, January going back to December of the year before, and a
      day the previous month lacks spilling forward into the current
      month (March 31 gives March 3 in a common year). */
  function LastMonth(now: Date): (r: Date)
    requires Valid(now)
    ensures Valid(r)
    ensures now.month == 1 ==> r == Date(now.year - 1, 12, now.day)
    ensures now.month > 1 && now.day <= DaysInMonth(now.year, now.month - 1) ==>
      r == Date(now.year, now.month - 1, now.day)
    ensures now.month > 1 && now.day > DaysInMonth(now.year, now.month - 1) ==>
      r == Date(now.year, now.month, now.day - DaysInMonth(now.year, now.month - 1))
  {
    var index := (now.month - 1) - 1;
    assert now.month == 1 ==> index / 12 == -1 && index % 12 == 11;
    assert now.month > 1 ==> index / 12 == 0 && index % 12 == now.month - 2;
    SetMonth(now, index)
  }

  /** Expenses dated in the given year and month. */
  function ExpenseInMonth(year: int, month: int): Transaction -> bool {
    (t: Transaction) => t.kind == "expense" && t.date.year == year && t.date.month == month
  }

  function InMonth(year: int, month: int): Transaction -> bool {
    (t: Transaction) => t.date.year == year && t.date.month == month
  }

  /** The expenses filtered by year and month and summed. */
  function MonthExpenses(ts: seq<Transaction>, year: int, month: int): (total: int)
    ensures total == SumWhere(ts, ExpenseInMonth(year, month))
  {
    FilterFilter(ts, OfKind("expense"), InMonth(year, month), ExpenseInMonth(year, month));
    TotalOfFilter(ts, ExpenseInMonth(year, month));
    Total(Filter(Filter(ts, OfKind("expense")), InMonth(year, month)))
  }

  /** The four-way comparison of this month's total with last month's: no
      expenses last month, or the change in percent of last month's total,
      up or down, or no change. */
  function Compare(thisMonth: int, lastMonth: int): (r: Advice)
    ensures r.NoExpensesLastMonth? <==> lastMonth == 0
    ensures r.Increased? <==> lastMonth != 0 && thisMonth > lastMonth
    ensures r.Decreased? <==> lastMonth != 0 && thisMonth < lastMonth
    ensures r.Unchanged? <==> lastMonth != 0 && thisMonth == lastMonth
    ensures r.Increased? ==> r.percent * (lastMonth as real) == ((thisMonth - lastMonth) as real) * 100.0
    ensures r.Decreased? ==> r.percent * (lastMonth as real) == ((lastMonth - thisMonth) as real) * 100.0
  {
    if lastMonth == 0 then NoExpensesLastMonth
    else if thisMonth > lastMonth then Increased(((thisMonth - lastMonth) as real / lastMonth as real) * 100.0)
    else if thisMonth < lastMonth then Decreased(((lastMonth - thisMonth) as real / lastMonth as real) * 100.0)
    else Unchanged
  }

  /** The recommendation for today's date `now`: this calendar month's
      expenses compared with those of the month `LastMonth(now)` falls in. */
  function Recommend(ts: seq<Transaction>, now: Date): (r: Advice)
    requires Valid(now)
    ensures r == Compare(SumWhere(ts, ExpenseInMonth(now.year, now.month)),
                         SumWhere(ts, ExpenseInMonth(LastMonth(now).year, LastMonth(now).month)))
  {
    var last := LastMonth(now);
    Compare(MonthExpenses(ts, now.year, now.month), MonthExpenses(ts, last.year, last.month))
  }

  /** With non-negative amounts, a decrease is between 0 and 100 percent
      and an increase is positive. */
  lemma PercentBounds(ts: seq<Transaction>, now: Date)
    requires Valid(now)
    requires forall i :: 0 <= i < |ts| ==> ts[i].amount >= 0
    ensures Recommend(ts, now).Decreased? ==> 0.0 < Recommend(ts, now).percent <= 100.0
    ensures Recommend(ts, now).Increased? ==> Recommend(ts, now).percent > 0.0
  {
    var last := LastMonth(now);
    var thisMonth := SumWhere(ts, ExpenseInMonth(now.year, now.month));
    var lastMonth := SumWhere(ts, ExpenseInMonth(last.year, last.month));
    NonNegativeSum(ts, ExpenseInMonth(now.year, now.month));
    NonNegativeSum(ts, ExpenseInMonth(last.year, last.month));
    ComparePercentBounds(thisMonth, lastMonth);
  }

  lemma ComparePercentBounds(thisMonth: int, lastMonth: int)
    requires thisMonth >= 0 && lastMonth >= 0
    ensures Compare(thisMonth, lastMonth).Decreased? ==> 0.0 < Compare(thisMonth, lastMonth).percent <= 100.0
    ensures Compare(thisMonth, lastMonth).Increased? ==> Compare(thisMonth, lastMonth).percent > 0.0
  {
    var r := Compare(thisMonth, lastMonth);
    if r.Decreased? {
      var q := (lastMonth - thisMonth) as real / lastMonth as real;
      assert 0.0 < q <= 1.0;
    } else if r.Increased? {
      var q := (thisMonth - lastMonth) as real / lastMonth as real;
      assert 0.0 < q;
    }
  }

  lemma {:induction false} NonNegativeSum(ts: seq<Transaction>, p: Transaction -> bool)
    requires forall i :: 0 <= i < |ts| ==> ts[i].amount >= 0
    ensures SumWhere(ts, p) >= 0
    decreases |ts|
  {
    if |ts| > 0 {
      NonNegativeSum(ts[..|ts| - 1], p);
    }
  }

  /** When `setMonth` lands back in the current month, both sums are the
      same, so the message can only be "no expenses" or "unchanged". */
  lemma SameMonthMeansNoChange(ts: seq<Transaction>, now: Date)
    requires Valid(now)
    requires LastMonth(now).year == now.year && LastMonth(now).month == now.month
    ensures Recommend(ts, now) == NoExpensesLastMonth || Recommend(ts, now) == Unchanged
  {
  }

  /** In January, last month is December of the year before. */
  lemma LastMonthAcrossYearEnd()
    ensures LastMonth(Date(2025, 1, 15)) == Date(2024, 12, 15)
  {
    assert -1 / 12 == -1 && -1 % 12 + 1 == 12;
  }

  /** On 31 March, "last month" is 3 March: 31 February does not exist and
      spills over into March, so the comparison is March against March. */
  lemma LastMonthOfMarch31()
    ensures LastMonth(Date(2025, 3, 31)) == Date(2025, 3, 3)
  {
    assert 1 / 12 == 0 && 1 % 12 + 1 == 2;
    assert !IsLeapYear(2025);
  }

  /** On 31 March, any transaction list gets "no expenses" or "unchanged". */
  lemma March31NeverReportsChange(ts: seq<Transaction>)
    ensures var r := Recommend(ts, Date(2025, 3, 31)); r.NoExpensesLastMonth? || r.Unchanged?
  {
    LastMonthOfMarch31();
    SameMonthMeansNoChange(ts, Date(2025, 3, 31));
  }
}
