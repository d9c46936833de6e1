/** The balance-over-time chart: the transactions stably sorted by date, and
    one point per transaction carrying the running balance. */
module BalanceOverTime {
  import opened Calendar
  import opened Ledger
  import opened StableSort
  import Dashboard

  datatype BalancePoint = BalancePoint(date: string, balance: int)

  /** `new Date(a.date) - new Date(b.date)` compares dates by their day. */
  function DateKey(): Transaction -> int {
    (t: Transaction) => DayNumber(t.date)
  }

  /** What a transaction does to the balance: an income adds its amount,
      anything else subtracts it. */
  function Signed(t: Transaction): int {
    if t.kind == "income" then t.amount else -t.amount
  }

  /** The balance after a list of transactions. */
  function SignedSum(ts: seq<Transaction>): int
    decreases |ts|
  {
    if |ts| == 0 then 0 else SignedSum(ts[..|ts| - 1]) + Signed(ts[|ts| - 1])
  }

  lemma SignedSumSnoc(s: seq<Transaction>, x: Transaction)
    ensures SignedSum(s + [x]) == SignedSum(s) + Signed(x)
  {
    assert (s + [x])[..|s|] == s;
  }

  /** Point `i` of the chart over `sorted`: transaction `i`'s date and the
      balance after transactions `0..i`. */
  function PointAt(sorted: seq<Transaction>, i: nat): BalancePoint
    requires i < |sorted|
  {
    BalancePoint(LocaleString(sorted[i].date), SignedSum(sorted[..i + 1]))
  }

  /** The running balance's loop invariant after `i` transactions. */
  predicate PointsSoFar(sorted: seq<Transaction>, points: seq<BalancePoint>, cumulative: int, i: nat)
    requires i <= |sorted|
  {
    && |points| == i
    && cumulative == SignedSum(sorted[..i])
    && forall j :: 0 <= j < i ==> points[j] == PointAt(sorted, j)
  }

  /** One step of the running balance: adding transaction `i`'s effect and
      its point keeps the invariant. */
  lemma RunningStep(sorted: seq<Transaction>, points: seq<BalancePoint>, cumulative: int, i: nat)
    requires i < |sorted| && PointsSoFar(sorted, points, cumulative, i)
    ensures PointsSoFar(sorted, points + [BalancePoint(LocaleString(sorted[i].date), cumulative + Signed(sorted[i]))],
                        cumulative + Signed(sorted[i]), i + 1)
  {
    var cumulative' := cumulative + Signed(sorted[i]);
    var points' := points + [BalancePoint(LocaleString(sorted[i].date), cumulative')];
    assert cumulative' == SignedSum(sorted[..i + 1]) by {
      assert sorted[..i + 1] == sorted[..i] + [sorted[i]];
      SignedSumSnoc(sorted[..i], sorted[i]);
    }
    forall j | 0 <= j < i + 1 ensures points'[j] == PointAt(sorted, j) {
      if j < i {
        assert points'[j] == points[j];
      }
    }
  }

  /** The running balance over a list already in chart order: point `i`
      is labelled with transaction `i`'s date and carries the balance after
      transactions `0..i`. */
  method RunningBalance(sorted: seq<Transaction>) returns (points: seq<BalancePoint>)
    ensures |points| == |sorted|
    ensures forall i :: 0 <= i < |sorted| ==>
      points[i] == BalancePoint(LocaleString(sorted[i].date), SignedSum(sorted[..i + 1]))
  {
    points := [];
    var cumulative := 0;
    var i := 0;
    while i < |sorted|
      invariant 0 <= i <= |sorted|
      invariant PointsSoFar(sorted, points, cumulative, i)
    {
      var t := sorted[i];
      RunningStep(sorted, points, cumulative, i);
      cumulative := cumulative + (if t.kind == "income" then t.amount else -t.amount);
      points := points + [BalancePoint(LocaleString(t.date), cumulative)];
      i := i + 1;
    }
    assert forall j :: 0 <= j < |sorted| ==> points[j] == PointAt(sorted, j);
  }

  /** The chart's series: the running balance over the transactions stably
      sorted by date; it ends at the balance of the whole list. */
  method BalanceSeries(ts: seq<Transaction>) returns (points: seq<BalancePoint>)
    ensures |points| == |ts|
    ensures forall i :: 0 <= i < |ts| ==>
      points[i] == BalancePoint(LocaleString(Sort(ts, DateKey())[i].date), SignedSum(Sort(ts, DateKey())[..i + 1]))
    ensures |ts| > 0 ==> points[|ts| - 1].balance == SignedSum(ts)
  {
    var sorted := Sort(ts, DateKey());
    points := RunningBalance(sorted);
    if |ts| > 0 {
      assert sorted[..|ts|] == sorted;
      SignedSumSort(ts, DateKey());
    }
  }

  /** Insertion adds the inserted transaction's effect to the balance. */
  lemma {:induction false} SignedSumInsert(s: seq<Transaction>, x: Transaction, key: Transaction -> int)
    ensures SignedSum(Insert(s, x, key)) == SignedSum(s) + Signed(x)
    decreases |s|
  {
    if |s| == 0 {
      assert [x][..0] == [];
    } else if key(s[|s| - 1]) <= key(x) {
      SignedSumSnoc(s, x);
    } else {
      var init := s[..|s| - 1];
      SignedSumInsert(init, x, key);
      SignedSumSnoc(Insert(init, x, key), s[|s| - 1]);
    }
  }

  /** Sorting does not change the final balance. */
  lemma {:induction false} SignedSumSort(s: seq<Transaction>, key: Transaction -> int)
    ensures SignedSum(Sort(s, key)) == SignedSum(s)
    decreases |s|
  {
    if |s| > 0 {
      var init := s[..|s| - 1];
      SignedSumSort(init, key);
      SignedSumInsert(Sort(init, key), s[|s| - 1], key);
    }
  }

  /** The balance of income and expense transactions is the income total
      minus the expense total. */
  lemma {:induction false} SignedSumIsBalance(ts: seq<Transaction>)
    requires WellKinded(ts)
    ensures SignedSum(ts) == SumWhere(ts, OfKind("income")) - SumWhere(ts, OfKind("expense"))
    decreases |ts|
  {
    if |ts| > 0 {
      SignedSumIsBalance(ts[..|ts| - 1]);
    }
  }

  /** The chart ends where the dashboard's balance is: sorting by date
      changes the order of the running balance, not where it finishes. */
  lemma SeriesEndsAtBalance(ts: seq<Transaction>)
    requires WellKinded(ts)
    ensures SignedSum(Sort(ts, DateKey())) == Dashboard.Summarize(ts).balance
  {
    SignedSumSort(ts, DateKey());
    SignedSumIsBalance(ts);
  }
}
