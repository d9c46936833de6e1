/** The analysis page: time-bucket keys, the income/expense trend series,
    the budget-versus-actual rows and the two CSV exports. */
module Analysis {
  import opened Wrappers
  import opened Text
  import opened Calendar
  import opened Values
  import opened Ledger
  import opened ExportButton

  datatype TimeFrame = Daily | Weekly | Monthly | Yearly

  /** `formatDateByTimeFrame`. The weekly case moves `d` itself back to the
      week's Sunday before formatting it a second time, so both halves of
      the weekly key are the week start. */
  function BucketKey(d: Date, tf: TimeFrame): (key: string)
    ensures tf == Daily ==> key == LocaleString(d)
    ensures tf == Weekly ==>
      key == LocaleString(FromDayNumber(WeekStartDay(d))) + " - " + LocaleString(FromDayNumber(WeekStartDay(d)))
    ensures tf == Monthly ==> key == IntToString(d.month) + "/" + IntToString(d.year)
    ensures tf == Yearly ==> key == IntToString(d.year)
  {
    match tf
    case Daily => LocaleString(d)
    case Weekly =>
      var start := LocaleString(FromDayNumber(WeekStartDay(d)));
      start + " - " + start
    case Monthly => IntToString(d.month) + "/" + IntToString(d.year)
    case Yearly => IntToString(d.year)
  }

  /** The daily, monthly and yearly keys tell their buckets apart: two
      dates share a daily key exactly when they are the same day, a monthly
      key exactly when they fall in the same month of the same year, and a
      yearly key exactly when they fall in the same year. */
  lemma BucketKeysSeparate(d: Date, e: Date)
    ensures BucketKey(d, Daily) == BucketKey(e, Daily) <==> d == e
    ensures BucketKey(d, Monthly) == BucketKey(e, Monthly) <==> d.month == e.month && d.year == e.year
    ensures BucketKey(d, Yearly) == BucketKey(e, Yearly) <==> d.year == e.year
  {
    LocaleStringInjective(d, e);
    var md, yd := IntToString(d.month), IntToString(d.year);
    var me, ye := IntToString(e.month), IntToString(e.year);
    assert BucketKey(d, Monthly) == md + ['/'] + yd;
    assert BucketKey(e, Monthly) == me + ['/'] + ye;
    SplitAtSeparator(md, yd, me, ye, '/');
    IntToStringInjective(d.month, e.month);
    IntToStringInjective(d.year, e.year);
  }

  /** The weekly key is the week start written twice, and every date of the
      same Sunday-to-Saturday week gets the same key. */
  lemma WeeklyKeyIsWeekStartTwice(d: Date, e: Date)
    ensures exists w :: w == LocaleString(FromDayNumber(WeekStartDay(d))) && BucketKey(d, Weekly) == w + " - " + w
    ensures WeekStartDay(d) <= DayNumber(e) < WeekStartDay(d) + 7 ==> BucketKey(e, Weekly) == BucketKey(d, Weekly)
  {
    var w := LocaleString(FromDayNumber(WeekStartDay(d)));
    assert BucketKey(d, Weekly) == w + " - " + w;
    WeekStartIsSunday(d, e);
  }

  /* ---------------- trend series ---------------- */

  datatype TrendPoint = TrendPoint(key: string, income: int, expense: int)

  /** The bucket of a transaction under a time frame. */
  function BucketOf(tf: TimeFrame): Transaction -> string {
    (t: Transaction) => BucketKey(t.date, tf)
  }

  /** `acc.find(entry => entry.key === key)`, as a position (`|acc|` when absent). */
  function FindKey(acc: seq<TrendPoint>, key: string): (i: nat)
    ensures i <= |acc|
    ensures i < |acc| ==> acc[i].key == key
    ensures forall j :: 0 <= j < i ==> acc[j].key != key
    decreases |acc|
  {
    if |acc| == 0 then 0
    else if acc[0].key == key then 0
    else 1 + FindKey(acc[1..], key)
  }

  /** One step of the `trendData` reduce. An existing bucket adds the amount
      to `income` for an income and to `expense` for anything else; a new
      bucket starts with the amount in `income` for an income and in
      `expense` only for an expense. */
  function TrendStep(acc: seq<TrendPoint>, t: Transaction, bucket: Transaction -> string): (r: seq<TrendPoint>)
    ensures Keys(r) == if bucket(t) in Keys(acc) then Keys(acc) else Keys(acc) + [bucket(t)]
  {
    var key := bucket(t);
    var i := FindKey(acc, key);
    if i < |acc| then
      assert Keys(acc)[i] == key;
      if t.kind == "income" then acc[i := acc[i].(income := acc[i].income + t.amount)]
      else acc[i := acc[i].(expense := acc[i].expense + t.amount)]
    else
      assert key !in Keys(acc);
      acc + [TrendPoint(key,
                        if t.kind == "income" then t.amount else 0,
                        if t.kind == "expense" then t.amount else 0)]
  }

  /** The `trendData` reduce over the transactions in list order, for any
      choice of bucket. */
  function TrendFold(ts: seq<Transaction>, bucket: Transaction -> string): (r: seq<TrendPoint>)
    ensures |r| <= |ts|
    ensures |ts| > 0 ==> |r| > 0
    decreases |ts|
  {
    if |ts| == 0 then [] else TrendStep(TrendFold(ts[..|ts| - 1], bucket), ts[|ts| - 1], bucket)
  }

  /** `trendData`: one point per bucket, in the order the buckets first
      occur, carrying the bucket's income and (for income and expense
      transactions) its expense. */
  function TrendData(ts: seq<Transaction>, tf: TimeFrame): (r: seq<TrendPoint>)
    ensures Keys(r) == Dedup(BucketKeys(ts, BucketOf(tf)))
    ensures forall i :: 0 <= i < |r| ==>
      r[i].income == SumWhere(ts, OfKindInBucket("income", r[i].key, BucketOf(tf)))
    ensures WellKinded(ts) ==> forall i :: 0 <= i < |r| ==>
      r[i].expense == SumWhere(ts, OfKindInBucket("expense", r[i].key, BucketOf(tf)))
    ensures |ts| > 0 ==> |r| > 0
  {
    TrendKeysAreFirstSeen(ts, BucketOf(tf));
    TrendPointSums(ts, BucketOf(tf));
    TrendFold(ts, BucketOf(tf))
  }

  function Keys(ps: seq<TrendPoint>): (ks: seq<string>)
    ensures |ks| == |ps|
    ensures forall i :: 0 <= i < |ps| ==> ks[i] == ps[i].key
  {
    seq(|ps|, i requires 0 <= i < |ps| => ps[i].key)
  }

  /** The bucket of every transaction, in list order. */
  function BucketKeys(ts: seq<Transaction>, bucket: Transaction -> string): (ks: seq<string>)
    ensures |ks| == |ts|
    ensures forall i :: 0 <= i < |ts| ==> ks[i] == bucket(ts[i])
  {
    seq(|ts|, i requires 0 <= i < |ts| => bucket(ts[i]))
  }

  /** Transactions of a kind whose bucket is `key`. */
  function OfKindInBucket(kind: string, key: string, bucket: Transaction -> string): Transaction -> bool {
    (t: Transaction) => t.kind == kind && bucket(t) == key
  }

  /** The series has one point per distinct bucket, in the order the
      buckets first occur in the transaction list. */
  lemma {:induction false} TrendKeysAreFirstSeen(ts: seq<Transaction>, bucket: Transaction -> string)
    ensures Keys(TrendFold(ts, bucket)) == Dedup(BucketKeys(ts, bucket))
    decreases |ts|
  {
    if |ts| > 0 {
      var init := ts[..|ts| - 1];
      var t := ts[|ts| - 1];
      assert ts == init + [t];
      TrendKeysAreFirstSeen(init, bucket);
      assert BucketKeys(ts, bucket) == BucketKeys(init, bucket) + [bucket(t)];
      DedupSnoc(BucketKeys(init, bucket), bucket(t));
    }
  }

  /** The keys of the series are pairwise distinct. */
  lemma TrendKeysDistinct(ts: seq<Transaction>, tf: TimeFrame)
    ensures forall i, j :: 0 <= i < j < |TrendData(ts, tf)| ==> TrendData(ts, tf)[i].key != TrendData(ts, tf)[j].key
  {
    TrendKeysAreFirstSeen(ts, BucketOf(tf));
    var ks := Keys(TrendData(ts, tf));
    assert Distinct(ks);
    forall i, j | 0 <= i < j < |ks| ensures ks[i] != ks[j] {
    }
  }

  /** Each point's income is the sum of the income amounts in its bucket,
      and, when every transaction is an income or an expense, its expense
      is the sum of the expense amounts in its bucket: no amount is dropped
      or counted twice. */
  lemma {:induction false} TrendPointSums(ts: seq<Transaction>, bucket: Transaction -> string)
    ensures forall i :: 0 <= i < |TrendFold(ts, bucket)| ==>
      TrendFold(ts, bucket)[i].income == SumWhere(ts, OfKindInBucket("income", TrendFold(ts, bucket)[i].key, bucket))
    ensures WellKinded(ts) ==> forall i :: 0 <= i < |TrendFold(ts, bucket)| ==>
      TrendFold(ts, bucket)[i].expense == SumWhere(ts, OfKindInBucket("expense", TrendFold(ts, bucket)[i].key, bucket))
    decreases |ts|
  {
    if |ts| > 0 {
      var init := ts[..|ts| - 1];
      var t := ts[|ts| - 1];
      assert ts == init + [t];
      TrendPointSums(init, bucket);
      TrendPointSumsStep(init, t, bucket);
    }
  }

  /** The inductive step of `TrendPointSums`: one more transaction. */
  lemma TrendPointSumsStep(init: seq<Transaction>, t: Transaction, bucket: Transaction -> string)
    requires forall i :: 0 <= i < |TrendFold(init, bucket)| ==>
      TrendFold(init, bucket)[i].income == SumWhere(init, OfKindInBucket("income", TrendFold(init, bucket)[i].key, bucket))
    requires WellKinded(init) ==> forall i :: 0 <= i < |TrendFold(init, bucket)| ==>
      TrendFold(init, bucket)[i].expense == SumWhere(init, OfKindInBucket("expense", TrendFold(init, bucket)[i].key, bucket))
    ensures var r := TrendStep(TrendFold(init, bucket), t, bucket);
      forall i :: 0 <= i < |r| ==> r[i].income == SumWhere(init + [t], OfKindInBucket("income", r[i].key, bucket))
    ensures WellKinded(init + [t]) ==> var r := TrendStep(TrendFold(init, bucket), t, bucket);
      forall i :: 0 <= i < |r| ==> r[i].expense == SumWhere(init + [t], OfKindInBucket("expense", r[i].key, bucket))
  {
    var acc := TrendFold(init, bucket);
    var r := TrendStep(acc, t, bucket);
    TrendKeysAreFirstSeen(init, bucket);
    var key := bucket(t);
    var k := FindKey(acc, key);
    if k == |acc| {
      assert key !in Keys(acc);
      assert key !in BucketKeys(init, bucket);
      NoneInBucket(init, "income", key, bucket);
      NoneInBucket(init, "expense", key, bucket);
    }
    var wellKinded := WellKinded(init + [t]);
    if wellKinded {
      assert (init + [t])[|init|] == t;
      assert WellKinded(init) by {
        forall j | 0 <= j < |init| ensures init[j].kind == "income" || init[j].kind == "expense" {
          assert (init + [t])[j] == init[j];
        }
      }
    }
    forall i | 0 <= i < |r|
      ensures r[i].income == SumWhere(init + [t], OfKindInBucket("income", r[i].key, bucket))
      ensures wellKinded ==> r[i].expense == SumWhere(init + [t], OfKindInBucket("expense", r[i].key, bucket))
    {
      TrendIncomeStep(init, t, bucket, i);
      if wellKinded {
        TrendExpenseStep(init, t, bucket, i);
      }
    }
  }

  /** A bucket no transaction falls in sums to nothing. */
  lemma NoneInBucket(ts: seq<Transaction>, kind: string, key: string, bucket: Transaction -> string)
    requires key !in BucketKeys(ts, bucket)
    ensures SumWhere(ts, OfKindInBucket(kind, key, bucket)) == 0
  {
    var p := OfKindInBucket(kind, key, bucket);
    forall t | t in ts ensures !p(t) {
      var i :| 0 <= i < |ts| && ts[i] == t;
      assert BucketKeys(ts, bucket)[i] == bucket(t);
    }
    SumWhereNone(ts, p);
  }

  /** A point's income after one more step of the fold. */
  lemma TrendIncomeStep(init: seq<Transaction>, t: Transaction, bucket: Transaction -> string, i: nat)
    requires var acc := TrendFold(init, bucket);
      forall j :: 0 <= j < |acc| ==> acc[j].income == SumWhere(init, OfKindInBucket("income", acc[j].key, bucket))
    requires FindKey(TrendFold(init, bucket), bucket(t)) == |TrendFold(init, bucket)| ==>
      SumWhere(init, OfKindInBucket("income", bucket(t), bucket)) == 0
    requires Distinct(Keys(TrendFold(init, bucket)))
    requires i < |TrendStep(TrendFold(init, bucket), t, bucket)|
    ensures var r := TrendStep(TrendFold(init, bucket), t, bucket);
      r[i].income == SumWhere(init + [t], OfKindInBucket("income", r[i].key, bucket))
  {
    var acc := TrendFold(init, bucket);
    var r := TrendStep(acc, t, bucket);
    var p := OfKindInBucket("income", r[i].key, bucket);
    SumWhereAppend(init, [t], p);
    SumWhereSingle(t, p);
    var k := FindKey(acc, bucket(t));
    if i < |acc| && i != k {
      assert Keys(acc)[i] == acc[i].key;
      if k < |acc| {
        assert Keys(acc)[k] == acc[k].key;
      }
      assert r[i] == acc[i];
      assert !p(t);
    }
  }

  /** A point's expense after one more step of the fold, for an income or
      an expense. */
  lemma TrendExpenseStep(init: seq<Transaction>, t: Transaction, bucket: Transaction -> string, i: nat)
    requires t.kind == "income" || t.kind == "expense"
    requires var acc := TrendFold(init, bucket);
      forall j :: 0 <= j < |acc| ==> acc[j].expense == SumWhere(init, OfKindInBucket("expense", acc[j].key, bucket))
    requires FindKey(TrendFold(init, bucket), bucket(t)) == |TrendFold(init, bucket)| ==>
      SumWhere(init, OfKindInBucket("expense", bucket(t), bucket)) == 0
    requires Distinct(Keys(TrendFold(init, bucket)))
    requires i < |TrendStep(TrendFold(init, bucket), t, bucket)|
    ensures var r := TrendStep(TrendFold(init, bucket), t, bucket);
      r[i].expense == SumWhere(init + [t], OfKindInBucket("expense", r[i].key, bucket))
  {
    var acc := TrendFold(init, bucket);
    var r := TrendStep(acc, t, bucket);
    var p := OfKindInBucket("expense", r[i].key, bucket);
    SumWhereAppend(init, [t], p);
    SumWhereSingle(t, p);
    var k := FindKey(acc, bucket(t));
    if i < |acc| && i != k {
      assert Keys(acc)[i] == acc[i].key;
      if k < |acc| {
        assert Keys(acc)[k] == acc[k].key;
      }
      assert r[i] == acc[i];
      assert !p(t);
    }
  }

  function IncomeSum(ps: seq<TrendPoint>): int
    decreases |ps|
  {
    if |ps| == 0 then 0 else IncomeSum(ps[..|ps| - 1]) + ps[|ps| - 1].income
  }

  function ExpenseSum(ps: seq<TrendPoint>): int
    decreases |ps|
  {
    if |ps| == 0 then 0 else ExpenseSum(ps[..|ps| - 1]) + ps[|ps| - 1].expense
  }

  /** Replacing one point changes the column sums by the change in that point. */
  lemma {:induction false} SumsAfterUpdate(ps: seq<TrendPoint>, i: nat, p: TrendPoint)
    requires i < |ps|
    ensures IncomeSum(ps[i := p]) == IncomeSum(ps) - ps[i].income + p.income
    ensures ExpenseSum(ps[i := p]) == ExpenseSum(ps) - ps[i].expense + p.expense
    decreases |ps|
  {
    var q := ps[i := p];
    if i < |ps| - 1 {
      assert q[..|q| - 1] == ps[..|ps| - 1][i := p];
      SumsAfterUpdate(ps[..|ps| - 1], i, p);
    } else {
      assert q[..|q| - 1] == ps[..|ps| - 1];
    }
  }

  /** Over the whole series, the income column adds up to the total income,
      and for income/expense transactions the expense column adds up to the
      total expense. */
  lemma {:induction false} TrendColumnTotals(ts: seq<Transaction>, bucket: Transaction -> string)
    ensures IncomeSum(TrendFold(ts, bucket)) == SumWhere(ts, OfKind("income"))
    ensures WellKinded(ts) ==> ExpenseSum(TrendFold(ts, bucket)) == SumWhere(ts, OfKind("expense"))
    decreases |ts|
  {
    if |ts| > 0 {
      var init := ts[..|ts| - 1];
      var t := ts[|ts| - 1];
      TrendColumnTotals(init, bucket);
      assert WellKinded(ts) ==> WellKinded(init) && (t.kind == "income" || t.kind == "expense");
      TrendStepTotals(TrendFold(init, bucket), t, bucket);
    }
  }

  /** One step of the fold adds an income's amount to the income column
      and, for an income or an expense, an expense's amount to the expense
      column. */
  lemma TrendStepTotals(acc: seq<TrendPoint>, t: Transaction, bucket: Transaction -> string)
    ensures IncomeSum(TrendStep(acc, t, bucket)) == IncomeSum(acc) + (if t.kind == "income" then t.amount else 0)
    ensures t.kind == "income" || t.kind == "expense" ==>
      ExpenseSum(TrendStep(acc, t, bucket)) == ExpenseSum(acc) + (if t.kind == "expense" then t.amount else 0)
  {
    var r := TrendStep(acc, t, bucket);
    var k := FindKey(acc, bucket(t));
    if k < |acc| {
      if t.kind == "income" {
        SumsAfterUpdate(acc, k, acc[k].(income := acc[k].income + t.amount));
      } else {
        SumsAfterUpdate(acc, k, acc[k].(expense := acc[k].expense + t.amount));
      }
    } else {
      assert r[..|r| - 1] == acc;
    }
  }

  /* ---------------- budget versus actual ---------------- */

  datatype BudgetRow = BudgetRow(key: string, budget: int, actual: int)

  /** Expenses of `category` whose bucket key is, as a string, at least the
      current bucket's key. */
  function ExpenseFromBucket(category: string, current: string, tf: TimeFrame): Transaction -> bool {
    (t: Transaction) => t.kind == "expense" && t.category == category && AtLeast(BucketKey(t.date, tf), current)
  }

  /** Transactions whose type is, as a string, at least "expense" and whose
      bucket is the current one. */
  function TotalRowSelects(current: string, tf: TimeFrame): Transaction -> bool {
    (t: Transaction) => AtLeast(t.kind, "expense") && BucketKey(t.date, tf) == current
  }

  /** Expenses of `category` in bucket `current`. */
  function ExpenseInBucket(category: string, current: string, tf: TimeFrame): Transaction -> bool {
    (t: Transaction) => t.kind == "expense" && t.category == category && BucketKey(t.date, tf) == current
  }

  /** `getTotalExpensesByCategoryAndTimeFrame`. With non-negative amounts it
      lies between the category's expenses in the current bucket and all of
      the category's expenses: the string comparison may also let in
      buckets other than the current one. */
  function CategoryActual(ts: seq<Transaction>, category: string, tf: TimeFrame, today: Date): (actual: int)
    ensures (forall i :: 0 <= i < |ts| ==> ts[i].amount >= 0) ==>
      SumWhere(ts, ExpenseInBucket(category, BucketKey(today, tf), tf)) <= actual
      && actual <= SumWhere(ts, OfKindIn("expense", category))
  {
    var current := BucketKey(today, tf);
    ActualBounds(ts, category, current, tf);
    SumWhere(ts, ExpenseFromBucket(category, current, tf))
  }

  lemma ActualBounds(ts: seq<Transaction>, category: string, current: string, tf: TimeFrame)
    ensures (forall i :: 0 <= i < |ts| ==> ts[i].amount >= 0) ==>
      SumWhere(ts, ExpenseInBucket(category, current, tf)) <= SumWhere(ts, ExpenseFromBucket(category, current, tf))
      && SumWhere(ts, ExpenseFromBucket(category, current, tf)) <= SumWhere(ts, OfKindIn("expense", category))
  {
    if forall i :: 0 <= i < |ts| ==> ts[i].amount >= 0 {
      forall i | 0 <= i < |ts| && ExpenseInBucket(category, current, tf)(ts[i])
        ensures ExpenseFromBucket(category, current, tf)(ts[i])
      {
        LessTrichotomy(current, current);
      }
      SumWhereMonotone(ts, ExpenseInBucket(category, current, tf), ExpenseFromBucket(category, current, tf));
      SumWhereMonotone(ts, ExpenseFromBucket(category, current, tf), OfKindIn("expense", category));
    }
  }

  /** `getTotalExpensesByTimeFrame`. `"income" >= "expense"` holds, so when
      every transaction is an income or an expense the Total row's actual is
      all the money of the current bucket: its income plus its expense. */
  function TotalActual(ts: seq<Transaction>, tf: TimeFrame, today: Date): (actual: int)
    ensures WellKinded(ts) ==> (actual ==
      SumWhere(ts, OfKindInBucket("income", BucketKey(today, tf), BucketOf(tf)))
      + SumWhere(ts, OfKindInBucket("expense", BucketKey(today, tf), BucketOf(tf))))
  {
    var current := BucketKey(today, tf);
    TotalRowSplit(ts, current, tf);
    SumWhere(ts, TotalRowSelects(current, tf))
  }

  /** `budgetData`: one row per category limit, in key order, then the Total
      row. Limits are numbers here, so `limit || 0` is the limit itself. */
  function BudgetData(ts: seq<Transaction>, s: Settings, tf: TimeFrame, today: Date): (r: seq<BudgetRow>)
    ensures |r| == |s.categoryLimits| + 1
    ensures forall i :: 0 <= i < |s.categoryLimits| ==>
      r[i].key == BucketKey(today, tf) + "_" + s.categoryLimits[i].0
      && r[i].budget == s.categoryLimits[i].1
      && r[i].actual == CategoryActual(ts, s.categoryLimits[i].0, tf, today)
    ensures r[|r| - 1] == BudgetRow("Total_" + BucketKey(today, tf), s.totalBudgetLimit, TotalActual(ts, tf, today))
  {
    var current := BucketKey(today, tf);
    var limits := s.categoryLimits;
    seq(|limits|, i requires 0 <= i < |limits| =>
      BudgetRow(current + "_" + limits[i].0, limits[i].1, CategoryActual(ts, limits[i].0, tf, today)))
    + [BudgetRow("Total_" + current, s.totalBudgetLimit, TotalActual(ts, tf, today))]
  }

  /** The Total row's selection splits into the bucket's incomes and
      expenses when every transaction is one of the two. */
  lemma TotalRowSplit(ts: seq<Transaction>, current: string, tf: TimeFrame)
    ensures WellKinded(ts) ==> (SumWhere(ts, TotalRowSelects(current, tf)) ==
      SumWhere(ts, OfKindInBucket("income", current, BucketOf(tf)))
      + SumWhere(ts, OfKindInBucket("expense", current, BucketOf(tf))))
  {
    if WellKinded(ts) {
      assert AtLeast("income", "expense");
      assert AtLeast("expense", "expense") by {
        LessTrichotomy("expense", "expense");
      }
      SumWhereDisjointUnion(ts, TotalRowSelects(current, tf),
        OfKindInBucket("income", current, BucketOf(tf)), OfKindInBucket("expense", current, BucketOf(tf)));
    }
  }

  /** Category actuals compare bucket strings, not dates. In December 2024,
      a January 2025 expense ("1/2025") is below "12/2024" and is left out,
      while a February 2024 expense ("2/2024") is above it and is counted. */
  lemma MonthlyBucketsCompareAsStrings()
    ensures BucketKey(Date(2024, 12, 10), Monthly) == "12/2024"
    ensures BucketKey(Date(2025, 1, 5), Monthly) == "1/2025"
    ensures BucketKey(Date(2024, 2, 5), Monthly) == "2/2024"
    ensures !AtLeast("1/2025", "12/2024")
    ensures AtLeast("2/2024", "12/2024")
  {
    NumberTexts();
    assert Less("1/2025", "12/2024") by {
      assert "1/2025"[1..] == "/2025" && "12/2024"[1..] == "2/2024";
    }
    assert !Less("2/2024", "12/2024");
  }

  /** The decimal texts the examples use. */
  lemma NumberTexts()
    ensures IntToString(1) == "1" && IntToString(2) == "2" && IntToString(12) == "12"
    ensures IntToString(2024) == "2024" && IntToString(2025) == "2025"
  {
  }

  lemma CategoryActualAcrossYearEnd(jan: Transaction, feb: Transaction)
    requires jan.kind == "expense" && jan.category == "Food" && jan.date == Date(2025, 1, 5)
    requires feb.kind == "expense" && feb.category == "Food" && feb.date == Date(2024, 2, 5)
    ensures CategoryActual([jan, feb], "Food", Monthly, Date(2024, 12, 10)) == feb.amount
  {
    MonthlyBucketsCompareAsStrings();
    var p := ExpenseFromBucket("Food", "12/2024", Monthly);
    assert !p(jan) && p(feb);
    var ts := [jan, feb];
    assert ts[..1] == [jan] && ts[..1][..0] == [];
    assert SumWhere([jan], p) == 0;
  }

  /* ---------------- exports ---------------- */

  /** The headers the trend export asks for; the points carry `expense`,
      not `expenses`. */
  const TrendHeaders: seq<string> := ["key", "income", "expenses"]

  const BudgetHeaders: seq<string> := ["key", "budget", "actual"]

  function TrendRecord(p: TrendPoint): Record {
    map["key" := Str(p.key), "income" := Num(p.income), "expense" := Num(p.expense)]
  }

  function BudgetRecord(b: BudgetRow): Record {
    map["key" := Str(b.key), "budget" := Num(b.budget), "actual" := Num(b.actual)]
  }

  function TrendRecords(ps: seq<TrendPoint>): (rs: seq<Record>)
    ensures |rs| == |ps|
    ensures forall i :: 0 <= i < |ps| ==> rs[i] == TrendRecord(ps[i])
  {
    seq(|ps|, i requires 0 <= i < |ps| => TrendRecord(ps[i]))
  }

  function BudgetRecords(bs: seq<BudgetRow>): (rs: seq<Record>)
    ensures |rs| == |bs|
    ensures forall i :: 0 <= i < |bs| ==> rs[i] == BudgetRecord(bs[i])
  {
    seq(|bs|, i requires 0 <= i < |bs| => BudgetRecord(bs[i]))
  }

  datatype ReportType = Trend | Budget

  /** The CSV the analysis page's export button produces, rows in the
      order the series is built. The trend export has a file exactly when
      there are transactions, and the budget export always has one (the
      Total row is always there); each starts with its header line. */
  function ExportCsv(report: ReportType, ts: seq<Transaction>, s: Settings, tf: TimeFrame, today: Date): (r: Option<string>)
    ensures report == Trend ==> (r.Some? <==> |ts| > 0)
    ensures report == Budget ==> r.Some?
    ensures r.Some? ==> StartsWith(r.value, Join(if report == Trend then TrendHeaders else BudgetHeaders, ","))
  {
    match report
    case Trend => ConvertToCsv(Some(TrendRecords(TrendData(ts, tf))), TrendHeaders)
    case Budget => ConvertToCsv(Some(BudgetRecords(BudgetData(ts, s, tf, today))), BudgetHeaders)
  }

  /** Every record line of the trend export reads back with an empty third
      (`expenses`) column, whatever the data. */
  lemma TrendExpensesColumnIsEmpty(ts: seq<Transaction>, tf: TimeFrame)
    requires |ts| > 0
    ensures var records := TrendRecords(TrendData(ts, tf));
      && |records| > 0
      && ReadRows(Body(records, TrendHeaders)) == Some(Table(records, TrendHeaders))
      && forall i :: 0 <= i < |records| ==> Table(records, TrendHeaders)[i][2] == ""
  {
    var records := TrendRecords(TrendData(ts, tf));
    CsvRoundTrip(records, TrendHeaders);
    forall i | 0 <= i < |records| ensures Table(records, TrendHeaders)[i][2] == "" {
      ExpensesKeyMissing(TrendData(ts, tf)[i]);
    }
  }

  /** A trend record has no `expenses` key: its key is `expense`. */
  lemma ExpensesKeyMissing(p: TrendPoint)
    ensures "expenses" !in TrendRecord(p)
  {
    assert |"expenses"| == 8 && |"expense"| == 7 && |"income"| == 6 && |"key"| == 3;
  }
}
