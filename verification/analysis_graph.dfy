/** The income/expense bar chart: one bar per distinct category, in the
    order the categories first appear, stacking that category's income and
    expense. */
module AnalysisGraph {
  import opened Ledger

  datatype CategoryBar = CategoryBar(category: string, income: int, expense: int)

  /** The category of every transaction, in list order. */
  function CategoryColumn(ts: seq<Transaction>): (cs: seq<string>)
    ensures |cs| == |ts|
    ensures forall i :: 0 <= i < |ts| ==> cs[i] == ts[i].category
  {
    seq(|ts|, i requires 0 <= i < |ts| => ts[i].category)
  }

  /** `Array.from(new Set(transactions.map(t => t.category)))`. */
  function Categories(ts: seq<Transaction>): seq<string> {
    Dedup(CategoryColumn(ts))
  }

  /** One bar: the category's transactions filtered by type and summed. */
  function Bar(ts: seq<Transaction>, category: string): (b: CategoryBar)
    ensures b.category == category
    ensures b.income == SumWhere(ts, OfKindIn("income", category))
    ensures b.expense == SumWhere(ts, OfKindIn("expense", category))
  {
    var inCategory := Filter(ts, InCategory(category));
    FilterFilter(ts, InCategory(category), OfKind("income"), OfKindIn("income", category));
    FilterFilter(ts, InCategory(category), OfKind("expense"), OfKindIn("expense", category));
    TotalOfFilter(ts, OfKindIn("income", category));
    TotalOfFilter(ts, OfKindIn("expense", category));
    CategoryBar(category,
                Total(Filter(inCategory, OfKind("income"))),
                Total(Filter(inCategory, OfKind("expense"))))
  }

  /** The chart's data. Each category appears once, in first-seen order,
      with its income and expense sums. */
  function GraphData(ts: seq<Transaction>): (r: seq<CategoryBar>)
    ensures |r| == |Categories(ts)|
    ensures forall i :: 0 <= i < |r| ==>
      && r[i].category == Categories(ts)[i]
      && r[i].income == SumWhere(ts, OfKindIn("income", r[i].category))
      && r[i].expense == SumWhere(ts, OfKindIn("expense", r[i].category))
  {
    var cs := Categories(ts);
    seq(|cs|, i requires 0 <= i < |cs| => Bar(ts, cs[i]))
  }

  /** Some transaction is filed under `category`. */
  predicate UsesCategory(ts: seq<Transaction>, category: string) {
    exists k :: 0 <= k < |ts| && ts[k].category == category
  }

  /** Some bar is labelled `category`. */
  predicate HasBar(bars: seq<CategoryBar>, category: string) {
    exists i :: 0 <= i < |bars| && bars[i].category == category
  }

  /** The bars are exactly the categories in use, each once. */
  lemma GraphCategories(ts: seq<Transaction>)
    ensures forall c :: HasBar(GraphData(ts), c) <==> UsesCategory(ts, c)
    ensures forall i, j :: 0 <= i < j < |GraphData(ts)| ==> GraphData(ts)[i].category != GraphData(ts)[j].category
  {
    var r := GraphData(ts);
    var cs := Categories(ts);
    forall c ensures HasBar(r, c) <==> UsesCategory(ts, c) {
      if UsesCategory(ts, c) {
        var k :| 0 <= k < |ts| && ts[k].category == c;
        assert CategoryColumn(ts)[k] == c;
        assert c in cs;
        var i :| 0 <= i < |cs| && cs[i] == c;
        assert r[i].category == c;
      }
      if HasBar(r, c) {
        var i :| 0 <= i < |r| && r[i].category == c;
        assert cs[i] in CategoryColumn(ts);
        var k :| 0 <= k < |ts| && CategoryColumn(ts)[k] == c;
        assert ts[k].category == c;
      }
    }
    assert Distinct(cs);
  }

  /** The sum of one type's amounts over a list of categories. */
  function SumOverCategories(ts: seq<Transaction>, cs: seq<string>, kind: string): int
    decreases |cs|
  {
    if |cs| == 0 then 0
    else SumOverCategories(ts, cs[..|cs| - 1], kind) + SumWhere(ts, OfKindIn(kind, cs[|cs| - 1]))
  }

  /** One more transaction adds its amount to the sum over distinct
      categories exactly when its type matches and its category is listed. */
  lemma {:induction false} SumOverCategoriesSnoc(init: seq<Transaction>, t: Transaction, cs: seq<string>, kind: string)
    requires Distinct(cs)
    ensures SumOverCategories(init + [t], cs, kind)
      == SumOverCategories(init, cs, kind) + (if t.kind == kind && t.category in cs then t.amount else 0)
    decreases |cs|
  {
    if |cs| > 0 {
      var front := cs[..|cs| - 1];
      var c := cs[|cs| - 1];
      assert Distinct(front);
      SumOverCategoriesSnoc(init, t, front, kind);
      SumWhereAppend(init, [t], OfKindIn(kind, c));
      SumWhereSingle(t, OfKindIn(kind, c));
      assert t.category in cs <==> t.category in front || t.category == c;
      assert c !in front;
    }
  }

  /** The bars partition the money: over all bars, the income adds up to
      the total income and the expense to the total expense. */
  lemma {:induction false} BarsAddUpToTotals(ts: seq<Transaction>, kind: string)
    ensures SumOverCategories(ts, Categories(ts), kind) == SumWhere(ts, OfKind(kind))
    decreases |ts|
  {
    if |ts| > 0 {
      var init := ts[..|ts| - 1];
      var t := ts[|ts| - 1];
      assert ts == init + [t];
      BarsAddUpToTotals(init, kind);
      BarsStep(init, t, kind);
    }
  }

  /** One more transaction keeps the bars adding up to the total. */
  lemma BarsStep(init: seq<Transaction>, t: Transaction, kind: string)
    requires SumOverCategories(init, Categories(init), kind) == SumWhere(init, OfKind(kind))
    ensures SumOverCategories(init + [t], Categories(init + [t]), kind) == SumWhere(init + [t], OfKind(kind))
  {
    var d := Categories(init);
    SumOverCategoriesSnoc(init, t, d, kind);
    CategoriesSnoc(init, t);
    if t.category in d {
      SeenCategoryStep(init, t, kind);
    } else {
      NewCategoryStep(init, t, d, kind);
    }
  }

  /** One more transaction adds its category to the chart when it is new. */
  lemma CategoriesSnoc(init: seq<Transaction>, t: Transaction)
    ensures Categories(init + [t]) == if t.category in Categories(init) then Categories(init) else Categories(init) + [t.category]
  {
    var column := CategoryColumn(init + [t]);
    assert column[..|column| - 1] == CategoryColumn(init);
    assert column[|column| - 1] == t.category;
  }

  /** The step of `BarsAddUpToTotals` where `t`'s category already has a bar. */
  lemma SeenCategoryStep(init: seq<Transaction>, t: Transaction, kind: string)
    requires t.category in Categories(init)
    requires SumOverCategories(init, Categories(init), kind) == SumWhere(init, OfKind(kind))
    requires SumOverCategories(init + [t], Categories(init), kind)
      == SumOverCategories(init, Categories(init), kind) + (if t.kind == kind then t.amount else 0)
    ensures SumOverCategories(init + [t], Categories(init), kind) == SumWhere(init + [t], OfKind(kind))
  {
    SumWhereAppend(init, [t], OfKind(kind));
    SumWhereSingle(t, OfKind(kind));
  }

  /** The step of `BarsAddUpToTotals` where `t` opens a new category. */
  lemma NewCategoryStep(init: seq<Transaction>, t: Transaction, d: seq<string>, kind: string)
    requires d == Categories(init) && t.category !in d
    requires SumOverCategories(init, d, kind) == SumWhere(init, OfKind(kind))
    requires SumOverCategories(init + [t], d, kind) == SumOverCategories(init, d, kind)
    ensures SumOverCategories(init + [t], d + [t.category], kind) == SumWhere(init + [t], OfKind(kind))
  {
    var ts := init + [t];
    var e := d + [t.category];
    assert e[..|e| - 1] == d && e[|e| - 1] == t.category;
    assert SumWhere(init, OfKindIn(kind, t.category)) == 0 by {
      forall i | 0 <= i < |init| ensures !OfKindIn(kind, t.category)(init[i]) {
        assert CategoryColumn(init)[i] == init[i].category;
      }
      SumWhereNone(init, OfKindIn(kind, t.category));
    }
    SumWhereAppend(init, [t], OfKindIn(kind, t.category));
    SumWhereSingle(t, OfKindIn(kind, t.category));
    SumWhereAppend(init, [t], OfKind(kind));
    SumWhereSingle(t, OfKind(kind));
  }

  /** Column sums of the chart data. */
  function IncomeColumn(bars: seq<CategoryBar>): int
    decreases |bars|
  {
    if |bars| == 0 then 0 else IncomeColumn(bars[..|bars| - 1]) + bars[|bars| - 1].income
  }

  function ExpenseColumn(bars: seq<CategoryBar>): int
    decreases |bars|
  {
    if |bars| == 0 then 0 else ExpenseColumn(bars[..|bars| - 1]) + bars[|bars| - 1].expense
  }

  lemma {:induction false} ColumnsAreCategorySums(ts: seq<Transaction>, cs: seq<string>, bars: seq<CategoryBar>)
    requires |bars| == |cs|
    requires forall i :: 0 <= i < |bars| ==>
      bars[i].income == SumWhere(ts, OfKindIn("income", cs[i]))
      && bars[i].expense == SumWhere(ts, OfKindIn("expense", cs[i]))
    ensures IncomeColumn(bars) == SumOverCategories(ts, cs, "income")
    ensures ExpenseColumn(bars) == SumOverCategories(ts, cs, "expense")
    decreases |bars|
  {
    if |bars| > 0 {
      ColumnsAreCategorySums(ts, cs[..|cs| - 1], bars[..|bars| - 1]);
    }
  }

  /** The stacked chart shows all the income and all the expense. */
  lemma GraphTotals(ts: seq<Transaction>)
    ensures IncomeColumn(GraphData(ts)) == SumWhere(ts, OfKind("income"))
    ensures ExpenseColumn(GraphData(ts)) == SumWhere(ts, OfKind("expense"))
  {
    ColumnsAreCategorySums(ts, Categories(ts), GraphData(ts));
    BarsAddUpToTotals(ts, "income");
    BarsAddUpToTotals(ts, "expense");
  }
}
