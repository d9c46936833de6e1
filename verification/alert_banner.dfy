/** The alert banner: nothing when alerts are off; otherwise whether total
    spending is over the total limit, and which limited categories are over
    their own limits. */
module AlertBanner {
  import opened Wrappers
  import opened Text
  import opened Ledger

  /** Some expense is filed under `category`. */
  predicate HasExpenseIn(ts: seq<Transaction>, category: string) {
    exists i :: 0 <= i < |ts| && ts[i].kind == "expense" && ts[i].category == category
  }

  /** `categoryExpenses`: the reduce that adds every expense to its
      category's entry, creating the entry at its first expense. */
  function CategoryExpenses(ts: seq<Transaction>): (m: map<string, int>)
    ensures forall c :: c in m <==> HasExpenseIn(ts, c)
    ensures forall c :: c in m ==> m[c] == SumWhere(ts, OfKindIn("expense", c))
    decreases |ts|
  {
    if |ts| == 0 then map[]
    else
      var init := ts[..|ts| - 1];
      var t := ts[|ts| - 1];
      var acc := CategoryExpenses(init);
      assert ts == init + [t];
      ExpenseStep(init, t, acc);
      if t.kind == "expense" then
        acc[t.category := (if t.category in acc then acc[t.category] else 0) + t.amount]
      else acc
  }

  /** What one more transaction `t` changes for each category: whether it
      has an expense, and its expense sum. */
  lemma ExpenseStep(init: seq<Transaction>, t: Transaction, acc: map<string, int>)
    requires forall c :: c in acc <==> HasExpenseIn(init, c)
    ensures forall c :: HasExpenseIn(init + [t], c) <==> HasExpenseIn(init, c) || (t.kind == "expense" && t.category == c)
    ensures forall c :: c !in acc ==> SumWhere(init, OfKindIn("expense", c)) == 0
    ensures forall c ::
      SumWhere(init + [t], OfKindIn("expense", c)) == SumWhere(init, OfKindIn("expense", c)) + (if t.kind == "expense" && t.category == c then t.amount else 0)
  {
    var ts := init + [t];
    assert ts[..|ts| - 1] == init;
    forall c | HasExpenseIn(init, c) ensures HasExpenseIn(ts, c) {
      var i :| 0 <= i < |init| && init[i].kind == "expense" && init[i].category == c;
      assert ts[i] == init[i];
    }
    if t.kind == "expense" {
      assert ts[|init|] == t;
      assert HasExpenseIn(ts, t.category);
    }
    forall c | HasExpenseIn(ts, c) ensures HasExpenseIn(init, c) || (t.kind == "expense" && t.category == c) {
      var i :| 0 <= i < |ts| && ts[i].kind == "expense" && ts[i].category == c;
      if i < |init| {
        assert init[i] == ts[i];
      }
    }
    forall c | c !in acc ensures SumWhere(init, OfKindIn("expense", c)) == 0 {
      SumWhereNone(init, OfKindIn("expense", c));
    }
  }

  /** `Object.keys(categoryLimits).filter(c => categoryExpenses[c] > categoryLimits[c])`:
      the limited categories, in key order, that have expenses adding up
      to more than their limit (a category with no expense has no entry,
      and `undefined > limit` is false). */
  function ExceededCategories(limits: seq<(string, int)>, m: map<string, int>): (r: seq<string>)
    ensures |r| <= |limits|
    ensures forall c :: c in r <==> exists i :: 0 <= i < |limits| && limits[i].0 == c && c in m && m[c] > limits[i].1
    ensures Subsequence(r, LimitKeys(limits))
    decreases |limits|
  {
    if |limits| == 0 then []
    else
      var rest := ExceededCategories(limits[1..], m);
      assert forall i :: 1 <= i < |limits| ==> limits[1..][i - 1] == limits[i];
      assert LimitKeys(limits)[1..] == LimitKeys(limits[1..]);
      var c := limits[0].0;
      if c in m && m[c] > limits[0].1 then [c] + rest
      else
        SubsequenceOfTail(rest, LimitKeys(limits));
        rest
  }

  datatype Banner = Banner(overTotalBudget: bool, exceededCategories: seq<string>)

  /** The banner: absent when alerts are disabled; otherwise the total
      warning is open exactly when the expenses add up to more than the
      total limit, and the category warnings are the limited categories
      with expenses over their limit, in key order. */
  function Evaluate(ts: seq<Transaction>, s: Settings): (r: Option<Banner>)
    ensures r.None? <==> !s.alertsEnabled
    ensures r.Some? ==> (r.value.overTotalBudget <==> SumWhere(ts, OfKind("expense")) > s.totalBudgetLimit)
    ensures r.Some? ==> forall c :: c in r.value.exceededCategories <==>
      exists i :: 0 <= i < |s.categoryLimits| && s.categoryLimits[i].0 == c
        && HasExpenseIn(ts, c) && SumWhere(ts, OfKindIn("expense", c)) > s.categoryLimits[i].1
    ensures r.Some? ==> Subsequence(r.value.exceededCategories, LimitKeys(s.categoryLimits))
  {
    if !s.alertsEnabled then None
    else
      var m := CategoryExpenses(ts);
      Some(Banner(SumWhere(ts, OfKind("expense")) > s.totalBudgetLimit, ExceededCategories(s.categoryLimits, m)))
  }

  /** Income never raises a category warning: adding an income leaves the
      banner as it was. */
  lemma {:induction false} IncomeDoesNotAlert(ts: seq<Transaction>, t: Transaction, s: Settings)
    requires t.kind == "income"
    ensures Evaluate(ts + [t], s) == Evaluate(ts, s)
  {
    var u := ts + [t];
    assert u[..|u| - 1] == ts;
    assert CategoryExpenses(u) == CategoryExpenses(ts);
  }
}
