/** The settings page's save button: the category limits must not add up to
    more than the total limit; a valid save stores the form, flags whether
    spending is over the limit and updates the budget alert store. */
module SettingsPage {
  import opened Wrappers
  import opened Ledger
  import BudgetAlert

  /** The page's own state. */
  datatype Page = Page(budgetExceeded: bool, successMessage: string, error: string)

  const LimitsError: string := "The total category limits exceed the total budget limit."
  const SavedMessage: string := "Settings saved successfully!"

  /** `Object.values(categoryLimits).reduce((sum, limit) => sum + Number(limit), 0)`. */
  function LimitSum(limits: seq<(string, int)>): int
    decreases |limits|
  {
    if |limits| == 0 then 0 else LimitSum(limits[..|limits| - 1]) + limits[|limits| - 1].1
  }

  /** The category limits fit in the total limit. */
  predicate Consistent(s: Settings) {
    LimitSum(s.categoryLimits) <= s.totalBudgetLimit
  }

  /** After a save: the page, the settings store, and the value passed to
      `updateBudgetAlert` (None when it is not called). */
  datatype Saved = Saved(page: Page, store: Settings, alertUpdate: Option<bool>)

  /** `handleSave`. Limits over the total: the error is shown, the flag
      cleared, the success message left as it was, and neither store is
      touched. Otherwise the flag and the alert store get whether the sum of
      ALL amounts (income included) is over the total limit, the error is
      cleared, the form is stored and the success message shown. */
  function HandleSave(page: Page, form: Settings, stored: Settings, ts: seq<Transaction>): (r: Saved)
    ensures !Consistent(form) ==> r == Saved(Page(false, page.successMessage, LimitsError), stored, None)
    ensures Consistent(form) ==>
      && r.store == form
      && r.page == Page(Total(ts) > form.totalBudgetLimit, SavedMessage, "")
      && r.alertUpdate == Some(r.page.budgetExceeded)
  {
    if LimitSum(form.categoryLimits) > form.totalBudgetLimit then
      Saved(page.(error := LimitsError, budgetExceeded := false), stored, None)
    else
      var exceeded := Total(ts) > form.totalBudgetLimit;
      Saved(Page(exceeded, SavedMessage, ""), form, Some(exceeded))
  }

  /** Saving never stores limits that do not fit: if the stored settings
      were consistent, they still are after any save. */
  lemma SaveKeepsStoreConsistent(page: Page, form: Settings, stored: Settings, ts: seq<Transaction>)
    requires Consistent(stored)
    ensures Consistent(HandleSave(page, form, stored, ts).store)
    ensures HandleSave(page, form, stored, ts).page.error == "" <==> Consistent(form)
  {
  }

  /** The sum of all amounts splits into income plus expense for income and
      expense transactions. */
  lemma {:induction false} TotalIsIncomePlusExpense(ts: seq<Transaction>)
    requires WellKinded(ts)
    ensures Total(ts) == SumWhere(ts, OfKind("income")) + SumWhere(ts, OfKind("expense"))
    decreases |ts|
  {
    if |ts| > 0 {
      TotalIsIncomePlusExpense(ts[..|ts| - 1]);
    }
  }

  /** The save counts income as spending: with only a 100 income against a
      limit of 50, the settings page flags the budget as exceeded while the
      budget alert, which sums expenses, does not. */
  lemma SaveCountsIncome(page: Page, t: Transaction)
    requires t.kind == "income" && t.amount == 100
    ensures var form := Settings(50, [], true);
      && HandleSave(page, form, form, [t]).page.budgetExceeded
      && !BudgetAlert.CurrentDeps([t], form).budgetExceeded
  {
    var form := Settings(50, [], true);
    assert [t][..0] == [];
    assert Total([t]) == 100;
    assert "income"[0] != "expense"[0];
    assert !OfKind("expense")(t);
    assert SumWhere([t], OfKind("expense")) == 0;
    assert Consistent(form);
  }

  /** With non-negative amounts, a save that flags nothing also
      leaves the budget alert off: the page's flag over-reports, never
      under-reports. */
  lemma {:induction false} SaveFlagCoversAlert(page: Page, form: Settings, stored: Settings, ts: seq<Transaction>)
    requires Consistent(form) && WellKinded(ts)
    requires forall i :: 0 <= i < |ts| ==> ts[i].amount >= 0
    requires !HandleSave(page, form, stored, ts).page.budgetExceeded
    ensures !BudgetAlert.CurrentDeps(ts, form).budgetExceeded
  {
    TotalIsIncomePlusExpense(ts);
    IncomeNonNegative(ts);
  }

  lemma {:induction false} IncomeNonNegative(ts: seq<Transaction>)
    requires forall i :: 0 <= i < |ts| ==> ts[i].amount >= 0
    ensures SumWhere(ts, OfKind("income")) >= 0
    decreases |ts|
  {
    if |ts| > 0 {
      IncomeNonNegative(ts[..|ts| - 1]);
    }
  }
}
