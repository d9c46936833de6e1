/** The budget alert: the alert store's state, the effect that sets it when
    spending goes over the total limit, and the close button. */
module BudgetAlert {
  import opened Ledger

  datatype AlertState = AlertState(isVisible: bool, message: string, severity: string)

  const ExceededMessage: string := "Budget exceeded! Please review your expenses."

  /** The values the effect depends on: whether the budget is exceeded and
      the total limit. */
  datatype Deps = Deps(budgetExceeded: bool, totalBudgetLimit: int)

  /** The summed expense amounts against the total limit. */
  function CurrentDeps(ts: seq<Transaction>, s: Settings): (d: Deps)
    ensures d.budgetExceeded <==> SumWhere(ts, OfKind("expense")) > s.totalBudgetLimit
    ensures d.totalBudgetLimit == s.totalBudgetLimit
  {
    Deps(SumWhere(ts, OfKind("expense")) > s.totalBudgetLimit, s.totalBudgetLimit)
  }

  /** What the effect writes to the store: a visible warning when the
      budget is exceeded, a hidden empty state otherwise. */
  function Effect(d: Deps): (st: AlertState)
    ensures st.isVisible <==> d.budgetExceeded
    ensures st.isVisible ==> st.message == ExceededMessage && st.severity == "warning"
    ensures !st.isVisible ==> st.message == "" && st.severity == ""
  {
    if d.budgetExceeded then AlertState(true, ExceededMessage, "warning")
    else AlertState(false, "", "")
  }

  /** The close button: hidden, the rest kept. */
  function Close(st: AlertState): (r: AlertState)
    ensures !r.isVisible
    ensures r.message == st.message && r.severity == st.severity
  {
    st.(isVisible := false)
  }

  /** A render: the effect runs again only when a dependency changed since
      the previous render, and otherwise the store is left as it is. */
  function Render(st: AlertState, previous: Deps, ts: seq<Transaction>, s: Settings): (r: (AlertState, Deps))
    ensures r.1 == CurrentDeps(ts, s)
    ensures r.1 == previous ==> r.0 == st
    ensures r.1 != previous ==> r.0 == Effect(r.1)
  {
    var d := CurrentDeps(ts, s);
    if d == previous then (st, d) else (Effect(d), d)
  }

  /** A closed alert stays closed until a dependency changes: re-rendering
      with the same data keeps it hidden, while a new total limit under
      which the budget is still exceeded shows it again. */
  lemma CloseIsSticky(st: AlertState, ts: seq<Transaction>, s: Settings, newLimit: int)
    requires newLimit != s.totalBudgetLimit
    requires SumWhere(ts, OfKind("expense")) > newLimit
    ensures !Render(Close(st), CurrentDeps(ts, s), ts, s).0.isVisible
    ensures Render(Close(st), CurrentDeps(ts, s), ts, s.(totalBudgetLimit := newLimit)).0
      == AlertState(true, ExceededMessage, "warning")
  {
  }

  /** Closing twice is closing once. */
  lemma CloseIdempotent(st: AlertState)
    ensures Close(Close(st)) == Close(st)
  {
  }
}
