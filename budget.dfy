/** The budget tab (`BudgetOverview` in the client): summary rows with
    magnitudes for spent and budget, the amount remaining, a status per
    row, and the rows over budget. */
module Budget {
  import opened Common
  import opened Lists

  /** A row as the tab shows it: spent and budget as magnitudes, remaining
      recomputed from them, every other field copied. */
  function BudgetRow(c: SummaryCategory): (r: SummaryCategory)
    ensures r.spent == Abs(c.spent) && r.budget == Abs(c.budget)
    ensures r.spent >= 0 && r.budget >= 0
    ensures r.remaining == r.budget - r.spent
    ensures r.categoryId == c.categoryId && r.name == c.name && r.kind == c.kind
  {
    var spent := Abs(c.spent);
    var budget := Abs(c.budget);
    c.(spent := spent, budget := budget, remaining := budget - spent)
  }

  /** The rows in input order, one per input row. */
  function BudgetRows(cs: seq<SummaryCategory>): (r: seq<SummaryCategory>)
    ensures |r| == |cs|
    ensures forall i :: 0 <= i < |r| ==> r[i] == BudgetRow(cs[i])
  {
    if cs == [] then [] else [BudgetRow(cs[0])] + BudgetRows(cs[1..])
  }

  datatype Status = NoBudget | OverBudget | OnTrack

  /** The status column: no budget set, spent above budget, or on track. */
  function StatusOf(row: SummaryCategory): (s: Status)
    ensures s == NoBudget <==> row.budget == 0
    ensures s == OverBudget <==> row.budget != 0 && row.spent > row.budget
    ensures s == OnTrack <==> row.budget != 0 && row.spent <= row.budget
  {
    if row.budget == 0 then NoBudget
    else if row.spent > row.budget then OverBudget
    else OnTrack
  }

  /** The test behind the "Heads up!" warning. */
  function IsOverBudget(row: SummaryCategory): (b: bool)
    ensures b ==> StatusOf(row) == OverBudget && row.spent > 0
    ensures row.budget >= 0 ==> (b <==> StatusOf(row) == OverBudget)
  {
    row.budget > 0 && row.spent > row.budget
  }

  /** What the tab shows: the empty-state message, or the rows and the rows
      over budget. */
  datatype BudgetView =
    | NoBudgetData
    | Budgets(rows: seq<SummaryCategory>, overBudget: seq<SummaryCategory>)

  function BudgetOverview(cs: seq<SummaryCategory>, loading: bool): (v: BudgetView)
    ensures v.NoBudgetData? <==> !loading && cs == []
    ensures v.Budgets? ==> v.rows == BudgetRows(cs)
    ensures v.Budgets? ==> forall r :: r in v.overBudget <==> r in v.rows && IsOverBudget(r)
    ensures v.Budgets? ==> v.overBudget == Filter(v.rows, IsOverBudget)
  {
    var rows := BudgetRows(cs);
    if !loading && |rows| == 0 then NoBudgetData
    else Budgets(rows, Filter(rows, IsOverBudget))
  }

  /** The warning counts exactly the rows whose status reads "Over budget":
      a magnitude is non-zero exactly when it is positive. */
  lemma OverBudgetIsStatus(cs: seq<SummaryCategory>)
    ensures forall i :: 0 <= i < |BudgetRows(cs)| ==>
      (IsOverBudget(BudgetRows(cs)[i]) <==> StatusOf(BudgetRows(cs)[i]) == OverBudget)
  {
  }

  /** The remaining cell turns red exactly when spending exceeds the
      budget. */
  lemma RemainingNegativeIffOverspent(c: SummaryCategory)
    ensures BudgetRow(c).remaining < 0 <==> BudgetRow(c).spent > BudgetRow(c).budget
  {
  }

  /** Rows with a budget of zero are never counted as over budget, however
      much was spent. */
  lemma NoBudgetNeverOver(c: SummaryCategory)
    requires c.budget == 0
    ensures !IsOverBudget(BudgetRow(c)) && StatusOf(BudgetRow(c)) == NoBudget
  {
  }
}
