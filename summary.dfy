/** The server's month summary (`get_month_summary`): the window of the
    month's first and last day, then the per-category rows of that window
    split into income and expenses. */
module MonthSummaryService {
  import opened Common
  import opened Calendar

  /** One row of the per-category query: the category, what its
      transactions in the window add up to, and the month's budget (0 when
      none). */
  datatype SummaryRow = SummaryRow(categoryId: int, name: string, kind: CategoryType, spent: Cents, budget: Cents)

  /** The sum of `spent` over the income rows. */
  function IncomeTotal(rows: seq<SummaryRow>): int
  {
    if rows == [] then 0
    else IncomeTotal(rows[..|rows| - 1]) + (if rows[|rows| - 1].kind == INCOME then rows[|rows| - 1].spent else 0)
  }

  /** The sum of `spent` over every other row, saving rows included. */
  function ExpenseTotal(rows: seq<SummaryRow>): int
  {
    if rows == [] then 0
    else ExpenseTotal(rows[..|rows| - 1]) + (if rows[|rows| - 1].kind != INCOME then rows[|rows| - 1].spent else 0)
  }

  function SpentTotal(rows: seq<SummaryRow>): int
  {
    if rows == [] then 0 else SpentTotal(rows[..|rows| - 1]) + rows[|rows| - 1].spent
  }

  /** The category entry reported for a row. */
  function EntryOf(r: SummaryRow): (c: SummaryCategory)
    ensures c.categoryId == r.categoryId && c.name == r.name && c.kind == r.kind
    ensures c.spent == r.spent && c.budget == r.budget
    ensures c.remaining + c.spent == c.budget
  {
    SummaryCategory(r.categoryId, r.name, r.kind, r.spent, r.budget, r.budget - r.spent)
  }

  /** `date(year, month, 1)` and `date(year, month, monthrange(...)[1])`
      raise for a year or month out of range; the request then fails with
      status 500. `query` is the per-category query, run on the window. */
  method GetMonthSummary(year: int, month: int, query: (Date, Date) -> seq<SummaryRow>) returns (r: Result<MonthSummary>)
    ensures !(MIN_YEAR <= year <= MAX_YEAR && 1 <= month <= 12) <==> r == Err(500)
    ensures r.Ok? ==> var rows := query(FirstDay(year, month), LastDay(year, month));
      && r.value.year == year && r.value.month == month
      && r.value.income == IncomeTotal(rows)
      && r.value.expenses == ExpenseTotal(rows)
      && r.value.net == r.value.income + r.value.expenses
      && |r.value.categories| == |rows|
      && (forall i :: 0 <= i < |rows| ==> r.value.categories[i] == EntryOf(rows[i]))
  {
    if !(MIN_YEAR <= year <= MAX_YEAR && 1 <= month <= 12) {
      return Err(500);
    }
    var firstDay := FirstDay(year, month);
    var lastDay := Date(year, month, DaysInMonth(year, month));
    var rows := query(firstDay, lastDay);

    var categories: seq<SummaryCategory> := [];
    var income := 0;
    var expenses := 0;
    var i := 0;
    while i < |rows|
      invariant 0 <= i <= |rows|
      invariant income == IncomeTotal(rows[..i])
      invariant expenses == ExpenseTotal(rows[..i])
      invariant |categories| == i
      invariant forall j :: 0 <= j < i ==> categories[j] == EntryOf(rows[j])
    {
      var row := rows[i];
      assert rows[..i + 1][..i] == rows[..i];
      var spent := row.spent;
      if row.kind == INCOME {
        income := income + spent;
      } else {
        expenses := expenses + spent;
      }
      categories := categories + [SummaryCategory(row.categoryId, row.name, row.kind, spent, row.budget, row.budget - spent)];
      i := i + 1;
    }
    assert rows[..i] == rows;

    var net := income + expenses;
    r := Ok(MonthSummary(year, month, income, expenses, net, categories));
  }

  /** Income and expenses split the rows: together they add up every
      row's `spent`, so `net` is the month's total. */
  lemma {:induction false} IncomeExpensePartition(rows: seq<SummaryRow>)
    ensures IncomeTotal(rows) + ExpenseTotal(rows) == SpentTotal(rows)
  {
    if rows != [] {
      IncomeExpensePartition(rows[..|rows| - 1]);
    }
  }

  /** With rows that obey the sign convention, income is non-negative and
      expenses (savings included) non-positive. */
  lemma {:induction false} TotalsSigns(rows: seq<SummaryRow>)
    requires forall i :: 0 <= i < |rows| ==> SignAgrees(rows[i].kind, rows[i].spent)
    requires forall i :: 0 <= i < |rows| ==> rows[i].kind == INCOME || rows[i].kind == EXPENSE
    ensures IncomeTotal(rows) >= 0 && ExpenseTotal(rows) <= 0
  {
    if rows != [] {
      var init := rows[..|rows| - 1];
      assert forall i :: 0 <= i < |init| ==> init[i] == rows[i];
      TotalsSigns(init);
    }
  }
}
