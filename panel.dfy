/** The summary tab (`MonthlySummaryPanel` in the client): the rollup rows
    with their grand totals. */
module Panel {
  import opened Common
  import opened Rollup

  datatype Totals = Totals(income: Cents, expenses: Cents, savings: Cents, net: Cents)

  /** The sum of one figure over the rows, added from the first row on. */
  function SumField(rows: seq<MonthRow>, field: MonthRow -> int): int
  {
    if rows == [] then 0 else SumField(rows[..|rows| - 1], field) + field(rows[|rows| - 1])
  }

  function Income(r: MonthRow): int { r.income }
  function Expenses(r: MonthRow): int { r.expenses }
  function SavingsOf(r: MonthRow): int { r.savings }
  function Net(r: MonthRow): int { r.net }

  /** What the tab shows: the empty-state message, or the totals and rows. */
  datatype PanelView = NoTransactions | Summary(totals: Totals, rows: seq<MonthRow>)

  /** The `reduce` that adds each row's figures into one accumulator,
      starting from zero. */
  method ComputeTotals(rows: seq<MonthRow>) returns (t: Totals)
    ensures t.income == SumField(rows, Income)
    ensures t.expenses == SumField(rows, Expenses)
    ensures t.savings == SumField(rows, SavingsOf)
    ensures t.net == SumField(rows, Net)
  {
    t := Totals(0, 0, 0, 0);
    var i := 0;
    while i < |rows|
      invariant 0 <= i <= |rows|
      invariant t.income == SumField(rows[..i], Income)
      invariant t.expenses == SumField(rows[..i], Expenses)
      invariant t.savings == SumField(rows[..i], SavingsOf)
      invariant t.net == SumField(rows[..i], Net)
    {
      var curr := rows[i];
      assert rows[..i + 1][..i] == rows[..i];
      t := t.(income := t.income + curr.income);
      t := t.(expenses := t.expenses + curr.expenses);
      t := t.(savings := t.savings + curr.savings);
      t := t.(net := t.net + curr.net);
      i := i + 1;
    }
    assert rows[..i] == rows;
  }

  method MonthlySummaryPanel(monthly: seq<MonthRow>, loading: bool) returns (v: PanelView)
    ensures v.NoTransactions? <==> !loading && monthly == []
    ensures v.Summary? ==> v.rows == monthly
    ensures v.Summary? ==> v.totals == Totals(SumField(monthly, Income), SumField(monthly, Expenses),
                                              SumField(monthly, SavingsOf), SumField(monthly, Net))
  {
    if !loading && |monthly| == 0 {
      return NoTransactions;
    }
    var totals := ComputeTotals(monthly);
    v := Summary(totals, monthly);
  }

  /** Rows whose expenses and savings are non-negative give non-negative
      totals of both. */
  lemma {:induction false} TotalsNonNegative(rows: seq<MonthRow>)
    requires forall i :: 0 <= i < |rows| ==> rows[i].expenses >= 0 && rows[i].savings >= 0
    ensures SumField(rows, Expenses) >= 0 && SumField(rows, SavingsOf) >= 0
  {
    if rows != [] {
      var init := rows[..|rows| - 1];
      assert forall i :: 0 <= i < |init| ==> init[i] == rows[i];
      TotalsNonNegative(init);
    }
  }

  /** On the rollup of any transactions, the expense and saving totals are
      non-negative. */
  lemma RollupTotalsNonNegative(txs: seq<Transaction>)
    ensures var ms := MonthsOf(txs);
      var rows := seq(|ms|, g requires 0 <= g < |ms| => RowFor(txs, ms[g]));
      SumField(rows, Expenses) >= 0 && SumField(rows, SavingsOf) >= 0
  {
    var ms := MonthsOf(txs);
    var rows := seq(|ms|, g requires 0 <= g < |ms| => RowFor(txs, ms[g]));
    forall g | 0 <= g < |rows| ensures rows[g].expenses >= 0 && rows[g].savings >= 0 {
      assert rows[g] == RowFor(txs, ms[g]);
    }
    TotalsNonNegative(rows);
  }

  /** The colour class of a net figure, for the totals and for every row. */
  function NetClass(net: int): (c: string)
    ensures c == "positive" <==> net >= 0
    ensures c == "negative" <==> net < 0
  {
    if net >= 0 then "positive" else "negative"
  }
}
