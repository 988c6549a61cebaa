/** The spending chart (`CategoryChart` in the client): the non-income
    summary rows, each with the magnitude of what was spent. */
module Chart {
  import opened Common
  import opened Lists

  datatype ChartRow = ChartRow(name: string, spent: Cents, budget: Cents)

  /** The "No data yet" message, or the bars to draw. */
  datatype ChartView = NoData | Bars(data: seq<ChartRow>)

  function ChartRowOf(c: SummaryCategory): (r: ChartRow)
    ensures r.name == c.name && r.budget == c.budget
    ensures r.spent == Abs(c.spent) && r.spent >= 0
  {
    ChartRow(c.name, Abs(c.spent), c.budget)
  }

  function ChartRows(cs: seq<SummaryCategory>): (r: seq<ChartRow>)
    ensures |r| == |cs|
    ensures forall i :: 0 <= i < |r| ==> r[i] == ChartRowOf(cs[i])
  {
    if cs == [] then [] else [ChartRowOf(cs[0])] + ChartRows(cs[1..])
  }

  /** The emptiness test looks at the input before income rows are dropped. */
  function CategoryChart(cs: seq<SummaryCategory>): (v: ChartView)
    ensures v.NoData? <==> cs == []
    ensures v.Bars? ==> v.data == ChartRows(Filter(cs, IsNotIncome))
    ensures v.Bars? ==> forall i :: 0 <= i < |v.data| ==> v.data[i].spent >= 0
  {
    if |cs| == 0 then NoData else Bars(ChartRows(Filter(cs, IsNotIncome)))
  }

  /** A month with income rows only draws an empty chart rather than the
      "No data yet" message. */
  lemma OnlyIncomeDrawsNothing(cs: seq<SummaryCategory>)
    requires cs != []
    requires forall i :: 0 <= i < |cs| ==> cs[i].kind == INCOME
    ensures CategoryChart(cs) == Bars([])
  {
    FilterExtremes(cs, IsNotIncome);
  }

  /** Every non-income row is drawn, in input order. */
  lemma ChartKeepsOrder(a: seq<SummaryCategory>, b: seq<SummaryCategory>)
    ensures ChartRows(Filter(a + b, IsNotIncome)) == ChartRows(Filter(a, IsNotIncome)) + ChartRows(Filter(b, IsNotIncome))
  {
    FilterAppend(a, b, IsNotIncome);
    ChartRowsAppend(Filter(a, IsNotIncome), Filter(b, IsNotIncome));
  }

  lemma ChartRowsAppend(a: seq<SummaryCategory>, b: seq<SummaryCategory>)
    ensures ChartRows(a + b) == ChartRows(a) + ChartRows(b)
  {
  }
}
