/** Entities shared by the browser client and the server: categories,
    transactions, calendar dates and amounts.  Amounts are exact integers
    (cents), matching the two-decimal `Numeric(12, 2)` column. */
module Common {

  datatype Option<+T> = None | Some(value: T)

  /** A server answer: a value, or the HTTP status code of the failure. */
  datatype Result<+T> = Ok(value: T) | Err(status: int)

  /** Amounts in cents. */
  type Cents = int

  function Abs(x: int): (r: nat)
    ensures r == x || r == -x
  {
    if x < 0 then -x else x
  }

  /** A category's type is stored as free text; three values carry meaning. */
  type CategoryType = string

  const INCOME: CategoryType := "income"
  const EXPENSE: CategoryType := "expense"
  const SAVING: CategoryType := "saving"

  datatype Category = Category(id: int, name: string, kind: CategoryType)

  /** A calendar day, already split into its parts. */
  datatype Date = Date(year: int, month: int, day: int)

  /** A transaction as the client receives it: the category row is joined in.
      The client type declares it always present; a missing one is `None`. */
  datatype Transaction = Transaction(
    id: int,
    date: Date,
    amount: Cents,
    categoryId: int,
    description: Option<string>,
    category: Option<Category>)

  /** The type of a transaction's category; the empty text when the
      category row is missing. */
  function KindOf(tx: Transaction): CategoryType
  {
    if tx.category.Some? then tx.category.value.kind else ""
  }

  /** The sign convention: an expense is stored non-positive, anything else
      non-negative. */
  predicate SignAgrees(kind: CategoryType, amount: Cents)
  {
    if kind == EXPENSE then amount <= 0 else amount >= 0
  }

  /** True when every transaction in `txs` carries its category row. */
  predicate AllCategorised(txs: seq<Transaction>)
  {
    forall i :: 0 <= i < |txs| ==> txs[i].category.Some?
  }

  /** One row of the server's month summary, per category. */
  datatype SummaryCategory = SummaryCategory(
    categoryId: int,
    name: string,
    kind: CategoryType,
    spent: Cents,
    budget: Cents,
    remaining: Cents)

  datatype MonthSummary = MonthSummary(
    year: int,
    month: int,
    income: Cents,
    expenses: Cents,
    net: Cents,
    categories: seq<SummaryCategory>)

  /** The test `c.type !== "income"` the client filters summary rows with. */
  function IsNotIncome(c: SummaryCategory): bool
  {
    c.kind != INCOME
  }
}
