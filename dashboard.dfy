/** The dashboard's own state (`App` in the client): the selected month, the
    transaction list, the month summary and the transaction being edited,
    with the handlers that change them. */
module Dashboard {
  import opened Common
  import opened Lists

  /** `handleMonthChange`: steps the month by `delta`, carrying into the year
      when it runs past December or before January. */
  method ShiftMonth(year: int, month: int, delta: int) returns (newYear: int, newMonth: int)
    ensures month + delta == 0 ==> newYear == year - 1 && newMonth == 12
    ensures month + delta == 13 ==> newYear == year + 1 && newMonth == 1
    ensures month + delta != 0 && month + delta != 13 ==> newYear == year && newMonth == month + delta
    ensures 1 <= month <= 12 && (delta == 1 || delta == -1) ==>
      1 <= newMonth <= 12 && MonthIndex(newYear, newMonth) == MonthIndex(year, month) + delta
  {
    newMonth := month + delta;
    newYear := year;
    if newMonth == 0 {
      newMonth := 12;
      newYear := newYear - 1;
    } else if newMonth == 13 {
      newMonth := 1;
      newYear := newYear + 1;
    }
  }

  /** The number of months from January of year 0 to (year, month). */
  function MonthIndex(year: int, month: int): int
  {
    year * 12 + month - 1
  }

  /** The list after an update: every entry with the id of `tx` is replaced
      by `tx`, all others stay where they are. */
  function ReplaceById(txs: seq<Transaction>, tx: Transaction): (r: seq<Transaction>)
    ensures |r| == |txs|
    ensures forall i :: 0 <= i < |r| ==> r[i] == if txs[i].id == tx.id then tx else txs[i]
  {
    if txs == [] then []
    else [if txs[0].id == tx.id then tx else txs[0]] + ReplaceById(txs[1..], tx)
  }

  function HasOtherId(id: int): Transaction -> bool
  {
    (t: Transaction) => t.id != id
  }

  /** The list after a delete: the entries with id `id` are dropped. */
  function RemoveById(txs: seq<Transaction>, id: int): (r: seq<Transaction>)
    ensures forall i :: 0 <= i < |r| ==> r[i].id != id && r[i] in txs
    ensures forall i :: 0 <= i < |txs| && txs[i].id != id ==> txs[i] in r
  {
    Filter(txs, HasOtherId(id))
  }

  /** Deleting an id that is not listed leaves the list as it is. */
  lemma RemoveAbsentId(txs: seq<Transaction>, id: int)
    requires forall i :: 0 <= i < |txs| ==> txs[i].id != id
    ensures RemoveById(txs, id) == txs
  {
    FilterExtremes(txs, HasOtherId(id));
  }

  /** Deleting from a concatenation deletes from each part, so the entries
      kept stay in their order. */
  lemma RemoveByIdAppend(a: seq<Transaction>, b: seq<Transaction>, id: int)
    ensures RemoveById(a + b, id) == RemoveById(a, id) + RemoveById(b, id)
  {
    FilterAppend(a, b, HasOtherId(id));
  }

  /** An update whose id is not listed leaves the list as it is. */
  lemma {:induction false} ReplaceAbsentId(txs: seq<Transaction>, tx: Transaction)
    requires forall i :: 0 <= i < |txs| ==> txs[i].id != tx.id
    ensures ReplaceById(txs, tx) == txs
  {
    if txs != [] {
      ReplaceAbsentId(txs[1..], tx);
      assert txs == [txs[0]] + txs[1..];
    }
  }

  function IsSaving(tx: Transaction): bool
  {
    KindOf(tx) == SAVING
  }

  /** `expenseCategories`: the non-income categories of the summary, in
      order; none while no summary is loaded. */
  function ExpenseCategories(summary: Option<MonthSummary>): (r: seq<SummaryCategory>)
    ensures summary.None? ==> r == []
    ensures forall i :: 0 <= i < |r| ==> r[i].kind != INCOME
    ensures summary.Some? ==> forall c :: c in r <==> c in summary.value.categories && c.kind != INCOME
  {
    if summary.None? then [] else Filter(summary.value.categories, IsNotIncome)
  }

  /** `savingTransactions`: the saving-type transactions, in order. */
  function SavingTransactions(txs: seq<Transaction>): (r: seq<Transaction>)
    ensures forall i :: 0 <= i < |r| ==> KindOf(r[i]) == SAVING
    ensures forall t :: t in r <==> t in txs && KindOf(t) == SAVING
  {
    Filter(txs, IsSaving)
  }

  class Dashboard {
    var year: int
    var month: int
    var transactions: seq<Transaction>
    var summary: Option<MonthSummary>
    var editing: Option<Transaction>

    /** The selected month is a calendar month. */
    predicate Valid()
      reads this
    {
      1 <= month <= 12
    }

    /** The dashboard opens on the current month (passed in, as the clock is
        outside the model) with nothing loaded and nothing being edited. */
    constructor (currentYear: int, currentMonth: int)
      requires 1 <= currentMonth <= 12
      ensures Valid()
      ensures year == currentYear && month == currentMonth
      ensures transactions == [] && summary.None? && editing.None?
    {
      year := currentYear;
      month := currentMonth;
      transactions := [];
      summary := None;
      editing := None;
    }

    /** The previous or next month button. */
    method ChangeMonth(delta: int)
      requires Valid()
      requires delta == 1 || delta == -1
      modifies this`year, this`month
      ensures Valid()
      ensures MonthIndex(year, month) == MonthIndex(old(year), old(month)) + delta
    {
      year, month := ShiftMonth(year, month, delta);
    }

    /** `handleCreateTransaction`: the server's answer to the create request
        (`None` when it failed) and to the summary reload that follows. The
        new transaction is put first; the summary is replaced only if the
        reload answered. `ok` is false when the handler throws. */
    method HandleCreate(created: Option<Transaction>, reloaded: Option<MonthSummary>) returns (ok: bool)
      modifies this`transactions, this`summary
      ensures ok <==> created.Some? && reloaded.Some?
      ensures transactions == if created.Some? then [created.value] + old(transactions) else old(transactions)
      ensures summary == if created.Some? && reloaded.Some? then reloaded else old(summary)
    {
      if created.None? {
        return false;
      }
      transactions := [created.value] + transactions;
      if reloaded.None? {
        return false;
      }
      summary := reloaded;
      ok := true;
    }

    /** `handleUpdateTransaction`: the entries with the returned
        transaction's id are replaced by it; editing ends only once the
        summary reload has answered. */
    method HandleUpdate(updated: Option<Transaction>, reloaded: Option<MonthSummary>) returns (ok: bool)
      modifies this`transactions, this`summary, this`editing
      ensures ok <==> updated.Some? && reloaded.Some?
      ensures transactions == if updated.Some? then ReplaceById(old(transactions), updated.value) else old(transactions)
      ensures summary == if ok then reloaded else old(summary)
      ensures editing == if ok then None else old(editing)
    {
      if updated.None? {
        return false;
      }
      transactions := ReplaceById(transactions, updated.value);
      if reloaded.None? {
        return false;
      }
      summary := reloaded;
      editing := None;
      ok := true;
    }

    /** `handleDeleteTransaction`: nothing happens unless the user confirms;
        after the server deletes, the entries with that id leave the list. */
    method HandleDelete(target: Transaction, confirmed: bool, deleted: bool, reloaded: Option<MonthSummary>) returns (ok: bool)
      modifies this`transactions, this`summary
      ensures !confirmed ==> transactions == old(transactions) && summary == old(summary)
      ensures ok <==> confirmed && deleted && reloaded.Some?
      ensures transactions == if confirmed && deleted then RemoveById(old(transactions), target.id) else old(transactions)
      ensures summary == if ok then reloaded else old(summary)
    {
      if !confirmed {
        return false;
      }
      if !deleted {
        return false;
      }
      transactions := RemoveById(transactions, target.id);
      if reloaded.None? {
        return false;
      }
      summary := reloaded;
      ok := true;
    }

    /** The edit button of a table row. */
    method BeginEdit(tx: Transaction)
      modifies this`editing
      ensures editing == Some(tx)
    {
      editing := Some(tx);
    }

    /** The form's cancel button. */
    method CancelEdit()
      modifies this`editing
      ensures editing.None?
    {
      editing := None;
    }
  }
}
