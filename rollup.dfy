/** The client's monthly rollup (`monthlyAggregates` in the dashboard):
    transactions grouped by calendar month, with running income, expense,
    saving and net figures per month, listed in ascending month order. */
module Rollup {
  import opened Common
  import opened Calendar
  import opened Buckets
  import Sorting

  /** One month of the rollup, as the summary tab receives it. */
  datatype MonthRow = MonthRow(monthLabel: string, income: Cents, expenses: Cents, net: Cents, savings: Cents)

  /** What one transaction adds to each running figure of its month. */
  function IncomePart(tx: Transaction): int
  {
    if KindOf(tx) == INCOME then tx.amount else 0
  }

  function ExpensePart(tx: Transaction): int
  {
    if KindOf(tx) == EXPENSE then Abs(tx.amount) else 0
  }

  function SavingPart(tx: Transaction): int
  {
    if KindOf(tx) == SAVING then Abs(tx.amount) else 0
  }

  // AmountOf and KeyId only adapt a field and a key to the shape KeySum takes.
  function AmountOf(tx: Transaction): int
  {
    tx.amount
  }

  function KeyId(k: MonthKey): MonthKey
  {
    k
  }

  /** The figures reported for month `k`: income is the sum of income
      amounts, expenses and savings the sums of magnitudes, and net the sum
      of all amounts of the month minus the expense magnitudes once more. */
  function RowFor(txs: seq<Transaction>, k: MonthKey): (r: MonthRow)
    ensures r.monthLabel == Label(k)
    ensures r.expenses >= 0 && r.savings >= 0
  {
    KeySumNonNegative(txs, MonthOf, ExpensePart, k);
    KeySumNonNegative(txs, MonthOf, SavingPart, k);
    var expenses := KeySum(txs, MonthOf, ExpensePart, k);
    MonthRow(
      Label(k),
      KeySum(txs, MonthOf, IncomePart, k),
      expenses,
      KeySum(txs, MonthOf, AmountOf, k) - expenses,
      KeySum(txs, MonthOf, SavingPart, k))
  }

  /** True when some transaction of `txs` falls in month `k`. */
  predicate HasMonth(txs: seq<Transaction>, k: MonthKey)
  {
    exists i :: 0 <= i < |txs| && MonthOf(txs[i]) == k
  }

  /** The months present in `txs`, each once, in ascending order. */
  function MonthsOf(txs: seq<Transaction>): (r: seq<MonthKey>)
    ensures Sorting.Ascending(r, KeyId, KeyBefore)
    ensures forall k :: k in r <==> HasMonth(txs, k)
  {
    if txs == [] then []
    else
      var init, last := txs[..|txs| - 1], txs[|txs| - 1];
      var before := MonthsOf(init);
      HasMonthSnoc(init, last);
      assert init + [last] == txs;
      if MonthOf(last) in before then before
      else
        InsertMonth(before, MonthOf(last));
        Sorting.Insert(before, MonthOf(last), KeyId, KeyBefore)
  }

  lemma HasMonthSnoc(txs: seq<Transaction>, tx: Transaction)
    ensures forall k :: HasMonth(txs + [tx], k) <==> HasMonth(txs, k) || k == MonthOf(tx)
  {
    var all := txs + [tx];
    forall k ensures HasMonth(all, k) <==> HasMonth(txs, k) || k == MonthOf(tx) {
      if HasMonth(txs, k) {
        var i :| 0 <= i < |txs| && MonthOf(txs[i]) == k;
        assert all[i] == txs[i];
      }
      if HasMonth(all, k) && k != MonthOf(tx) {
        var i :| 0 <= i < |all| && MonthOf(all[i]) == k;
        assert txs[i] == all[i];
      }
      if k == MonthOf(tx) {
        assert MonthOf(all[|txs|]) == k;
      }
    }
  }

  /** Inserting a month not yet listed keeps the list ascending. */
  lemma InsertMonth(s: seq<MonthKey>, k: MonthKey)
    requires Sorting.Ascending(s, KeyId, KeyBefore)
    requires k !in s
    ensures Sorting.Ascending(Sorting.Insert(s, k, KeyId, KeyBefore), KeyId, KeyBefore)
    ensures forall m :: m in Sorting.Insert(s, k, KeyId, KeyBefore) <==> m in s || m == k
  {
    KeyBeforeIsStrictTotalOrder();
    Sorting.InsertAscending(s, k, KeyId, KeyBefore);
    var r := Sorting.Insert(s, k, KeyId, KeyBefore);
    assert forall m :: m in r <==> m in multiset(r);
  }

  /** An ascending list of months is determined by its elements. */
  lemma MonthListUnique(a: seq<MonthKey>, b: seq<MonthKey>)
    requires Sorting.Ascending(a, KeyId, KeyBefore) && Sorting.Ascending(b, KeyId, KeyBefore)
    requires forall m :: m in a <==> m in b
    ensures a == b
  {
    KeyBeforeIsStrictTotalOrder();
    Sorting.AscendingUnique(a, b, KeyId, KeyBefore);
  }

  /** Appending a transaction adds its contribution to its own month. */
  lemma RowForSnoc(txs: seq<Transaction>, tx: Transaction, k: MonthKey)
    ensures RowFor(txs + [tx], k) == Plus(RowFor(txs, k), Contribution(tx, k))
  {
    KeySumSnoc(txs, tx, MonthOf, IncomePart, k);
    KeySumSnoc(txs, tx, MonthOf, ExpensePart, k);
    KeySumSnoc(txs, tx, MonthOf, SavingPart, k);
    KeySumSnoc(txs, tx, MonthOf, AmountOf, k);
  }

  /** A month no transaction falls in has all figures zero. */
  lemma RowForAbsent(txs: seq<Transaction>, k: MonthKey)
    requires !HasMonth(txs, k)
    ensures RowFor(txs, k) == MonthRow(Label(k), 0, 0, 0, 0)
  {
    KeySumAbsent(txs, MonthOf, IncomePart, k);
    KeySumAbsent(txs, MonthOf, ExpensePart, k);
    KeySumAbsent(txs, MonthOf, SavingPart, k);
    KeySumAbsent(txs, MonthOf, AmountOf, k);
  }

  /** The rollup as the dashboard computes it: a `Map` from month key to a
      running entry, filled in one pass, then its keys sorted and the
      entries listed in that order. */
  method MonthlyAggregates(txs: seq<Transaction>) returns (rows: seq<MonthRow>)
    requires AllCategorised(txs)
    ensures |rows| == |MonthsOf(txs)|
    ensures forall g :: 0 <= g < |rows| ==> rows[g] == RowFor(txs, MonthsOf(txs)[g])
    ensures txs == [] ==> rows == []
  {
    var groups, order := GroupByMonth(txs);
    // `Array.from(map.entries()).sort(...)`: the keys in ascending order.
    var sorted := SortMonths(order);
    ListingIsRollup(groups, order, sorted, txs);
    // `.map(([, value]) => value)`: the entries in that order.
    rows := seq(|sorted|, g requires 0 <= g < |sorted| => groups[sorted[g]]);
  }

  /** The sorted keys of the filled map are the months of the rollup, and
      each names the entry holding that month's figures. */
  lemma ListingIsRollup(groups: map<MonthKey, MonthRow>, order: seq<MonthKey>, sorted: seq<MonthKey>, txs: seq<Transaction>)
    requires forall k :: k in groups <==> k in order
    requires GroupsMatch(groups, txs)
    requires Sorting.Ascending(sorted, KeyId, KeyBefore)
    requires forall k :: k in sorted <==> k in order
    ensures sorted == MonthsOf(txs)
    ensures forall g :: 0 <= g < |sorted| ==> sorted[g] in groups && groups[sorted[g]] == RowFor(txs, sorted[g])
  {
    MonthListUnique(sorted, MonthsOf(txs));
  }

  /** The first pass of the rollup: one entry per month, in a map that
      remembers the order in which months were first met. */
  method GroupByMonth(txs: seq<Transaction>) returns (groups: map<MonthKey, MonthRow>, order: seq<MonthKey>)
    requires AllCategorised(txs)
    ensures NoDuplicates(order)
    ensures forall k :: k in groups <==> k in order
    ensures GroupsMatch(groups, txs)
  {
    groups, order := map[], [];
    var i := 0;
    ghost var done: seq<Transaction> := [];
    while i < |txs|
      invariant 0 <= i <= |txs|
      invariant done == txs[..i]
      invariant NoDuplicates(order)
      invariant forall k :: k in groups <==> k in order
      invariant GroupsMatch(groups, done)
    {
      var tx := txs[i];
      groups, order := AddToMonth(groups, order, done, tx);
      assert txs[..i + 1] == done + [tx];
      done := done + [tx];
      i := i + 1;
    }
    assert done == txs;
  }

  /** The body of the pass: the month's entry is created on first sight,
      then the transaction is added to it. */
  method AddToMonth(groups: map<MonthKey, MonthRow>, order: seq<MonthKey>, ghost done: seq<Transaction>, tx: Transaction)
    returns (groups': map<MonthKey, MonthRow>, order': seq<MonthKey>)
    requires tx.category.Some?
    requires NoDuplicates(order)
    requires forall k :: k in groups <==> k in order
    requires GroupsMatch(groups, done)
    ensures NoDuplicates(order')
    ensures forall k :: k in groups' <==> k in order'
    ensures GroupsMatch(groups', done + [tx])
  {
    var key := MonthOf(tx);
    groups', order' := groups, order;
    if key !in groups' {
      groups' := groups'[key := MonthRow(Label(key), 0, 0, 0, 0)];
      order' := order' + [key];
    }
    var entry := AddTransaction(groups'[key], tx);
    groups' := groups'[key := entry];
    assert groups' == AddToGroups(groups, tx);
    GroupsStep(groups, done, tx);
  }

  /** Distinct month keys in ascending order, each inserted in turn into
      a sorted list (the comparator `a > b ? 1 : -1` on the keys). */
  function SortMonths(keys: seq<MonthKey>): (r: seq<MonthKey>)
    requires NoDuplicates(keys)
    ensures Sorting.Ascending(r, KeyId, KeyBefore)
    ensures forall k :: k in r <==> k in keys
  {
    if keys == [] then []
    else
      var init, last := keys[..|keys| - 1], keys[|keys| - 1];
      assert keys == init + [last];
      assert last !in init;
      var before := SortMonths(init);
      InsertMonth(before, last);
      Sorting.Insert(before, last, KeyId, KeyBefore)
  }

  /** Every month present in `done` has an entry, and each entry holds the
      figures of its month so far. */
  ghost predicate GroupsMatch(groups: map<MonthKey, MonthRow>, done: seq<Transaction>)
  {
    && (forall k :: k in groups <==> HasMonth(done, k))
    && (forall k :: k in groups ==> groups[k] == RowFor(done, k))
  }

  /** The entry map after one transaction: its month's entry is created
      empty if missing, then the transaction's contribution is added. */
  function AddToGroups(groups: map<MonthKey, MonthRow>, tx: Transaction): map<MonthKey, MonthRow>
  {
    var key := MonthOf(tx);
    var entry := if key in groups then groups[key] else MonthRow(Label(key), 0, 0, 0, 0);
    groups[key := Plus(entry, Contribution(tx, key))]
  }

  /** Adding the next transaction to its month's entry keeps the map in step
      with the transactions seen. */
  lemma GroupsStep(groups: map<MonthKey, MonthRow>, done: seq<Transaction>, tx: Transaction)
    requires GroupsMatch(groups, done)
    ensures GroupsMatch(AddToGroups(groups, tx), done + [tx])
  {
    HasMonthSnoc(done, tx);
    if MonthOf(tx) !in groups {
      RowForAbsent(done, MonthOf(tx));
    }
    forall k ensures RowFor(done + [tx], k) == Plus(RowFor(done, k), Contribution(tx, k)) {
      RowForSnoc(done, tx, k);
    }
  }

  /** One step of the loop: the transaction's amount is added to the figure
      its category type selects, and to the net. */
  method AddTransaction(entry: MonthRow, tx: Transaction) returns (r: MonthRow)
    requires tx.category.Some?
    ensures r == Plus(entry, Contribution(tx, MonthOf(tx)))
  {
    r := entry;
    var kind := tx.category.value.kind;
    if kind == INCOME {
      r := r.(income := r.income + tx.amount);
    } else if kind == EXPENSE {
      r := r.(expenses := r.expenses + Abs(tx.amount), net := r.net - Abs(tx.amount));
    } else if kind == SAVING {
      r := r.(savings := r.savings + Abs(tx.amount));
    }
    r := r.(net := r.net + tx.amount);
  }

  /** What a transaction adds to the figures of month `k`. */
  function Contribution(tx: Transaction, k: MonthKey): MonthRow
  {
    if MonthOf(tx) != k then MonthRow("", 0, 0, 0, 0)
    else MonthRow("", IncomePart(tx), ExpensePart(tx), tx.amount - ExpensePart(tx), SavingPart(tx))
  }

  /** Adds the figures of `c` to `r`, keeping the label of `r`. */
  function Plus(r: MonthRow, c: MonthRow): MonthRow
  {
    MonthRow(r.monthLabel, r.income + c.income, r.expenses + c.expenses, r.net + c.net, r.savings + c.savings)
  }

  /** The months of the rollup are pairwise distinct, and every transaction's
      month is among them: each transaction lands in exactly one group. */
  lemma MonthsDistinct(txs: seq<Transaction>)
    ensures NoDuplicates(MonthsOf(txs))
    ensures forall i :: 0 <= i < |txs| ==> MonthOf(txs[i]) in MonthsOf(txs)
  {
    var ms := MonthsOf(txs);
    forall g, h | 0 <= g < h < |ms| ensures ms[g] != ms[h] {
      assert KeyBefore(ms[g], ms[h]);
    }
    forall i | 0 <= i < |txs| ensures MonthOf(txs[i]) in ms {
      assert HasMonth(txs, MonthOf(txs[i]));
    }
  }

  /** The group of a transaction is labelled with its zero-padded "MM/YYYY"
      month, and groups of different months carry different labels. */
  lemma GroupLabel(txs: seq<Transaction>, i: int, j: int)
    requires 0 <= i < |txs| && 0 <= j < |txs|
    requires 1 <= txs[i].date.month <= 12 && 1 <= txs[j].date.month <= 12
    ensures RowFor(txs, MonthOf(txs[i])).monthLabel == Label(MonthOf(txs[i]))
    ensures RowFor(txs, MonthOf(txs[i])).monthLabel == RowFor(txs, MonthOf(txs[j])).monthLabel
        <==> MonthOf(txs[i]) == MonthOf(txs[j])
  {
    if Label(MonthOf(txs[i])) == Label(MonthOf(txs[j])) {
      LabelInjective(MonthOf(txs[i]), MonthOf(txs[j]));
    }
  }

  /** Every transaction is categorised with one of the three meaningful
      types and stored with the sign its type demands. */
  predicate WellSigned(txs: seq<Transaction>)
  {
    forall i :: 0 <= i < |txs| ==> WellSignedOne(txs[i])
  }

  predicate WellSignedOne(tx: Transaction)
  {
    && tx.category.Some?
    && KindOf(tx) in {INCOME, EXPENSE, SAVING}
    && SignAgrees(KindOf(tx), tx.amount)
  }

  /** What one correctly signed transaction adds to the net. */
  lemma ContributionNet(tx: Transaction, k: MonthKey)
    requires WellSignedOne(tx)
    ensures var c := Contribution(tx, k); c.net == c.income - 2 * c.expenses + c.savings
  {
  }

  /** With the sign convention in force, a month's net counts every expense
      twice: net = income - 2 * expenses + savings.  The net the summary tab
      shows is therefore not income minus outgoings. */
  lemma {:induction false} NetDoubleCountsExpenses(txs: seq<Transaction>, k: MonthKey)
    requires WellSigned(txs)
    ensures RowFor(txs, k).net == RowFor(txs, k).income - 2 * RowFor(txs, k).expenses + RowFor(txs, k).savings
  {
    if txs != [] {
      var init, last := txs[..|txs| - 1], txs[|txs| - 1];
      assert WellSigned(init) by {
        forall i | 0 <= i < |init| ensures init[i] == txs[i] { }
      }
      NetDoubleCountsExpenses(init, k);
      assert init + [last] == txs;
      RowForSnoc(init, last, k);
      ContributionNet(last, k);
      NetRelationAdds(RowFor(init, k), Contribution(last, k));
    }
  }

  /** The relation between net and the other figures survives adding rows. */
  lemma NetRelationAdds(a: MonthRow, b: MonthRow)
    requires a.net == a.income - 2 * a.expenses + a.savings
    requires b.net == b.income - 2 * b.expenses + b.savings
    ensures Plus(a, b).net == Plus(a, b).income - 2 * Plus(a, b).expenses + Plus(a, b).savings
  {
  }
}
