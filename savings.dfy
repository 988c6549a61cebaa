/** The savings tab (`SavingsOverview` in the client): savings per category
    name in first-seen order, savings per calendar month in month order, and
    the total saved. */
module Savings {
  import opened Common
  import opened Calendar
  import opened Buckets
  import opened Rollup

  /** The bucket of a transaction whose category row is missing. */
  const FALLBACK_NAME: string := "Savings"

  function BucketName(tx: Transaction): string
  {
    if tx.category.Some? then tx.category.value.name else FALLBACK_NAME
  }

  /** Every transaction counts with its magnitude, whatever its sign. */
  function Magnitude(tx: Transaction): int
  {
    Abs(tx.amount)
  }

  datatype NamedAmount = NamedAmount(name: string, amount: Cents)
  datatype SavingsPoint = SavingsPoint(monthLabel: string, amount: Cents)

  /** What the tab shows: the empty-state message, or the total, the
      per-category breakdown and the monthly trend. */
  datatype SavingsView =
    | EmptyState
    | Overview(totalSaved: Cents, breakdown: seq<NamedAmount>, monthly: seq<SavingsPoint>)

  /** The category names in the order they are first met. */
  function Names(txs: seq<Transaction>): (r: seq<string>)
    ensures forall t :: 0 <= t < |txs| ==> BucketName(txs[t]) in r
    ensures NamedByTransactions(r, txs)
    ensures NoDuplicates(r)
  {
    var ks := Keys(txs, BucketName);
    NamesFromKeys(txs, FirstOccurrences(ks));
    FirstOccurrences(ks)
  }

  /** Every name of `names` is the bucket name of some transaction. */
  ghost predicate NamedByTransactions(names: seq<string>, txs: seq<Transaction>)
  {
    forall n :: n in names ==> exists t :: 0 <= t < |txs| && BucketName(txs[t]) == n
  }

  /** Every name kept from the keys belongs to some transaction. */
  lemma NamesFromKeys(txs: seq<Transaction>, names: seq<string>)
    requires forall n :: n in names ==> n in Keys(txs, BucketName)
    ensures NamedByTransactions(names, txs)
  {
    var ks := Keys(txs, BucketName);
    forall n | n in names
      ensures exists t :: 0 <= t < |txs| && BucketName(txs[t]) == n
    {
      var t :| 0 <= t < |ks| && ks[t] == n;
      assert BucketName(txs[t]) == n;
    }
  }

  /** One row per category name, first-seen order, with its savings. */
  function Breakdown(txs: seq<Transaction>): (r: seq<NamedAmount>)
    ensures |r| == |Names(txs)|
    ensures forall i :: 0 <= i < |r| ==> r[i].name == Names(txs)[i]
    ensures forall i, j :: 0 <= i < j < |r| ==> r[i].name != r[j].name
    ensures forall i :: 0 <= i < |r| ==> r[i].amount == KeySum(txs, BucketName, Magnitude, r[i].name)
  {
    var names := Names(txs);
    seq(|names|, i requires 0 <= i < |names| => NamedAmount(names[i], KeySum(txs, BucketName, Magnitude, names[i])))
  }

  /** One point per month present, in ascending month order, with its
      savings. */
  function MonthlyData(txs: seq<Transaction>): (r: seq<SavingsPoint>)
    ensures |r| == |MonthsOf(txs)|
    ensures forall g :: 0 <= g < |r| ==> r[g].monthLabel == Label(MonthsOf(txs)[g])
    ensures forall g :: 0 <= g < |r| ==> r[g].amount == KeySum(txs, MonthOf, Magnitude, MonthsOf(txs)[g])
  {
    var ms := MonthsOf(txs);
    seq(|ms|, g requires 0 <= g < |ms| => SavingsPoint(Label(ms[g]), KeySum(txs, MonthOf, Magnitude, ms[g])))
  }

  /** The total of the amounts held for keys `ks` in `m`, as the `reduce`
      over the map's values adds them. */
  function SumValues<K>(m: map<K, int>, ks: seq<K>): int
    requires forall i :: 0 <= i < |ks| ==> ks[i] in m
  {
    if ks == [] then 0 else m[ks[0]] + SumValues(m, ks[1..])
  }

  function PointsTotal(ps: seq<SavingsPoint>): int
  {
    if ps == [] then 0 else ps[0].amount + PointsTotal(ps[1..])
  }

  /** The name map and its insertion order agree with the transactions seen. */
  ghost predicate NamesMatch(byName: map<string, int>, names: seq<string>, done: seq<Transaction>)
  {
    && names == Names(done)
    && (forall n :: n in byName <==> n in names)
    && (forall n :: n in byName ==> byName[n] == KeySum(done, BucketName, Magnitude, n))
  }

  /** The month map and its insertion order agree with the transactions seen. */
  ghost predicate MonthsMatch(byMonth: map<MonthKey, SavingsPoint>, months: seq<MonthKey>, done: seq<Transaction>)
  {
    && NoDuplicates(months)
    && (forall k :: k in byMonth <==> k in months)
    && (forall k :: k in byMonth <==> HasMonth(done, k))
    && (forall k :: k in byMonth ==> byMonth[k] == SavingsPoint(Label(k), KeySum(done, MonthOf, Magnitude, k)))
  }

  function AddToNames(byName: map<string, int>, tx: Transaction): map<string, int>
  {
    var n := BucketName(tx);
    byName[n := (if n in byName then byName[n] else 0) + Magnitude(tx)]
  }

  function AddToMonths(byMonth: map<MonthKey, SavingsPoint>, tx: Transaction): map<MonthKey, SavingsPoint>
  {
    var k := MonthOf(tx);
    var p := if k in byMonth then byMonth[k] else SavingsPoint(Label(k), 0);
    byMonth[k := p.(amount := p.amount + Magnitude(tx))]
  }

  function Appended<K(==)>(ks: seq<K>, k: K): seq<K>
  {
    if k in ks then ks else ks + [k]
  }

  lemma NamesStep(byName: map<string, int>, names: seq<string>, done: seq<Transaction>, tx: Transaction)
    requires NamesMatch(byName, names, done)
    ensures NamesMatch(AddToNames(byName, tx), Appended(names, BucketName(tx)), done + [tx])
  {
    var n := BucketName(tx);
    assert Keys(done + [tx], BucketName) == Keys(done, BucketName) + [n];
    FirstOccurrencesSnoc(Keys(done, BucketName), n);
    NameValuesStep(byName, names, done, tx);
  }

  lemma NameValuesStep(byName: map<string, int>, names: seq<string>, done: seq<Transaction>, tx: Transaction)
    requires names == Names(done)
    requires forall n :: n in byName <==> n in names
    requires forall n :: n in byName ==> byName[n] == KeySum(done, BucketName, Magnitude, n)
    ensures forall n :: n in AddToNames(byName, tx) ==> AddToNames(byName, tx)[n] == KeySum(done + [tx], BucketName, Magnitude, n)
  {
    var n := BucketName(tx);
    if n !in byName {
      forall i | 0 <= i < |done| ensures BucketName(done[i]) != n {
        assert Keys(done, BucketName)[i] in names;
      }
      KeySumAbsent(done, BucketName, Magnitude, n);
    }
    forall m {
      KeySumSnoc(done, tx, BucketName, Magnitude, m);
    }
  }

  lemma MonthsStep(byMonth: map<MonthKey, SavingsPoint>, months: seq<MonthKey>, done: seq<Transaction>, tx: Transaction)
    requires MonthsMatch(byMonth, months, done)
    ensures MonthsMatch(AddToMonths(byMonth, tx), Appended(months, MonthOf(tx)), done + [tx])
  {
    HasMonthSnoc(done, tx);
    MonthValuesStep(byMonth, done, tx);
  }

  lemma MonthValuesStep(byMonth: map<MonthKey, SavingsPoint>, done: seq<Transaction>, tx: Transaction)
    requires forall k :: k in byMonth <==> HasMonth(done, k)
    requires forall k :: k in byMonth ==> byMonth[k] == SavingsPoint(Label(k), KeySum(done, MonthOf, Magnitude, k))
    ensures forall k :: k in AddToMonths(byMonth, tx) ==> AddToMonths(byMonth, tx)[k] == SavingsPoint(Label(k), KeySum(done + [tx], MonthOf, Magnitude, k))
  {
    var k := MonthOf(tx);
    if k !in byMonth {
      KeySumAbsent(done, MonthOf, Magnitude, k);
    }
    forall m {
      KeySumSnoc(done, tx, MonthOf, Magnitude, m);
    }
  }

  /** The component's computation. Both maps are filled in one pass; the
      total adds up the name map's values; the breakdown lists that map in
      insertion order; the trend lists the month map sorted by month. */
  method SavingsOverview(txs: seq<Transaction>, loading: bool) returns (v: SavingsView)
    ensures v.EmptyState? <==> !loading && txs == []
    ensures v.Overview? ==> v.totalSaved == Total(txs, Magnitude)
    ensures v.Overview? ==> v.breakdown == Breakdown(txs)
    ensures v.Overview? ==> v.monthly == MonthlyData(txs)
  {
    var byName, names, byMonth, months := Accumulate(txs);
    var totalSaved := SumValues(byName, names);
    var breakdown := seq(|names|, j requires 0 <= j < |names| => NamedAmount(names[j], byName[names[j]]));
    var sorted := SortMonths(months);
    var monthly := seq(|sorted|, g requires 0 <= g < |sorted| => byMonth[sorted[g]]);

    if !loading && |txs| == 0 {
      return EmptyState;
    }
    TotalSavedIsTotal(byName, names, txs);
    ListingIsBreakdown(byName, names, txs);
    ListingIsMonthly(byMonth, months, sorted, txs);
    v := Overview(totalSaved, breakdown, monthly);
  }

  /** The name map listed in insertion order is the breakdown. */
  lemma ListingIsBreakdown(byName: map<string, int>, names: seq<string>, txs: seq<Transaction>)
    requires NamesMatch(byName, names, txs)
    ensures forall j :: 0 <= j < |names| ==> names[j] in byName
    ensures seq(|names|, j requires 0 <= j < |names| => NamedAmount(names[j], byName[names[j]])) == Breakdown(txs)
  {
  }

  /** The month map listed in sorted key order is the trend. */
  lemma ListingIsMonthly(byMonth: map<MonthKey, SavingsPoint>, months: seq<MonthKey>, sorted: seq<MonthKey>, txs: seq<Transaction>)
    requires MonthsMatch(byMonth, months, txs)
    requires sorted == SortMonths(months)
    ensures forall g :: 0 <= g < |sorted| ==> sorted[g] in byMonth
    ensures seq(|sorted|, g requires 0 <= g < |sorted| => byMonth[sorted[g]]) == MonthlyData(txs)
  {
    MonthListUnique(sorted, MonthsOf(txs));
  }

  /** The `forEach` pass: both maps filled, each with its insertion order. */
  method Accumulate(txs: seq<Transaction>)
    returns (byName: map<string, int>, names: seq<string>, byMonth: map<MonthKey, SavingsPoint>, months: seq<MonthKey>)
    ensures NamesMatch(byName, names, txs)
    ensures MonthsMatch(byMonth, months, txs)
  {
    byName, names, byMonth, months := map[], [], map[], [];
    var i := 0;
    ghost var done: seq<Transaction> := [];
    assert Keys(done, BucketName) == [];
    while i < |txs|
      invariant 0 <= i <= |txs|
      invariant done == txs[..i]
      invariant NamesMatch(byName, names, done)
      invariant MonthsMatch(byMonth, months, done)
    {
      var tx := txs[i];
      byName, names, byMonth, months := AddTransaction(byName, names, byMonth, months, done, tx);
      assert txs[..i + 1] == done + [tx];
      done := done + [tx];
      i := i + 1;
    }
    assert done == txs;
  }

  /** The body of the `forEach`: one transaction added to both maps. */
  method AddTransaction(byName: map<string, int>, names: seq<string>, byMonth: map<MonthKey, SavingsPoint>, months: seq<MonthKey>,
                        ghost done: seq<Transaction>, tx: Transaction)
    returns (byName': map<string, int>, names': seq<string>, byMonth': map<MonthKey, SavingsPoint>, months': seq<MonthKey>)
    requires NamesMatch(byName, names, done)
    requires MonthsMatch(byMonth, months, done)
    ensures NamesMatch(byName', names', done + [tx])
    ensures MonthsMatch(byMonth', months', done + [tx])
  {
    NamesStep(byName, names, done, tx);
    MonthsStep(byMonth, months, done, tx);
    byName', names' := AddToNameMap(byName, names, tx);
    byMonth', months' := AddToMonthMap(byMonth, months, tx);
  }

  /** `savingsByCategory.set(name, (get(name) ?? 0) + |amount|)`, the key
      going last in insertion order when it is new. */
  method AddToNameMap(byName: map<string, int>, names: seq<string>, tx: Transaction)
    returns (byName': map<string, int>, names': seq<string>)
    requires forall n :: n in byName <==> n in names
    ensures byName' == AddToNames(byName, tx)
    ensures names' == Appended(names, BucketName(tx))
  {
    var name := BucketName(tx);
    names' := names;
    if name !in byName {
      names' := names + [name];
    }
    byName' := byName[name := (if name in byName then byName[name] else 0) + Abs(tx.amount)];
  }

  /** A new month gets an entry with amount 0; then the month's entry grows
      by |amount|. */
  method AddToMonthMap(byMonth: map<MonthKey, SavingsPoint>, months: seq<MonthKey>, tx: Transaction)
    returns (byMonth': map<MonthKey, SavingsPoint>, months': seq<MonthKey>)
    requires forall k :: k in byMonth <==> k in months
    ensures byMonth' == AddToMonths(byMonth, tx)
    ensures months' == Appended(months, MonthOf(tx))
  {
    var key := MonthOf(tx);
    byMonth', months' := byMonth, months;
    if key !in byMonth {
      byMonth' := byMonth'[key := SavingsPoint(Label(key), 0)];
      months' := months' + [key];
    }
    var point := byMonth'[key];
    byMonth' := byMonth'[key := point.(amount := point.amount + Abs(tx.amount))];
  }

  /** The reduce over the name map gives the sum of all magnitudes: every
      transaction lands in exactly one name bucket. */
  lemma TotalSavedIsTotal(byName: map<string, int>, names: seq<string>, txs: seq<Transaction>)
    requires NamesMatch(byName, names, txs)
    ensures forall i :: 0 <= i < |names| ==> names[i] in byName
    ensures SumValues(byName, names) == Total(txs, Magnitude)
  {
    SumValuesOfBuckets(byName, names, txs);
    forall i | 0 <= i < |txs| ensures BucketName(txs[i]) in names {
      assert Keys(txs, BucketName)[i] in names;
    }
    SumOverDistinctKeys(txs, BucketName, Magnitude, names);
  }

  lemma {:induction false} SumValuesOfBuckets(byName: map<string, int>, names: seq<string>, txs: seq<Transaction>)
    requires forall i :: 0 <= i < |names| ==> names[i] in byName
    requires forall n :: n in byName ==> byName[n] == KeySum(txs, BucketName, Magnitude, n)
    ensures SumValues(byName, names) == SumOverKeys(txs, BucketName, Magnitude, names)
  {
    if names != [] {
      SumValuesOfBuckets(byName, names[1..], txs);
    }
  }

  /** The monthly trend adds up to the total saved: every transaction adds
      the same magnitude to one name bucket and to one month bucket. */
  lemma MonthlySumsToTotal(txs: seq<Transaction>)
    ensures PointsTotal(MonthlyData(txs)) == Total(txs, Magnitude)
  {
    MonthsDistinct(txs);
    PointsTotalOver(txs, MonthsOf(txs));
    SumOverDistinctKeys(txs, MonthOf, Magnitude, MonthsOf(txs));
  }

  lemma {:induction false} PointsTotalOver(txs: seq<Transaction>, ms: seq<MonthKey>)
    ensures PointsTotal(seq(|ms|, g requires 0 <= g < |ms| => SavingsPoint(Label(ms[g]), KeySum(txs, MonthOf, Magnitude, ms[g]))))
         == SumOverKeys(txs, MonthOf, Magnitude, ms)
  {
    if ms != [] {
      PointsTotalOver(txs, ms[1..]);
      var ps := seq(|ms|, g requires 0 <= g < |ms| => SavingsPoint(Label(ms[g]), KeySum(txs, MonthOf, Magnitude, ms[g])));
      var rest := seq(|ms[1..]|, g requires 0 <= g < |ms[1..]| => SavingsPoint(Label(ms[1..][g]), KeySum(txs, MonthOf, Magnitude, ms[1..][g])));
      assert ps[1..] == rest;
    }
  }

  /** Every amount shown, per name and per month, is non-negative. */
  lemma AmountsNonNegative(txs: seq<Transaction>)
    ensures forall i :: 0 <= i < |Breakdown(txs)| ==> Breakdown(txs)[i].amount >= 0
    ensures forall g :: 0 <= g < |MonthlyData(txs)| ==> MonthlyData(txs)[g].amount >= 0
  {
    forall n {
      KeySumNonNegative(txs, BucketName, Magnitude, n);
    }
    forall k {
      KeySumNonNegative(txs, MonthOf, Magnitude, k);
    }
  }

  /** A transaction without a category row is counted under "Savings". */
  lemma MissingCategoryBucket(txs: seq<Transaction>, i: int)
    requires 0 <= i < |txs| && txs[i].category.None?
    ensures BucketName(txs[i]) == FALLBACK_NAME && FALLBACK_NAME in Names(txs)
    ensures KeySum(txs, BucketName, Magnitude, FALLBACK_NAME) >= Magnitude(txs[i])
  {
    assert Keys(txs, BucketName)[i] == FALLBACK_NAME;
    KeySumAtLeast(txs, BucketName, Magnitude, i);
  }
}
