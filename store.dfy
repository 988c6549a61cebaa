/** The server's tables and the route handlers that change them
    (`categories.py`, `setup.py`, `transactions.py`). The database is an
    in-memory table per entity, keyed by id, with the id each new row will
    receive. */
module Store {
  import opened Common
  import opened Calendar
  import opened Normalization
  import Sorting

  datatype CategoryRow = CategoryRow(name: string, kind: CategoryType)
  datatype TxRow = TxRow(date: Date, amount: Cents, categoryId: int, description: Option<string>)

  /** A transaction row together with its id, as the list and create
      endpoints return it. */
  datatype StoredTx = StoredTx(id: int, row: TxRow)

  /** One field of an update body: left out, sent as `null`, or sent with a
      value. */
  datatype Patch<+T> = Unset | Null | Set(value: T)

  datatype TxPatch = TxPatch(date: Patch<Date>, amount: Patch<Cents>, categoryId: Patch<int>, description: Patch<string>)

  // ---------------------------------------------------------------------
  // Default categories

  /** The ten categories `create_default_categories` offers, in order. */
  const DEFAULTS: seq<CategoryRow> := [
    CategoryRow("Salary", INCOME),
    CategoryRow("Bonus", INCOME),
    CategoryRow("Groceries", EXPENSE),
    CategoryRow("Rent", EXPENSE),
    CategoryRow("Restaurants", EXPENSE),
    CategoryRow("Transport", EXPENSE),
    CategoryRow("Kids", EXPENSE),
    CategoryRow("Hobbies", EXPENSE),
    CategoryRow("Savings", SAVING),
    CategoryRow("Emergency Fund", SAVING)
  ]

  function NamesOf(categories: map<int, CategoryRow>): set<string>
  {
    set id | id in categories :: categories[id].name
  }

  function DefaultNames(defaults: seq<CategoryRow>): set<string>
  {
    set i | 0 <= i < |defaults| :: defaults[i].name
  }

  /** Which names of `defaults` a seeding run creates and which it skips,
      given the names already present, both in the order of `defaults`. */
  function SeedPlan(existing: set<string>, defaults: seq<CategoryRow>): (plan: (seq<string>, seq<string>))
    ensures forall n :: n in plan.0 <==> n in DefaultNames(defaults) && n !in existing
    ensures forall n :: n in plan.1 <==> n in DefaultNames(defaults) && n in existing
    ensures |plan.0| + |plan.1| == |defaults|
  {
    if defaults == [] then ([], [])
    else
      var init := defaults[..|defaults| - 1];
      var n := defaults[|defaults| - 1].name;
      var rest := SeedPlan(existing, init);
      assert DefaultNames(defaults) == DefaultNames(init) + {n} by {
        assert forall i :: 0 <= i < |init| ==> init[i] == defaults[i];
      }
      if n in existing then (rest.0, rest.1 + [n]) else (rest.0 + [n], rest.1)
  }

  /** Seeding twice creates nothing the second time: every default name is
      present after the first run, so the second skips all of them. */
  lemma {:induction false} SeedIdempotent(existing: set<string>, defaults: seq<CategoryRow>)
    requires DefaultNames(defaults) <= existing
    ensures SeedPlan(existing, defaults).0 == []
    ensures SeedPlan(existing, defaults).1 == seq(|defaults|, i requires 0 <= i < |defaults| => defaults[i].name)
  {
    if defaults != [] {
      var init := defaults[..|defaults| - 1];
      assert DefaultNames(init) <= DefaultNames(defaults) by {
        assert forall i :: 0 <= i < |init| ==> init[i] == defaults[i];
      }
      SeedIdempotent(existing, init);
    }
  }

  /** No two rows of `defaults` share a name. */
  predicate DistinctNames(defaults: seq<CategoryRow>)
  {
    forall i, j :: 0 <= i < j < |defaults| ==> defaults[i].name != defaults[j].name
  }

  /** The default names are pairwise distinct. */
  lemma DefaultsDistinct()
    ensures DistinctNames(DEFAULTS)
  {
  }

  // ---------------------------------------------------------------------
  // Partial update of a transaction

  /** The category the update is checked against when the amount or the
      category is sent: the new one if sent, else the current one; `None`
      when `category_id` is sent as `null`. */
  function TargetCategory(row: TxRow, patch: TxPatch): (t: Option<int>)
    ensures t.None? <==> patch.categoryId.Null?
    ensures patch.categoryId.Set? ==> t == Some(patch.categoryId.value)
    ensures patch.categoryId.Unset? ==> t == Some(row.categoryId)
  {
    match patch.categoryId
    case Unset => Some(row.categoryId)
    case Null => None
    case Set(c) => Some(c)
  }

  /** The update touches money when it sends an amount or a category. */
  predicate TouchesMoney(patch: TxPatch)
  {
    !patch.amount.Unset? || !patch.categoryId.Unset?
  }

  /** Writes every field the body carries onto the row. A `null` date,
      amount or category breaks a NOT NULL column and the commit fails
      (status 500); a `null` description clears it. */
  function Assign(row: TxRow, data: TxPatch): (r: Result<TxRow>)
    ensures r.Err? <==> data.date.Null? || data.amount.Null? || data.categoryId.Null?
    ensures r.Err? ==> r.status == 500
    ensures r.Ok? ==> r.value.description == (match data.description case Unset => row.description case Null => None case Set(d) => Some(d))
  {
    if data.date.Null? || data.amount.Null? || data.categoryId.Null? then Err(500)
    else Ok(TxRow(
      if data.date.Set? then data.date.value else row.date,
      if data.amount.Set? then data.amount.value else row.amount,
      if data.categoryId.Set? then data.categoryId.value else row.categoryId,
      match data.description
      case Unset => row.description
      case Null => None
      case Set(d) => Some(d)))
  }

  /** `update_transaction` after the row was found. When the amount or the
      category is sent, the target category must exist (else 400); a sent
      amount is normalised for the target category, and a category sent
      without an amount re-normalises the current amount for it. */
  function ApplyPatch(row: TxRow, patch: TxPatch, categories: map<int, CategoryRow>): (r: Result<TxRow>)
    ensures r == Err(400) <==> TouchesMoney(patch) && (TargetCategory(row, patch).None? || TargetCategory(row, patch).value !in categories)
    ensures r == Err(500) <==> r != Err(400) && (patch.date.Null? || patch.amount.Null?)
    ensures r.Err? ==> r.status == 400 || r.status == 500
    ensures r.Ok? ==> r.value.date == (if patch.date.Set? then patch.date.value else row.date)
    ensures r.Ok? && TouchesMoney(patch) ==> r.value.categoryId == TargetCategory(row, patch).value && r.value.categoryId in categories
    ensures r.Ok? && patch.amount.Set? ==> r.value.amount == NormalizeAmount(categories[r.value.categoryId].kind, patch.amount.value)
    ensures r.Ok? && patch.amount.Unset? && patch.categoryId.Set? ==> r.value.amount == NormalizeAmount(categories[r.value.categoryId].kind, row.amount)
    ensures r.Ok? && TouchesMoney(patch) ==> SignAgrees(categories[r.value.categoryId].kind, r.value.amount)
    ensures !TouchesMoney(patch) ==> (r.Ok? <==> !patch.date.Null?)
    ensures r.Ok? && !TouchesMoney(patch) ==> r.value.amount == row.amount && r.value.categoryId == row.categoryId
    ensures r.Ok? ==> r.value.description == (match patch.description case Unset => row.description case Null => None case Set(d) => Some(d))
  {
    if TouchesMoney(patch) then
      var target := TargetCategory(row, patch);
      if target.None? || target.value !in categories then Err(400)
      else
        var kind := categories[target.value].kind;
        var amount := match patch.amount
          case Set(v) => Set(NormalizeAmount(kind, v))
          case Unset => Set(NormalizeAmount(kind, row.amount))
          case Null => Null;
        Assign(row, patch.(categoryId := Set(target.value), amount := amount))
    else Assign(row, patch)
  }

  /** An accepted update keeps a row's amount carrying the sign its
      category's type demands, whichever fields the patch sends. */
  lemma PatchKeepsSign(row: TxRow, patch: TxPatch, categories: map<int, CategoryRow>)
    requires row.categoryId in categories && SignAgrees(categories[row.categoryId].kind, row.amount)
    ensures ApplyPatch(row, patch, categories).Ok? ==>
      var r := ApplyPatch(row, patch, categories).value;
      r.categoryId in categories && SignAgrees(categories[r.categoryId].kind, r.amount)
  {
  }

  // ---------------------------------------------------------------------
  // Orders of the list endpoints

  function CategoryName(c: Category): string
  {
    c.name
  }

  /** The sort key of `ORDER BY date DESC, id DESC`. */
  datatype TxKey = TxKey(date: Date, id: int)

  function TxKeyOf(t: StoredTx): TxKey
  {
    TxKey(t.row.date, t.id)
  }

  /** `a` is listed before `b`: a later date, or the same date and a larger
      id. */
  predicate NewerFirst(a: TxKey, b: TxKey)
  {
    DateBefore(b.date, a.date) || (a.date == b.date && a.id > b.id)
  }

  lemma NewerFirstIsStrictTotalOrder()
    ensures Sorting.StrictTotalOrder(NewerFirst)
  {
  }

  /** Adding a row under a fresh id adds exactly its name. */
  lemma NamesOfInsert(categories: map<int, CategoryRow>, id: int, row: CategoryRow)
    requires id !in categories
    ensures NamesOf(categories[id := row]) == NamesOf(categories) + {row.name}
  {
    var after := categories[id := row];
    forall n | n in NamesOf(categories) ensures n in NamesOf(after) {
      var k :| k in categories && categories[k].name == n;
      assert after[k].name == n;
    }
    assert after[id].name == row.name;
  }

  lemma DefaultNamesSnoc(defaults: seq<CategoryRow>, row: CategoryRow)
    ensures DefaultNames(defaults + [row]) == DefaultNames(defaults) + {row.name}
  {
    var longer := defaults + [row];
    forall n | n in DefaultNames(defaults) ensures n in DefaultNames(longer) {
      var j :| 0 <= j < |defaults| && defaults[j].name == n;
      assert longer[j] == defaults[j];
    }
    assert longer[|defaults|] == row;
  }

  lemma SeedPlanSnoc(existing: set<string>, defaults: seq<CategoryRow>, row: CategoryRow)
    ensures SeedPlan(existing, defaults + [row]) ==
      var plan := SeedPlan(existing, defaults);
      if row.name in existing then (plan.0, plan.1 + [row.name]) else (plan.0 + [row.name], plan.1)
  {
    assert (defaults + [row])[..|defaults|] == defaults;
  }

  /** Row `i` is named differently from every row before it. */
  lemma FreshDefault(defaults: seq<CategoryRow>, i: int)
    requires DistinctNames(defaults) && 0 <= i < |defaults|
    ensures defaults[i].name !in DefaultNames(defaults[..i])
  {
  }

  /** Some element of a non-empty set of ids. */
  method Pick(ids: set<int>) returns (id: int)
    requires |ids| > 0
    ensures id in ids
  {
    if forall x :: x !in ids {
      assert false;
    }
    id :| id in ids;
  }

  /** Category names are unique across the table. */
  ghost predicate UniqueNames(categories: map<int, CategoryRow>)
  {
    forall a, b :: a in categories && b in categories && categories[a].name == categories[b].name ==> a == b
  }

  class Database {
    var categories: map<int, CategoryRow>
    var transactions: map<int, TxRow>
    var nextCategoryId: int
    var nextTransactionId: int

    /** Ids are handed out from 1 upward; names are unique; every
        transaction points to an existing category and carries the sign
        that category's type demands. */
    ghost predicate Valid()
      reads this
    {
      && 1 <= nextCategoryId && 1 <= nextTransactionId
      && (forall id :: id in categories ==> 1 <= id < nextCategoryId)
      && (forall id :: id in transactions ==> 1 <= id < nextTransactionId)
      && UniqueNames(categories)
      && (forall id :: id in transactions ==> WellFormed(transactions[id]))
    }

    ghost predicate WellFormed(row: TxRow)
      reads this
    {
      row.categoryId in categories && SignAgrees(categories[row.categoryId].kind, row.amount)
    }

    constructor ()
      ensures Valid()
      ensures categories == map[] && transactions == map[]
    {
      categories := map[];
      transactions := map[];
      nextCategoryId := 1;
      nextTransactionId := 1;
    }

    /** `db.query(Category).filter(Category.name == name).first()`. */
    method CategoryNamed(name: string) returns (found: bool)
      ensures found <==> name in NamesOf(categories)
    {
      found := exists id :: id in categories && categories[id].name == name;
    }

    /** `create_category`: a name already present is refused with 400 and
        nothing changes; otherwise one row is added under a fresh id. */
    method CreateCategory(name: string, kind: CategoryType) returns (r: Result<Category>)
      requires Valid()
      modifies this`categories, this`nextCategoryId
      ensures Valid()
      ensures r == Err(400) <==> name in NamesOf(old(categories))
      ensures r.Err? ==> categories == old(categories) && nextCategoryId == old(nextCategoryId)
      ensures r.Ok? ==> old(nextCategoryId) !in old(categories)
      ensures r.Ok? ==> r.value == Category(old(nextCategoryId), name, kind)
      ensures r.Ok? ==> categories == old(categories)[old(nextCategoryId) := CategoryRow(name, kind)]
    {
      var existing := CategoryNamed(name);
      if existing {
        return Err(400);
      }
      var id := AddCategory(CategoryRow(name, kind));
      r := Ok(Category(id, name, kind));
    }

    /** Inserts a row whose name is not yet taken under the next category
        id. */
    method AddCategory(row: CategoryRow) returns (id: int)
      requires Valid() && row.name !in NamesOf(categories)
      modifies this`categories, this`nextCategoryId
      ensures Valid()
      ensures id == old(nextCategoryId) && id !in old(categories)
      ensures categories == old(categories)[id := row] && nextCategoryId == id + 1
      ensures NamesOf(categories) == NamesOf(old(categories)) + {row.name}
    {
      NameAbsent(row.name);
      id := nextCategoryId;
      NamesOfInsert(categories, id, row);
      categories := categories[id := row];
      nextCategoryId := nextCategoryId + 1;
      assert UniqueNames(categories);
      assert forall t :: t in transactions ==> WellFormed(transactions[t]);
    }

    /** `list_categories`: every row once, ascending by name. */
    method ListCategories() returns (r: seq<Category>)
      requires Valid()
      ensures Sorting.Ascending(r, CategoryName, Sorting.StrLess)
      ensures forall c :: c in r <==> c.id in categories && categories[c.id] == CategoryRow(c.name, c.kind)
    {
      r := [];
      var ids := categories.Keys;
      while |ids| > 0
        invariant ids <= categories.Keys
        invariant Sorting.Ascending(r, CategoryName, Sorting.StrLess)
        invariant forall c :: c in r <==> c.id in categories.Keys - ids && categories[c.id] == CategoryRow(c.name, c.kind)
        decreases |ids|
      {
        var id := Pick(ids);
        r := InsertCategory(r, id);
        ids := ids - {id};
      }
    }

    /** One pass of the listing loop: the row `id` joins `r` at its place by
        name. */
    method InsertCategory(r: seq<Category>, id: int) returns (r': seq<Category>)
      requires Valid() && id in categories
      requires forall y :: y in r ==> y.id in categories && y.id != id && categories[y.id] == CategoryRow(y.name, y.kind)
      requires Sorting.Ascending(r, CategoryName, Sorting.StrLess)
      ensures Sorting.Ascending(r', CategoryName, Sorting.StrLess)
      ensures forall y :: y in r' <==> y in r || y == Category(id, categories[id].name, categories[id].kind)
    {
      Sorting.StrLessIsStrictTotalOrder();
      var c := Category(id, categories[id].name, categories[id].kind);
      forall y | y in r ensures CategoryName(y) != CategoryName(c) {
        assert y.id != id;
      }
      Sorting.InsertAscending(r, c, CategoryName, Sorting.StrLess);
      r' := Sorting.Insert(r, c, CategoryName, Sorting.StrLess);
      assert forall y :: y in r' <==> y in multiset(r');
    }

    /** A name not among the names of the table is carried by no row. */
    lemma NameAbsent(name: string)
      requires name !in NamesOf(categories)
      ensures forall id :: id in categories ==> categories[id].name != name
    {
      forall id | id in categories ensures categories[id].name != name {
        assert categories[id].name in NamesOf(categories);
      }
    }

    /** The table after the first `i` rows of `defaults` were seeded into
        `original`, whose names were `existing`. */
    ghost predicate SeededUpTo(defaults: seq<CategoryRow>, existing: set<string>, original: map<int, CategoryRow>,
                               i: int, created: seq<string>, skipped: seq<string>)
      reads this
    {
      && 0 <= i <= |defaults|
      && existing == NamesOf(original)
      && (created, skipped) == SeedPlan(existing, defaults[..i])
      && (forall id :: id in original ==> id in categories && categories[id] == original[id])
      && (forall id :: id in categories && id !in original ==> categories[id] in defaults[..i] && categories[id].name in created)
      && NamesOf(categories) == existing + DefaultNames(defaults[..i])
    }

    /** `create_default_categories`: each default whose name is not yet
        present is added with its type; the others are skipped. */
    method SeedDefaultCategories() returns (created: seq<string>, skipped: seq<string>)
      requires Valid()
      modifies this`categories, this`nextCategoryId
      ensures Valid()
      ensures (created, skipped) == SeedPlan(NamesOf(old(categories)), DEFAULTS)
      ensures forall id :: id in old(categories) ==> id in categories && categories[id] == old(categories)[id]
      ensures forall id :: id in categories && id !in old(categories) ==> categories[id] in DEFAULTS && categories[id].name in created
      ensures NamesOf(categories) == NamesOf(old(categories)) + DefaultNames(DEFAULTS)
    {
      DefaultsDistinct();
      created, skipped := Seed(DEFAULTS);
    }

    /** The seeding loop over a list of rows with distinct names. */
    method Seed(defaults: seq<CategoryRow>) returns (created: seq<string>, skipped: seq<string>)
      requires Valid() && DistinctNames(defaults)
      modifies this`categories, this`nextCategoryId
      ensures Valid()
      ensures (created, skipped) == SeedPlan(NamesOf(old(categories)), defaults)
      ensures forall id :: id in old(categories) ==> id in categories && categories[id] == old(categories)[id]
      ensures forall id :: id in categories && id !in old(categories) ==> categories[id] in defaults && categories[id].name in created
      ensures NamesOf(categories) == NamesOf(old(categories)) + DefaultNames(defaults)
    {
      ghost var original := categories;
      ghost var existing := NamesOf(categories);
      created, skipped := [], [];
      var i := 0;
      assert defaults[..0] == [];
      while i < |defaults|
        invariant Valid()
        invariant SeededUpTo(defaults, existing, original, i, created, skipped)
      {
        created, skipped := SeedOne(defaults, existing, original, i, created, skipped);
        i := i + 1;
      }
      assert defaults[..i] == defaults;
    }

    /** One pass of the seeding loop: row `i` is skipped when its name is
        present, and added otherwise. */
    method SeedOne(defaults: seq<CategoryRow>, ghost existing: set<string>, ghost original: map<int, CategoryRow>,
                   i: int, created: seq<string>, skipped: seq<string>)
      returns (created': seq<string>, skipped': seq<string>)
      requires Valid() && DistinctNames(defaults) && i < |defaults|
      requires SeededUpTo(defaults, existing, original, i, created, skipped)
      modifies this`categories, this`nextCategoryId
      ensures Valid() && SeededUpTo(defaults, existing, original, i + 1, created', skipped')
    {
      var row := defaults[i];
      ghost var done := defaults[..i];
      assert defaults[..i + 1] == done + [row];
      DefaultNamesSnoc(done, row);
      SeedPlanSnoc(existing, done, row);
      FreshDefault(defaults, i);
      var found := CategoryNamed(row.name);
      created', skipped' := created, skipped;
      if found {
        skipped' := skipped' + [row.name];
      } else {
        var id := AddCategory(row);
        created' := created' + [row.name];
      }
    }

    // -------------------------------------------------------------------
    // Transactions

    /** `create_transaction`: the category must exist (else 400); the row is
        stored under the next id with its amount normalised for the
        category's type. */
    method CreateTransaction(date: Date, amount: Cents, categoryId: int, description: Option<string>) returns (r: Result<StoredTx>)
      requires Valid()
      modifies this`transactions, this`nextTransactionId
      ensures Valid()
      ensures r.Err? <==> categoryId !in categories
      ensures r.Err? ==> r.status == 400 && transactions == old(transactions) && nextTransactionId == old(nextTransactionId)
      ensures r.Ok? ==> r.value.id == old(nextTransactionId) && r.value.id !in old(transactions)
      ensures r.Ok? ==> r.value.row == TxRow(date, NormalizeAmount(categories[categoryId].kind, amount), categoryId, description)
      ensures r.Ok? ==> transactions == old(transactions)[r.value.id := r.value.row] && nextTransactionId == r.value.id + 1
    {
      if categoryId !in categories {
        return Err(400);
      }
      var row := TxRow(date, NormalizeAmount(categories[categoryId].kind, amount), categoryId, description);
      var id := nextTransactionId;
      transactions := transactions[id := row];
      nextTransactionId := nextTransactionId + 1;
      r := Ok(StoredTx(id, row));
    }

    /** `get_transaction`: the row under `id`, or 404. */
    method GetTransaction(id: int) returns (r: Result<StoredTx>)
      ensures r.Err? <==> id !in transactions
      ensures r.Err? ==> r.status == 404
      ensures r.Ok? ==> r.value == StoredTx(id, transactions[id])
    {
      if id !in transactions {
        return Err(404);
      }
      r := Ok(StoredTx(id, transactions[id]));
    }

    /** `update_transaction`: 404 for an unknown id; otherwise the patch is
        applied as `ApplyPatch` says, and a refused patch changes nothing. */
    method UpdateTransaction(id: int, patch: TxPatch) returns (r: Result<StoredTx>)
      requires Valid()
      modifies this`transactions
      ensures Valid()
      ensures id !in old(transactions) ==> r == Err(404) && transactions == old(transactions)
      ensures id in old(transactions) && ApplyPatch(old(transactions)[id], patch, categories).Err? ==>
        r == Err(ApplyPatch(old(transactions)[id], patch, categories).status) && transactions == old(transactions)
      ensures id in old(transactions) && ApplyPatch(old(transactions)[id], patch, categories).Ok? ==>
        r == Ok(StoredTx(id, ApplyPatch(old(transactions)[id], patch, categories).value))
        && transactions == old(transactions)[id := r.value.row]
    {
      if id !in transactions {
        return Err(404);
      }
      var applied := ApplyPatch(transactions[id], patch, categories);
      PatchKeepsSign(transactions[id], patch, categories);
      if applied.Err? {
        return Err(applied.status);
      }
      transactions := transactions[id := applied.value];
      r := Ok(StoredTx(id, applied.value));
    }

    /** `delete_transaction`: 404 for an unknown id, else 204 and exactly
        that row is gone. */
    method DeleteTransaction(id: int) returns (status: int)
      requires Valid()
      modifies this`transactions
      ensures Valid()
      ensures status == (if id in old(transactions) then 204 else 404)
      ensures transactions == old(transactions) - {id}
    {
      if id !in transactions {
        return 404;
      }
      transactions := transactions - {id};
      status := 204;
    }

    /** `list_transactions`: every row once, newest date first and, on the
        same date, the larger id first. */
    method ListTransactions() returns (r: seq<StoredTx>)
      ensures Sorting.Ascending(r, TxKeyOf, NewerFirst)
      ensures forall t :: t in r <==> t.id in transactions && transactions[t.id] == t.row
    {
      r := [];
      var ids := transactions.Keys;
      while |ids| > 0
        invariant ids <= transactions.Keys
        invariant Sorting.Ascending(r, TxKeyOf, NewerFirst)
        invariant forall t :: t in r <==> t.id in transactions.Keys - ids && transactions[t.id] == t.row
        decreases |ids|
      {
        var id := Pick(ids);
        r := InsertTransaction(r, id);
        ids := ids - {id};
      }
    }

    /** One pass of the listing loop: the row `id` joins `r` at its place. */
    method InsertTransaction(r: seq<StoredTx>, id: int) returns (r': seq<StoredTx>)
      requires id in transactions
      requires forall t :: t in r ==> t.id != id
      requires Sorting.Ascending(r, TxKeyOf, NewerFirst)
      ensures Sorting.Ascending(r', TxKeyOf, NewerFirst)
      ensures forall t :: t in r' <==> t in r || t == StoredTx(id, transactions[id])
    {
      NewerFirstIsStrictTotalOrder();
      var t := StoredTx(id, transactions[id]);
      Sorting.InsertAscending(r, t, TxKeyOf, NewerFirst);
      r' := Sorting.Insert(r, t, TxKeyOf, NewerFirst);
      assert forall y :: y in r' <==> y in multiset(r');
    }
  }
}
