/** The add/edit transaction form (`AddTransactionForm` in the client): its
    fields, how an edited transaction fills them, and what submitting them
    sends. */
module Form {
  import opened Common
  import opened Normalization

  /** The amount input: empty, or text that `Number` reads as a value or as
      NaN (`None`). */
  datatype AmountField = Blank | Typed(parsed: Option<Cents>)

  /** The body of a create or update request. */
  datatype Payload = Payload(date: Date, amount: Cents, categoryId: int, description: Option<string>)

  datatype Request = Create(payload: Payload) | Update(id: int, payload: Payload)

  /** What one press of the submit button does: nothing, a thrown error
      while the date is converted, or a request handed to the dashboard
      (`failed` when its handler throws). */
  datatype SubmitOutcome = Ignored | DateRejected | Sent(request: Request, failed: bool)

  /** `categories[i]` is the first category with id `id`. */
  predicate FirstWithId(categories: seq<Category>, id: int, i: int)
  {
    0 <= i < |categories| && categories[i].id == id && forall j :: 0 <= j < i ==> categories[j].id != id
  }

  /** `categories.find(c => c.id === id)`: the first category with that id. */
  function Find(categories: seq<Category>, id: int): (r: Option<Category>)
    ensures r.None? <==> forall i :: 0 <= i < |categories| ==> categories[i].id != id
    ensures r.Some? ==> r.value.id == id && exists i :: FirstWithId(categories, id, i) && categories[i] == r.value
  {
    if categories == [] then None
    else if categories[0].id == id then Some(categories[0])
    else
      var r := Find(categories[1..], id);
      assert forall i :: 0 < i < |categories| ==> categories[i] == categories[1..][i - 1];
      r
  }

  /** The type of the selected category; no type when it is not listed. */
  function SelectedKind(categories: seq<Category>, id: int): (k: CategoryType)
    ensures (forall i :: 0 <= i < |categories| ==> categories[i].id != id) ==> k == ""
    ensures forall i :: FirstWithId(categories, id, i) ==> k == categories[i].kind
  {
    match Find(categories, id)
    case Some(c) => c.kind
    case None => ""
  }

  /** The amount the form shows for a stored amount: the magnitude for an
      expense, the amount itself otherwise. */
  function DisplayAmount(isExpense: bool, amount: Cents): (r: Cents)
    ensures isExpense ==> r >= 0
    ensures !isExpense ==> r == amount
    ensures Abs(r) == Abs(amount)
  {
    if isExpense then Abs(amount) else amount
  }

  /** `description || undefined`. */
  function OptionalText(s: string): (r: Option<string>)
    ensures r.None? <==> s == ""
    ensures r.Some? ==> r.value == s
  {
    if s == "" then None else Some(s)
  }

  /** Editing an entry sends an update of that entry; otherwise a creation.
      Either way the request carries the normalised payload. */
  function RequestFor(editing: Option<Transaction>, payload: Payload): (r: Request)
    ensures r.Update? <==> editing.Some?
    ensures r.Update? ==> r.id == editing.value.id
    ensures r.payload == payload
  {
    if editing.Some? then Update(editing.value.id, payload) else Create(payload)
  }

  class TransactionForm {
    /** The date input; `None` when its text is not a date. */
    var date: Option<Date>
    var amount: AmountField
    /** The category select; `None` while nothing is chosen. */
    var categoryId: Option<int>
    var description: string
    var loading: bool

    /** The form opens empty on today's date (passed in, as the clock is
        outside the model). */
    constructor (today: Date)
      ensures date == Some(today) && amount == Blank && categoryId.None? && description == ""
      ensures !loading
    {
      date := Some(today);
      amount := Blank;
      categoryId := None;
      description := "";
      loading := false;
    }

    /** Amount and category are filled in and the amount reads as a number. */
    predicate Complete()
      reads this
    {
      amount.Typed? && amount.parsed.Some? && categoryId.Some?
    }

    /** The effect run whenever `editing` changes: copy the transaction into
        the fields, an expense's amount as its magnitude, or clear them. */
    method SyncWithEditing(editing: Option<Transaction>, today: Date)
      modifies this`date, this`amount, this`categoryId, this`description
      ensures editing.Some? ==>
        && date == Some(editing.value.date)
        && amount == Typed(Some(DisplayAmount(KindOf(editing.value) == EXPENSE, editing.value.amount)))
        && categoryId == Some(editing.value.categoryId)
        && description == (if editing.value.description.Some? then editing.value.description.value else "")
      ensures editing.None? ==> date == Some(today) && amount == Blank && categoryId.None? && description == ""
    {
      if editing.Some? {
        var tx := editing.value;
        date := Some(tx.date);
        var isExpense := tx.category.Some? && tx.category.value.kind == EXPENSE;
        var shown := if isExpense then Abs(tx.amount) else tx.amount;
        amount := Typed(Some(shown));
        categoryId := Some(tx.categoryId);
        description := if tx.description.Some? then tx.description.value else "";
      } else {
        date := Some(today);
        amount := Blank;
        categoryId := None;
        description := "";
      }
    }

    /** `handleSubmit`. An incomplete form does nothing; a date that does not
        convert throws before anything is sent; otherwise the amount is
        normalised for the selected category and the request is handed
        over, with `loading` set for its duration and cleared even when it
        fails. */
    method Submit(categories: seq<Category>, editing: Option<Transaction>, callbackFails: bool) returns (out: SubmitOutcome)
      modifies this`loading
      ensures out.Ignored? <==> !Complete()
      ensures Complete() && date.None? ==> out.DateRejected?
      ensures Complete() && date.Some? ==> out.Sent? && out.failed == callbackFails
      ensures out.Sent? ==> out.request == RequestFor(editing, Payload(
        date.value,
        NormalizeAmount(SelectedKind(categories, categoryId.value), amount.parsed.value),
        categoryId.value,
        OptionalText(description)))
      ensures loading == if out.Sent? then false else old(loading)
    {
      if amount.Blank? || categoryId.None? {
        return Ignored;
      }
      var parsed := amount.parsed;
      if parsed.None? {
        return Ignored;
      }
      if date.None? {
        return DateRejected;
      }
      var selected := Find(categories, categoryId.value);
      var normalized := if selected.Some? && selected.value.kind == EXPENSE then -(Abs(parsed.value) as int) else Abs(parsed.value);
      var payload := Payload(date.value, normalized, categoryId.value, if description == "" then None else Some(description));
      loading := true;
      var request := if editing.Some? then Update(editing.value.id, payload) else Create(payload);
      loading := false;
      out := Sent(request, callbackFails);
    }
  }

  /** Editing a transaction and submitting without changes sends back the
      stored amount, as long as the stored amount obeys the sign convention
      and its category is among those listed. */
  lemma EditRoundTrip(tx: Transaction, categories: seq<Category>)
    requires tx.category.Some?
    requires Find(categories, tx.categoryId) == tx.category
    requires SignAgrees(KindOf(tx), tx.amount)
    ensures NormalizeAmount(SelectedKind(categories, tx.categoryId), DisplayAmount(KindOf(tx) == EXPENSE, tx.amount)) == tx.amount
  {
  }

  /** When the edited expense's category is not among those listed, the
      unchanged form sends the amount back with its sign flipped. */
  lemma EditUnlistedExpenseFlipsSign(tx: Transaction, categories: seq<Category>)
    requires KindOf(tx) == EXPENSE && tx.amount < 0
    requires forall i :: 0 <= i < |categories| ==> categories[i].id != tx.categoryId
    ensures NormalizeAmount(SelectedKind(categories, tx.categoryId), DisplayAmount(true, tx.amount)) == -tx.amount
  {
  }

  /** A description survives the round trip unless it is empty, in which
      case it comes back absent. */
  lemma DescriptionRoundTrip(d: Option<string>)
    ensures OptionalText(if d.Some? then d.value else "") == if d.Some? && d.value != "" then d else None
  {
  }
}
