/** frontend/src/components/TransactionForm.jsx: the add-transaction form, its
    defaults, the submit guard and the payload it hands to the page, and what the
    server makes of that payload. */
module TransactionForm {
  import opened Common
  import opened Calendar
  import opened Records
  import opened Transactions

  /** The form's state. The amount text is None while empty; a text that is not a
      number is not modelled. The date input holds a `YYYY-MM-DD` day, which the
      server reads as midnight UTC of that day. */
  datatype FormState = FormState(
    txType: string,
    amount: Option<int>,
    category: string,
    date: Instant,
    note: string,
    isRecurring: bool,
    frequency: string)

  /** The state a fresh form starts in; `now` stands for `new Date()` (in UTC), of
      which `toISOString().slice(0, 10)` keeps only the day. */
  function InitialForm(now: Instant): (f: FormState)
    ensures f.txType == "expense" && f.category == "Food"
    ensures f.amount.None? && f.note == ""
    ensures f.date == Instant(now.year, now.month, now.day, 0)
    ensures ValidInstant(now) ==>
      ValidInstant(f.date) && EpochMs(f.date) <= EpochMs(now) < EpochMs(f.date) + MS_PER_DAY
    ensures !f.isRecurring && f.frequency == "monthly"
  {
    FormState("expense", None, "Food", Instant(now.year, now.month, now.day, 0), "", false, "monthly")
  }

  /** What `onSubmit` receives; `note` is None for `undefined` and
      `recurringFrequency` None for `null`. */
  datatype Payload = Payload(
    txType: string,
    amount: int,
    category: string,
    date: Instant,
    note: Option<string>,
    isRecurring: bool,
    recurringFrequency: Option<string>)

  /** handleSubmit: nothing is sent for an empty amount or one <= 0; otherwise the
      numeric amount, the trimmed note (left out when blank) and the frequency only
      for a recurring transaction. */
  function Submit(f: FormState): (r: Option<Payload>)
    ensures r.None? <==> f.amount.None? || f.amount.value <= 0
    ensures r.Some? ==>
      && r.value.amount == f.amount.value && r.value.amount > 0
      && r.value.txType == f.txType && r.value.category == f.category && r.value.date == f.date
      && r.value.isRecurring == f.isRecurring
    ensures r.Some? ==> (r.value.note.None? <==> Trim(f.note) == "")
    ensures r.Some? && r.value.note.Some? ==> r.value.note.value == Trim(f.note)
    ensures r.Some? ==> (r.value.recurringFrequency.Some? <==> f.isRecurring)
    ensures r.Some? && f.isRecurring ==> r.value.recurringFrequency == Some(f.frequency)
  {
    if f.amount.None? || f.amount.value <= 0 then None
    else
      var note := Trim(f.note);
      Some(Payload(f.txType, f.amount.value, f.category, f.date,
                   if note == "" then None else Some(note),
                   f.isRecurring, if f.isRecurring then Some(f.frequency) else None))
  }

  /** The request body the API client posts for a payload. */
  function RequestOf(p: Payload): (r: TxInput)
    ensures r.amount == Some(p.amount) && r.txType == Some(p.txType)
    ensures r.category == Some(p.category) && r.date == Some(p.date)
    ensures r.note == p.note && r.isRecurring == p.isRecurring
    ensures r.recurringFrequency == p.recurringFrequency
  {
    TxInput(Some(p.amount), Some(p.txType), Some(p.category), Some(p.date), p.note,
            p.isRecurring, p.recurringFrequency)
  }

  /** A submitted form with a known type, a category, a real date and a known
      frequency is stored as entered: the note trimmed ("" when blank) and the
      frequency kept only when recurring. */
  lemma SubmittedFormIsStored(f: FormState, id: DocId, user: UserId)
    requires Submit(f).Some?
    requires ParseTxType(f.txType).Some? && f.category != "" && ValidInstant(f.date)
    requires ParseFrequency(f.frequency).Some?
    ensures var r := NewTransaction(id, user, RequestOf(Submit(f).value));
      && r.Ok?
      && r.value.amount == f.amount.value
      && TxTypeName(r.value.txType) == f.txType
      && r.value.category == f.category && r.value.date == f.date
      && r.value.note == Trim(f.note)
      && r.value.recurringFrequency == (if f.isRecurring then ParseFrequency(f.frequency) else None)
  {
    var p := Submit(f).value;
    var input := RequestOf(p);
    assert HasRequiredFields(input);
    assert PassesSchema(input);
  }

  /** The Income and Expense pages post `{ ...payload, type }`, overriding the type
      the form chose. */
  function WithType(p: Payload, txType: string): (r: Payload)
    ensures r.txType == txType
    ensures r.(txType := p.txType) == p
  {
    p.(txType := txType)
  }
}
