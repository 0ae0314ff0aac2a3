/** backend/controllers/transactionController.js: creation with its required
    fields and defaults, the filtered, date-sorted, paginated listing, and the
    update and delete scoped to the owner. */
module Transactions {
  import opened Common
  import opened Calendar
  import opened Records
  import opened Sorting

  /** `recurringFrequency: { enum: ["daily", "weekly", "monthly", "yearly", null] }`. */
  function ParseFrequency(s: string): (r: Option<Frequency>)
    ensures r.Some? <==> s == "daily" || s == "weekly" || s == "monthly" || s == "yearly"
    ensures s == "monthly" ==> r == Some(Monthly)
  {
    if s == "daily" then Some(Daily)
    else if s == "weekly" then Some(Weekly)
    else if s == "monthly" then Some(Monthly)
    else if s == "yearly" then Some(Yearly)
    else None
  }

  /** The body of a create request; a missing field is None, `isRecurring` is its
      truthiness. A date that does not parse is not a ValidInstant. */
  datatype TxInput = TxInput(
    amount: Option<int>,
    txType: Option<string>,
    category: Option<string>,
    date: Option<Instant>,
    note: Option<string>,
    isRecurring: bool,
    recurringFrequency: Option<string>)

  /** `isRecurring ? recurringFrequency || "monthly" : null`, as a frequency name. */
  function FrequencyName(input: TxInput): (r: Option<string>)
    ensures !input.isRecurring ==> r.None?
    ensures input.isRecurring ==> r == Some(StrOr(input.recurringFrequency, "monthly"))
  {
    if input.isRecurring then Some(StrOr(input.recurringFrequency, "monthly")) else None
  }

  /** Whether the fields pass the controller's `!amount || !type || !category || !date`
      check (0 and "" are falsy). */
  predicate HasRequiredFields(input: TxInput) {
    && input.amount.Some? && input.amount.value != 0
    && input.txType.Some? && input.txType.value != ""
    && input.category.Some? && input.category.value != ""
    && input.date.Some?
  }

  /** Whether `Transaction.create` passes the schema (amount >= 0, a known type and
      frequency, a real date); a failure is the controller's 500. */
  predicate PassesSchema(input: TxInput)
    requires HasRequiredFields(input)
  {
    && input.amount.value >= 0
    && ParseTxType(input.txType.value).Some?
    && (FrequencyName(input).None? || ParseFrequency(FrequencyName(input).value).Some?)
    && ValidInstant(input.date.value)
  }

  /** createTransaction: a falsy amount (0 included), type, category or date is a 400;
      a value the schema refuses is a 500; otherwise the stored transaction has the
      given fields, note "" when missing, and a frequency only when recurring
      ("monthly" unless another is given). */
  function NewTransaction(id: DocId, user: UserId, input: TxInput): (r: Response<Transaction>)
    ensures !HasRequiredFields(input) <==> r.BadRequest?
    ensures HasRequiredFields(input) && !PassesSchema(input) <==> r.ServerError?
    ensures r.Ok? ==>
      && r.value.id == id && r.value.userId == user
      && r.value.amount == input.amount.value
      && TxTypeName(r.value.txType) == input.txType.value
      && r.value.category == input.category.value
      && r.value.date == input.date.value
      && r.value.note == StrOr(input.note, "")
      && r.value.isRecurring == input.isRecurring
      && (r.value.recurringFrequency.Some? <==> input.isRecurring)
      && (input.isRecurring && (input.recurringFrequency.None? || input.recurringFrequency.value == "") ==>
            r.value.recurringFrequency == Some(Monthly))
      && (input.isRecurring && input.recurringFrequency.Some? && input.recurringFrequency.value != "" ==>
            r.value.recurringFrequency == ParseFrequency(input.recurringFrequency.value))
    ensures r.Ok? ==> ValidTransaction(r.value)
  {
    if !HasRequiredFields(input) then
      BadRequest("Required fields are missing")
    else if !PassesSchema(input) then
      ServerError("Server Error")
    else
      var freq := match FrequencyName(input)
        case None => None
        case Some(name) => ParseFrequency(name);
      Ok(Transaction(id, user, input.amount.value, ParseTxType(input.txType.value).value,
                     input.category.value, input.date.value, StrOr(input.note, ""),
                     input.isRecurring, freq))
  }

  /** The query of getTransactions, as received. A missing (or empty) type, category
      or date bound is None, and a date bound that does not parse is not a
      ValidInstant. A missing page or limit is None; otherwise it is the number its
      text denotes, so an empty `?page=` or `?limit=` is Some(0). */
  datatype TxQuery = TxQuery(
    txType: Option<string>,
    category: Option<string>,
    startDate: Option<Instant>,
    endDate: Option<Instant>,
    page: Option<int>,
    limit: Option<int>,
    sort: Option<string>)

  /** The Mongo filter built from a query: a type only for "income" or "expense",
      a category only when non-empty, and optional inclusive date bounds. */
  datatype TxFilter = TxFilter(
    userId: UserId,
    txType: Option<TxType>,
    category: Option<string>,
    from: Option<Instant>,
    to: Option<Instant>)

  function FilterOf(user: UserId, q: TxQuery): (f: TxFilter)
    ensures f.userId == user
    ensures f.txType.Some? <==> q.txType.Some? && (q.txType.value == "income" || q.txType.value == "expense")
    ensures f.txType.Some? ==> TxTypeName(f.txType.value) == q.txType.value
    ensures f.category.Some? <==> q.category.Some? && q.category.value != ""
    ensures f.category.Some? ==> f.category == q.category
    ensures f.from == q.startDate && f.to == q.endDate
  {
    TxFilter(
      user,
      if q.txType.Some? then ParseTxType(q.txType.value) else None,
      if q.category.Some? && q.category.value != "" then q.category else None,
      q.startDate,
      q.endDate)
  }

  /** Whether a stored transaction satisfies the filter; dates compare as instants. */
  function MatchesFilter(f: TxFilter): Transaction -> bool {
    (t: Transaction) =>
      && t.userId == f.userId
      && (f.txType.None? || t.txType == f.txType.value)
      && (f.category.None? || t.category == f.category.value)
      && (f.from.None? || EpochMs(f.from.value) <= EpochMs(t.date))
      && (f.to.None? || EpochMs(t.date) <= EpochMs(f.to.value))
  }

  function DateMs(t: Transaction): int { EpochMs(t.date) }

  function NegDateMs(t: Transaction): int { -EpochMs(t.date) }

  predicate OlderFirst(a: Transaction, b: Transaction) { EpochMs(a.date) <= EpochMs(b.date) }

  predicate NewerFirst(a: Transaction, b: Transaction) { EpochMs(a.date) >= EpochMs(b.date) }

  /** `sort === "asc" ? { date: 1 } : { date: -1 }`: every other value sorts newest first. */
  function SortedMatches(txs: seq<Transaction>, f: TxFilter, sort: Option<string>): (r: seq<Transaction>)
    ensures multiset(r) == multiset(Filter(txs, MatchesFilter(f)))
    ensures sort == Some("asc") ==> forall i, j :: 0 <= i < j < |r| ==> EpochMs(r[i].date) <= EpochMs(r[j].date)
    ensures sort != Some("asc") ==> forall i, j :: 0 <= i < j < |r| ==> EpochMs(r[i].date) >= EpochMs(r[j].date)
  {
    var found := Filter(txs, MatchesFilter(f));
    if sort == Some("asc") then
      IntKeyOrderIsTotal(DateMs, OlderFirst);
      SortBy(found, OlderFirst)
    else
      IntKeyOrderIsTotal(NegDateMs, NewerFirst);
      SortBy(found, NewerFirst)
  }

  /** The response of getTransactions. totalPages is None where JavaScript computes
      Infinity (a limit of 0), which JSON sends as null. */
  datatype TxPage = TxPage(data: seq<Transaction>, total: int, page: int, totalPages: Option<int>)

  /** `Math.ceil(total / limit)` for a non-zero limit. */
  function PageCount(total: nat, limit: int): (r: int)
    requires limit != 0
    ensures limit > 0 ==> limit * (r - 1) < total <= limit * r
    ensures limit < 0 ==> r == -(total / -limit)
  {
    if limit > 0 then CeilDiv(total, limit) else -(total / -limit)
  }

  /** `.limit(n)`: 0 is no limit, a negative n returns at most -n documents. */
  function LimitTo<T>(s: seq<T>, n: int): (r: seq<T>)
    ensures n == 0 ==> r == s
    ensures n != 0 ==> r == Take(s, if n > 0 then n else -n)
  {
    if n == 0 then s else Take(s, if n > 0 then n else -n)
  }

  /** `(Number(page) - 1) * Number(limit)` with page 1 and limit 10 by default. */
  function SkipOf(q: TxQuery): int {
    (q.page.GetOr(1) - 1) * q.limit.GetOr(10)
  }

  /** Whether a given date bound is an Invalid Date, which Mongoose fails to cast
      when the query runs. */
  predicate HasInvalidDate(q: TxQuery) {
    (q.startDate.Some? && !ValidInstant(q.startDate.value))
    || (q.endDate.Some? && !ValidInstant(q.endDate.value))
  }

  /** getTransactions: page defaults to 1 and limit to 10; a page skips
      (page - 1) * limit matches; a negative skip, refused by the database, and an
      Invalid Date bound, refused by the query cast, are the controller's 500;
      total counts every match and totalPages is `Math.ceil(total / limit)`. */
  function ListTransactions(txs: seq<Transaction>, user: UserId, q: TxQuery): (r: Response<TxPage>)
    ensures r.Ok? || r.ServerError?
    ensures var page := q.page.GetOr(1); var limit := q.limit.GetOr(10);
      && (SkipOf(q) == (page - 1) * limit)
      && (SkipOf(q) < 0 || HasInvalidDate(q) <==> r.ServerError?)
      && (r.Ok? ==>
        && r.value.total == |Filter(txs, MatchesFilter(FilterOf(user, q)))|
        && r.value.page == page
        && r.value.data == LimitTo(Drop(SortedMatches(txs, FilterOf(user, q), q.sort), SkipOf(q)), limit)
        && (limit == 0 <==> r.value.totalPages.None?)
        && (limit > 0 ==> r.value.totalPages == Some(CeilDiv(r.value.total, limit)))
        && (limit < 0 ==> r.value.totalPages == Some(PageCount(r.value.total, limit))))
  {
    var page := q.page.GetOr(1);
    var limit := q.limit.GetOr(10);
    var skip := SkipOf(q);
    if skip < 0 || HasInvalidDate(q) then ServerError("Server Error")
    else
      var f := FilterOf(user, q);
      var total := |Filter(txs, MatchesFilter(f))|;
      Ok(TxPage(
        LimitTo(Drop(SortedMatches(txs, f, q.sort), skip), limit),
        total,
        page,
        if limit == 0 then None else Some(PageCount(total, limit))))
  }

  /** A page is a run of the sorted matches. */
  lemma PageOfSorted<T>(s: seq<T>, skip: int, limit: int)
    ensures forall x :: x in LimitTo(Drop(s, skip), limit) ==> x in s
    ensures limit > 0 ==> |LimitTo(Drop(s, skip), limit)| <= limit
  {
    var d := Drop(s, skip);
    assert forall x :: x in d ==> x in s;
    assert LimitTo(d, limit) <= d;
  }

  /** A page holds at most `limit` transactions, each a match of the filter, and the
      pages of a positive limit cover the total. */
  lemma PageSpec(txs: seq<Transaction>, user: UserId, q: TxQuery)
    requires ListTransactions(txs, user, q).Ok?
    ensures var r := ListTransactions(txs, user, q).value; var limit := q.limit.GetOr(10);
      && (limit > 0 ==> |r.data| <= limit)
      && (forall t :: t in r.data ==> t in txs && MatchesFilter(FilterOf(user, q))(t))
      && (limit > 0 ==> limit * r.totalPages.value >= r.total)
  {
    var r := ListTransactions(txs, user, q).value;
    var limit := q.limit.GetOr(10);
    var found := Filter(txs, MatchesFilter(FilterOf(user, q)));
    var sorted := SortedMatches(txs, FilterOf(user, q), q.sort);
    SameElements(sorted, found);
    PageOfSorted(sorted, SkipOf(q), limit);
    if limit > 0 {
      var n := CeilDiv(r.total, limit);
      assert r.totalPages == Some(n);
      assert limit * n >= r.total;
    }
  }

  /** The changes of an update request, applied as given: the schema's validators
      do not run on `findOneAndUpdate`, and the body may set any schema path,
      `userId` included. */
  datatype TxPatch = TxPatch(
    userId: Option<UserId>,
    amount: Option<int>,
    txType: Option<TxType>,
    category: Option<string>,
    date: Option<Instant>,
    note: Option<string>,
    isRecurring: Option<bool>,
    recurringFrequency: Option<Option<Frequency>>)

  function ApplyPatch(t: Transaction, p: TxPatch): (r: Transaction)
    ensures r.id == t.id && r.userId == p.userId.GetOr(t.userId)
    ensures r.amount == p.amount.GetOr(t.amount) && r.txType == p.txType.GetOr(t.txType)
    ensures r.category == p.category.GetOr(t.category) && r.date == p.date.GetOr(t.date)
    ensures r.note == p.note.GetOr(t.note) && r.isRecurring == p.isRecurring.GetOr(t.isRecurring)
    ensures r.recurringFrequency == p.recurringFrequency.GetOr(t.recurringFrequency)
  {
    t.(userId := p.userId.GetOr(t.userId),
       amount := p.amount.GetOr(t.amount),
       txType := p.txType.GetOr(t.txType),
       category := p.category.GetOr(t.category),
       date := p.date.GetOr(t.date),
       note := p.note.GetOr(t.note),
       isRecurring := p.isRecurring.GetOr(t.isRecurring),
       recurringFrequency := p.recurringFrequency.GetOr(t.recurringFrequency))
  }

  /** Since validators do not run, an update can store what create refuses: a
      negative amount. */
  lemma UpdateSkipsValidation(t: Transaction)
    requires ValidTransaction(t)
    ensures !ValidTransaction(ApplyPatch(t, TxPatch(None, Some(-1), None, None, None, None, None, None)))
  {
  }

  /** A body naming another `userId` hands the transaction to that user: afterwards
      the old owner no longer matches `{ _id: id, userId }` and the new one does. */
  lemma UpdateCanChangeOwner(t: Transaction, other: UserId)
    requires other != t.userId
    ensures var r := ApplyPatch(t, TxPatch(Some(other), None, None, None, None, None, None, None));
      !IsTransaction(t.userId, t.id)(r) && IsTransaction(other, t.id)(r)
  {
  }

  /** `{ _id: id, userId }`. */
  function IsTransaction(user: UserId, id: DocId): Transaction -> bool {
    (t: Transaction) => t.id == id && t.userId == user
  }

  /** The Transaction collection; a counter stands for fresh ObjectIds. */
  class TransactionStore {
    var txs: seq<Transaction>
    var nextId: int

    ghost predicate Valid()
      reads this
    {
      && (forall i :: 0 <= i < |txs| ==> txs[i].id < nextId)
      && (forall i, j :: 0 <= i < j < |txs| ==> txs[i].id != txs[j].id)
    }

    constructor()
      ensures txs == [] && Valid()
    {
      txs := [];
      nextId := 0;
    }

    /** createTransaction: inserts the new transaction when the input is accepted. */
    method Create(user: UserId, input: TxInput) returns (res: Response<Transaction>)
      requires Valid()
      modifies this
      ensures Valid()
      ensures res == NewTransaction(old(nextId), user, input)
      ensures res.Ok? ==> txs == old(txs) + [res.value]
      ensures !res.Ok? ==> txs == old(txs) && nextId == old(nextId)
    {
      res := NewTransaction(nextId, user, input);
      if res.Ok? {
        txs := txs + [res.value];
        nextId := nextId + 1;
      }
    }

    /** getTransactions. */
    function List(user: UserId, q: TxQuery): (r: Response<TxPage>)
      reads this
      ensures r.Ok? ==> forall t :: t in r.value.data ==> t in txs && t.userId == user
    {
      var r := ListTransactions(txs, user, q);
      if r.Ok? then PageSpec(txs, user, q); r else r
    }

    /** updateTransaction: 404 unless the user owns a transaction with that id;
        otherwise that one transaction is patched and returned. */
    method Update(user: UserId, id: DocId, p: TxPatch) returns (res: Response<Transaction>)
      requires Valid()
      modifies this
      ensures Valid()
      ensures nextId == old(nextId)
      ensures FindFirst(old(txs), IsTransaction(user, id)).None? ==> res.NotFound? && txs == old(txs)
      ensures FindFirst(old(txs), IsTransaction(user, id)).Some? ==>
        var i := FindFirst(old(txs), IsTransaction(user, id)).value;
        res == Ok(ApplyPatch(old(txs)[i], p)) && txs == old(txs)[i := res.value]
    {
      var found := FindFirst(txs, IsTransaction(user, id));
      if found.None? {
        return NotFound("Transaction not found");
      }
      var i := found.value;
      var t := ApplyPatch(txs[i], p);
      txs := txs[i := t];
      res := Ok(t);
    }

    /** deleteTransaction: 404 unless the user owns a transaction with that id;
        otherwise exactly that transaction is removed. */
    method Delete(user: UserId, id: DocId) returns (res: Response<string>)
      requires Valid()
      modifies this
      ensures Valid()
      ensures nextId == old(nextId)
      ensures FindFirst(old(txs), IsTransaction(user, id)).None? ==> res.NotFound? && txs == old(txs)
      ensures FindFirst(old(txs), IsTransaction(user, id)).Some? ==>
        res.Ok? && txs == RemoveAt(old(txs), FindFirst(old(txs), IsTransaction(user, id)).value)
      ensures forall t :: t in txs <==> (t in old(txs) && !(t.id == id && t.userId == user))
    {
      var found := FindFirst(txs, IsTransaction(user, id));
      if found.None? {
        return NotFound("Transaction not found");
      }
      var i := found.value;
      forall j | 0 <= j < |txs| && j != i
        ensures !IsTransaction(user, id)(txs[j])
      {
        if j < i {
          assert txs[j].id != txs[i].id;
        } else {
          assert txs[i].id != txs[j].id;
        }
      }
      RemoveOnlyMatch(txs, IsTransaction(user, id), i);
      txs := RemoveAt(txs, i);
      res := Ok("Transaction deleted");
    }
  }
}
