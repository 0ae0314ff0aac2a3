/** frontend/src/pages/Transactions.jsx: the filter bar, the query sent to the
    server, the client-side search and sort of what came back, and the local
    delete (`Charts.WithoutId`). */
module TransactionsPage {
  import opened Common
  import opened Sorting
  import opened Charts

  /** The filter bar; every field is the text of its input. */
  datatype Filters = Filters(
    search: string,
    txType: string,
    category: string,
    startDate: string,
    endDate: string,
    sort: string)

  /** The filters the page starts with and handleClearFilters restores. */
  function ClearedFilters(): (f: Filters)
    ensures f.search == "" && f.txType == "" && f.category == ""
    ensures f.startDate == "" && f.endDate == ""
    ensures f.sort == "desc"
  {
    Filters("", "", "", "", "", "desc")
  }

  /** The parameters of getTransactionsApi; a parameter left off is None. */
  datatype Query = Query(
    limit: int,
    txType: Option<string>,
    category: Option<string>,
    startDate: Option<string>,
    endDate: Option<string>,
    sort: Option<string>)

  /** fetchTransactions: the query starts as `{ limit: 500 }` and gets each non-empty
      filter; the sort goes to the server only when it is a date order. */
  method BuildQuery(f: Filters) returns (q: Query)
    ensures q.limit == 500
    ensures (q.txType.Some? <==> f.txType != "") && (q.txType.Some? ==> q.txType.value == f.txType)
    ensures (q.category.Some? <==> f.category != "") && (q.category.Some? ==> q.category.value == f.category)
    ensures (q.startDate.Some? <==> f.startDate != "") && (q.startDate.Some? ==> q.startDate.value == f.startDate)
    ensures (q.endDate.Some? <==> f.endDate != "") && (q.endDate.Some? ==> q.endDate.value == f.endDate)
    ensures (q.sort.Some? <==> f.sort == "asc" || f.sort == "desc") && (q.sort.Some? ==> q.sort.value == f.sort)
  {
    q := Query(500, None, None, None, None, None);
    if f.txType != "" {
      q := q.(txType := Some(f.txType));
    }
    if f.category != "" {
      q := q.(category := Some(f.category));
    }
    if f.startDate != "" {
      q := q.(startDate := Some(f.startDate));
    }
    if f.endDate != "" {
      q := q.(endDate := Some(f.endDate));
    }
    if f.sort == "asc" || f.sort == "desc" {
      q := q.(sort := Some(f.sort));
    }
  }

  /** `note.includes(q) || cat.includes(q)` on the lower-cased note and category; a
      missing one reads as "". */
  function SearchHit(q: string): TxRow -> bool {
    (t: TxRow) => Contains(ToLower(t.note.GetOr("")), q) || Contains(ToLower(t.category.GetOr("")), q)
  }

  /** The rows the search keeps: all of them for an empty query. */
  function Searched(raw: seq<TxRow>, search: string): (r: seq<TxRow>)
    ensures search == "" ==> r == raw
    ensures forall t :: t in r <==> t in raw && (search == "" || SearchHit(ToLower(search))(t))
  {
    if search == "" then raw else Filter(raw, SearchHit(ToLower(search)))
  }

  function NegAmount(t: TxRow): int { -RowAmount(t) }

  predicate HighFirst(a: TxRow, b: TxRow) { RowAmount(a) >= RowAmount(b) }

  predicate LowFirst(a: TxRow, b: TxRow) { RowAmount(a) <= RowAmount(b) }

  predicate OldestFirst(a: TxRow, b: TxRow) { RowMs(a) <= RowMs(b) }

  /** filteredList: a copy of the fetched rows, searched, then sorted by amount for
      "high" and "low" and by date for "asc" and "desc"; any other sort leaves the
      order as fetched. */
  method FilteredList(raw: seq<TxRow>, search: string, sort: string) returns (list: seq<TxRow>)
    ensures multiset(list) == multiset(Searched(raw, search))
    ensures forall t :: t in list <==> t in raw && (search == "" || SearchHit(ToLower(search))(t))
    ensures sort == "high" ==> forall i, j :: 0 <= i < j < |list| ==> RowAmount(list[i]) >= RowAmount(list[j])
    ensures sort == "low" ==> forall i, j :: 0 <= i < j < |list| ==> RowAmount(list[i]) <= RowAmount(list[j])
    ensures sort == "asc" ==> forall i, j :: 0 <= i < j < |list| ==> RowMs(list[i]) <= RowMs(list[j])
    ensures sort == "desc" ==> forall i, j :: 0 <= i < j < |list| ==> RowMs(list[i]) >= RowMs(list[j])
    ensures sort != "high" && sort != "low" && sort != "asc" && sort != "desc" ==> list == Searched(raw, search)
  {
    list := raw;
    if search != "" {
      var q := ToLower(search);
      list := Filter(list, SearchHit(q));
    }
    ghost var found := list;
    if sort == "high" {
      IntKeyOrderIsTotal(NegAmount, HighFirst);
      list := SortBy(list, HighFirst);
    } else if sort == "low" {
      IntKeyOrderIsTotal(RowAmount, LowFirst);
      list := SortBy(list, LowFirst);
    } else if sort == "asc" {
      IntKeyOrderIsTotal(RowMs, OldestFirst);
      list := SortBy(list, OldestFirst);
    } else if sort == "desc" {
      list := NewestFirst(list);
    }
    SameElements(list, found);
  }
}
