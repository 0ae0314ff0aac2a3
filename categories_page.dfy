/** frontend/src/pages/Categories.jsx: the user's categories joined with the
    month's usage statistics, the usage rows of categories the user never created,
    and the signed net shown for each row. */
module CategoriesPage {
  import opened Common
  import opened Records

  /** One entry of the usage statistics as JSON; a missing total is None. */
  datatype UsageEntry = UsageEntry(category: string, totalIncome: Option<int>, totalExpense: Option<int>)

  /** One row of the table. `kind` is the row's `type`, which only the extra rows
      have; `id` is the category's `_id`, which they lack. */
  datatype UsageRow = UsageRow(
    name: string,
    kind: Option<string>,
    color: string,
    totalIncome: int,
    totalExpense: int,
    id: Option<DocId>)

  function UsageOf(c: string): UsageEntry -> bool {
    (u: UsageEntry) => u.category == c
  }

  /** `usageMap.get(name)`: a Map built from `[u.category, u]` pairs keeps the last
      entry of each category. */
  function LastUsage(usage: seq<UsageEntry>, c: string): (r: Option<UsageEntry>)
    ensures r.None? <==> forall i :: 0 <= i < |usage| ==> usage[i].category != c
    ensures r.Some? ==> r.value.category == c
    ensures r.Some? ==> exists i :: 0 <= i < |usage| && usage[i] == r.value &&
                                    forall j :: i < j < |usage| ==> usage[j].category != c
  {
    match FindLast(usage, UsageOf(c))
    case None => None
    case Some(i) => Some(usage[i])
  }

  /** A category with its totals: those of the usage entry of the same name (each
      missing total read as 0), or 0 and 0 when there is none. */
  function MasterRow(usage: seq<UsageEntry>, cat: Category): (r: UsageRow)
    ensures r.name == cat.name && r.color == cat.color && r.id == Some(cat.id) && r.kind.None?
    ensures LastUsage(usage, cat.name).None? ==> r.totalIncome == 0 && r.totalExpense == 0
    ensures LastUsage(usage, cat.name).Some? ==>
      r.totalIncome == LastUsage(usage, cat.name).value.totalIncome.GetOr(0) &&
      r.totalExpense == LastUsage(usage, cat.name).value.totalExpense.GetOr(0)
  {
    var stat := LastUsage(usage, cat.name).GetOr(UsageEntry(cat.name, Some(0), Some(0)));
    UsageRow(cat.name, None, cat.color, stat.totalIncome.GetOr(0), stat.totalExpense.GetOr(0), Some(cat.id))
  }

  /** categoriesWithUsage: one row per category, in the list's order. */
  function WithUsage(cats: seq<Category>, usage: seq<UsageEntry>): (r: seq<UsageRow>)
    ensures |r| == |cats|
    ensures forall i :: 0 <= i < |cats| ==> r[i] == MasterRow(usage, cats[i])
  {
    seq(|cats|, i requires 0 <= i < |cats| => MasterRow(usage, cats[i]))
  }

  /** `!categoriesList.some((c) => c.name === u.category)`. */
  function Unlisted(cats: seq<Category>): UsageEntry -> bool {
    (u: UsageEntry) => forall i :: 0 <= i < |cats| ==> cats[i].name != u.category
  }

  /** A usage entry of no listed category, drawn grey with type "unknown". */
  function ExtraRow(u: UsageEntry): (r: UsageRow)
    ensures r.name == u.category && r.kind == Some("unknown") && r.color == "#64748b" && r.id.None?
    ensures r.totalIncome == u.totalIncome.GetOr(0) && r.totalExpense == u.totalExpense.GetOr(0)
  {
    UsageRow(u.category, Some("unknown"), "#64748b", u.totalIncome.GetOr(0), u.totalExpense.GetOr(0), None)
  }

  function ExtraRows(es: seq<UsageEntry>): (r: seq<UsageRow>)
    ensures |r| == |es|
    ensures forall i :: 0 <= i < |es| ==> r[i] == ExtraRow(es[i])
  {
    seq(|es|, i requires 0 <= i < |es| => ExtraRow(es[i]))
  }

  /** extraFromUsage: the usage entries whose category no listed category is named
      after, in their order. */
  function ExtraFromUsage(cats: seq<Category>, usage: seq<UsageEntry>): seq<UsageRow> {
    ExtraRows(Filter(usage, Unlisted(cats)))
  }

  /** The extra rows are exactly the unlisted usage entries. */
  lemma ExtraFromUsageSpec(cats: seq<Category>, usage: seq<UsageEntry>)
    ensures forall u :: u in usage && (forall i :: 0 <= i < |cats| ==> cats[i].name != u.category) ==>
      ExtraRow(u) in ExtraFromUsage(cats, usage)
    ensures forall r :: r in ExtraFromUsage(cats, usage) ==>
      exists u :: u in usage && r == ExtraRow(u) && forall i :: 0 <= i < |cats| ==> cats[i].name != u.category
  {
    var kept := Filter(usage, Unlisted(cats));
    var rows := ExtraFromUsage(cats, usage);
    forall u | u in usage && (forall i :: 0 <= i < |cats| ==> cats[i].name != u.category)
      ensures ExtraRow(u) in rows
    {
      assert Unlisted(cats)(u);
      var k :| 0 <= k < |kept| && kept[k] == u;
      assert rows[k] == ExtraRow(u);
    }
    forall r | r in rows
      ensures exists u :: u in usage && r == ExtraRow(u) && forall i :: 0 <= i < |cats| ==> cats[i].name != u.category
    {
      var k :| 0 <= k < |rows| && rows[k] == r;
      assert kept[k] in kept;
      assert Unlisted(cats)(kept[k]);
    }
  }

  /** finalCategoryUsage: the listed categories, then the extras. */
  function FinalUsage(cats: seq<Category>, usage: seq<UsageEntry>): (r: seq<UsageRow>)
    ensures r == WithUsage(cats, usage) + ExtraFromUsage(cats, usage)
    ensures |r| >= |cats|
  {
    WithUsage(cats, usage) + ExtraFromUsage(cats, usage)
  }

  /** Every category that has usage appears in the final table, and so does every
      listed category, first and in order. */
  lemma {:induction false} EveryCategoryShown(cats: seq<Category>, usage: seq<UsageEntry>)
    ensures forall u :: u in usage ==> exists r :: r in FinalUsage(cats, usage) && r.name == u.category
    ensures forall i :: 0 <= i < |cats| ==> FinalUsage(cats, usage)[i].name == cats[i].name
  {
    forall u | u in usage
      ensures exists r :: r in FinalUsage(cats, usage) && r.name == u.category
    {
      UsageShown(cats, usage, u);
    }
  }

  /** One usage entry: its category is a listed row or an extra row. */
  lemma UsageShown(cats: seq<Category>, usage: seq<UsageEntry>, u: UsageEntry)
    requires u in usage
    ensures exists r :: r in FinalUsage(cats, usage) && r.name == u.category
  {
    var f := FinalUsage(cats, usage);
    var w := WithUsage(cats, usage);
    if i :| 0 <= i < |cats| && cats[i].name == u.category {
      assert f[i] == w[i];
      assert f[i] in f;
    } else {
      ExtraFromUsageSpec(cats, usage);
      assert ExtraRow(u) in f;
    }
  }

  /** A row's net as displayed: its sign and its magnitude. */
  datatype NetDisplay = NetDisplay(sign: char, magnitude: int)

  /** `income - expense`, shown as "+" or "-" followed by `Math.abs(net)`. */
  function ShowNet(r: UsageRow): (d: NetDisplay)
    ensures d.sign == '+' <==> r.totalIncome >= r.totalExpense
    ensures d.sign == '+' || d.sign == '-'
    ensures d.magnitude >= 0
  {
    var net := r.totalIncome - r.totalExpense;
    NetDisplay(if net >= 0 then '+' else '-', if net >= 0 then net else -net)
  }

  /** The value a displayed net stands for. */
  function NetValue(d: NetDisplay): int {
    if d.sign == '+' then d.magnitude else -d.magnitude
  }

  /** Reading the sign and magnitude back gives the net; a zero net is shown "+". */
  lemma ShowNetRoundTrip(r: UsageRow)
    ensures NetValue(ShowNet(r)) == r.totalIncome - r.totalExpense
    ensures r.totalIncome == r.totalExpense ==> ShowNet(r) == NetDisplay('+', 0)
  {
  }
}
