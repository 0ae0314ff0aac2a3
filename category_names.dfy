/** The category names offered by the forms and the category store: the eleven
    defaults followed by the user's own categories, with no name twice
    (frontend/src/store/categorySlice.js, and the `allCategories` merges of
    TransactionForm.jsx and Budgets.jsx). */
module CategoryNames {
  import opened Common
  import opened Records

  const DEFAULT_CATEGORIES: seq<string> := [
    "Salary", "Freelance", "Business", "Food", "Travel", "Rent",
    "Shopping", "Bills", "Entertainment", "Health", "Other"]

  lemma DefaultsDistinct()
    ensures NoDuplicates(DEFAULT_CATEGORIES)
  {
  }

  lemma DefaultsNonEmpty()
    ensures "" !in DEFAULT_CATEGORIES
  {
  }

  /** `[...new Set([...defaults, ...custom])]`: the defaults in their order, then each
      custom name that is new, in first-occurrence order. */
  function MergeNames(custom: seq<string>): (r: seq<string>)
    ensures r == DEFAULT_CATEGORIES + Dedup(Filter(custom, NotIn(DEFAULT_CATEGORIES)))
    ensures DEFAULT_CATEGORIES <= r
    ensures NoDuplicates(r)
    ensures forall x :: x in r <==> x in DEFAULT_CATEGORIES || x in custom
  {
    DefaultsDistinct();
    DedupAfterDistinct(DEFAULT_CATEGORIES, custom);
    Dedup(DEFAULT_CATEGORIES + custom)
  }

  function NameOf(c: Category): string { c.name }

  /** `list.map((cat) => cat.name)`. */
  function NamesOf(cats: seq<Category>): (r: seq<string>)
    ensures |r| == |cats|
    ensures forall i :: 0 <= i < |cats| ==> r[i] == cats[i].name
  {
    seq(|cats|, i requires 0 <= i < |cats| => cats[i].name)
  }

  lemma NamesOfMembers(cats: seq<Category>)
    ensures forall c :: c in cats ==> c.name in NamesOf(cats)
  {
    forall c | c in cats
      ensures c.name in NamesOf(cats)
    {
      var i :| 0 <= i < |cats| && cats[i] == c;
      assert NamesOf(cats)[i] == c.name;
    }
  }

  /** selectMergedCategoryNames: the store may have no category list yet, and then
      the names are exactly the defaults. */
  function MergedCategoryNames(list: Option<seq<Category>>): (r: seq<string>)
    ensures list.None? ==> r == DEFAULT_CATEGORIES
    ensures DEFAULT_CATEGORIES <= r
    ensures NoDuplicates(r)
    ensures list.Some? ==> forall c :: c in list.value ==> c.name in r
  {
    NamesOfMembers(list.GetOr([]));
    assert list.None? ==> DEFAULT_CATEGORIES + Dedup(Filter(NamesOf(list.GetOr([])), NotIn(DEFAULT_CATEGORIES))) == DEFAULT_CATEGORIES + [];
    MergeNames(NamesOf(list.GetOr([])))
  }

  predicate NonEmpty(s: string) { s != "" }

  /** The forms' merge: starting from the defaults, push every non-empty custom name
      that is not already there. */
  method MergeCustomNames(custom: seq<Category>) returns (merged: seq<string>)
    ensures merged == MergeNames(Filter(NamesOf(custom), NonEmpty))
    ensures "" !in merged
  {
    var names := Filter(NamesOf(custom), NonEmpty);
    DefaultsDistinct();
    merged := PushNew(DEFAULT_CATEGORIES, names);
    assert merged == MergeNames(names);
    DefaultsNonEmpty();
    assert "" !in names;
  }

  /** The selector keeps a category with an empty name, which both forms drop. */
  lemma EmptyNameKeptOnlyBySelector(c: Category)
    requires c.name == ""
    ensures "" in MergedCategoryNames(Some([c]))
    ensures "" !in MergeNames(Filter(NamesOf([c]), NonEmpty))
  {
    DefaultsNonEmpty();
  }

  /** The `categories` slice of the store. */
  class CategorySlice {
    var list: seq<Category>
    var loading: bool

    constructor()
      ensures list == [] && !loading
    {
      list := [];
      loading := false;
    }

    /** setCategories: the list is replaced wholesale. */
    method SetCategories(payload: seq<Category>)
      modifies this
      ensures list == payload && loading == old(loading)
    {
      list := payload;
    }

    /** setCategoryLoading: only the flag changes. */
    method SetCategoryLoading(value: bool)
      modifies this
      ensures loading == value && list == old(list)
    {
      loading := value;
    }
  }
}
