/** The `$group` stage of the aggregation pipelines: one entry per distinct key,
    with the sum of a numeric field over the rows carrying that key. The entries
    come in first-occurrence order of their keys (the store leaves the order
    open; every pipeline that exposes it sorts afterwards or looks keys up). */
module Grouping {
  import opened Common

  function KeysOf<T, K>(rows: seq<T>, key: T -> K): (r: seq<K>)
    ensures |r| == |rows|
    ensures forall i :: 0 <= i < |rows| ==> r[i] == key(rows[i])
  {
    if rows == [] then [] else KeysOf(rows[..|rows| - 1], key) + [key(rows[|rows| - 1])]
  }

  lemma KeysOfSnoc<T, K>(rows: seq<T>, x: T, key: T -> K)
    ensures KeysOf(rows + [x], key) == KeysOf(rows, key) + [key(x)]
  {
    assert (rows + [x])[..|rows|] == rows;
  }

  function Id<K>(k: K): K { k }

  /** The keys of a sequence of keys under the identity are the sequence itself. */
  lemma KeysOfId<K>(ks: seq<K>)
    ensures KeysOf(ks, Id) == ks
  {
  }

  /** `map.get(k) || 0` on a map of sums. */
  function Lookup<K>(m: map<K, int>, k: K): int {
    if k in m then m[k] else 0
  }

  /** One `map.set(k, (map.get(k) || 0) + amt(x))` step keeps the map equal to the
      per-key sums of the rows seen so far. */
  lemma SumStep<T, K>(m: map<K, int>, rows: seq<T>, x: T, key: T -> K, amt: T -> int)
    requires forall k :: Lookup(m, k) == KeySum(rows, key, amt, k)
    ensures forall k :: Lookup(m[key(x) := Lookup(m, key(x)) + amt(x)], k) == KeySum(rows + [x], key, amt, k)
  {
    forall k
      ensures Lookup(m[key(x) := Lookup(m, key(x)) + amt(x)], k) == KeySum(rows + [x], key, amt, k)
    {
      KeySumSnoc(rows, x, key, amt, k);
    }
  }

  /** A `Map`'s keys in insertion order are the distinct keys in first-occurrence
      order: a new key goes to the end, a known one stays where it is. */
  lemma OrderStep<T, K(!new)>(order: seq<K>, m: map<K, int>, rows: seq<T>, x: T, key: T -> K)
    requires order == GroupKeys(rows, key)
    requires forall k :: k in m <==> k in order
    ensures (if key(x) in m then order else order + [key(x)]) == GroupKeys(rows + [x], key)
  {
    KeysOfSnoc(rows, x, key);
    DedupSnoc(KeysOf(rows, key), key(x));
  }

  lemma KeptPrefix<T(!new)>(items: seq<T>, i: nat, keep: T -> bool)
    requires i < |items|
    ensures Filter(items[..i + 1], keep) == Filter(items[..i], keep) + (if keep(items[i]) then [items[i]] else [])
  {
    assert items[..i + 1] == items[..i] + [items[i]];
    FilterSnoc(items[..i], items[i], keep);
  }

  /** The state of an accumulating `forEach` after the rows `seen`: the `Map`'s keys
      in insertion order are their distinct keys, each holding its sum. */
  ghost predicate Accumulated<T, K(!new)>(m: map<K, int>, order: seq<K>, seen: seq<T>, key: T -> K, amt: T -> int) {
    && order == GroupKeys(seen, key)
    && (forall k :: k in m <==> k in order)
    && (forall k :: Lookup(m, k) == KeySum(seen, key, amt, k))
  }

  /** One kept row: the map and its insertion order after the `set` are those of the
      rows seen so far plus that row. */
  lemma AccumulateStep<T, K(!new)>(m: map<K, int>, order: seq<K>, seen: seq<T>, x: T, key: T -> K, amt: T -> int)
    requires Accumulated(m, order, seen, key, amt)
    ensures Accumulated(m[key(x) := Lookup(m, key(x)) + amt(x)],
                        if key(x) in m then order else order + [key(x)], seen + [x], key, amt)
  {
    OrderStep(order, m, seen, x, key);
    SumStep(m, seen, x, key, amt);
  }

  /** A `forEach` that skips the rows failing `keep` and does
      `map.set(k, (map.get(k) || 0) + amt(x))` for the others: the map's keys in
      insertion order are the distinct keys of the kept rows, each holding its sum. */
  method AccumulateKept<T(!new), K(==,!new)>(items: seq<T>, keep: T -> bool, key: T -> K, amt: T -> int)
    returns (m: map<K, int>, order: seq<K>)
    ensures order == GroupKeys(Filter(items, keep), key)
    ensures forall k :: k in m <==> k in order
    ensures forall k :: Lookup(m, k) == KeySum(Filter(items, keep), key, amt, k)
  {
    m := map[];
    order := [];
    ghost var seen: seq<T> := [];
    for i := 0 to |items|
      invariant seen == Filter(items[..i], keep)
      invariant Accumulated(m, order, seen, key, amt)
    {
      var x := items[i];
      KeptPrefix(items, i, keep);
      if keep(x) {
        AccumulateStep(m, order, seen, x, key, amt);
        if key(x) !in m {
          order := order + [key(x)];
        }
        m := m[key(x) := Lookup(m, key(x)) + amt(x)];
        seen := seen + [x];
      } else {
        assert seen + [] == seen;
      }
    }
    assert items[..|items|] == items;
  }

  /** A key occurs among the keys of the rows exactly when some row carries it. */
  lemma KeyOccurs<T(!new), K>(rows: seq<T>, key: T -> K, k: K)
    ensures k in KeysOf(rows, key) <==> exists x :: x in rows && key(x) == k
  {
    if k in KeysOf(rows, key) {
      var i :| 0 <= i < |rows| && KeysOf(rows, key)[i] == k;
      assert rows[i] in rows;
    }
    if exists x :: x in rows && key(x) == k {
      var x :| x in rows && key(x) == k;
      var i :| 0 <= i < |rows| && rows[i] == x;
      assert KeysOf(rows, key)[i] == k;
    }
  }

  /** The distinct keys of the rows: the `_id`s a `$group` stage produces. */
  function GroupKeys<T, K(==,!new)>(rows: seq<T>, key: T -> K): (ks: seq<K>)
    ensures NoDuplicates(ks)
    ensures forall k :: k in ks <==> k in KeysOf(rows, key)
  {
    Dedup(KeysOf(rows, key))
  }

  /** `$sum` of amt over the rows whose key is k. */
  function KeySum<T, K(==)>(rows: seq<T>, key: T -> K, amt: T -> int, k: K): int {
    if rows == [] then 0
    else KeySum(rows[..|rows| - 1], key, amt, k) + (if key(rows[|rows| - 1]) == k then amt(rows[|rows| - 1]) else 0)
  }

  lemma KeySumSnoc<T, K>(rows: seq<T>, x: T, key: T -> K, amt: T -> int, k: K)
    ensures KeySum(rows + [x], key, amt, k) == KeySum(rows, key, amt, k) + (if key(x) == k then amt(x) else 0)
  {
    assert (rows + [x])[..|rows + [x]| - 1] == rows;
  }

  /** A key no row carries sums to 0. */
  lemma {:induction false} KeySumAbsent<T, K>(rows: seq<T>, key: T -> K, amt: T -> int, k: K)
    requires forall i :: 0 <= i < |rows| ==> key(rows[i]) != k
    ensures KeySum(rows, key, amt, k) == 0
  {
    if rows != [] {
      KeySumAbsent(rows[..|rows| - 1], key, amt, k);
    }
  }

  /** The rows carrying key k. */
  function RowsWithKey<T(!new), K(==)>(rows: seq<T>, key: T -> K, k: K): seq<T> {
    Filter(rows, (x: T) => key(x) == k)
  }

  /** KeySum is the sum over exactly the rows carrying the key. */
  lemma {:induction false} KeySumIsFilteredSum<T(!new), K>(rows: seq<T>, key: T -> K, amt: T -> int, k: K)
    ensures KeySum(rows, key, amt, k) == SumOf(RowsWithKey(rows, key, k), amt)
  {
    if rows != [] {
      var init := rows[..|rows| - 1];
      var x := rows[|rows| - 1];
      KeySumIsFilteredSum(init, key, amt, k);
      if key(x) == k {
        SumOfSnoc(RowsWithKey(init, key, k), x, amt);
      } else {
        assert RowsWithKey(rows, key, k) == RowsWithKey(init, key, k) + [];
        assert RowsWithKey(init, key, k) + [] == RowsWithKey(init, key, k);
      }
    }
  }

  /** A key outside the groups sums to 0. */
  lemma KeySumOutsideGroups<T, K(!new)>(rows: seq<T>, key: T -> K, amt: T -> int, k: K)
    requires k !in GroupKeys(rows, key)
    ensures KeySum(rows, key, amt, k) == 0
  {
    assert forall i :: 0 <= i < |rows| ==> KeysOf(rows, key)[i] == key(rows[i]);
    KeySumAbsent(rows, key, amt, k);
  }

  /** The per-key sums of a list of keys, added up. */
  function SumOverKeys<T, K(==)>(ks: seq<K>, rows: seq<T>, key: T -> K, amt: T -> int): int {
    if ks == [] then 0
    else SumOverKeys(ks[..|ks| - 1], rows, key, amt) + KeySum(rows, key, amt, ks[|ks| - 1])
  }

  lemma {:induction false} SumOverKeysAddRow<T, K>(ks: seq<K>, rows: seq<T>, x: T, key: T -> K, amt: T -> int)
    requires NoDuplicates(ks)
    ensures SumOverKeys(ks, rows + [x], key, amt)
         == SumOverKeys(ks, rows, key, amt) + (if key(x) in ks then amt(x) else 0)
  {
    if ks != [] {
      var init := ks[..|ks| - 1];
      assert ks == init + [ks[|ks| - 1]];
      SumOverKeysAddRow(init, rows, x, key, amt);
      KeySumSnoc(rows, x, key, amt, ks[|ks| - 1]);
    }
  }

  /** The group totals account for every row exactly once: summed over the groups
      they give the sum over all rows. */
  lemma {:induction false} GroupTotalsAddUp<T, K(!new)>(rows: seq<T>, key: T -> K, amt: T -> int)
    ensures SumOverKeys(GroupKeys(rows, key), rows, key, amt) == SumOf(rows, amt)
  {
    if rows != [] {
      var init := rows[..|rows| - 1];
      assert rows == init + [rows[|rows| - 1]];
      GroupTotalsAddUp(init, key, amt);
      GroupTotalsSnoc(init, rows[|rows| - 1], key, amt);
    }
  }

  /** The inductive step of GroupTotalsAddUp: one more row adds its amount to the
      total over the groups. */
  lemma GroupTotalsSnoc<T, K(!new)>(init: seq<T>, x: T, key: T -> K, amt: T -> int)
    requires SumOverKeys(GroupKeys(init, key), init, key, amt) == SumOf(init, amt)
    ensures SumOverKeys(GroupKeys(init + [x], key), init + [x], key, amt) == SumOf(init + [x], amt)
  {
    var d := GroupKeys(init, key);
    GroupKeysSnoc(init, x, key);
    SumOverKeysAddRow(d, init, x, key, amt);
    SumOfSnoc(init, x, amt);
    if key(x) !in d {
      SumOverKeysSnoc(d, key(x), init + [x], key, amt);
      forall i | 0 <= i < |init|
        ensures key(init[i]) != key(x)
      {
        assert KeysOf(init, key)[i] == key(init[i]);
      }
      KeySumAbsent(init, key, amt, key(x));
      KeySumSnoc(init, x, key, amt, key(x));
    }
  }

  /** A row with a new key opens a new group at the end; one with a known key does not. */
  lemma GroupKeysSnoc<T, K(!new)>(rows: seq<T>, x: T, key: T -> K)
    ensures GroupKeys(rows + [x], key)
         == if key(x) in GroupKeys(rows, key) then GroupKeys(rows, key) else GroupKeys(rows, key) + [key(x)]
  {
    KeysOfSnoc(rows, x, key);
    DedupSnoc(KeysOf(rows, key), key(x));
  }

  lemma SumOverKeysSnoc<T, K>(ks: seq<K>, k: K, rows: seq<T>, key: T -> K, amt: T -> int)
    ensures SumOverKeys(ks + [k], rows, key, amt) == SumOverKeys(ks, rows, key, amt) + KeySum(rows, key, amt, k)
  {
    assert (ks + [k])[..|ks|] == ks;
  }

  /** One `$group` output document: `{ _id: key, total: { $sum: amt } }`. */
  datatype Group<K> = Group(key: K, total: int)

  function TotalsFor<T, K(==)>(ks: seq<K>, rows: seq<T>, key: T -> K, amt: T -> int): (r: seq<Group<K>>)
    ensures |r| == |ks|
    ensures forall i :: 0 <= i < |ks| ==> r[i] == Group(ks[i], KeySum(rows, key, amt, ks[i]))
  {
    if ks == [] then [] else TotalsFor(ks[..|ks| - 1], rows, key, amt) + [Group(ks[|ks| - 1], KeySum(rows, key, amt, ks[|ks| - 1]))]
  }

  function GroupTotal<K>(g: Group<K>): int { g.total }

  function GroupKey<K>(g: Group<K>): K { g.key }

  lemma {:induction false} TotalsForSum<T, K>(ks: seq<K>, rows: seq<T>, key: T -> K, amt: T -> int)
    ensures SumOf(TotalsFor(ks, rows, key, amt), GroupTotal) == SumOverKeys(ks, rows, key, amt)
  {
    if ks != [] {
      var init := ks[..|ks| - 1];
      TotalsForSum(init, rows, key, amt);
      var r := TotalsFor(ks, rows, key, amt);
      assert r[..|r| - 1] == TotalsFor(init, rows, key, amt);
    }
  }

  /** `$group: { _id: key, total: { $sum: amt } }` over the rows. */
  function GroupSum<T, K(==,!new)>(rows: seq<T>, key: T -> K, amt: T -> int): seq<Group<K>> {
    TotalsFor(GroupKeys(rows, key), rows, key, amt)
  }

  /** What a `$group`-by-sum promises: distinct keys, exactly the keys that occur,
      each with the sum of its rows, and group totals that add up to the grand total. */
  lemma GroupSumSpec<T, K(!new)>(rows: seq<T>, key: T -> K, amt: T -> int)
    ensures var gs := GroupSum(rows, key, amt);
      && NoDuplicates(KeysOf(gs, GroupKey))
      && (forall k :: k in KeysOf(gs, GroupKey) <==> k in KeysOf(rows, key))
      && (forall i :: 0 <= i < |gs| ==> gs[i].total == KeySum(rows, key, amt, gs[i].key))
      && SumOf(gs, GroupTotal) == SumOf(rows, amt)
  {
    var ks := GroupKeys(rows, key);
    var gs := GroupSum(rows, key, amt);
    assert KeysOf(gs, GroupKey) == ks;
    TotalsForSum(ks, rows, key, amt);
    GroupTotalsAddUp(rows, key, amt);
  }

  /** One document of the two-stage pivot: a key with its income and expense sums. */
  datatype PivotRow<K> = PivotRow(key: K, totalIncome: int, totalExpense: int)

  function PivotFor<T, K(==)>(ks: seq<K>, rows: seq<T>, key: T -> K, inc: T -> int, exp: T -> int): (r: seq<PivotRow<K>>)
    ensures |r| == |ks|
    ensures forall i :: 0 <= i < |ks| ==>
      r[i] == PivotRow(ks[i], KeySum(rows, key, inc, ks[i]), KeySum(rows, key, exp, ks[i]))
  {
    if ks == [] then []
    else
      var k := ks[|ks| - 1];
      PivotFor(ks[..|ks| - 1], rows, key, inc, exp) + [PivotRow(k, KeySum(rows, key, inc, k), KeySum(rows, key, exp, k))]
  }

  /** Group by (key, type), then regroup by key with `$cond` sums: one row per distinct key. */
  function Pivot<T, K(==,!new)>(rows: seq<T>, key: T -> K, inc: T -> int, exp: T -> int): seq<PivotRow<K>> {
    PivotFor(GroupKeys(rows, key), rows, key, inc, exp)
  }

  function PivotKey<K>(p: PivotRow<K>): K { p.key }

  function PivotIncome<K>(p: PivotRow<K>): int { p.totalIncome }

  function PivotExpense<K>(p: PivotRow<K>): int { p.totalExpense }

  lemma {:induction false} PivotForSum<T, K>(ks: seq<K>, rows: seq<T>, key: T -> K, inc: T -> int, exp: T -> int)
    ensures SumOf(PivotFor(ks, rows, key, inc, exp), PivotIncome) == SumOverKeys(ks, rows, key, inc)
    ensures SumOf(PivotFor(ks, rows, key, inc, exp), PivotExpense) == SumOverKeys(ks, rows, key, exp)
  {
    if ks != [] {
      var init := ks[..|ks| - 1];
      PivotForSum(init, rows, key, inc, exp);
      var r := PivotFor(ks, rows, key, inc, exp);
      assert r[..|r| - 1] == PivotFor(init, rows, key, inc, exp);
    }
  }

  /** The pivot's keys are distinct and exactly those that occur, each row carries
      the income and expense sums of its own key, and the income and expense columns
      add up to the income and expense sums over all rows. */
  lemma PivotSpec<T, K(!new)>(rows: seq<T>, key: T -> K, inc: T -> int, exp: T -> int)
    ensures var ps := Pivot(rows, key, inc, exp);
      && NoDuplicates(KeysOf(ps, PivotKey))
      && (forall k :: k in KeysOf(ps, PivotKey) <==> k in KeysOf(rows, key))
      && (forall p :: p in ps ==>
            p.totalIncome == KeySum(rows, key, inc, p.key) && p.totalExpense == KeySum(rows, key, exp, p.key))
      && SumOf(ps, PivotIncome) == SumOf(rows, inc)
      && SumOf(ps, PivotExpense) == SumOf(rows, exp)
  {
    var ks := GroupKeys(rows, key);
    var ps := Pivot(rows, key, inc, exp);
    assert KeysOf(ps, PivotKey) == ks;
    forall p | p in ps
      ensures p.totalIncome == KeySum(rows, key, inc, p.key) && p.totalExpense == KeySum(rows, key, exp, p.key)
    {
      var i :| 0 <= i < |ps| && ps[i] == p;
    }
    PivotForSum(ks, rows, key, inc, exp);
    GroupTotalsAddUp(rows, key, inc);
    GroupTotalsAddUp(rows, key, exp);
  }

  /** Reordering rows whose keys are distinct leaves their keys distinct. */
  lemma DistinctKeysAfterPermutation<T, K>(a: seq<T>, b: seq<T>, key: T -> K)
    requires multiset(a) == multiset(b)
    requires NoDuplicates(KeysOf(a, key))
    ensures NoDuplicates(KeysOf(b, key))
  {
    forall i, j | 0 <= i < j < |b|
      ensures key(b[i]) != key(b[j])
    {
      var p, q;
      if b[i] == b[j] {
        var lo, hi := b[..j], b[j + 1..];
        assert b == lo + [b[j]] + hi;
        assert b[i] in lo;
        assert multiset(b)[b[i]] >= 2;
        TwoCopies(a, b[i]);
        p, q :| 0 <= p < q < |a| && a[p] == b[i] && a[q] == b[j];
      } else {
        assert b[i] in multiset(a) && b[j] in multiset(a);
        p :| 0 <= p < |a| && a[p] == b[i];
        q :| 0 <= q < |a| && a[q] == b[j];
      }
      assert p != q;
      if p < q {
        assert KeysOf(a, key)[p] != KeysOf(a, key)[q];
      } else {
        assert KeysOf(a, key)[q] != KeysOf(a, key)[p];
      }
    }
  }

  /** Reordering rows keeps the set of their keys. */
  lemma KeysAfterPermutation<T, K>(a: seq<T>, b: seq<T>, key: T -> K)
    requires multiset(a) == multiset(b)
    ensures forall k :: k in KeysOf(a, key) <==> k in KeysOf(b, key)
  {
    forall k
      ensures k in KeysOf(a, key) <==> k in KeysOf(b, key)
    {
      if k in KeysOf(a, key) {
        var i :| 0 <= i < |a| && KeysOf(a, key)[i] == k;
        assert a[i] in multiset(b);
        var j :| 0 <= j < |b| && b[j] == a[i];
        assert KeysOf(b, key)[j] == k;
      }
      if k in KeysOf(b, key) {
        var j :| 0 <= j < |b| && KeysOf(b, key)[j] == k;
        assert b[j] in multiset(a);
        var i :| 0 <= i < |a| && a[i] == b[j];
        assert KeysOf(a, key)[i] == k;
      }
    }
  }
}
