/** Shared vocabulary of the model: optional values, HTTP-style responses,
    the integer forms of JavaScript's rounding helpers, and small sequence
    and string operations that several controllers and pages use. */
module Common {

  /** A value that may be absent (`undefined` / `null` in the source). */
  datatype Option<T> = None | Some(value: T) {
    function GetOr(default: T): T {
      match this
      case Some(v) => v
      case None => default
    }
  }

  /** What a controller sends back: 200 with a body, or one of the error statuses.
      ServerError stands for the 500 that a failed Mongoose validation produces. */
  datatype Response<T> =
    | Ok(value: T)
    | BadRequest(message: string)
    | NotFound(message: string)
    | ServerError(message: string)

  /** `x || fallback` for a numeric field: a missing value and 0 both give the fallback. */
  function NumOr(x: Option<int>, fallback: int): (r: int)
    ensures x.Some? && x.value != 0 ==> r == x.value
    ensures x.None? || x.value == 0 ==> r == fallback
  {
    if x.Some? && x.value != 0 then x.value else fallback
  }

  /** `s || fallback` for a string field: a missing value and "" both give the fallback. */
  function StrOr(s: Option<string>, fallback: string): (r: string)
    ensures s.Some? && s.value != "" ==> r == s.value
    ensures s.None? || s.value == "" ==> r == fallback
  {
    if s.Some? && s.value != "" then s.value else fallback
  }

  /** JavaScript's Math.round(n / d) for d > 0: the nearest integer, halves rounded up. */
  function RoundDiv(n: int, d: int): (r: int)
    requires d > 0
    ensures 2 * d * r <= 2 * n + d < 2 * d * (r + 1)
  {
    var q := (2 * n + d) / (2 * d);
    assert 2 * d * q <= 2 * n + d < 2 * d * q + 2 * d;
    q
  }

  /** Math.ceil(n / d) for d > 0. */
  function CeilDiv(n: int, d: int): (r: int)
    requires d > 0
    ensures d * (r - 1) < n <= d * r
  {
    var q := (-n) / d;
    assert d * q <= -n < d * q + d;
    -q
  }

  function Max(a: int, b: int): int { if a >= b then a else b }

  function Min(a: int, b: int): int { if a <= b then a else b }

  /** `s.slice(0, n)`. */
  function Take<T>(s: seq<T>, n: nat): (r: seq<T>)
    ensures |r| == Min(n, |s|)
    ensures r <= s
  {
    if n >= |s| then s else s[..n]
  }

  /** `s.slice(n)`: what is left after skipping n elements. */
  function Drop<T>(s: seq<T>, n: int): (r: seq<T>)
    ensures n <= 0 ==> r == s
    ensures 0 <= n <= |s| ==> r == s[n..]
    ensures n >= |s| ==> r == []
  {
    if n <= 0 then s else if n >= |s| then [] else s[n..]
  }

  /** The position of the first element satisfying p (a `findOne` on a filter). */
  function FindFirst<T>(s: seq<T>, p: T -> bool): (r: Option<nat>)
    ensures r.Some? ==> r.value < |s| && p(s[r.value])
    ensures r.Some? ==> forall j :: 0 <= j < r.value ==> !p(s[j])
    ensures r.None? ==> forall j :: 0 <= j < |s| ==> !p(s[j])
  {
    if s == [] then None
    else if p(s[0]) then Some(0)
    else
      match FindFirst(s[1..], p)
      case None => None
      case Some(j) => Some(j + 1)
  }

  lemma {:induction false} FindFirstSnoc<T>(s: seq<T>, x: T, p: T -> bool)
    ensures FindFirst(s + [x], p) ==
      if FindFirst(s, p).Some? then FindFirst(s, p) else if p(x) then Some(|s|) else None
  {
    if s != [] {
      assert (s + [x])[0] == s[0];
      assert (s + [x])[1..] == s[1..] + [x];
      FindFirstSnoc(s[1..], x, p);
    }
  }

  /** The position of the last element satisfying p: what a `Map` filled by
      repeated `set` calls keeps for a key. */
  function FindLast<T>(s: seq<T>, p: T -> bool): (r: Option<nat>)
    ensures r.Some? ==> r.value < |s| && p(s[r.value])
    ensures r.Some? ==> forall j :: r.value < j < |s| ==> !p(s[j])
    ensures r.None? ==> forall j :: 0 <= j < |s| ==> !p(s[j])
  {
    if s == [] then None
    else if p(s[|s| - 1]) then Some(|s| - 1)
    else FindLast(s[..|s| - 1], p)
  }

  lemma FindLastSnoc<T>(s: seq<T>, x: T, p: T -> bool)
    ensures FindLast(s + [x], p) == if p(x) then Some(|s|) else FindLast(s, p)
  {
    assert (s + [x])[..|s + [x]| - 1] == s;
  }

  /** s without its i-th element. */
  function RemoveAt<T>(s: seq<T>, i: nat): (r: seq<T>)
    requires i < |s|
    ensures |r| == |s| - 1
    ensures forall k :: 0 <= k < |r| ==> r[k] == s[if k < i then k else k + 1]
  {
    s[..i] + s[i + 1..]
  }

  /** Removing the only element that satisfies p removes exactly the elements
      satisfying p. */
  lemma RemoveOnlyMatch<T>(s: seq<T>, p: T -> bool, i: nat)
    requires i < |s| && p(s[i])
    requires forall j :: 0 <= j < |s| && j != i ==> !p(s[j])
    ensures forall x :: x in RemoveAt(s, i) <==> (x in s && !p(x))
  {
    var r := RemoveAt(s, i);
    forall x | x in s
      ensures x in r <==> !p(x)
    {
      var k :| 0 <= k < |s| && s[k] == x;
      if k < i {
        assert r[k] == x;
      } else if k > i {
        assert r[k - 1] == x;
      }
    }
    forall x | x in r
      ensures x in s
    {
      var k :| 0 <= k < |r| && r[k] == x;
      assert r[k] == s[if k < i then k else k + 1];
    }
  }

  /** `Array.prototype.filter`: the elements satisfying p, in their order. */
  function Filter<T(!new)>(s: seq<T>, p: T -> bool): (r: seq<T>)
    ensures |r| <= |s|
    ensures forall x :: x in r <==> x in s && p(x)
    ensures multiset(r) <= multiset(s)
    ensures (forall i :: 0 <= i < |s| ==> p(s[i])) ==> r == s
  {
    if s == [] then []
    else
      var init := s[..|s| - 1];
      var x := s[|s| - 1];
      assert s == init + [x];
      Filter(init, p) + (if p(x) then [x] else [])
  }

  lemma FilterSnoc<T(!new)>(s: seq<T>, x: T, p: T -> bool)
    ensures Filter(s + [x], p) == Filter(s, p) + (if p(x) then [x] else [])
  {
    assert (s + [x])[..|s + [x]| - 1] == s;
  }

  /** Nothing passes a predicate that holds for no element. */
  lemma {:induction false} FilterNothing<T(!new)>(s: seq<T>, p: T -> bool)
    requires forall i :: 0 <= i < |s| ==> !p(s[i])
    ensures Filter(s, p) == []
  {
    if s != [] {
      FilterNothing(s[..|s| - 1], p);
    }
  }

  /** Replacing an element the filter drops by another it drops changes nothing. */
  lemma {:induction false} FilterIgnoresUpdate<T(!new)>(s: seq<T>, i: int, v: T, p: T -> bool)
    requires 0 <= i < |s| && !p(s[i]) && !p(v)
    ensures Filter(s[i := v], p) == Filter(s, p)
  {
    var init := s[..|s| - 1];
    var x := s[|s| - 1];
    if i == |s| - 1 {
      assert s[i := v] == init + [v];
      FilterSnoc(init, v, p);
      assert Filter(init, p) + [] == Filter(init, p);
    } else {
      assert s[i := v] == init[i := v] + [x];
      FilterIgnoresUpdate(init, i, v, p);
      FilterSnoc(init[i := v], x, p);
    }
  }

  /** Filter keeps the order of what it keeps: an element before another in the
      result was before it in the input. */
  lemma {:induction false} FilterKeepsOrder<T(!new)>(s: seq<T>, p: T -> bool, i: int, j: int)
    requires 0 <= i < j < |Filter(s, p)|
    ensures exists a, b :: 0 <= a < b < |s| && s[a] == Filter(s, p)[i] && s[b] == Filter(s, p)[j]
  {
    var init := s[..|s| - 1];
    var x := s[|s| - 1];
    assert s == init + [x];
    var r := Filter(s, p);
    if j < |Filter(init, p)| {
      FilterKeepsOrder(init, p, i, j);
      var a, b :| 0 <= a < b < |init| && init[a] == Filter(init, p)[i] && init[b] == Filter(init, p)[j];
      assert s[a] == r[i] && s[b] == r[j];
    } else {
      assert r[j] == x;
      var fi := Filter(init, p);
      assert r[i] == fi[i];
      assert fi[i] in init;
      var a :| 0 <= a < |init| && init[a] == fi[i];
      assert s[a] == r[i] && s[|s| - 1] == r[j];
    }
  }

  /** The present results of f over s, in order: a loop that pushes an item for
      some elements and skips the others. */
  function Collect<T, U>(s: seq<T>, f: T -> Option<U>): seq<U> {
    if s == [] then []
    else
      var x := s[|s| - 1];
      Collect(s[..|s| - 1], f) + (if f(x).Some? then [f(x).value] else [])
  }

  lemma CollectSnoc<T, U>(s: seq<T>, x: T, f: T -> Option<U>)
    ensures Collect(s + [x], f) == Collect(s, f) + (if f(x).Some? then [f(x).value] else [])
  {
    assert (s + [x])[..|s + [x]| - 1] == s;
  }

  /** Collecting one element further along a sequence. */
  lemma CollectPrefixStep<T, U>(s: seq<T>, j: nat, f: T -> Option<U>)
    requires j < |s|
    ensures Collect(s[..j + 1], f) == Collect(s[..j], f) + (if f(s[j]).Some? then [f(s[j]).value] else [])
  {
    assert s[..j + 1] == s[..j] + [s[j]];
    CollectSnoc(s[..j], s[j], f);
  }

  /** Collect works element by element, in order. */
  lemma {:induction false} CollectAppend<T, U>(a: seq<T>, b: seq<T>, f: T -> Option<U>)
    ensures Collect(a + b, f) == Collect(a, f) + Collect(b, f)
  {
    if b == [] {
      assert a + b == a;
    } else {
      var b' := b[..|b| - 1];
      var x := b[|b| - 1];
      assert a + b == (a + b') + [x];
      CollectAppend(a, b', f);
      CollectSnoc(a + b', x, f);
    }
  }

  /** Each element contributes at most one item, and an item is collected exactly
      when some element yields it. */
  lemma {:induction false} CollectMembers<T, U>(s: seq<T>, f: T -> Option<U>)
    ensures |Collect(s, f)| <= |s|
    ensures forall y :: y in Collect(s, f) <==> exists x :: x in s && f(x) == Some(y)
  {
    if s != [] {
      var init := s[..|s| - 1];
      var x := s[|s| - 1];
      assert s == init + [x];
      CollectMembers(init, f);
      forall y
        ensures y in Collect(s, f) <==> exists z :: z in s && f(z) == Some(y)
      {
        if exists z :: z in s && f(z) == Some(y) {
          var z :| z in s && f(z) == Some(y);
          if z != x {
            assert z in init;
          }
        }
      }
    }
  }

  /** Multiplying by a non-negative number keeps order. */
  lemma MulMonotone(a: int, x: int, y: int)
    requires a >= 0 && x <= y
    ensures a * x <= a * y
  {
    assert a * y - a * x == a * (y - x);
  }

  predicate NoDuplicates<T(==)>(s: seq<T>) {
    forall i, j :: 0 <= i < j < |s| ==> s[i] != s[j]
  }

  /** The distinct elements of s in first-occurrence order (`[...new Set(s)]`). */
  function Dedup<T(==,!new)>(s: seq<T>): (r: seq<T>)
    ensures NoDuplicates(r)
    ensures forall x :: x in r <==> x in s
    ensures |r| <= |s|
  {
    if s == [] then []
    else
      var d := Dedup(s[..|s| - 1]);
      var x := s[|s| - 1];
      assert s == s[..|s| - 1] + [x];
      if x in d then d else d + [x]
  }

  lemma DedupSnoc<T(!new)>(s: seq<T>, x: T)
    ensures Dedup(s + [x]) == if x in Dedup(s) then Dedup(s) else Dedup(s) + [x]
  {
    assert (s + [x])[..|s + [x]| - 1] == s;
  }

  /** Deduplicating a sequence that has no duplicates leaves it alone. */
  lemma {:induction false} DedupOfDistinct<T(!new)>(s: seq<T>)
    requires NoDuplicates(s)
    ensures Dedup(s) == s
  {
    if s != [] {
      var init := s[..|s| - 1];
      assert s == init + [s[|s| - 1]];
      DedupOfDistinct(init);
      DedupSnoc(init, s[|s| - 1]);
    }
  }

  /** What is deduplicated first keeps its place: Dedup(a) is a prefix of Dedup(a + b). */
  lemma {:induction false} DedupPrefix<T(!new)>(a: seq<T>, b: seq<T>)
    ensures Dedup(a) <= Dedup(a + b)
  {
    if b != [] {
      var b' := b[..|b| - 1];
      assert a + b == (a + b') + [b[|b| - 1]];
      DedupPrefix(a, b');
      DedupSnoc(a + b', b[|b| - 1]);
    } else {
      assert a + b == a;
    }
  }

  /** The elements not in a. */
  function NotIn<T(==)>(a: seq<T>): T -> bool {
    (x: T) => x !in a
  }

  /** Deduplicating a sequence after one that has no duplicates keeps that one
      whole and adds the new elements of the rest in first-occurrence order. */
  lemma {:induction false} DedupAfterDistinct<T(!new)>(a: seq<T>, b: seq<T>)
    requires NoDuplicates(a)
    ensures Dedup(a + b) == a + Dedup(Filter(b, NotIn(a)))
  {
    if b == [] {
      assert a + b == a;
      DedupOfDistinct(a);
      assert Filter(b, NotIn(a)) == [];
      assert a + Dedup(Filter(b, NotIn(a))) == a + [];
    } else {
      var b' := b[..|b| - 1];
      var y := b[|b| - 1];
      assert b == b' + [y];
      assert a + b == (a + b') + [y];
      DedupAfterDistinct(a, b');
      var f := Filter(b', NotIn(a));
      DedupSnoc(a + b', y);
      FilterSnoc(b', y, NotIn(a));
      if y in a {
        assert y in Dedup(a + b');
        assert Dedup(a + b) == Dedup(a + b');
        assert Filter(b, NotIn(a)) == f + [] == f;
      } else {
        DedupSnoc(f, y);
        SnocAfter(a, Dedup(f), y);
        assert Filter(b, NotIn(a)) == f + [y];
      }
    }
  }

  lemma SnocAfter<T>(a: seq<T>, d: seq<T>, y: T)
    requires y !in a
    ensures (if y in a + d then a + d else (a + d) + [y]) == a + (if y in d then d else d + [y])
  {
    assert (a + d) + [y] == a + (d + [y]);
  }

  /** Starting from a list without duplicates, `if (!merged.includes(x)) merged.push(x)`
      for each x in turn. */
  method PushNew<T(==,!new)>(start: seq<T>, xs: seq<T>) returns (merged: seq<T>)
    requires NoDuplicates(start)
    ensures merged == Dedup(start + xs)
  {
    merged := start;
    DedupOfDistinct(start);
    assert start + xs[..0] == start;
    for i := 0 to |xs|
      invariant merged == Dedup(start + xs[..i])
    {
      assert start + xs[..i + 1] == (start + xs[..i]) + [xs[i]];
      DedupSnoc(start + xs[..i], xs[i]);
      if xs[i] !in merged {
        merged := merged + [xs[i]];
      }
    }
    assert xs[..|xs|] == xs;
  }

  /** Sum of f over s, folded left to right like `reduce((acc, x) => acc + f(x), 0)`. */
  function SumOf<T>(s: seq<T>, f: T -> int): int {
    if s == [] then 0 else SumOf(s[..|s| - 1], f) + f(s[|s| - 1])
  }

  lemma SumOfSnoc<T>(s: seq<T>, x: T, f: T -> int)
    ensures SumOf(s + [x], f) == SumOf(s, f) + f(x)
  {
    assert (s + [x])[..|s + [x]| - 1] == s;
  }

  /** Summing one element further along a sequence. */
  lemma SumOfPrefixStep<T>(s: seq<T>, i: nat, f: T -> int)
    requires i < |s|
    ensures SumOf(s[..i + 1], f) == SumOf(s[..i], f) + f(s[i])
  {
    assert s[..i + 1] == s[..i] + [s[i]];
    SumOfSnoc(s[..i], s[i], f);
  }

  lemma {:induction false} SumOfAppend<T>(a: seq<T>, b: seq<T>, f: T -> int)
    ensures SumOf(a + b, f) == SumOf(a, f) + SumOf(b, f)
  {
    if b == [] {
      assert a + b == a;
    } else {
      var b' := b[..|b| - 1];
      assert a + b == (a + b') + [b[|b| - 1]];
      SumOfAppend(a, b', f);
      SumOfSnoc(a + b', b[|b| - 1], f);
    }
  }

  /** Changing one element changes the sum by the difference. */
  lemma {:induction false} SumOfUpdate<T>(s: seq<T>, i: nat, v: T, f: T -> int)
    requires i < |s|
    ensures SumOf(s[i := v], f) == SumOf(s, f) - f(s[i]) + f(v)
  {
    var init := s[..|s| - 1];
    assert s == init + [s[|s| - 1]];
    if i == |s| - 1 {
      assert s[i := v] == init + [v];
      SumOfSnoc(init, v, f);
    } else {
      assert s[i := v] == init[i := v] + [s[|s| - 1]];
      SumOfUpdate(init, i, v, f);
      SumOfSnoc(init[i := v], s[|s| - 1], f);
    }
    SumOfSnoc(init, s[|s| - 1], f);
  }

  lemma {:induction false} SumOfZeros<T>(s: seq<T>, f: T -> int)
    requires forall i :: 0 <= i < |s| ==> f(s[i]) == 0
    ensures SumOf(s, f) == 0
  {
    if s != [] {
      SumOfZeros(s[..|s| - 1], f);
    }
  }

  lemma {:induction false} SumOfNonNegative<T>(s: seq<T>, f: T -> int)
    requires forall i :: 0 <= i < |s| ==> f(s[i]) >= 0
    ensures SumOf(s, f) >= 0
  {
    if s != [] {
      SumOfNonNegative(s[..|s| - 1], f);
    }
  }

  /** Summing f over the elements that pass p is summing g over all of them, where
      g is f on the elements that pass and 0 on the rest. */
  lemma {:induction false} SumOfFilter<T(!new)>(s: seq<T>, p: T -> bool, f: T -> int, g: T -> int)
    requires forall x :: g(x) == if p(x) then f(x) else 0
    ensures SumOf(Filter(s, p), f) == SumOf(s, g)
  {
    if s != [] {
      var init := s[..|s| - 1];
      var x := s[|s| - 1];
      SumOfFilter(init, p, f, g);
      if p(x) {
        SumOfSnoc(Filter(init, p), x, f);
      } else {
        assert Filter(init, p) + [] == Filter(init, p);
      }
    }
  }

  /** An element occurring at least twice occurs at two different positions. */
  lemma {:induction false} TwoCopies<T>(s: seq<T>, x: T)
    requires multiset(s)[x] >= 2
    ensures exists p, q :: 0 <= p < q < |s| && s[p] == x && s[q] == x
  {
    var init := s[..|s| - 1];
    assert s == init + [s[|s| - 1]];
    if s[|s| - 1] == x {
      assert x in multiset(init);
      var p :| 0 <= p < |init| && init[p] == x;
      assert s[p] == x && s[|s| - 1] == x;
    } else {
      TwoCopies(init, x);
      var p, q :| 0 <= p < q < |init| && init[p] == x && init[q] == x;
      assert s[p] == x && s[q] == x;
    }
  }

  /** Reordering does not change a sum. */
  lemma {:induction false} SumOfPermutation<T>(a: seq<T>, b: seq<T>, f: T -> int)
    requires multiset(a) == multiset(b)
    ensures SumOf(a, f) == SumOf(b, f)
    decreases |a|
  {
    if a == [] {
      assert |b| == |multiset(b)| == 0;
    } else {
      var a' := a[..|a| - 1];
      var x := a[|a| - 1];
      assert a == a' + [x];
      assert x in multiset(b);
      var j :| 0 <= j < |b| && b[j] == x;
      var b' := b[..j] + b[j + 1..];
      RemoveOne(b, j);
      assert multiset(a') == multiset(a) - multiset{x};
      SumOfPermutation(a', b', f);
      SumOfSnoc(a', x, f);
      SumOfRemoveOne(b, j, f);
    }
  }

  /** Taking element j out of b takes one copy of it out of the multiset. */
  lemma RemoveOne<T>(b: seq<T>, j: int)
    requires 0 <= j < |b|
    ensures multiset(b[..j] + b[j + 1..]) == multiset(b) - multiset{b[j]}
  {
    assert b == b[..j] + [b[j]] + b[j + 1..];
  }

  /** Taking element j out of b takes its term out of the sum. */
  lemma SumOfRemoveOne<T>(b: seq<T>, j: int, f: T -> int)
    requires 0 <= j < |b|
    ensures SumOf(b, f) == SumOf(b[..j] + b[j + 1..], f) + f(b[j])
  {
    assert b[..j + 1] == b[..j] + [b[j]];
    assert b == b[..j + 1] + b[j + 1..];
    SumOfMiddle(b[..j], b[j], b[j + 1..], f);
  }

  lemma SumOfMiddle<T>(lo: seq<T>, x: T, hi: seq<T>, f: T -> int)
    ensures SumOf(lo + [x] + hi, f) == SumOf(lo + hi, f) + f(x)
  {
    SumOfAppend(lo + [x], hi, f);
    SumOfSnoc(lo, x, f);
    SumOfAppend(lo, hi, f);
  }

  /** Two sequences of the same length whose terms agree position by position have
      the same sum. */
  lemma {:induction false} SumOfPointwise<T, U>(s: seq<T>, f: T -> int, t: seq<U>, g: U -> int)
    requires |s| == |t|
    requires forall i :: 0 <= i < |s| ==> f(s[i]) == g(t[i])
    ensures SumOf(s, f) == SumOf(t, g)
  {
    if s != [] {
      SumOfPointwise(s[..|s| - 1], f, t[..|t| - 1], g);
    }
  }

  /** An element's share never exceeds the sum when every term is non-negative. */
  lemma {:induction false} SumOfBoundsElement<T>(s: seq<T>, k: int, f: T -> int)
    requires 0 <= k < |s|
    requires forall i :: 0 <= i < |s| ==> f(s[i]) >= 0
    ensures 0 <= f(s[k]) <= SumOf(s, f)
  {
    var init := s[..|s| - 1];
    if k < |s| - 1 {
      SumOfBoundsElement(init, k, f);
    } else {
      SumOfNonNegative(init, f);
    }
  }

  // ---------------------------------------------------------------------------
  // Strings
  // ---------------------------------------------------------------------------

  /** ASCII lower-casing; the source's String.prototype.toLowerCase. */
  function LowerChar(c: char): char {
    if 'A' <= c <= 'Z' then (c as int + 32) as char else c
  }

  function ToLower(s: string): (r: string)
    ensures |r| == |s|
    ensures forall i :: 0 <= i < |s| ==> r[i] == LowerChar(s[i])
  {
    if s == [] then [] else [LowerChar(s[0])] + ToLower(s[1..])
  }

  /** `s.includes(sub)`: sub occurs in s at some position. */
  predicate Contains(s: string, sub: string) {
    sub <= s || (s != [] && Contains(s[1..], sub))
  }

  /** sub occurs in s starting at position i. */
  ghost predicate OccursAt(s: string, sub: string, i: int) {
    0 <= i <= |s| - |sub| && s[i..i + |sub|] == sub
  }

  /** Contains is substring search: it holds iff sub occurs at some position of s. */
  lemma ContainsAt(s: string, sub: string)
    ensures Contains(s, sub) <==> exists i :: OccursAt(s, sub, i)
  {
    if Contains(s, sub) {
      ContainsGivesPosition(s, sub);
    }
    if exists i :: OccursAt(s, sub, i) {
      var i :| OccursAt(s, sub, i);
      PositionGivesContains(s, sub, i);
    }
  }

  lemma {:induction false} ContainsGivesPosition(s: string, sub: string)
    requires Contains(s, sub)
    ensures exists i :: OccursAt(s, sub, i)
  {
    if sub <= s {
      assert OccursAt(s, sub, 0);
    } else {
      ContainsGivesPosition(s[1..], sub);
      var i :| OccursAt(s[1..], sub, i);
      assert s[i + 1..i + 1 + |sub|] == s[1..][i..i + |sub|];
      assert OccursAt(s, sub, i + 1);
    }
  }

  lemma {:induction false} PositionGivesContains(s: string, sub: string, i: int)
    requires OccursAt(s, sub, i)
    ensures Contains(s, sub)
    decreases i
  {
    if i == 0 {
      assert sub <= s;
    } else {
      assert s[1..][i - 1..i - 1 + |sub|] == s[i..i + |sub|];
      PositionGivesContains(s[1..], sub, i - 1);
    }
  }

  /** The characters String.prototype.trim removes: tab, vertical tab, form feed,
      the BOM, the space separators of Unicode category Zs, and the line terminators. */
  predicate IsSpace(c: char) {
    c == '\t' || c == '\U{B}' || c == '\U{C}' || c == '\U{FEFF}'
    || c == ' ' || c == '\U{A0}' || c == '\U{1680}' || ('\U{2000}' <= c <= '\U{200A}')
    || c == '\U{202F}' || c == '\U{205F}' || c == '\U{3000}'
    || c == '\n' || c == '\r' || c == '\U{2028}' || c == '\U{2029}'
  }

  function TrimStart(s: string): (r: string)
    ensures r == [] || !IsSpace(r[0])
    ensures forall i :: 0 <= i < |s| - |r| ==> IsSpace(s[i])
    ensures |r| <= |s| && r == s[|s| - |r|..]
  {
    if s != [] && IsSpace(s[0]) then TrimStart(s[1..]) else s
  }

  function TrimEnd(s: string): (r: string)
    ensures r <= s
    ensures r == [] || !IsSpace(r[|r| - 1])
    ensures forall i :: |r| <= i < |s| ==> IsSpace(s[i])
  {
    if s != [] && IsSpace(s[|s| - 1]) then TrimEnd(s[..|s| - 1]) else s
  }

  /** How many white-space characters `s` starts with. */
  function LeadingSpaces(s: string): (k: nat)
    ensures k <= |s|
  {
    |s| - |TrimStart(s)|
  }

  /** `s.trim()`: s without its leading and trailing white space. */
  function Trim(s: string): (r: string)
    ensures r == [] || (!IsSpace(r[0]) && !IsSpace(r[|r| - 1]))
    ensures LeadingSpaces(s) + |r| <= |s|
    ensures r == s[LeadingSpaces(s)..LeadingSpaces(s) + |r|]
    ensures forall i :: 0 <= i < LeadingSpaces(s) ==> IsSpace(s[i])
    ensures forall i :: LeadingSpaces(s) + |r| <= i < |s| ==> IsSpace(s[i])
  {
    TrimParts(s, TrimStart(s), TrimEnd(TrimStart(s)));
    TrimEnd(TrimStart(s))
  }

  /** trim strips the Unicode space separators too, the ideographic and the en-quad
      to hair spaces among them, but keeps the zero-width space U+200B. */
  lemma TrimUnicodeSpaces()
    ensures Trim("\U{3000}\U{1680}a\U{2003}\U{202F}") == "a"
    ensures Trim("\U{200B}") == "\U{200B}"
  {
    TrimStartUnicodeSpaces();
    TrimEndUnicodeSpaces();
    assert !IsSpace('\U{200B}');
  }

  lemma TrimStartUnicodeSpaces()
    ensures TrimStart("\U{3000}\U{1680}a\U{2003}\U{202F}") == "a\U{2003}\U{202F}"
  {
    var t := "a\U{2003}\U{202F}";
    calc {
      TrimStart("\U{3000}\U{1680}a\U{2003}\U{202F}");
      { assert "\U{3000}\U{1680}a\U{2003}\U{202F}" == ['\U{3000}'] + (['\U{1680}'] + t); }
      TrimStart(['\U{3000}'] + (['\U{1680}'] + t));
      { TrimStartSkips('\U{3000}', ['\U{1680}'] + t); }
      TrimStart(['\U{1680}'] + t);
      { TrimStartSkips('\U{1680}', t); }
      TrimStart(t);
      { assert !IsSpace(t[0]); }
      t;
    }
  }

  lemma TrimEndUnicodeSpaces()
    ensures TrimEnd("a\U{2003}\U{202F}") == "a"
  {
    assert "a\U{2003}\U{202F}" == ("a" + ['\U{2003}']) + ['\U{202F}'];
    TrimEndSkips("a" + ['\U{2003}'], '\U{202F}');
    TrimEndSkips("a", '\U{2003}');
    assert TrimEnd("a") == "a" by { assert !IsSpace("a"[0]); }
  }

  /** A string with no white space at either end is its own trim. */
  lemma TrimOfUnpadded(s: string)
    requires s != [] && !IsSpace(s[0]) && !IsSpace(s[|s| - 1])
    ensures Trim(s) == s
  {
    assert TrimStart(s) == s;
    assert TrimEnd(s) == s;
  }

  lemma TrimStartSkips(c: char, s: string)
    requires IsSpace(c)
    ensures TrimStart([c] + s) == TrimStart(s)
  {
    assert ([c] + s)[1..] == s;
  }

  lemma TrimEndSkips(s: string, c: char)
    requires IsSpace(c)
    ensures TrimEnd(s + [c]) == TrimEnd(s)
  {
    assert (s + [c])[..|s|] == s;
  }

  /** Trimming the end of the suffix left by TrimStart cuts a middle part out of s. */
  lemma TrimParts(s: string, t: string, r: string)
    requires |t| <= |s| && t == s[|s| - |t|..]
    requires r <= t && forall i :: |r| <= i < |t| ==> IsSpace(t[i])
    ensures r == s[|s| - |t|..|s| - |t| + |r|]
    ensures forall i :: |s| - |t| + |r| <= i < |s| ==> IsSpace(s[i])
  {
    var k := |s| - |t|;
    forall i | k + |r| <= i < |s|
      ensures IsSpace(s[i])
    {
      assert s[i] == t[i - k];
    }
  }
}
