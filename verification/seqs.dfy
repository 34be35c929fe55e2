/** The list operations the pages build their views from: `Array.prototype.filter`,
    `find`/`findIndex`, a summing `reduce`, the stable `sort` with a numeric
    comparator, `slice`-based pagination and the add/remove toggles. */
module Seqs {
  import opened Wrappers

  // ---------------------------------------------------------------------
  // Order-preserving selection
  // ---------------------------------------------------------------------

  /** `r` can be obtained from `s` by deleting elements, keeping the order. */
  ghost predicate IsSubsequence<T>(r: seq<T>, s: seq<T>)
    decreases |s|
  {
    if |r| == 0 then true
    else if |s| == 0 then false
    else (r[0] == s[0] && IsSubsequence(r[1..], s[1..])) || IsSubsequence(r, s[1..])
  }

  /** Every sequence is obtained from itself by deleting nothing. */
  lemma {:induction false} SubsequenceRefl<T>(s: seq<T>)
    ensures IsSubsequence(s, s)
    decreases |s|
  {
    if |s| > 0 {
      SubsequenceRefl(s[1..]);
    }
  }

  /** Deleting from what was obtained by deleting is deleting. */
  lemma {:induction false} SubsequenceTrans<T>(a: seq<T>, b: seq<T>, c: seq<T>)
    requires IsSubsequence(a, b) && IsSubsequence(b, c)
    ensures IsSubsequence(a, c)
    decreases |c|
  {
    if |a| > 0 {
      if IsSubsequence(b, c[1..]) {
        SubsequenceTrans(a, b, c[1..]);
      } else if a[0] == b[0] && IsSubsequence(a[1..], b[1..]) {
        SubsequenceTrans(a[1..], b[1..], c[1..]);
      } else {
        SubsequenceTrans(a, b[1..], c[1..]);
      }
    }
  }

  /** `s.filter(p)`: the elements satisfying `p`, in their original order.
      `FilterMembers` and `FilterMultiset` state what it keeps. */
  function Filter<T>(s: seq<T>, p: T -> bool): (r: seq<T>)
    ensures |r| <= |s|
    ensures forall i :: 0 <= i < |r| ==> p(r[i])
    ensures IsSubsequence(r, s)
    decreases |s|
  {
    if |s| == 0 then []
    else
      var rest := Filter(s[1..], p);
      if p(s[0]) then
        var r := [s[0]] + rest;
        assert r[1..] == rest;
        r
      else rest
  }

  /** An element is kept exactly when it occurs in the input and satisfies
      the predicate. */
  lemma {:induction false} FilterMembers<T>(s: seq<T>, p: T -> bool, x: T)
    ensures x in Filter(s, p) <==> x in s && p(x)
    decreases |s|
  {
    if |s| > 0 {
      FilterMembers(s[1..], p, x);
      assert s == [s[0]] + s[1..];
    }
  }

  lemma FilterMembersAll<T>(s: seq<T>, p: T -> bool)
    ensures forall x :: x in Filter(s, p) <==> x in s && p(x)
  {
    forall x {
      FilterMembers(s, p, x);
    }
  }

  /** Each kept element keeps all its occurrences, and nothing else is kept. */
  lemma {:induction false} FilterMultiset<T>(s: seq<T>, p: T -> bool, x: T)
    ensures multiset(Filter(s, p))[x] == if p(x) then multiset(s)[x] else 0
    decreases |s|
  {
    if |s| > 0 {
      FilterMultiset(s[1..], p, x);
      var rest := Filter(s[1..], p);
      assert s == [s[0]] + s[1..];
      assert multiset(s) == multiset{s[0]} + multiset(s[1..]);
      if p(s[0]) {
        assert multiset(Filter(s, p)) == multiset{s[0]} + multiset(rest);
      } else {
        assert Filter(s, p) == rest;
      }
    }
  }

  /** Filtering distributes over concatenation. */
  lemma {:induction false} FilterAppend<T>(a: seq<T>, b: seq<T>, p: T -> bool)
    ensures Filter(a + b, p) == Filter(a, p) + Filter(b, p)
    decreases |a|
  {
    if |a| > 0 {
      assert (a + b)[1..] == a[1..] + b;
      FilterAppend(a[1..], b, p);
    } else {
      assert a + b == b;
    }
  }

  /** Two filters in a row are one filter by the conjunction, so independent
      filters may be applied in either order. */
  lemma {:induction false} FilterFilter<T>(s: seq<T>, p: T -> bool, q: T -> bool)
    ensures Filter(Filter(s, p), q) == Filter(s, x => p(x) && q(x))
    ensures Filter(Filter(s, p), q) == Filter(Filter(s, q), p)
    decreases |s|
  {
    if |s| > 0 {
      FilterFilter(s[1..], p, q);
    }
  }

  /** The conjunction of two predicates. */
  function And<T>(p: T -> bool, q: T -> bool): T -> bool {
    (x: T) => p(x) && q(x)
  }

  /** Two filters in a row are one filter by `And`. */
  lemma FilterTwice<T>(s: seq<T>, p: T -> bool, q: T -> bool)
    ensures Filter(Filter(s, p), q) == Filter(s, And(p, q))
  {
    FilterFilter(s, p, q);
    FilterExt(s, x => p(x) && q(x), And(p, q));
  }

  /** A filter applied only when `on` holds is the filter by "`on` implies
      the predicate". */
  lemma OptionalFilter<T>(s: seq<T>, on: bool, p: T -> bool, q: T -> bool)
    requires forall x :: q(x) == (!on || p(x))
    ensures (if on then Filter(s, p) else s) == Filter(s, q)
  {
    if on { FilterExt(s, p, q); } else { FilterAll(s, q); }
  }

  /** Any rearrangement of a filtered sequence still holds only elements
      that satisfy the predicate. */
  lemma PermutedFilterSatisfies<T>(r: seq<T>, s: seq<T>, p: T -> bool)
    requires multiset(r) == multiset(Filter(s, p))
    ensures forall i :: 0 <= i < |r| ==> p(r[i])
  {
    var f := Filter(s, p);
    forall i | 0 <= i < |r| ensures p(r[i]) {
      assert r[i] in multiset(r);
      assert r[i] in f;
    }
  }

  /** Filters by predicates that agree everywhere keep the same elements. */
  lemma {:induction false} FilterExt<T>(s: seq<T>, p: T -> bool, q: T -> bool)
    requires forall x :: p(x) == q(x)
    ensures Filter(s, p) == Filter(s, q)
    decreases |s|
  {
    if |s| > 0 {
      FilterExt(s[1..], p, q);
    }
  }

  /** A filter whose predicate holds everywhere keeps everything. */
  lemma {:induction false} FilterAll<T>(s: seq<T>, p: T -> bool)
    requires forall i :: 0 <= i < |s| ==> p(s[i])
    ensures Filter(s, p) == s
    decreases |s|
  {
    if |s| > 0 {
      FilterAll(s[1..], p);
    }
  }

  /** The number of elements satisfying `p`: `s.filter(p).length`. */
  function Count<T>(s: seq<T>, p: T -> bool): (n: nat)
    ensures n <= |s|
  {
    |Filter(s, p)|
  }

  /** Every element is counted exactly when every element satisfies the
      predicate. */
  lemma {:induction false} CountAll<T>(s: seq<T>, p: T -> bool)
    ensures Count(s, p) == |s| <==> forall i :: 0 <= i < |s| ==> p(s[i])
    decreases |s|
  {
    if |s| > 0 {
      CountAll(s[1..], p);
      assert forall i :: 1 <= i < |s| ==> s[i] == s[1..][i - 1];
      if !p(s[0]) {
        assert |Filter(s, p)| == |Filter(s[1..], p)| <= |s| - 1;
      }
    }
  }

  // ---------------------------------------------------------------------
  // Search
  // ---------------------------------------------------------------------

  /** `s.findIndex(p)`, with `-1` modelled as `None`: the first index whose
      element satisfies `p`. */
  function FindFirst<T>(s: seq<T>, p: T -> bool): (r: Option<nat>)
    ensures r.Some? ==> r.value < |s| && p(s[r.value])
    ensures r.Some? ==> forall j :: 0 <= j < r.value ==> !p(s[j])
    ensures r.None? <==> forall j :: 0 <= j < |s| ==> !p(s[j])
    decreases |s|
  {
    if |s| == 0 then None
    else if p(s[0]) then Some(0)
    else
      match FindFirst(s[1..], p)
      case None => None
      case Some(k) => Some(k + 1)
  }

  /** `s.findLastIndex(p)`: the last index whose element satisfies `p`. */
  function FindLast<T>(s: seq<T>, p: T -> bool): (r: Option<nat>)
    ensures r.Some? ==> r.value < |s| && p(s[r.value])
    ensures r.Some? ==> forall j :: r.value < j < |s| ==> !p(s[j])
    ensures r.None? <==> forall j :: 0 <= j < |s| ==> !p(s[j])
    decreases |s|
  {
    if |s| == 0 then None
    else if p(s[|s| - 1]) then Some(|s| - 1)
    else FindLast(s[..|s| - 1], p)
  }

  /** `s.find(p)`: the first element satisfying `p`. */
  function Find<T>(s: seq<T>, p: T -> bool): (r: Option<T>)
    ensures r.Some? ==> r.value in s && p(r.value)
    ensures r.Some? ==> exists k :: 0 <= k < |s| && s[k] == r.value && p(s[k]) && forall j :: 0 <= j < k ==> !p(s[j])
    ensures r.None? <==> forall j :: 0 <= j < |s| ==> !p(s[j])
  {
    match FindFirst(s, p)
    case None => None
    case Some(k) => Some(s[k])
  }

  /** `find` over a concatenation looks in the second part only when the
      first has no match. */
  lemma {:induction false} FindAppend<T>(a: seq<T>, b: seq<T>, p: T -> bool)
    ensures Find(a + b, p) == if Find(a, p).Some? then Find(a, p) else Find(b, p)
  {
    var s := a + b;
    var fa, fb := FindFirst(a, p), FindFirst(b, p);
    if fa.Some? {
      var k := fa.value;
      forall j | 0 <= j < k ensures !p(s[j]) {
        assert s[j] == a[j];
      }
      assert s[k] == a[k];
      FindFirstIs(s, p, k);
    } else if fb.Some? {
      var k := |a| + fb.value;
      forall j | 0 <= j < k ensures !p(s[j]) {
        if j < |a| { assert s[j] == a[j]; } else { assert s[j] == b[j - |a|]; }
      }
      assert s[k] == b[fb.value];
      FindFirstIs(s, p, k);
    } else {
      forall j | 0 <= j < |s| ensures !p(s[j]) {
        if j < |a| { assert s[j] == a[j]; } else { assert s[j] == b[j - |a|]; }
      }
    }
  }

  /** The first index satisfying `p` is what `findIndex` returns. */
  lemma FindFirstIs<T>(s: seq<T>, p: T -> bool, k: nat)
    requires k < |s| && p(s[k])
    requires forall j :: 0 <= j < k ==> !p(s[j])
    ensures FindFirst(s, p) == Some(k)
  {
    var r := FindFirst(s, p);
    assert r.Some?;
    assert !(r.value < k);
    assert !(r.value > k) by {
      assert !p(s[k]) || r.value <= k;
    }
  }

  // ---------------------------------------------------------------------
  // Sums
  // ---------------------------------------------------------------------

  /** The sum of `f` over the elements, as a reduction from zero. */
  function SumBy<T>(s: seq<T>, f: T -> int): int
    decreases |s|
  {
    if |s| == 0 then 0 else SumBy(s[..|s| - 1], f) + f(s[|s| - 1])
  }

  /** The sum over a list of four, written out. */
  lemma SumFour<T>(a: T, b: T, c: T, d: T, f: T -> int)
    ensures SumBy([a, b, c, d], f) == f(a) + f(b) + f(c) + f(d)
  {
    var s := [a, b, c, d];
    assert s[..3] == [a, b, c] && [a, b, c][..2] == [a, b] && [a, b][..1] == [a] && [a][..0] == [];
    assert SumBy([a], f) == f(a);
    assert SumBy([a, b], f) == f(a) + f(b);
    assert SumBy([a, b, c], f) == f(a) + f(b) + f(c);
  }

  /** The sum over a concatenation is the sum of the sums. */
  lemma {:induction false} SumAppend<T>(a: seq<T>, b: seq<T>, f: T -> int)
    ensures SumBy(a + b, f) == SumBy(a, f) + SumBy(b, f)
    decreases |b|
  {
    if |b| > 0 {
      assert (a + b)[..|a + b| - 1] == a + b[..|b| - 1];
      SumAppend(a, b[..|b| - 1], f);
    } else {
      assert a + b == a;
    }
  }

  /** A sum of non-negative terms is non-negative. */
  lemma {:induction false} SumNonNegative<T>(s: seq<T>, f: T -> int)
    requires forall i :: 0 <= i < |s| ==> f(s[i]) >= 0
    ensures SumBy(s, f) >= 0
    decreases |s|
  {
    if |s| > 0 {
      SumNonNegative(s[..|s| - 1], f);
    }
  }

  /** Each of a list of non-negative terms is at most their sum. */
  lemma TermAtMostSum<T>(s: seq<T>, f: T -> int)
    requires forall i :: 0 <= i < |s| ==> f(s[i]) >= 0
    ensures SumBy(s, f) >= 0
    ensures forall i :: 0 <= i < |s| ==> f(s[i]) <= SumBy(s, f)
  {
    SumNonNegative(s, f);
    forall i | 0 <= i < |s| ensures f(s[i]) <= SumBy(s, f) {
      TermAtMostSumAt(s, f, i);
    }
  }

  lemma TermAtMostSumAt<T>(s: seq<T>, f: T -> int, i: nat)
    requires forall i :: 0 <= i < |s| ==> f(s[i]) >= 0
    requires i < |s|
    ensures f(s[i]) <= SumBy(s, f)
  {
    var a, b := s[..i], s[i + 1..];
    assert forall j :: 0 <= j < |a| ==> a[j] == s[j];
    assert forall j :: 0 <= j < |b| ==> b[j] == s[i + 1 + j];
    SumNonNegative(a, f);
    SumNonNegative(b, f);
    assert s == a + [s[i]] + b;
    SumAppend(a + [s[i]], b, f);
    SumAppend(a, [s[i]], f);
    assert SumBy([s[i]], f) == f(s[i]) by {
      assert [s[i]][..0] == [];
    }
  }

  // ---------------------------------------------------------------------
  // Stable sort by an integer key, largest first
  // ---------------------------------------------------------------------

  ghost predicate SortedDesc<T>(s: seq<T>, key: T -> int) {
    forall i, j :: 0 <= i < j < |s| ==> key(s[i]) >= key(s[j])
  }

  /** Inserts `x`, which came before every element of `s` in the original
      order, ahead of the first element whose key does not exceed its own. */
  function InsertDesc<T>(x: T, s: seq<T>, key: T -> int): (r: seq<T>)
    requires SortedDesc(s, key)
    ensures SortedDesc(r, key)
    ensures multiset(r) == multiset(s) + multiset{x}
    decreases |s|
  {
    if |s| == 0 then [x]
    else if key(s[0]) <= key(x) then [x] + s
    else
      var rest := InsertDesc(x, s[1..], key);
      assert s == [s[0]] + s[1..];
      HeadBeforeInsert(s[0], x, s[1..], rest, key);
      [s[0]] + rest
  }

  /** An element whose key bounds both the inserted one and the list it went
      into may stand in front of the result. */
  lemma HeadBeforeInsert<T>(h: T, x: T, t: seq<T>, rest: seq<T>, key: T -> int)
    requires SortedDesc([h] + t, key) && key(h) > key(x)
    requires SortedDesc(rest, key) && multiset(rest) == multiset(t) + multiset{x}
    ensures SortedDesc([h] + rest, key)
  {
    forall j | 0 <= j < |rest| ensures key(h) >= key(rest[j]) {
      assert rest[j] in multiset(rest);
      if rest[j] != x {
        assert rest[j] in multiset(t);
        var i :| 0 <= i < |t| && t[i] == rest[j];
        assert ([h] + t)[0] == h && ([h] + t)[i + 1] == t[i];
      }
    }
  }

  /** A comparator sort by a key, largest first. ECMAScript's sort is stable, so
      for a consistent comparator the result is the stable sort, which this
      insertion sort computes. Ascending orders use a negated key. */
  function SortDesc<T>(s: seq<T>, key: T -> int): (r: seq<T>)
    ensures SortedDesc(r, key)
    ensures multiset(r) == multiset(s)
    ensures |r| == |s|
    decreases |s|
  {
    if |s| == 0 then []
    else
      assert s == [s[0]] + s[1..];
      InsertDesc(s[0], SortDesc(s[1..], key), key)
  }

  /** A sorted list is left as it is: the sort moves nothing without cause. */
  lemma {:induction false} SortDescSorted<T>(s: seq<T>, key: T -> int)
    requires SortedDesc(s, key)
    ensures SortDesc(s, key) == s
    decreases |s|
  {
    if |s| > 0 {
      assert SortedDesc(s[1..], key);
      SortDescSorted(s[1..], key);
      assert s == [s[0]] + s[1..];
    }
  }

  /** The elements whose key is `k`. */
  function KeyIs<T>(key: T -> int, k: int): T -> bool {
    x => key(x) == k
  }

  /** The sort is stable: among elements with equal keys it keeps the
      original order, so selecting any one key before or after sorting gives
      the same list. */
  lemma {:induction false} SortDescStable<T>(s: seq<T>, key: T -> int, k: int)
    ensures Filter(SortDesc(s, key), KeyIs(key, k)) == Filter(s, KeyIs(key, k))
    decreases |s|
  {
    if |s| > 0 {
      SortDescStable(s[1..], key, k);
      InsertDescFilter(s[0], SortDesc(s[1..], key), key, k);
    }
  }

  lemma {:induction false} InsertDescFilter<T>(x: T, t: seq<T>, key: T -> int, k: int)
    requires SortedDesc(t, key)
    ensures Filter(InsertDesc(x, t, key), KeyIs(key, k))
         == (if key(x) == k then [x] else []) + Filter(t, KeyIs(key, k))
    decreases |t|
  {
    var p := KeyIs(key, k);
    if |t| == 0 {
      FilterCons(x, t, p);
      assert [x] + t == [x];
    } else if key(t[0]) <= key(x) {
      FilterCons(x, t, p);
    } else {
      assert SortedDesc(t[1..], key);
      InsertDescFilter(x, t[1..], key, k);
      var rest := InsertDesc(x, t[1..], key);
      assert InsertDesc(x, t, key) == [t[0]] + rest;
      assert [t[0]] + t[1..] == t;
      FilterPastHead(t[0], x, t[1..], rest, key, k);
    }
  }

  /** Filtering for key `k` sees through a head whose key exceeds `k`'s
      inserted element. */
  lemma FilterPastHead<T>(h: T, x: T, u: seq<T>, rest: seq<T>, key: T -> int, k: int)
    requires key(h) > key(x)
    requires Filter(rest, KeyIs(key, k)) == (if key(x) == k then [x] else []) + Filter(u, KeyIs(key, k))
    ensures Filter([h] + rest, KeyIs(key, k))
         == (if key(x) == k then [x] else []) + Filter([h] + u, KeyIs(key, k))
  {
    var p := KeyIs(key, k);
    FilterCons(h, rest, p);
    FilterCons(h, u, p);
    var fh: seq<T> := if p(h) then [h] else [];
    if key(x) == k {
      assert !p(h);
      assert Filter([h] + rest, p) == Filter(rest, p);
      assert Filter([h] + u, p) == Filter(u, p);
    } else {
      assert Filter(rest, p) == Filter(u, p);
      assert Filter([h] + rest, p) == fh + Filter(u, p);
    }
  }

  /** Filtering a list with a known head. */
  lemma FilterCons<T>(h: T, t: seq<T>, p: T -> bool)
    ensures Filter([h] + t, p) == (if p(h) then [h] else []) + Filter(t, p)
  {
    assert ([h] + t)[1..] == t;
  }

  // ---------------------------------------------------------------------
  // Pagination
  // ---------------------------------------------------------------------

  /** `s.slice(start, end)` for non-negative bounds: both are clamped to the
      length, and an empty range gives the empty list. */
  function Slice<T>(s: seq<T>, start: nat, end: nat): (r: seq<T>)
    ensures |r| == if start < end && start < |s| then Min(end, |s|) - start else 0
    ensures forall i :: 0 <= i < |r| ==> r[i] == s[start + i]
  {
    var e := Min(end, |s|);
    if start < e then s[start..e] else []
  }

  function Min(a: int, b: int): int {
    if a <= b then a else b
  }

  function Max(a: int, b: int): int {
    if a <= b then b else a
  }

  /** Page `page` (counted from 1) of `size` elements:
      `s.slice((page - 1) * size, (page - 1) * size + size)`. */
  function Page<T>(s: seq<T>, page: nat, size: nat): (r: seq<T>)
    requires page >= 1
    ensures |r| <= size
    ensures (page - 1) * size >= |s| ==> r == []
    ensures (page - 1) * size < |s| ==> |r| == Min(page * size, |s|) - (page - 1) * size
    ensures forall i :: 0 <= i < |r| ==> r[i] == s[(page - 1) * size + i]
  {
    Slice(s, (page - 1) * size, (page - 1) * size + size)
  }

  /** Pages 1 to `k`, concatenated. */
  function PagesUpTo<T>(s: seq<T>, k: nat, size: nat): seq<T>
    decreases k
  {
    if k == 0 then [] else PagesUpTo(s, k - 1, size) + Page(s, k, size)
  }

  /** The first `k` pages are exactly the first `k * size` elements. */
  lemma {:induction false} PagesPrefix<T>(s: seq<T>, k: nat, size: nat)
    ensures PagesUpTo(s, k, size) == s[..Min(k * size, |s|)]
    decreases k
  {
    if k > 0 {
      PagesPrefix(s, k - 1, size);
      PageIsSlice(s, k, size);
      PrefixConcat(s, Min((k - 1) * size, |s|), Min(k * size, |s|));
    }
  }

  lemma PrefixConcat<T>(s: seq<T>, lo: nat, hi: nat)
    requires lo <= hi <= |s|
    ensures s[..lo] + s[lo..hi] == s[..hi]
  {
  }

  /** Page `k` is the slice between the ends of pages `k - 1` and `k`. */
  lemma PageIsSlice<T>(s: seq<T>, k: nat, size: nat)
    requires k >= 1
    ensures Min((k - 1) * size, |s|) <= Min(k * size, |s|)
    ensures Page(s, k, size) == s[Min((k - 1) * size, |s|)..Min(k * size, |s|)]
  {
    var m := (k - 1) * size;
    assert k * size == m + size;
    if m >= |s| {
      assert Page(s, k, size) == [];
    } else {
      assert Page(s, k, size) == s[m..Min(k * size, |s|)];
    }
  }

  /** The pages tile the list: concatenating the first `k` pages, for any `k`
      large enough to cover it, reproduces the list. */
  lemma PagesTile<T>(s: seq<T>, k: nat, size: nat)
    requires k * size >= |s|
    ensures PagesUpTo(s, k, size) == s
  {
    PagesPrefix(s, k, size);
  }

  // ---------------------------------------------------------------------
  // Membership toggles on lists used as sets
  // ---------------------------------------------------------------------

  /** Removes every copy of `x` when the list holds it, appends `x` when it
      does not. */
  function ToggleMember<T(==,!new)>(xs: seq<T>, x: T): (r: seq<T>)
    ensures x in r <==> x !in xs
    ensures forall y :: y != x ==> (y in r <==> y in xs)
  {
    if x in xs then FilterMembersAll(xs, y => y != x); Filter(xs, y => y != x) else xs + [x]
  }

  /** Toggling twice restores the members; it restores the very list when
      the element was absent to begin with. */
  lemma ToggleTwice<T(!new)>(xs: seq<T>, x: T)
    ensures forall y :: y in ToggleMember(ToggleMember(xs, x), x) <==> y in xs
    ensures x !in xs ==> ToggleMember(ToggleMember(xs, x), x) == xs
  {
    if x !in xs {
      FilterAppend(xs, [x], y => y != x);
      FilterAll(xs, y => y != x);
    }
  }

  /** `xs.includes(x) ? xs : [...xs, x]`: adds `x` once, removes nothing. */
  function AddIfAbsent<T(==)>(xs: seq<T>, x: T): (r: seq<T>)
    ensures x in r
    ensures forall y :: y in xs ==> y in r
    ensures forall y :: y in r ==> y == x || y in xs
    ensures x in xs ==> r == xs
    ensures x !in xs ==> |r| == |xs| + 1
  {
    if x in xs then xs else xs + [x]
  }

  predicate NoDuplicates<T(==)>(xs: seq<T>) {
    forall i, j :: 0 <= i < j < |xs| ==> xs[i] != xs[j]
  }

  /** Adding only when absent never creates a duplicate. */
  lemma AddIfAbsentKeepsDistinct<T>(xs: seq<T>, x: T)
    requires NoDuplicates(xs)
    ensures NoDuplicates(AddIfAbsent(xs, x))
  {
  }
}
