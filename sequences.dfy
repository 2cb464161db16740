/** The java.util.stream steps the services chain over lists: `filter`,
    `distinct` (first occurrences, in encounter order) and a stable
    `sorted` by a descending key, as `List.sort`/`Stream.sorted` guarantee. */
module Sequences {
  import opened Wrappers

  /** `stream().filter(f)`: the elements satisfying `f`, in order. */
  function Filter<T(!new)>(xs: seq<T>, f: T -> bool): (r: seq<T>)
    ensures |r| <= |xs|
    ensures forall x :: x in r <==> x in xs && f(x)
    ensures forall i :: 0 <= i < |r| ==> f(r[i])
  {
    if |xs| == 0 then []
    else if f(xs[0]) then [xs[0]] + Filter(xs[1..], f)
    else Filter(xs[1..], f)
  }

  lemma {:induction false} FilterAppend<T(!new)>(a: seq<T>, b: seq<T>, f: T -> bool)
    ensures Filter(a + b, f) == Filter(a, f) + Filter(b, f)
  {
    if |a| == 0 {
      assert a + b == b;
    } else {
      assert (a + b)[1..] == a[1..] + b;
      FilterAppend(a[1..], b, f);
    }
  }

  /** `filter(p).findFirst()`: the first element that passes, if any. */
  function FindFirst<T(==,!new)>(xs: seq<T>, p: T -> bool): (r: Option<T>)
    ensures r.Some? ==> r.value in xs && p(r.value)
    ensures r.None? <==> forall x :: x in xs ==> !p(x)
    ensures r.Some? ==> exists i :: 0 <= i < |xs| && xs[i] == r.value && forall j :: 0 <= j < i ==> !p(xs[j])
  {
    if |xs| == 0 then None
    else if p(xs[0]) then Some(xs[0])
    else
      var r := FindFirst(xs[1..], p);
      assert forall x :: x in xs ==> x == xs[0] || x in xs[1..];
      if r.Some? then
        var i :| 0 <= i < |xs[1..]| && xs[1..][i] == r.value && forall j :: 0 <= j < i ==> !p(xs[1..][j]);
        assert xs[i + 1] == r.value && forall j :: 0 <= j < i + 1 ==> !p(xs[j]);
        r
      else r
  }

  /** A filter keeps its whole input exactly when every element passes. */
  lemma {:induction false} FilterFull<T(!new)>(xs: seq<T>, f: T -> bool)
    ensures |Filter(xs, f)| == |xs| <==> forall x :: x in xs ==> f(x)
  {
    if |xs| > 0 {
      FilterFull(xs[1..], f);
      assert forall x :: x in xs <==> x == xs[0] || x in xs[1..];
    }
  }

  /** Two filters in a row are one filter by the conjunction. */
  lemma {:induction false} FilterFilter<T(!new)>(xs: seq<T>, f: T -> bool, g: T -> bool, h: T -> bool)
    requires forall x :: h(x) == (f(x) && g(x))
    ensures Filter(Filter(xs, f), g) == Filter(xs, h)
  {
    if |xs| > 0 {
      FilterFilter(xs[1..], f, g, h);
      if f(xs[0]) {
        assert ([xs[0]] + Filter(xs[1..], f))[1..] == Filter(xs[1..], f);
      }
    }
  }

  /** The elements of `ys` occur in `xs` in the same order. */
  predicate IsSubsequence<T(==)>(ys: seq<T>, xs: seq<T>) {
    if |ys| == 0 then true
    else if |xs| == 0 then false
    else if ys[0] == xs[0] then IsSubsequence(ys[1..], xs[1..])
    else IsSubsequence(ys, xs[1..])
  }

  lemma {:induction false} FilterIsSubsequence<T(!new)>(xs: seq<T>, f: T -> bool)
    ensures IsSubsequence(Filter(xs, f), xs)
  {
    if |xs| > 0 {
      FilterIsSubsequence(xs[1..], f);
      if f(xs[0]) {
        assert ([xs[0]] + Filter(xs[1..], f))[1..] == Filter(xs[1..], f);
      }
    }
  }

  /** No element occurs twice. */
  predicate Distinct<T(==)>(xs: seq<T>) {
    forall i, j :: 0 <= i < j < |xs| ==> xs[i] != xs[j]
  }

  /** The position of the first occurrence of `x` in `xs`. */
  function FirstIndex<T(==)>(xs: seq<T>, x: T): (i: nat)
    requires x in xs
    ensures i < |xs| && xs[i] == x
    ensures forall j :: 0 <= j < i ==> xs[j] != x
  {
    if xs[0] == x then 0 else 1 + FirstIndex(xs[1..], x)
  }

  /** `stream().distinct()`: every element once, at its first occurrence
      (`DedupOrder`). */
  function Dedup<T(==,!new)>(xs: seq<T>): (r: seq<T>)
    ensures forall x :: x in r <==> x in xs
    ensures Distinct(r)
    decreases |xs|
  {
    if |xs| == 0 then []
    else
      var init := xs[..|xs| - 1];
      var last := xs[|xs| - 1];
      var r := Dedup(init);
      if last in r then r else r + [last]
  }

  /** The kept elements appear in the order of their first occurrences. */
  lemma {:induction false} DedupOrder<T(!new)>(xs: seq<T>)
    ensures forall i, j :: 0 <= i < j < |Dedup(xs)| ==>
      FirstIndex(xs, Dedup(xs)[i]) < FirstIndex(xs, Dedup(xs)[j])
    decreases |xs|
  {
    if |xs| > 0 {
      var init := xs[..|xs| - 1];
      var last := xs[|xs| - 1];
      var r := Dedup(init);
      DedupOrder(init);
      FirstIndexPrefix(xs, init);
      var d := Dedup(xs);
      assert d == if last in r then r else r + [last];
      forall i, j | 0 <= i < j < |d|
        ensures FirstIndex(xs, d[i]) < FirstIndex(xs, d[j])
      {
        assert d[i] == r[i] && d[i] in init;
        if j < |r| {
          assert d[j] == r[j] && d[j] in init;
        } else {
          assert d[j] == last && last !in init;
          assert FirstIndex(xs, last) == |xs| - 1;
        }
      }
    }
  }

  /** On elements of a prefix the first occurrence does not move. */
  lemma FirstIndexPrefix<T>(xs: seq<T>, init: seq<T>)
    requires init <= xs
    ensures forall x :: x in init ==> FirstIndex(xs, x) == FirstIndex(init, x)
  {
    forall x | x in init
      ensures FirstIndex(xs, x) == FirstIndex(init, x)
    {
      var i := FirstIndex(init, x);
      var j := FirstIndex(xs, x);
      assert xs[i] == x;
      assert j <= i && init[j] == x;
    }
  }

  /** A list without repeats is left as it is by `distinct()`. */
  lemma {:induction false} DedupDistinct<T(!new)>(xs: seq<T>)
    requires Distinct(xs)
    ensures Dedup(xs) == xs
    decreases |xs|
  {
    if |xs| > 0 {
      var init := xs[..|xs| - 1];
      var last := xs[|xs| - 1];
      assert Distinct(init) && last !in init by {
        assert forall k :: 0 <= k < |init| ==> init[k] == xs[k];
      }
      DedupDistinct(init);
      DedupSnoc(xs);
      assert init + [last] == xs;
    }
  }

  /** A new last element is kept, after the rest. */
  lemma DedupSnoc<T(!new)>(xs: seq<T>)
    requires |xs| > 0 && xs[|xs| - 1] !in xs[..|xs| - 1]
    ensures Dedup(xs) == Dedup(xs[..|xs| - 1]) + [xs[|xs| - 1]]
  {
  }

  /** Sorted by `key`, largest first. */
  predicate SortedDesc<T>(xs: seq<T>, key: T -> real) {
    forall i, j :: 0 <= i < j < |xs| ==> key(xs[i]) >= key(xs[j])
  }

  /** The elements of `xs` whose key is `k`, in order: two lists whose
      `WithKey` agree for every `k` order equal keys alike. */
  function WithKey<T>(xs: seq<T>, key: T -> real, k: real): (r: seq<T>)
    ensures |r| <= |xs|
  {
    if |xs| == 0 then []
    else if key(xs[0]) == k then [xs[0]] + WithKey(xs[1..], key, k)
    else WithKey(xs[1..], key, k)
  }

  /** Places `x` after every element with a larger key and before the rest. */
  function Insert<T>(x: T, s: seq<T>, key: T -> real): (r: seq<T>)
    ensures |r| == |s| + 1
    ensures multiset(r) == multiset(s) + multiset{x}
    ensures SortedDesc(s, key) ==> SortedDesc(r, key)
  {
    if |s| == 0 || key(s[0]) <= key(x) then [x] + s
    else
      var t := Insert(x, s[1..], key);
      InsertBehind(x, s, key, t);
      [s[0]] + t
  }

  /** The step of `Insert` that keeps the head in front. */
  lemma InsertBehind<T>(x: T, s: seq<T>, key: T -> real, t: seq<T>)
    requires |s| > 0 && key(s[0]) > key(x)
    requires multiset(t) == multiset(s[1..]) + multiset{x}
    requires SortedDesc(s[1..], key) ==> SortedDesc(t, key)
    ensures multiset([s[0]] + t) == multiset(s) + multiset{x}
    ensures SortedDesc(s, key) ==> SortedDesc([s[0]] + t, key)
  {
    assert s == [s[0]] + s[1..];
    if SortedDesc(s, key) {
      var r := [s[0]] + t;
      HeadLeads(x, s, key, t);
      assert SortedDesc(t, key);
      forall i, j | 0 <= i < j < |r|
        ensures key(r[i]) >= key(r[j])
      {
        if i == 0 {
          assert r[j] == t[j - 1];
        } else {
          assert r[i] == t[i - 1] && r[j] == t[j - 1];
        }
      }
    }
  }

  /** A head that leads a sorted list leads what `Insert` put behind it. */
  lemma HeadLeads<T>(x: T, s: seq<T>, key: T -> real, t: seq<T>)
    requires |s| > 0 && key(s[0]) > key(x) && SortedDesc(s, key)
    requires multiset(t) == multiset(s[1..]) + multiset{x}
    ensures forall i :: 0 <= i < |t| ==> key(s[0]) >= key(t[i])
  {
    forall i | 0 <= i < |t|
      ensures key(s[0]) >= key(t[i])
    {
      assert t[i] in multiset(t);
      if t[i] != x {
        assert t[i] in multiset(s[1..]);
        var j :| 0 <= j < |s[1..]| && s[1..][j] == t[i];
        assert s[j + 1] == t[i];
      }
    }
  }

  /** A stable sort by `key`, largest first (insertion sort). */
  function SortDesc<T>(xs: seq<T>, key: T -> real): (r: seq<T>)
    ensures |r| == |xs|
    ensures multiset(r) == multiset(xs)
    ensures SortedDesc(r, key)
  {
    if |xs| == 0 then []
    else
      assert xs == [xs[0]] + xs[1..];
      Insert(xs[0], SortDesc(xs[1..], key), key)
  }

  /** A stable sort by `at`, smallest first: the descending sort on the
      negated key. */
  function SortAsc<T(!new)>(xs: seq<T>, at: T -> real): (r: seq<T>)
    ensures multiset(r) == multiset(xs)
    ensures forall x :: x in r <==> x in xs
    ensures forall i, j :: 0 <= i < j < |r| ==> at(r[i]) <= at(r[j])
  {
    var key := (x: T) => -at(x);
    var r := SortDesc(xs, key);
    assert forall x :: x in r <==> x in multiset(xs);
    assert forall i, j :: 0 <= i < j < |r| ==> key(r[i]) >= key(r[j]);
    r
  }

  lemma {:induction false} InsertWithKey<T>(x: T, s: seq<T>, key: T -> real, k: real)
    ensures WithKey(Insert(x, s, key), key, k) ==
      (if key(x) == k then [x] + WithKey(s, key, k) else WithKey(s, key, k))
  {
    if |s| == 0 || key(s[0]) <= key(x) {
      assert ([x] + s)[1..] == s;
    } else {
      InsertWithKey(x, s[1..], key, k);
      assert ([s[0]] + Insert(x, s[1..], key))[1..] == Insert(x, s[1..], key);
    }
  }

  /** Stability: elements with equal keys keep their relative order. */
  lemma {:induction false} SortDescStable<T>(xs: seq<T>, key: T -> real, k: real)
    ensures WithKey(SortDesc(xs, key), key, k) == WithKey(xs, key, k)
  {
    if |xs| > 0 {
      SortDescStable(xs[1..], key, k);
      InsertWithKey(xs[0], SortDesc(xs[1..], key), key, k);
    }
  }

  /** A list already sorted descending is left as it is. */
  lemma {:induction false} SortDescSorted<T>(xs: seq<T>, key: T -> real)
    requires SortedDesc(xs, key)
    ensures SortDesc(xs, key) == xs
  {
    if |xs| > 0 {
      SortDescSorted(xs[1..], key);
      var s := xs[1..];
      assert |s| == 0 || key(s[0]) <= key(xs[0]);
    }
  }

  lemma AppendAssoc<T>(a: seq<T>, b: seq<T>, c: seq<T>)
    ensures a + b + c == a + (b + c)
  {
  }

  /** `stream().map(f)`, built from the front as a loop appends. */
  function Map<A, B>(xs: seq<A>, f: A -> B): (r: seq<B>)
    ensures |r| == |xs|
    ensures forall i :: 0 <= i < |xs| ==> r[i] == f(xs[i])
  {
    if |xs| == 0 then [] else Map(xs[..|xs| - 1], f) + [f(xs[|xs| - 1])]
  }

  /** One more element mapped at the end. */
  lemma MapSnoc<A, B>(xs: seq<A>, f: A -> B, i: nat)
    requires i < |xs|
    ensures Map(xs[..i + 1], f) == Map(xs[..i], f) + [f(xs[i])]
  {
    assert xs[..i + 1][..i] == xs[..i];
  }

  /** `limit(n)`: the first `n` elements, or all of them. */
  function Take<T>(xs: seq<T>, n: nat): (r: seq<T>)
    ensures |r| == if |xs| < n then |xs| else n
    ensures r <= xs
  {
    if |xs| <= n then xs else xs[..n]
  }
}
