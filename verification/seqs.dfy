/** Array operations of the JavaScript runtime: `filter`, counting, and `[...new Set(xs)]`. */
module Seqs {

  /** `a` is obtained from `b` by deleting elements, keeping the order of the rest. */
  predicate IsSubseq<T(==)>(a: seq<T>, b: seq<T>)
    decreases |b|
  {
    |a| == 0 || (|b| > 0 && ((a[0] == b[0] && IsSubseq(a[1..], b[1..])) || IsSubseq(a, b[1..])))
  }

  /** `s.filter(f)`: the order-preserving subsequence of the elements satisfying `f`. */
  function Filter<T(==)>(f: T -> bool, s: seq<T>): (r: seq<T>)
    ensures |r| <= |s|
    ensures IsSubseq(r, s)
    ensures forall i :: 0 <= i < |r| ==> r[i] in s && f(r[i])
    ensures forall i :: 0 <= i < |s| && f(s[i]) ==> s[i] in r
    decreases |s|
  {
    if |s| == 0 then []
    else if f(s[0]) then [s[0]] + Filter(f, s[1..])
    else Filter(f, s[1..])
  }

  /** `s.map(f)`. */
  function Map<T, U>(f: T -> U, s: seq<T>): (r: seq<U>)
    ensures |r| == |s| && forall i :: 0 <= i < |s| ==> r[i] == f(s[i])
  {
    seq(|s|, i requires 0 <= i < |s| => f(s[i]))
  }

  /** `s.map(y => f(y) ? x : y)`: every element satisfying `f` is replaced by `x`. */
  function ReplaceWhere<T>(f: T -> bool, s: seq<T>, x: T): (r: seq<T>)
    ensures |r| == |s|
    ensures forall i :: 0 <= i < |s| ==> r[i] == (if f(s[i]) then x else s[i])
  {
    seq(|s|, i requires 0 <= i < |s| => if f(s[i]) then x else s[i])
  }

  /** `s.filter(f).length`. */
  function CountWhere<T>(f: T -> bool, s: seq<T>): (n: nat)
    ensures n <= |s|
    decreases |s|
  {
    if |s| == 0 then 0 else (if f(s[0]) then 1 else 0) + CountWhere(f, s[1..])
  }

  /** A filter keeps exactly as many elements as satisfy its predicate. */
  lemma {:induction false} FilterLength<T>(f: T -> bool, s: seq<T>)
    ensures |Filter(f, s)| == CountWhere(f, s)
    decreases |s|
  {
    if |s| > 0 {
      FilterLength(f, s[1..]);
    }
  }

  /** A filter whose predicate every element satisfies returns its input. */
  lemma {:induction false} FilterKeepsAll<T>(f: T -> bool, s: seq<T>)
    requires forall i :: 0 <= i < |s| ==> f(s[i])
    ensures Filter(f, s) == s
    decreases |s|
  {
    if |s| > 0 {
      FilterKeepsAll(f, s[1..]);
      assert [s[0]] + s[1..] == s;
    }
  }

  /** Counting `f` and counting its negation partition the sequence. */
  lemma {:induction false} CountComplement<T>(f: T -> bool, g: T -> bool, s: seq<T>)
    requires forall i :: 0 <= i < |s| ==> (g(s[i]) <==> !f(s[i]))
    ensures CountWhere(f, s) + CountWhere(g, s) == |s|
    decreases |s|
  {
    if |s| > 0 {
      CountComplement(f, g, s[1..]);
    }
  }

  predicate NoDuplicates<T(==)>(s: seq<T>) {
    forall i, j :: 0 <= i < j < |s| ==> s[i] != s[j]
  }

  /**
   * `[...new Set(xs)]`: each distinct element once, in the order of its
   * first occurrence (a set iterates in insertion order).
   */
  function Dedup<T(==)>(xs: seq<T>): (r: seq<T>)
    ensures NoDuplicates(r)
    ensures forall i :: 0 <= i < |r| ==> r[i] in xs
    ensures forall i :: 0 <= i < |xs| ==> xs[i] in r
    ensures |r| <= |xs|
    decreases |xs|
  {
    if |xs| == 0 then []
    else
      var init := Dedup(xs[..|xs| - 1]);
      var last := xs[|xs| - 1];
      assert xs == xs[..|xs| - 1] + [last];
      if last in init then init else init + [last]
  }

  /** Deduplicating a prefix gives a prefix of the deduplicated whole: first-occurrence order is kept. */
  lemma {:induction false} DedupPrefix<T>(xs: seq<T>, n: nat)
    requires n <= |xs|
    ensures Dedup(xs[..n]) <= Dedup(xs)
    decreases |xs| - n
  {
    if n < |xs| {
      DedupPrefix(xs, n + 1);
      DedupExtends(xs[..n + 1]);
      assert xs[..n + 1][..n] == xs[..n];
    } else {
      assert xs[..n] == xs;
    }
  }

  /** Appending an element only appends to the deduplication. */
  lemma DedupExtends<T>(xs: seq<T>)
    requires |xs| > 0
    ensures Dedup(xs[..|xs| - 1]) <= Dedup(xs)
  {
  }

  /** The position of the first occurrence of `x` in `xs`. */
  function IndexOf<T(==)>(xs: seq<T>, x: T): (r: nat)
    requires x in xs
    ensures r < |xs| && xs[r] == x
    ensures forall k :: 0 <= k < r ==> xs[k] != x
    decreases |xs|
  {
    if xs[0] == x then 0 else 1 + IndexOf(xs[1..], x)
  }

  /** The first occurrence of an element of a prefix is found in the prefix. */
  lemma IndexOfPrefix<T>(xs: seq<T>, m: nat, x: T)
    requires m <= |xs| && x in xs[..m]
    ensures IndexOf(xs[..m], x) == IndexOf(xs, x)
  {
    var a, b := IndexOf(xs[..m], x), IndexOf(xs, x);
    assert xs[a] == x;
    assert b <= a;
    assert xs[..m][b] == x;
  }

  /**
   * Dedup lists elements in the order of their first occurrences: an element
   * placed earlier in the result first occurs earlier in the input.
   */
  lemma {:induction false} DedupOrder<T>(xs: seq<T>, i: nat, j: nat)
    requires i < j < |Dedup(xs)|
    ensures IndexOf(xs, Dedup(xs)[i]) < IndexOf(xs, Dedup(xs)[j])
    decreases |xs|
  {
    var n := |xs|;
    var init := xs[..n - 1];
    var di := Dedup(init);
    var last := xs[n - 1];
    assert xs == init + [last];
    var d := Dedup(xs);
    assert d[i] in init by {
      if last in di {
        assert d == di;
      } else {
        assert d == di + [last];
      }
      assert d[i] == di[i];
    }
    IndexOfPrefix(xs, n - 1, d[i]);
    if j < |di| {
      assert d[j] == di[j] && d[i] == di[i];
      DedupOrder(init, i, j);
      IndexOfPrefix(xs, n - 1, d[j]);
    } else {
      assert last !in di && d == di + [last] && d[j] == last;
      assert last !in init;
      assert IndexOf(xs, last) == n - 1;
    }
  }

  /** A sequence that already has no duplicates is its own deduplication. */
  lemma {:induction false} DedupDistinct<T>(xs: seq<T>)
    requires NoDuplicates(xs)
    ensures Dedup(xs) == xs
    decreases |xs|
  {
    if |xs| > 0 {
      var init := xs[..|xs| - 1];
      DedupDistinct(init);
      assert xs[|xs| - 1] !in init;
      assert init + [xs[|xs| - 1]] == xs;
    }
  }
}
