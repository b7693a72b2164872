/** The sequence operations the application uses through `Array.prototype`:
    `filter`, summing `reduce`, `slice(0, -1).reverse()`. */
module Seqs {

  /** `s.filter(p)`, defined from the back so that growing a prefix by one
      element unfolds in a single step. */
  function Filter<T>(p: T -> bool, s: seq<T>): (r: seq<T>)
    ensures |r| <= |s|
    ensures forall x :: x in r ==> x in s && p(x)
    ensures forall x :: x in s && p(x) ==> x in r
  {
    if s == [] then []
    else Filter(p, s[..|s| - 1]) + (if p(s[|s| - 1]) then [s[|s| - 1]] else [])
  }

  /** Filtering distributes over concatenation, so it keeps relative order. */
  lemma {:induction false} FilterAppend<T>(p: T -> bool, a: seq<T>, b: seq<T>)
    ensures Filter(p, a + b) == Filter(p, a) + Filter(p, b)
    decreases |b|
  {
    if b == [] {
      assert a + b == a;
    } else {
      var b' := b[..|b| - 1];
      assert (a + b)[..|a + b| - 1] == a + b';
      FilterAppend(p, a, b');
    }
  }

  /** Filtering one more element. */
  lemma FilterSnoc<T>(p: T -> bool, s: seq<T>, x: T)
    ensures Filter(p, s + [x]) == Filter(p, s) + (if p(x) then [x] else [])
  {
    assert (s + [x])[..|s|] == s;
  }

  /** Filtering twice by the same predicate is filtering once. */
  lemma {:induction false} FilterIdempotent<T>(p: T -> bool, s: seq<T>)
    ensures Filter(p, Filter(p, s)) == Filter(p, s)
  {
    if s != [] {
      var s' := s[..|s| - 1];
      var x := s[|s| - 1];
      assert s == s' + [x];
      FilterIdempotent(p, s');
      FilterAppend(p, Filter(p, s'), if p(x) then [x] else []);
    }
  }

  /** Two predicates that agree on the elements of `s` filter it alike. */
  lemma {:induction false} FilterExt<T>(p: T -> bool, q: T -> bool, s: seq<T>)
    requires forall i :: 0 <= i < |s| ==> p(s[i]) == q(s[i])
    ensures Filter(p, s) == Filter(q, s)
  {
    if s != [] {
      FilterExt(p, q, s[..|s| - 1]);
    }
  }

  /** The elements `p` keeps and the elements its negation `q` keeps
      together make up `s`. */
  lemma {:induction false} FilterSplit<T>(p: T -> bool, q: T -> bool, s: seq<T>)
    requires forall i :: 0 <= i < |s| ==> q(s[i]) == !p(s[i])
    ensures multiset(Filter(p, s)) + multiset(Filter(q, s)) == multiset(s)
    ensures |Filter(p, s)| + |Filter(q, s)| == |s|
  {
    if s != [] {
      var s' := s[..|s| - 1];
      assert s == s' + [s[|s| - 1]];
      FilterSplit(p, q, s');
    }
  }

  /** `s.reduce((a, x) => a + x, 0)`. */
  function Sum(s: seq<int>): int
  {
    if s == [] then 0 else Sum(s[..|s| - 1]) + s[|s| - 1]
  }

  lemma {:induction false} SumAppend(a: seq<int>, b: seq<int>)
    ensures Sum(a + b) == Sum(a) + Sum(b)
    decreases |b|
  {
    if b == [] {
      assert a + b == a;
    } else {
      var b' := b[..|b| - 1];
      assert (a + b)[..|a + b| - 1] == a + b';
      SumAppend(a, b');
    }
  }

  /** Adding one at a single position adds one to the sum. */
  lemma {:induction false} SumIncrement(s: seq<int>, i: nat)
    requires i < |s|
    ensures Sum(s[i := s[i] + 1]) == Sum(s) + 1
  {
    var t := s[i := s[i] + 1];
    if i == |s| - 1 {
      assert t[..|t| - 1] == s[..|s| - 1];
    } else {
      SumIncrement(s[..|s| - 1], i);
      assert t[..|t| - 1] == s[..|s| - 1][i := s[i] + 1];
    }
  }

  /** Every element bounded below by `lo` and above by `hi` bounds the sum
      by `lo` and `hi` times the length. */
  lemma {:induction false} SumBounds(s: seq<int>, lo: int, hi: int)
    requires forall i :: 0 <= i < |s| ==> lo <= s[i] <= hi
    ensures lo * |s| <= Sum(s) <= hi * |s|
  {
    if s != [] {
      SumBounds(s[..|s| - 1], lo, hi);
    }
  }

  /** `s.slice().reverse()`. */
  function Reverse<T>(s: seq<T>): (r: seq<T>)
    ensures |r| == |s|
    ensures forall i :: 0 <= i < |s| ==> r[i] == s[|s| - 1 - i]
  {
    if s == [] then [] else [s[|s| - 1]] + Reverse(s[..|s| - 1])
  }

  /** Elements whose key is `k`. */
  function KeyIs<T>(key: T -> int, k: int): T -> bool {
    x => key(x) == k
  }

  /** Elements whose key is a bucket index below `n`. */
  function KeyBelow<T>(key: T -> int, n: nat): T -> bool {
    x => 0 <= key(x) < n
  }

  /** An `n`-bucket histogram of `s` by `key`; elements whose key is outside
      `[0, n)` are counted nowhere. */
  function Buckets<T>(key: T -> int, n: nat, s: seq<T>): (b: seq<nat>)
    ensures |b| == n
  {
    seq(n, k requires 0 <= k < n => |Filter(KeyIs(key, k), s)|)
  }

  /** One more element bumps exactly its own bucket, or none. */
  lemma BucketsSnoc<T>(key: T -> int, n: nat, s: seq<T>, x: T)
    ensures var b := Buckets(key, n, s);
      Buckets(key, n, s + [x]) == if 0 <= key(x) < n then b[key(x) := b[key(x)] + 1] else b
  {
    forall k | 0 <= k < n
      ensures Buckets(key, n, s + [x])[k] == Buckets(key, n, s)[k] + (if key(x) == k then 1 else 0)
    {
      FilterSnoc(KeyIs(key, k), s, x);
    }
  }

  /** The buckets together hold every element whose key is in range, once. */
  lemma {:induction false} BucketsSum<T>(key: T -> int, n: nat, s: seq<T>)
    ensures Sum(Buckets(key, n, s)) == |Filter(KeyBelow(key, n), s)|
  {
    if s == [] {
      assert Buckets(key, n, s) == seq(n, k => 0);
      ZerosSum(n);
    } else {
      var s', x := s[..|s| - 1], s[|s| - 1];
      assert s == s' + [x];
      BucketsSum(key, n, s');
      BucketsSnoc(key, n, s', x);
      FilterSnoc(KeyBelow(key, n), s', x);
      if 0 <= key(x) < n {
        SumIncrement(Buckets(key, n, s'), key(x));
      }
    }
  }

  lemma {:induction false} ZerosSum(n: nat)
    ensures Sum(seq(n, k => 0)) == 0
  {
    if n > 0 {
      assert seq(n, k => 0)[..n - 1] == seq(n - 1, k => 0);
      ZerosSum(n - 1);
    }
  }
}
