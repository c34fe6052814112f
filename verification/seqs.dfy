/** Sequence operations the source takes from JavaScript arrays: `filter`,
    `map`, `slice(-n)`, the default `sort()` on strings and `reverse()`. */
module Seqs {
  import opened Wrappers

  /** `xs.filter(p)`: the elements satisfying `p`, in their original order. */
  function Filter<T>(xs: seq<T>, p: T -> bool): (r: seq<T>)
    ensures |r| <= |xs|
    ensures forall k | 0 <= k < |r| :: p(r[k])
    ensures forall k | 0 <= k < |xs| :: p(xs[k]) ==> xs[k] in r
    ensures multiset(r) <= multiset(xs)
    decreases |xs|
  {
    if |xs| == 0 then []
    else
      assert xs == [xs[0]] + xs[1..];
      (if p(xs[0]) then [xs[0]] else []) + Filter(xs[1..], p)
  }

  /** Every element a filter keeps comes from its input. */
  lemma FilterFrom<T>(xs: seq<T>, p: T -> bool)
    ensures forall k | 0 <= k < |Filter(xs, p)| :: Filter(xs, p)[k] in xs
  {
    var r := Filter(xs, p);
    forall k | 0 <= k < |r| ensures r[k] in xs {
      assert r[k] in multiset(r);
    }
  }

  /** Filtering distributes over concatenation, so relative order survives. */
  lemma {:induction false} FilterAppend<T>(a: seq<T>, b: seq<T>, p: T -> bool)
    ensures Filter(a + b, p) == Filter(a, p) + Filter(b, p)
    decreases |a|
  {
    if |a| > 0 {
      assert (a + b)[1..] == a[1..] + b;
      FilterAppend(a[1..], b, p);
    } else {
      assert a + b == b;
    }
  }

  /** A filter keeps everything exactly when every element passes. */
  lemma {:induction false} FilterKeepsAll<T>(xs: seq<T>, p: T -> bool)
    ensures Filter(xs, p) == xs <==> forall k | 0 <= k < |xs| :: p(xs[k])
  {
    if forall k | 0 <= k < |xs| :: p(xs[k]) {
      FilterAllPass(xs, p);
    }
  }

  lemma {:induction false} FilterAllPass<T>(xs: seq<T>, p: T -> bool)
    requires forall k | 0 <= k < |xs| :: p(xs[k])
    ensures Filter(xs, p) == xs
    decreases |xs|
  {
    if |xs| > 0 {
      AllPassTail(xs, p);
      FilterAllPass(xs[1..], p);
      FilterCons(xs, p);
      assert [xs[0]] + xs[1..] == xs;
    }
  }

  lemma AllPassTail<T>(xs: seq<T>, p: T -> bool)
    requires |xs| > 0 && forall k | 0 <= k < |xs| :: p(xs[k])
    ensures p(xs[0]) && forall k | 0 <= k < |xs[1..]| :: p(xs[1..][k])
  {
    assert forall k | 0 <= k < |xs[1..]| :: xs[1..][k] == xs[k + 1];
  }

  /** One step of the filter. */
  lemma FilterCons<T>(xs: seq<T>, p: T -> bool)
    requires |xs| > 0
    ensures Filter(xs, p) == (if p(xs[0]) then [xs[0]] else []) + Filter(xs[1..], p)
  {
  }

  /** `xs.map(f)`. */
  function Map<T, U>(xs: seq<T>, f: T -> U): (r: seq<U>)
    ensures |r| == |xs|
    ensures forall k | 0 <= k < |xs| :: r[k] == f(xs[k])
  {
    seq(|xs|, k requires 0 <= k < |xs| => f(xs[k]))
  }

  /** `xs.slice(-n)` for `n > 0`: the last `n` elements, or all of them. */
  function TakeLast<T>(xs: seq<T>, n: nat): (r: seq<T>)
    ensures |r| == if |xs| < n then |xs| else n
    ensures r == xs[|xs| - |r|..]
  {
    if |xs| <= n then xs else xs[|xs| - n..]
  }

  /** Concatenation of a sequence of strings (`parts.join('')`). */
  function Concat(parts: seq<string>): string
    decreases |parts|
  {
    if |parts| == 0 then "" else parts[0] + Concat(parts[1..])
  }

  /** The concatenation of a prefix one longer. */
  lemma ConcatSnoc(parts: seq<string>, i: nat)
    requires i < |parts|
    ensures Concat(parts[..i + 1]) == Concat(parts[..i]) + parts[i]
  {
    assert parts[..i + 1] == parts[..i] + [parts[i]];
    ConcatAppend(parts[..i], [parts[i]]);
    assert Concat([parts[i]]) == parts[i] + Concat([]);
  }

  lemma {:induction false} ConcatAppend(a: seq<string>, b: seq<string>)
    ensures Concat(a + b) == Concat(a) + Concat(b)
    decreases |a|
  {
    if |a| > 0 {
      assert (a + b)[1..] == a[1..] + b;
      ConcatAppend(a[1..], b);
    } else {
      assert a + b == b;
    }
  }

  /** String order of JavaScript's default `sort()`: lexicographic by character. */
  predicate LexLe(a: string, b: string)
    decreases |a|
  {
    |a| == 0 || (|b| > 0 && (a[0] < b[0] || (a[0] == b[0] && LexLe(a[1..], b[1..]))))
  }

  lemma {:induction false} LexLeTotal(a: string, b: string)
    ensures LexLe(a, b) || LexLe(b, a)
    decreases |a|
  {
    if |a| > 0 && |b| > 0 && a[0] == b[0] {
      LexLeTotal(a[1..], b[1..]);
    }
  }

  lemma {:induction false} LexLeTransitive(a: string, b: string, c: string)
    requires LexLe(a, b) && LexLe(b, c)
    ensures LexLe(a, c)
    decreases |a|
  {
    if |a| > 0 && a[0] == b[0] && b[0] == c[0] {
      LexLeTransitive(a[1..], b[1..], c[1..]);
    }
  }

  predicate SortedAscending(xs: seq<string>) {
    forall i, j | 0 <= i < j < |xs| :: LexLe(xs[i], xs[j])
  }

  predicate SortedDescending(xs: seq<string>) {
    forall i, j | 0 <= i < j < |xs| :: LexLe(xs[j], xs[i])
  }

  /** Insertion of one string into an ascending sequence. */
  function Insert(x: string, xs: seq<string>): (r: seq<string>)
    requires SortedAscending(xs)
    ensures SortedAscending(r)
    ensures multiset(r) == multiset(xs) + multiset{x}
    decreases |xs|
  {
    if |xs| == 0 then [x]
    else if LexLe(x, xs[0]) then
      assert forall j | 0 < j < |xs| :: LexLe(x, xs[j]) by {
        forall j | 0 < j < |xs| ensures LexLe(x, xs[j]) {
          LexLeTransitive(x, xs[0], xs[j]);
        }
      }
      [x] + xs
    else
      var tail := Insert(x, xs[1..]);
      assert xs == [xs[0]] + xs[1..];
      LexLeTotal(x, xs[0]);
      assert forall y | y in tail :: LexLe(xs[0], y) by {
        forall y | y in tail ensures LexLe(xs[0], y) {
          assert y in multiset(tail);
          if y != x {
            assert y in multiset(xs[1..]);
            var j :| 0 <= j < |xs[1..]| && xs[1..][j] == y;
            assert xs[j + 1] == y;
          }
        }
      }
      [xs[0]] + tail
  }

  /** The default `sort()`: an ascending permutation of its input. */
  function Sort(xs: seq<string>): (r: seq<string>)
    ensures SortedAscending(r)
    ensures multiset(r) == multiset(xs)
    decreases |xs|
  {
    if |xs| == 0 then []
    else
      assert xs == [xs[0]] + xs[1..];
      Insert(xs[0], Sort(xs[1..]))
  }

  /** `xs.reverse()`. */
  function Reverse<T>(xs: seq<T>): (r: seq<T>)
    ensures |r| == |xs|
    ensures forall i | 0 <= i < |xs| :: r[i] == xs[|xs| - 1 - i]
    ensures multiset(r) == multiset(xs)
    decreases |xs|
  {
    if |xs| == 0 then []
    else
      assert xs == xs[..|xs| - 1] + [xs[|xs| - 1]];
      [xs[|xs| - 1]] + Reverse(xs[..|xs| - 1])
  }

  /** `xs.sort().reverse()`: a descending permutation of its input. */
  function SortDescending(xs: seq<string>): (r: seq<string>)
    ensures SortedDescending(r)
    ensures multiset(r) == multiset(xs)
  {
    var s := Sort(xs);
    var r := Reverse(s);
    assert forall i, j | 0 <= i < j < |r| :: LexLe(r[j], r[i]) by {
      forall i, j | 0 <= i < j < |r| ensures LexLe(r[j], r[i]) {
        var a, b := |s| - 1 - j, |s| - 1 - i;
        assert 0 <= a < b < |s|;
        assert LexLe(s[a], s[b]);
      }
    }
    r
  }

  /** Two sequences with the same elements, counted, hold the same values. */
  lemma SameMultisetSameMembers<T>(a: seq<T>, b: seq<T>)
    requires multiset(a) == multiset(b)
    ensures forall x :: x in a <==> x in b
  {
    forall x ensures x in a <==> x in b {
      assert x in a <==> x in multiset(a);
      assert x in b <==> x in multiset(b);
    }
  }

  /** `xs.indexOf(x)`: the first position holding `x`, `None` for -1. */
  function IndexOf<T(==)>(xs: seq<T>, x: T): (r: Option<nat>)
    ensures r.None? <==> x !in xs
    ensures r.Some? ==> r.value < |xs| && xs[r.value] == x
    ensures r.Some? ==> forall k | 0 <= k < r.value :: xs[k] != x
    decreases |xs|
  {
    if |xs| == 0 then None
    else if xs[0] == x then Some(0)
    else match IndexOf(xs[1..], x)
      case None => None
      case Some(i) => Some(i + 1)
  }
}
