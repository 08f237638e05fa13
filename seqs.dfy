/** `Array.prototype.filter` and the facts about it that the handlers rely on. */
module Seqs {
  import opened Wrappers

  /** `xs.filter(p)`: the elements that satisfy `p`, in their original order. */
  function Filter<T(!new)>(xs: seq<T>, p: T -> bool): (r: seq<T>)
    ensures |r| <= |xs|
    ensures forall x :: x in r <==> x in xs && p(x)
    decreases |xs|
  {
    if |xs| == 0 then []
    else (if p(xs[0]) then [xs[0]] else []) + Filter(xs[1..], p)
  }

  /** Filtering distributes over concatenation. */
  lemma {:induction false} FilterAppend<T(!new)>(a: seq<T>, b: seq<T>, p: T -> bool)
    ensures Filter(a + b, p) == Filter(a, p) + Filter(b, p)
    decreases |a|
  {
    if |a| == 0 {
      assert a + b == b;
    } else {
      var head := if p(a[0]) then [a[0]] else [];
      assert (a + b)[0] == a[0];
      assert (a + b)[1..] == a[1..] + b;
      calc {
        Filter(a + b, p);
        head + Filter(a[1..] + b, p);
        { FilterAppend(a[1..], b, p); }
        head + (Filter(a[1..], p) + Filter(b, p));
        (head + Filter(a[1..], p)) + Filter(b, p);
      }
    }
  }

  /** Filtering twice does not depend on the order of the two tests. */
  lemma {:induction false} FilterCommutes<T(!new)>(xs: seq<T>, p: T -> bool, q: T -> bool)
    ensures Filter(Filter(xs, p), q) == Filter(Filter(xs, q), p)
    decreases |xs|
  {
    if |xs| > 0 {
      FilterCommutes(xs[1..], p, q);
      var h := if p(xs[0]) then [xs[0]] else [];
      FilterAppend(h, Filter(xs[1..], p), q);
      var g := if q(xs[0]) then [xs[0]] else [];
      FilterAppend(g, Filter(xs[1..], q), p);
    }
  }

  /** A filter that keeps everything is the identity. */
  lemma {:induction false} FilterKeepsAll<T(!new)>(xs: seq<T>, p: T -> bool)
    requires forall i :: 0 <= i < |xs| ==> p(xs[i])
    ensures Filter(xs, p) == xs
    decreases |xs|
  {
    if |xs| > 0 {
      FilterKeepsAll(xs[1..], p);
      assert xs == [xs[0]] + xs[1..];
    }
  }

  /** The filtered sequence is a subsequence: it keeps the relative order of what it keeps. */
  ghost predicate IsSubsequence<T>(small: seq<T>, big: seq<T>)
    decreases |big|
  {
    if |small| == 0 then true
    else if |big| == 0 then false
    else if small[0] == big[0] then IsSubsequence(small[1..], big[1..])
    else IsSubsequence(small, big[1..])
  }

  lemma {:induction false} FilterIsSubsequence<T(!new)>(xs: seq<T>, p: T -> bool)
    ensures IsSubsequence(Filter(xs, p), xs)
    decreases |xs|
  {
    if |xs| > 0 {
      FilterIsSubsequence(xs[1..], p);
      var r := Filter(xs, p);
      if p(xs[0]) {
        assert r == [xs[0]] + Filter(xs[1..], p);
        assert r[1..] == Filter(xs[1..], p);
      } else {
        assert r == Filter(xs[1..], p);
        SubsequenceOfTail(r, xs);
      }
    }
  }

  /** A subsequence of the tail is a subsequence of the whole. */
  lemma {:induction false} SubsequenceOfTail<T>(small: seq<T>, big: seq<T>)
    requires |big| > 0 && IsSubsequence(small, big[1..])
    ensures IsSubsequence(small, big)
    decreases |big|, |small|
  {
    if |small| > 0 && small[0] == big[0] {
      SubsequenceDropHead(small, big[1..]);
    }
  }

  /** Dropping the first element of a non-empty subsequence keeps it a subsequence. */
  lemma {:induction false} SubsequenceDropHead<T>(small: seq<T>, big: seq<T>)
    requires |small| > 0 && IsSubsequence(small, big)
    ensures IsSubsequence(small[1..], big)
    decreases |big|, |small|
  {
    if small[0] == big[0] {
      if |small| > 1 {
        SubsequenceOfTail(small[1..], big);
      }
    } else {
      SubsequenceDropHead(small, big[1..]);
      if |small| > 1 {
        SubsequenceOfTail(small[1..], big);
      }
    }
  }

  /** The elements of `xs` have pairwise distinct keys. */
  ghost predicate UniqueBy<T, K>(xs: seq<T>, key: T -> K)
  {
    forall i, j :: 0 <= i < |xs| && 0 <= j < |xs| && key(xs[i]) == key(xs[j]) ==> i == j
  }

  /** Filtering keeps keys distinct. */
  lemma {:induction false} FilterKeepsUnique<T(!new), K>(xs: seq<T>, p: T -> bool, key: T -> K)
    requires UniqueBy(xs, key)
    ensures UniqueBy(Filter(xs, p), key)
    decreases |xs|
  {
    if |xs| > 0 {
      assert UniqueBy(xs[1..], key) by {
        forall i, j | 0 <= i < |xs[1..]| && 0 <= j < |xs[1..]| && key(xs[1..][i]) == key(xs[1..][j])
          ensures i == j
        {
          assert xs[1..][i] == xs[i + 1] && xs[1..][j] == xs[j + 1];
        }
      }
      FilterKeepsUnique(xs[1..], p, key);
      var tail := Filter(xs[1..], p);
      if p(xs[0]) {
        var r := [xs[0]] + tail;
        forall j | 0 < j < |r| ensures key(r[j]) != key(xs[0]) {
          assert r[j] == tail[j - 1];
          assert tail[j - 1] in xs[1..];
          var k :| 0 <= k < |xs[1..]| && xs[1..][k] == tail[j - 1];
          assert xs[k + 1] == tail[j - 1];
        }
        forall i, j | 0 <= i < |r| && 0 <= j < |r| && key(r[i]) == key(r[j]) ensures i == j {
          if i > 0 && j > 0 {
            assert r[i] == tail[i - 1] && r[j] == tail[j - 1];
          }
        }
      }
    }
  }

  /** The test "the key of x is not k", as `filter((x) => key(x) !== k)` writes it. */
  function KeyIsNot<T, K(==)>(key: T -> K, k: K): T -> bool
  {
    (x: T) => key(x) != k
  }

  /** Filtering out a key that occurs exactly once removes exactly one element. */
  lemma {:induction false} FilterOutUniqueKey<T(!new), K>(xs: seq<T>, key: T -> K, k: K)
    requires UniqueBy(xs, key)
    requires exists i :: 0 <= i < |xs| && key(xs[i]) == k
    ensures |Filter(xs, KeyIsNot(key, k))| == |xs| - 1
    decreases |xs|
  {
    assert UniqueBy(xs[1..], key) by {
      forall i, j | 0 <= i < |xs[1..]| && 0 <= j < |xs[1..]| && key(xs[1..][i]) == key(xs[1..][j])
        ensures i == j
      {
        assert xs[1..][i] == xs[i + 1] && xs[1..][j] == xs[j + 1];
      }
    }
    if key(xs[0]) == k {
      forall i | 0 <= i < |xs[1..]| ensures KeyIsNot(key, k)(xs[1..][i]) {
        assert xs[1..][i] == xs[i + 1];
      }
      FilterKeepsAll(xs[1..], KeyIsNot(key, k));
    } else {
      var i :| 0 <= i < |xs| && key(xs[i]) == k;
      assert xs[1..][i - 1] == xs[i];
      FilterOutUniqueKey(xs[1..], key, k);
    }
  }

  /** Filtering a suffix: the element at its head, if kept, then the filtered rest. */
  lemma FilterSuffix<T(!new)>(xs: seq<T>, p: T -> bool, k: nat)
    requires k < |xs|
    ensures Filter(xs[k..], p) == (if p(xs[k]) then [xs[k]] else []) + Filter(xs[k + 1..], p)
  {
    assert xs[k..][1..] == xs[k + 1..];
  }

  /** A filter that keeps nothing yields the empty sequence. */
  lemma {:induction false} FilterKeepsNone<T(!new)>(xs: seq<T>, p: T -> bool)
    requires forall i :: 0 <= i < |xs| ==> !p(xs[i])
    ensures Filter(xs, p) == []
    decreases |xs|
  {
    if |xs| > 0 {
      FilterKeepsNone(xs[1..], p);
    }
  }

  /** Appending an element whose key is new keeps keys distinct. */
  lemma AppendFreshKeepsUnique<T, K>(xs: seq<T>, x: T, key: T -> K)
    requires UniqueBy(xs, key)
    requires forall i :: 0 <= i < |xs| ==> key(xs[i]) != key(x)
    ensures UniqueBy(xs + [x], key)
  {
    var ys := xs + [x];
    forall i, j | 0 <= i < |ys| && 0 <= j < |ys| && key(ys[i]) == key(ys[j])
      ensures i == j
    {
      if i < |xs| && j < |xs| {
        assert ys[i] == xs[i] && ys[j] == xs[j];
      }
    }
  }

  /** The index of the first element that satisfies `p` (`findOne` / `find` in table order). */
  function FirstIndex<T>(xs: seq<T>, p: T -> bool): (k: Option<nat>)
    ensures k.Some? ==> k.value < |xs| && p(xs[k.value])
    ensures k.Some? ==> forall j :: 0 <= j < k.value ==> !p(xs[j])
    ensures k.None? <==> forall j :: 0 <= j < |xs| ==> !p(xs[j])
    decreases |xs|
  {
    if |xs| == 0 then None
    else if p(xs[0]) then Some(0)
    else match FirstIndex(xs[1..], p)
      case None => None
      case Some(k) => Some(k + 1)
  }
}
