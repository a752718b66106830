/** The array operations the pages use (`filter`, `includes`, `new Set`), on Dafny sequences. */
module Seqs {

  /** `r` is obtained from `s` by deleting elements, so the kept elements keep their relative order. */
  ghost predicate IsSubsequence<T>(r: seq<T>, s: seq<T>)
    decreases |s|
  {
    r == [] || (s != [] && ((r[0] == s[0] && IsSubsequence(r[1..], s[1..])) || IsSubsequence(r, s[1..])))
  }

  /** No element occurs twice. */
  predicate NoDups<T(==)>(s: seq<T>) {
    forall i, j :: 0 <= i < j < |s| ==> s[i] != s[j]
  }

  /** JavaScript's `Array.prototype.filter`: the elements satisfying `p`, in their original order. */
  function Filter<T(!new)>(s: seq<T>, p: T -> bool): (r: seq<T>)
    ensures |r| <= |s|
    ensures forall i :: 0 <= i < |r| ==> p(r[i])
    ensures forall x :: x in r <==> x in s && p(x)
  {
    if s == [] then []
    else
      assert s == [s[0]] + s[1..];
      if p(s[0]) then [s[0]] + Filter(s[1..], p) else Filter(s[1..], p)
  }

  /**
   * What `Filter` keeps: each element satisfying `p` exactly as often as in `s`, in the order of
   * `s`.
   */
  lemma {:induction false} FilterKeeps<T(!new)>(s: seq<T>, p: T -> bool)
    ensures forall x :: multiset(Filter(s, p))[x] == if p(x) then multiset(s)[x] else 0
    ensures IsSubsequence(Filter(s, p), s)
  {
    if s != [] {
      FilterKeeps(s[1..], p);
      assert s == [s[0]] + s[1..];
      var rest := Filter(s[1..], p);
      if p(s[0]) {
        ConsTail(s[0], rest);
        assert IsSubsequence(Filter(s, p), s) by {
          assert Filter(s, p) == [s[0]] + rest;
        }
      }
    }
  }

  /** `s` with every occurrence of `x` removed (`s.filter(a => a !== x)`). */
  function Without<T(==,!new)>(s: seq<T>, x: T): (r: seq<T>)
    ensures x !in r
  {
    Filter(s, a => a != x)
  }

  /**
   * What `Without` keeps: every other element exactly as often as in `s`, in the order of `s`.
   */
  lemma WithoutKeeps<T(!new)>(s: seq<T>, x: T)
    ensures forall y :: y != x ==> multiset(Without(s, x))[y] == multiset(s)[y]
    ensures forall y :: y != x ==> (y in Without(s, x) <==> y in s)
    ensures IsSubsequence(Without(s, x), s)
  {
    FilterKeeps(s, a => a != x);
  }

  /** The tail of `[x] + r` is `r`. */
  lemma ConsTail<T>(x: T, r: seq<T>)
    ensures ([x] + r)[0] == x && ([x] + r)[1..] == r
  {
  }

  /** Concatenation is associative. */
  lemma ConcatAssoc<T>(a: seq<T>, b: seq<T>, c: seq<T>)
    ensures a + (b + c) == (a + b) + c
  {
  }

  lemma {:induction false} SubsequenceRefl<T>(s: seq<T>)
    ensures IsSubsequence(s, s)
  {
    if s != [] {
      SubsequenceRefl(s[1..]);
    }
  }

  lemma {:induction false} SubsequenceTrans<T>(a: seq<T>, b: seq<T>, c: seq<T>)
    requires IsSubsequence(a, b) && IsSubsequence(b, c)
    ensures IsSubsequence(a, c)
    decreases |c|
  {
    if a != [] {
      if IsSubsequence(b, c[1..]) {
        SubsequenceTrans(a, b, c[1..]);
      } else if a[0] == b[0] && IsSubsequence(a[1..], b[1..]) {
        SubsequenceTrans(a[1..], b[1..], c[1..]);
      } else {
        SubsequenceTrans(a, b[1..], c[1..]);
      }
    }
  }

  /** Every element of a subsequence is an element of the whole. */
  lemma {:induction false} SubsequenceMembers<T>(r: seq<T>, s: seq<T>)
    requires IsSubsequence(r, s)
    ensures forall x :: x in r ==> x in s
    decreases |s|
  {
    if r != [] {
      if r[0] == s[0] && IsSubsequence(r[1..], s[1..]) {
        SubsequenceMembers(r[1..], s[1..]);
        assert r == [r[0]] + r[1..];
        assert s == [s[0]] + s[1..];
      } else {
        SubsequenceMembers(r, s[1..]);
        assert s == [s[0]] + s[1..];
      }
    }
  }

  /** Filtering with a predicate every element satisfies changes nothing. */
  lemma {:induction false} FilterAll<T(!new)>(s: seq<T>, p: T -> bool)
    requires forall i :: 0 <= i < |s| ==> p(s[i])
    ensures Filter(s, p) == s
  {
    if s != [] {
      FilterAll(s[1..], p);
    }
  }

  /** Filtering distributes over concatenation. */
  lemma {:induction false} FilterAppend<T(!new)>(a: seq<T>, b: seq<T>, p: T -> bool)
    ensures Filter(a + b, p) == Filter(a, p) + Filter(b, p)
  {
    if a == [] {
      assert a + b == b;
    } else {
      assert (a + b)[1..] == a[1..] + b;
      FilterAppend(a[1..], b, p);
    }
  }

  /** Two filters can be applied in either order. */
  lemma {:induction false} FilterCommute<T(!new)>(s: seq<T>, p: T -> bool, q: T -> bool)
    ensures Filter(Filter(s, p), q) == Filter(Filter(s, q), p)
  {
    if s != [] {
      FilterCommute(s[1..], p, q);
    }
  }

  /** Removing an element that is absent changes nothing. */
  lemma WithoutAbsent<T(!new)>(s: seq<T>, x: T)
    requires x !in s
    ensures Without(s, x) == s
  {
    FilterAll(s, a => a != x);
  }

  /** Removing the same element twice is the same as removing it once. */
  lemma WithoutIdempotent<T(!new)>(s: seq<T>, x: T)
    ensures Without(Without(s, x), x) == Without(s, x)
  {
    WithoutAbsent(Without(s, x), x);
  }

  /** Removing an element from `s + [y]`, for `y != x`, keeps `y` at the end. */
  lemma WithoutAppend<T(!new)>(s: seq<T>, y: T, x: T)
    ensures Without(s + [y], x) == Without(s, x) + (if y == x then [] else [y])
  {
    FilterAppend(s, [y], a => a != x);
    assert [y][1..] == [];
  }

  /** A subsequence of a duplicate-free sequence is duplicate-free. */
  lemma {:induction false} SubsequenceNoDups<T>(r: seq<T>, s: seq<T>)
    requires IsSubsequence(r, s) && NoDups(s)
    ensures NoDups(r)
    decreases |s|
  {
    if r != [] {
      assert NoDups(s[1..]);
      if r[0] == s[0] && IsSubsequence(r[1..], s[1..]) {
        SubsequenceNoDups(r[1..], s[1..]);
        SubsequenceMembers(r[1..], s[1..]);
        assert s == [s[0]] + s[1..];
        assert r[0] !in r[1..];
        forall i, j | 0 <= i < j < |r| ensures r[i] != r[j] {
          if i == 0 {
            assert r[j] == r[1..][j - 1];
          } else {
            assert r[i] == r[1..][i - 1] && r[j] == r[1..][j - 1];
          }
        }
      } else {
        SubsequenceNoDups(r, s[1..]);
      }
    }
  }

  /** Index of the first occurrence of `x` in `s`. */
  function FirstIndex<T(==)>(s: seq<T>, x: T): (k: nat)
    requires x in s
    ensures k < |s| && s[k] == x && x !in s[..k]
  {
    if s[0] == x then 0
    else
      var k := 1 + FirstIndex(s[1..], x);
      assert s[..k] == [s[0]] + s[1..][..k - 1];
      k
  }

  /** `r` lists its elements in the order of their first occurrence in `s`. */
  predicate InFirstOccurrenceOrder<T(==)>(r: seq<T>, s: seq<T>) {
    forall i, j :: 0 <= i < j < |r| && r[i] in s && r[j] in s ==> FirstIndex(s, r[i]) < FirstIndex(s, r[j])
  }

  /** Appending an element to `s` leaves the first index of the elements already in `s` alone. */
  lemma FirstIndexSnoc<T>(s: seq<T>, y: T, x: T)
    requires x in s
    ensures FirstIndex(s + [y], x) == FirstIndex(s, x)
  {
    var k := FirstIndex(s, x);
    assert (s + [y])[k] == x;
    assert (s + [y])[..k] == s[..k];
  }

  /** JavaScript's `[...new Set(s)]`: the distinct elements of `s`, each at its first occurrence. */
  function Dedup<T(==,!new)>(s: seq<T>): (r: seq<T>)
    ensures NoDups(r)
    ensures forall x :: x in r <==> x in s
  {
    if s == [] then []
    else
      var init := s[..|s| - 1];
      var last := s[|s| - 1];
      assert s == init + [last];
      var r := Dedup(init);
      if last in r then r else r + [last]
  }

  /** `Dedup` keeps first-occurrence order. */
  lemma {:induction false} DedupOrder<T(!new)>(s: seq<T>)
    ensures InFirstOccurrenceOrder(Dedup(s), s)
  {
    if s != [] {
      var init := s[..|s| - 1];
      var last := s[|s| - 1];
      assert s == init + [last];
      DedupOrder(init);
      var r := Dedup(init);
      forall x | x in init ensures FirstIndex(s, x) == FirstIndex(init, x) {
        FirstIndexSnoc(init, last, x);
      }
      if last !in r {
        var r' := r + [last];
        assert last !in init;
        assert FirstIndex(s, last) == |init| by {
          assert s[|init|] == last && s[..|init|] == init;
        }
        forall i, j | 0 <= i < j < |r'| && r'[i] in s && r'[j] in s
          ensures FirstIndex(s, r'[i]) < FirstIndex(s, r'[j])
        {
          assert r'[i] == r[i] && r[i] in init;
          if j == |r| {
            assert FirstIndex(init, r[i]) < |init|;
          } else {
            assert r'[j] == r[j];
          }
        }
      }
    }
  }

  /** A subsequence of a list in first-occurrence order is itself in first-occurrence order. */
  lemma {:induction false} SubsequenceKeepsOrder<T>(r: seq<T>, d: seq<T>, s: seq<T>)
    requires IsSubsequence(r, d) && InFirstOccurrenceOrder(d, s)
    ensures InFirstOccurrenceOrder(r, s)
    decreases |d|
  {
    if r != [] {
      assert InFirstOccurrenceOrder(d[1..], s) by {
        forall i, j | 0 <= i < j < |d[1..]| && d[1..][i] in s && d[1..][j] in s
          ensures FirstIndex(s, d[1..][i]) < FirstIndex(s, d[1..][j])
        {
          assert d[1..][i] == d[i + 1] && d[1..][j] == d[j + 1];
        }
      }
      if r[0] == d[0] && IsSubsequence(r[1..], d[1..]) {
        SubsequenceKeepsOrder(r[1..], d[1..], s);
        SubsequenceMembers(r[1..], d[1..]);
        forall i, j | 0 <= i < j < |r| && r[i] in s && r[j] in s
          ensures FirstIndex(s, r[i]) < FirstIndex(s, r[j])
        {
          assert r[j] == r[1..][j - 1];
          if i == 0 {
            assert r[j] in d[1..];
            var k :| 0 <= k < |d[1..]| && d[1..][k] == r[j];
            assert d[k + 1] == r[j];
          } else {
            assert r[i] == r[1..][i - 1];
          }
        }
      } else {
        SubsequenceKeepsOrder(r, d[1..], s);
      }
    }
  }

  /** A duplicate-free list of naturals all below `n` has at most `n` elements. */
  lemma {:induction false} BoundedSetSize(ks: set<nat>, n: nat)
    requires forall k :: k in ks ==> k < n
    ensures |ks| <= n
  {
    if n > 0 {
      BoundedSetSize(ks - {n - 1}, n - 1);
    } else {
      assert ks == {};
    }
  }

  /** A duplicate-free sequence has as many distinct elements as it has elements. */
  lemma {:induction false} NoDupsCard<T>(s: seq<T>)
    requires NoDups(s)
    ensures |set x | x in s| == |s|
  {
    if s != [] {
      assert NoDups(s[1..]);
      NoDupsCard(s[1..]);
      assert (set x | x in s) == {s[0]} + (set x | x in s[1..]);
      assert s[0] !in s[1..] by {
        forall i | 0 <= i < |s[1..]| ensures s[1..][i] != s[0] {
          assert s[1..][i] == s[i + 1];
        }
      }
    }
  }

  /** A sequence has at most as many distinct elements as entries, and fewer when one repeats. */
  lemma {:induction false} DistinctCount<T>(s: seq<T>)
    ensures |set x | x in s| <= |s|
    ensures !NoDups(s) ==> |set x | x in s| < |s|
  {
    if s != [] {
      DistinctCount(s[1..]);
      assert (set x | x in s) == {s[0]} + (set x | x in s[1..]);
      if s[0] in s[1..] {
        assert (set x | x in s) == (set x | x in s[1..]);
      } else if !NoDups(s) {
        var i, j :| 0 <= i < j < |s| && s[i] == s[j];
        assert s[1..][i - 1] == s[1..][j - 1];
      }
    }
  }

  /** Filters with predicates that agree on every value give the same result. */
  lemma {:induction false} FilterExt<T(!new)>(s: seq<T>, p: T -> bool, q: T -> bool)
    requires forall x :: p(x) == q(x)
    ensures Filter(s, p) == Filter(s, q)
  {
    if s != [] {
      FilterExt(s[1..], p, q);
    }
  }

  /** Two filters in a row are one filter with the conjunction. */
  lemma {:induction false} FilterFuse<T(!new)>(s: seq<T>, p: T -> bool, q: T -> bool, r: T -> bool)
    requires forall x :: r(x) == (p(x) && q(x))
    ensures Filter(Filter(s, p), q) == Filter(s, r)
  {
    if s != [] {
      FilterFuse(s[1..], p, q, r);
    }
  }

  /** The lists of `ms`, one after the other. */
  function Flatten<T>(ms: seq<seq<T>>): (r: seq<T>)
    ensures ms != [] ==> |r| >= |ms[0]|
  {
    if ms == [] then [] else ms[0] + Flatten(ms[1..])
  }

  /** Every element of the flattened list comes from one of the lists. */
  lemma {:induction false} FlattenMembers<T>(ms: seq<seq<T>>, x: T)
    requires x in Flatten(ms)
    ensures exists i :: 0 <= i < |ms| && x in ms[i]
  {
    if x !in ms[0] {
      FlattenMembers(ms[1..], x);
      var i :| 0 <= i < |ms[1..]| && x in ms[1..][i];
      assert ms[i + 1] == ms[1..][i];
    }
  }
}
