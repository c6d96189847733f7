/**
 * Sequence operations the backend takes from Python itself: `range`, the
 * first-occurrence order of a `Counter`'s keys, list slicing, membership
 * filters, plus the facts about them that the rest of the model relies on.
 */
module Sequences {

  /** No element occurs twice. */
  predicate Distinct<T(==)>(s: seq<T>)
  {
    forall i, j :: 0 <= i < j < |s| ==> s[i] != s[j]
  }

  /** The set of elements of a sequence. */
  function Elements<T(==)>(s: seq<T>): set<T>
  {
    set x | x in s
  }

  /** The integers lo, lo + 1, ..., hi - 1. */
  function Range(lo: int, hi: int): (r: seq<int>)
    decreases hi - lo
    ensures |r| == if lo < hi then hi - lo else 0
    ensures forall i :: 0 <= i < |r| ==> r[i] == lo + i
    ensures forall x :: x in r <==> lo <= x < hi
  {
    if lo >= hi then [] else [lo] + Range(lo + 1, hi)
  }

  /** The first `n` elements of `s`, or all of it when shorter. */
  function Take<T>(s: seq<T>, n: nat): (r: seq<T>)
    ensures |r| == if |s| <= n then |s| else n
    ensures forall i :: 0 <= i < |r| ==> r[i] == s[i]
  {
    if |s| <= n then s else s[..n]
  }

  /**
   * Position of the first occurrence of `x` in `s`, or `|s|` when there is none
   * (the Python `list.index`, made total).
   */
  function IndexOf<T(==)>(s: seq<T>, x: T): (k: nat)
    ensures k <= |s|
    ensures k < |s| <==> x in s
    ensures k < |s| ==> s[k] == x
    ensures forall j :: 0 <= j < k ==> s[j] != x
  {
    if |s| == 0 then 0 else if s[0] == x then 0 else 1 + IndexOf(s[1..], x)
  }

  /** Appending an element does not move the first occurrence of an element already present. */
  lemma IndexOfAppend<T>(s: seq<T>, x: T, y: T)
    requires y in s
    ensures IndexOf(s + [x], y) == IndexOf(s, y)
  {
    var k, k' := IndexOf(s, y), IndexOf(s + [x], y);
    assert (s + [x])[k] == y;
    if k' < k {
      assert s[k'] == (s + [x])[k'];
    }
  }

  /**
   * The distinct elements of `s` in order of first occurrence: the key order of
   * a `Counter` built from `s`.
   */
  function Unique<T(==)>(s: seq<T>): (u: seq<T>)
    ensures UniqueOf(s, u)
  {
    if |s| == 0 then []
    else
      var p := Unique(s[..|s| - 1]);
      UniqueStep(s, p);
      if s[|s| - 1] in p then p else p + [s[|s| - 1]]
  }

  /** `u` lists each element of `s` once, in the order of its first occurrence in `s`. */
  ghost predicate UniqueOf<T>(s: seq<T>, u: seq<T>)
  {
    && Distinct(u)
    && (forall i :: 0 <= i < |u| ==> u[i] in s)
    && (forall i :: 0 <= i < |s| ==> s[i] in u)
    && (forall i, j :: 0 <= i < j < |u| ==> IndexOf(s, u[i]) < IndexOf(s, u[j]))
  }

  /** The step of `Unique`: one more element at the end of `s` keeps `UniqueOf`. */
  lemma UniqueStep<T>(s: seq<T>, p: seq<T>)
    requires |s| > 0 && UniqueOf(s[..|s| - 1], p)
    ensures UniqueOf(s, if s[|s| - 1] in p then p else p + [s[|s| - 1]])
  {
    var prefix, x := s[..|s| - 1], s[|s| - 1];
    assert s == prefix + [x];
    forall i | 0 <= i < |p| ensures IndexOf(s, p[i]) == IndexOf(prefix, p[i]) < |prefix| {
      IndexOfAppend(prefix, x, p[i]);
    }
    forall i | 0 <= i < |s| ensures s[i] in p || s[i] == x {
      if i < |prefix| { assert s[i] == prefix[i]; }
    }
    if x !in p {
      var q := p + [x];
      assert IndexOf(s, x) == |prefix| by {
        assert s[|prefix|] == x;
      }
      forall i, j | 0 <= i < j < |q| ensures IndexOf(s, q[i]) < IndexOf(s, q[j]) {
        if j == |p| {
          assert q[i] == p[i];
        } else {
          assert q[i] == p[i] && q[j] == p[j];
        }
      }
    }
  }

  /** The elements of `s` that do not occur in `excluded`, in order. */
  function Without(s: seq<int>, excluded: seq<int>): (r: seq<int>)
    ensures forall x :: x in r <==> x in s && x !in excluded
    ensures Distinct(s) ==> Distinct(r)
  {
    if |s| == 0 then []
    else (if s[0] in excluded then [] else [s[0]]) + Without(s[1..], excluded)
  }

  /** A duplicate-free sequence has as many elements as its set. */
  lemma {:induction false} DistinctCard<T>(s: seq<T>)
    requires Distinct(s)
    ensures |Elements(s)| == |s|
  {
    if |s| > 0 {
      DistinctCard(s[1..]);
      assert Elements(s) == {s[0]} + Elements(s[1..]);
      assert s[0] !in Elements(s[1..]);
    }
  }

  /** Any sequence has at least as many elements as its set. */
  lemma {:induction false} ElementsCard<T>(s: seq<T>)
    ensures |Elements(s)| <= |s|
  {
    if |s| > 0 {
      ElementsCard(s[1..]);
      assert Elements(s) == {s[0]} + Elements(s[1..]);
    }
  }

  /** A subset is no larger than its superset. */
  lemma SubsetCard<T>(a: set<T>, b: set<T>)
    requires a <= b
    ensures |a| <= |b|
  {
    assert b == a + (b - a);
  }

  /** `1..max` contains exactly `max` numbers. */
  lemma RangeCard(lo: int, hi: int)
    requires lo <= hi
    ensures |Elements(Range(lo, hi))| == hi - lo
  {
    var r := Range(lo, hi);
    assert Distinct(r);
    DistinctCard(r);
  }

  /**
   * A duplicate-free sequence drawn from `lo..hi-1` that misses nothing of it
   * has `hi - lo` elements: no room is left.
   */
  lemma FullRange(s: seq<int>, lo: int, hi: int)
    requires lo <= hi
    requires forall x :: lo <= x < hi ==> x in s
    ensures |s| >= hi - lo
  {
    RangeCard(lo, hi);
    assert Elements(Range(lo, hi)) <= Elements(s);
    SubsetCard(Elements(Range(lo, hi)), Elements(s));
    ElementsCard(s);
  }

  /** In a duplicate-free sequence each element occurs at most once. */
  lemma {:induction false} DistinctCount<T>(s: seq<T>, x: T)
    requires Distinct(s)
    ensures multiset(s)[x] <= 1
  {
    if |s| > 0 {
      assert Distinct(s[1..]);
      DistinctCount(s[1..], x);
      assert s == [s[0]] + s[1..];
      if x == s[0] {
        assert x !in s[1..];
      }
    }
  }

  /** An element found at two positions occurs at least twice. */
  lemma TwoOccurrences<T>(s: seq<T>, i: nat, j: nat)
    requires i < j < |s| && s[i] == s[j]
    ensures multiset(s)[s[j]] >= 2
  {
    assert s == s[..j] + [s[j]] + s[j + 1..];
    assert s[..j][i] == s[j];
    assert multiset(s) == multiset(s[..j]) + multiset{s[j]} + multiset(s[j + 1..]);
  }

  /** A sequence whose every element occurs at most once is duplicate-free. */
  lemma CountDistinct<T>(s: seq<T>)
    requires forall x :: multiset(s)[x] <= 1
    ensures Distinct(s)
  {
    forall i, j | 0 <= i < j < |s| && s[i] == s[j] ensures false {
      TwoOccurrences(s, i, j);
    }
  }

  /** A sub-multiset of a duplicate-free sequence is duplicate-free. */
  lemma SubDistinct<T>(s: seq<T>, pop: seq<T>)
    requires multiset(s) <= multiset(pop)
    requires Distinct(pop)
    ensures Distinct(s)
  {
    forall x ensures multiset(s)[x] <= 1 {
      DistinctCount(pop, x);
    }
    CountDistinct(s);
  }

  /** Two duplicate-free sequences with the same elements are permutations of each other. */
  lemma DistinctSameElements<T>(a: seq<T>, b: seq<T>)
    requires Distinct(a) && Distinct(b)
    requires forall x :: x in a <==> x in b
    ensures multiset(a) == multiset(b)
  {
    forall x ensures multiset(a)[x] == multiset(b)[x] {
      DistinctCount(a, x);
      DistinctCount(b, x);
      assert x in a <==> x in multiset(a);
      assert x in b <==> x in multiset(b);
    }
  }

  /** Removing duplicates from a duplicate-free sequence keeps the same elements. */
  lemma UniqueOfDistinct<T>(s: seq<T>)
    requires Distinct(s)
    ensures multiset(Unique(s)) == multiset(s)
  {
    var u := Unique(s);
    forall x ensures x in u <==> x in s {
      if x in u {
        var i :| 0 <= i < |u| && u[i] == x;
      }
      if x in s {
        var i :| 0 <= i < |s| && s[i] == x;
      }
    }
    DistinctSameElements(u, s);
  }

  /** Removing the element at `k` removes one occurrence of it. */
  lemma MultisetRemove<T>(s: seq<T>, k: nat)
    requires k < |s|
    ensures multiset(s[..k] + s[k + 1..]) == multiset(s) - multiset{s[k]}
  {
    assert s == s[..k] + [s[k]] + s[k + 1..];
    assert multiset(s) == multiset(s[..k] + s[k + 1..]) + multiset{s[k]};
  }

  /** `Unique(s)` holds exactly the elements of `s`, one each. */
  lemma UniqueMembers<T>(s: seq<T>)
    ensures forall x :: x in Unique(s) <==> x in s
    ensures |Unique(s)| == |Elements(s)|
  {
    var u := Unique(s);
    forall x ensures x in u <==> x in s {
      if x in u {
        var i :| 0 <= i < |u| && u[i] == x;
      }
      if x in s {
        var i :| 0 <= i < |s| && s[i] == x;
      }
    }
    DistinctCard(u);
    assert Elements(u) == Elements(s);
  }

  /** A sub-multiset of the same size is the whole multiset. */
  lemma SubMultisetFull<T>(a: seq<T>, b: seq<T>)
    requires multiset(a) <= multiset(b)
    requires |a| == |b|
    ensures multiset(a) == multiset(b)
  {
    var d := multiset(b) - multiset(a);
    assert multiset(b) == multiset(a) + d;
    assert |d| == 0;
  }

  /** Two duplicate-free sequences with no element in common concatenate to a duplicate-free one. */
  lemma DistinctConcat<T>(a: seq<T>, b: seq<T>)
    requires Distinct(a) && Distinct(b)
    requires forall i :: 0 <= i < |a| ==> a[i] !in b
    ensures Distinct(a + b)
  {
    var c := a + b;
    forall i, j | 0 <= i < j < |c| ensures c[i] != c[j] {
      if j < |a| {
        assert c[i] == a[i] && c[j] == a[j];
      } else if i >= |a| {
        assert c[i] == b[i - |a|] && c[j] == b[j - |a|];
      } else {
        assert c[i] == a[i] && c[j] == b[j - |a|];
      }
    }
  }

  /** Removing position `j` of a duplicate-free sequence removes exactly its element (`list.remove`). */
  lemma DistinctRemove<T>(s: seq<T>, j: nat)
    requires Distinct(s) && j < |s|
    ensures Distinct(s[..j] + s[j + 1..])
    ensures forall x :: x in s[..j] + s[j + 1..] <==> x in s && x != s[j]
  {
    var r := s[..j] + s[j + 1..];
    assert forall i :: 0 <= i < |r| ==> r[i] == if i < j then s[i] else s[i + 1];
    forall x | x in s && x != s[j] ensures x in r {
      var k :| 0 <= k < |s| && s[k] == x;
      if k < j { assert r[k] == x; } else { assert r[k - 1] == x; }
    }
  }
}
