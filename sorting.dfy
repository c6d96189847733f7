/**
 * Python's sort with a key: a stable sort. Sorting in reverse on a key
 * is, for a stable sort, the same as sorting ascending on the negated key, so
 * one ascending stable sort on an integer key serves every call in the backend.
 * It is written as an insertion sort; its proved properties (permutation,
 * order, and how equal keys keep their input order) are what the model uses.
 */
module Sorting {
  import opened Sequences

  /**
   * Where `x` goes in a list already ordered by `key`: before the first element
   * whose key is at least `x`'s, so that `x`, which came earlier in the input,
   * stays ahead of elements with an equal key.
   */
  function InsertPos<T>(x: T, r: seq<T>, key: T -> int): (p: nat)
    ensures p <= |r|
    ensures forall i :: 0 <= i < p ==> key(r[i]) < key(x)
    ensures p < |r| ==> key(x) <= key(r[p])
  {
    if |r| == 0 || key(x) <= key(r[0]) then 0 else 1 + InsertPos(x, r[1..], key)
  }

  function Insert<T>(x: T, r: seq<T>, key: T -> int): (q: seq<T>)
    ensures |q| == |r| + 1
    ensures multiset(q) == multiset(r) + multiset{x}
  {
    var p := InsertPos(x, r, key);
    assert r == r[..p] + r[p..];
    r[..p] + [x] + r[p..]
  }

  /** Where each element of `r` ends up once `x` is inserted at `InsertPos`. */
  lemma InsertShape<T>(x: T, r: seq<T>, key: T -> int)
    ensures var p, q := InsertPos(x, r, key), Insert(x, r, key);
      && q[p] == x
      && (forall i :: 0 <= i < p ==> q[i] == r[i])
      && (forall i :: p < i < |q| ==> q[i] == r[i - 1])
  {
  }

  /** The stable sort of `s` by `key`, ascending. */
  function SortBy<T>(s: seq<T>, key: T -> int): (r: seq<T>)
    ensures |r| == |s|
    ensures multiset(r) == multiset(s)
  {
    if |s| == 0 then []
    else
      assert s == [s[0]] + s[1..];
      Insert(s[0], SortBy(s[1..], key), key)
  }

  /** Sorting neither adds nor drops elements. */
  lemma SortByMembers<T>(s: seq<T>, key: T -> int)
    ensures forall i :: 0 <= i < |SortBy(s, key)| ==> SortBy(s, key)[i] in s
    ensures forall i :: 0 <= i < |s| ==> s[i] in SortBy(s, key)
  {
    var r := SortBy(s, key);
    forall i | 0 <= i < |r| ensures r[i] in s {
      assert r[i] in multiset(r);
    }
    forall i | 0 <= i < |s| ensures s[i] in r {
      assert s[i] in multiset(s);
    }
  }

  /** Keys never decrease along `r`. */
  ghost predicate SortedBy<T>(r: seq<T>, key: T -> int)
  {
    forall i, j :: 0 <= i < j < |r| ==> key(r[i]) <= key(r[j])
  }

  /**
   * Along `r`, pairs are ordered by `key` first and, among equal keys, by `rank`
   * (strictly).
   */
  ghost predicate LexSortedBy<T>(r: seq<T>, key: T -> int, rank: T -> int)
  {
    forall i, j :: 0 <= i < j < |r| ==>
      key(r[i]) < key(r[j]) || (key(r[i]) == key(r[j]) && rank(r[i]) < rank(r[j]))
  }

  /** Inserting into an ordered list keeps it ordered. */
  lemma InsertSorted<T>(x: T, r: seq<T>, key: T -> int)
    requires SortedBy(r, key)
    ensures SortedBy(Insert(x, r, key), key)
  {
    var p := InsertPos(x, r, key);
    var q := Insert(x, r, key);
    InsertShape(x, r, key);
    forall i, j | 0 <= i < j < |q| ensures key(q[i]) <= key(q[j]) {
      if j < p {
        assert q[i] == r[i] && q[j] == r[j];
      } else if j == p {
        assert q[i] == r[i] && q[j] == x;
      } else if i < p {
        assert q[i] == r[i] && q[j] == r[j - 1];
      } else if i == p {
        assert q[i] == x && q[j] == r[j - 1];
        assert key(x) <= key(r[p]);
      } else {
        assert q[i] == r[i - 1] && q[j] == r[j - 1];
      }
    }
  }

  /** The result of `SortBy` is ordered by its key. */
  lemma {:induction false} SortBySorted<T>(s: seq<T>, key: T -> int)
    ensures SortedBy(SortBy(s, key), key)
  {
    if |s| > 0 {
      SortBySorted(s[1..], key);
      InsertSorted(s[0], SortBy(s[1..], key), key);
    }
  }

  /**
   * Inserting `x` whose rank is below every rank already in the ordered list
   * keeps the list ordered by (key, rank): the inserted element lands after
   * every smaller key and before every equal one.
   */
  lemma InsertLex<T>(x: T, r: seq<T>, key: T -> int, rank: T -> int)
    requires LexSortedBy(r, key, rank)
    requires forall i :: 0 <= i < |r| ==> rank(x) < rank(r[i])
    ensures LexSortedBy(Insert(x, r, key), key, rank)
  {
    var p := InsertPos(x, r, key);
    var q := Insert(x, r, key);
    InsertShape(x, r, key);
    forall i, j | 0 <= i < j < |q|
      ensures key(q[i]) < key(q[j]) || (key(q[i]) == key(q[j]) && rank(q[i]) < rank(q[j]))
    {
      if j < p {
        assert q[i] == r[i] && q[j] == r[j];
      } else if j == p {
        assert q[i] == r[i] && q[j] == x;
      } else if i < p {
        assert q[i] == r[i] && q[j] == r[j - 1];
      } else if i == p {
        assert q[i] == x && q[j] == r[j - 1];
        assert key(x) <= key(r[p]);
        assert p == j - 1 || key(r[p]) <= key(r[j - 1]);
      } else {
        assert q[i] == r[i - 1] && q[j] == r[j - 1];
      }
    }
  }

  /**
   * Stability, in the form the backend relies on: when the input is strictly
   * increasing in `rank`, the sorted output is ordered by key and, among equal
   * keys, still by increasing rank.
   */
  lemma {:induction false} SortByLex<T>(s: seq<T>, key: T -> int, rank: T -> int)
    requires forall i, j :: 0 <= i < j < |s| ==> rank(s[i]) < rank(s[j])
    ensures LexSortedBy(SortBy(s, key), key, rank)
  {
    if |s| > 0 {
      var r := SortBy(s[1..], key);
      SortByLex(s[1..], key, rank);
      forall i | 0 <= i < |r| ensures rank(s[0]) < rank(r[i]) {
        assert r[i] in multiset(s[1..]);
        var k :| 0 <= k < |s[1..]| && s[1..][k] == r[i];
        assert s[1..][k] == s[k + 1];
      }
      InsertLex(s[0], r, key, rank);
    }
  }

  /** Keys strictly increase along `r`. */
  ghost predicate StrictlySortedBy<T>(r: seq<T>, key: T -> int)
  {
    forall i, j :: 0 <= i < j < |r| ==> key(r[i]) < key(r[j])
  }

  /** Inserting a key not yet present into a strictly ordered list keeps it strictly ordered. */
  lemma InsertStrict<T>(x: T, r: seq<T>, key: T -> int)
    requires StrictlySortedBy(r, key)
    requires forall i :: 0 <= i < |r| ==> key(x) != key(r[i])
    ensures StrictlySortedBy(Insert(x, r, key), key)
  {
    var p := InsertPos(x, r, key);
    var q := Insert(x, r, key);
    InsertShape(x, r, key);
    forall i, j | 0 <= i < j < |q| ensures key(q[i]) < key(q[j]) {
      if j < p {
        assert q[i] == r[i] && q[j] == r[j];
      } else if j == p {
        assert q[i] == r[i] && q[j] == x;
      } else if i < p {
        assert q[i] == r[i] && q[j] == r[j - 1];
      } else if i == p {
        assert q[i] == x && q[j] == r[j - 1];
        assert key(x) < key(r[p]);
      } else {
        assert q[i] == r[i - 1] && q[j] == r[j - 1];
      }
    }
  }

  /** Keys that are pairwise different in the input are strictly increasing in the output. */
  lemma {:induction false} SortByStrict<T>(s: seq<T>, key: T -> int)
    requires forall i, j :: 0 <= i < j < |s| ==> key(s[i]) != key(s[j])
    ensures StrictlySortedBy(SortBy(s, key), key)
  {
    if |s| > 0 {
      var tail := s[1..];
      assert forall i :: 0 <= i < |tail| ==> tail[i] == s[i + 1];
      var r := SortBy(tail, key);
      SortByStrict(tail, key);
      forall i | 0 <= i < |r| ensures key(s[0]) != key(r[i]) {
        assert r[i] in multiset(tail);
        var k :| 0 <= k < |tail| && tail[k] == r[i];
      }
      InsertStrict(s[0], r, key);
    }
  }

  function Identity(x: int): int { x }

  /** Integers in ascending order. */
  function SortInts(s: seq<int>): seq<int>
  {
    SortBy(s, Identity)
  }

  predicate Sorted(s: seq<int>)
  {
    forall i, j :: 0 <= i < j < |s| ==> s[i] <= s[j]
  }

  predicate StrictlyIncreasing(s: seq<int>)
  {
    forall i, j :: 0 <= i < j < |s| ==> s[i] < s[j]
  }

  /** `sorted` returns an ordered permutation of its input. */
  lemma SortIntsProperties(s: seq<int>)
    ensures Sorted(SortInts(s))
    ensures multiset(SortInts(s)) == multiset(s)
    ensures Distinct(s) ==> StrictlyIncreasing(SortInts(s))
  {
    SortBySorted(s, Identity);
    if Distinct(s) {
      SortByStrict(s, Identity);
    }
  }

  /** The head of an ordered sequence is its least element. */
  lemma SortedHead(a: seq<int>, x: int)
    requires Sorted(a) && x in a
    ensures a[0] <= x
  {
    var k :| 0 <= k < |a| && a[k] == x;
  }

  /** Dropping the head of an ordered sequence leaves it ordered. */
  lemma SortedTail(a: seq<int>)
    requires Sorted(a) && |a| > 0
    ensures Sorted(a[1..])
  {
    forall i, j | 0 <= i < j < |a[1..]| ensures a[1..][i] <= a[1..][j] {
      assert a[1..][i] == a[i + 1] && a[1..][j] == a[j + 1];
    }
  }

  /** Dropping the head removes one occurrence of it. */
  lemma MultisetTail(a: seq<int>)
    requires |a| > 0
    ensures multiset(a[1..]) == multiset(a) - multiset{a[0]}
  {
    assert a == [a[0]] + a[1..];
  }

  /** Two ordered sequences with the same non-empty multiset start alike and agree on the rest. */
  lemma SortedSameHead(a: seq<int>, b: seq<int>)
    requires Sorted(a) && Sorted(b) && |a| > 0
    requires multiset(a) == multiset(b)
    ensures |b| > 0 && a[0] == b[0]
    ensures multiset(a[1..]) == multiset(b[1..])
  {
    assert |a| == |multiset(a)| == |multiset(b)| == |b|;
    assert a[0] in multiset(b) && b[0] in multiset(a);
    SortedHead(a, b[0]);
    SortedHead(b, a[0]);
    MultisetTail(a);
    MultisetTail(b);
  }

  /** Two ordered sequences with the same elements (counted with multiplicity) are equal. */
  lemma {:induction false} SortedUnique(a: seq<int>, b: seq<int>)
    requires Sorted(a) && Sorted(b)
    requires multiset(a) == multiset(b)
    ensures a == b
  {
    if |a| == 0 {
      assert |b| == |multiset(b)| == 0;
    } else {
      SortedSameHead(a, b);
      SortedTail(a);
      SortedTail(b);
      SortedUnique(a[1..], b[1..]);
      assert a == [a[0]] + a[1..] && b == [b[0]] + b[1..];
    }
  }

  /** Two sequences sort to the same result exactly when `a` and `b` are permutations of each other. */
  lemma SortIntsEqual(a: seq<int>, b: seq<int>)
    ensures SortInts(a) == SortInts(b) <==> multiset(a) == multiset(b)
  {
    SortIntsProperties(a);
    SortIntsProperties(b);
    if multiset(a) == multiset(b) {
      SortedUnique(SortInts(a), SortInts(b));
    }
  }

  /** Every element of the first `n` of a sorted list comes from the input. */
  lemma TopMembers<T>(s: seq<T>, key: T -> int, n: nat)
    ensures forall i :: 0 <= i < |Take(SortBy(s, key), n)| ==> Take(SortBy(s, key), n)[i] in s
  {
    SortByMembers(s, key);
  }

  /** A prefix of a list ordered by `key` and `rank` is ordered the same way. */
  lemma TopLex<T>(s: seq<T>, key: T -> int, rank: T -> int, n: nat)
    requires forall i, j :: 0 <= i < j < |s| ==> rank(s[i]) < rank(s[j])
    ensures LexSortedBy(Take(SortBy(s, key), n), key, rank)
  {
    SortByLex(s, key, rank);
  }

  /**
   * Taking the first `n` of a sorted list keeps the smallest keys: an input
   * element left out belongs to a full prefix whose keys are all at most its own.
   */
  lemma TopComplete<T>(s: seq<T>, key: T -> int, n: nat, x: T)
    requires x in s
    ensures var t := Take(SortBy(s, key), n);
      x in t || (|t| == n && forall i :: 0 <= i < |t| ==> key(t[i]) <= key(x))
  {
    var r := SortBy(s, key);
    var t := Take(r, n);
    SortBySorted(s, key);
    assert x in multiset(r);
    var p :| 0 <= p < |r| && r[p] == x;
    if p < |t| {
      assert t[p] == x;
    } else {
      forall i | 0 <= i < |t| ensures key(t[i]) <= key(x) {
        assert t[i] == r[i];
      }
    }
  }
}
