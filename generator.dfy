/**
 * Bet generation (`generate_smart_bet` and the retry loop of `generate_bets`).
 * Every call into `random` is an arbitrary choice constrained to the pool the
 * backend draws from, so each postcondition holds for every outcome of the
 * random generator; the hash order in which a set is turned back into a list is
 * an arbitrary order too.
 */
module Generator {
  import opened Wrappers
  import opened Lottery
  import opened Sequences
  import opened Sorting
  import opened Statistics
  import opened StatisticsProperties
  import opened DuplicateGuard

  function Min(a: int, b: int): int { if a <= b then a else b }

  function Max(a: int, b: int): int { if a >= b then a else b }

  /** All elements lie in 1..max. */
  predicate InRange(s: seq<int>, max: int)
  {
    forall i :: 0 <= i < |s| ==> 1 <= s[i] <= max
  }

  /**
   * A random sample: `k` elements taken from distinct positions of `pop`, in
   * any order. Python raises an error when `k` exceeds `|pop|`; every call below
   * is shown to stay clear of it.
   */
  method Sample(pop: seq<int>, k: nat) returns (s: seq<int>)
    requires k <= |pop|
    ensures |s| == k
    ensures multiset(s) <= multiset(pop)
    ensures forall i :: 0 <= i < |s| ==> s[i] in pop
    ensures Distinct(pop) ==> Distinct(s)
  {
    s := [];
    var rest := pop;
    while |s| < k
      invariant |s| <= k
      invariant |s| + |rest| == |pop|
      invariant multiset(s) + multiset(rest) == multiset(pop)
    {
      var j :| 0 <= j < |rest|;
      MultisetRemove(rest, j);
      s := s + [rest[j]];
      rest := rest[..j] + rest[j + 1..];
    }
    forall i | 0 <= i < |s| ensures s[i] in pop {
      assert s[i] in multiset(s);
      assert s[i] in multiset(pop);
    }
    if Distinct(pop) {
      SubDistinct(s, pop);
    }
  }

  /** A set turned back into a list: the distinct elements of `s` in an order the model leaves open. */
  method ArbitraryOrder(s: seq<int>) returns (p: seq<int>)
    ensures Distinct(p)
    ensures forall x :: x in p <==> x in s
    ensures |p| == |Elements(s)|
  {
    var u := Unique(s);
    p := Sample(u, |u|);
    SubMultisetFull(p, u);
    UniqueMembers(s);
    forall x ensures x in p <==> x in u {
      assert x in p <==> x in multiset(p);
      assert x in u <==> x in multiset(u);
    }
  }

  // ---------------------------------------------------------------------------
  // Coverage strategy: a deterministic split of the ticket over three bands.

  /** How many numbers the coverage strategy takes from each band. */
  datatype Plan = Plan(low: nat, medium: nat, high: nat)

  /**
   * `numbers_to_pick` split in thirds, the remainder going to the low band first
   * and then to the medium band, each part capped by its band's size; the
   * bands are 1..third, third+1..2*third and 2*third+1..max with
   * `third = max // 3`. Whenever the ticket fits the pool the parts add up to it.
   */
  function CoveragePlan(max: nat, ntp: nat): (p: Plan)
    ensures p.low <= max / 3 && p.medium <= max / 3 && p.high <= max - 2 * (max / 3)
    ensures p.low >= p.medium
    ensures ntp <= max ==> p.low + p.medium + p.high == ntp
  {
    var third := max / 3;
    var perBand := ntp / 3;
    var extra := ntp % 3;
    var low := Min(perBand + (if extra > 0 then 1 else 0), third);
    var medium := Min(perBand + (if extra > 1 then 1 else 0), third);
    var high := Min(ntp - low - medium, max - 2 * third);
    Plan(low, medium, high)
  }

  /**
   * For the configured games the split is as even as it can be: no band gets
   * more than one number above another, and the low band is never behind.
   */
  lemma CoverageConfigured(lt: LotteryType)
    ensures var p := CoveragePlan(MaxNumber(lt), NumbersToPick(lt));
      && p.low + p.medium + p.high == NumbersToPick(lt)
      && p.low >= p.medium >= p.high
      && p.low <= p.high + 1
  {
  }

  // ---------------------------------------------------------------------------
  // The common tail: deduplicate, sort, cut and fill.

  /** The distinct selected numbers in ascending order, cut to the first `ntp`. */
  function Kept(selected: seq<int>, ntp: nat): (k: seq<int>)
    ensures |k| <= ntp
    ensures StrictlyIncreasing(k)
    ensures forall i :: 0 <= i < |k| ==> k[i] in selected
  {
    var u := Unique(selected);
    SortIntsProperties(u);
    SortByMembers(u, Identity);
    Take(SortInts(u), ntp)
  }

  /** The cut keeps the smallest distinct numbers: whatever it drops exceeds all it keeps. */
  lemma KeptSmallest(selected: seq<int>, ntp: nat, x: int)
    requires x in selected
    ensures x in Kept(selected, ntp) ||
      (|Kept(selected, ntp)| == ntp && forall i :: 0 <= i < ntp ==> Kept(selected, ntp)[i] < x)
  {
    var u := Unique(selected);
    SortIntsProperties(u);
    SortByMembers(u, Identity);
    var r := SortInts(u);
    var k := Kept(selected, ntp);
    var a :| 0 <= a < |selected| && selected[a] == x;
    var b :| 0 <= b < |u| && u[b] == x;
    var p :| 0 <= p < |r| && r[p] == x;
    if p < |k| {
      assert k[p] == x;
    } else {
      forall i | 0 <= i < ntp ensures k[i] < x {
        assert k[i] == r[i];
      }
    }
  }

  /**
   * Lines 345-355: keep the `numbers_to_pick` smallest distinct selected numbers,
   * then top up with unused numbers of 1..max until the ticket is full, and sort.
   * The `break` for an exhausted pool cannot be reached, since every configured
   * ticket fits its pool.
   */
  method NormaliseAndFill(selected: seq<int>, lt: LotteryType) returns (r: seq<int>)
    ensures StrictlyIncreasing(r)
    ensures |r| == NumbersToPick(lt)
    ensures forall i :: 0 <= i < |r| ==> r[i] in selected || 1 <= r[i] <= MaxNumber(lt)
    ensures forall i :: 0 <= i < |Kept(selected, NumbersToPick(lt))| ==> Kept(selected, NumbersToPick(lt))[i] in r
    ensures Distinct(selected) && |selected| == NumbersToPick(lt) ==> r == SortInts(selected)
  {
    var max := MaxNumber(lt);
    var ntp := NumbersToPick(lt);
    ConfigBounds(lt);
    var kept := Kept(selected, ntp);
    var sel := Fill(kept, max, ntp);
    SortIntsProperties(sel);
    r := SortInts(sel);
    FilledMembers(selected, kept, sel, r, max);
    if Distinct(selected) && |selected| == ntp {
      ExactSelection(selected, ntp);
      assert sel == sel[..|kept|];
    }
  }

  /**
   * The fill loop (lines 348-353): append numbers of 1..max not yet chosen
   * until the ticket holds `ntp`.
   */
  method Fill(kept: seq<int>, max: nat, ntp: nat) returns (sel: seq<int>)
    requires Distinct(kept)
    requires |kept| <= ntp <= max
    ensures |sel| == ntp
    ensures Distinct(sel)
    ensures sel[..|kept|] == kept
    ensures forall i :: |kept| <= i < |sel| ==> 1 <= sel[i] <= max
  {
    sel := kept;
    while |sel| < ntp
      invariant |kept| <= |sel| <= ntp
      invariant sel[..|kept|] == kept
      invariant Distinct(sel)
      invariant forall i :: |kept| <= i < |sel| ==> 1 <= sel[i] <= max
      decreases ntp - |sel|
    {
      var available := Without(Range(1, max + 1), sel);
      if |available| > 0 {
        var j :| 0 <= j < |available|;
        var n := available[j];
        assert n in available;
        assert n !in sel && 1 <= n <= max;
        var prev := sel;
        sel := prev + [n];
        assert sel[..|kept|] == prev[..|kept|];
        assert sel[|prev|] == n;
      } else {
        FullRange(sel, 1, max + 1);
        assert false;
      }
    }
  }

  /** What the sorted, filled ticket holds: the kept numbers and fill from 1..max. */
  lemma FilledMembers(selected: seq<int>, kept: seq<int>, sel: seq<int>, r: seq<int>, max: nat)
    requires forall i :: 0 <= i < |kept| ==> kept[i] in selected
    requires |kept| <= |sel| && sel[..|kept|] == kept
    requires forall i :: |kept| <= i < |sel| ==> 1 <= sel[i] <= max
    requires multiset(r) == multiset(sel)
    ensures forall i :: 0 <= i < |r| ==> r[i] in selected || 1 <= r[i] <= max
    ensures forall i :: 0 <= i < |kept| ==> kept[i] in r
  {
    forall i | 0 <= i < |r| ensures r[i] in selected || 1 <= r[i] <= max {
      assert r[i] in multiset(sel);
      var m :| 0 <= m < |sel| && sel[m] == r[i];
      if m < |kept| {
        assert sel[..|kept|][m] == kept[m];
      }
    }
    forall i | 0 <= i < |kept| ensures kept[i] in r {
      assert sel[..|kept|][i] == sel[i];
      assert sel[i] in multiset(r);
    }
  }

  /** A selection of exactly `ntp` distinct numbers survives the cut whole. */
  lemma ExactSelection(selected: seq<int>, ntp: nat)
    requires Distinct(selected) && |selected| == ntp
    ensures |Kept(selected, ntp)| == ntp
    ensures SortInts(Kept(selected, ntp)) == SortInts(selected)
  {
    var u := Unique(selected);
    UniqueOfDistinct(selected);
    assert |u| == |multiset(u)| == |multiset(selected)| == ntp;
    SortIntsProperties(u);
    var kept := Kept(selected, ntp);
    assert kept == SortInts(u);
    SortIntsEqual(kept, selected);
  }

  // ---------------------------------------------------------------------------
  // The four strategies (lines 285-343).

  /** The positions from `k` on of the delayed entries with a finite gap, in order. */
  function SinceFrom(ds: seq<DelayEntry>, k: nat): seq<nat>
    decreases |ds| - k
  {
    if k >= |ds| then []
    else (if ds[k].gap.Since? then [k] else []) + SinceFrom(ds, k + 1)
  }

  /** Every position `SinceFrom` lists lies from `k` on and holds a finite gap. */
  lemma {:induction false} SinceFromBounds(ds: seq<DelayEntry>, k: nat)
    ensures forall i :: 0 <= i < |SinceFrom(ds, k)| ==>
      k <= SinceFrom(ds, k)[i] < |ds| && ds[SinceFrom(ds, k)[i]].gap.Since?
    decreases |ds| - k
  {
    if k < |ds| {
      SinceFromBounds(ds, k + 1);
    }
  }

  /** `SinceFrom` lists positions in increasing order. */
  lemma {:induction false} SinceFromIncreasing(ds: seq<DelayEntry>, k: nat)
    ensures forall i, j :: 0 <= i < j < |SinceFrom(ds, k)| ==> SinceFrom(ds, k)[i] < SinceFrom(ds, k)[j]
    decreases |ds| - k
  {
    if k < |ds| {
      SinceFromIncreasing(ds, k + 1);
      SinceFromBounds(ds, k + 1);
    }
  }

  /** Every finite-gap position from `k` on is listed. */
  lemma {:induction false} SinceFromComplete(ds: seq<DelayEntry>, k: nat, m: nat)
    requires k <= m < |ds| && ds[m].gap.Since?
    ensures m in SinceFrom(ds, k)
    decreases |ds| - k
  {
    if m > k {
      SinceFromComplete(ds, k + 1, m);
    }
  }

  /** `n` is the number of some delayed entry with a finite gap. */
  predicate TrackedSince(ds: seq<DelayEntry>, n: int) {
    exists j :: 0 <= j < |ds| && ds[j].number == n && ds[j].gap.Since?
  }

  /** A number read off a listed position comes from an entry with a finite gap. */
  lemma NumbersAtPositions(ds: seq<DelayEntry>, pos: seq<nat>, ns: seq<int>)
    requires |ns| == |pos|
    requires forall i :: 0 <= i < |pos| ==> pos[i] < |ds| && ds[pos[i]].gap.Since? && ns[i] == ds[pos[i]].number
    ensures forall i :: 0 <= i < |ns| ==> TrackedSince(ds, ns[i])
  {
    forall i | 0 <= i < |ns| ensures TrackedSince(ds, ns[i]) {
      var j := pos[i];
      assert 0 <= j < |ds| && ds[j].number == ns[i] && ds[j].gap.Since?;
    }
  }

  /** The number of a listed position is among the numbers read off. */
  lemma NumberListed(ds: seq<DelayEntry>, pos: seq<nat>, ns: seq<int>, m: nat)
    requires |ns| == |pos| && m < |ds| && m in pos
    requires forall i :: 0 <= i < |pos| ==> pos[i] < |ds| && ns[i] == ds[pos[i]].number
    ensures ds[m].number in ns
  {
    var i :| 0 <= i < |pos| && pos[i] == m;
    assert ns[i] == ds[m].number;
  }

  /**
   * The delayed numbers handed to the strategies: the numbers of the delayed
   * entries last seen at some draw, the "never" entries being dropped.
   */
  function SinceNumbers(ds: seq<DelayEntry>): (ns: seq<int>)
    ensures forall i :: 0 <= i < |ns| ==> TrackedSince(ds, ns[i])
    ensures forall j :: 0 <= j < |ds| && ds[j].gap.Since? ==> ds[j].number in ns
  {
    var pos := SinceFrom(ds, 0);
    SinceFromBounds(ds, 0);
    var ns := seq(|pos|, i requires 0 <= i < |pos| => ds[pos[i]].number);
    assert forall i :: 0 <= i < |pos| ==> ns[i] == ds[pos[i]].number;
    NumbersAtPositions(ds, pos, ns);
    forall j | 0 <= j < |ds| && ds[j].gap.Since? ensures ds[j].number in ns {
      SinceFromComplete(ds, 0, j);
      NumberListed(ds, pos, ns, j);
    }
    ns
  }

  /**
   * The delayed numbers keep the order of the delayed list: the i-th of them is
   * the number of the i-th entry with a finite gap.
   */
  lemma SinceNumbersOrder(ds: seq<DelayEntry>)
    ensures var ns, pos := SinceNumbers(ds), SinceFrom(ds, 0);
      && |ns| == |pos|
      && (forall i :: 0 <= i < |pos| ==> pos[i] < |ds| && ds[pos[i]].gap.Since? && ns[i] == ds[pos[i]].number)
      && (forall i, j :: 0 <= i < j < |pos| ==> pos[i] < pos[j])
      && (forall k :: 0 <= k < |ds| && ds[k].gap.Since? ==> k in pos)
  {
    SinceFromBounds(ds, 0);
    SinceFromIncreasing(ds, 0);
    forall k | 0 <= k < |ds| && ds[k].gap.Since? ensures k in SinceFrom(ds, 0) {
      SinceFromComplete(ds, 0, k);
    }
  }

  /**
   * Hot strategy: the hot numbers, padded with all of 1..max while fewer than
   * 20, deduplicated into an arbitrary order; a sample of that pool's first
   * 25 or `ntp + 5` entries, whichever is more.
   */
  method HotSelection(hotNums: seq<int>, lt: LotteryType) returns (sel: seq<int>)
    requires InRange(hotNums, MaxNumber(lt))
    ensures Distinct(sel) && InRange(sel, MaxNumber(lt))
    ensures |sel| <= NumbersToPick(lt)
    ensures |hotNums| < 20 ==> |sel| == NumbersToPick(lt)
    ensures |hotNums| >= 20 ==> forall i :: 0 <= i < |sel| ==> sel[i] in hotNums
  {
    var max := MaxNumber(lt);
    var ntp := NumbersToPick(lt);
    ConfigBounds(lt);
    var pool0 := if |hotNums| >= 20 then hotNums[..20] else hotNums + Range(1, max + 1);
    var pool := ArbitraryOrder(pool0);
    var window := Take(pool, Max(25, ntp + 5));
    assert Distinct(window);
    sel := Sample(window, Min(ntp, |pool|));
    if |hotNums| < 20 {
      FullRange(pool, 1, max + 1);
    }
    forall i | 0 <= i < |sel| ensures sel[i] in pool0 && 1 <= sel[i] <= max {
      var k :| 0 <= k < |window| && window[k] == sel[i];
      assert pool[k] == sel[i];
      assert sel[i] in pool0;
      var m :| 0 <= m < |pool0| && pool0[m] == sel[i];
      if |hotNums| >= 20 {
        assert pool0[m] == hotNums[m];
      } else if m < |hotNums| {
        assert pool0[m] == hotNums[m];
      }
    }
  }

  /**
   * Cold strategy: the cold and the delayed numbers deduplicated into an
   * arbitrary order, topped up with the rest of 1..max when fewer than the
   * ticket; a sample of that pool's first
   * 30 or `ntp + 10` entries, whichever is more.
   */
  method ColdSelection(coldNums: seq<int>, delayedNums: seq<int>, lt: LotteryType) returns (sel: seq<int>)
    requires InRange(coldNums, MaxNumber(lt)) && InRange(delayedNums, MaxNumber(lt))
    ensures Distinct(sel) && InRange(sel, MaxNumber(lt))
    ensures |sel| == NumbersToPick(lt)
    ensures |Elements(coldNums + delayedNums)| >= NumbersToPick(lt) ==>
      forall i :: 0 <= i < |sel| ==> sel[i] in coldNums || sel[i] in delayedNums
  {
    var max := MaxNumber(lt);
    var ntp := NumbersToPick(lt);
    ConfigBounds(lt);
    var pool0 := ArbitraryOrder(coldNums + delayedNums);
    var pool := pool0;
    forall i | 0 <= i < |pool0| ensures 1 <= pool0[i] <= max {
      assert pool0[i] in coldNums + delayedNums;
    }
    var rest := Without(Range(1, max + 1), pool0);
    if |pool0| < ntp {
      DistinctConcat(pool0, rest);
      pool := pool0 + rest;
      FullRange(pool, 1, max + 1);
    }
    var window := Take(pool, Max(30, ntp + 10));
    assert Distinct(window);
    sel := Sample(window, Min(ntp, |pool|));
    forall i | 0 <= i < |sel| ensures (sel[i] in coldNums || sel[i] in delayedNums || |pool0| < ntp) && 1 <= sel[i] <= max {
      var k :| 0 <= k < |window| && window[k] == sel[i];
      assert pool[k] == sel[i];
      if k < |pool0| {
        assert pool0[k] == sel[i];
        assert sel[i] in coldNums + delayedNums;
      } else {
        assert pool[k] == rest[k - |pool0|];
        assert rest[k - |pool0|] in rest;
      }
    }
    if |Elements(coldNums + delayedNums)| >= ntp {
      assert |pool0| >= ntp;
    }
  }

  /**
   * Balanced strategy: up to a third of the ticket hot, a quarter cold and, when
   * there are any, a fifth delayed numbers (each share rounded down, at least
   * one), deduplicated, then filled one random unused number of 1..max at a
   * time until the ticket is reached.
   * `picked` is how many came from the statistics lists; they lead `sel`.
   */
  method BalancedSelection(hotNums: seq<int>, coldNums: seq<int>, delayedNums: seq<int>, lt: LotteryType)
    returns (sel: seq<int>, picked: nat)
    requires InRange(hotNums, MaxNumber(lt)) && InRange(coldNums, MaxNumber(lt)) && InRange(delayedNums, MaxNumber(lt))
    ensures Distinct(sel) && InRange(sel, MaxNumber(lt))
    ensures |sel| == NumbersToPick(lt)
    ensures picked <= BalancedQuota(NumbersToPick(lt), |delayedNums| > 0) && picked <= |sel|
    ensures forall i :: 0 <= i < picked ==> sel[i] in hotNums || sel[i] in coldNums || sel[i] in delayedNums
    ensures |hotNums| > 0 ==> exists i :: 0 <= i < picked && sel[i] in hotNums
    ensures |coldNums| > 0 ==> exists i :: 0 <= i < picked && sel[i] in coldNums
    ensures |delayedNums| > 0 ==> exists i :: 0 <= i < picked && sel[i] in delayedNums
  {
    var max := MaxNumber(lt);
    var ntp := NumbersToPick(lt);
    ConfigBounds(lt);
    BalancedQuotaFits(lt, |delayedNums| > 0);
    var first := BalancedPicks(hotNums, coldNums, delayedNums, ntp);
    sel := first;
    picked := |first|;
    var remaining := ntp - |sel|;
    var available := Without(Range(1, max + 1), sel);
    forall i | 0 <= i < |available| ensures 1 <= available[i] <= max {
      assert available[i] in available;
      assert available[i] in Range(1, max + 1);
    }
    while remaining > 0 && |available| > 0
      invariant remaining == ntp - |sel| >= 0
      invariant |first| <= |sel| && sel[..|first|] == first
      invariant Unused(sel, available, max)
      decreases |available|
    {
      var prev := sel;
      sel, available := MoveUnused(sel, available, max);
      assert sel[..|first|] == prev[..|first|];
      remaining := remaining - 1;
    }
    if remaining > 0 {
      FullRange(sel, 1, max + 1);
    }
    PrefixPicks(sel, first, hotNums, coldNums, delayedNums);
  }

  /** The picks leading the selection keep what `BalancedPicks` promised of them. */
  lemma PrefixPicks(sel: seq<int>, first: seq<int>, hotNums: seq<int>, coldNums: seq<int>, delayedNums: seq<int>)
    requires |first| <= |sel| && sel[..|first|] == first
    requires forall i :: 0 <= i < |first| ==> first[i] in hotNums || first[i] in coldNums || first[i] in delayedNums
    requires |hotNums| > 0 ==> exists i :: 0 <= i < |first| && first[i] in hotNums
    requires |coldNums| > 0 ==> exists i :: 0 <= i < |first| && first[i] in coldNums
    requires |delayedNums| > 0 ==> exists i :: 0 <= i < |first| && first[i] in delayedNums
    ensures forall i :: 0 <= i < |first| ==> sel[i] in hotNums || sel[i] in coldNums || sel[i] in delayedNums
    ensures |hotNums| > 0 ==> exists i :: 0 <= i < |first| && sel[i] in hotNums
    ensures |coldNums| > 0 ==> exists i :: 0 <= i < |first| && sel[i] in coldNums
    ensures |delayedNums| > 0 ==> exists i :: 0 <= i < |first| && sel[i] in delayedNums
  {
    assert forall i :: 0 <= i < |first| ==> sel[i] == first[i] by {
      forall i | 0 <= i < |first| ensures sel[i] == first[i] {
        assert sel[..|first|][i] == sel[i];
      }
    }
  }

  /**
   * The state of the balanced fill: `sel` and `available` split 1..max between
   * them, each without repeats.
   */
  predicate Unused(sel: seq<int>, available: seq<int>, max: int)
  {
    && Distinct(sel) && Distinct(available)
    && InRange(sel, max) && InRange(available, max)
    && (forall x :: x in available ==> x !in sel)
    && (forall x :: 1 <= x <= max ==> x in sel || x in available)
  }

  /** One random unused number moved from the unused numbers to the selection. */
  method MoveUnused(sel: seq<int>, available: seq<int>, max: int) returns (sel': seq<int>, available': seq<int>)
    requires |available| > 0 && Unused(sel, available, max)
    ensures Unused(sel', available', max)
    ensures |sel'| == |sel| + 1 && sel'[..|sel|] == sel && sel'[|sel|] in available
    ensures |available'| == |available| - 1
  {
    var j :| 0 <= j < |available|;
    var n := available[j];
    assert n in available;
    DistinctRemove(available, j);
    sel' := sel + [n];
    assert sel'[..|sel|] == sel;
    var rest := available[..j] + available[j + 1..];
    assert forall i :: 0 <= i < |rest| ==> rest[i] == if i < j then available[i] else available[i + 1];
    available' := rest;
  }

  /**
   * How many numbers the balanced strategy draws from the statistics lists at
   * most: a third, a quarter and (when there are delayed numbers) a fifth of the
   * ticket, each at least one.
   */
  function BalancedQuota(ntp: nat, hasDelayed: bool): (q: nat)
    ensures q >= 2
  {
    Max(1, ntp / 3) + Max(1, ntp / 4) + (if hasDelayed then Max(1, ntp / 5) else 0)
  }

  /** For every configured game the balanced picks fit in the ticket. */
  lemma BalancedQuotaFits(lt: LotteryType, hasDelayed: bool)
    ensures BalancedQuota(NumbersToPick(lt), hasDelayed) <= NumbersToPick(lt)
  {
  }

  /**
   * The three samples of the balanced strategy, deduplicated into an arbitrary
   * order: at least one number from each non-empty list, and no more than the
   * quota in all.
   */
  method BalancedPicks(hotNums: seq<int>, coldNums: seq<int>, delayedNums: seq<int>, ntp: nat)
    returns (first: seq<int>)
    requires ntp <= 15
    ensures Distinct(first)
    ensures forall i :: 0 <= i < |first| ==> first[i] in hotNums || first[i] in coldNums || first[i] in delayedNums
    ensures |first| <= BalancedQuota(ntp, |delayedNums| > 0)
    ensures |hotNums| > 0 ==> exists i :: 0 <= i < |first| && first[i] in hotNums
    ensures |coldNums| > 0 ==> exists i :: 0 <= i < |first| && first[i] in coldNums
    ensures |delayedNums| > 0 ==> exists i :: 0 <= i < |first| && first[i] in delayedNums
  {
    var hotCount := Max(1, ntp / 3);
    var coldCount := Max(1, ntp / 4);
    var delayedCount := if |delayedNums| > 0 then Max(1, ntp / 5) else 0;
    var hotPick := SampleHead(hotNums, 15, hotCount);
    var coldPick := SampleHead(coldNums, 15, coldCount);
    var delayedPick := SampleHead(delayedNums, 10, delayedCount);
    var all := hotPick + coldPick + delayedPick;
    first := ArbitraryOrder(all);
    PicksCombined(hotPick, coldPick, delayedPick, first, hotNums, coldNums, delayedNums);
  }

  /** What deduplicating the three samples keeps of them. */
  lemma PicksCombined(hotPick: seq<int>, coldPick: seq<int>, delayedPick: seq<int>, first: seq<int>,
                      hotNums: seq<int>, coldNums: seq<int>, delayedNums: seq<int>)
    requires forall x :: x in hotPick ==> x in hotNums
    requires forall x :: x in coldPick ==> x in coldNums
    requires forall x :: x in delayedPick ==> x in delayedNums
    requires forall x :: x in first <==> x in hotPick + coldPick + delayedPick
    requires |first| == |Elements(hotPick + coldPick + delayedPick)|
    ensures forall i :: 0 <= i < |first| ==> first[i] in hotNums || first[i] in coldNums || first[i] in delayedNums
    ensures |first| <= |hotPick| + |coldPick| + |delayedPick|
    ensures |hotPick| > 0 ==> exists i :: 0 <= i < |first| && first[i] in hotNums
    ensures |coldPick| > 0 ==> exists i :: 0 <= i < |first| && first[i] in coldNums
    ensures |delayedPick| > 0 ==> exists i :: 0 <= i < |first| && first[i] in delayedNums
  {
    var all := hotPick + coldPick + delayedPick;
    ElementsCard(all);
    forall i | 0 <= i < |first| ensures first[i] in hotNums || first[i] in coldNums || first[i] in delayedNums {
      var x := first[i];
      assert x in first;
      assert x in hotPick || x in coldPick || x in delayedPick by {
        assert x in all;
        assert all == hotPick + (coldPick + delayedPick);
      }
    }
    if |hotPick| > 0 {
      PickedFirst(hotPick, all, first, 0, hotNums);
    }
    if |coldPick| > 0 {
      PickedFirst(coldPick, all, first, |hotPick|, coldNums);
    }
    if |delayedPick| > 0 {
      PickedFirst(delayedPick, all, first, |hotPick| + |coldPick|, delayedNums);
    }
  }

  /** A non-empty sample lying at `offset` in `all` leaves one of its numbers in the deduplicated `first`. */
  lemma PickedFirst(pick: seq<int>, all: seq<int>, first: seq<int>, offset: nat, nums: seq<int>)
    requires |pick| > 0 && offset + |pick| <= |all| && all[offset..offset + |pick|] == pick
    requires forall x :: x in pick ==> x in nums
    requires forall x :: x in first <==> x in all
    ensures exists i :: 0 <= i < |first| && first[i] in nums
  {
    assert all[offset] == pick[0];
    assert all[offset] in all;
    var i :| 0 <= i < |first| && first[i] == pick[0];
  }

  /**
   * A random sample of `count` numbers (or all of them, when fewer) from the
   * first `n` of `nums` when `nums` is not empty, and nothing otherwise.
   */
  method SampleHead(nums: seq<int>, n: nat, count: nat) returns (pick: seq<int>)
    requires count <= n
    ensures |pick| == if |nums| == 0 then 0 else Min(count, |nums|)
    ensures forall x :: x in pick ==> x in nums
  {
    pick := [];
    if |nums| > 0 {
      pick := Sample(Take(nums, n), Min(count, |nums|));
      forall x | x in pick ensures x in nums {
        var k :| 0 <= k < |pick| && pick[k] == x;
        assert pick[k] in Take(nums, n);
      }
    }
  }

  /**
   * Coverage strategy: a sample of each band of the size `CoveragePlan` gives
   * it, low band first, then medium, then high.
   */
  method CoverageSelection(lt: LotteryType) returns (sel: seq<int>)
    ensures Distinct(sel) && InRange(sel, MaxNumber(lt))
    ensures |sel| == NumbersToPick(lt)
    ensures var p := CoveragePlan(MaxNumber(lt), NumbersToPick(lt));
      && BandCount(sel, MaxNumber(lt) / 3, Low) == p.low
      && BandCount(sel, MaxNumber(lt) / 3, Medium) == p.medium
      && BandCount(sel, MaxNumber(lt) / 3, High) == p.high
  {
    var max := MaxNumber(lt);
    var third := max / 3;
    ConfigBounds(lt);
    var p := CoveragePlan(max, NumbersToPick(lt));
    var low := Sample(Range(1, third + 1), p.low);
    var medium := Sample(Range(third + 1, 2 * third + 1), p.medium);
    var high := Sample(Range(2 * third + 1, max + 1), p.high);
    assert forall i :: 0 <= i < |low| ==> 1 <= low[i] <= third;
    assert forall i :: 0 <= i < |medium| ==> third + 1 <= medium[i] <= 2 * third;
    assert forall i :: 0 <= i < |high| ==> 2 * third + 1 <= high[i] <= max;
    BandParts(low, medium, high, third, max);
    sel := low + medium + high;
  }

  /** Three samples, one per band, form a duplicate-free selection with one band count each. */
  lemma BandParts(low: seq<int>, medium: seq<int>, high: seq<int>, third: nat, max: nat)
    requires Distinct(low) && Distinct(medium) && Distinct(high)
    requires forall i :: 0 <= i < |low| ==> 1 <= low[i] <= third
    requires forall i :: 0 <= i < |medium| ==> third + 1 <= medium[i] <= 2 * third
    requires forall i :: 0 <= i < |high| ==> 2 * third + 1 <= high[i] <= max
    requires 2 * third <= max
    ensures Distinct(low + medium + high) && InRange(low + medium + high, max)
    ensures BandCount(low + medium + high, third, Low) == |low|
    ensures BandCount(low + medium + high, third, Medium) == |medium|
    ensures BandCount(low + medium + high, third, High) == |high|
  {
    DistinctConcat(low, medium);
    DistinctConcat(low + medium, high);
    var sel := low + medium + high;
    forall i | 0 <= i < |sel| ensures 1 <= sel[i] <= max {
      if i < |low| {
        assert sel[i] == low[i];
      } else if i < |low| + |medium| {
        assert sel[i] == medium[i - |low|];
      } else {
        assert sel[i] == high[i - |low| - |medium|];
      }
    }
    BandCountAll(low, third, Low);
    BandCountNone(low, third, Medium);
    BandCountNone(low, third, High);
    BandCountNone(medium, third, Low);
    BandCountAll(medium, third, Medium);
    BandCountNone(medium, third, High);
    BandCountNone(high, third, Low);
    BandCountNone(high, third, Medium);
    BandCountAll(high, third, High);
    ThreeParts(low, medium, high, third, Low);
    ThreeParts(low, medium, high, third, Medium);
    ThreeParts(low, medium, high, third, High);
  }

  lemma ThreeParts(a: seq<int>, b: seq<int>, c: seq<int>, third: int, band: Band)
    ensures BandCount(a + b + c, third, band) ==
      BandCount(a, third, band) + BandCount(b, third, band) + BandCount(c, third, band)
  {
    BandCountAppend(a, b, third, band);
    BandCountAppend(a + b, c, third, band);
  }

  // ---------------------------------------------------------------------------
  // generate_smart_bet and the generate_bets retry loop.

  /** A generated ticket; the explanation text is not modelled. */
  datatype GeneratedBet = GeneratedBet(lotteryType: LotteryType, numbers: seq<int>, strategy: Strategy)

  /** The output contract: the requested game and strategy, `numbers_to_pick` increasing numbers of 1..max. */
  predicate ValidBet(bet: GeneratedBet, lt: LotteryType, strategy: Strategy)
  {
    && bet.lotteryType == lt
    && bet.strategy == strategy
    && StrictlyIncreasing(bet.numbers)
    && |bet.numbers| == NumbersToPick(lt)
    && InRange(bet.numbers, MaxNumber(lt))
  }

  function HotNumbers(st: Stats): seq<int> { FreqNumbers(st.hot) }

  function ColdNumbers(st: Stats): seq<int> { FreqNumbers(st.cold) }

  function DelayedNumbers(st: Stats): seq<int> { SinceNumbers(st.delayed) }

  /** The number lists a snapshot in 1..max offers the strategies lie in 1..max. */
  lemma StatsNumbersInRange(st: Stats, max: int)
    requires StatsInPool(st, max)
    ensures InRange(HotNumbers(st), max) && InRange(ColdNumbers(st), max) && InRange(DelayedNumbers(st), max)
  {
    var d := DelayedNumbers(st);
    forall i | 0 <= i < |d| ensures 1 <= d[i] <= max {
      var j :| 0 <= j < |st.delayed| && st.delayed[j].number == d[i] && st.delayed[j].gap.Since?;
    }
  }

  /**
   * `generate_smart_bet`: whatever the random choices, a valid ticket. The
   * coverage ticket holds exactly the planned count of each band, and a cold
   * ticket drawn from a pool big enough holds only cold or delayed numbers.
   */
  method GenerateSmartBet(st: Stats, lt: LotteryType, strategy: Strategy) returns (bet: GeneratedBet)
    requires StatsInPool(st, MaxNumber(lt))
    ensures ValidBet(bet, lt, strategy)
    ensures strategy == Coverage ==>
      var p := CoveragePlan(MaxNumber(lt), NumbersToPick(lt));
      && BandCount(bet.numbers, MaxNumber(lt) / 3, Low) == p.low
      && BandCount(bet.numbers, MaxNumber(lt) / 3, Medium) == p.medium
      && BandCount(bet.numbers, MaxNumber(lt) / 3, High) == p.high
    ensures strategy == Cold && |Elements(ColdNumbers(st) + DelayedNumbers(st))| >= NumbersToPick(lt) ==>
      forall i :: 0 <= i < |bet.numbers| ==> bet.numbers[i] in ColdNumbers(st) || bet.numbers[i] in DelayedNumbers(st)
    ensures strategy == Balanced ==>
      && (|HotNumbers(st)| > 0 ==> exists i :: 0 <= i < |bet.numbers| && bet.numbers[i] in HotNumbers(st))
      && (|ColdNumbers(st)| > 0 ==> exists i :: 0 <= i < |bet.numbers| && bet.numbers[i] in ColdNumbers(st))
      && (|DelayedNumbers(st)| > 0 ==> exists i :: 0 <= i < |bet.numbers| && bet.numbers[i] in DelayedNumbers(st))
  {
    var max := MaxNumber(lt);
    var selected, picked := SelectNumbers(st, lt, strategy);
    var numbers := NormaliseAndFill(selected, lt);
    TicketInRange(selected, numbers, max);
    if strategy == Cold {
      ExactTicket(selected, numbers, lt);
    }
    if strategy == Coverage {
      CoverageTicket(selected, numbers, lt);
    }
    if strategy == Balanced {
      BalancedTicket(selected, numbers, picked, HotNumbers(st), lt);
      BalancedTicket(selected, numbers, picked, ColdNumbers(st), lt);
      BalancedTicket(selected, numbers, picked, DelayedNumbers(st), lt);
    }
    bet := GeneratedBet(lt, numbers, strategy);
  }

  /**
   * The strategy branch of `generate_smart_bet` (lines 283-343), before the
   * common tail. For the balanced strategy `picked` counts the numbers taken
   * from the statistics lists, which lead the selection.
   */
  method SelectNumbers(st: Stats, lt: LotteryType, strategy: Strategy) returns (selected: seq<int>, picked: nat)
    requires StatsInPool(st, MaxNumber(lt))
    ensures Distinct(selected) && InRange(selected, MaxNumber(lt))
    ensures strategy != Hot ==> |selected| == NumbersToPick(lt)
    ensures strategy == Coverage ==>
      var p := CoveragePlan(MaxNumber(lt), NumbersToPick(lt));
      && BandCount(selected, MaxNumber(lt) / 3, Low) == p.low
      && BandCount(selected, MaxNumber(lt) / 3, Medium) == p.medium
      && BandCount(selected, MaxNumber(lt) / 3, High) == p.high
    ensures strategy == Cold && |Elements(ColdNumbers(st) + DelayedNumbers(st))| >= NumbersToPick(lt) ==>
      forall i :: 0 <= i < |selected| ==> selected[i] in ColdNumbers(st) || selected[i] in DelayedNumbers(st)
    ensures strategy == Balanced ==>
      && picked <= |selected|
      && (|HotNumbers(st)| > 0 ==> exists i :: 0 <= i < picked && selected[i] in HotNumbers(st))
      && (|ColdNumbers(st)| > 0 ==> exists i :: 0 <= i < picked && selected[i] in ColdNumbers(st))
      && (|DelayedNumbers(st)| > 0 ==> exists i :: 0 <= i < picked && selected[i] in DelayedNumbers(st))
  {
    StatsNumbersInRange(st, MaxNumber(lt));
    picked := 0;
    match strategy {
      case Hot =>
        selected := HotSelection(HotNumbers(st), lt);
      case Cold =>
        selected := ColdSelection(ColdNumbers(st), DelayedNumbers(st), lt);
      case Balanced =>
        selected, picked := BalancedSelection(HotNumbers(st), ColdNumbers(st), DelayedNumbers(st), lt);
      case Coverage =>
        selected := CoverageSelection(lt);
    }
  }

  /** Every pick of a balanced selection of exactly the ticket's size ends up on the ticket. */
  lemma BalancedTicket(selected: seq<int>, numbers: seq<int>, picked: nat, nums: seq<int>, lt: LotteryType)
    requires Distinct(selected) && |selected| == NumbersToPick(lt) && picked <= |selected|
    requires numbers == SortInts(selected)
    requires |nums| > 0 ==> exists i :: 0 <= i < picked && selected[i] in nums
    ensures |nums| > 0 ==> exists j :: 0 <= j < |numbers| && numbers[j] in nums
  {
    if |nums| > 0 {
      var i :| 0 <= i < picked && selected[i] in nums;
      ExactTicket(selected, numbers, lt);
      assert selected[i] in multiset(numbers);
      var j :| 0 <= j < |numbers| && numbers[j] == selected[i];
    }
  }

  /** Numbers taken from an in-range selection or from 1..max are in range. */
  lemma TicketInRange(selected: seq<int>, numbers: seq<int>, max: int)
    requires InRange(selected, max)
    requires forall i :: 0 <= i < |numbers| ==> numbers[i] in selected || 1 <= numbers[i] <= max
    ensures InRange(numbers, max)
  {
    forall i | 0 <= i < |numbers| ensures 1 <= numbers[i] <= max {
      if numbers[i] in selected {
        var k :| 0 <= k < |selected| && selected[k] == numbers[i];
      }
    }
  }

  /** The ticket made from a coverage selection keeps its band counts. */
  lemma CoverageTicket(selected: seq<int>, numbers: seq<int>, lt: LotteryType)
    requires Distinct(selected) && |selected| == NumbersToPick(lt)
    requires numbers == SortInts(selected)
    requires var p := CoveragePlan(MaxNumber(lt), NumbersToPick(lt));
      && BandCount(selected, MaxNumber(lt) / 3, Low) == p.low
      && BandCount(selected, MaxNumber(lt) / 3, Medium) == p.medium
      && BandCount(selected, MaxNumber(lt) / 3, High) == p.high
    ensures var p := CoveragePlan(MaxNumber(lt), NumbersToPick(lt));
      && BandCount(numbers, MaxNumber(lt) / 3, Low) == p.low
      && BandCount(numbers, MaxNumber(lt) / 3, Medium) == p.medium
      && BandCount(numbers, MaxNumber(lt) / 3, High) == p.high
  {
    ExactTicket(selected, numbers, lt);
    var third := MaxNumber(lt) / 3;
    BandCountPermutation(numbers, selected, third, Low);
    BandCountPermutation(numbers, selected, third, Medium);
    BandCountPermutation(numbers, selected, third, High);
  }

  /** A selection of exactly the ticket's size, without repeats, becomes the ticket unchanged but for order. */
  lemma ExactTicket(selected: seq<int>, numbers: seq<int>, lt: LotteryType)
    requires Distinct(selected) && |selected| == NumbersToPick(lt)
    requires numbers == SortInts(selected)
    ensures multiset(numbers) == multiset(selected)
    ensures forall i :: 0 <= i < |numbers| ==> numbers[i] in selected
  {
    SortIntsProperties(selected);
    forall i | 0 <= i < |numbers| ensures numbers[i] in selected {
      assert numbers[i] in multiset(numbers);
    }
  }

  /** Whether a ticket already collected has the key. */
  function KeyTaken(bets: seq<GeneratedBet>, k: BetKey): (r: bool)
    ensures r <==> exists i :: 0 <= i < |bets| && KeyOf(bets[i].lotteryType, bets[i].numbers) == k
  {
    if |bets| == 0 then false
    else
      assert forall i :: 1 <= i < |bets| ==> bets[i] == bets[1..][i - 1];
      KeyOf(bets[0].lotteryType, bets[0].numbers) == k || KeyTaken(bets[1..], k)
  }

  /** No two tickets share a key. */
  ghost predicate DistinctKeys(bets: seq<GeneratedBet>)
  {
    forall i, j :: 0 <= i < j < |bets| ==>
      KeyOf(bets[i].lotteryType, bets[i].numbers) != KeyOf(bets[j].lotteryType, bets[j].numbers)
  }

  /**
   * The retry loop of `generate_bets` (lines 485-499): keep generating until
   * `count` tickets with distinct keys are collected or `3 * count` attempts
   * are spent, dropping every ticket whose key was already produced.
   */
  method GenerateBets(st: Stats, lt: LotteryType, strategy: Strategy, count: nat)
    returns (bets: seq<GeneratedBet>, attempts: nat)
    requires StatsInPool(st, MaxNumber(lt))
    ensures |bets| <= count
    ensures attempts <= 3 * count
    ensures |bets| < count ==> attempts == 3 * count
    ensures |bets| <= attempts
    ensures count > 0 ==> |bets| > 0
    ensures DistinctKeys(bets)
    ensures forall i :: 0 <= i < |bets| ==> ValidBet(bets[i], lt, strategy)
  {
    bets := [];
    attempts := 0;
    var maxAttempts := count * 3;
    while |bets| < count && attempts < maxAttempts
      invariant |bets| <= count
      invariant attempts <= maxAttempts
      invariant |bets| <= attempts
      invariant attempts > 0 ==> |bets| > 0
      invariant DistinctKeys(bets)
      invariant forall i :: 0 <= i < |bets| ==> ValidBet(bets[i], lt, strategy)
      decreases maxAttempts - attempts
    {
      var bet := GenerateSmartBet(st, lt, strategy);
      var key := KeyOf(lt, bet.numbers);
      if !KeyTaken(bets, key) {
        FreshKey(bets, bet);
        AppendValid(bets, bet, lt, strategy);
        bets := bets + [bet];
      }
      attempts := attempts + 1;
    }
  }

  /** Appending a ticket whose key is not taken keeps the keys distinct. */
  lemma FreshKey(bets: seq<GeneratedBet>, bet: GeneratedBet)
    requires DistinctKeys(bets)
    requires !KeyTaken(bets, KeyOf(bet.lotteryType, bet.numbers))
    ensures DistinctKeys(bets + [bet])
  {
    var b := bets + [bet];
    forall i, j | 0 <= i < j < |b|
      ensures KeyOf(b[i].lotteryType, b[i].numbers) != KeyOf(b[j].lotteryType, b[j].numbers)
    {
      assert b[i] == bets[i];
      if j < |bets| {
        assert b[j] == bets[j];
      }
    }
  }

  /** Appending a valid ticket keeps every ticket valid. */
  lemma AppendValid(bets: seq<GeneratedBet>, bet: GeneratedBet, lt: LotteryType, strategy: Strategy)
    requires forall i :: 0 <= i < |bets| ==> ValidBet(bets[i], lt, strategy)
    requires ValidBet(bet, lt, strategy)
    ensures forall i :: 0 <= i < |bets + [bet]| ==> ValidBet((bets + [bet])[i], lt, strategy)
  {
    forall i | 0 <= i < |bets + [bet]| ensures ValidBet((bets + [bet])[i], lt, strategy) {
      if i < |bets| {
        assert (bets + [bet])[i] == bets[i];
      }
    }
  }

  /** A validated `/bets/generate` request. */
  datatype GenerateRequest = GenerateRequest(lotteryType: LotteryType, strategy: Strategy, count: nat)

  /**
   * The checks before generation: `count` outside 1..10 is refused by the query
   * declaration (422), then a game other than quina or dupla_sena and an unknown
   * strategy are refused with 400.
   */
  function ValidateGenerateRequest(lotteryType: string, strategy: string, count: int): (r: Result<GenerateRequest, Error>)
    ensures r.Success? <==>
      && 1 <= count <= 10
      && ParseLotteryType(lotteryType).Some? && AcceptsBets(ParseLotteryType(lotteryType).value)
      && ParseStrategy(strategy).Some?
    ensures r.Success? ==>
      && Name(r.value.lotteryType) == lotteryType
      && StrategyName(r.value.strategy) == strategy
      && r.value.count == count
    ensures r.Failure? ==> StatusCode(r.error) == (if 1 <= count <= 10 then 400 else 422)
  {
    var lt := ParseLotteryType(lotteryType);
    var s := ParseStrategy(strategy);
    if count < 1 || count > 10 then Failure(Unprocessable)
    else if lt.None? || !AcceptsBets(lt.value) then Failure(InvalidRequest)
    else if s.None? then Failure(InvalidRequest)
    else Success(GenerateRequest(lt.value, s.value, count))
  }

  /**
   * `generate_bets` (lines 469-499): the request is validated, the snapshot is
   * computed from the fetched history `rs` (the I/O of the fetch is outside the
   * model), and the retry loop produces the tickets.
   */
  method GenerateBetsRoute(lotteryType: string, strategy: string, count: int, rs: seq<Draw>)
    returns (r: Result<seq<GeneratedBet>, Error>)
    requires ParseLotteryType(lotteryType).Some? ==> DrawsInPool(rs, ParseLotteryType(lotteryType).value)
    ensures r.Failure? <==> ValidateGenerateRequest(lotteryType, strategy, count).Failure?
    ensures r.Failure? ==> r.error == ValidateGenerateRequest(lotteryType, strategy, count).error
    ensures r.Success? ==>
      var req := ValidateGenerateRequest(lotteryType, strategy, count).value;
      && 1 <= |r.value| <= count
      && DistinctKeys(r.value)
      && forall i :: 0 <= i < |r.value| ==> ValidBet(r.value[i], req.lotteryType, req.strategy)
  {
    var v := ValidateGenerateRequest(lotteryType, strategy, count);
    if v.Failure? {
      return Failure(v.error);
    }
    var req := v.value;
    FirstListsFromDraws(rs, req.lotteryType);
    StatisticsInPool(rs, req.lotteryType);
    var st := CalculateStatistics(rs, req.lotteryType);
    var bets, attempts := GenerateBets(st, req.lotteryType, req.strategy, req.count);
    r := Success(bets);
  }
}
