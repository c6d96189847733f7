/**
 * `calculate_statistics`: frequency, recency and distribution figures over a
 * draw history that arrives most recent first. Counts only; the percentages
 * the backend derives from them by floating-point division are not modelled.
 */
module Statistics {
  import opened Lottery
  import opened Sequences
  import opened Sorting

  /**
   * One contest result: its number, the drawn numbers, and the numbers of the
   * second draw (empty for games that have none).
   */
  datatype Draw = Draw(contest: int, numbers: seq<int>, second: seq<int>)

  /** A number with how often it occurs in the history. */
  datatype FreqEntry = FreqEntry(number: int, frequency: nat)

  /** Index of the most recent draw holding a number, or "never". */
  datatype Gap = Never | Since(draws: nat)

  datatype DelayEntry = DelayEntry(number: int, gap: Gap)

  /** The statistics snapshot; the two ratios are kept as raw counts. */
  datatype Stats = Stats(
    hot: seq<FreqEntry>,
    cold: seq<FreqEntry>,
    delayed: seq<DelayEntry>,
    even: nat,
    odd: nat,
    low: nat,
    medium: nat,
    high: nat,
    totalDraws: nat)

  /** Length of the hot, cold and delayed lists. */
  const ListLength: nat := 15
  /** A number is "delayed" once its most recent draw index exceeds this. */
  const DelayThreshold: int := 5
  /** Sort key standing for "never drawn" in the delayed list. */
  const NeverKey: int := 999

  /** The numbers of one result that enter the frequency count. */
  function DrawNumbers(d: Draw, lt: LotteryType): seq<int>
  {
    d.numbers + (if lt == DuplaSena then d.second else [])
  }

  /** `all_numbers`: every counted occurrence, draw by draw. */
  function AllNumbers(rs: seq<Draw>, lt: LotteryType): seq<int>
  {
    if |rs| == 0 then [] else AllNumbers(rs[..|rs| - 1], lt) + DrawNumbers(rs[|rs| - 1], lt)
  }

  /**
   * The value `last_seen[n]` ends with: the smallest index of a draw whose first
   * list holds `n`, or -1 when none does (second draws never update it).
   */
  function LastSeen(rs: seq<Draw>, n: int): (k: int)
    ensures -1 <= k < |rs|
    ensures k == -1 <==> forall i :: 0 <= i < |rs| ==> n !in rs[i].numbers
    ensures k >= 0 ==> n in rs[k].numbers && forall i :: 0 <= i < k ==> n !in rs[i].numbers
  {
    if |rs| == 0 then -1
    else
      var p := LastSeen(rs[..|rs| - 1], n);
      assert forall i :: 0 <= i < |rs| - 1 ==> rs[..|rs| - 1][i] == rs[i];
      if p >= 0 then p else if n in rs[|rs| - 1].numbers then |rs| - 1 else -1
  }

  /** The numbers 1..max. */
  function Pool(max: int): (p: set<int>)
    ensures forall n :: n in p <==> 1 <= n <= max
  {
    Elements(Range(1, max + 1))
  }

  /** The whole `last_seen` table over 1..max. */
  function LastSeenMap(rs: seq<Draw>, max: int): (m: map<int, int>)
    ensures m.Keys == Pool(max)
  {
    map n | n in Pool(max) :: LastSeen(rs, n)
  }

  /** Each number of `ns` paired with its count in `all`. */
  function FreqItems(ns: seq<int>, all: seq<int>): seq<FreqEntry>
  {
    seq(|ns|, i requires 0 <= i < |ns| => FreqEntry(ns[i], multiset(all)[ns[i]]))
  }

  /** The numbers of a hot or cold list, in the list's order. */
  function FreqNumbers(es: seq<FreqEntry>): (ns: seq<int>)
    ensures |ns| == |es|
    ensures forall i :: 0 <= i < |es| ==> ns[i] == es[i].number
  {
    seq(|es|, i requires 0 <= i < |es| => es[i].number)
  }

  function EntryNumber(e: FreqEntry): int { e.number }

  /** `most_common` orders by frequency, highest first. */
  function HotKey(e: FreqEntry): int { -(e.frequency as int) }

  function ColdKey(e: FreqEntry): int { e.frequency }

  /** The 15 most frequent numbers, ties kept in first-occurrence order. */
  function HotList(all: seq<int>): seq<FreqEntry>
  {
    Take(SortBy(FreqItems(Unique(all), all), HotKey), ListLength)
  }

  /** The 15 least frequent numbers of 1..max, ties kept in ascending order. */
  function ColdList(all: seq<int>, max: int): seq<FreqEntry>
  {
    Take(SortBy(FreqItems(Range(1, max + 1), all), ColdKey), ListLength)
  }

  function GapOf(lastSeen: int): Gap
  {
    if lastSeen >= 0 then Since(lastSeen) else Never
  }

  /** Whether `last_seen` marks a number as delayed: never seen, or last seen more than five draws back. */
  predicate IsDelayed(ls: int)
  {
    ls == -1 || ls > DelayThreshold
  }

  /** The numbers of `ns` never seen or last seen more than five draws back. */
  function DelayCandidates(ns: seq<int>, lastSeen: map<int, int>): (r: seq<DelayEntry>)
    requires forall i :: 0 <= i < |ns| ==> ns[i] in lastSeen
    ensures forall i :: 0 <= i < |r| ==>
      && r[i].number in ns
      && r[i].gap == GapOf(lastSeen[r[i].number])
      && IsDelayed(lastSeen[r[i].number])
  {
    if |ns| == 0 then []
    else
      var ls := lastSeen[ns[0]];
      (if IsDelayed(ls) then [DelayEntry(ns[0], GapOf(ls))] else [])
        + DelayCandidates(ns[1..], lastSeen)
  }

  /** Every delayed number of `ns` is a candidate. */
  lemma {:induction false} DelayCandidatesComplete(ns: seq<int>, lastSeen: map<int, int>, k: nat)
    requires forall i :: 0 <= i < |ns| ==> ns[i] in lastSeen
    requires k < |ns| && IsDelayed(lastSeen[ns[k]])
    ensures DelayEntry(ns[k], GapOf(lastSeen[ns[k]])) in DelayCandidates(ns, lastSeen)
  {
    if k > 0 {
      DelayCandidatesComplete(ns[1..], lastSeen, k - 1);
      assert ns[1..][k - 1] == ns[k];
    }
  }

  /** Entries listed in increasing order of number. */
  predicate NumbersIncreasing(r: seq<DelayEntry>)
  {
    forall i, j :: 0 <= i < j < |r| ==> r[i].number < r[j].number
  }

  /** Candidates of an increasing sequence come in increasing order of number. */
  lemma {:induction false} DelayCandidatesOrdered(ns: seq<int>, lastSeen: map<int, int>)
    requires forall i :: 0 <= i < |ns| ==> ns[i] in lastSeen
    requires forall i, j :: 0 <= i < j < |ns| ==> ns[i] < ns[j]
    ensures NumbersIncreasing(DelayCandidates(ns, lastSeen))
  {
    if |ns| > 0 {
      var tail := ns[1..];
      assert forall i :: 0 <= i < |tail| ==> tail[i] == ns[i + 1];
      DelayCandidatesOrdered(tail, lastSeen);
      var rest := DelayCandidates(tail, lastSeen);
      forall i | 0 <= i < |rest| ensures ns[0] < rest[i].number {
        var k :| 0 <= k < |tail| && tail[k] == rest[i].number;
        assert tail[k] == ns[k + 1];
      }
      var ls := lastSeen[ns[0]];
      if IsDelayed(ls) {
        PrependIncreasing(DelayEntry(ns[0], GapOf(ls)), rest);
      }
    }
  }

  /** An entry below every number of an increasing list can go in front of it. */
  lemma PrependIncreasing(e: DelayEntry, rest: seq<DelayEntry>)
    requires NumbersIncreasing(rest)
    requires forall i :: 0 <= i < |rest| ==> e.number < rest[i].number
    ensures NumbersIncreasing([e] + rest)
  {
    var r := [e] + rest;
    forall i, j | 0 <= i < j < |r| ensures r[i].number < r[j].number {
      assert r[j] == rest[j - 1];
      if i > 0 {
        assert r[i] == rest[i - 1];
      }
    }
  }

  /** The value the delayed list sorts on: `last_seen`, or 999 for never. */
  function SortValue(g: Gap): int
  {
    match g
    case Never => NeverKey
    case Since(d) => d
  }

  /** The delayed list sorts on `SortValue` in reverse. */
  function DelayKey(e: DelayEntry): int
  {
    -SortValue(e.gap)
  }

  function DelayedList(lastSeen: map<int, int>, max: int): seq<DelayEntry>
    requires Pool(max) <= lastSeen.Keys
  {
    Take(SortBy(DelayCandidates(Range(1, max + 1), lastSeen), DelayKey), ListLength)
  }

  datatype Band = Low | Medium | High

  /** The band test of the range distribution, with `third = max_number // 3`. */
  function BandOf(n: int, third: int): Band
  {
    if n <= third then Low else if n <= 2 * third then Medium else High
  }

  function BandCount(s: seq<int>, third: int, b: Band): nat
  {
    if |s| == 0 then 0
    else BandCount(s[..|s| - 1], third, b) + (if BandOf(s[|s| - 1], third) == b then 1 else 0)
  }

  function EvenCount(s: seq<int>): (c: nat)
    ensures c <= |s|
  {
    if |s| == 0 then 0 else EvenCount(s[1..]) + (if s[0] % 2 == 0 then 1 else 0)
  }

  /** The number of odd occurrences (the backend derives it by subtraction). */
  function OddCount(s: seq<int>): nat
  {
    if |s| == 0 then 0 else OddCount(s[1..]) + (if s[0] % 2 == 1 then 1 else 0)
  }

  /** The snapshot of an empty history. */
  function EmptyStats(): Stats
  {
    Stats([], [], [], 0, 0, 0, 0, 0, 0)
  }

  /** What `calculate_statistics` returns for a history of one game. */
  function StatisticsOf(rs: seq<Draw>, lt: LotteryType): Stats
  {
    if |rs| == 0 then EmptyStats()
    else
      var max := MaxNumber(lt);
      var all := AllNumbers(rs, lt);
      var third := max / 3;
      Stats(HotList(all), ColdList(all, max), DelayedList(LastSeenMap(rs, max), max),
            EvenCount(all), |all| - EvenCount(all),
            BandCount(all, third, Low), BandCount(all, third, Medium), BandCount(all, third, High),
            |rs|)
  }

  /** First-list numbers are in the pool, so that `last_seen[num]` exists. */
  predicate FirstListsInPool(rs: seq<Draw>, lt: LotteryType)
  {
    forall i, x :: 0 <= i < |rs| && x in rs[i].numbers ==> 1 <= x <= MaxNumber(lt)
  }

  /** How one more draw extends the occurrence list. */
  lemma AllNumbersStep(rs: seq<Draw>, idx: nat, lt: LotteryType)
    requires idx < |rs|
    ensures AllNumbers(rs[..idx + 1], lt) == AllNumbers(rs[..idx], lt) + DrawNumbers(rs[idx], lt)
  {
    assert rs[..idx + 1][..idx] == rs[..idx];
  }

  /** How one more draw extends the `last_seen` table. */
  lemma LastSeenStep(rs: seq<Draw>, idx: nat, n: int)
    requires idx < |rs|
    ensures LastSeen(rs[..idx + 1], n) ==
      if LastSeen(rs[..idx], n) >= 0 then LastSeen(rs[..idx], n)
      else if n in rs[idx].numbers then idx else -1
  {
    assert rs[..idx + 1][..idx] == rs[..idx];
  }

  /**
   * The loop over the first list of draw `idx`: each number is appended to the
   * occurrences, and `last_seen` is set to `idx` for numbers not seen before.
   */
  method RecordFirstList(dezenas: seq<int>, idx: int, max: int, all0: seq<int>, lastSeen0: map<int, int>)
    returns (all: seq<int>, lastSeen: map<int, int>)
    requires forall x :: x in dezenas ==> 1 <= x <= max
    requires lastSeen0.Keys == Pool(max)
    ensures all == all0 + dezenas
    ensures lastSeen.Keys == Pool(max)
    ensures forall n :: 1 <= n <= max ==>
      lastSeen[n] == if lastSeen0[n] != -1 then lastSeen0[n] else if n in dezenas then idx else -1
  {
    all, lastSeen := all0, lastSeen0;
    var j := 0;
    while j < |dezenas|
      invariant 0 <= j <= |dezenas|
      invariant all == all0 + dezenas[..j]
      invariant lastSeen.Keys == Pool(max)
      invariant forall n :: 1 <= n <= max ==>
        lastSeen[n] == if lastSeen0[n] != -1 then lastSeen0[n] else if n in dezenas[..j] then idx else -1
    {
      var num := dezenas[j];
      assert num in dezenas;
      assert num in Pool(max);
      assert dezenas[..j + 1] == dezenas[..j] + [num];
      all := all + [num];
      if lastSeen[num] == -1 {
        lastSeen := lastSeen[num := idx];
      }
      j := j + 1;
    }
    assert dezenas[..j] == dezenas;
  }

  /** The loop over the second list of a Dupla Sena draw: occurrences only. */
  method RecordSecondList(dezenas2: seq<int>, all0: seq<int>) returns (all: seq<int>)
    ensures all == all0 + dezenas2
  {
    all := all0;
    var k := 0;
    while k < |dezenas2|
      invariant 0 <= k <= |dezenas2|
      invariant all == all0 + dezenas2[..k]
    {
      assert dezenas2[..k + 1] == dezenas2[..k] + [dezenas2[k]];
      all := all + [dezenas2[k]];
      k := k + 1;
    }
    assert dezenas2[..k] == dezenas2;
  }

  /** One pass of the main loop: draw `idx` is added to the occurrence list and the `last_seen` table. */
  method RecordDraw(rs: seq<Draw>, idx: nat, lt: LotteryType, all0: seq<int>, lastSeen0: map<int, int>)
    returns (all: seq<int>, lastSeen: map<int, int>)
    requires idx < |rs| && FirstListsInPool(rs, lt)
    requires all0 == AllNumbers(rs[..idx], lt)
    requires lastSeen0.Keys == Pool(MaxNumber(lt))
    requires forall n :: 1 <= n <= MaxNumber(lt) ==> lastSeen0[n] == LastSeen(rs[..idx], n)
    ensures all == AllNumbers(rs[..idx + 1], lt)
    ensures lastSeen.Keys == Pool(MaxNumber(lt))
    ensures forall n :: 1 <= n <= MaxNumber(lt) ==> lastSeen[n] == LastSeen(rs[..idx + 1], n)
  {
    var max := MaxNumber(lt);
    assert forall x :: x in rs[idx].numbers ==> 1 <= x <= max;
    all, lastSeen := RecordFirstList(rs[idx].numbers, idx, max, all0, lastSeen0);
    if lt == DuplaSena {
      all := RecordSecondList(rs[idx].second, all);
    }
    AllNumbersStep(rs, idx, lt);
    LastSeenTableStep(rs, idx, max, lastSeen0, lastSeen);
  }

  /** The main loop: the occurrence list and the `last_seen` table of the whole history. */
  method CollectOccurrences(rs: seq<Draw>, lt: LotteryType) returns (all: seq<int>, lastSeen: map<int, int>)
    requires FirstListsInPool(rs, lt)
    ensures all == AllNumbers(rs, lt)
    ensures lastSeen == LastSeenMap(rs, MaxNumber(lt))
  {
    var max := MaxNumber(lt);
    all := [];
    lastSeen := LastSeenMap([], max);
    var idx := 0;
    while idx < |rs|
      invariant 0 <= idx <= |rs|
      invariant all == AllNumbers(rs[..idx], lt)
      invariant lastSeen.Keys == Pool(max)
      invariant forall n :: 1 <= n <= max ==> lastSeen[n] == LastSeen(rs[..idx], n)
    {
      all, lastSeen := RecordDraw(rs, idx, lt, all, lastSeen);
      idx := idx + 1;
    }
    assert rs[..idx] == rs;
    LastSeenTable(rs, max, lastSeen);
  }

  /** Recording the first list of draw `idx` turns the table of `rs[..idx]` into the table of `rs[..idx + 1]`. */
  lemma LastSeenTableStep(rs: seq<Draw>, idx: nat, max: int, before: map<int, int>, after: map<int, int>)
    requires idx < |rs|
    requires before.Keys == Pool(max) && after.Keys == Pool(max)
    requires forall n :: 1 <= n <= max ==> before[n] == LastSeen(rs[..idx], n)
    requires forall n :: 1 <= n <= max ==>
      after[n] == if before[n] != -1 then before[n] else if n in rs[idx].numbers then idx else -1
    ensures forall n :: 1 <= n <= max ==> after[n] == LastSeen(rs[..idx + 1], n)
  {
    forall n | 1 <= n <= max ensures after[n] == LastSeen(rs[..idx + 1], n) {
      LastSeenStep(rs, idx, n);
    }
  }

  /** A table over 1..max holding `LastSeen` of every number is the `last_seen` table. */
  lemma LastSeenTable(rs: seq<Draw>, max: int, m: map<int, int>)
    requires m.Keys == Pool(max)
    requires forall n :: 1 <= n <= max ==> m[n] == LastSeen(rs, n)
    ensures m == LastSeenMap(rs, max)
  {
  }

  /** The range-distribution loop. */
  method CountBands(all: seq<int>, third: int) returns (low: nat, medium: nat, high: nat)
    ensures low == BandCount(all, third, Low)
    ensures medium == BandCount(all, third, Medium)
    ensures high == BandCount(all, third, High)
  {
    low, medium, high := 0, 0, 0;
    for i := 0 to |all|
      invariant low == BandCount(all[..i], third, Low)
      invariant medium == BandCount(all[..i], third, Medium)
      invariant high == BandCount(all[..i], third, High)
    {
      var n := all[i];
      assert all[..i + 1][..i] == all[..i];
      if n <= third {
        low := low + 1;
      } else if n <= 2 * third {
        medium := medium + 1;
      } else {
        high := high + 1;
      }
    }
    assert all[..|all|] == all;
  }

  /** `calculate_statistics`. */
  method CalculateStatistics(rs: seq<Draw>, lt: LotteryType) returns (st: Stats)
    requires FirstListsInPool(rs, lt)
    ensures st == StatisticsOf(rs, lt)
    ensures rs == [] ==> st == EmptyStats()
  {
    if |rs| == 0 {
      return EmptyStats();
    }
    var max := MaxNumber(lt);
    var all, lastSeen := CollectOccurrences(rs, lt);
    var even := EvenCount(all);
    var odd := |all| - even;
    var low, medium, high := CountBands(all, max / 3);
    st := Stats(HotList(all), ColdList(all, max), DelayedList(lastSeen, max),
                even, odd, low, medium, high, |rs|);
    StatisticsOfParts(rs, lt, all, lastSeen, st);
  }

  /** A snapshot assembled from the occurrence list and the `last_seen` table of a non-empty history is `StatisticsOf`. */
  lemma StatisticsOfParts(rs: seq<Draw>, lt: LotteryType, all: seq<int>, lastSeen: map<int, int>, st: Stats)
    requires |rs| > 0
    requires all == AllNumbers(rs, lt) && lastSeen == LastSeenMap(rs, MaxNumber(lt))
    requires st == Stats(HotList(all), ColdList(all, MaxNumber(lt)), DelayedList(lastSeen, MaxNumber(lt)),
                         EvenCount(all), |all| - EvenCount(all),
                         BandCount(all, MaxNumber(lt) / 3, Low), BandCount(all, MaxNumber(lt) / 3, Medium),
                         BandCount(all, MaxNumber(lt) / 3, High), |rs|)
    ensures st == StatisticsOf(rs, lt)
  {
  }
}
