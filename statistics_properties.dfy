/**
 * What `calculate_statistics` promises about its result: totals that add up,
 * the order and completeness of the hot, cold and delayed lists, and where the
 * occurrences come from.
 */
module StatisticsProperties {
  import opened Lottery
  import opened Sequences
  import opened Sorting
  import opened Statistics

  /** Every occurrence falls in exactly one band. */
  lemma {:induction false} BandsPartition(s: seq<int>, third: int)
    ensures BandCount(s, third, Low) + BandCount(s, third, Medium) + BandCount(s, third, High) == |s|
  {
    if |s| > 0 {
      BandsPartition(s[..|s| - 1], third);
    }
  }

  /** Every occurrence is even or odd, so the occurrences less the even ones are the odd ones. */
  lemma {:induction false} ParitySplit(s: seq<int>)
    ensures EvenCount(s) + OddCount(s) == |s|
  {
    if |s| > 0 {
      ParitySplit(s[1..]);
    }
  }

  /**
   * The counts of a snapshot: bands and parities each sum to the number of
   * occurrences, and the number of draws analysed is the history's length.
   * An empty history gives zero everywhere.
   */
  lemma StatisticsTotals(rs: seq<Draw>, lt: LotteryType)
    ensures var st := StatisticsOf(rs, lt);
      var all := AllNumbers(rs, lt);
      && st.low + st.medium + st.high == |all|
      && st.even == EvenCount(all)
      && st.odd == OddCount(all)
      && st.even + st.odd == |all|
      && st.totalDraws == |rs|
  {
    var st, all, third := StatisticsOf(rs, lt), AllNumbers(rs, lt), MaxNumber(lt) / 3;
    ParitySplit(all);
    BandsPartition(all, third);
    SnapshotCounts(rs, lt);
    assert st.low == BandCount(all, third, Low) && st.medium == BandCount(all, third, Medium)
      && st.high == BandCount(all, third, High);
    assert st.even == EvenCount(all) && st.odd == |all| - EvenCount(all);
  }

  /** The counters of a snapshot, read off the occurrence list (all zero for an empty history). */
  lemma SnapshotCounts(rs: seq<Draw>, lt: LotteryType)
    ensures var st, all, third := StatisticsOf(rs, lt), AllNumbers(rs, lt), MaxNumber(lt) / 3;
      && st.low == BandCount(all, third, Low)
      && st.medium == BandCount(all, third, Medium)
      && st.high == BandCount(all, third, High)
      && st.even == EvenCount(all)
      && st.odd == |all| - EvenCount(all)
      && st.totalDraws == |rs|
  {
  }

  /** The first lists of the history, draw after draw. */
  function FirstLists(rs: seq<Draw>): seq<int>
  {
    if |rs| == 0 then [] else FirstLists(rs[..|rs| - 1]) + rs[|rs| - 1].numbers
  }

  /** The second lists of the history, draw after draw. */
  function SecondLists(rs: seq<Draw>): seq<int>
  {
    if |rs| == 0 then [] else SecondLists(rs[..|rs| - 1]) + rs[|rs| - 1].second
  }

  /**
   * Frequencies count every first-list occurrence and, for Dupla Sena only,
   * every second-list occurrence as well.
   */
  lemma {:induction false} OccurrencesSplit(rs: seq<Draw>, lt: LotteryType)
    ensures multiset(AllNumbers(rs, lt)) ==
      multiset(FirstLists(rs)) + (if lt == DuplaSena then multiset(SecondLists(rs)) else multiset{})
  {
    if |rs| > 0 {
      OccurrencesSplit(rs[..|rs| - 1], lt);
    }
  }

  /** Each hot entry is a number that occurs, with its true frequency; at most 15 entries. */
  lemma HotListEntries(all: seq<int>)
    ensures var hot := HotList(all);
      && |hot| <= ListLength
      && forall i :: 0 <= i < |hot| ==>
           hot[i].number in all && hot[i].frequency == multiset(all)[hot[i].number]
  {
    var u := Unique(all);
    var items := FreqItems(u, all);
    var hot := HotList(all);
    TopMembers(items, HotKey, ListLength);
    forall i | 0 <= i < |hot| ensures hot[i].number in all && hot[i].frequency == multiset(all)[hot[i].number] {
      var k :| 0 <= k < |items| && items[k] == hot[i];
      assert items[k].number == u[k];
    }
  }

  /**
   * The hot list is ordered by non-increasing frequency, equal frequencies in the
   * order the numbers first occur (`Counter.most_common`), and no number appears twice.
   */
  lemma HotListOrder(all: seq<int>)
    ensures var hot := HotList(all);
      && (forall i, j :: 0 <= i < j < |hot| ==> hot[i].frequency >= hot[j].frequency)
      && (forall i, j :: 0 <= i < j < |hot| && hot[i].frequency == hot[j].frequency ==>
            IndexOf(all, hot[i].number) < IndexOf(all, hot[j].number))
      && (forall i, j :: 0 <= i < j < |hot| ==> hot[i].number != hot[j].number)
  {
    HotListLex(all);
    HotListDistinct(all);
  }

  /** The order half of `HotListOrder`. */
  lemma HotListLex(all: seq<int>)
    ensures var hot := HotList(all);
      forall i, j :: 0 <= i < j < |hot| ==>
        hot[i].frequency > hot[j].frequency ||
        (hot[i].frequency == hot[j].frequency && IndexOf(all, hot[i].number) < IndexOf(all, hot[j].number))
  {
    var u := Unique(all);
    var items := FreqItems(u, all);
    var rank := (e: FreqEntry) => IndexOf(all, e.number);
    forall i, j | 0 <= i < j < |items| ensures rank(items[i]) < rank(items[j]) {
      assert items[i].number == u[i] && items[j].number == u[j];
    }
    TopLex(items, HotKey, rank, ListLength);
  }

  /** No number appears twice in the hot list. */
  lemma HotListDistinct(all: seq<int>)
    ensures var hot := HotList(all);
      forall i, j :: 0 <= i < j < |hot| ==> hot[i].number != hot[j].number
  {
    HotListLex(all);
    HotListEntries(all);
  }

  /**
   * An occurring number missing from the hot list is no more frequent than any
   * entry of a full list of 15.
   */
  lemma HotListComplete(all: seq<int>, n: int)
    requires n in all
    ensures var hot := HotList(all);
      n in FreqNumbers(hot) ||
      (|hot| == ListLength && forall i :: 0 <= i < |hot| ==> hot[i].frequency >= multiset(all)[n])
  {
    var u := Unique(all);
    var items := FreqItems(u, all);
    var e := FreqEntry(n, multiset(all)[n]);
    var m := IndexOf(u, n);
    assert items[m] == e;
    TopComplete(items, HotKey, ListLength, e);
    var hot := HotList(all);
    if e in hot {
      var p :| 0 <= p < |hot| && hot[p] == e;
      assert FreqNumbers(hot)[p] == n;
    }
  }

  /** The cold list holds min(15, max) numbers of 1..max, each with its true frequency. */
  lemma ColdListEntries(all: seq<int>, max: nat)
    ensures var cold := ColdList(all, max);
      && |cold| == (if max < ListLength then max else ListLength)
      && forall i :: 0 <= i < |cold| ==>
           1 <= cold[i].number <= max && cold[i].frequency == multiset(all)[cold[i].number]
  {
    var items := FreqItems(Range(1, max + 1), all);
    var cold := ColdList(all, max);
    TopMembers(items, ColdKey, ListLength);
    forall i | 0 <= i < |cold| ensures 1 <= cold[i].number <= max && cold[i].frequency == multiset(all)[cold[i].number] {
      var k :| 0 <= k < |items| && items[k] == cold[i];
    }
  }

  /**
   * The cold list is ordered by ascending frequency, equal frequencies in
   * ascending number order (the stable sort over 1..max).
   */
  lemma ColdListOrder(all: seq<int>, max: nat)
    ensures var cold := ColdList(all, max);
      forall i, j :: 0 <= i < j < |cold| ==>
        cold[i].frequency < cold[j].frequency ||
        (cold[i].frequency == cold[j].frequency && cold[i].number < cold[j].number)
  {
    TopLex(FreqItems(Range(1, max + 1), all), ColdKey, EntryNumber, ListLength);
  }

  /** A number of the pool missing from the cold list is at least as frequent as every entry of a full list. */
  lemma ColdListComplete(all: seq<int>, max: nat, n: int)
    requires 1 <= n <= max
    ensures var cold := ColdList(all, max);
      n in FreqNumbers(cold) ||
      (|cold| == ListLength && forall i :: 0 <= i < |cold| ==> cold[i].frequency <= multiset(all)[n])
  {
    var items := FreqItems(Range(1, max + 1), all);
    var e := FreqEntry(n, multiset(all)[n]);
    assert items[n - 1] == e;
    TopComplete(items, ColdKey, ListLength, e);
    var cold := ColdList(all, max);
    if e in cold {
      var p :| 0 <= p < |cold| && cold[p] == e;
      assert FreqNumbers(cold)[p] == n;
    }
  }

  /**
   * The delayed list holds at most 15 numbers of the pool, each never seen or
   * last seen more than five draws back, reported with that gap.
   */
  lemma DelayedListEntries(rs: seq<Draw>, max: nat)
    ensures var d := DelayedList(LastSeenMap(rs, max), max);
      && |d| <= ListLength
      && forall i :: 0 <= i < |d| ==>
           && 1 <= d[i].number <= max
           && d[i].gap == GapOf(LastSeen(rs, d[i].number))
           && (d[i].gap == Never || d[i].gap.draws > DelayThreshold)
  {
    DelayedEntriesFor(LastSeenMap(rs, max), max);
  }

  /** `DelayedListEntries` for any table over the pool. */
  lemma DelayedEntriesFor(ls: map<int, int>, max: nat)
    requires Pool(max) <= ls.Keys
    ensures var d := DelayedList(ls, max);
      && |d| <= ListLength
      && forall i :: 0 <= i < |d| ==>
           && 1 <= d[i].number <= max
           && d[i].gap == GapOf(ls[d[i].number])
           && (d[i].gap == Never || d[i].gap.draws > DelayThreshold)
  {
    var c := DelayCandidates(Range(1, max + 1), ls);
    var d := DelayedList(ls, max);
    TopMembers(c, DelayKey, ListLength);
    forall i | 0 <= i < |d|
      ensures 1 <= d[i].number <= max && d[i].gap == GapOf(ls[d[i].number])
      ensures d[i].gap == Never || d[i].gap.draws > DelayThreshold
    {
      var k :| 0 <= k < |c| && c[k] == d[i];
    }
  }

  /**
   * The delayed list is ordered by decreasing sort value (999 for a number never
   * seen, the gap otherwise), equal values in ascending number order.
   */
  lemma DelayedListOrder(rs: seq<Draw>, max: nat)
    ensures var d := DelayedList(LastSeenMap(rs, max), max);
      forall i, j :: 0 <= i < j < |d| ==>
        SortValue(d[i].gap) > SortValue(d[j].gap) ||
        (SortValue(d[i].gap) == SortValue(d[j].gap) && d[i].number < d[j].number)
  {
    DelayedOrderFor(LastSeenMap(rs, max), max);
  }

  /** `DelayedListOrder` for any table over the pool. */
  lemma DelayedOrderFor(ls: map<int, int>, max: nat)
    requires Pool(max) <= ls.Keys
    ensures var d := DelayedList(ls, max);
      forall i, j :: 0 <= i < j < |d| ==>
        SortValue(d[i].gap) > SortValue(d[j].gap) ||
        (SortValue(d[i].gap) == SortValue(d[j].gap) && d[i].number < d[j].number)
  {
    var c := DelayCandidates(Range(1, max + 1), ls);
    DelayCandidatesOrdered(Range(1, max + 1), ls);
    var rank := (e: DelayEntry) => e.number;
    assert forall i, j :: 0 <= i < j < |c| ==> rank(c[i]) < rank(c[j]);
    TopLex(c, DelayKey, rank, ListLength);
  }

  /** A qualifying number missing from the delayed list sorts no earlier than every entry of a full list. */
  lemma DelayedListComplete(rs: seq<Draw>, max: nat, n: int)
    requires 1 <= n <= max
    requires LastSeen(rs, n) == -1 || LastSeen(rs, n) > DelayThreshold
    ensures var d := DelayedList(LastSeenMap(rs, max), max);
      (exists i :: 0 <= i < |d| && d[i].number == n) ||
      (|d| == ListLength &&
       forall i :: 0 <= i < |d| ==> SortValue(d[i].gap) >= SortValue(GapOf(LastSeen(rs, n))))
  {
    assert n in Pool(max);
    DelayedCompleteFor(LastSeenMap(rs, max), max, n);
  }

  /** `DelayedListComplete` for any table over the pool. */
  lemma DelayedCompleteFor(ls: map<int, int>, max: nat, n: int)
    requires Pool(max) <= ls.Keys
    requires 1 <= n <= max && IsDelayed(ls[n])
    ensures var d := DelayedList(ls, max);
      (exists i :: 0 <= i < |d| && d[i].number == n) ||
      (|d| == ListLength && forall i :: 0 <= i < |d| ==> SortValue(d[i].gap) >= SortValue(GapOf(ls[n])))
  {
    var ns := Range(1, max + 1);
    assert ns[n - 1] == n;
    DelayCandidatesComplete(ns, ls, n - 1);
    DelayedTop(DelayCandidates(ns, ls), DelayEntry(n, GapOf(ls[n])));
  }

  /** The cut at 15 of the sorted candidates keeps the largest sort values. */
  lemma DelayedTop(c: seq<DelayEntry>, e: DelayEntry)
    requires e in c
    ensures var d := Take(SortBy(c, DelayKey), ListLength);
      (exists i :: 0 <= i < |d| && d[i].number == e.number) ||
      (|d| == ListLength && forall i :: 0 <= i < |d| ==> SortValue(d[i].gap) >= SortValue(e.gap))
  {
    TopComplete(c, DelayKey, ListLength, e);
    var d := Take(SortBy(c, DelayKey), ListLength);
    if e in d {
      var p :| 0 <= p < |d| && d[p] == e;
      assert d[p].number == e.number;
    }
  }

  /**
   * With at most 999 draws every finite gap sorts below the "never" key, so the
   * never-seen numbers come first and the finite gaps follow, largest first.
   */
  lemma DelayedNeverFirst(rs: seq<Draw>, max: nat)
    requires |rs| <= NeverKey
    ensures var d := DelayedList(LastSeenMap(rs, max), max);
      && (forall i, j :: 0 <= i < j < |d| && d[j].gap == Never ==> d[i].gap == Never)
      && (forall i, j :: 0 <= i < j < |d| && d[i].gap.Since? && d[j].gap.Since? ==>
            d[i].gap.draws >= d[j].gap.draws)
  {
    var d := DelayedList(LastSeenMap(rs, max), max);
    DelayedListOrder(rs, max);
    FiniteGapsBelowNever(rs, max);
  }

  /** A finite gap within at most 999 draws sorts below a number never seen. */
  lemma FiniteGapsBelowNever(rs: seq<Draw>, max: nat)
    requires |rs| <= NeverKey
    ensures var d := DelayedList(LastSeenMap(rs, max), max);
      forall i :: 0 <= i < |d| && d[i].gap.Since? ==> SortValue(d[i].gap) < NeverKey
  {
    DelayedListEntries(rs, max);
  }

  /** Counting bands distributes over concatenation. */
  lemma {:induction false} BandCountAppend(a: seq<int>, b: seq<int>, third: int, band: Band)
    ensures BandCount(a + b, third, band) == BandCount(a, third, band) + BandCount(b, third, band)
  {
    if |b| == 0 {
      assert a + b == a;
    } else {
      assert (a + b)[..|a + b| - 1] == a + b[..|b| - 1];
      BandCountAppend(a, b[..|b| - 1], third, band);
    }
  }

  /** A sequence lying wholly in one band counts every element there. */
  lemma {:induction false} BandCountAll(s: seq<int>, third: int, band: Band)
    requires forall i :: 0 <= i < |s| ==> BandOf(s[i], third) == band
    ensures BandCount(s, third, band) == |s|
  {
    if |s| > 0 {
      BandCountAll(s[..|s| - 1], third, band);
    }
  }

  /** A sequence lying wholly outside a band counts nothing there. */
  lemma {:induction false} BandCountNone(s: seq<int>, third: int, band: Band)
    requires forall i :: 0 <= i < |s| ==> BandOf(s[i], third) != band
    ensures BandCount(s, third, band) == 0
  {
    if |s| > 0 {
      BandCountNone(s[..|s| - 1], third, band);
    }
  }

  /** Taking out the element at `k` takes out its band contribution. */
  lemma BandCountRemove(b: seq<int>, k: nat, third: int, band: Band)
    requires k < |b|
    ensures BandCount(b, third, band) ==
      BandCount(b[..k] + b[k + 1..], third, band) + (if BandOf(b[k], third) == band then 1 else 0)
  {
    assert b == b[..k] + [b[k]] + b[k + 1..];
    BandCountAppend(b[..k], [b[k]], third, band);
    BandCountAppend(b[..k] + [b[k]], b[k + 1..], third, band);
    BandCountAppend(b[..k], b[k + 1..], third, band);
    assert [b[k]][..0] == [];
  }

  /** Band counts do not depend on the order of the occurrences. */
  lemma {:induction false} BandCountPermutation(a: seq<int>, b: seq<int>, third: int, band: Band)
    requires multiset(a) == multiset(b)
    ensures BandCount(a, third, band) == BandCount(b, third, band)
  {
    if |a| == 0 {
      assert |b| == |multiset(b)| == 0;
    } else {
      var n := |a| - 1;
      assert a[n] in multiset(b);
      var k :| 0 <= k < |b| && b[k] == a[n];
      MultisetRemove(a, n);
      MultisetRemove(b, k);
      assert a[..n] + a[n + 1..] == a[..n];
      BandCountPermutation(a[..n], b[..k] + b[k + 1..], third, band);
      BandCountRemove(b, k, third, band);
    }
  }

  /** Every number of every draw (both lists for Dupla Sena) lies in 1..max. */
  predicate DrawsInPool(rs: seq<Draw>, lt: LotteryType)
  {
    forall i, x :: 0 <= i < |rs| && x in DrawNumbers(rs[i], lt) ==> 1 <= x <= MaxNumber(lt)
  }

  /** Every number a snapshot mentions lies in 1..max. */
  predicate StatsInPool(st: Stats, max: int)
  {
    && (forall i :: 0 <= i < |st.hot| ==> 1 <= st.hot[i].number <= max)
    && (forall i :: 0 <= i < |st.cold| ==> 1 <= st.cold[i].number <= max)
    && (forall i :: 0 <= i < |st.delayed| ==> 1 <= st.delayed[i].number <= max)
  }

  /** The occurrence list holds only numbers of the draws. */
  lemma {:induction false} AllNumbersInPool(rs: seq<Draw>, lt: LotteryType)
    requires DrawsInPool(rs, lt)
    ensures forall x :: x in AllNumbers(rs, lt) ==> 1 <= x <= MaxNumber(lt)
  {
    if |rs| > 0 {
      var n := |rs| - 1;
      assert DrawsInPool(rs[..n], lt) by {
        forall i, x | 0 <= i < n && x in DrawNumbers(rs[..n][i], lt) ensures 1 <= x <= MaxNumber(lt) {
          assert rs[..n][i] == rs[i];
        }
      }
      AllNumbersInPool(rs[..n], lt);
    }
  }

  /** The hot and cold lists of an occurrence list in 1..max stay in 1..max. */
  lemma FreqListsInPool(all: seq<int>, max: nat)
    requires forall x :: x in all ==> 1 <= x <= max
    ensures forall i :: 0 <= i < |HotList(all)| ==> 1 <= HotList(all)[i].number <= max
    ensures forall i :: 0 <= i < |ColdList(all, max)| ==> 1 <= ColdList(all, max)[i].number <= max
  {
    HotListEntries(all);
    ColdListEntries(all, max);
  }

  /** Numbers in range on both lists are in range on the first. */
  lemma FirstListsFromDraws(rs: seq<Draw>, lt: LotteryType)
    requires DrawsInPool(rs, lt)
    ensures FirstListsInPool(rs, lt)
  {
    forall i, x | 0 <= i < |rs| && x in rs[i].numbers ensures 1 <= x <= MaxNumber(lt) {
      assert x in DrawNumbers(rs[i], lt);
    }
  }

  lemma HotInPool(rs: seq<Draw>, lt: LotteryType)
    requires DrawsInPool(rs, lt)
    requires |rs| > 0
    ensures var st := StatisticsOf(rs, lt);
      forall i :: 0 <= i < |st.hot| ==> 1 <= st.hot[i].number <= MaxNumber(lt)
  {
    AllNumbersInPool(rs, lt);
    FreqListsInPool(AllNumbers(rs, lt), MaxNumber(lt));
  }

  lemma ColdInPool(rs: seq<Draw>, lt: LotteryType)
    requires |rs| > 0
    ensures var st := StatisticsOf(rs, lt);
      forall i :: 0 <= i < |st.cold| ==> 1 <= st.cold[i].number <= MaxNumber(lt)
  {
    ColdListEntries(AllNumbers(rs, lt), MaxNumber(lt));
  }

  lemma DelayedInPool(rs: seq<Draw>, lt: LotteryType)
    requires |rs| > 0
    ensures var st := StatisticsOf(rs, lt);
      forall i :: 0 <= i < |st.delayed| ==> 1 <= st.delayed[i].number <= MaxNumber(lt)
  {
    DelayedListEntries(rs, MaxNumber(lt));
  }

  /** A history whose draws stay in 1..max yields a snapshot that does too. */
  lemma StatisticsInPool(rs: seq<Draw>, lt: LotteryType)
    requires DrawsInPool(rs, lt)
    ensures StatsInPool(StatisticsOf(rs, lt), MaxNumber(lt))
  {
    if |rs| > 0 {
      HotInPool(rs, lt);
      ColdInPool(rs, lt);
      DelayedInPool(rs, lt);
    }
  }
}
