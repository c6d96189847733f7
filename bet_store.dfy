/**
 * The saved-bet collection behind `save_bet`, `check_bet` and
 * `check_all_bets`, as an object holding the stored documents in insertion
 * order. The document store itself and timestamps are external; a new id
 * (`uuid4`) is an arbitrary string no stored bet has.
 */
module BetStore {
  import opened Wrappers
  import opened Lottery
  import opened Sorting
  import opened DuplicateGuard
  import opened Checking

  /** What a check recorded on a bet. */
  datatype Outcome = Full(full: CheckResult) | Quick(quick: QuickResult)

  /** A saved bet document (explanation and creation time left out). */
  datatype StoredBet = StoredBet(
    id: string,
    lotteryType: LotteryType,
    numbers: seq<int>,
    strategy: string,
    key: BetKey,
    checked: bool,
    result: Option<Outcome>)

  /** One entry of the `check_all_bets` response. */
  datatype BetReport = BetReport(betId: string, result: QuickResult)

  /** Whether some stored bet has the key: the lookup by hash before an insert. */
  function KeyStored(bets: seq<StoredBet>, k: BetKey): (b: bool)
    ensures b <==> exists i :: 0 <= i < |bets| && bets[i].key == k
  {
    if |bets| == 0 then false
    else
      assert forall i :: 1 <= i < |bets| ==> bets[i] == bets[1..][i - 1];
      bets[0].key == k || KeyStored(bets[1..], k)
  }

  /** Position of the first bet with the id, or `|bets|` when there is none: the lookup by id. */
  function FindId(bets: seq<StoredBet>, id: string): (k: nat)
    ensures k <= |bets|
    ensures k < |bets| ==> bets[k].id == id
    ensures forall i :: 0 <= i < k ==> bets[i].id != id
  {
    if |bets| == 0 then 0
    else if bets[0].id == id then 0
    else 1 + FindId(bets[1..], id)
  }

  /**
   * Whether `check_all_bets` looks at a bet: unchecked, and of the requested
   * game if one is given (an absent or empty parameter asks for every game; the
   * parameter is not validated, so an unknown name matches no bet).
   */
  predicate Pending(b: StoredBet, filter: Option<string>)
  {
    !b.checked && (filter.None? || filter.value == "" || Name(b.lotteryType) == filter.value)
  }

  /** How many bets before position `n` `check_all_bets` looks at. */
  function PendingBefore(bets: seq<StoredBet>, filter: Option<string>, n: nat): nat
    requires n <= |bets|
  {
    if n == 0 then 0
    else PendingBefore(bets, filter, n - 1) + (if Pending(bets[n - 1], filter) then 1 else 0)
  }

  /** The query fetches at most this many unchecked bets. */
  const CheckAllLimit := 100

  /** How many bets the query returns: the pending ones, at most 100. */
  function QueriedCount(bets: seq<StoredBet>, filter: Option<string>): nat
  {
    var p := PendingBefore(bets, filter, |bets|);
    if p < CheckAllLimit then p else CheckAllLimit
  }

  /**
   * The outcome of the draw fetch made for the `k`-th bet the query returned;
   * `fetches` holds one outcome per returned bet, `None` for a failed fetch.
   */
  function FetchAt(fetches: seq<Option<seq<int>>>, k: nat): Option<seq<int>>
  {
    if k < |fetches| then fetches[k] else None
  }

  /** Whether the bet at `n` is among the first 100 pending ones and the draw fetched for it arrived. */
  predicate CheckedByCheckAll(bets: seq<StoredBet>, filter: Option<string>, fetches: seq<Option<seq<int>>>, n: nat)
    requires n < |bets|
  {
    && Pending(bets[n], filter)
    && PendingBefore(bets, filter, n) < CheckAllLimit
    && FetchAt(fetches, PendingBefore(bets, filter, n)).Some?
  }

  /** The draw fetched for the bet at `n`, when `check_all_bets` checks it. */
  function DrawFor(bets: seq<StoredBet>, filter: Option<string>, fetches: seq<Option<seq<int>>>, n: nat): seq<int>
    requires n < |bets| && CheckedByCheckAll(bets, filter, fetches, n)
  {
    FetchAt(fetches, PendingBefore(bets, filter, n)).value
  }

  /** The bet at `n` after `check_all_bets`. */
  function AfterCheckAll(bets: seq<StoredBet>, filter: Option<string>, fetches: seq<Option<seq<int>>>, n: nat): StoredBet
    requires n < |bets|
  {
    if CheckedByCheckAll(bets, filter, fetches, n) then
      var b := bets[n];
      b.(checked := true, result := Some(Quick(QuickCheck(b.numbers, DrawFor(bets, filter, fetches, n)))))
    else bets[n]
  }

  /** The reports of `check_all_bets` for the bets before position `n`. */
  function ReportsBefore(bets: seq<StoredBet>, filter: Option<string>, fetches: seq<Option<seq<int>>>, n: nat): seq<BetReport>
    requires n <= |bets|
  {
    if n == 0 then []
    else
      ReportsBefore(bets, filter, fetches, n - 1) +
      if CheckedByCheckAll(bets, filter, fetches, n - 1) then
        var b := bets[n - 1];
        [BetReport(b.id, QuickCheck(b.numbers, DrawFor(bets, filter, fetches, n - 1)))]
      else []
  }

  /** Pending counts only grow along the store. */
  lemma {:induction false} PendingMonotone(bets: seq<StoredBet>, filter: Option<string>, m: nat, n: nat)
    requires m <= n <= |bets|
    ensures PendingBefore(bets, filter, m) <= PendingBefore(bets, filter, n)
    decreases n - m
  {
    if m < n {
      PendingMonotone(bets, filter, m, n - 1);
    }
  }

  /**
   * Every one of the first 100 pending bets is one the query returns, so it
   * has its own fetch outcome when `fetches` has one per returned bet.
   */
  lemma QueriedHaveFetches(bets: seq<StoredBet>, filter: Option<string>, fetches: seq<Option<seq<int>>>, n: nat)
    requires |fetches| == QueriedCount(bets, filter)
    requires n < |bets| && Pending(bets[n], filter) && PendingBefore(bets, filter, n) < CheckAllLimit
    ensures PendingBefore(bets, filter, n) < |fetches|
    ensures FetchAt(fetches, PendingBefore(bets, filter, n)) == fetches[PendingBefore(bets, filter, n)]
  {
    PendingMonotone(bets, filter, n + 1, |bets|);
  }

  /** The bet at `n` is checked exactly when it is queried and the fetch made for it succeeded. */
  lemma CheckAllFetch(bets: seq<StoredBet>, filter: Option<string>, fetches: seq<Option<seq<int>>>, n: nat)
    requires |fetches| == QueriedCount(bets, filter) && n < |bets|
    ensures var k := PendingBefore(bets, filter, n);
      && (Pending(bets[n], filter) && k < CheckAllLimit ==> k < |fetches|)
      && (CheckedByCheckAll(bets, filter, fetches, n) <==>
            Pending(bets[n], filter) && k < CheckAllLimit && fetches[k].Some?)
      && (CheckedByCheckAll(bets, filter, fetches, n) ==> DrawFor(bets, filter, fetches, n) == fetches[k].value)
  {
    if Pending(bets[n], filter) && PendingBefore(bets, filter, n) < CheckAllLimit {
      QueriedHaveFetches(bets, filter, fetches, n);
    }
  }

  /** No two stored bets share an id. */
  ghost predicate DistinctIds(bets: seq<StoredBet>)
  {
    forall i, j :: 0 <= i < j < |bets| ==> bets[i].id != bets[j].id
  }

  /** With distinct ids, looking a bet up by its own id finds its position. */
  lemma DistinctIdsLocate(bets: seq<StoredBet>)
    requires DistinctIds(bets)
    ensures forall n :: 0 <= n < |bets| ==> FindId(bets, bets[n].id) == n
  {
  }

  /** A lookup by id depends only on the ids, in order. */
  lemma FindIdByIds(bets: seq<StoredBet>, others: seq<StoredBet>, id: string)
    requires |bets| == |others|
    requires forall i :: 0 <= i < |bets| ==> bets[i].id == others[i].id
    ensures FindId(bets, id) == FindId(others, id)
  {
  }

  /** Some string differs from every stored id. */
  lemma FreshIdExists(bets: seq<StoredBet>) returns (id: string)
    ensures FindId(bets, id) == |bets|
  {
    id := LongerThanIds(bets);
  }

  /** A string longer than every stored id. */
  function LongerThanIds(bets: seq<StoredBet>): (id: string)
    ensures forall i :: 0 <= i < |bets| ==> |bets[i].id| < |id|
  {
    if |bets| == 0 then "x"
    else
      var rest := LongerThanIds(bets[1..]);
      assert forall i :: 1 <= i < |bets| ==> bets[i] == bets[1..][i - 1];
      bets[0].id + rest
  }

  ghost predicate ValidBets(bets: seq<StoredBet>)
  {
    && (forall i :: 0 <= i < |bets| ==>
          && AcceptsBets(bets[i].lotteryType)
          && Sorted(bets[i].numbers)
          && bets[i].key == KeyOf(bets[i].lotteryType, bets[i].numbers))
    && DistinctStoredKeys(bets)
    && DistinctIds(bets)
  }

  /** No key is stored twice. */
  ghost predicate DistinctStoredKeys(bets: seq<StoredBet>)
  {
    forall i, j :: 0 <= i < j < |bets| ==> bets[i].key != bets[j].key
  }

  /** A valid bet document whose key and id are not yet stored can be appended. */
  lemma AppendKeepsValid(bets: seq<StoredBet>, doc: StoredBet)
    requires ValidBets(bets) && !KeyStored(bets, doc.key) && FindId(bets, doc.id) == |bets|
    requires AcceptsBets(doc.lotteryType) && Sorted(doc.numbers) && doc.key == KeyOf(doc.lotteryType, doc.numbers)
    ensures ValidBets(bets + [doc])
  {
    AppendKeepsKeys(bets, doc);
    AppendKeepsIds(bets, doc);
    var r := bets + [doc];
    forall i | 0 <= i < |r|
      ensures AcceptsBets(r[i].lotteryType) && Sorted(r[i].numbers) && r[i].key == KeyOf(r[i].lotteryType, r[i].numbers)
    {
      if i < |bets| {
        assert r[i] == bets[i];
      }
    }
  }

  /** Appending a bet whose key is not stored keeps the keys distinct. */
  lemma AppendKeepsKeys(bets: seq<StoredBet>, doc: StoredBet)
    requires DistinctStoredKeys(bets) && !KeyStored(bets, doc.key)
    ensures DistinctStoredKeys(bets + [doc])
  {
    var r := bets + [doc];
    forall i, j | 0 <= i < j < |r| ensures r[i].key != r[j].key {
      assert r[i] == bets[i];
      if j < |bets| {
        assert r[j] == bets[j];
      }
    }
  }

  /** Appending a bet whose id is not stored keeps the ids distinct. */
  lemma AppendKeepsIds(bets: seq<StoredBet>, doc: StoredBet)
    requires DistinctIds(bets) && FindId(bets, doc.id) == |bets|
    ensures DistinctIds(bets + [doc])
  {
    var r := bets + [doc];
    forall i, j | 0 <= i < j < |r| ensures r[i].id != r[j].id {
      assert r[i] == bets[i];
      if j < |bets| {
        assert r[j] == bets[j];
      }
    }
  }

  /** Rewriting bets without changing their ids, games, numbers or keys keeps validity. */
  lemma SameIdentityKeepsValid(before: seq<StoredBet>, after: seq<StoredBet>)
    requires ValidBets(before) && |after| == |before|
    requires forall n :: 0 <= n < |after| ==>
      && after[n].id == before[n].id
      && after[n].lotteryType == before[n].lotteryType
      && after[n].numbers == before[n].numbers
      && after[n].key == before[n].key
    ensures ValidBets(after)
  {
  }

  /** `check_all_bets` changes neither the id, the game, the numbers nor the key of any bet, so validity is kept. */
  lemma AfterCheckAllKeepsValid(before: seq<StoredBet>, filter: Option<string>, fetches: seq<Option<seq<int>>>,
                                after: seq<StoredBet>)
    requires ValidBets(before) && |after| == |before|
    requires forall n :: 0 <= n < |after| ==> after[n] == AfterCheckAll(before, filter, fetches, n)
    ensures ValidBets(after)
  {
    SameIdentityKeepsValid(before, after);
  }

  /** Recording a result on one bet keeps validity. */
  lemma RecordKeepsValid(bets: seq<StoredBet>, k: nat, result: Outcome)
    requires ValidBets(bets) && k < |bets|
    ensures ValidBets(bets[k := bets[k].(checked := true, result := Some(result))])
  {
    SameIdentityKeepsValid(bets, bets[k := bets[k].(checked := true, result := Some(result))]);
  }

  /** One step of `check_all_bets`: the bet at `n` and the reports so far. */
  lemma CheckAllStep(bets: seq<StoredBet>, filter: Option<string>, fetches: seq<Option<seq<int>>>, n: nat)
    requires n < |bets|
    ensures PendingBefore(bets, filter, n + 1) == PendingBefore(bets, filter, n) + (if Pending(bets[n], filter) then 1 else 0)
    ensures ReportsBefore(bets, filter, fetches, n + 1) == ReportsBefore(bets, filter, fetches, n) +
      if CheckedByCheckAll(bets, filter, fetches, n) then
        [BetReport(bets[n].id, QuickCheck(bets[n].numbers, DrawFor(bets, filter, fetches, n)))]
      else []
  {
  }

  class Store {
    var bets: seq<StoredBet>

    /** Every stored bet is of a bet game, keyed by its sorted numbers, and no key is stored twice. */
    ghost predicate Valid()
      reads this
    {
      ValidBets(bets)
    }

    constructor()
      ensures Valid()
      ensures bets == []
    {
      bets := [];
    }

    /**
     * `save_bet` (lines 512-538): a game other than quina or dupla_sena is
     * refused (400), a bet whose canonical key is already stored is refused
     * (409), and otherwise the bet is appended under a new id with its numbers
     * sorted, unchecked.
     */
    method SaveBet(lotteryType: string, numbers: seq<int>, strategy: string)
      returns (r: Result<StoredBet, Error>)
      requires Valid()
      modifies this
      ensures Valid()
      ensures (ParseLotteryType(lotteryType).None? || !AcceptsBets(ParseLotteryType(lotteryType).value)) ==>
        r == Failure(InvalidRequest) && bets == old(bets)
      ensures ParseLotteryType(lotteryType).Some? && AcceptsBets(ParseLotteryType(lotteryType).value) ==>
        var lt := ParseLotteryType(lotteryType).value;
        if KeyStored(old(bets), KeyOf(lt, numbers)) then
          r == Failure(Conflict) && bets == old(bets)
        else
          && r.Success?
          && r.value == StoredBet(r.value.id, lt, SortInts(numbers), strategy, KeyOf(lt, numbers), false, None)
          && FindId(old(bets), r.value.id) == |old(bets)|
          && bets == old(bets) + [r.value]
    {
      var parsed := ParseLotteryType(lotteryType);
      if parsed.None? || !AcceptsBets(parsed.value) {
        return Failure(InvalidRequest);
      }
      var lt := parsed.value;
      var key := KeyOf(lt, numbers);
      if KeyStored(bets, key) {
        return Failure(Conflict);
      }
      var sorted := SortInts(numbers);
      KeyIdempotent(lt, numbers);
      var unused := FreshIdExists(bets);
      var id :| FindId(bets, id) == |bets|;
      var doc := StoredBet(id, lt, sorted, strategy, key, false, None);
      AppendKeepsValid(bets, doc);
      bets := bets + [doc];
      r := Success(doc);
    }

    /**
     * `check_bet` (lines 573-642): the first bet with the id is checked against
     * the fetched draw (`None` when the fetch failed) and the result recorded on it.
     */
    method CheckStoredBet(id: string, drawn: Option<seq<int>>) returns (r: Result<CheckResult, Error>)
      requires Valid()
      modifies this
      ensures Valid()
      ensures FindId(old(bets), id) == |old(bets)| ==> r == Failure(NotFound) && bets == old(bets)
      ensures FindId(old(bets), id) < |old(bets)| && drawn.None? ==> r == Failure(Unavailable) && bets == old(bets)
      ensures FindId(old(bets), id) < |old(bets)| && drawn.Some? ==>
        var k := FindId(old(bets), id);
        var b := old(bets)[k];
        && r == Success(CheckBet(b.lotteryType, b.numbers, drawn.value))
        && bets == old(bets)[k := b.(checked := true, result := Some(Full(r.value)))]
    {
      var k := FindId(bets, id);
      if k == |bets| {
        return Failure(NotFound);
      }
      if drawn.None? {
        return Failure(Unavailable);
      }
      var b := bets[k];
      var result := CheckBet(b.lotteryType, b.numbers, drawn.value);
      RecordKeepsValid(bets, k, Full(result));
      bets := bets[k := b.(checked := true, result := Some(Full(result)))];
      r := Success(result);
    }

    /**
     * `check_all_bets` (lines 658-690): the query returns the first 100
     * unchecked bets (of the requested game, if any); a draw is fetched for
     * each of them in turn, and each bet whose fetch succeeded is matched
     * against it and marked checked; the others are left as they are.
     */
    method CheckAll(filter: Option<string>, fetches: seq<Option<seq<int>>>) returns (reports: seq<BetReport>)
      requires Valid()
      requires |fetches| == QueriedCount(bets, filter)
      modifies this
      ensures Valid()
      ensures |bets| == |old(bets)|
      ensures forall n :: 0 <= n < |bets| ==> bets[n] == AfterCheckAll(old(bets), filter, fetches, n)
      ensures reports == ReportsBefore(old(bets), filter, fetches, |old(bets)|)
    {
      DistinctIdsLocate(bets);
      reports, bets := RunCheckAll(bets, filter, fetches);
      AfterCheckAllKeepsValid(old(bets), filter, fetches, bets);
    }
  }

  /** The state of the `check_all_bets` loop after the bets before position `n`. */
  ghost predicate CheckAllProgress(before: seq<StoredBet>, filter: Option<string>, fetches: seq<Option<seq<int>>>,
                                   cur: seq<StoredBet>, n: nat, seen: nat, reports: seq<BetReport>)
  {
    && n <= |cur| == |before|
    && seen == PendingBefore(before, filter, n)
    && (forall i :: 0 <= i < n ==> cur[i] == AfterCheckAll(before, filter, fetches, i))
    && (forall i :: n <= i < |cur| ==> cur[i] == before[i])
    && (forall i :: 0 <= i < |cur| ==> cur[i].id == before[i].id)
    && reports == ReportsBefore(before, filter, fetches, n)
  }

  /** Handling the bet at `n` as `check_all_bets` does moves the loop state on by one bet. */
  lemma CheckAllAdvance(before: seq<StoredBet>, filter: Option<string>, fetches: seq<Option<seq<int>>>,
                        cur: seq<StoredBet>, n: nat, seen: nat, reports: seq<BetReport>,
                        next: StoredBet, report: seq<BetReport>)
    requires CheckAllProgress(before, filter, fetches, cur, n, seen, reports) && n < |cur|
    requires next == AfterCheckAll(before, filter, fetches, n)
    requires ReportsBefore(before, filter, fetches, n + 1) == ReportsBefore(before, filter, fetches, n) + report
    ensures CheckAllProgress(before, filter, fetches, cur[n := next], n + 1,
                             seen + (if Pending(cur[n], filter) then 1 else 0), reports + report)
  {
    CheckAllStep(before, filter, fetches, n);
  }

  /**
   * The body of the `check_all_bets` loop for the bet at `n`, `seen` pending
   * bets having come before it: a queried bet whose fetch succeeded is matched
   * and marked checked, with one report.
   */
  method CheckQueried(before: seq<StoredBet>, filter: Option<string>, fetches: seq<Option<seq<int>>>, n: nat, seen: nat)
    returns (next: StoredBet, report: seq<BetReport>)
    requires |fetches| == QueriedCount(before, filter) && n < |before|
    requires seen == PendingBefore(before, filter, n)
    ensures next == AfterCheckAll(before, filter, fetches, n)
    ensures ReportsBefore(before, filter, fetches, n + 1) == ReportsBefore(before, filter, fetches, n) + report
  {
    CheckAllStep(before, filter, fetches, n);
    CheckAllFetch(before, filter, fetches, n);
    var b := before[n];
    next := b;
    report := [];
    if Pending(b, filter) && seen < CheckAllLimit {
      var data := fetches[seen];
      if data.Some? {
        var result := QuickCheck(b.numbers, data.value);
        next := b.(checked := true, result := Some(Quick(result)));
        report := [BetReport(b.id, result)];
      }
    }
  }

  /** One pass of the `check_all_bets` loop: the bet at `n` is handled and written back by its id. */
  method CheckAllPass(before: seq<StoredBet>, filter: Option<string>, fetches: seq<Option<seq<int>>>,
                      cur: seq<StoredBet>, n: nat, seen: nat, reports: seq<BetReport>)
    returns (cur': seq<StoredBet>, seen': nat, reports': seq<BetReport>)
    requires |fetches| == QueriedCount(before, filter)
    requires CheckAllProgress(before, filter, fetches, cur, n, seen, reports) && n < |cur|
    requires FindId(before, before[n].id) == n
    ensures CheckAllProgress(before, filter, fetches, cur', n + 1, seen', reports')
  {
    var b := cur[n];
    var next, report := CheckQueried(before, filter, fetches, n, seen);
    CheckAllAdvance(before, filter, fetches, cur, n, seen, reports, next, report);
    FindIdByIds(cur, before, b.id);
    var k := FindId(cur, b.id);
    reports' := reports + report;
    cur' := cur[k := next];
    seen' := seen + if Pending(b, filter) then 1 else 0;
  }

  /** The loop of `check_all_bets` over the stored documents. */
  method RunCheckAll(before: seq<StoredBet>, filter: Option<string>, fetches: seq<Option<seq<int>>>)
    returns (reports: seq<BetReport>, cur: seq<StoredBet>)
    requires forall n {:trigger FindId(before, before[n].id)} :: 0 <= n < |before| ==> FindId(before, before[n].id) == n
    requires |fetches| == QueriedCount(before, filter)
    ensures |cur| == |before|
    ensures forall n :: 0 <= n < |cur| ==> cur[n] == AfterCheckAll(before, filter, fetches, n)
    ensures reports == ReportsBefore(before, filter, fetches, |before|)
  {
    cur := before;
    var n := 0;
    var seen := 0;
    reports := [];
    while n < |cur|
      invariant CheckAllProgress(before, filter, fetches, cur, n, seen, reports)
      decreases |cur| - n
    {
      cur, seen, reports := CheckAllPass(before, filter, fetches, cur, n, seen, reports);
      n := n + 1;
    }
  }

  /** Into an empty store, saving a bet and then the same numbers in another order: the second is refused as a duplicate. */
  method SavePermutedTwice(lotteryType: string, numbers: seq<int>, permuted: seq<int>)
    returns (first: Result<StoredBet, Error>, second: Result<StoredBet, Error>)
    requires ParseLotteryType(lotteryType).Some? && AcceptsBets(ParseLotteryType(lotteryType).value)
    requires multiset(permuted) == multiset(numbers)
    ensures first.Success? && Sorted(first.value.numbers) && multiset(first.value.numbers) == multiset(numbers)
    ensures second == Failure(Conflict)
  {
    var store := new Store();
    first := store.SaveBet(lotteryType, numbers, "manual");
    var lt := ParseLotteryType(lotteryType).value;
    KeyOrderIndependent(lt, numbers, lt, permuted);
    assert store.bets[0].key == KeyOf(lt, permuted);
    second := store.SaveBet(lotteryType, permuted, "manual");
  }
}
