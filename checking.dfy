/**
 * Checking a stored bet against a draw (`check_bet`, `check_all_bets`): the
 * numbers of the bet found among the drawn numbers, and the prize tier their
 * count earns.
 */
module Checking {
  import opened Wrappers
  import opened Lottery
  import opened Sequences

  /** The bet's numbers that were drawn, in the bet's order. */
  function Matches(bet: seq<int>, drawn: seq<int>): (m: seq<int>)
    ensures |m| <= |bet|
    ensures forall i :: 0 <= i < |m| ==> m[i] in bet && m[i] in drawn
  {
    if |bet| == 0 then []
    else (if bet[0] in drawn then [bet[0]] else []) + Matches(bet[1..], drawn)
  }

  /** Each drawn number of the bet is matched as often as the bet holds it; the others never. */
  lemma {:induction false} MatchesCount(bet: seq<int>, drawn: seq<int>)
    ensures forall x :: multiset(Matches(bet, drawn))[x] == if x in drawn then multiset(bet)[x] else 0
  {
    if |bet| > 0 {
      MatchesCount(bet[1..], drawn);
      assert bet == [bet[0]] + bet[1..];
    }
  }

  /** The matches come from the bet in order: they are what remains after dropping the misses. */
  lemma {:induction false} MatchesSubsequence(bet: seq<int>, drawn: seq<int>)
    ensures Matches(bet, drawn) == Without(bet, Without(bet, drawn))
  {
    if |bet| > 0 {
      MatchesSubsequence(bet[1..], drawn);
      var misses := Without(bet, drawn);
      var missesTail := Without(bet[1..], drawn);
      assert Without(bet[1..], misses) == Without(bet[1..], missesTail) by {
        WithoutSameMembers(bet[1..], misses, missesTail);
      }
    }
  }

  /** Filtering against two lists with the same members on `s` gives the same result. */
  lemma {:induction false} WithoutSameMembers(s: seq<int>, a: seq<int>, b: seq<int>)
    requires forall i :: 0 <= i < |s| ==> (s[i] in a <==> s[i] in b)
    ensures Without(s, a) == Without(s, b)
  {
    if |s| > 0 {
      WithoutSameMembers(s[1..], a, b);
    }
  }

  /** The prize tiers; `QuinaTier` is the five-hit tier, named apart from the game. */
  datatype Tier = Duque | Terno | Quadra | QuinaTier | Sena

  /** How many hits a tier stands for. */
  function Hits(t: Tier): nat
  {
    match t
    case Duque => 2
    case Terno => 3
    case Quadra => 4
    case QuinaTier => 5
    case Sena => 6
  }

  /** The tier's label as the backend reports it. */
  function TierLabel(t: Tier): string
  {
    match t
    case Duque => "Duque (2 acertos)"
    case Terno => "Terno (3 acertos)"
    case Quadra => "Quadra (4 acertos)"
    case QuinaTier => "Quina (5 acertos)"
    case Sena => "Sena (6 acertos)"
  }

  /**
   * The if-chains of `check_bet`: Quina pays 2 to 5 hits, every other game
   * (Dupla Sena) pays 3 to 6 hits; the tier names the exact hit count.
   */
  function PrizeTier(lt: LotteryType, matchCount: nat): (t: Option<Tier>)
    ensures lt == Quina ==> (t.Some? <==> 2 <= matchCount <= 5)
    ensures lt != Quina ==> (t.Some? <==> 3 <= matchCount <= 6)
    ensures t.Some? ==> Hits(t.value) == matchCount
    ensures t.Some? && lt == Quina ==> t.value != Sena
    ensures t.Some? && lt != Quina ==> t.value != Duque
  {
    if lt == Quina then
      if matchCount == 5 then Some(QuinaTier)
      else if matchCount == 4 then Some(Quadra)
      else if matchCount == 3 then Some(Terno)
      else if matchCount == 2 then Some(Duque)
      else None
    else
      if matchCount == 6 then Some(Sena)
      else if matchCount == 5 then Some(QuinaTier)
      else if matchCount == 4 then Some(Quadra)
      else if matchCount == 3 then Some(Terno)
      else None
  }

  /** Each tier a game pays is reached by exactly its own hit count. */
  lemma TierRoundTrip(lt: LotteryType, t: Tier)
    requires if lt == Quina then t != Sena else t != Duque
    ensures PrizeTier(lt, Hits(t)) == Some(t)
  {
  }

  /** Labels tell tiers apart. */
  lemma LabelsDistinct(t1: Tier, t2: Tier)
    ensures TierLabel(t1) == TierLabel(t2) <==> t1 == t2
  {
    if t1 != t2 {
      assert TierLabel(t1)[0] != TierLabel(t2)[0] || TierLabel(t1)[7] != TierLabel(t2)[7];
    }
  }

  /** What `check_bet` reports for one bet and one draw. */
  datatype CheckResult = CheckResult(matches: seq<int>, matchCount: nat, prizeTier: Option<Tier>, isWinner: bool)

  /**
   * `check_bet` (lines 590-625): match the bet against the drawn numbers and
   * classify the hit count; the bet wins exactly when a tier applies.
   */
  function CheckBet(lt: LotteryType, bet: seq<int>, drawn: seq<int>): (r: CheckResult)
    ensures r.matches == Matches(bet, drawn)
    ensures r.matchCount == |r.matches|
    ensures r.isWinner <==> r.prizeTier.Some?
    ensures r.isWinner <==> if lt == Quina then 2 <= r.matchCount <= 5 else 3 <= r.matchCount <= 6
    ensures r.prizeTier.Some? ==> Hits(r.prizeTier.value) == r.matchCount
  {
    var m := Matches(bet, drawn);
    var tier := PrizeTier(lt, |m|);
    CheckResult(m, |m|, tier, tier.Some?)
  }

  /** What `check_all_bets` records per bet: the same matching, without a tier. */
  datatype QuickResult = QuickResult(matches: seq<int>, matchCount: nat)

  /** `check_all_bets` (lines 674-681). */
  function QuickCheck(bet: seq<int>, drawn: seq<int>): (r: QuickResult)
    ensures r.matchCount == |r.matches|
    ensures forall x :: multiset(r.matches)[x] == if x in drawn then multiset(bet)[x] else 0
  {
    MatchesCount(bet, drawn);
    var m := Matches(bet, drawn);
    QuickResult(m, |m|)
  }

  /** Checking all bets agrees with checking one: same matches, same count. */
  lemma QuickAgreesWithFull(lt: LotteryType, bet: seq<int>, drawn: seq<int>)
    ensures QuickCheck(bet, drawn).matches == CheckBet(lt, bet, drawn).matches
    ensures QuickCheck(bet, drawn).matchCount == CheckBet(lt, bet, drawn).matchCount
  {
  }

  /** Duplicate-free bets and draws: the hit count is the size of their common part, so it is symmetric. */
  lemma MatchCountSymmetric(bet: seq<int>, drawn: seq<int>)
    requires Distinct(bet) && Distinct(drawn)
    ensures |Matches(bet, drawn)| == |Matches(drawn, bet)|
    ensures |Matches(bet, drawn)| <= |drawn|
  {
    var m1 := Matches(bet, drawn);
    var m2 := Matches(drawn, bet);
    MatchesCount(bet, drawn);
    MatchesCount(drawn, bet);
    forall x ensures multiset(m1)[x] == multiset(m2)[x] {
      DistinctCount(bet, x);
      DistinctCount(drawn, x);
      assert x in bet <==> x in multiset(bet);
      assert x in drawn <==> x in multiset(drawn);
    }
    assert multiset(m1) == multiset(m2);
    assert |m1| == |multiset(m1)| == |multiset(m2)| == |m2|;
  }

  /** A bet whose every number was drawn matches in full. */
  lemma {:induction false} FullMatch(bet: seq<int>, drawn: seq<int>)
    requires forall i :: 0 <= i < |bet| ==> bet[i] in drawn
    ensures Matches(bet, drawn) == bet
  {
    if |bet| > 0 {
      assert bet[0] in drawn;
      FullMatch(bet[1..], drawn);
      assert bet == [bet[0]] + bet[1..];
    }
  }

  /** A full ticket, every number of it drawn, wins the game's top tier. */
  lemma FullTicketWinsTop(lt: LotteryType, bet: seq<int>, drawn: seq<int>)
    requires AcceptsBets(lt)
    requires |bet| == NumbersToPick(lt)
    requires forall i :: 0 <= i < |bet| ==> bet[i] in drawn
    ensures CheckBet(lt, bet, drawn).prizeTier == Some(if lt == Quina then QuinaTier else Sena)
    ensures CheckBet(lt, bet, drawn).isWinner
  {
    FullMatch(bet, drawn);
  }

  /** A quina ticket with two numbers drawn gets the duque. */
  lemma ExampleDuque()
    ensures CheckBet(Quina, [3, 17, 25, 44, 71], [17, 30, 44, 59, 80]) ==
      CheckResult([17, 44], 2, Some(Duque), true)
  {
    ExampleDuqueMatches();
  }

  lemma ExampleDuqueMatches()
    ensures Matches([3, 17, 25, 44, 71], [17, 30, 44, 59, 80]) == [17, 44]
  {
    var d := [17, 30, 44, 59, 80];
    var b := [3, 17, 25, 44, 71];
    assert 44 in d && 71 !in d;
    assert b[1..][1..][1..][1..][1..] == [];
    assert Matches(b[1..][1..][1..], d) == [44];
    assert 17 in d && 25 !in d;
    assert Matches(b[1..], d) == [17, 44];
    assert 3 !in d;
  }

  /** Two hits win nothing at Dupla Sena. */
  lemma ExampleDuplaSenaTwoHits()
    ensures CheckBet(DuplaSena, [2, 4, 9, 11, 13, 15], [2, 4, 10, 20, 30, 40]) ==
      CheckResult([2, 4], 2, None, false)
  {
    ExampleDuplaSenaMatches();
  }

  lemma ExampleDuplaSenaMatches()
    ensures Matches([2, 4, 9, 11, 13, 15], [2, 4, 10, 20, 30, 40]) == [2, 4]
  {
    var d := [2, 4, 10, 20, 30, 40];
    var misses := [9, 11, 13, 15];
    assert misses[0] !in d && misses[1] !in d && misses[2] !in d && misses[3] !in d;
    HitsThenMisses(2, 4, misses, d);
    assert [2, 4] + misses == [2, 4, 9, 11, 13, 15];
  }

  /** Two drawn numbers followed by undrawn ones match exactly those two. */
  lemma HitsThenMisses(x: int, y: int, misses: seq<int>, drawn: seq<int>)
    requires x in drawn && y in drawn
    requires forall i :: 0 <= i < |misses| ==> misses[i] !in drawn
    ensures Matches([x, y] + misses, drawn) == [x, y]
  {
    NoneDrawn(misses, drawn);
    var b := [x, y] + misses;
    assert b[1..][1..] == misses;
  }

  /** A bet none of whose numbers were drawn has no matches. */
  lemma {:induction false} NoneDrawn(bet: seq<int>, drawn: seq<int>)
    requires forall i :: 0 <= i < |bet| ==> bet[i] !in drawn
    ensures Matches(bet, drawn) == []
  {
    if |bet| > 0 {
      NoneDrawn(bet[1..], drawn);
    }
  }
}
