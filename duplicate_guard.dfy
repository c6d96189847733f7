/**
 * The duplicate guard behind `get_bet_hash`: a bet is identified by its lottery
 * type and its numbers in ascending order. The backend renders that pair as the
 * text `type:n1,n2,...` and stores its MD5 digest; the model keeps the pair
 * itself, so two bets collide exactly when their canonical keys are equal.
 */
module DuplicateGuard {
  import opened Lottery
  import opened Sorting

  datatype BetKey = BetKey(lotteryType: LotteryType, numbers: seq<int>)

  /** The canonical key of a bet: its type and its numbers in ascending order. */
  function KeyOf(lt: LotteryType, numbers: seq<int>): (k: BetKey)
    ensures k.lotteryType == lt
    ensures Sorted(k.numbers)
    ensures multiset(k.numbers) == multiset(numbers)
  {
    SortIntsProperties(numbers);
    BetKey(lt, SortInts(numbers))
  }

  /**
   * Two bets get the same key exactly when they are of the same type and hold
   * the same numbers, whatever order they were given in.
   */
  lemma KeyOrderIndependent(lt1: LotteryType, a: seq<int>, lt2: LotteryType, b: seq<int>)
    ensures KeyOf(lt1, a) == KeyOf(lt2, b) <==> lt1 == lt2 && multiset(a) == multiset(b)
  {
    SortIntsEqual(a, b);
  }

  /** A key is its own canonical form: re-keying the stored numbers gives the same key. */
  lemma KeyIdempotent(lt: LotteryType, numbers: seq<int>)
    ensures KeyOf(lt, KeyOf(lt, numbers).numbers) == KeyOf(lt, numbers)
  {
    var k := KeyOf(lt, numbers);
    KeyOrderIndependent(lt, k.numbers, lt, numbers);
  }
}
