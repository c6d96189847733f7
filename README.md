# LottoSmart core, modelled in Dafny

LottoSmart is a dashboard backend for Brazilian lotteries. It analyses the draw history of a game and generates tickets from that analysis. It also keeps the tickets a user saves and checks them against drawn results.

This project models the logic behind those routes:

- **Statistics** (`calculate_statistics`): these are computed over a history that arrives most recent first.
  - The hot list is the 15 most frequent numbers.
  - The cold list is the 15 least frequent numbers of the pool.
  - The delayed list is the numbers never seen, or last seen more than five draws back, with the longest gaps first.
  - The snapshot also holds the even and odd occurrence counts, and the occurrence counts of the low, medium and high bands of the pool.
- **Generation** (`generate_smart_bet`): four strategies build a ticket.
  - hot samples the hot list padded with the whole pool 1..max (the hot list never reaches the 20 entries that would skip the padding); cold samples the cold and delayed lists; balanced takes a share of hot, cold and delayed numbers and fills the rest at random; coverage samples each band of the pool.
  - The result is then deduplicated, cut to the ticket size, topped up from the pool and sorted.
  - The `generate_bets` loop retries until it has the requested number of tickets with distinct keys, or until it has spent three attempts per ticket.
- **Duplicate guard** (`get_bet_hash`): a bet is identified by its game and its sorted numbers.
- **Saved bets** (`save_bet`, `check_bet`, `check_all_bets`): a store object that appends bets under new ids and refuses games other than quina and dupla_sena (400) and duplicates (409). It checks one bet by id (404 if missing, 503 if there is no draw), or checks the first 100 unchecked bets, fetching a draw for each of them in turn and skipping those whose fetch failed.
- **Prize tiers**:
  - Quina pays 2 to 5 hits: Duque, Terno, Quadra and Quina.
  - Dupla Sena pays 3 to 6 hits: Terno, Quadra, Quina and Sena.

Randomness (`random.sample`, `random.choice`) and the hash order of `list(set(...))` are modelled as arbitrary choices (`:|`) constrained to what Python could return. So every postcondition of the generator holds for every outcome of the random generator.

Inputs from outside the backend become parameters:

- the fetched draw history;
- the fetched draw used for checking (`None` when the fetch fails);
- for `check_all_bets`, the outcome of each draw fetch, one per bet the query returns, in order.

A new bet's id (`uuid4`) is an arbitrary string that no stored bet has.

Files, each one module:

| file | module | contents |
|---|---|---|
| `wrappers.dfy` | `Wrappers` | `Option` and `Result` |
| `lottery.dfy` | `Lottery` | game configuration, strategies, error kinds and HTTP status codes |
| `sequences.dfy` | `Sequences` | `range`, first-occurrence deduplication, list filtering, cardinality facts |
| `sorting.dfy` | `Sorting` | Python's stable `sorted` with a key, as an insertion sort, with its order and permutation lemmas |
| `statistics.dfy` | `Statistics` | the snapshot as a function of the history, and the loops of `calculate_statistics` proved equal to it |
| `statistics_properties.dfy` | `StatisticsProperties` | what the hot, cold and delayed lists and the counters mean |
| `duplicate_guard.dfy` | `DuplicateGuard` | the canonical bet key |
| `generator.dfy` | `Generator` | the four strategies, normalise-and-fill, the retry loop and the generate route |
| `checking.dfy` | `Checking` | matching and prize tiers |
| `bet_store.dfy` | `BetStore` | the saved-bet store as a class |

## Model

| member | source | states |
|---|---|---|
| Lottery.ParseLotteryType | backend/server.py:29-36 | an identifier is accepted exactly when it names one of the four configured games, and the game returned carries that identifier |
| Lottery.NameRoundTrip | backend/server.py:29-36 | parsing a game's own identifier gives back that game |
| Lottery.ConfigBounds | backend/server.py:29-34 | every configured ticket holds 1 to 15 numbers and fits its pool, and every pool has at least three numbers, so each band is non-empty |
| Lottery.ParseStrategy | backend/server.py:478-479 | a strategy is accepted exactly when it is hot, cold, balanced or coverage, and the strategy returned carries that name |
| Sequences.Unique | backend/server.py:222 | the distinct elements in first-occurrence order, which is the key order of `Counter` |
| Sequences.UniqueMembers | backend/server.py:222 | deduplication keeps exactly the members of the input, one entry per distinct value |
| Sequences.Range | backend/server.py:204 | `range(lo, hi)` holds exactly lo..hi-1, ascending |
| Sequences.Without | backend/server.py:314 | filtering out a list keeps exactly the members of the source that are not excluded, and keeps a list free of repeats |
| Sorting.SortBy | backend/server.py:231 | sorting with a key returns a permutation of its input |
| Sorting.SortBySorted | backend/server.py:231 | the sorted list is ordered by the key |
| Sorting.SortByLex | backend/server.py:231 | the sort is stable: equal keys keep the input's order |
| Sorting.TopComplete | backend/server.py:231 | an element missing from the first n of a sorted list has a key no smaller than every kept element's, and the kept prefix is full |
| Sorting.SortIntsProperties | backend/server.py:355 | `sorted` of integers is ordered and a permutation, and strictly increasing when the input has no repeats |
| Sorting.SortedUnique | backend/server.py:377 | two sorted lists holding the same numbers are equal |
| Sorting.SortIntsEqual | backend/server.py:377 | two lists sort to the same list exactly when they hold the same numbers |
| Statistics.LastSeen | backend/server.py:204-212 | `last_seen[n]` is the index of the most recent draw whose first list holds n, or -1 exactly when no draw holds it |
| Statistics.LastSeenMap | backend/server.py:204 | the `last_seen` table has exactly the numbers 1..max as keys |
| Statistics.DelayCandidates | backend/server.py:235 | every candidate is never seen or last seen more than five draws back, and is reported with its `last_seen` gap |
| Statistics.DelayCandidatesComplete | backend/server.py:235 | every number that qualifies as delayed is a candidate |
| Statistics.DelayCandidatesOrdered | backend/server.py:235 | candidates come in ascending number order, which is their order before the sort |
| Statistics.RecordFirstList | backend/server.py:208-212 | the inner loop appends each number of the first list, and sets `last_seen` to the draw index for numbers not yet seen |
| Statistics.RecordSecondList | backend/server.py:215-219 | the Dupla Sena second list is appended to the occurrences without touching `last_seen` |
| Statistics.RecordDraw | backend/server.py:206-219 | one pass of the main loop turns the occurrences and the table of the first idx draws into those of the first idx+1 |
| Statistics.CollectOccurrences | backend/server.py:203-219 | the main loop yields exactly the occurrence list and the `last_seen` table of the whole history |
| Statistics.LastSeenTable | backend/server.py:204-212 | a table over 1..max that holds `LastSeen` for every number is the `last_seen` table |
| Statistics.CountBands | backend/server.py:249-257 | the range-distribution loop counts the occurrences in each band |
| Statistics.CalculateStatistics | backend/server.py:189-266 | the method returns the snapshot `StatisticsOf` defines, and the all-empty snapshot for an empty history |
| StatisticsProperties.BandsPartition | backend/server.py:249-257 | each occurrence falls in exactly one band, so the three counts sum to the number of occurrences |
| StatisticsProperties.ParitySplit | backend/server.py:240-241 | the even and odd counts sum to the number of occurrences, so `len - even` is the odd count |
| StatisticsProperties.StatisticsTotals | backend/server.py:240-266 | in any snapshot the band counts and the parity counts each sum to the occurrences, the odd count is the true odd count, and the draw count is the history's length |
| StatisticsProperties.SnapshotCounts | backend/server.py:189-257 | every counter of the snapshot is its count over the occurrence list, which is all zero for an empty history |
| StatisticsProperties.OccurrencesSplit | backend/server.py:206-219 | frequencies count every first-list occurrence, plus every second-list occurrence for Dupla Sena only |
| StatisticsProperties.HotListEntries | backend/server.py:222-227 | the hot list has at most 15 entries, each a number that occurs, with its true frequency |
| StatisticsProperties.HotListOrder | backend/server.py:226 | the hot list is in non-increasing frequency, ties in first-occurrence order (`most_common`), with no number twice |
| StatisticsProperties.HotListComplete | backend/server.py:226 | an occurring number missing from the hot list is no more frequent than any entry of the full list of 15 |
| StatisticsProperties.ColdListEntries | backend/server.py:230-232 | the cold list holds min(15, max) numbers of the pool, each with its true frequency, zero if it never occurs |
| StatisticsProperties.ColdListOrder | backend/server.py:231 | the cold list is in ascending frequency, ties in ascending number |
| StatisticsProperties.ColdListComplete | backend/server.py:230-231 | a pool number missing from the cold list is at least as frequent as every entry of the full list |
| StatisticsProperties.DelayedListEntries | backend/server.py:235-237 | the delayed list has at most 15 pool numbers, each never seen or last seen more than five draws back, reported with its gap |
| StatisticsProperties.DelayedListOrder | backend/server.py:235-236 | the delayed list is in decreasing sort value (999 for never seen), ties in ascending number |
| StatisticsProperties.DelayedListComplete | backend/server.py:235-236 | a qualifying number missing from the delayed list sorts no earlier than every entry of the full list |
| StatisticsProperties.DelayedNeverFirst | backend/server.py:236 | with at most 999 draws never-seen numbers come first, then the finite gaps largest first |
| StatisticsProperties.FiniteGapsBelowNever | backend/server.py:236 | with at most 999 draws every finite gap sorts below the never key |
| StatisticsProperties.BandCountPermutation | backend/server.py:249-257 | band counts do not depend on the order of the numbers |
| StatisticsProperties.StatisticsInPool | backend/server.py:189-266 | a history within 1..max yields hot, cold and delayed lists within 1..max |
| DuplicateGuard.KeyOf | backend/server.py:375-379 | the key carries the game and the bet's numbers sorted, as a permutation of the input |
| DuplicateGuard.KeyOrderIndependent | backend/server.py:375-379 | two bets get the same key exactly when they have the same game and the same numbers in any order |
| DuplicateGuard.KeyIdempotent | backend/server.py:377 | keying a stored bet's sorted numbers gives the key it was stored under |
| Generator.Sample | backend/server.py:287 | `random.sample` returns k elements taken from distinct positions of the population, so without repeats when the population has none |
| Generator.ArbitraryOrder | backend/server.py:286 | `list(set(s))` holds each member of s once, in some order |
| Generator.CoveragePlan | backend/server.py:326-336 | each band's part is within the band's size, the low part is never below the medium part, and the parts add up to the ticket whenever it fits the pool |
| Generator.CoverageConfigured | backend/server.py:331-336 | for the configured games the parts add up to the ticket and differ by at most one, low first |
| Generator.Kept | backend/server.py:345 | the cut holds at most `numbers_to_pick` numbers of the selection, strictly increasing |
| Generator.KeptSmallest | backend/server.py:345 | every selected number is kept, or the cut is full and holds only smaller numbers |
| Generator.Fill | backend/server.py:348-353 | the fill loop keeps the cut as a prefix, and extends it without repeats from 1..max to exactly the ticket size |
| Generator.NormaliseAndFill | backend/server.py:345-355 | the ticket is strictly increasing, of exactly the ticket size, keeps every number of the cut, and adds only pool numbers; a selection of exactly the ticket size without repeats survives whole, sorted |
| Generator.SinceNumbers | backend/server.py:278 | every delayed number handed to the strategies is the number of a delayed entry with a finite gap, and every such entry's number is handed on |
| Generator.SinceFromBounds | backend/server.py:278 | the positions kept by the filter lie in the delayed list and hold finite gaps |
| Generator.SinceFromIncreasing | backend/server.py:278 | the filter keeps positions in increasing order |
| Generator.SinceFromComplete | backend/server.py:278 | every position with a finite gap is kept |
| Generator.SinceNumbersOrder | backend/server.py:278 | the i-th delayed number is the number of the i-th finite-gap entry, in the delayed list's order, which is the order the cut to the first ten at line 307 relies on |
| Generator.HotSelection | backend/server.py:283-287 | the hot selection has no repeats, lies in the pool and has at most the ticket size; it is full when the hot list is padded, and taken from the hot list otherwise |
| Generator.ColdSelection | backend/server.py:290-296 | the cold selection has exactly the ticket size, no repeats and lies in the pool; when cold and delayed numbers are enough it holds only those |
| Generator.BalancedSelection | backend/server.py:299-320 | the balanced selection has no repeats, lies in the pool and has exactly the ticket size; its leading picks, at most the quota, come from the hot, cold or delayed lists and include a hot, a cold and a delayed number whenever that list is non-empty |
| Generator.BalancedQuotaFits | backend/server.py:301-303 | for every configured game the three shares together never exceed the ticket |
| Generator.PrefixPicks | backend/server.py:309-320 | the fill loop only appends, so the statistics picks stay at the head of the selection with their origins |
| Generator.MoveUnused | backend/server.py:316-320 | one fill step moves one unused number into the selection, so selection and available still split the pool |
| Generator.BalancedPicks | backend/server.py:301-309 | the deduplicated hot, cold and delayed samples have no repeats, come from those lists, number at most the sum of the three shares, and include a hot, a cold and a delayed number whenever that list is non-empty |
| Generator.PicksCombined | backend/server.py:305-309 | merging the three samples keeps their origins, never grows past their total, and keeps at least one number of each non-empty sample |
| Generator.PickedFirst | backend/server.py:309 | a number of a non-empty sample survives `list(set(...))` |
| Generator.SampleHead | backend/server.py:305-307 | a sample of `min(count, len)` from the first n, or nothing for an empty list |
| Generator.CoverageSelection | backend/server.py:324-340 | the coverage selection has exactly the ticket size and no repeats, with exactly the planned count in each band |
| Generator.BandParts | backend/server.py:338-340 | one sample per band concatenated has no repeats and counts each sample in its own band |
| Generator.SelectNumbers | backend/server.py:283-343 | each strategy's selection has no repeats and lies in the pool, and has the ticket size for every strategy but hot; coverage has the planned band counts, cold drawn from a large enough list holds only cold or delayed numbers, balanced leads with picks from every non-empty list |
| Generator.BalancedTicket | backend/server.py:345-355 | normalising a full balanced selection keeps its hot, cold and delayed picks on the ticket |
| Generator.GenerateSmartBet | backend/server.py:270-373 | every generated ticket is of the requested game and strategy, with exactly the ticket size, strictly increasing and in the pool; a coverage ticket has the planned band counts; a cold ticket drawn from a large enough list holds only cold or delayed numbers; a balanced ticket holds a hot, a cold and a delayed number whenever that list is non-empty |
| Generator.KeyTaken | backend/server.py:494 | a key is taken exactly when some earlier ticket has it |
| Generator.GenerateBets | backend/server.py:485-499 | at most `count` tickets, all valid and with distinct keys, at least one when count is positive; fewer than `count` only after all 3 * count attempts |
| Generator.FreshKey | backend/server.py:494-497 | appending a ticket whose key is not taken keeps the keys distinct |
| Generator.AppendValid | backend/server.py:496-497 | appending a valid ticket keeps every collected ticket valid |
| Generator.ValidateGenerateRequest | backend/server.py:469-479 | a request passes exactly when count is in 1..10, the game is quina or dupla_sena and the strategy is known; a count outside 1..10 fails with 422, the other failures with 400 |
| Generator.GenerateBetsRoute | backend/server.py:469-499 | the route fails exactly when validation fails, with its error; otherwise it returns 1 to count valid tickets with distinct keys |
| Checking.Matches | backend/server.py:593 | the matches are numbers of the bet that were drawn, never more than the bet holds |
| Checking.MatchesCount | backend/server.py:593-594 | each drawn number is matched as often as the bet holds it, and an undrawn one never is |
| Checking.MatchesSubsequence | backend/server.py:593 | the matches are the bet with its misses removed, in the bet's order |
| Checking.PrizeTier | backend/server.py:597-625 | Quina pays exactly 2 to 5 hits and every other game exactly 3 to 6, and the tier names the hit count |
| Checking.TierRoundTrip | backend/server.py:597-625 | each tier a game pays comes from its own hit count |
| Checking.LabelsDistinct | backend/server.py:602-624 | tier labels tell tiers apart |
| Checking.CheckBet | backend/server.py:590-625 | the count is the number of matches, and the bet wins exactly when a tier applies, which is exactly when the count is in the game's paying range |
| Checking.QuickCheck | backend/server.py:674-681 | check-all records the count of the matches, and each drawn number of the bet as often as the bet holds it |
| Checking.QuickAgreesWithFull | backend/server.py:593-594 | checking all bets and checking one give the same matches and count |
| Checking.MatchCountSymmetric | backend/server.py:593-594 | for bets and draws without repeats the hit count is symmetric and bounded by the draw size |
| Checking.FullTicketWinsTop | backend/server.py:600-616 | a full ticket whose every number was drawn wins the game's top tier |
| Checking.ExampleDuque | backend/server.py:593-612 | a quina ticket with two drawn numbers gets the Duque and wins |
| Checking.ExampleDuplaSenaTwoHits | backend/server.py:590-625 | a six-number Dupla Sena ticket with two drawn numbers gets no tier and does not win |
| Checking.NoneDrawn | backend/server.py:593 | a bet none of whose numbers were drawn has no matches |
| Checking.HitsThenMisses | backend/server.py:593 | two drawn numbers followed by undrawn ones match exactly those two, in order |
| BetStore.KeyStored | backend/server.py:522 | a key is stored exactly when some saved bet has it |
| BetStore.FindId | backend/server.py:575 | the position of the first bet with the id, or the store's size when there is none |
| BetStore.Store.constructor | backend/server.py:513-538 | a new store is empty, and an empty store keeps the store invariant |
| BetStore.Store.SaveBet | backend/server.py:513-538 | 400 for a game other than quina or dupla_sena, 409 for a key already stored, otherwise the bet is appended under an id no stored bet has, with sorted numbers, its key and unchecked; the store keeps only bet games, sorted numbers, distinct keys and distinct ids |
| BetStore.AppendKeepsValid | backend/server.py:519-538 | appending a bet whose key and id are new keeps the store invariant |
| BetStore.AppendKeepsKeys | backend/server.py:519-524 | appending a bet whose key is not stored keeps every key unique |
| BetStore.AppendKeepsIds | backend/server.py:528 | appending a bet under a new id keeps every id unique |
| BetStore.DistinctIdsLocate | backend/server.py:685-688 | with distinct ids, a lookup by a stored bet's id finds that bet's own position |
| BetStore.FindIdByIds | backend/server.py:685-688 | a lookup by id depends only on the ids, so rewriting results does not move it |
| BetStore.LongerThanIds | backend/server.py:528 | a string longer than every stored id, so some id is always new |
| BetStore.Store.CheckStoredBet | backend/server.py:572-642 | 404 for an unknown id, 503 with no draw, otherwise the bet's full check result, recorded on that bet alone and marked checked |
| BetStore.Store.CheckAll | backend/server.py:659-693 | of the first 100 unchecked bets of the filter, each one whose own draw fetch succeeded gets a quick result against that draw and is marked checked, one report each in store order; every other bet is unchanged and the invariant holds |
| BetStore.RunCheckAll | backend/server.py:666-688 | the loop leaves each bet as `AfterCheckAll` says, and reports exactly the bets it checked |
| BetStore.CheckAllPass | backend/server.py:669-688 | one pass handles the next bet and writes it back by its id, moving the loop state on by one bet |
| BetStore.CheckQueried | backend/server.py:669-688 | a queried bet whose fetch succeeded is matched against that fetch and marked checked with one report; any other bet is left alone with no report |
| BetStore.CheckAllFetch | backend/server.py:666-672 | a bet is checked exactly when it is among the first 100 pending ones and the fetch made for it succeeded, and it is matched against that fetch |
| BetStore.QueriedHaveFetches | backend/server.py:666-672 | each of the first 100 pending bets has its own fetch outcome |
| BetStore.PendingMonotone | backend/server.py:666 | the count of pending bets only grows along the store |
| BetStore.SameIdentityKeepsValid | backend/server.py:685-688 | rewriting bets without changing ids, games, numbers or keys keeps the store invariant |
| BetStore.RecordKeepsValid | backend/server.py:638-641 | recording a check result on one bet keeps the store invariant |
| BetStore.AfterCheckAllKeepsValid | backend/server.py:685-688 | check-all changes neither id, game, numbers nor key of any bet, so the store invariant survives |
| BetStore.CheckAllAdvance | backend/server.py:669-688 | handling one bet moves the loop state on by one bet |
| BetStore.SavePermutedTwice | backend/server.py:519-524 | saving the same numbers twice in different orders stores the first, sorted, and refuses the second with 409 |

## Left out

- HTTP, routing, MongoDB and the external results API are not modelled. Fetched draws and stored documents become parameters and fields, and a failed fetch is `None`.
- The MD5 digest of the bet key is not modelled. The key is kept as the pair (game, sorted numbers), so digest collisions are not modelled.
- The percentages of the hot and cold lists and of the even/odd ratio are not modelled, because they use floating-point division and rounding. The counts they come from are modelled.
- The explanation strings of `generate_smart_bet` are not modelled, including the even/odd text and the sequential-numbers warning (lines 356-366), because they only affect the text.
- `uuid4` is not modelled beyond giving an id no stored bet has. The `created_at` and `checked_at` timestamps, and contest numbers and dates in check results, are not modelled.
- The `LOTTERY_CONFIG.get(..., default)` fallback (lines 201, 272) is not modelled, because every route parses the game first, so the fallback cannot be reached.
- `int(d)` parsing of drawn numbers and the `dezenas` / `listaDezenas` key fallbacks are not modelled. Draws arrive as integer lists.
- `Statistics.CalculateStatistics` requires every first-list number to be in 1..max. This stands for the `KeyError` that `last_seen[num]` raises on any other number; that error path is not modelled.
- `Generator.GenerateBetsRoute`: it also requires Dupla Sena second-list numbers to be in 1..max (`StatisticsProperties.StatisticsInPool`). That keeps the hot and cold lists inside the pool, and the model does not follow the route when a fetched second list is out of range.
- `delete_bet`, `get_bets`, the latest, history and next-draw routes, `fetch_multiple_results` and the OCR and import routes are not modelled. They are I/O or database queries without logic of their own.
- The `try`/`except` around each bet in `check_all_bets` is not modelled beyond a missing draw, since the modelled body cannot raise.
- `Generator.ArbitraryOrder`: it only states that the order of `list(set(...))` is arbitrary. CPython actually lists small integers in roughly ascending order, so the first 25 or 30 entries of the hot and cold pools tend to be the smallest numbers; this model does not capture that.
- `Generator.HotSelection`: it does not state which hot numbers are preferred, because the hot list has at most 15 entries. So the 20-entry branch (line 285) never runs, and the pool is always padded with 1..max.
- `Generator.GenerateBetsRoute`: the `statistics_summary` part of the response is not modelled, because it only reads fields of the snapshot.
- `BetStore.Store.CheckAll`: the game filter is an unchecked string matched by name, as in the source. An unknown name matches no bet.
- `check_bet` matches only the first drawn list, even for Dupla Sena, whose second draw is ignored (line 593). The tiers are exact hit counts, compared one by one (lines 597-625).
- `BetStore.Store.SaveBet`: saves are modelled one at a time. In the source the duplicate lookup (line 522) and the insert (line 538) are two separate awaits, so two concurrent saves of the same bet could both be stored; the model does not capture that race.
- `BetStore.Store.CheckAll`: requests are modelled one at a time, so no other request changes the store between the query and the updates.
- The query defaults `strategy="balanced"` and `count=1` of `/bets/generate` (lines 470-472) are not modelled; the route model takes every parameter explicitly.
- `drawn_numbers` is not kept in `CheckResult`. The request that checks a bet receives the draw as a parameter, and the result records only what is computed from it.
- The store's sequence order stands for MongoDB's natural order, which decides which 100 unchecked bets `to_list(100)` returns; MongoDB does not promise that order.
