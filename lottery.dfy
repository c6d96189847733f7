/**
 * The fixed configuration of the supported lottery games (the `LOTTERY_CONFIG`
 * table), the four generation strategies, and the error kinds the routes report.
 */
module Lottery {
  import opened Wrappers

  /** The four configured games. */
  datatype LotteryType = Quina | DuplaSena | Lotofacil | MegaSena

  /** Largest number of the game's pool; numbers run from 1 to this value. */
  function MaxNumber(lt: LotteryType): nat
  {
    match lt
    case Quina => 80
    case DuplaSena => 50
    case Lotofacil => 25
    case MegaSena => 60
  }

  /** How many numbers a ticket of the game holds. */
  function NumbersToPick(lt: LotteryType): nat
  {
    match lt
    case Quina => 5
    case DuplaSena => 6
    case Lotofacil => 15
    case MegaSena => 6
  }

  /** The identifier the routes use for the game. */
  function Name(lt: LotteryType): string
  {
    match lt
    case Quina => "quina"
    case DuplaSena => "dupla_sena"
    case Lotofacil => "lotofacil"
    case MegaSena => "megasena"
  }

  /** Reads a game identifier; anything outside the table is rejected. */
  function ParseLotteryType(s: string): (r: Option<LotteryType>)
    ensures r.Some? ==> Name(r.value) == s
    ensures r.None? ==> forall lt: LotteryType :: Name(lt) != s
  {
    if s == "quina" then Some(Quina)
    else if s == "dupla_sena" then Some(DuplaSena)
    else if s == "lotofacil" then Some(Lotofacil)
    else if s == "megasena" then Some(MegaSena)
    else None
  }

  /** Parsing a game's own identifier gives the game back. */
  lemma NameRoundTrip(lt: LotteryType)
    ensures ParseLotteryType(Name(lt)) == Some(lt)
  {
  }

  /** Every configured game has a non-empty ticket of at most 15 numbers that fits its pool. */
  lemma ConfigBounds(lt: LotteryType)
    ensures 1 <= NumbersToPick(lt) <= 15
    ensures NumbersToPick(lt) <= MaxNumber(lt)
    ensures 3 <= MaxNumber(lt)
  {
  }

  /** The bet routes (generate, save) accept only these two games. */
  predicate AcceptsBets(lt: LotteryType)
  {
    lt == Quina || lt == DuplaSena
  }

  /** The generation heuristics. */
  datatype Strategy = Hot | Cold | Balanced | Coverage

  function StrategyName(s: Strategy): string
  {
    match s
    case Hot => "hot"
    case Cold => "cold"
    case Balanced => "balanced"
    case Coverage => "coverage"
  }

  /** Reads a strategy identifier; any other string is an invalid request. */
  function ParseStrategy(s: string): (r: Option<Strategy>)
    ensures r.Some? ==> StrategyName(r.value) == s
    ensures r.None? ==> forall st: Strategy :: StrategyName(st) != s
  {
    if s == "hot" then Some(Hot)
    else if s == "cold" then Some(Cold)
    else if s == "balanced" then Some(Balanced)
    else if s == "coverage" then Some(Coverage)
    else None
  }

  /** The failures the routes report, each with its HTTP status. */
  datatype Error =
    | InvalidRequest   // 400: unknown game or strategy
    | Conflict         // 409: the bet is already stored
    | NotFound         // 404: no bet with that id
    | Unavailable      // 503: the draw could not be fetched
    | Unprocessable    // 422: a query parameter outside its declared range

  function StatusCode(e: Error): nat
  {
    match e
    case InvalidRequest => 400
    case Conflict => 409
    case NotFound => 404
    case Unavailable => 503
    case Unprocessable => 422
  }
}
