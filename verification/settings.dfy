/** The strategy's fixed configuration: the tunable parameters the core reads,
    with their declared bounds and defaults, and the timeframe hierarchy used
    for multi-timeframe confirmation. */
module Settings {
  import opened Values

  /** The hyperparameters the decision logic reads. Integer parameters are
      `int`, decimal parameters `real`. */
  datatype Params = Params(
    newSlCoef: real,
    lookbackLength: int,
    upperTriggerLevel: int,
    lowerTriggerLevel: int,
    swingWindow: int,
    swingMinPeriods: int,
    dcaCandlesModulo: int,
    dcaThreshold: real)

  /** Every parameter lies within the bounds it is declared with. */
  predicate Valid(p: Params) {
    && 0.3 <= p.newSlCoef <= 0.9
    && 1 <= p.lookbackLength <= 30
    && 1 <= p.upperTriggerLevel <= 300
    && -300 <= p.lowerTriggerLevel <= -1
    && 10 <= p.swingWindow <= 50
    && 1 <= p.swingMinPeriods <= 10
    && 1 <= p.dcaCandlesModulo <= 100
    && 0.01 <= p.dcaThreshold <= 0.5
  }

  /** The declared default of every parameter. */
  const Default: Params := Params(0.75, 15, 100, -100, 50, 10, 10, 0.01)

  /** Each timeframe mapped to the next coarser one. */
  const Hierarchy: map<string, string> := map[
    "1m" := "5m",
    "5m" := "15m",
    "15m" := "1h",
    "1h" := "4h",
    "4h" := "1d",
    "1d" := "1w",
    "1w" := "1M"]

  /** All timeframes the hierarchy mentions, finest first. */
  const Ladder: seq<string> := ["1m", "5m", "15m", "1h", "4h", "1d", "1w", "1M"]

  /** `timeframe_hierarchy[timeframe]`: the next coarser timeframe, or the
      `KeyError` raised for a timeframe the hierarchy does not list. */
  function Coarser(timeframe: string): (r: Outcome<string>)
    ensures r.Ok? <==> timeframe in Ladder[..|Ladder| - 1]
    ensures forall k :: 0 <= k < |Ladder| - 1 && Ladder[k] == timeframe ==> r == Ok(Ladder[k + 1])
    ensures r.KeyError? ==> r.key == timeframe
  {
    assert Hierarchy.Keys == {"1m", "5m", "15m", "1h", "4h", "1d", "1w"};
    assert Ladder[..|Ladder| - 1] == ["1m", "5m", "15m", "1h", "4h", "1d", "1w"];
    if timeframe in Hierarchy then Ok(Hierarchy[timeframe]) else KeyError(timeframe)
  }

  /** Following the hierarchy from any timeframe it lists reaches the
      coarsest timeframe, which has no coarser one, after finitely many steps. */
  lemma {:induction false} HierarchyReachesMonthly(k: nat)
    requires k < |Ladder|
    ensures Climb(Ladder[k], |Ladder| - 1 - k) == Ok("1M")
    ensures Coarser("1M").KeyError?
    decreases |Ladder| - k
  {
    if k < |Ladder| - 1 {
      assert Coarser(Ladder[k]) == Ok(Ladder[k + 1]);
      HierarchyReachesMonthly(k + 1);
    }
  }

  /** The timeframe reached from `timeframe` by `steps` lookups. */
  function Climb(timeframe: string, steps: nat): Outcome<string>
    decreases steps
  {
    if steps == 0 then Ok(timeframe)
    else
      match Coarser(timeframe)
      case Ok(next) => Climb(next, steps - 1)
      case KeyError(key) => KeyError(key)
  }
}
