/** The position-adjustment (dollar-cost averaging) decision.

    Each candle the host asks whether to add to an open trade. The decision
    is an ordered chain of refusals; the one approving branch records the
    current rate as a new DCA price, lowers the stored stop-loss, and asks for
    another stake of the trade's `stake_amount`. A refusal (Python's `None`)
    means no adjustment this cycle and writes nothing. */
module Dca {
  import opened Values
  import opened Settings
  import opened Indicators
  import opened CustomData

  /** The price must fall to below this fraction of the last DCA price. */
  const DropFactor := 0.995

  /** The analysed data frame: its index labels and its rows. */
  datatype Frame = Frame(index: seq<int>, rows: seq<Row>)

  /** Which check of the chain refused, in the order they are made. */
  datatype Refusal =
    | NotDroppedEnough   // price not below 99.5% of the last DCA price
    | NotInLoss          // profit not below -dca_threshold
    | NoCandles          // the analysed frame is empty
    | AboveLastDca       // price above the last DCA price
    | OffCadence         // last index not a multiple of dca_candles_modulo
    | NoBreakout         // no resistance signal on the last row

  datatype Decision = Refuse(why: Refusal) | Approve

  /** The chain of checks of `adjust_trade_position`; the first that fails
      refuses. `%` on a positive modulus agrees with Python's. It approves
      exactly when all six checks pass; the 99.5% check comes first, so it
      alone decides whenever it fails; and a refusal for want of candles
      means the frame is empty and every earlier check passed. */
  function Decide(store: Store, trade: Trade, currentRate: real, currentProfit: real,
                  frame: Frame, p: Params): (d: Decision)
    requires |frame.index| == |frame.rows| && Valid(p)
    ensures var dcas := GetDcaList(store, trade);
      d == Approve <==>
        && (|dcas| == 0 || currentRate < dcas[|dcas| - 1] * DropFactor)
        && currentProfit < -p.dcaThreshold
        && |frame.rows| > 0
        && (|dcas| == 0 || currentRate <= dcas[|dcas| - 1])
        && frame.index[|frame.index| - 1] % p.dcaCandlesModulo == 0
        && ResistanceSignal(frame.rows[|frame.rows| - 1])
    ensures var dcas := GetDcaList(store, trade);
      d == Refuse(NotDroppedEnough) <==> |dcas| > 0 && currentRate >= dcas[|dcas| - 1] * DropFactor
    ensures d == Refuse(NoCandles) ==> |frame.rows| == 0 && currentProfit < -p.dcaThreshold
  {
    var dcas := GetDcaList(store, trade);
    if |dcas| > 0 && currentRate >= dcas[|dcas| - 1] * DropFactor then Refuse(NotDroppedEnough)
    else if currentProfit >= -p.dcaThreshold then Refuse(NotInLoss)
    else if |frame.rows| == 0 then Refuse(NoCandles)
    else if |dcas| > 0 && currentRate > dcas[|dcas| - 1] then Refuse(AboveLastDca)
    else if frame.index[|frame.index| - 1] % p.dcaCandlesModulo != 0 then Refuse(OffCadence)
    else if ResistanceSignal(frame.rows[|frame.rows| - 1]) then Approve
    else Refuse(NoBreakout)
  }

  /** What `adjust_trade_position` returns, and the store after it. */
  datatype Adjustment = Adjustment(stake: Option<real>, store: Store)

  /** `adjust_trade_position`. It approves exactly when the price has fallen
      below 99.5% of the last DCA price (if any), the trade is at a loss
      beyond the threshold, there is an analysed candle, the last index is a
      multiple of the modulo and the last row shows a resistance breakout.
      A refusal leaves the store as it was. An approval returns the trade's
      stake, appends exactly the current rate to the trade's DCA list, stores
      the stop-loss `rate * new_sl_coef`, and touches no other entry. */
  function AdjustTradePosition(store: Store, trade: Trade, currentRate: real, currentProfit: real,
                               frame: Frame, p: Params): (r: Adjustment)
    requires |frame.index| == |frame.rows| && Valid(p)
    ensures r.stake.None? ==> r.store == store
    ensures var dcas := GetDcaList(store, trade);
      r.stake.Some? <==>
        && (|dcas| == 0 || currentRate < dcas[|dcas| - 1] * DropFactor)
        && currentProfit < -p.dcaThreshold
        && |frame.rows| > 0
        && (|dcas| == 0 || currentRate <= dcas[|dcas| - 1])
        && frame.index[|frame.index| - 1] % p.dcaCandlesModulo == 0
        && ResistanceSignal(frame.rows[|frame.rows| - 1])
    ensures r.stake.Some? ==>
      && r.stake.value == trade.stakeAmount
      && GetDcaList(r.store, trade) == GetDcaList(store, trade) + [currentRate]
      && GetMkSl(r.store, trade) == currentRate * p.newSlCoef
      && (forall k | k in store && k != (trade.id, DcaKey) && k != (trade.id, SlKey) :: k in r.store && r.store[k] == store[k])
    ensures r.stake.Some? ==> r.store.Keys == store.Keys + {(trade.id, DcaKey), (trade.id, SlKey)}
  {
    match Decide(store, trade, currentRate, currentProfit, frame, p)
    case Approve => Adjustment(Some(trade.stakeAmount), ConfirmDca(store, trade, currentRate, p))
    case Refuse(_) => Adjustment(None, store)
  }

  // --------------------------------------------------------------- lemmas

  /** For a positive rate the refusal for a price above the last DCA price
      never fires: a rate that passed the 99.5% check is already below the
      last DCA price. */
  lemma AboveLastDcaNeverRefuses(store: Store, trade: Trade, currentRate: real, currentProfit: real,
                                 frame: Frame, p: Params)
    requires |frame.index| == |frame.rows| && Valid(p)
    requires currentRate > 0.0
    ensures Decide(store, trade, currentRate, currentProfit, frame, p) != Refuse(AboveLastDca)
  {
    var dcas := GetDcaList(store, trade);
    if |dcas| > 0 && currentRate < dcas[|dcas| - 1] * DropFactor {
      var last := dcas[|dcas| - 1];
      assert last > 0.0 by {
        if last <= 0.0 {
          assert last * DropFactor <= 0.0;
        }
      }
      assert last * DropFactor < last;
    }
  }

  /** With no DCA yet and a threshold of 1%, a loss of 2% passes the first two
      checks, while a loss of 0.5% is refused at the profit check. */
  lemma ThresholdExamples(store: Store, trade: Trade, currentRate: real, frame: Frame, p: Params)
    requires |frame.index| == |frame.rows| && Valid(p)
    requires GetDcaList(store, trade) == [] && p.dcaThreshold == 0.01
    ensures Decide(store, trade, currentRate, -0.02, frame, p) !in {Refuse(NotDroppedEnough), Refuse(NotInLoss)}
    ensures Decide(store, trade, currentRate, -0.005, frame, p) == Refuse(NotInLoss)
  {
  }

  /** Off the candle cadence no adjustment is made, whatever else holds. */
  lemma OffCadenceNeverAdjusts(store: Store, trade: Trade, currentRate: real, currentProfit: real,
                               frame: Frame, p: Params)
    requires |frame.index| == |frame.rows| && Valid(p)
    requires |frame.index| > 0 && frame.index[|frame.index| - 1] % p.dcaCandlesModulo != 0
    ensures AdjustTradePosition(store, trade, currentRate, currentProfit, frame, p) == Adjustment(None, store)
  {
  }

  /** Right after a DCA at a positive rate, no second DCA happens at that
      same rate: the 99.5% check refuses it. */
  lemma NoRepeatAtSameRate(store: Store, trade: Trade, currentRate: real, currentProfit: real,
                           frame: Frame, p: Params, profit2: real, frame2: Frame)
    requires |frame.index| == |frame.rows| && |frame2.index| == |frame2.rows| && Valid(p)
    requires currentRate > 0.0
    requires AdjustTradePosition(store, trade, currentRate, currentProfit, frame, p).stake.Some?
    ensures var after := AdjustTradePosition(store, trade, currentRate, currentProfit, frame, p).store;
      Decide(after, trade, currentRate, profit2, frame2, p) == Refuse(NotDroppedEnough)
  {
    var after := AdjustTradePosition(store, trade, currentRate, currentProfit, frame, p).store;
    var dcas := GetDcaList(after, trade);
    assert dcas[|dcas| - 1] == currentRate;
  }

  /** The recorded DCA prices of a trade strictly decrease. */
  predicate Descending(xs: seq<real>) {
    forall i, j | 0 <= i < j < |xs| :: xs[i] > xs[j]
  }

  /** Adjusting at a positive rate keeps the trade's DCA prices strictly
      decreasing, and keeps the store well typed. */
  lemma AdjustKeepsInvariants(store: Store, trade: Trade, currentRate: real, currentProfit: real,
                              frame: Frame, p: Params)
    requires |frame.index| == |frame.rows| && Valid(p)
    requires currentRate > 0.0
    requires Descending(GetDcaList(store, trade)) && WellTyped(store)
    ensures var after := AdjustTradePosition(store, trade, currentRate, currentProfit, frame, p).store;
      Descending(GetDcaList(after, trade)) && WellTyped(after)
  {
    var r := AdjustTradePosition(store, trade, currentRate, currentProfit, frame, p);
    if r.stake.Some? {
      var dcas := GetDcaList(store, trade);
      var xs := dcas + [currentRate];
      if |dcas| > 0 {
        AboveLastDcaNeverRefuses(store, trade, currentRate, currentProfit, frame, p);
        assert currentRate < dcas[|dcas| - 1];
      }
      assert forall i | 0 <= i < |dcas| :: xs[i] > currentRate;
      ConfirmDcaWellTyped(store, trade, currentRate, p);
    }
  }

  /** The stop-loss an approval writes lies strictly below the rate at which
      the position was added to. */
  lemma ApprovalLowersStopLoss(store: Store, trade: Trade, currentRate: real, currentProfit: real,
                               frame: Frame, p: Params)
    requires |frame.index| == |frame.rows| && Valid(p)
    requires currentRate > 0.0
    requires AdjustTradePosition(store, trade, currentRate, currentProfit, frame, p).stake.Some?
    ensures GetMkSl(AdjustTradePosition(store, trade, currentRate, currentProfit, frame, p).store, trade)
            < currentRate
  {
    StopLossBelowRate(store, trade, currentRate, p);
  }
}
