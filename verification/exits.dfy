/** The exit confirmation gate and the custom stop-loss exit. */
module Exits {
  import opened Values
  import opened Text
  import opened CustomData
  import Signals

  /** The least profit ratio at which a signal, trailing or ROI exit is let through. */
  const ProfitFloor := 0.005

  const StopLossPrefix := "custom_stop_loss_"

  /** `confirm_trade_exit`, given the profit ratio the trade reports at the
      exit rate. An exit whose reason mentions a forced or triggered exit is
      always approved; one whose reason mentions the strategy's exit tag, a
      trailing stop or ROI is approved once the profit reaches the floor; any
      other exit is rejected and the position stays open. */
  function ConfirmTradeExit(exitReason: string, profitRatio: real): (approved: bool)
    ensures approved <==>
      || Contains(exitReason, "force")
      || Contains(exitReason, "trigger")
      || (&& profitRatio >= ProfitFloor
          && (|| Contains(exitReason, "macd_ema_exit")
              || Contains(exitReason, "trailing")
              || Contains(exitReason, "roi")))
  {
    if Contains(exitReason, "macd_ema_exit") && profitRatio >= ProfitFloor then true
    else if (Contains(exitReason, "trailing") || Contains(exitReason, "roi")) && profitRatio >= ProfitFloor then true
    else if Contains(exitReason, "force") || Contains(exitReason, "trigger") then true
    else false
  }

  /** Approval is monotone in the profit ratio: an exit approved at some
      profit is approved at every higher one. */
  lemma ApprovalMonotone(exitReason: string, lower: real, higher: real)
    requires lower <= higher
    requires ConfirmTradeExit(exitReason, lower)
    ensures ConfirmTradeExit(exitReason, higher)
  {
  }

  /** An ROI exit at 1% profit goes through, one at 0.1% does not, and a
      forced exit goes through at any profit, a loss included. */
  lemma ConfirmExamples(profitRatio: real)
    ensures ConfirmTradeExit("roi", 0.01)
    ensures !ConfirmTradeExit("roi", 0.001)
    ensures ConfirmTradeExit("force_exit", profitRatio)
  {
    ContainsSelf("roi");
    MissingLetter("roi", "force", 0);
    MissingLetter("roi", "trigger", 0);
    MissingLetter("roi", "macd_ema_exit", 0);
    MissingLetter("roi", "trailing", 0);
    assert OccursAt("force_exit", "force", 0);
  }

  /** The strategy's own tags: a manual sell always goes through, a
      technical exit only at the profit floor or above. */
  lemma OwnExitTags(profitRatio: real)
    ensures ConfirmTradeExit(Signals.TriggerSellTag, profitRatio)
    ensures ConfirmTradeExit(Signals.ExitTag, profitRatio) <==> profitRatio >= ProfitFloor
  {
    assert OccursAt(Signals.TriggerSellTag, "trigger", 0);
    ContainsSelf(Signals.ExitTag);
    MissingLetter(Signals.ExitTag, "force", 0);
    MissingLetter(Signals.ExitTag, "trigger", 3);
  }

  /** `custom_exit`: signals an exit tagged with the stop-loss once the rate
      has fallen to or below the trade's stop-loss, the stored one if there
      is one and the trade's own otherwise. `render` is Python's formatting of
      the stop-loss into the tag. */
  function CustomExit(store: Store, trade: Trade, currentRate: real, render: real -> string): (r: Option<string>)
    ensures r.Some? <==> currentRate <= GetMkSl(store, trade)
    ensures r.Some? ==> r.value == StopLossPrefix + render(GetMkSl(store, trade))
  {
    var sl := GetMkSl(store, trade);
    if currentRate <= sl then Some(StopLossPrefix + render(sl)) else None
  }

  /** After a confirmed DCA at `rate`, the custom exit fires exactly when the
      price falls to the lowered stop-loss `rate * new_sl_coef`. */
  lemma CustomExitAfterDca(store: Store, trade: Trade, rate: real, p: Settings.Params,
                           currentRate: real, render: real -> string)
    ensures CustomExit(ConfirmDca(store, trade, rate, p), trade, currentRate, render).Some?
            <==> currentRate <= rate * p.newSlCoef
  {
  }

  /** With no stored stop-loss the trade's own one decides. */
  lemma CustomExitDefault(store: Store, trade: Trade, currentRate: real, render: real -> string)
    requires (trade.id, SlKey) !in store
    ensures CustomExit(store, trade, currentRate, render).Some? <==> currentRate <= trade.stopLoss
  {
  }

  /** Text made of the characters of a decimal float rendering. */
  predicate NumericText(t: string) {
    forall k | 0 <= k < |t| :: t[k] in "0123456789.+-e"
  }

  /** A letter that neither `prefix` nor any number rendering holds is
      missing from `prefix` followed by a number. */
  lemma LetterBeyondPrefix(prefix: string, t: string, c: char)
    requires NumericText(t) && c !in prefix && c !in "0123456789.+-e"
    ensures c !in prefix + t
  {
    forall k | 0 <= k < |prefix + t|
      ensures (prefix + t)[k] != c
    {
      if k >= |prefix| {
        assert (prefix + t)[k] == t[k - |prefix|];
      }
    }
  }

  /** The gate never approves an exit the custom stop-loss raises when the
      stop-loss renders as a plain number: its reason mentions none of the
      words the gate looks for. */
  lemma CustomStopLossNeverConfirmed(store: Store, trade: Trade, currentRate: real,
                                     render: real -> string, profitRatio: real)
    requires CustomExit(store, trade, currentRate, render).Some?
    requires NumericText(render(GetMkSl(store, trade)))
    ensures !ConfirmTradeExit(CustomExit(store, trade, currentRate, render).value, profitRatio)
  {
    var t := render(GetMkSl(store, trade));
    LetterBeyondPrefix(StopLossPrefix, t, 'r');
    LetterBeyondPrefix(StopLossPrefix, t, 'a');
    MissingLetter(StopLossPrefix + t, "force", 2);
    MissingLetter(StopLossPrefix + t, "trigger", 1);
    MissingLetter(StopLossPrefix + t, "macd_ema_exit", 1);
    MissingLetter(StopLossPrefix + t, "trailing", 1);
    MissingLetter(StopLossPrefix + t, "roi", 0);
  }
}
