/** The per-trade custom-data store the host provides, as a map from
    (trade id, key) to the stored value, and the strategy's accessors for the
    DCA price list and the custom stop-loss. A lookup that finds nothing falls
    back to a default instead of failing. */
module CustomData {
  import opened Settings

  /** The trade fields the strategy reads; the host owns the trade. */
  datatype Trade = Trade(id: int, pair: string, stakeAmount: real, stopLoss: real)

  /** A stored value: a price or a list of prices. */
  datatype Value = Price(x: real) | Prices(xs: seq<real>)

  type Store = map<(int, string), Value>

  const DcaKey := "DCA"
  const SlKey := "SL"

  /** `get_dca_list`: the stored DCA prices of the trade, or the empty list.
      A stored list is returned as stored, a missing entry reads as no DCA
      yet, and any non-empty answer is the list stored under the trade's DCA key. */
  function GetDcaList(store: Store, trade: Trade): (dcas: seq<real>)
    ensures (trade.id, DcaKey) in store && store[(trade.id, DcaKey)].Prices? ==> dcas == store[(trade.id, DcaKey)].xs
    ensures (trade.id, DcaKey) !in store ==> dcas == []
    ensures dcas != [] ==> (trade.id, DcaKey) in store && store[(trade.id, DcaKey)] == Prices(dcas)
  {
    if (trade.id, DcaKey) in store && store[(trade.id, DcaKey)].Prices?
    then store[(trade.id, DcaKey)].xs
    else []
  }

  /** `get_mk_sl`: the stored stop-loss of the trade, or the trade's own.
      A stored price takes precedence; the answer is always one of the two,
      and the trade's own when nothing is stored for it. */
  function GetMkSl(store: Store, trade: Trade): (sl: real)
    ensures (trade.id, SlKey) in store && store[(trade.id, SlKey)].Price? ==> sl == store[(trade.id, SlKey)].x
    ensures (trade.id, SlKey) !in store ==> sl == trade.stopLoss
    ensures sl == trade.stopLoss || ((trade.id, SlKey) in store && store[(trade.id, SlKey)] == Price(sl))
  {
    if (trade.id, SlKey) in store && store[(trade.id, SlKey)].Price?
    then store[(trade.id, SlKey)].x
    else trade.stopLoss
  }

  /** `set_mk_sl`: stores the stop-loss `rate * new_sl_coef` for the trade.
      Reading it back yields that value; the trade's DCA list and every other
      entry stay as they were, and only the trade's SL key can be new. */
  function SetMkSl(store: Store, trade: Trade, rate: real, p: Params): (s: Store)
    ensures GetMkSl(s, trade) == rate * p.newSlCoef
    ensures GetDcaList(s, trade) == GetDcaList(store, trade)
    ensures s.Keys == store.Keys + {(trade.id, SlKey)}
    ensures forall k | k in store && k != (trade.id, SlKey) :: s[k] == store[k]
  {
    store[(trade.id, SlKey) := Price(rate * p.newSlCoef)]
  }

  /** `confirm_dca`: appends `rate` to the trade's DCA list and lowers its
      stop-loss to `rate * new_sl_coef`. Reading back yields the written
      values; every other entry of the store, including the entries of every
      other trade, is unchanged. */
  function ConfirmDca(store: Store, trade: Trade, rate: real, p: Params): (s: Store)
    ensures GetDcaList(s, trade) == GetDcaList(store, trade) + [rate]
    ensures GetMkSl(s, trade) == rate * p.newSlCoef
    ensures s.Keys == store.Keys + {(trade.id, DcaKey), (trade.id, SlKey)}
    ensures forall k | k in store && k != (trade.id, DcaKey) && k != (trade.id, SlKey) :: s[k] == store[k]
  {
    var dcas := GetDcaList(store, trade);
    SetMkSl(store, trade, rate, p)[(trade.id, DcaKey) := Prices(dcas + [rate])]
  }

  /** The stop-loss written for a positive rate lies strictly below it and
      at no less than 30% of it. */
  lemma StopLossBelowRate(store: Store, trade: Trade, rate: real, p: Params)
    requires Valid(p) && rate > 0.0
    ensures 0.3 * rate <= GetMkSl(ConfirmDca(store, trade, rate, p), trade) < rate
  {
    assert rate * p.newSlCoef <= rate * 0.9;
    assert rate * p.newSlCoef >= rate * 0.3;
  }

  /** A store where every DCA entry holds a price list and every SL entry a
      price, which is what this module writes. */
  predicate WellTyped(store: Store) {
    forall k | k in store :: (k.1 == DcaKey ==> store[k].Prices?) && (k.1 == SlKey ==> store[k].Price?)
  }

  /** With nothing stored for the trade the defaults apply: no DCA prices and
      the trade's own stop-loss. */
  lemma Defaults(store: Store, trade: Trade)
    requires (trade.id, DcaKey) !in store && (trade.id, SlKey) !in store
    ensures GetDcaList(store, trade) == []
    ensures GetMkSl(store, trade) == trade.stopLoss
  {
  }

  /** Confirming a DCA keeps the store well typed. */
  lemma ConfirmDcaWellTyped(store: Store, trade: Trade, rate: real, p: Params)
    requires WellTyped(store)
    ensures WellTyped(ConfirmDca(store, trade, rate, p))
  {
  }
}
