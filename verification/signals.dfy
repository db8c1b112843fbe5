/** Entry and exit signals: the manual command queue, which takes priority,
    and the row-wise technical masks.

    A populated frame is modelled by its marks: row `i` of the result is
    `Some(tag)` when the strategy writes `(1, tag)` into the signal and tag
    columns of that row, and `None` when it leaves the row untouched. */
module Signals {
  import opened Values
  import opened Settings
  import opened Indicators

  /** A manual override queued for a trading pair. */
  datatype Command = Command(pair: string, command: string)

  /** The command queue after a populate call, and the marks it wrote. */
  datatype Populated = Populated(queue: seq<Command>, marks: seq<Option<string>>)

  const Buy := "BUY"
  const Sell := "SELL"
  const TriggerBuyTag := "trigger_buy"
  const TriggerSellTag := "trigger_sell"
  const EntryTag := "multi_timeframe_cross"
  const ExitTag := "macd_ema_exit"

  // ------------------------------------------------------ command queue

  /** The commands of `queue` whose pair differs from `pair`, in order. */
  function DropPair(queue: seq<Command>, pair: string): (r: seq<Command>)
    ensures forall c :: c in r <==> c in queue && c.pair != pair
    ensures |r| <= |queue|
  {
    if queue == [] then []
    else (if queue[0].pair == pair then [] else [queue[0]]) + DropPair(queue[1..], pair)
  }

  /** The commands of `queue` for `pair`, in order. */
  function OfPair(queue: seq<Command>, pair: string): seq<Command> {
    if queue == [] then []
    else (if queue[0].pair == pair then [queue[0]] else []) + OfPair(queue[1..], pair)
  }

  /** Dropping distributes over concatenation; with the one-element case this
      fixes the result as the order-preserving filter. */
  lemma {:induction false} DropPairAppend(a: seq<Command>, b: seq<Command>, pair: string)
    ensures DropPair(a + b, pair) == DropPair(a, pair) + DropPair(b, pair)
  {
    if a == [] {
      assert a + b == b;
    } else {
      assert (a + b)[1..] == a[1..] + b;
      DropPairAppend(a[1..], b, pair);
    }
  }

  /** The commands of every other pair keep their relative order. */
  lemma {:induction false} DropPairKeepsOthers(queue: seq<Command>, pair: string, other: string)
    requires other != pair
    ensures OfPair(DropPair(queue, pair), other) == OfPair(queue, other)
  {
    if queue != [] {
      DropPairKeepsOthers(queue[1..], pair, other);
      var head := if queue[0].pair == pair then [] else [queue[0]];
      var d := head + DropPair(queue[1..], pair);
      if head == [] {
        assert d == DropPair(queue[1..], pair);
      } else {
        assert d[0] == queue[0] && d[1..] == DropPair(queue[1..], pair);
      }
    }
  }

  /** Dropping removes exactly the commands of the pair. */
  lemma {:induction false} DropPairCount(queue: seq<Command>, pair: string)
    ensures |DropPair(queue, pair)| + |OfPair(queue, pair)| == |queue|
  {
    if queue != [] {
      DropPairCount(queue[1..], pair);
    }
  }

  /** The last queued command, if it is `action` for `pair`, fires; it then
      takes every command of that pair out of the queue. */
  function ManualTrigger(queue: seq<Command>, pair: string, action: string): (r: Option<seq<Command>>)
    ensures r.Some? <==> |queue| > 0 && queue[|queue| - 1] == Command(pair, action)
    ensures r.Some? ==> |r.value| < |queue| && forall c | c in r.value :: c.pair != pair
    ensures r.Some? ==> forall c | c in queue && c.pair != pair :: c in r.value
  {
    if |queue| > 0 && queue[|queue| - 1].pair == pair && queue[|queue| - 1].command == action
    then
      var last := [queue[|queue| - 1]];
      assert queue[..|queue| - 1] + last == queue;
      DropPairAppend(queue[..|queue| - 1], last, pair);
      Some(DropPair(queue, pair))
    else None
  }

  /** Marks every row with volume with `tag`. */
  function VolumeMarks(rows: seq<Row>, tag: string): seq<Option<string>> {
    seq(|rows|, i requires 0 <= i < |rows| => if rows[i].volume > 0.0 then Some(tag) else None)
  }

  // --------------------------------------------------------------- entry

  /** The technical entry condition of one row. `&` binds tighter than `|`.
      A breakout with volume always qualifies; apart from it only defined
      (non-NaN) oscillator or TTF cells can qualify a row. */
  predicate TechnicalEntry(row: Row, p: Params)
    ensures ResistanceSignal(row) && row.volume > 0.0 ==> TechnicalEntry(row, p)
    ensures TechnicalEntry(row, p) ==>
      || (ResistanceSignal(row) && row.volume > 0.0)
      || (row.macd.Some? && row.macdSignal.Some? && row.emaShort.Some? && row.emaLong.Some?)
      || row.ttf != NaN
  {
    || (Gt(row.macd, row.macdSignal) && Gt(row.emaShort, row.emaLong))
    || (ResistanceSignal(row) && row.volume > 0.0)
    || Above(row.ttf, p.upperTriggerLevel as real)
  }

  /** Row `i` of the coarser timeframe's close, aligned to rows 0..n-1 by
      nearest index and then shifted by one row. */
  function InformativePrevClose(informative: seq<real>, i: nat): Option<real> {
    if i == 0 || |informative| == 0 then None
    else Some(informative[Clamp(i - 1, |informative|)])
  }

  /** The technical entry mask, conjoined with the higher-timeframe
      confirmation when the coarser series is not empty. */
  function EntryMask(rows: seq<Row>, informative: seq<real>, p: Params): (m: seq<Option<string>>)
    ensures |m| == |rows|
    ensures forall i | 0 <= i < |rows| && m[i].Some? :: m[i].value == EntryTag && TechnicalEntry(rows[i], p)
    ensures |informative| > 0 && |rows| > 0 ==> m[0] == None
  {
    seq(|rows|, i requires 0 <= i < |rows| =>
      if TechnicalEntry(rows[i], p)
         && (|informative| == 0 || Lt(Some(rows[i].close), InformativePrevClose(informative, i)))
      then Some(EntryTag) else None)
  }

  /** `populate_entry_trend`. A queued BUY for this pair, if it is the last
      queued command, marks every row with volume `trigger_buy` and removes
      all of the pair's commands. Otherwise the queue is left as it is, the
      timeframe is looked up in the hierarchy (a `KeyError` for an unlisted
      one), and a row is marked `multi_timeframe_cross` exactly when its
      technical condition holds and, if the coarser series `fetch` yields is
      not empty, the close is below that series' previous close. */
  function PopulateEntryTrend(queue: seq<Command>, pair: string, timeframe: string, rows: seq<Row>,
                              fetch: (string, string) -> seq<real>, p: Params): (r: Outcome<Populated>)
    ensures |queue| > 0 && queue[|queue| - 1] == Command(pair, Buy) ==>
      && r.Ok?
      && r.value.queue == DropPair(queue, pair)
      && |r.value.marks| == |rows|
      && forall i | 0 <= i < |rows| ::
           r.value.marks[i] == (if rows[i].volume > 0.0 then Some(TriggerBuyTag) else None)
    ensures !(|queue| > 0 && queue[|queue| - 1] == Command(pair, Buy)) ==>
      if timeframe !in Ladder[..|Ladder| - 1] then r == KeyError(timeframe)
      else
        var informative := fetch(pair, Hierarchy[timeframe]);
        && r.Ok?
        && r.value.queue == queue
        && |r.value.marks| == |rows|
        && (forall i | 0 <= i < |rows| ::
              (r.value.marks[i].Some? <==>
                 TechnicalEntry(rows[i], p)
                 && (|informative| > 0 ==> i > 0 && rows[i].close < informative[Clamp(i - 1, |informative|)])))
        && (forall i | 0 <= i < |rows| && r.value.marks[i].Some? :: r.value.marks[i].value == EntryTag)
  {
    match ManualTrigger(queue, pair, Buy)
    case Some(rest) => Ok(Populated(rest, VolumeMarks(rows, TriggerBuyTag)))
    case None =>
      match Coarser(timeframe)
      case KeyError(key) => KeyError(key)
      case Ok(level) => Ok(Populated(queue, EntryMask(rows, fetch(pair, level), p)))
  }

  /** `i` capped to the last index of a sequence of length `n`. */
  function Clamp(i: int, n: nat): int {
    if i < n then i else n - 1
  }

  // ---------------------------------------------------------------- exit

  /** The technical exit condition of one row, volume included. A row
      without volume never qualifies, nor does one whose swing-high,
      oscillator and TTF cells are all NaN. */
  predicate TechnicalExit(row: Row, p: Params)
    ensures TechnicalExit(row, p) ==> row.volume > 0.0
    ensures row.swingHigh == None && row.macd == None && row.ttf == NaN ==> !TechnicalExit(row, p)
  {
    && (|| Gt(Some(row.close), row.swingHigh)
        || (Lt(row.macd, row.macdSignal) && Lt(row.emaShort, row.emaLong))
        || Below(row.ttf, p.lowerTriggerLevel as real))
    && row.volume > 0.0
  }

  /** `populate_exit_trend`. A queued SELL for this pair, if it is the last
      queued command, marks every row with volume `trigger_sell` and removes
      all of the pair's commands; otherwise the queue is left as it is and a
      row is marked `macd_ema_exit` exactly when its technical condition
      holds. Either way no row without volume is marked. */
  function PopulateExitTrend(queue: seq<Command>, pair: string, rows: seq<Row>, p: Params): (r: Populated)
    ensures |r.marks| == |rows|
    ensures |queue| > 0 && queue[|queue| - 1] == Command(pair, Sell) ==>
      && r.queue == DropPair(queue, pair)
      && forall i | 0 <= i < |rows| ::
           r.marks[i] == (if rows[i].volume > 0.0 then Some(TriggerSellTag) else None)
    ensures !(|queue| > 0 && queue[|queue| - 1] == Command(pair, Sell)) ==>
      && r.queue == queue
      && forall i | 0 <= i < |rows| ::
           r.marks[i] == (if TechnicalExit(rows[i], p) then Some(ExitTag) else None)
    ensures forall i | 0 <= i < |rows| && r.marks[i].Some? :: rows[i].volume > 0.0
  {
    match ManualTrigger(queue, pair, Sell)
    case Some(rest) => Populated(rest, VolumeMarks(rows, TriggerSellTag))
    case None =>
      Populated(queue, seq(|rows|, i requires 0 <= i < |rows| =>
        if TechnicalExit(rows[i], p) then Some(ExitTag) else None))
  }

  // --------------------------------------------------------------- lemmas

  /** A manual command fires once: after it, no command of the pair is left,
      so the next evaluation of the pair takes the technical path. */
  lemma ManualCommandNotRepeated(queue: seq<Command>, pair: string, timeframe: string, rows: seq<Row>,
                                 fetch: (string, string) -> seq<real>, p: Params)
    requires |queue| > 0 && queue[|queue| - 1] == Command(pair, Buy)
    ensures var r := PopulateEntryTrend(queue, pair, timeframe, rows, fetch, p);
      && r.Ok?
      && OfPair(r.value.queue, pair) == []
      && ManualTrigger(r.value.queue, pair, Buy).None?
      && ManualTrigger(r.value.queue, pair, Sell).None?
  {
    var q := DropPair(queue, pair);
    DropPairCount(q, pair);
    assert DropPair(q, pair) == q by {
      DropPairIdempotent(queue, pair);
    }
    if |q| > 0 {
      assert q[|q| - 1] in q;
    }
  }

  /** Dropping a pair twice is dropping it once. */
  lemma {:induction false} DropPairIdempotent(queue: seq<Command>, pair: string)
    ensures DropPair(DropPair(queue, pair), pair) == DropPair(queue, pair)
  {
    if queue != [] {
      DropPairIdempotent(queue[1..], pair);
      var head := if queue[0].pair == pair then [] else [queue[0]];
      DropPairAppend(head, DropPair(queue[1..], pair), pair);
    }
  }

  /** Within one evaluation cycle (entry, then exit, on the same queue) at
      most one of the two manual paths fires. */
  lemma AtMostOneManualPathPerCycle(queue: seq<Command>, pair: string, timeframe: string,
                                    rows: seq<Row>, fetch: (string, string) -> seq<real>, p: Params)
    requires PopulateEntryTrend(queue, pair, timeframe, rows, fetch, p).Ok?
    ensures var q := PopulateEntryTrend(queue, pair, timeframe, rows, fetch, p).value.queue;
      !(ManualTrigger(queue, pair, Buy).Some? && ManualTrigger(q, pair, Sell).Some?)
  {
    if ManualTrigger(queue, pair, Buy).Some? {
      ManualCommandNotRepeated(queue, pair, timeframe, rows, fetch, p);
    }
  }

  /** When the coarser series is available the first row is never marked by
      the technical path: its shifted informative close is NaN. */
  lemma NoTechnicalEntryOnFirstRow(rows: seq<Row>, informative: seq<real>, p: Params)
    requires |rows| > 0 && |informative| > 0
    ensures EntryMask(rows, informative, p)[0] == None
  {
  }

  /** Unlike the exit mask, the entry mask can mark a row without volume. */
  lemma EntryWithoutVolume()
    ensures var row := Row(1.0, 0.0, Some(2.0), Some(1.0), Some(2.0), Some(1.0), NaN, None, None, None);
      EntryMask([row], [], Default) == [Some(EntryTag)]
  {
  }

  /** The technical entry and exit rules are not exclusive: a resistance
      breakout with volume under a bearish MACD/EMA alignment satisfies both. */
  lemma EntryAndExitCanCoincide()
    ensures var row := Row(10.0, 5.0, Some(1.0), Some(2.0), Some(1.0), Some(2.0), NaN,
                           Some(12.0), Some(9.0), Some(8.0));
      && EntryMask([row], [], Default) == [Some(EntryTag)]
      && PopulateExitTrend([], "BTC/USD", [row], Default).marks == [Some(ExitTag)]
  {
  }
}
