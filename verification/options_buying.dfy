/** The four options-buying strategies: each buys one CE or PE leg per
    base when its indicator signal says so, and exits it on a rule of its
    own. The RSI/PSAR and RSI/MACD variants keep the order in a tag
    manager keyed by the base's symbol, the multi-candle and EMA variants
    in a per-base map that is reset to `None` on exit; both are a map from
    base to order here. Indicator values are inputs. */
module OptionsBuying {
  import opened Common
  import opened Ledger
  import opened OptionLegs

  // ----- Signals -----

  /** _get_decision_psar: 1 when the PSAR is below the close, -1 when
      above, 0 when equal. */
  function PsarDecision(psar: real, close: real): (d: Crossover)
    ensures d == 1 <==> psar < close
    ensures d == -1 <==> psar > close
  {
    if psar < close then 1 else if psar > close then -1 else 0
  }

  /** The leg a crossover code opens: 1 a call, -1 a put, 0 none. */
  function LegOf(c: Crossover): (r: Option<Suffix>)
    ensures r == Some(CE) <==> c == 1
    ensures r == Some(PE) <==> c == -1
  {
    if c == 1 then Some(CE) else if c == -1 then Some(PE) else None
  }

  /** RSI/PSAR entry: the RSI crossover and the PSAR decision agree on a
      nonzero code. */
  function RsiPsarLeg(rsiCross: Crossover, psar: Crossover): (r: Option<Suffix>)
    ensures r.Some? <==> rsiCross == psar && rsiCross != 0
    ensures r.Some? ==> r == LegOf(rsiCross)
  {
    if rsiCross == psar then LegOf(rsiCross) else None
  }

  /** _candle_checks on one interval's history: 1 when the last close is
      above the previous candle's high, else -1 when below its low, else 0.
      Fewer than two candles is an index error. */
  function CandleCheck(hist: seq<Candle>): (r: Result<Crossover>)
    ensures r.Err? <==> |hist| < 2
    ensures r.Err? ==> r.fault == OutOfRange
    ensures r.Ok? ==> var last := hist[|hist| - 1]; var prev := hist[|hist| - 2];
                      (r.value == 1 <==> last.close > prev.high)
                      && (r.value == -1 <==> last.close <= prev.high && last.close < prev.low)
  {
    if |hist| < 2 then Err(OutOfRange)
    else
      var last := hist[|hist| - 1];
      var prev := hist[|hist| - 2];
      if last.close > prev.high then Ok(1)
      else if last.close < prev.low then Ok(-1)
      else Ok(0)
  }

  /** A candle that broke out of the previous well-formed candle does not
      also break down. */
  lemma CandleCheckExclusive(prev: Candle, last: Candle)
    requires WellFormed(prev)
    ensures var r := CandleCheck([prev, last]);
            r.Ok? && (r.value == -1 <==> last.close < prev.low)
  {
  }

  /** Multi-candle entry: the two intervals' checks agree on a nonzero
      code. */
  function MultiCandleLeg(one: Result<Crossover>, two: Result<Crossover>): (r: Result<Option<Suffix>>)
    ensures r.Err? <==> one.Err? || two.Err?
    ensures r.Ok? ==> (r.value.Some? <==> one.value == two.value && one.value != 0)
    ensures r.Ok? && r.value.Some? ==> r.value == LegOf(one.value)
  {
    if one.Err? then Err(one.fault)
    else if two.Err? then Err(two.fault)
    else if one.value == two.value then Ok(LegOf(one.value))
    else Ok(None)
  }

  /** RSI/MACD entry: an oversold crossover of 1 opens a call; otherwise an
      overbought crossover of -1 opens a put. */
  function RsiMacdLeg(oversold: Crossover, overbought: Crossover): (r: Option<Suffix>)
    ensures r == Some(CE) <==> oversold == 1
    ensures r == Some(PE) <==> oversold != 1 && overbought == -1
  {
    if oversold == 1 then Some(CE) else if overbought == -1 then Some(PE) else None
  }

  // ----- Exit rules -----

  /** _check_exit_condition: the price is more than the target points above
      the entry, or more than the stoploss points below it. */
  predicate PointExit(ltp: real, entry: real, targetPoints: real, stoplossPoints: real)
  {
    ltp > entry + targetPoints || ltp < entry - stoplossPoints
  }

  /** The point exit is a band: inside [entry - stop, entry + target] it
      holds, and a price farther out than one that exits also exits. */
  lemma PointExitBand(ltp: real, ltp': real, entry: real, t: real, s: real)
    ensures entry - s <= ltp <= entry + t ==> !PointExit(ltp, entry, t, s)
    ensures PointExit(ltp, entry, t, s) && ltp > entry + t && ltp' >= ltp ==> PointExit(ltp', entry, t, s)
    ensures PointExit(ltp, entry, t, s) && ltp < entry - s && ltp' <= ltp ==> PointExit(ltp', entry, t, s)
  {
  }

  /** RSI/MACD exit: a put is closed on an oversold crossover of -1, a call
      on an overbought crossover of 1; a symbol of neither suffix is never
      closed. */
  predicate RsiMacdExit(oversold: Crossover, overbought: Crossover, held: Option<Suffix>)
  {
    (oversold == -1 && held == Some(PE)) || (overbought == 1 && held == Some(CE))
  }

  /** The exit of a leg is the entry of the other leg's opposite signal: a
      put is closed by the oversold crossover that is the mirror of the one
      that opens a call, and a call by the mirror of the one that opens a
      put. */
  lemma RsiMacdExitMirrorsEntry(oversold: Crossover, overbought: Crossover)
    ensures RsiMacdExit(oversold, overbought, Some(PE)) <==> RsiMacdLeg(-oversold, 0) == Some(CE)
    ensures RsiMacdExit(oversold, overbought, Some(CE)) <==> RsiMacdLeg(0, -overbought) == Some(PE)
    ensures !RsiMacdExit(oversold, overbought, None)
  {
  }

  // ----- The ledger -----

  /** The open order per base. */
  type Book = map<Instrument, BrokerOrder>

  /** The position in the bucket of the first base without an open order
      whose signal raises, or the bucket's length if none does. */
  function FirstLegFault(book: Book, bucket: seq<Instrument>, leg: Instrument -> Result<Option<Suffix>>): (k: nat)
    ensures k <= |bucket|
    ensures k < |bucket| ==> bucket[k] !in book && leg(bucket[k]).Err?
    ensures forall j :: 0 <= j < k ==> bucket[j] in book || leg(bucket[j]).Ok?
    decreases |bucket|
  {
    if |bucket| == 0 then 0
    else if bucket[0] !in book && leg(bucket[0]).Err? then 0
    else
      var k := FirstLegFault(book, bucket[1..], leg);
      assert forall j :: 1 <= j < k + 1 ==> bucket[j] == bucket[1..][j - 1];
      k + 1
  }

  /** The (child, base) picks of the bases without an open order whose
      signal names a leg, in bucket order. */
  function BuyPicks(book: Book, bucket: seq<Instrument>, leg: Instrument -> Result<Option<Suffix>>,
                    child: (Instrument, Suffix) -> Instrument)
    : (r: seq<(Instrument, Instrument)>)
    ensures forall k :: 0 <= k < |r| ==> var b := r[k].1;
              b in bucket && b !in book && leg(b).Ok? && leg(b).value.Some?
              && r[k].0 == child(b, leg(b).value.value)
    ensures forall b :: b in bucket && b !in book && leg(b).Ok? && leg(b).value.Some? ==>
              (child(b, leg(b).value.value), b) in r
    decreases |bucket|
  {
    if |bucket| == 0 then []
    else
      var b := bucket[0];
      var rest := BuyPicks(book, bucket[1..], leg, child);
      assert forall x :: x in bucket ==> x == b || x in bucket[1..];
      assert forall x :: x in bucket[1..] ==> x in bucket;
      if b !in book && leg(b).Ok? && leg(b).value.Some? then
        assert forall k :: 1 <= k < 1 + |rest| ==> ([(child(b, leg(b).value.value), b)] + rest)[k] == rest[k - 1];
        [(child(b, leg(b).value.value), b)] + rest
      else rest
  }

  /** strategy_select_instruments_for_entry: each base without an open
      order whose signal names a leg is selected with a BUY, as (child,
      base); `child` is the strike set-up's pick for the base and leg. The
      signal is read only for bases without an open order, and the first
      error it raises ends the scan. */
  function SelectBuyEntry(book: Book, bucket: seq<Instrument>, leg: Instrument -> Result<Option<Suffix>>,
                          child: (Instrument, Suffix) -> Instrument)
    : (r: Result<seq<(Instrument, Instrument)>>)
    ensures r.Err? <==> exists b :: b in bucket && b !in book && leg(b).Err?
    ensures r.Err? ==> exists b :: b in bucket && b !in book && leg(b) == Err(r.fault)
    ensures r.Ok? ==> forall k :: 0 <= k < |r.value| ==> var b := r.value[k].1;
              b in bucket && b !in book && leg(b).Ok? && leg(b).value.Some?
              && r.value[k].0 == child(b, leg(b).value.value)
    ensures r.Ok? ==> forall b :: b in bucket && b !in book && leg(b).value.Some? ==>
              (child(b, leg(b).value.value), b) in r.value
  {
    var k := FirstLegFault(book, bucket, leg);
    if k < |bucket| then
      assert bucket[k] in bucket;
      Err(leg(bucket[k]).fault)
    else
      assert forall b :: b in bucket && b !in book ==> leg(b).Ok? by {
        forall b | b in bucket && b !in book
          ensures leg(b).Ok?
        {
          var j :| 0 <= j < |bucket| && bucket[j] == b;
        }
      }
      Ok(BuyPicks(book, bucket, leg, child))
  }

  /** strategy_enter_position: the order is recorded for the base. */
  function EnterBuy(book: Book, base: Instrument, o: BrokerOrder): (r: Book)
    ensures base in r && r[base] == o
    ensures forall b :: b != base ==> (b in r <==> b in book) && (b in book ==> r[b] == book[b])
  {
    book[base := o]
  }

  /** strategy_select_instruments_for_exit: each child of a base with an
      open order (COMPLETE, where `needsComplete`) whose exit rule fires is
      selected with an 'EXIT', as (child, base). Children the mapper does
      not know are passed over. */
  function SelectBuyExit(book: Book, mapper: map<Instrument, Instrument>, bucket: seq<Instrument>, needsComplete: bool,
                         fires: (Instrument, BrokerOrder) -> bool)
    : (r: seq<(Instrument, Instrument)>)
    ensures forall k :: 0 <= k < |r| ==> var i := r[k].0;
              i in bucket && i in mapper && r[k].1 == mapper[i] && mapper[i] in book
              && (needsComplete ==> book[mapper[i]].status == Complete) && fires(mapper[i], book[mapper[i]])
    ensures forall i :: i in bucket && i in mapper && mapper[i] in book
                        && (needsComplete ==> book[mapper[i]].status == Complete) && fires(mapper[i], book[mapper[i]])
                        ==> (i, mapper[i]) in r
    decreases |bucket|
  {
    if |bucket| == 0 then []
    else
      var i := bucket[0];
      var rest := SelectBuyExit(book, mapper, bucket[1..], needsComplete, fires);
      assert forall x :: x in bucket ==> x == i || x in bucket[1..];
      if i in mapper && mapper[i] in book && (needsComplete ==> book[mapper[i]].status == Complete)
         && fires(mapper[i], book[mapper[i]]) then
        [(i, mapper[i])] + rest
      else rest
  }

  /** strategy_exit_position: 'EXIT' exits the base's order and forgets it
      (with no order for the base, the call on `None` raises); any other
      action changes nothing. */
  function ExitBuy(book: Book, base: Instrument, action: Action): (r: Result<(Book, bool)>)
    ensures action != Close ==> r == Ok((book, false))
    ensures action == Close ==> (r.Err? <==> base !in book)
    ensures r.Err? ==> r.fault == MissingKey
    ensures action == Close && r.Ok? ==> r.value.1 && base !in r.value.0
                                         && forall b :: b != base ==> (b in r.value.0 <==> b in book)
  {
    if action != Close then Ok((book, false))
    else if base !in book then Err(MissingKey)
    else Ok((book - {base}, true))
  }

  /** Entering a flat base and exiting it leaves the ledger as it was. */
  lemma EnterThenExitBuy(book: Book, base: Instrument, o: BrokerOrder)
    requires base !in book
    ensures ExitBuy(EnterBuy(book, base, o), base, Close) == Ok((book, true))
  {
    assert EnterBuy(book, base, o) - {base} == book;
  }

  // ----- The four strategies -----

  /** The indicator readings of one candle for one base. */
  datatype Reading = Reading(rsiCross: Crossover, psar: Crossover,
                             candlesOne: seq<Candle>, candlesTwo: seq<Candle>,
                             oversold: Crossover, overbought: Crossover, ema: Crossover)

  datatype Variant = RsiPsar | MultiCandle | RsiMacd | EmaCross

  /** The leg each variant opens for a reading (a short history is an
      error for the multi-candle variant). */
  function EntryLeg(v: Variant, rd: Reading): (r: Result<Option<Suffix>>)
    ensures v != MultiCandle ==> r.Ok?
    ensures v == RsiPsar ==> r == Ok(RsiPsarLeg(rd.rsiCross, rd.psar))
    ensures v == RsiMacd ==> r == Ok(RsiMacdLeg(rd.oversold, rd.overbought))
    ensures v == EmaCross ==> r == Ok(LegOf(rd.ema))
    ensures v == MultiCandle ==> r == MultiCandleLeg(CandleCheck(rd.candlesOne), CandleCheck(rd.candlesTwo))
  {
    match v
    case RsiPsar => Ok(RsiPsarLeg(rd.rsiCross, rd.psar))
    case MultiCandle => MultiCandleLeg(CandleCheck(rd.candlesOne), CandleCheck(rd.candlesTwo))
    case RsiMacd => Ok(RsiMacdLeg(rd.oversold, rd.overbought))
    case EmaCross => Ok(LegOf(rd.ema))
  }

  /** Whether each variant's exit scan waits for a COMPLETE order. */
  function NeedsComplete(v: Variant): bool
  {
    v == RsiPsar || v == RsiMacd
  }

  /** Each variant's exit rule for a held order, given the reading and the
      order's current price. */
  predicate ExitFires(v: Variant, rd: Reading, o: BrokerOrder, ltp: real, targetPoints: real, stoplossPoints: real)
  {
    match v
    case RsiPsar => PointExit(ltp, o.entryPrice, targetPoints, stoplossPoints)
    case MultiCandle => PointExit(ltp, o.entryPrice, targetPoints, stoplossPoints)
    case RsiMacd => RsiMacdExit(rd.oversold, rd.overbought, SymbolSuffix(o.child))
    case EmaCross => rd.ema != 0
  }

  /** The EMA variant reverses within one candle: a crossover exits the
      held leg, and the entry scan that follows opens the leg of that
      crossover for the same base. */
  lemma EmaCrossReverses(book: Book, mapper: map<Instrument, Instrument>, i: Instrument, rd: Reading,
                         ltp: real, t: real, s: real, child: (Instrument, Suffix) -> Instrument)
    requires i in mapper && mapper[i] in book && rd.ema != 0
    ensures var b := mapper[i];
            var exits := SelectBuyExit(book, mapper, [i], false, (x, o) => ExitFires(EmaCross, rd, o, ltp, t, s));
            exits == [(i, b)]
            && var after := ExitBuy(book, b, Close);
            after.Ok?
            && SelectBuyEntry(after.value.0, [b], x => EntryLeg(EmaCross, rd), child)
               == Ok([(child(b, LegOf(rd.ema).value), b)])
  {
    var b := mapper[i];
    assert [i][1..] == [];
    assert [b][1..] == [];
    var after := ExitBuy(book, b, Close).value.0;
    assert EntryLeg(EmaCross, rd) == Ok(LegOf(rd.ema)) && LegOf(rd.ema).Some?;
    var pick := (child(b, LegOf(rd.ema).value), b);
    assert SelectBuyEntry(after, [b][1..], x => EntryLeg(EmaCross, rd), child) == Ok([]);
    assert [pick] + [] == [pick];
  }

  /** The RSI/PSAR variant holds an order that is not yet COMPLETE even
      when its price is past the target; the multi-candle variant does
      not wait. */
  lemma OnlyCompleteOrdersExit(book: Book, mapper: map<Instrument, Instrument>, i: Instrument, rd: Reading,
                               ltp: real, t: real, s: real)
    requires i in mapper && mapper[i] in book && book[mapper[i]].status != Complete
    requires PointExit(ltp, book[mapper[i]].entryPrice, t, s)
    ensures SelectBuyExit(book, mapper, [i], NeedsComplete(RsiPsar), (x, o) => ExitFires(RsiPsar, rd, o, ltp, t, s)) == []
    ensures SelectBuyExit(book, mapper, [i], NeedsComplete(MultiCandle), (x, o) => ExitFires(MultiCandle, rd, o, ltp, t, s))
            == [(i, mapper[i])]
  {
    assert [i][1..] == [];
  }
}
