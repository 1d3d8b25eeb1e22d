/** The OBV breakout strategy (`obv_breakout/_strategy.py` at the top of
    the repository): a price breakout confirmed by an OBV breakout opens a
    LONG or SHORT position recorded with its entry price; an OBV reversal
    or a trailing / ATR stop closes it. OBV, its SMA and the ATR series are
    inputs. */
module ObvBreakout {
  import opened Common
  import opened Ledger

  /** `positions_data[symbol]`: LONG is `Buy`, SHORT is `Sell`. */
  datatype Position = Position(side: Side, entryPrice: real)

  type Positions = map<Instrument, Position>

  /** The series the strategy reads for one instrument on one candle. */
  datatype History = History(candles: seq<Candle>, obv: seq<real>, smoothed: seq<real>, atr: seq<real>)

  datatype Params = Params(lookback: nat, trailingStop: nat, atrMultiplier: real)

  /** OBV_MA_PERIOD 10, LOOKBACK_PERIOD 20, TRAILING_STOP_PERIOD 10,
      ATR_PERIOD 14, ATR_MULTIPLIER 2 (the two periods only feed talib). */
  const Defaults := Params(20, 10, 2.0)

  /** Every series the callbacks index with `[-1]` has a last element. */
  predicate Ready(h: History)
  {
    |h.candles| > 0 && |h.obv| > 0 && |h.smoothed| > 0
  }

  function Highs(c: seq<Candle>): (r: seq<real>)
    ensures |r| == |c| && forall k :: 0 <= k < |c| ==> r[k] == c[k].high
  {
    seq(|c|, k requires 0 <= k < |c| => c[k].high)
  }

  function Lows(c: seq<Candle>): (r: seq<real>)
    ensures |r| == |c| && forall k :: 0 <= k < |c| ==> r[k] == c[k].low
  {
    seq(|c|, k requires 0 <= k < |c| => c[k].low)
  }

  function Last<T>(s: seq<T>): T
    requires |s| > 0
  {
    s[|s| - 1]
  }

  /** The last element of a series is in every window `s[-n:]` of it. */
  lemma LastInWindow(s: seq<real>, n: nat)
    requires |s| > 0
    ensures Last(s) in TakeLast(s, n)
  {
    var w := TakeLast(s, n);
    assert w[|w| - 1] == s[|s| - 1];
  }

  /** compute_signals as written: each "breakout" compares the latest
      value against a window `[-N:]` that already holds that value. */
  function SignalAsWritten(h: History, p: Params): (r: Result<Option<Side>>)
    ensures r.Ok? <==> Ready(h)
  {
    if !Ready(h) then Err(OutOfRange)
    else
      var close := Last(h.candles).close;
      var sm := Last(h.smoothed);
      if close > Max(TakeLast(Highs(h.candles), p.lookback)) && sm > Max(TakeLast(h.smoothed, p.lookback)) then Ok(Some(Buy))
      else if close < Min(TakeLast(Lows(h.candles), p.lookback)) && sm < Min(TakeLast(h.smoothed, p.lookback)) then Ok(Some(Sell))
      else Ok(None)
  }

  /** As written, the strategy never signals: the smoothed OBV cannot
      exceed (or undercut) a maximum (minimum) taken over itself. */
  lemma AsWrittenNeverSignals(h: History, p: Params)
    ensures SignalAsWritten(h, p) == Err(OutOfRange) || SignalAsWritten(h, p) == Ok(None)
  {
    if Ready(h) {
      LastInWindow(h.smoothed, p.lookback);
    }
  }

  /** The `N` values before the latest one (all of them for `N` = 0, as
      Python reads `[-0:]`). */
  function Before(s: seq<real>, n: nat): seq<real>
    requires |s| > 0
  {
    TakeLast(s[..|s| - 1], n)
  }

  /** The latest value is strictly above every value of the window. */
  predicate Above(x: real, w: seq<real>)
  {
    |w| > 0 && forall k :: 0 <= k < |w| ==> w[k] < x
  }

  predicate Below(x: real, w: seq<real>)
  {
    |w| > 0 && forall k :: 0 <= k < |w| ==> x < w[k]
  }

  /** compute_signals as its docstrings describe it: the latest close
      against the previous N highs (lows), the latest smoothed OBV against
      the previous N smoothed values. */
  function Signal(h: History, p: Params): (r: Result<Option<Side>>)
    ensures r.Ok? <==> Ready(h)
    ensures r == Ok(Some(Buy)) <==>
              Ready(h) && Above(Last(h.candles).close, Before(Highs(h.candles), p.lookback))
              && Above(Last(h.smoothed), Before(h.smoothed, p.lookback))
    ensures r == Ok(Some(Sell)) <==>
              Ready(h) && Below(Last(h.candles).close, Before(Lows(h.candles), p.lookback))
              && Below(Last(h.smoothed), Before(h.smoothed, p.lookback))
              && !(Above(Last(h.candles).close, Before(Highs(h.candles), p.lookback))
                   && Above(Last(h.smoothed), Before(h.smoothed, p.lookback)))
  {
    if !Ready(h) then Err(OutOfRange)
    else
      var close := Last(h.candles).close;
      var sm := Last(h.smoothed);
      var highs := Before(Highs(h.candles), p.lookback);
      var lows := Before(Lows(h.candles), p.lookback);
      var obvs := Before(h.smoothed, p.lookback);
      if |highs| > 0 && |obvs| > 0 && close > Max(highs) && sm > Max(obvs) then Ok(Some(Buy))
      else if |lows| > 0 && |obvs| > 0 && close < Min(lows) && sm < Min(obvs) then Ok(Some(Sell))
      else Ok(None)
  }

  /** The corrected signal does fire: two rising candles give a BUY. */
  lemma SignalCanBuy()
    ensures var h := History([Candle(10.0, 11.0, 9.0, 10.5), Candle(10.5, 13.0, 10.0, 12.5)],
                             [100.0, 200.0], [100.0, 150.0], [1.0, 1.0]);
            Signal(h, Defaults) == Ok(Some(Buy))
  {
    var c := [Candle(10.0, 11.0, 9.0, 10.5), Candle(10.5, 13.0, 10.0, 12.5)];
    var h := History(c, [100.0, 200.0], [100.0, 150.0], [1.0, 1.0]);
    var highs := Highs(c);
    assert highs[0] == 11.0;
    var w := Before(highs, 20);
    assert |w| == 1 && w[0] == 11.0;
    var o := Before(h.smoothed, 20);
    assert |o| == 1 && o[0] == 100.0;
    assert Above(Last(c).close, w);
    assert Above(Last(h.smoothed), o);
  }

  /** And two falling candles give a SELL. */
  lemma SignalCanSell()
    ensures var h := History([Candle(10.0, 11.0, 9.0, 9.5), Candle(9.5, 9.8, 7.0, 7.5)],
                             [200.0, 100.0], [200.0, 150.0], [1.0, 1.0]);
            Signal(h, Defaults) == Ok(Some(Sell))
  {
    var c := [Candle(10.0, 11.0, 9.0, 9.5), Candle(9.5, 9.8, 7.0, 7.5)];
    var h := History(c, [200.0, 100.0], [200.0, 150.0], [1.0, 1.0]);
    var lows := Lows(c);
    assert lows[0] == 9.0;
    var w := Before(lows, 20);
    assert |w| == 1 && w[0] == 9.0;
    var o := Before(h.smoothed, 20);
    assert |o| == 1 && o[0] == 200.0;
    assert Below(Last(c).close, w);
    assert Below(Last(h.smoothed), o);
  }

  /** The ATR reading the stops use (0 when talib gave nothing). */
  function LatestAtr(h: History): real
  {
    if |h.atr| > 0 then Last(h.atr) else 0.0
  }

  /** The LONG exit: OBV under its average or under its window minimum,
      or the close under the trailing low or the ATR stop. */
  predicate LongExit(entryPrice: real, h: History, p: Params)
    requires Ready(h)
  {
    Last(h.obv) < Last(h.smoothed) || Last(h.obv) < Min(TakeLast(h.obv, p.lookback))
    || Last(h.candles).close < Min(TakeLast(Lows(h.candles), p.trailingStop))
    || Last(h.candles).close < entryPrice - p.atrMultiplier * LatestAtr(h)
  }

  /** The SHORT exit, mirrored. */
  predicate ShortExit(entryPrice: real, h: History, p: Params)
    requires Ready(h)
  {
    Last(h.obv) > Last(h.smoothed) || Last(h.obv) > Max(TakeLast(h.obv, p.lookback))
    || Last(h.candles).close > Max(TakeLast(Highs(h.candles), p.trailingStop))
    || Last(h.candles).close > entryPrice + p.atrMultiplier * LatestAtr(h)
  }

  /** The exit test of strategy_select_instruments_for_exit for a held position. */
  function ExitFires(pos: Position, h: History, p: Params): (r: Result<bool>)
    ensures r.Ok? <==> Ready(h)
    ensures r.Ok? && pos.side == Buy ==> (r.value <==> LongExit(pos.entryPrice, h, p))
    ensures r.Ok? && pos.side == Sell ==> (r.value <==> ShortExit(pos.entryPrice, h, p))
  {
    if !Ready(h) then Err(OutOfRange)
    else if pos.side == Buy then Ok(LongExit(pos.entryPrice, h, p))
    else Ok(ShortExit(pos.entryPrice, h, p))
  }

  /** No value is below the minimum of a window that contains a value it
      does not exceed. */
  lemma NotBelowWindowMin(x: real, s: seq<real>, n: nat)
    requires |s| > 0 && x >= Last(s)
    ensures !(x < Min(TakeLast(s, n)))
  {
    LastInWindow(s, n);
  }

  lemma NotAboveWindowMax(x: real, s: seq<real>, n: nat)
    requires |s| > 0 && x <= Last(s)
    ensures !(x > Max(TakeLast(s, n)))
  {
    LastInWindow(s, n);
  }

  /** The latest OBV value and close never undercut (exceed) the window
      minimum (maximum) the exits compare them with. */
  lemma WindowsHoldLatest(h: History, p: Params)
    requires Ready(h) && WellFormed(Last(h.candles))
    ensures Min(TakeLast(h.obv, p.lookback)) <= Last(h.obv) <= Max(TakeLast(h.obv, p.lookback))
    ensures Min(TakeLast(Lows(h.candles), p.trailingStop)) <= Last(h.candles).close
    ensures Last(h.candles).close <= Max(TakeLast(Highs(h.candles), p.trailingStop))
  {
    NotBelowWindowMin(Last(h.obv), h.obv, p.lookback);
    NotAboveWindowMax(Last(h.obv), h.obv, p.lookback);
    assert Last(Lows(h.candles)) == Last(h.candles).low;
    NotBelowWindowMin(Last(h.candles).close, Lows(h.candles), p.trailingStop);
    assert Last(Highs(h.candles)) == Last(h.candles).high;
    NotAboveWindowMax(Last(h.candles).close, Highs(h.candles), p.trailingStop);
  }

  /** For a real latest candle the window tests cannot hold, since each
      window contains the latest candle and OBV value: a LONG closes
      exactly when OBV falls under its average or the close falls under
      the ATR stop. */
  lemma LongExitReduces(entryPrice: real, h: History, p: Params)
    requires Ready(h) && WellFormed(Last(h.candles))
    ensures LongExit(entryPrice, h, p) <==>
              Last(h.obv) < Last(h.smoothed)
              || Last(h.candles).close < entryPrice - p.atrMultiplier * LatestAtr(h)
  {
    var obvBreak := Last(h.obv) < Min(TakeLast(h.obv, p.lookback));
    var lowBreak := Last(h.candles).close < Min(TakeLast(Lows(h.candles), p.trailingStop));
    var averageBreak := Last(h.obv) < Last(h.smoothed);
    var stopBreak := Last(h.candles).close < entryPrice - p.atrMultiplier * LatestAtr(h);
    assert !obvBreak && !lowBreak by {
      WindowsHoldLatest(h, p);
    }
    assert LongExit(entryPrice, h, p) == (averageBreak || obvBreak || lowBreak || stopBreak);
  }

  /** The SHORT counterpart of LongExitReduces. */
  lemma ShortExitReduces(entryPrice: real, h: History, p: Params)
    requires Ready(h) && WellFormed(Last(h.candles))
    ensures ShortExit(entryPrice, h, p) <==>
              Last(h.obv) > Last(h.smoothed)
              || Last(h.candles).close > entryPrice + p.atrMultiplier * LatestAtr(h)
  {
    var obvBreak := Last(h.obv) > Max(TakeLast(h.obv, p.lookback));
    var highBreak := Last(h.candles).close > Max(TakeLast(Highs(h.candles), p.trailingStop));
    var averageBreak := Last(h.obv) > Last(h.smoothed);
    var stopBreak := Last(h.candles).close > entryPrice + p.atrMultiplier * LatestAtr(h);
    assert !obvBreak && !highBreak by {
      WindowsHoldLatest(h, p);
    }
    assert ShortExit(entryPrice, h, p) == (averageBreak || obvBreak || highBreak || stopBreak);
  }

  /** `positions_data` seen as a ledger, for the `in positions_data` test. */
  function AsBook(ps: Positions): (b: Book)
    ensures forall i :: i in b <==> i in ps
  {
    map i | i in ps :: Order(ps[i].side, Complete)
  }

  /** The position in the bucket of the first instrument without a
      position whose signal raises, or the bucket's length if none does. */
  function FirstFaulty(ps: Positions, bucket: seq<Instrument>, hist: Instrument -> History, p: Params): (k: nat)
    ensures k <= |bucket|
    ensures k < |bucket| ==> bucket[k] !in ps && Signal(hist(bucket[k]), p).Err?
    ensures forall j :: 0 <= j < k ==> bucket[j] in ps || Signal(hist(bucket[j]), p).Ok?
    decreases |bucket|
  {
    if |bucket| == 0 then 0
    else if bucket[0] !in ps && Signal(hist(bucket[0]), p).Err? then 0
    else
      var k := FirstFaulty(ps, bucket[1..], hist, p);
      assert forall j :: 1 <= j < k + 1 ==> bucket[j] == bucket[1..][j - 1];
      k + 1
  }

  /** The fault compute_signals raises first while the entry scan walks
      the bucket: only instruments without a position are computed. */
  function FirstSignalFault(ps: Positions, bucket: seq<Instrument>, hist: Instrument -> History, p: Params)
    : (r: Option<Fault>)
    ensures r.None? <==> forall i :: i in bucket && i !in ps ==> Signal(hist(i), p).Ok?
    ensures r.Some? ==> exists k :: 0 <= k < |bucket| && bucket[k] !in ps && Signal(hist(bucket[k]), p) == Err(r.value)
                                    && forall j :: 0 <= j < k ==> bucket[j] in ps || Signal(hist(bucket[j]), p).Ok?
  {
    var k := FirstFaulty(ps, bucket, hist, p);
    if k < |bucket| then Some(Signal(hist(bucket[k]), p).fault) else None
  }

  /** strategy_select_instruments_for_entry: instruments without a
      position and with a signal, in bucket order; the first error the
      signal raises on an instrument without a position aborts the scan. */
  function SelectForEntry(ps: Positions, bucket: seq<Instrument>, hist: Instrument -> History, p: Params)
    : (r: Result<Selection<Instrument, Side>>)
    ensures r.Err? <==> exists i :: i in bucket && i !in ps && Signal(hist(i), p).Err?
    ensures r.Err? ==> FirstSignalFault(ps, bucket, hist, p) == Some(r.fault)
    ensures r.Ok? ==> r.value.Aligned()
    ensures r.Ok? ==> forall k :: 0 <= k < |r.value.instruments| ==>
              r.value.instruments[k] !in ps && Signal(hist(r.value.instruments[k]), p) == Ok(Some(r.value.meta[k]))
    ensures r.Ok? ==> forall i :: i in bucket ==>
              (i in r.value.instruments <==> i !in ps && Signal(hist(i), p).value.Some?)
  {
    var fault := FirstSignalFault(ps, bucket, hist, p);
    if fault.Some? then Err(fault.value)
    else
      Ok(SelectEntry(AsBook(ps), bucket, WhenFlat,
                     i => var s := Signal(hist(i), p); if s.Ok? then s.value else None))
  }

  /** strategy_enter_position: record the side and the latest close. */
  function Enter(ps: Positions, i: Instrument, side: Side, h: History): (r: Result<Positions>)
    ensures r.Ok? <==> |h.candles| > 0
    ensures r.Ok? ==> i in r.value && r.value[i] == Position(side, Last(h.candles).close)
    ensures r.Ok? ==> forall j :: j != i ==> (j in r.value <==> j in ps) && (j in ps ==> r.value[j] == ps[j])
  {
    if |h.candles| == 0 then Err(OutOfRange) else Ok(ps[i := Position(side, Last(h.candles).close)])
  }

  /** strategy_exit_position on 'EXIT': drop the position if present. */
  function Exit(ps: Positions, i: Instrument, a: Action): (r: Positions)
    ensures a == Close ==> i !in r
    ensures a != Close ==> r == ps
    ensures forall j :: j != i ==> (j in r <==> j in ps) && (j in ps ==> r[j] == ps[j])
  {
    if a == Close then ps - {i} else ps
  }

  /** Entering and then exiting an instrument restores the positions. */
  lemma EnterExitRoundTrip(ps: Positions, i: Instrument, side: Side, h: History)
    requires i !in ps && |h.candles| > 0
    ensures Enter(ps, i, side, h).Ok? && Exit(Enter(ps, i, side, h).value, i, Close) == ps
  {
    assert Enter(ps, i, side, h).value - {i} == ps;
  }
}
