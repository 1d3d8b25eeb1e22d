/** The volatility-trend (ATR) strategies: a trend code from the ATR series,
    cached per instrument in `current_trend`, with `previous_trend`
    remembering the trend an instrument was entered on
    (`strategy_volatility_trend_atr_delivery`, `_intraday`,
    `volatility_trend_atr.py`), and the v2 file that keeps both as single
    numbers shared by every instrument. */
module AtrTrend {
  import opened Common
  import opened Signals
  import opened Ledger

  /** get_trend_direction on the latest ATR value and the one
      `ATR_PREV_CANDLES_NUM` positions from the end. */
  function TrendOf(now: real, back: real): (t: Crossover)
    ensures t == 1 <==> now > back
    ensures t == -1 <==> now < back
  {
    if now > back then 1 else if now < back then -1 else 0
  }

  /** The series lookup `atr.iloc[-k]` and the trend it gives. Python
      reads `iloc[-0]` as the first element. */
  function TrendFromSeries(atr: seq<real>, k: nat): (r: Result<Crossover>)
    ensures r.Ok? <==> |atr| > 0 && k <= |atr|
    ensures r.Ok? && k > 0 ==> r.value == TrendOf(atr[|atr| - 1], atr[|atr| - k])
    ensures r.Ok? && k == 0 ==> r.value == TrendOf(atr[|atr| - 1], atr[0])
    ensures r.Ok? && k == 1 ==> r.value == 0
  {
    if |atr| == 0 || k > |atr| then Err(OutOfRange)
    else if k == 0 then Ok(TrendOf(atr[|atr| - 1], atr[0]))
    else Ok(TrendOf(atr[|atr| - 1], atr[|atr| - k]))
  }

  /** The two per-instrument caches. */
  datatype Trends = Trends(current: map<Instrument, Crossover>, previous: map<Instrument, Crossover>)

  /** The trend the entry selector acts on: the cached one, unless it is
      missing or 0, in which case a freshly computed one. */
  function Effective(current: map<Instrument, Crossover>, i: Instrument, latest: Crossover): (t: Crossover)
    ensures i in current && current[i] != 0 ==> t == current[i]
    ensures (i !in current || current[i] == 0) ==> t == latest
  {
    if i !in current || current[i] == 0 then latest else current[i]
  }

  /** Entry selection, instrument by instrument, threading the caches. */
  function EntryPhase(book: Book, bucket: seq<Instrument>, trend: Instrument -> Crossover, tr: Trends)
    : (r: (Selection<Instrument, Side>, Trends))
    ensures r.0.Aligned()
    ensures forall k :: 0 <= k < |r.0.instruments| ==>
              var i := r.0.instruments[k];
              i in bucket && i !in book
              && Effective(tr.current, i, trend(i)) != 0
              && SideCode(r.0.meta[k]) == Effective(tr.current, i, trend(i))
    ensures forall i :: i in bucket ==>
              (i in r.0.instruments <==> i !in book && Effective(tr.current, i, trend(i)) != 0)
    ensures forall i :: i in bucket && i !in book ==>
              i in r.1.current && r.1.current[i] == Effective(tr.current, i, trend(i))
    ensures forall i :: !(i in bucket && i !in book) ==>
              (i in r.1.current <==> i in tr.current) && (i in tr.current ==> r.1.current[i] == tr.current[i])
    ensures forall i :: i in r.0.instruments ==>
              i in r.1.previous && r.1.previous[i] == Effective(tr.current, i, trend(i))
    ensures forall i :: i !in r.0.instruments ==>
              (i in r.1.previous <==> i in tr.previous) && (i in tr.previous ==> r.1.previous[i] == tr.previous[i])
    decreases |bucket|
  {
    if |bucket| == 0 then (Empty(), tr)
    else
      var i := bucket[0];
      if i in book then
        var rest := EntryPhase(book, bucket[1..], trend, tr);
        (rest.0, rest.1)
      else
        var t := Effective(tr.current, i, trend(i));
        var tr1 := if t != 0 then Trends(tr.current[i := t], tr.previous[i := t])
                   else Trends(tr.current[i := t], tr.previous);
        assert forall j :: Effective(tr1.current, j, trend(j)) == Effective(tr.current, j, trend(j));
        var rest := EntryPhase(book, bucket[1..], trend, tr1);
        if t != 0 then (Cons(i, DirectSide(t).value, rest.0), rest.1) else (rest.0, rest.1)
  }

  /** The exit rule for one held instrument: a nonzero latest trend that
      differs from the one it was entered on (`previous_trend.get`). */
  predicate ExitFires(previous: map<Instrument, Crossover>, i: Instrument, latest: Crossover)
  {
    latest != 0 && (i !in previous || previous[i] != latest)
  }

  /** Exit selection: every held instrument refreshes its cached trend. */
  function ExitPhase(book: Book, bucket: seq<Instrument>, trend: Instrument -> Crossover, tr: Trends)
    : (r: (Selection<Instrument, Action>, Trends))
    ensures r.0.Aligned()
    ensures forall k :: 0 <= k < |r.0.instruments| ==> r.0.meta[k] == Close
    ensures forall k :: 0 <= k < |r.0.instruments| ==> r.0.instruments[k] in bucket
    ensures forall i :: i in r.0.instruments <==>
              i in bucket && i in book && ExitFires(tr.previous, i, trend(i))
    ensures r.1.previous == tr.previous
    ensures forall i :: i in bucket && i in book ==> i in r.1.current && r.1.current[i] == trend(i)
    ensures forall i :: !(i in bucket && i in book) ==>
              (i in r.1.current <==> i in tr.current) && (i in tr.current ==> r.1.current[i] == tr.current[i])
    decreases |bucket|
  {
    if |bucket| == 0 then (Empty(), tr)
    else
      var i := bucket[0];
      if i !in book then ExitPhase(book, bucket[1..], trend, tr)
      else
        var rest := ExitPhase(book, bucket[1..], trend, Trends(tr.current[i := trend(i)], tr.previous));
        if ExitFires(tr.previous, i, trend(i)) then (Cons(i, Close, rest.0), rest.1) else rest
  }

  /** Every held order is remembered with the trend it was entered on. */
  ghost predicate Remembered(book: Book, tr: Trends)
  {
    forall i :: i in book ==> i in tr.previous && tr.previous[i] == SideCode(book[i].side)
  }

  /** While the ledger is remembered, the ATR exit fires exactly when the
      latest trend points against the held side. */
  lemma ExitFiresIffOpposes(book: Book, tr: Trends, i: Instrument, latest: Crossover)
    requires Remembered(book, tr) && i in book
    ensures ExitFires(tr.previous, i, latest) <==> Opposes(latest, book[i].side)
  {
  }

  datatype AtrState = AtrState(book: Book, trends: Trends)

  /** One candle: exit selection, exits, entry selection, entries. */
  function AtrTick(s: AtrState, bucket: seq<Instrument>, trend: Instrument -> Crossover, status: Status): AtrState
  {
    var ex := ExitPhase(s.book, bucket, trend, s.trends);
    var flat := ExitAll(s.book, ex.0.instruments);
    var en := EntryPhase(flat, bucket, trend, ex.1);
    AtrState(EnterAll(flat, en.0, status), en.1)
  }

  /** A candle keeps every held order remembered. */
  lemma TickRemembers(s: AtrState, bucket: seq<Instrument>, trend: Instrument -> Crossover, status: Status)
    requires Remembered(s.book, s.trends) && Distinct(bucket)
    ensures Remembered(AtrTick(s, bucket, trend, status).book, AtrTick(s, bucket, trend, status).trends)
  {
    var ex := ExitPhase(s.book, bucket, trend, s.trends);
    var flat := ExitAll(s.book, ex.0.instruments);
    var en := EntryPhase(flat, bucket, trend, ex.1);
    var after := EnterAll(flat, en.0, status);
    forall i | i in after ensures i in en.1.previous && en.1.previous[i] == SideCode(after[i].side) {
      if i in en.0.instruments {
        var k :| 0 <= k < |en.0.instruments| && en.0.instruments[k] == i;
        EntryKeepsDistinct(flat, bucket, trend, ex.1);
        EnterAllSide(flat, en.0, status, k);
      } else {
        EnterAllUntouched(flat, en.0, status, i);
      }
    }
  }

  /** Entry selection over a bucket without repeats selects no instrument twice. */
  lemma EntryKeepsDistinct(book: Book, bucket: seq<Instrument>, trend: Instrument -> Crossover, tr: Trends)
    requires Distinct(bucket)
    ensures Distinct(EntryPhase(book, bucket, trend, tr).0.instruments)
    decreases |bucket|
  {
    if |bucket| > 0 {
      var i := bucket[0];
      DistinctTail(bucket);
      if i !in book {
        var t := Effective(tr.current, i, trend(i));
        var tr1 := if t != 0 then Trends(tr.current[i := t], tr.previous[i := t])
                   else Trends(tr.current[i := t], tr.previous);
        EntryKeepsDistinct(book, bucket[1..], trend, tr1);
        var rest := EntryPhase(book, bucket[1..], trend, tr1).0;
        assert i !in rest.instruments;
        DistinctCons(i, rest.instruments);
      } else {
        EntryKeepsDistinct(book, bucket[1..], trend, tr);
      }
    }
  }

  /** Stop-and-reverse: a held instrument whose latest trend turns against
      it is exited and re-entered on the other side in the same candle. */
  lemma TrendTurnReverses(s: AtrState, bucket: seq<Instrument>, trend: Instrument -> Crossover,
                          status: Status, i: Instrument)
    requires Remembered(s.book, s.trends) && Distinct(bucket) && i in bucket && i in s.book
    requires Opposes(trend(i), s.book[i].side)
    ensures var after := AtrTick(s, bucket, trend, status).book;
            i in after && after[i] == Order(Opposite(s.book[i].side), status)
  {
    var ex := ExitPhase(s.book, bucket, trend, s.trends);
    var flat := ExitAll(s.book, ex.0.instruments);
    var en := EntryPhase(flat, bucket, trend, ex.1);
    ExitFiresIffOpposes(s.book, s.trends, i, trend(i));
    assert i !in flat;
    assert Effective(ex.1.current, i, trend(i)) == trend(i);
    assert i in en.0.instruments;
    var k :| 0 <= k < |en.0.instruments| && en.0.instruments[k] == i;
    EntryKeepsDistinct(flat, bucket, trend, ex.1);
    EnterAllSide(flat, en.0, status, k);
  }

  /** A held instrument whose trend is flat or agrees with it is kept. */
  lemma TrendHoldKeeps(s: AtrState, bucket: seq<Instrument>, trend: Instrument -> Crossover,
                       status: Status, i: Instrument)
    requires Remembered(s.book, s.trends) && i in s.book
    requires !Opposes(trend(i), s.book[i].side)
    ensures var after := AtrTick(s, bucket, trend, status).book;
            i in after && after[i] == s.book[i]
  {
    var ex := ExitPhase(s.book, bucket, trend, s.trends);
    var flat := ExitAll(s.book, ex.0.instruments);
    var en := EntryPhase(flat, bucket, trend, ex.1);
    ExitFiresIffOpposes(s.book, s.trends, i, trend(i));
    assert i in flat;
    assert i !in en.0.instruments;
    EnterAllUntouched(flat, en.0, status, i);
  }

  // ----- volatility_trend_atr_v2.py: one trend pair for all instruments -----

  /** Entry selection of the v2 file: the shared `current_trend` is
      recomputed only while it is 0, so once any instrument fixes it,
      every later instrument of the call is entered on that same side. */
  function EntryPhaseV2(book: Book, bucket: seq<Instrument>, trend: Instrument -> Crossover,
                        current: Crossover, previous: Crossover)
    : (r: (Selection<Instrument, Side>, Crossover, Crossover))
    ensures r.0.Aligned()
    ensures current != 0 ==> r.1 == current && forall k :: 0 <= k < |r.0.instruments| ==> SideCode(r.0.meta[k]) == current
    ensures forall k :: 0 <= k < |r.0.instruments| ==> r.0.instruments[k] in bucket && r.0.instruments[k] !in book
    ensures forall k :: 0 <= k < |r.0.instruments| ==> SideCode(r.0.meta[k]) == r.1
    ensures |r.0.instruments| > 0 ==> r.2 == r.1
    ensures r.2 == previous || r.2 == r.1
    decreases |bucket|
  {
    if |bucket| == 0 then (Empty(), current, previous)
    else
      var i := bucket[0];
      if i in book then EntryPhaseV2(book, bucket[1..], trend, current, previous)
      else
        var c := if current == 0 then trend(i) else current;
        if c != 0 then
          var rest := EntryPhaseV2(book, bucket[1..], trend, c, c);
          (Cons(i, DirectSide(c).value, rest.0), rest.1, rest.2)
        else EntryPhaseV2(book, bucket[1..], trend, c, previous)
  }

  /** All entries one v2 entry call selects are on one side. */
  lemma EntryV2OneSide(book: Book, bucket: seq<Instrument>, trend: Instrument -> Crossover,
                       current: Crossover, previous: Crossover, a: nat, b: nat)
    requires var sel := EntryPhaseV2(book, bucket, trend, current, previous).0;
             a < |sel.instruments| && b < |sel.instruments|
    ensures var sel := EntryPhaseV2(book, bucket, trend, current, previous).0;
            sel.meta[a] == sel.meta[b]
  {
    var sel := EntryPhaseV2(book, bucket, trend, current, previous).0;
    assert SideCode(sel.meta[a]) == SideCode(sel.meta[b]);
  }

  /** Exit selection of the v2 file: `current_trend` is overwritten with
      each instrument's trend in turn, held or not. */
  function ExitPhaseV2(book: Book, bucket: seq<Instrument>, trend: Instrument -> Crossover,
                       current: Crossover, previous: Crossover)
    : (r: (Selection<Instrument, Action>, Crossover))
    ensures r.0.Aligned()
    ensures forall i :: i in r.0.instruments <==> i in bucket && i in book && trend(i) != 0 && trend(i) != previous
    ensures |bucket| > 0 ==> r.1 == trend(bucket[|bucket| - 1])
    ensures |bucket| == 0 ==> r.1 == current
    decreases |bucket|
  {
    if |bucket| == 0 then (Empty(), current)
    else
      var i := bucket[0];
      var rest := ExitPhaseV2(book, bucket[1..], trend, trend(i), previous);
      assert |bucket[1..]| > 0 ==> bucket[1..][|bucket[1..]| - 1] == bucket[|bucket| - 1];
      if i in book && trend(i) != 0 && trend(i) != previous then (Cons(i, Close, rest.0), rest.1) else rest
  }

  /** Across instruments, the v2 entry side on a candle is the trend of
      the last instrument of the bucket whenever that trend is nonzero:
      the other instruments' own ATR does not enter into it. */
  lemma V2EntriesFollowLastInstrument(book: Book, bucket: seq<Instrument>, trend: Instrument -> Crossover,
                                      current: Crossover, previous: Crossover, k: nat)
    requires |bucket| > 0 && trend(bucket[|bucket| - 1]) != 0
    requires var ex := ExitPhaseV2(book, bucket, trend, current, previous);
             k < |EntryPhaseV2(ExitAll(book, ex.0.instruments), bucket, trend, ex.1, previous).0.instruments|
    ensures var ex := ExitPhaseV2(book, bucket, trend, current, previous);
            var sel := EntryPhaseV2(ExitAll(book, ex.0.instruments), bucket, trend, ex.1, previous).0;
            SideCode(sel.meta[k]) == trend(bucket[|bucket| - 1])
  {
  }
}
