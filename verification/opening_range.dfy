/** The two opening-range-breakout strategies. Both take the high of a
    user-chosen "start" candle as the range level and trade the first
    crossover of the candle's OHLC columns with that level, at most once
    per instrument while the day flag stays set:

    - `open_range_breakout_crossover.py` decides only on the start
      candle itself, reads the first column whose crossover is 1 or -1,
      places market orders and exits on the opposing crossover;
    - `strategy_open_range_breakout_cover_order.py` remembers the start
      candle's high per instrument, decides on every later candle by
      asking whether ANY column crosses the level upwards (then,
      failing that, downwards), places cover orders and exits on the
      opposing decision.

    The clock and the candle timestamps are inputs. */
module OpeningRange {
  import opened Common
  import opened Signals
  import opened Ledger
  import opened OrderPrices

  /** A wall-clock time of day, as `datetime.time` holds it. */
  datatype TimeOfDay = TimeOfDay(hour: int, minute: int, second: int)

  predicate Before(a: TimeOfDay, b: TimeOfDay)
  {
    a.hour < b.hour || (a.hour == b.hour && (a.minute < b.minute || (a.minute == b.minute && a.second < b.second)))
  }

  /** The start time built from the two hour and minute parameters; an
      hour outside 0..23 or a minute outside 0..59 is a fatal error. */
  function StartTime(hours: int, minutes: int): (r: Result<TimeOfDay>)
    ensures r.Ok? <==> 0 <= hours <= 23 && 0 <= minutes <= 59
    ensures r.Ok? ==> r.value == TimeOfDay(hours, minutes, 0)
    ensures r.Err? ==> r.fault == SystemExit
  {
    if 0 <= hours <= 23 && 0 <= minutes <= 59 then Ok(TimeOfDay(hours, minutes, 0)) else Err(SystemExit)
  }

  /** The cover strategy's constructor: the start time first, then the
      stop fraction's `assert 0 < x < 1`. */
  function CoverOrbParams(hours: int, minutes: int, stoploss: real): (r: Result<(TimeOfDay, real)>)
    ensures r.Ok? <==> StartTime(hours, minutes).Ok? && Fraction(stoploss)
    ensures r.Ok? ==> r.value == (TimeOfDay(hours, minutes, 0), stoploss)
    ensures !StartTime(hours, minutes).Ok? ==> r == Err(SystemExit)
    ensures StartTime(hours, minutes).Ok? && !Fraction(stoploss) ==> r == Err(InvalidArgument)
  {
    var start := StartTime(hours, minutes);
    if start.Err? then Err(start.fault)
    else
      var sl := CoverParams(stoploss);
      if sl.Err? then Err(sl.fault) else Ok((start.value, sl.value))
  }

  // ---------------------------------------------------------------------
  // open_range_breakout_crossover.py

  /** The column scan of `get_crossover_value`: the crossovers of open,
      high, low and close with the level, in that order, stopping at the
      first one that is 1 or -1. */
  function FirstCross(codes: seq<Crossover>): (r: Crossover)
    ensures r != 0 ==> exists k :: 0 <= k < |codes| && codes[k] == r && forall j :: 0 <= j < k ==> codes[j] == 0
    ensures r == 0 <==> forall k :: 0 <= k < |codes| ==> codes[k] == 0
    decreases |codes|
  {
    if |codes| == 0 then 0
    else if codes[0] != 0 then codes[0]
    else
      var r := FirstCross(codes[1..]);
      assert forall k :: 1 <= k < |codes| ==> codes[k] == codes[1..][k - 1];
      if r != 0 then
        var k :| 0 <= k < |codes[1..]| && codes[1..][k] == r && forall j :: 0 <= j < k ==> codes[1..][j] == 0;
        assert codes[k + 1] == r && forall j :: 0 <= j < k + 1 ==> codes[j] == 0;
        r
      else r
  }

  /** What the strategy sees of one instrument on the current candle: the
      time of its latest candle and the four column crossovers with that
      candle's high. */
  datatype BreakoutView = View(stamp: TimeOfDay, codes: seq<Crossover>)

  /** `get_decision`: `None` unless the latest candle is the start candle;
      on it, an upward breakout is ENTRY_BUY (as an exit decision,
      EXIT_SELL), a downward one ENTRY_SELL (EXIT_BUY), and none is
      NO_ACTION. */
  function OrbDecision(start: TimeOfDay, v: BreakoutView, entry: bool): (r: Option<Action>)
    ensures r.None? <==> v.stamp != start
    ensures r.Some? && entry ==> (r.value == Place(Buy) <==> FirstCross(v.codes) == 1)
                                 && (r.value == Place(Sell) <==> FirstCross(v.codes) == -1)
                                 && (r.value == Idle <==> FirstCross(v.codes) == 0)
    ensures r.Some? && !entry ==> (r.value == CloseSide(Sell) <==> FirstCross(v.codes) == 1)
                                  && (r.value == CloseSide(Buy) <==> FirstCross(v.codes) == -1)
                                  && (r.value == Idle <==> FirstCross(v.codes) == 0)
  {
    if v.stamp != start then None
    else
      var c := FirstCross(v.codes);
      if c == 1 then Some(if entry then Place(Buy) else CloseSide(Sell))
      else if c == -1 then Some(if entry then Place(Sell) else CloseSide(Buy))
      else Some(Idle)
  }

  /** The entry side of one instrument, before the ledger test: the
      clock has reached the start time, no order was placed for the day,
      and the decision is ENTRY_BUY, or ENTRY_SELL in INTRADAY mode. */
  function OrbEntrySide(start: TimeOfDay, now: TimeOfDay, mode: Mode, done: set<Instrument>,
                        i: Instrument, v: BreakoutView): (r: Option<Side>)
    ensures r.Some? <==> !Before(now, start) && i !in done && v.stamp == start && FirstCross(v.codes) != 0
                         && (FirstCross(v.codes) == -1 ==> mode == Intraday)
    ensures r.Some? ==> SideCode(r.value) == FirstCross(v.codes)
  {
    if Before(now, start) || i in done then None
    else
      match OrbDecision(start, v, true)
      case Some(Place(s)) => if s == Buy || mode == Intraday then Some(s) else None
      case _ => None
  }

  /** strategy_select_instruments_for_entry. */
  function OrbSelectEntry(start: TimeOfDay, now: TimeOfDay, mode: Mode, done: set<Instrument>, book: Book,
                          bucket: seq<Instrument>, view: Instrument -> BreakoutView): (r: Selection<Instrument, Side>)
    ensures r.Aligned()
    ensures forall k :: 0 <= k < |r.instruments| ==>
              r.instruments[k] !in done && r.instruments[k] !in book
              && view(r.instruments[k]).stamp == start && SideCode(r.meta[k]) == FirstCross(view(r.instruments[k]).codes)
    ensures forall i :: i in bucket ==>
              (i in r.instruments <==> i !in book && OrbEntrySide(start, now, mode, done, i, view(i)).Some?)
    ensures Before(now, start) ==> |r.instruments| == 0
  {
    var decide := (i: Instrument) => OrbEntrySide(start, now, mode, done, i, view(i));
    if Before(now, start) then
      SelectEntrySilent(book, bucket, WhenFlat, decide);
      SelectEntry(book, bucket, WhenFlat, decide)
    else SelectEntry(book, bucket, WhenFlat, decide)
  }

  /** strategy_enter_position: ENTRY_BUY / ENTRY_SELL place a market order
      on that side and set the day flag; any other meta raises SystemExit. */
  function OrbEnter(book: Book, done: set<Instrument>, i: Instrument, a: Action, status: Status)
    : (r: Result<(Book, set<Instrument>)>)
    ensures r.Err? <==> !a.Place?
    ensures r.Err? ==> r.fault == SystemExit
    ensures r.Ok? ==> i in r.value.0 && r.value.0[i] == Order(a.side, status) && r.value.1 == done + {i}
    ensures r.Ok? ==> forall j :: j != i ==> (j in r.value.0 <==> j in book) && (j in book ==> r.value.0[j] == book[j])
  {
    var entered := Enter(book, i, a, status, true);
    if entered.Err? then Err(entered.fault) else Ok((entered.value, done + {i}))
  }

  /** The exit rule: a held order whose side the start candle's breakout
      goes against (an EXIT_SELL decision for a SELL order, an EXIT_BUY
      decision for a BUY order). */
  predicate OrbFires(start: TimeOfDay, v: BreakoutView, held: Side)
  {
    OrbDecision(start, v, false) == Some(CloseSide(held))
  }

  /** strategy_select_instruments_for_exit: a COMPLETE held order on which
      the exit rule fires, with the decision (which names the held side)
      as meta. */
  function OrbSelectExit(start: TimeOfDay, book: Book, bucket: seq<Instrument>, view: Instrument -> BreakoutView)
    : (r: Selection<Instrument, Action>)
    ensures r.Aligned()
    ensures forall k :: 0 <= k < |r.instruments| ==>
              var i := r.instruments[k];
              i in book && book[i].status == Complete && view(i).stamp == start
              && Opposes(FirstCross(view(i).codes), book[i].side) && r.meta[k] == CloseSide(book[i].side)
    ensures forall i :: i in bucket ==>
              (i in r.instruments <==> i in book && book[i].status == Complete && OrbFires(start, view(i), book[i].side))
  {
    SelectExit(book, bucket, true, (i, s) => OrbFires(start, view(i), s), true)
  }

  /** strategy_exit_position: EXIT_BUY and EXIT_SELL exit and clear the
      main order; anything else is refused. */
  function OrbExit(book: Book, i: Instrument, a: Action): (r: Result<(Book, bool)>)
    ensures !a.CloseSide? ==> r == Ok((book, false))
    ensures a.CloseSide? && i in book ==> r.Ok? && r.value.1 && i !in r.value.0
    ensures a.CloseSide? && i !in book ==> r.Err?
  {
    ExitPosition(book, i, a, (x: Action) => x.CloseSide?)
  }

  /** The exit rule fires exactly when the entry decision on the same
      candle would open the other side. */
  lemma OrbExitIsOppositeEntry(start: TimeOfDay, v: BreakoutView, held: Side)
    ensures OrbFires(start, v, held) <==> OrbDecision(start, v, true) == Some(Place(Opposite(held)))
  {
  }

  /** Once an order is entered its day flag is set, and no later scan
      selects the instrument again, whatever the ledger holds. */
  lemma OrbOncePerDay(start: TimeOfDay, now: TimeOfDay, mode: Mode, book: Book, done: set<Instrument>,
                      i: Instrument, a: Action, status: Status, later: Book, bucket: seq<Instrument>,
                      view: Instrument -> BreakoutView)
    requires OrbEnter(book, done, i, a, status).Ok?
    ensures var flags := OrbEnter(book, done, i, a, status).value.1;
            i !in OrbSelectEntry(start, now, mode, flags, later, bucket, view).instruments
  {
  }

  /** Decisions exist only on the start candle, so the strategy's own exit
      can fire only on it: after entering on the start candle, the order
      is left to the host's square-off unless a start candle comes again. */
  lemma OrbExitsOnlyAtStart(start: TimeOfDay, book: Book, bucket: seq<Instrument>, view: Instrument -> BreakoutView)
    requires forall i :: i in bucket ==> view(i).stamp != start
    ensures OrbSelectExit(start, book, bucket, view) == Empty()
  {
    SelectExitSilent(book, bucket, true, (i, s) => OrbFires(start, view(i), s), true);
  }

  // ---------------------------------------------------------------------
  // strategy_open_range_breakout_cover_order.py

  /** `ohlc_crossovers_with_value`: does ANY of the four columns cross the
      level in the expected direction. */
  predicate AnyColumn(codes: seq<Crossover>, expected: Crossover)
  {
    exists k :: 0 <= k < |codes| && codes[k] == expected
  }

  /** What the cover strategy sees of one instrument: the time and high of
      its latest candle, and the column crossovers with a given level. */
  datatype CoverCandle = CoverView(stamp: TimeOfDay, high: real, cross: real -> seq<Crossover>)

  /** The level `get_decision` compares against: the latest candle's high
      when it is the start candle (which it also records), else the
      recorded high, if any. */
  function Level(start: TimeOfDay, levels: map<Instrument, real>, i: Instrument, v: CoverCandle): (r: Option<real>)
    ensures v.stamp == start ==> r == Some(v.high)
    ensures v.stamp != start ==> (r.Some? <==> i in levels) && (r.Some? ==> r.value == levels[i])
  {
    if v.stamp == start then Some(v.high) else if i in levels then Some(levels[i]) else None
  }

  /** `get_decision` of the cover strategy: ENTRY_BUY_OR_EXIT_SELL (`Buy`)
      when a column crosses the level upwards, else
      ENTRY_SELL_OR_EXIT_BUY (`Sell`) when one crosses it downwards, else
      NO_ACTION (`None`); NO_ACTION too before any level is known. */
  function CoverDecision(start: TimeOfDay, levels: map<Instrument, real>, i: Instrument, v: CoverCandle)
    : (r: Option<Side>)
    ensures Level(start, levels, i, v).None? ==> r.None?
    ensures Level(start, levels, i, v).Some? ==>
              var codes := v.cross(Level(start, levels, i, v).value);
              (r == Some(Buy) <==> AnyColumn(codes, 1))
              && (r == Some(Sell) <==> !AnyColumn(codes, 1) && AnyColumn(codes, -1))
  {
    match Level(start, levels, i, v)
    case None => None
    case Some(level) =>
      if AnyColumn(v.cross(level), 1) then Some(Buy)
      else if AnyColumn(v.cross(level), -1) then Some(Sell)
      else None
  }

  /** The recorded start-candle highs after a scan in which the
      instruments satisfying `observed` ran `get_decision`. */
  function Record(start: TimeOfDay, levels: map<Instrument, real>, bucket: seq<Instrument>,
                  observed: Instrument -> bool, view: Instrument -> CoverCandle): (r: map<Instrument, real>)
    ensures forall i :: i in r <==> i in levels || (i in bucket && observed(i) && view(i).stamp == start)
    ensures forall i :: i in bucket && observed(i) && view(i).stamp == start ==> r[i] == view(i).high
    ensures forall i :: i in levels && !(i in bucket && observed(i) && view(i).stamp == start) ==> r[i] == levels[i]
  {
    map i | i in levels.Keys + (set j | j in bucket && observed(j) && view(j).stamp == start) ::
      if i in bucket && observed(i) && view(i).stamp == start then view(i).high else levels[i]
  }

  /** Recording never changes the decision: an instrument's own record is
      the only entry its decision reads, and it records exactly the high
      it then compares against. So every decision of a scan equals the
      decision against the levels the scan started from. */
  lemma RecordKeepsDecisions(start: TimeOfDay, levels: map<Instrument, real>, bucket: seq<Instrument>,
                             observed: Instrument -> bool, view: Instrument -> CoverCandle, i: Instrument)
    ensures CoverDecision(start, Record(start, levels, bucket, observed, view), i, view(i))
            == CoverDecision(start, levels, i, view(i))
  {
    var after := Record(start, levels, bucket, observed, view);
    assert Level(start, after, i, view(i)) == Level(start, levels, i, view(i));
  }

  /** The entry side of one instrument: the day flag is clear and the
      decision is BUY, or SELL in INTRADAY mode. */
  function CoverEntrySide(start: TimeOfDay, mode: Mode, levels: map<Instrument, real>, done: set<Instrument>,
                          i: Instrument, v: CoverCandle): (r: Option<Side>)
    ensures r.Some? <==> i !in done && CoverDecision(start, levels, i, v).Some?
                         && (CoverDecision(start, levels, i, v) == Some(Sell) ==> mode == Intraday)
    ensures r.Some? ==> r == CoverDecision(start, levels, i, v)
  {
    if i in done then None
    else SellOnlyIntraday(CoverDecision(start, levels, i, v), mode)
  }

  /** strategy_select_instruments_for_entry of the cover strategy: nothing
      before the start time; otherwise every instrument without the day
      flag runs `get_decision` (recording the start high), and the flat
      ones with a side are selected. */
  function CoverSelectEntry(start: TimeOfDay, now: TimeOfDay, mode: Mode, levels: map<Instrument, real>,
                            done: set<Instrument>, book: Book, bucket: seq<Instrument>,
                            view: Instrument -> CoverCandle)
    : (r: (Selection<Instrument, Side>, map<Instrument, real>))
    ensures r.0.Aligned()
    ensures Before(now, start) ==> r == (Empty(), levels)
    ensures !Before(now, start) ==>
              r.1 == Record(start, levels, bucket, i => i !in done, view)
              && forall i :: i in bucket ==>
                   (i in r.0.instruments <==> i !in book && CoverEntrySide(start, mode, levels, done, i, view(i)).Some?)
    ensures forall k :: 0 <= k < |r.0.instruments| ==>
              r.0.instruments[k] !in done && r.0.instruments[k] !in book
              && CoverDecision(start, levels, r.0.instruments[k], view(r.0.instruments[k])) == Some(r.0.meta[k])
  {
    if Before(now, start) then (Empty(), levels)
    else
      (SelectEntry(book, bucket, WhenFlat, i => CoverEntrySide(start, mode, levels, done, i, view(i))),
       Record(start, levels, bucket, i => i !in done, view))
  }

  /** strategy_enter_position of the cover strategy: 'BUY' / 'SELL' place
      a cover order at the LTP with its stop trigger and set the day flag;
      any other meta raises SystemExit. */
  function CoverEnter(book: Book, done: set<Instrument>, i: Instrument, a: Action, ltp: real, stoploss: real,
                      status: Status): (r: Result<(Book, set<Instrument>, PricedOrder)>)
    ensures r.Err? <==> !a.Place?
    ensures r.Err? ==> r.fault == SystemExit
    ensures r.Ok? ==> i in r.value.0 && r.value.0[i] == Order(a.side, status) && r.value.1 == done + {i}
    ensures r.Ok? ==> r.value.2 == CoverOrder(a.side, ltp, CoverTrigger(a.side, ltp, stoploss))
    ensures r.Ok? ==> forall j :: j != i ==> (j in r.value.0 <==> j in book) && (j in book ==> r.value.0[j] == book[j])
  {
    var order := PricedEntry(a, ltp, None, stoploss);
    if order.Err? then Err(order.fault)
    else Ok((book[i := Order(a.side, status)], done + {i}, order.value))
  }

  /** The cover strategy's exit rule: the decision names the other side. */
  predicate CoverFires(start: TimeOfDay, levels: map<Instrument, real>, i: Instrument, v: CoverCandle, held: Side)
  {
    CoverDecision(start, levels, i, v) == Some(Opposite(held))
  }

  /** strategy_select_instruments_for_exit of the cover strategy: every
      held order runs `get_decision` (recording the start high) and is
      selected, with meta 'EXIT', when the decision opposes it. It does
      not wait for the order to be COMPLETE. */
  function CoverSelectExit(start: TimeOfDay, levels: map<Instrument, real>, book: Book, bucket: seq<Instrument>,
                           view: Instrument -> CoverCandle)
    : (r: (Selection<Instrument, Action>, map<Instrument, real>))
    ensures r.0.Aligned()
    ensures r.1 == Record(start, levels, bucket, i => i in book, view)
    ensures forall k :: 0 <= k < |r.0.instruments| ==>
              var i := r.0.instruments[k];
              i in book && CoverDecision(start, levels, i, view(i)) == Some(Opposite(book[i].side)) && r.0.meta[k] == Close
    ensures forall i :: i in bucket ==>
              (i in r.0.instruments <==> i in book && CoverFires(start, levels, i, view(i), book[i].side))
  {
    (SelectExit(book, bucket, false, (i, s) => CoverFires(start, levels, i, view(i), s), false),
     Record(start, levels, bucket, i => i in book, view))
  }

  /** strategy_exit_position of the cover strategy: 'EXIT' clears the main
      order; anything else is refused. */
  function CoverExit(book: Book, i: Instrument, a: Action): (r: Result<(Book, bool)>)
    ensures a != Close ==> r == Ok((book, false))
    ensures a == Close && i in book ==> r.Ok? && r.value.1 && i !in r.value.0
    ensures a == Close && i !in book ==> r.Err?
  {
    ExitPosition(book, i, a, (x: Action) => x == Close)
  }

  /** The two strategies read the same four crossovers differently: the
      crossover strategy takes the FIRST nonzero column, the cover
      strategy prefers an upward crossing in ANY column. With the open
      crossing down and the high crossing up, one sells and the other
      buys. */
  lemma ScansDisagree()
    ensures FirstCross([-1, 1, 0, 0]) == -1
    ensures AnyColumn([-1, 1, 0, 0], 1)
  {
    var codes: seq<Crossover> := [-1, 1, 0, 0];
    assert codes[1] == 1;
  }

  /** When only one direction appears among the columns, both readings
      agree on the side. */
  lemma ScansAgreeOnOneDirection(codes: seq<Crossover>, s: Side)
    requires forall k :: 0 <= k < |codes| ==> codes[k] == 0 || codes[k] == SideCode(s)
    requires exists k :: 0 <= k < |codes| && codes[k] != 0
    ensures FirstCross(codes) == SideCode(s)
    ensures AnyColumn(codes, SideCode(s)) && !AnyColumn(codes, -SideCode(s))
  {
  }
}
