/** The Bollinger-band strategies: the band decision on the previous
    candle, and the ledger behaviour of each file that uses it
    (`bollinger_bands.py`, `bollinger_bands_v2.py`, the bracket- and
    cover-order variants, the delivery and intraday packages, and the
    three mean-reversion variants). The bands themselves (talib BBANDS)
    are inputs. */
module Bands {
  import opened Common
  import opened Ledger

  /** What the decision reads for one instrument: the previous candle,
      the latest close, and the latest upper and lower band values. */
  datatype BandView = BandView(previous: Candle, latestClose: real, upper: real, lower: real)

  predicate Rose(v: BandView) { v.latestClose > v.previous.close }
  predicate Fell(v: BandView) { v.latestClose < v.previous.close }

  /** Some price of the previous candle is at or below the lower band. */
  predicate TouchedLower(v: BandView)
  {
    v.previous.open <= v.lower || v.previous.high <= v.lower
    || v.previous.low <= v.lower || v.previous.close <= v.lower
  }

  /** Some price of the previous candle is at or above the upper band. */
  predicate TouchedUpper(v: BandView)
  {
    v.previous.open >= v.upper || v.previous.high >= v.upper
    || v.previous.low >= v.upper || v.previous.close >= v.upper
  }

  /** The four-price rule: BUY after a lower-band touch and a rising close,
      else SELL after an upper-band touch and a falling close. */
  function FullSide(v: BandView): (r: Option<Side>)
    ensures r == Some(Buy) ==> Rose(v)
    ensures r == Some(Sell) ==> Fell(v)
    ensures WellFormed(v.previous) ==>
              (r == Some(Buy) <==> v.previous.low <= v.lower && Rose(v))
    ensures WellFormed(v.previous) ==>
              (r == Some(Sell) <==> v.previous.high >= v.upper && Fell(v))
  {
    if TouchedLower(v) && Rose(v) then Some(Buy)
    else if TouchedUpper(v) && Fell(v) then Some(Sell)
    else None
  }

  /** The mean-reversion rule: BUY when the previous open or low reached
      the lower band and the close rose; SELL when the previous open or
      close reached the upper band and the close fell. */
  function ReversionSide(v: BandView): (r: Option<Side>)
    ensures r == Some(Buy) ==> Rose(v) && TouchedLower(v)
    ensures r == Some(Sell) ==> Fell(v) && TouchedUpper(v)
  {
    if (v.previous.open <= v.lower || v.previous.low <= v.lower) && Rose(v) then Some(Buy)
    else if (v.previous.open >= v.upper || v.previous.close >= v.upper) && Fell(v) then Some(Sell)
    else None
  }

  /** The mean-reversion rule only ever signals what the four-price rule
      signals, and it is strictly more selective. */
  lemma ReversionRefinesFull(v: BandView)
    ensures ReversionSide(v).Some? ==> FullSide(v) == ReversionSide(v)
    ensures var w := BandView(Candle(10.0, 12.0, 9.0, 11.0), 10.0, 11.5, 5.0);
            FullSide(w) == Some(Sell) && ReversionSide(w) == None
  {
  }

  /** For a real candle the mean-reversion BUY is the low touching the lower band. */
  lemma ReversionBuyIsLowTouch(v: BandView)
    requires WellFormed(v.previous)
    ensures ReversionSide(v) == Some(Buy) <==> v.previous.low <= v.lower && Rose(v)
  {
  }

  /** When a held order is selected for exit. */
  datatype BandExit =
    | OppositeSignal   // the decision names the side opposite to the held one
    | AnySignal        // any decision at all
    | Disabled         // never

  datatype BandRule = Full | Reversion

  datatype BandStrategy = BandStrategy(
    rule: BandRule,
    gate: Gate,
    sellOnlyIntraday: bool,
    exit: BandExit,
    needComplete: bool,
    sideTaggedMeta: bool)

  function Decide(s: BandStrategy, v: BandView): Option<Side>
  {
    if s.rule == Full then FullSide(v) else ReversionSide(v)
  }

  function EntrySide(s: BandStrategy, mode: Mode, v: BandView): (r: Option<Side>)
    ensures r.Some? ==> Decide(s, v) == r
    ensures r.Some? && r.value == Sell && s.sellOnlyIntraday ==> mode == Intraday
    ensures Decide(s, v).Some? && r == None ==> s.sellOnlyIntraday && mode != Intraday && Decide(s, v) == Some(Sell)
  {
    var d := Decide(s, v);
    if s.sellOnlyIntraday && d == Some(Sell) && mode != Intraday then None else d
  }

  predicate Fires(s: BandStrategy, v: BandView, held: Side)
  {
    match s.exit
    case OppositeSignal => Decide(s, v) == Some(Opposite(held))
    case AnySignal => Decide(s, v).Some?
    case Disabled => false
  }

  /** One candle of a band strategy: exits first, then entries. */
  function BandTick(s: BandStrategy, mode: Mode, book: Book, bucket: seq<Instrument>,
                    view: Instrument -> BandView, status: Status): Book
  {
    Tick(book, bucket, s.gate, i => EntrySide(s, mode, view(i)), s.needComplete,
         (i, h) => Fires(s, view(i), h), status)
  }

  /** Under the `is None` gate, one candle of a band strategy leaves each
      instrument either with its old order (exit did not fire) or with a
      fresh order on the signalled side, or flat. */
  lemma BandTickOutcome(s: BandStrategy, mode: Mode, book: Book, bucket: seq<Instrument>,
                        view: Instrument -> BandView, status: Status, i: Instrument)
    requires s.gate == WhenFlat && Distinct(bucket) && i in bucket
    ensures var after := BandTick(s, mode, book, bucket, view, status);
            var d := EntrySide(s, mode, view(i));
            var fired := i in book && (s.needComplete ==> book[i].status == Complete)
                         && Fires(s, view(i), book[i].side);
            (i in book && !fired ==> i in after && after[i] == book[i])
            && ((i !in book || fired) && d.Some? ==> i in after && after[i] == Order(d.value, status))
            && ((i !in book || fired) && d == None ==> i !in after)
  {
    TickFlat(book, bucket, i => EntrySide(s, mode, view(i)), s.needComplete,
             (j, h) => Fires(s, view(j), h), status, i);
  }

  /** A position is only ever turned over in the signalled direction:
      under OppositeSignal, a held order either stays or is replaced by
      one on the other side (or closed when that side is not allowed). */
  lemma OppositeSignalReverses(s: BandStrategy, mode: Mode, book: Book, bucket: seq<Instrument>,
                               view: Instrument -> BandView, status: Status, i: Instrument)
    requires s.gate == WhenFlat && s.exit == OppositeSignal && Distinct(bucket) && i in bucket && i in book
    ensures var after := BandTick(s, mode, book, bucket, view, status);
            i in after ==> after[i] == book[i] || after[i] == Order(Opposite(book[i].side), status)
  {
    BandTickOutcome(s, mode, book, bucket, view, status, i);
  }

  // ----- The files -----

  /** `bollinger_bands.py`. */
  const BollingerBands := BandStrategy(Full, WhenFlat, true, OppositeSignal, true, true)

  /** `bollinger_bands_v2.py`. */
  const BollingerV2 := BandStrategy(Reversion, WhenFlat, false, AnySignal, true, false)

  /** `strategy_bollinger_bands_cover_order.py`. */
  const BollingerCover := BandStrategy(Full, WhenFlat, true, OppositeSignal, false, false)

  /** `strategy_bollinger_bands_delivery`, `strategy_bollinger_bands_intraday`. */
  const BollingerPackage := BandStrategy(Full, WhenFlat, false, OppositeSignal, true, false)

  /** `strategy_bollinger_bands_bracket_order.py` as written: the entry
      test is `is not None`. */
  const BracketAsWritten := BandStrategy(Full, WhenHeld, true, OppositeSignal, false, false)

  /** `strategy_bollinger_bands_bracket_order.py` with the `is None` test
      of its sibling cover-order strategy. */
  const Bracket := BandStrategy(Full, WhenFlat, true, OppositeSignal, false, false)

  /** `strategy_mean_reversion_bollinger_bands_delivery` as written: the
      exit decision is overwritten with None before it is tested. */
  const ReversionDeliveryAsWritten := BandStrategy(Reversion, WhenFlat, false, Disabled, false, false)

  /** The delivery variant with the exit of its intraday sibling. */
  const ReversionDelivery := BandStrategy(Reversion, WhenFlat, false, AnySignal, false, false)

  /** `strategy_mean_reversion_bollinger_bands_intraday`, `mean_reversion_bollinger_bands_v2.py`. */
  const ReversionIntraday := BandStrategy(Reversion, WhenFlat, false, AnySignal, false, false)

  /** The as-written bracket strategy starts with an empty ledger and never
      enters: the ledger stays empty on every candle. */
  lemma BracketAsWrittenNeverEnters(mode: Mode, bucket: seq<Instrument>, view: Instrument -> BandView, status: Status)
    ensures BandTick(BracketAsWritten, mode, map[], bucket, view, status) == map[]
  {
    var book: Book := map[];
    var exits := SelectExit(book, bucket, false, (i, h) => Fires(BracketAsWritten, view(i), h), false);
    var afterExit := ExitAll(book, exits.instruments);
    assert afterExit == map[];
    SelectEntrySilent(afterExit, bucket, WhenHeld, i => EntrySide(BracketAsWritten, mode, view(i)));
  }

  /** The corrected bracket strategy enters a flat instrument on its signal. */
  lemma BracketEnters(mode: Mode, bucket: seq<Instrument>, view: Instrument -> BandView, status: Status, i: Instrument)
    requires Distinct(bucket) && i in bucket && EntrySide(Bracket, mode, view(i)).Some?
    ensures var after := BandTick(Bracket, mode, map[], bucket, view, status);
            i in after && after[i] == Order(EntrySide(Bracket, mode, view(i)).value, status)
  {
    BandTickOutcome(Bracket, mode, map[], bucket, view, status, i);
  }

  /** The as-written mean-reversion delivery strategy holds every order
      forever: no candle changes an entry once made. */
  lemma ReversionDeliveryAsWrittenHolds(mode: Mode, book: Book, bucket: seq<Instrument>,
                                        view: Instrument -> BandView, status: Status, i: Instrument)
    requires i in book
    ensures var after := BandTick(ReversionDeliveryAsWritten, mode, book, bucket, view, status);
            i in after && after[i] == book[i]
  {
    TickKeepsUnfired(book, bucket, j => EntrySide(ReversionDeliveryAsWritten, mode, view(j)), false,
                     (j, h) => Fires(ReversionDeliveryAsWritten, view(j), h), status, i);
  }

  /** With the exit restored, a held order is closed on every signal and
      the position is re-opened on the signalled side in the same candle. */
  lemma ReversionDeliveryTurnsOver(mode: Mode, book: Book, bucket: seq<Instrument>,
                                   view: Instrument -> BandView, status: Status, i: Instrument)
    requires Distinct(bucket) && i in bucket && i in book
    requires ReversionSide(view(i)).Some?
    ensures var after := BandTick(ReversionDelivery, mode, book, bucket, view, status);
            i in after && after[i] == Order(ReversionSide(view(i)).value, status)
  {
    BandTickOutcome(ReversionDelivery, mode, book, bucket, view, status, i);
  }

  /** strategy_enter_position of `bollinger_bands.py` as written: it places
      a BUY for EXIT_BUY and a SELL for EXIT_SELL and raises otherwise. */
  function EnterAsWritten(book: Book, i: Instrument, a: Action, status: Status): (r: Result<Book>)
    ensures r.Ok? <==> a.CloseSide?
    ensures r.Ok? ==> r.value == book[i := Order(a.side, status)]
  {
    if a.CloseSide? then Ok(book[i := Order(a.side, status)]) else Err(SystemExit)
  }

  /** Every entry `bollinger_bands.py` selects carries ENTRY_BUY or
      ENTRY_SELL, so every call of the as-written enter raises. */
  lemma BollingerEntriesRaise(mode: Mode, book: Book, bucket: seq<Instrument>,
                              view: Instrument -> BandView, status: Status, k: nat)
    requires k < |SelectEntry(book, bucket, WhenFlat, i => EntrySide(BollingerBands, mode, view(i))).instruments|
    ensures var sel := SelectEntry(book, bucket, WhenFlat, i => EntrySide(BollingerBands, mode, view(i)));
            EnterAsWritten(book, sel.instruments[k], Place(sel.meta[k]), status) == Err(SystemExit)
  {
  }

  /** The corrected enter (ENTRY_BUY places a BUY, ENTRY_SELL a SELL)
      records every selected entry on its side. */
  lemma BollingerEntriesRecorded(mode: Mode, book: Book, bucket: seq<Instrument>,
                                 view: Instrument -> BandView, status: Status, k: nat)
    requires k < |SelectEntry(book, bucket, WhenFlat, i => EntrySide(BollingerBands, mode, view(i))).instruments|
    ensures var sel := SelectEntry(book, bucket, WhenFlat, i => EntrySide(BollingerBands, mode, view(i)));
            var r := Enter(book, sel.instruments[k], Place(sel.meta[k]), status, true);
            r.Ok? && r.value[sel.instruments[k]] == Order(sel.meta[k], status)
  {
  }
}
