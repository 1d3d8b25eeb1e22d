/** The single-instrument crossover strategies (EMA, inverse EMA scalping,
    MACD, VWAP, Aroon, OBV, stochastic, RSI-MACD, reverse RSI, SMA
    Heikin-Ashi, and their delivery / intraday / v2 / order-type variants).

    Every one of them is the same four callbacks over the ledger of
    `Ledger`, differing only in a handful of choices, which `Family`
    records: the ledger test in front of the entry decision, how crossover
    codes become a side, whether SELL entries need INTRADAY mode, the exit
    rule, whether the exit waits for a COMPLETE order, and which exit meta
    is written and accepted. */
module CrossoverStrategies {
  import opened Common
  import opened Signals
  import opened Ledger

  /** The crossover codes one instrument shows on the current candle.
      `primary` is the strategy's main crossover (for the RSI families,
      the RSI against the oversold line); `secondary` is the RSI against
      the overbought line and is ignored by the other families. */
  datatype Reading = Reading(primary: Crossover, secondary: Crossover)

  /** How codes become an entry side. */
  datatype EntryMap =
    | DirectMap      // {1: BUY, -1: SELL}
    | InverseMap     // {-1: BUY, 1: SELL}
    | ThresholdMap   // oversold == 1: BUY, elif overbought == -1: SELL
    | NeverEnter     // the decision is always NO_ACTION

  /** When a held order is selected for exit. */
  datatype ExitRule =
    | AnyCrossExit     // the main crossover is 1 or -1
    | OpposingExit     // the main crossover points against the held side
    | DecisionOpposes  // the entry decision names the other side
    | RsiMacdRule
    | ReverseRsiRule
    | EitherLineRule

  datatype Family = Family(
    gate: Gate,
    entry: EntryMap,
    sellOnlyIntraday: bool,
    exit: ExitRule,
    needComplete: bool,
    sideTaggedMeta: bool,     // the exit meta is EXIT_BUY / EXIT_SELL instead of 'EXIT'
    acceptsSideTagged: bool,  // exit_position acts on EXIT_BUY / EXIT_SELL instead of 'EXIT'
    checkedEnter: bool)       // enter raises SystemExit on any other meta

  /** The side an entry map reads off the crossover codes: the direct and
      inverse maps act exactly on a nonzero main crossover, the direct map
      with the side whose code it is and the inverse map with the other
      side; the threshold map buys on an upward oversold cross and
      otherwise sells on a downward overbought cross. */
  function Decision(m: EntryMap, r: Reading): (d: Option<Side>)
    ensures (m == DirectMap || m == InverseMap) ==> (d.Some? <==> r.primary != 0)
    ensures m == DirectMap && d.Some? ==> SideCode(d.value) == r.primary
    ensures m == InverseMap && d.Some? ==> SideCode(d.value) == -r.primary
    ensures m == ThresholdMap ==> (d == Some(Buy) <==> r.primary == 1)
                                  && (d == Some(Sell) <==> r.primary != 1 && r.secondary == -1)
    ensures m == NeverEnter ==> d == None
  {
    match m
    case DirectMap => DirectSide(r.primary)
    case InverseMap => InverseSide(r.primary)
    case ThresholdMap => ThresholdSide(r.primary, r.secondary)
    case NeverEnter => None
  }

  /** The inverse map opens the other side on every reading the direct
      map acts on, and nothing where it does not. */
  lemma InverseDecisionIsFlipped(r: Reading)
    ensures Decision(InverseMap, r).Some? <==> Decision(DirectMap, r).Some?
    ensures Decision(DirectMap, r).Some? ==>
              Decision(InverseMap, r).value == Opposite(Decision(DirectMap, r).value)
  {
  }

  /** The side the entry selector emits for one instrument, before the ledger gate. */
  function EntrySide(f: Family, mode: Mode, r: Reading): (d: Option<Side>)
    ensures d.Some? ==> Decision(f.entry, r) == d
    ensures d == None && Decision(f.entry, r).Some? ==>
              f.sellOnlyIntraday && mode != Intraday && Decision(f.entry, r) == Some(Sell)
  {
    if f.sellOnlyIntraday then SellOnlyIntraday(Decision(f.entry, r), mode) else Decision(f.entry, r)
  }

  predicate Fires(f: Family, r: Reading, held: Side)
  {
    match f.exit
    case AnyCrossExit => AnyCross(r.primary)
    case OpposingExit => Opposes(r.primary, held)
    case DecisionOpposes => Decision(f.entry, r) == Some(Opposite(held))
    case RsiMacdRule => RsiMacdExit(r.primary, r.secondary, held)
    case ReverseRsiRule => ReverseRsiExit(r.primary, r.secondary, held)
    case EitherLineRule => EitherLineExit(r.primary, r.secondary, held)
  }

  predicate Accepts(f: Family, a: Action)
  {
    if f.acceptsSideTagged then a.CloseSide? else a == Close
  }

  /** strategy_select_instruments_for_entry of a family. */
  function SelectForEntry(f: Family, mode: Mode, book: Book, bucket: seq<Instrument>,
                          read: Instrument -> Reading): (r: Selection<Instrument, Side>)
    ensures r.Aligned()
    ensures forall k :: 0 <= k < |r.instruments| ==>
              GateOpen(f.gate, book, r.instruments[k])
              && Decision(f.entry, read(r.instruments[k])) == Some(r.meta[k])
              && (r.meta[k] == Sell && f.sellOnlyIntraday ==> mode == Intraday)
    ensures forall i :: i in bucket ==>
              (i in r.instruments <==> GateOpen(f.gate, book, i) && EntrySide(f, mode, read(i)).Some?)
  {
    SelectEntry(book, bucket, f.gate, i => EntrySide(f, mode, read(i)))
  }

  /** strategy_select_instruments_for_exit of a family. */
  function SelectForExit(f: Family, book: Book, bucket: seq<Instrument>,
                         read: Instrument -> Reading): (r: Selection<Instrument, Action>)
    ensures r.Aligned()
    ensures forall k :: 0 <= k < |r.instruments| ==>
              var i := r.instruments[k];
              i in book && (f.needComplete ==> book[i].status == Complete)
              && Fires(f, read(i), book[i].side)
              && r.meta[k] == (if f.sideTaggedMeta then CloseSide(book[i].side) else Close)
    ensures forall i :: i in bucket ==>
              (i in r.instruments <==>
                 i in book && (f.needComplete ==> book[i].status == Complete) && Fires(f, read(i), book[i].side))
  {
    SelectExit(book, bucket, f.needComplete, (i, s) => Fires(f, read(i), s), f.sideTaggedMeta)
  }

  /** A family is coherent when the exit meta it writes is one its own
      exit_position acts on. */
  predicate Coherent(f: Family)
  {
    f.sideTaggedMeta == f.acceptsSideTagged
  }

  /** In a coherent family every selected exit clears its ledger entry;
      the exit selection and exit_position agree. */
  lemma SelectedExitsClear(f: Family, book: Book, bucket: seq<Instrument>, read: Instrument -> Reading, k: nat)
    requires Coherent(f)
    requires k < |SelectForExit(f, book, bucket, read).instruments|
    ensures var sel := SelectForExit(f, book, bucket, read);
            var r := ExitPosition(book, sel.instruments[k], sel.meta[k], a => Accepts(f, a));
            r.Ok? && r.value.1 && sel.instruments[k] !in r.value.0
  {
  }

  /** In an incoherent family no selected exit is ever carried out: the
      ledger keeps the order and exit_position answers False. */
  lemma IncoherentExitsIgnored(f: Family, book: Book, bucket: seq<Instrument>, read: Instrument -> Reading, k: nat)
    requires !Coherent(f)
    requires k < |SelectForExit(f, book, bucket, read).instruments|
    ensures var sel := SelectForExit(f, book, bucket, read);
            ExitPosition(book, sel.instruments[k], sel.meta[k], a => Accepts(f, a)) == Ok((book, false))
  {
  }

  /** The exit rule fires on every signal that would open a position. */
  ghost predicate ExitsOnEverySignal(f: Family)
  {
    forall mode, r, held :: EntrySide(f, mode, r).Some? ==> Fires(f, r, held)
  }

  /** Families that exit on any crossover and enter only on a crossover
      exit on every entry signal. */
  lemma AnyCrossExitsOnEverySignal(f: Family)
    requires f.exit == AnyCrossExit && f.entry in {DirectMap, InverseMap}
    ensures ExitsOnEverySignal(f)
  {
    forall mode, r, held | EntrySide(f, mode, r).Some? ensures Fires(f, r, held) {
      assert Decision(f.entry, r).Some?;
    }
  }

  /** Stop-and-reverse: a family that exits on every entry signal without
      waiting for COMPLETE ends each candle with a fresh order on the
      signalled side for every signalled instrument, and its entries never
      replace an order still held, even when the entry selector does not
      look at the ledger at all. */
  lemma StopAndReverse(f: Family, mode: Mode, book: Book, bucket: seq<Instrument>,
                       read: Instrument -> Reading, status: Status, i: Instrument)
    requires ExitsOnEverySignal(f) && !f.needComplete && f.gate != WhenHeld
    requires Distinct(bucket) && i in bucket
    ensures var decide := (j: Instrument) => EntrySide(f, mode, read(j));
            var after := Tick(book, bucket, f.gate, decide, false, (j, s) => Fires(f, read(j), s), status);
            EntrySide(f, mode, read(i)).Some? ==>
              i in after && after[i] == Order(EntrySide(f, mode, read(i)).value, status)
  {
    var decide := (j: Instrument) => EntrySide(f, mode, read(j));
    var fires := (j: Instrument, s: Side) => Fires(f, read(j), s);
    forall j, s | j in bucket && decide(j).Some? ensures fires(j, s) {
      assert EntrySide(f, mode, read(j)).Some?;
    }
    TickReverses(book, bucket, f.gate, decide, fires, status, i);
  }

  /** With the `is None` gate, an order the exit rule leaves alone is kept
      through the candle unchanged. */
  lemma HeldOrderKept(f: Family, mode: Mode, book: Book, bucket: seq<Instrument>,
                      read: Instrument -> Reading, status: Status, i: Instrument)
    requires f.gate == WhenFlat && i in book
    requires !Fires(f, read(i), book[i].side) || (f.needComplete && book[i].status != Complete)
    ensures var after := Tick(book, bucket, WhenFlat, j => EntrySide(f, mode, read(j)),
                              f.needComplete, (j, s) => Fires(f, read(j), s), status);
            i in after && after[i] == book[i]
  {
    TickKeepsUnfired(book, bucket, j => EntrySide(f, mode, read(j)),
                     f.needComplete, (j, s) => Fires(f, read(j), s), status, i);
  }

  /** For the direct map, "the decision names the other side" is the
      same exit as "the crossover opposes the held side". */
  lemma DecisionOpposesIsOpposing(f: Family, r: Reading, held: Side)
    requires f.entry == DirectMap
    ensures Fires(f.(exit := DecisionOpposes), r, held) <==> Fires(f.(exit := OpposingExit), r, held)
  {
    OpposesIsOppositeEntry(r.primary, held);
  }

  /** For the threshold map the cover-order exit closes a BUY exactly
      when the RSI falls through the overbought line without an upward
      cross of the oversold line on the same candle. */
  lemma ThresholdDecisionExit(f: Family, r: Reading)
    requires f.entry == ThresholdMap && f.exit == DecisionOpposes
    ensures Fires(f, r, Buy) <==> r.primary != 1 && r.secondary == -1
    ensures Fires(f, r, Sell) <==> r.primary == 1
  {
  }

  /** strategy_enter_position of `sma_heikin_ashi_crossover.py`: the main
      market order and a LIMIT profit-booking order on the other side,
      priced off the main order's entry price. */
  function ProfitOrder(side: Side, entryPrice: real, buyPoints: real, sellPoints: real): (r: (Side, real))
    requires buyPoints > 0.0 && sellPoints > 0.0
    ensures r.0 == Opposite(side)
    ensures side == Buy ==> r.1 > entryPrice && r.1 - entryPrice == buyPoints
    ensures side == Sell ==> r.1 < entryPrice && entryPrice - r.1 == sellPoints
  {
    if side == Buy then (Sell, entryPrice + buyPoints) else (Buy, entryPrice - sellPoints)
  }

  // ----- The broker call of strategy_enter_position -----

  /** The first three positional slots of `broker.OrderRegular(instrument,
      order_transaction_type, order_code, ...)`, each holding the string it
      is passed. */
  datatype OrderCall = OrderCall(instrument: string, transaction: string, code: string)

  /** The action string the entry meta carries for a side. */
  function SideName(s: Side): string
  {
    if s == Buy then "BUY" else "SELL"
  }

  /** The side a transaction-type slot names, if it names one. */
  function ReadSide(t: string): (r: Option<Side>)
    ensures r.Some? <==> t == "BUY" || t == "SELL"
    ensures r.Some? ==> SideName(r.value) == t
  {
    if t == "BUY" then Some(Buy) else if t == "SELL" then Some(Sell) else None
  }

  /** The call every other crossover file makes:
      `OrderRegular(instrument, meta['action'], ...)`. */
  function RegularCall(i: Instrument, s: Side, code: string): (c: OrderCall)
    ensures c.instrument == i && ReadSide(c.transaction) == Some(s)
  {
    OrderCall(i, SideName(s), code)
  }

  /** The call of `ema_crossover_compact.py` as written:
      `OrderRegular(meta['action'], INTRADAY, MARKET, quantity)`. The
      action fills the instrument slot, the order code the transaction-type
      slot and the variety the order-code slot (the quantity lands in the
      variety slot). */
  function CompactCallAsWritten(s: Side): (c: OrderCall)
    ensures c.instrument == SideName(s) && ReadSide(c.transaction).None?
  {
    OrderCall(SideName(s), "INTRADAY", "MARKET")
  }

  /** strategy_enter_position through a broker call, the reply filed under
      `i`: the ledger gets an order of `i` on side s exactly when the call
      asks for instrument `i` on side s. Any other call yields no order of
      `i` on any side; what the broker does with it is outside the model,
      which reports the placement as refused. */
  function EnterByCall(book: Book, i: Instrument, c: OrderCall, status: Status): (r: Result<Book>)
    ensures r.Ok? <==> c.instrument == i && ReadSide(c.transaction).Some?
    ensures r.Ok? ==> r == Enter(book, i, Place(ReadSide(c.transaction).value), status, false)
    ensures r.Err? ==> r.fault == InvalidArgument
  {
    match ReadSide(c.transaction)
    case None => Err(InvalidArgument)
    case Some(s) => if c.instrument == i then Ok(book[i := Order(s, status)]) else Err(InvalidArgument)
  }

  /** As written, the compact EMA file never files an order of the
      signalled instrument: its call asks for an instrument named after
      the action, with a transaction type that names no side. */
  lemma CompactAsWrittenNeverEnters(book: Book, i: Instrument, s: Side, status: Status)
    ensures CompactCallAsWritten(s).instrument == i <==> i == SideName(s)
    ensures EnterByCall(book, i, CompactCallAsWritten(s), status).Err?
  {
  }

  /** With the slots in the order every other file uses, the entry is
      the ledger's own: the order of `i` on the signalled side, with
      nothing else changed. This is the enter the `EmaCompact` family
      uses. */
  lemma RegularCallEnters(book: Book, i: Instrument, s: Side, status: Status, code: string)
    ensures EnterByCall(book, i, RegularCall(i, s, code), status) == Enter(book, i, Place(s), status, false)
    ensures EnterByCall(book, i, RegularCall(i, s, code), status).Ok?
    ensures var r := EnterByCall(book, i, RegularCall(i, s, code), status).value;
            i in r && r[i] == Order(s, status) && forall j :: j != i && j in book ==> j in r && r[j] == book[j]
  {
  }

  // ----- The strategy files, as families -----

  /** `strategy_ema_regular_order_delivery`, `_intraday`, `ema_crossover_v2.py`:
      no ledger test on entry; exit on any crossover. */
  const EmaRegular := Family(Always, DirectMap, false, AnyCrossExit, false, false, false, false)

  /** `ema_crossover_compact.py`: as above, SELL entries only intraday.
      The family enters through the ledger, as `RegularCallEnters` does;
      the file's own broker call passes its arguments in the wrong slots
      (`CompactAsWrittenNeverEnters`). */
  const EmaCompact := Family(Always, DirectMap, true, AnyCrossExit, false, false, false, false)

  /** `strategy_inverse_ema_scalping_regular_order_delivery`, `_intraday`,
      `inverse_ema_scalping.py`, `inverse_ema_scalping_v2.py`. */
  const InverseEma := Family(Always, InverseMap, false, AnyCrossExit, false, false, false, false)

  /** `strategy_inverse_ema_scalping_regular_order.py`. */
  const InverseEmaRegularOrder := Family(Always, InverseMap, true, AnyCrossExit, false, false, false, true)

  /** `strategy_macd_regular_order.py`. */
  const MacdRegularOrder := Family(Always, DirectMap, true, AnyCrossExit, false, false, false, true)

  /** `strategy_sma_bracket_order.py` (the bracket prices are in `OrderPrices`). */
  const SmaBracketOrder := Family(Always, DirectMap, true, AnyCrossExit, false, false, false, true)

  /** `strategy_macd_crossover_delivery`, `_intraday`, `macd_crossover.py`, `macd_crossover_v2.py`. */
  const MacdCrossover := Family(WhenFlat, DirectMap, false, AnyCrossExit, false, false, false, false)

  /** `strategy_vwap_crossover_delivery`, `vwap_crossover_delivery`,
      `strategy_vwap_crossover_intraday`, `vwap_crossover`,
      `strategy_aroon_crossover_intraday`, `obv_breakout` (package),
      `on_balance_volume.py`, `strategy_stochastic_crossover_delivery`,
      `_intraday`: the exit waits for a COMPLETE order. */
  const CompleteCrossover := Family(WhenFlat, DirectMap, false, AnyCrossExit, true, false, false, false)

  /** `stochastic_crossover_v2.py` (exit read as intended, see README). */
  const StochasticV2 := Family(WhenFlat, DirectMap, false, OpposingExit, true, false, false, false)

  /** `stochastic_crossover.py`. */
  const StochasticCrossover := Family(WhenFlat, DirectMap, true, OpposingExit, true, false, false, true)

  /** `aaroon_crossover_v2.py` as written: exits are tagged 'EXIT' but
      exit_position only acts on EXIT_BUY / EXIT_SELL. */
  const AroonV2AsWritten := Family(WhenFlat, DirectMap, false, OpposingExit, true, false, true, false)

  /** `aaroon_crossover_v2.py` as evidently intended. */
  const AroonV2 := Family(WhenFlat, DirectMap, false, OpposingExit, true, false, false, false)

  /** `sma_heikin_ashi_crossover.py`: EXIT_BUY / EXIT_SELL meta. */
  const SmaHeikinAshi := Family(WhenFlat, DirectMap, true, OpposingExit, true, true, true, true)

  /** `strategy_aroon_crossover_cover_order.py`. */
  const AroonCoverOrder := Family(WhenFlat, DirectMap, true, DecisionOpposes, false, false, false, true)

  /** `strategy_reverse_rsi_cover_order.py`. */
  const ReverseRsiCoverOrder := Family(WhenFlat, ThresholdMap, true, DecisionOpposes, false, false, false, true)

  /** `strategy_rsi_macd_crossover_delivery`, `_intraday`. */
  const RsiMacd := Family(WhenFlat, ThresholdMap, false, RsiMacdRule, false, false, false, false)

  /** `strategy_reverse_rsi_crossover_delivery`, `reverse_rsi_crossover_delivery`,
      `strategy_reverse_rsi_crossover_intraday`. */
  const ReverseRsi := Family(WhenFlat, ThresholdMap, false, ReverseRsiRule, false, false, false, false)

  /** `reverse_rsi_crossover_v2.py`. */
  const ReverseRsiV2 := Family(WhenFlat, ThresholdMap, false, EitherLineRule, false, false, false, false)

  /** `strategy_williams_percentage_custom_bracket_order.py`: the decision
      is always NO_ACTION. */
  const WilliamsBracketOrder := Family(WhenFlat, NeverEnter, true, DecisionOpposes, false, false, false, true)

  /** Every family above but the Aroon v2 one as written is coherent. */
  lemma FamiliesCoherent()
    ensures Coherent(EmaRegular) && Coherent(EmaCompact) && Coherent(InverseEma)
    ensures Coherent(InverseEmaRegularOrder) && Coherent(MacdRegularOrder) && Coherent(SmaBracketOrder)
    ensures Coherent(MacdCrossover) && Coherent(CompleteCrossover) && Coherent(StochasticV2)
    ensures Coherent(StochasticCrossover) && Coherent(AroonV2) && Coherent(SmaHeikinAshi)
    ensures Coherent(AroonCoverOrder) && Coherent(ReverseRsiCoverOrder) && Coherent(RsiMacd)
    ensures Coherent(ReverseRsi) && Coherent(ReverseRsiV2) && Coherent(WilliamsBracketOrder)
    ensures !Coherent(AroonV2AsWritten)
  {
  }

  /** The as-written Aroon v2 strategy never clears a position: after the
      exit phase every order it selected is still in the ledger. */
  lemma AroonV2NeverExits(book: Book, bucket: seq<Instrument>, read: Instrument -> Reading, k: nat)
    requires k < |SelectForExit(AroonV2AsWritten, book, bucket, read).instruments|
    ensures var sel := SelectForExit(AroonV2AsWritten, book, bucket, read);
            ExitPosition(book, sel.instruments[k], sel.meta[k], a => Accepts(AroonV2AsWritten, a))
              == Ok((book, false))
  {
    IncoherentExitsIgnored(AroonV2AsWritten, book, bucket, read, k);
  }

  /** The corrected Aroon v2 strategy clears every order it selects. */
  lemma AroonV2Exits(book: Book, bucket: seq<Instrument>, read: Instrument -> Reading, k: nat)
    requires k < |SelectForExit(AroonV2, book, bucket, read).instruments|
    ensures var sel := SelectForExit(AroonV2, book, bucket, read);
            var r := ExitPosition(book, sel.instruments[k], sel.meta[k], a => Accepts(AroonV2, a));
            r.Ok? && r.value.1 && sel.instruments[k] !in r.value.0
  {
    SelectedExitsClear(AroonV2, book, bucket, read, k);
  }

  /** The strategies that enter without looking at the ledger still never
      stack a second order on an instrument: they are stop-and-reverse. */
  lemma UngatedFamiliesReverse()
    ensures ExitsOnEverySignal(EmaRegular) && ExitsOnEverySignal(EmaCompact)
    ensures ExitsOnEverySignal(InverseEma) && ExitsOnEverySignal(InverseEmaRegularOrder)
    ensures ExitsOnEverySignal(MacdRegularOrder) && ExitsOnEverySignal(SmaBracketOrder)
    ensures ExitsOnEverySignal(MacdCrossover)
  {
    AnyCrossExitsOnEverySignal(EmaRegular);
    AnyCrossExitsOnEverySignal(EmaCompact);
    AnyCrossExitsOnEverySignal(InverseEma);
    AnyCrossExitsOnEverySignal(InverseEmaRegularOrder);
    AnyCrossExitsOnEverySignal(MacdRegularOrder);
    AnyCrossExitsOnEverySignal(SmaBracketOrder);
    AnyCrossExitsOnEverySignal(MacdCrossover);
  }

  /** The Williams %R strategy never selects anything. */
  lemma WilliamsNeverTrades(mode: Mode, book: Book, bucket: seq<Instrument>, read: Instrument -> Reading)
    ensures |SelectForEntry(WilliamsBracketOrder, mode, book, bucket, read).instruments| == 0
    ensures |SelectForExit(WilliamsBracketOrder, book, bucket, read).instruments| == 0
  {
    SelectEntrySilent(book, bucket, WilliamsBracketOrder.gate, j => EntrySide(WilliamsBracketOrder, mode, read(j)));
    SelectExitSilent(book, bucket, false, (j, s) => Fires(WilliamsBracketOrder, read(j), s), false);
  }
}
