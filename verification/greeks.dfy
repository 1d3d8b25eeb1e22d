/** The options Greek-delta strategy with target and stoploss
    (`strategy_options_greek_delta_target_stoploss_intraday`): one option
    leg per base is bought or sold when the absolute delta of the chosen
    strike lies in a configured band; once the leg is complete, a
    stoploss-limit and a limit exit order are placed around its entry
    price, each once, and whichever completes first cancels the other and
    closes the position. The delta itself comes from a Greek calculator and
    is an input here. */
module Greeks {
  import opened Common
  import opened Ledger
  import opened OptionLegs

  /** The validated parameters. */
  datatype GreekConfig = GreekConfig(side: Side, suffix: Suffix, dir: StrikeDir, strikes: nat,
                                     deltaMin: real, deltaMax: real, slPct: real, targetPct: real)

  /** _validate_parameters: exactly one allowed expiry date (else the
      strategy stops), then each parameter checked in turn. The integer
      codes decode as 1: BUY / 2: SELL, 1: CE / 2: PE and 0: ITM / 1: ATM /
      2: OTM. */
  function Validate(expiries: int, tt: int, suffixCode: int, dirCode: int, strikes: int,
                    deltaMin: real, deltaMax: real, slPct: real, targetPct: real, rate: real, vol: real)
    : (r: Result<GreekConfig>)
    ensures r.Ok? <==> expiries == 1 && deltaMin >= 0.0 && deltaMax >= 0.0
                       && slPct > 0.0 && targetPct > 0.0 && rate > 0.0 && vol > 0.0
                       && (tt == 1 || tt == 2) && (suffixCode == 1 || suffixCode == 2)
                       && 0 <= dirCode <= 2 && 0 <= strikes <= 10
    ensures expiries != 1 ==> r == Err(SystemExit)
    ensures r.Err? && expiries == 1 ==> r.fault == InvalidArgument
    ensures r.Ok? ==> (r.value.side == Buy <==> tt == 1) && (r.value.suffix == CE <==> suffixCode == 1)
                      && (r.value.dir == ITM <==> dirCode == 0) && (r.value.dir == OTM <==> dirCode == 2)
                      && r.value.strikes == strikes
                      && r.value.deltaMin == deltaMin && r.value.deltaMax == deltaMax
                      && r.value.slPct == slPct && r.value.targetPct == targetPct
  {
    if expiries != 1 then Err(SystemExit)
    else if deltaMin < 0.0 || deltaMax < 0.0 then Err(InvalidArgument)
    else if slPct <= 0.0 || targetPct <= 0.0 || rate <= 0.0 || vol <= 0.0 then Err(InvalidArgument)
    else if tt != 1 && tt != 2 then Err(InvalidArgument)
    else if suffixCode != 1 && suffixCode != 2 then Err(InvalidArgument)
    else if dirCode < 0 || dirCode > 2 then Err(InvalidArgument)
    else if strikes < 0 || strikes > 10 then Err(InvalidArgument)
    else
      Ok(GreekConfig(if tt == 1 then Buy else Sell, if suffixCode == 1 then CE else PE,
                     if dirCode == 0 then ITM else if dirCode == 1 then ATM else OTM,
                     strikes, deltaMin, deltaMax, slPct, targetPct))
  }

  function Abs(x: real): real
  {
    if x < 0.0 then -x else x
  }

  /** _is_child_instrument_selected: the absolute delta lies in the closed
      band [DELTA_MIN, DELTA_MAX]. */
  predicate Selected(cfg: GreekConfig, delta: real)
  {
    cfg.deltaMin <= Abs(delta) <= cfg.deltaMax
  }

  /** A put's delta is the negative of a call's: the band test cannot tell
      them apart, and an inverted band selects nothing. */
  lemma SelectionIgnoresSign(cfg: GreekConfig, delta: real)
    ensures Selected(cfg, delta) <==> Selected(cfg, -delta)
    ensures cfg.deltaMin > cfg.deltaMax ==> !Selected(cfg, delta)
  {
  }

  datatype ExitKind = Stoploss | Target

  /** The order variety of an exit order. */
  datatype Variety = StoplossLimit | Limit

  /** An exit order as placed: its side, variety and (trigger) price. */
  datatype ExitOrder = ExitOrder(side: Side, variety: Variety, price: real)

  /** The price of an exit `pct` percent away from the entry, on the side of
      the entry the exit kind stands for. */
  function ExitOrderFor(mainSide: Side, entry: real, kind: ExitKind, pct: real): (r: ExitOrder)
    ensures r.side == Opposite(mainSide)
    ensures r.variety == StoplossLimit <==> kind == Stoploss
    ensures r.price == entry - entry * pct / 100.0 || r.price == entry + entry * pct / 100.0
    ensures entry > 0.0 && pct > 0.0 ==> (r.price < entry <==> (mainSide == Buy <==> kind == Stoploss))
  {
    var down := entry * (1.0 - pct / 100.0);
    var up := entry * (1.0 + pct / 100.0);
    var price := if mainSide == Buy then (if kind == Stoploss then down else up)
                 else (if kind == Stoploss then up else down);
    ExitOrder(Opposite(mainSide), if kind == Stoploss then StoplossLimit else Limit, price)
  }

  /** A SELL leg's exits are a BUY leg's exits with the kinds swapped: the
      stoploss of one is priced where the target of the other is. */
  lemma ExitPricesMirror(entry: real, pct: real)
    ensures ExitOrderFor(Sell, entry, Stoploss, pct).price == ExitOrderFor(Buy, entry, Target, pct).price
    ensures ExitOrderFor(Sell, entry, Target, pct).price == ExitOrderFor(Buy, entry, Stoploss, pct).price
  {
  }

  /** A positive entry lies strictly between the two exits. */
  lemma ExitsBracketEntry(cfg: GreekConfig, entry: real)
    requires entry > 0.0 && cfg.slPct > 0.0 && cfg.targetPct > 0.0
    ensures var sl := ExitOrderFor(cfg.side, entry, Stoploss, cfg.slPct).price;
            var tg := ExitOrderFor(cfg.side, entry, Target, cfg.targetPct).price;
            if cfg.side == Buy then sl < entry < tg else tg < entry < sl
  {
  }

  /** The strategy's dictionaries: the main order, the stoploss and target
      exit orders, each keyed by base; and the child-to-base mapper. */
  datatype GreekState = GreekState(main: map<Instrument, BrokerOrder>, stoploss: map<Instrument, ExitOrder>,
                                   target: map<Instrument, ExitOrder>, mapper: map<Instrument, Instrument>)

  /** strategy_select_instruments_for_entry: each base without a main
      order whose child strike passes the delta band is selected, as
      (child, base). The action of every entry is the configured side. */
  function SelectGreekEntry(cfg: GreekConfig, main: map<Instrument, BrokerOrder>, bucket: seq<Instrument>,
                            child: Instrument -> Instrument, delta: Instrument -> real)
    : (r: seq<(Instrument, Instrument)>)
    ensures forall k :: 0 <= k < |r| ==> var b := r[k].1;
              b in bucket && b !in main && r[k].0 == child(b) && Selected(cfg, delta(child(b)))
    ensures forall b :: b in bucket && b !in main && Selected(cfg, delta(child(b))) ==> (child(b), b) in r
    decreases |bucket|
  {
    if |bucket| == 0 then []
    else
      var b := bucket[0];
      var rest := SelectGreekEntry(cfg, main, bucket[1..], child, delta);
      assert forall x :: x in bucket ==> x == b || x in bucket[1..];
      if b !in main && Selected(cfg, delta(child(b))) then [(child(b), b)] + rest
      else rest
  }

  /** strategy_enter_position: the order is stored as the base's main
      order, placed or not. */
  function EnterGreek(st: GreekState, base: Instrument, o: BrokerOrder): (r: GreekState)
    ensures r.main == st.main[base := o]
    ensures r.stoploss == st.stoploss && r.target == st.target && r.mapper == st.mapper
  {
    st.(main := st.main[base := o])
  }

  /** What the exit scan emits for one child: the child, its base, and the
      exit order kind that is cancelled because the other one completed. */
  datatype GreekExit = GreekExit(child: Instrument, base: Instrument, cancelled: ExitKind)

  /** The bases of the bucket's children that hold a complete main order. */
  function Eligible(st: GreekState, bucket: seq<Instrument>): (r: set<Instrument>)
    ensures forall b :: b in r ==> b in st.main && CompleteStatus(Some(st.main[b]))
  {
    set i | i in bucket && i in st.mapper && st.mapper[i] in st.main && CompleteStatus(Some(st.main[st.mapper[i]]))
      :: st.mapper[i]
  }

  /** The exit orders of the exit scan: for every base of `Eligible`, the
      missing stoploss and target orders are placed; an existing one is
      never replaced. */
  function PlaceExits(cfg: GreekConfig, st: GreekState, bases: set<Instrument>): (r: GreekState)
    requires forall b :: b in bases ==> b in st.main
    ensures r.main == st.main && r.mapper == st.mapper
    ensures r.stoploss.Keys == st.stoploss.Keys + bases && r.target.Keys == st.target.Keys + bases
    ensures forall b :: b in st.stoploss ==> r.stoploss[b] == st.stoploss[b]
    ensures forall b :: b in st.target ==> r.target[b] == st.target[b]
    ensures forall b :: b in bases && b !in st.stoploss ==>
              r.stoploss[b] == ExitOrderFor(cfg.side, st.main[b].entryPrice, Stoploss, cfg.slPct)
    ensures forall b :: b in bases && b !in st.target ==>
              r.target[b] == ExitOrderFor(cfg.side, st.main[b].entryPrice, Target, cfg.targetPct)
  {
    var sl := map b | b in st.stoploss.Keys + bases ::
                if b in st.stoploss then st.stoploss[b]
                else ExitOrderFor(cfg.side, st.main[b].entryPrice, Stoploss, cfg.slPct);
    var tg := map b | b in st.target.Keys + bases ::
                if b in st.target then st.target[b]
                else ExitOrderFor(cfg.side, st.main[b].entryPrice, Target, cfg.targetPct);
    st.(stoploss := sl, target := tg)
  }

  /** The exits of the exit scan, in bucket order: a child whose base holds
      a complete main order exits when the base's stoploss or target order
      completed, and the other one is cancelled, stoploss checked first.
      `filled` is the broker's report whether the base's exit order of a
      kind is complete. Children the mapper does not know are passed over. */
  function GreekExits(st: GreekState, bucket: seq<Instrument>, filled: (ExitKind, Instrument) -> bool)
    : (r: seq<GreekExit>)
    ensures forall k :: 0 <= k < |r| ==> var e := r[k];
              e.child in bucket && e.child in st.mapper && e.base == st.mapper[e.child]
              && e.base in Eligible(st, bucket)
              && (e.cancelled == Target <==> filled(Stoploss, e.base))
              && (filled(Stoploss, e.base) || filled(Target, e.base))
    ensures forall i :: i in bucket && i in st.mapper && st.mapper[i] in Eligible(st, bucket)
                        && (filled(Stoploss, st.mapper[i]) || filled(Target, st.mapper[i]))
                        ==> GreekExit(i, st.mapper[i], if filled(Stoploss, st.mapper[i]) then Target else Stoploss) in r
    decreases |bucket|
  {
    if |bucket| == 0 then []
    else
      var i := bucket[0];
      var rest := GreekExits(st, bucket[1..], filled);
      assert forall x :: x in bucket ==> x == i || x in bucket[1..];
      assert Eligible(st, bucket[1..]) <= Eligible(st, bucket);
      if i in st.mapper && st.mapper[i] in st.main && CompleteStatus(Some(st.main[st.mapper[i]]))
         && (filled(Stoploss, st.mapper[i]) || filled(Target, st.mapper[i])) then
        var b := st.mapper[i];
        assert b in Eligible(st, bucket);
        [GreekExit(i, b, if filled(Stoploss, b) then Target else Stoploss)] + rest
      else
        rest
  }

  /** strategy_select_instruments_for_exit: the exit orders placed and the
      exits chosen in one scan. */
  function SelectGreekExit(cfg: GreekConfig, st: GreekState, bucket: seq<Instrument>,
                           filled: (ExitKind, Instrument) -> bool)
    : (r: (seq<GreekExit>, GreekState))
    ensures r.1.main == st.main && r.1.mapper == st.mapper
    ensures forall i :: i in bucket && i in st.mapper && st.mapper[i] in st.main
                        && CompleteStatus(Some(st.main[st.mapper[i]])) ==>
              st.mapper[i] in r.1.stoploss && st.mapper[i] in r.1.target
    ensures forall b :: b in st.stoploss ==> b in r.1.stoploss && r.1.stoploss[b] == st.stoploss[b]
    ensures forall b :: b in st.target ==> b in r.1.target && r.1.target[b] == st.target[b]
    ensures forall b :: b in r.1.stoploss && b !in st.stoploss ==>
              b in Eligible(st, bucket) && r.1.stoploss[b] == ExitOrderFor(cfg.side, st.main[b].entryPrice, Stoploss, cfg.slPct)
    ensures forall b :: b in r.1.target && b !in st.target ==>
              b in Eligible(st, bucket) && r.1.target[b] == ExitOrderFor(cfg.side, st.main[b].entryPrice, Target, cfg.targetPct)
    ensures forall k :: 0 <= k < |r.0| ==>
              r.0[k].child in bucket && r.0[k].child in st.mapper && r.0[k].base == st.mapper[r.0[k].child]
              && r.0[k].base in Eligible(st, bucket)
              && (filled(Stoploss, r.0[k].base) || filled(Target, r.0[k].base))
              && (r.0[k].cancelled == Target <==> filled(Stoploss, r.0[k].base))
    ensures forall i :: i in bucket && i in st.mapper && st.mapper[i] in Eligible(st, bucket)
                        && (filled(Stoploss, st.mapper[i]) || filled(Target, st.mapper[i]))
                        ==> GreekExit(i, st.mapper[i], if filled(Stoploss, st.mapper[i]) then Target else Stoploss) in r.0
  {
    (GreekExits(st, bucket, filled), PlaceExits(cfg, st, Eligible(st, bucket)))
  }

  /** strategy_exit_position: 'EXIT' forgets the base's main, target and
      stoploss orders and reports true; any other action changes nothing
      and reports false. */
  function ExitGreek(st: GreekState, base: Instrument, action: Action): (r: (GreekState, bool))
    ensures r.1 <==> action == Close
    ensures r.1 ==> r.0 == GreekState(st.main - {base}, st.stoploss - {base}, st.target - {base}, st.mapper)
    ensures !r.1 ==> r.0 == st
  {
    if action == Close then
      (GreekState(st.main - {base}, st.stoploss - {base}, st.target - {base}, st.mapper), true)
    else (st, false)
  }

  /** Entering a flat base and exiting it with 'EXIT' after its exit orders
      were placed leaves the strategy's dictionaries as they were. */
  lemma EnterThenExitForgets(cfg: GreekConfig, st: GreekState, base: Instrument, o: BrokerOrder,
                             i: Instrument, filled: (ExitKind, Instrument) -> bool)
    requires base !in st.main && base !in st.stoploss && base !in st.target
    requires i in st.mapper && st.mapper[i] == base
    ensures var entered := EnterGreek(st, base, o);
            var scanned := SelectGreekExit(cfg, entered, [i], filled).1;
            ExitGreek(scanned, base, Close) == (st, true)
  {
    var entered := EnterGreek(st, base, o);
    var bases := Eligible(entered, [i]);
    assert bases <= {base};
    var scanned := PlaceExits(cfg, entered, bases);
    assert scanned.main - {base} == st.main;
    assert scanned.stoploss - {base} == st.stoploss;
    assert scanned.target - {base} == st.target;
  }
}
