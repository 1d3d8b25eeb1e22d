/** The put-call-ratio strategy (`strategy_options_put_call_ratio_intraday`):
    per base, the ratio of the put to the call open interest over a window
    of strikes around the money decides a sentiment; a high ratio buys the
    ATM call ("BEARISH"), a low one the ATM put ("BULLISH"), and a held
    position is exited when the sentiment flips. The open interest and the
    option chain are inputs. */
module Pcr {
  import opened Common
  import opened Ledger
  import opened OptionLegs

  datatype Sentiment = Bearish | Bullish

  datatype PcrConfig = PcrConfig(bullish: real, bearish: real, strikes: nat)

  /** _validate_parameters: exactly one allowed expiry date (else the
      strategy stops); non-negative thresholds; 0 to 10 strikes. */
  function ValidatePcr(expiries: int, bullish: real, bearish: real, strikes: int): (r: Result<PcrConfig>)
    ensures r.Ok? <==> expiries == 1 && bullish >= 0.0 && bearish >= 0.0 && 0 <= strikes <= 10
    ensures expiries != 1 ==> r == Err(SystemExit)
    ensures r.Err? && expiries == 1 ==> r.fault == InvalidArgument
    ensures r.Ok? ==> r.value.bullish == bullish && r.value.bearish == bearish && r.value.strikes == strikes
  {
    if expiries != 1 then Err(SystemExit)
    else if bullish < 0.0 || bearish < 0.0 then Err(InvalidArgument)
    else if strikes < 0 || strikes > 10 then Err(InvalidArgument)
    else Ok(PcrConfig(bullish, bearish, strikes))
  }

  /** The option chain of one expiry: ITM strikes (farthest first), the ATM
      strike, OTM strikes (nearest first), for calls and for puts. */
  datatype Chain = Chain(ceItm: seq<Instrument>, ceAtm: Instrument, ceOtm: seq<Instrument>,
                         peItm: seq<Instrument>, peAtm: Instrument, peOtm: seq<Instrument>)

  /** The strike window as written: `itm[-n:] + [atm] + otm[:n]`. Python's
      `itm[-0:]` is the whole list, so with no strikes configured every ITM
      strike is counted. */
  function WindowAsWritten(itm: seq<Instrument>, atm: Instrument, otm: seq<Instrument>, n: nat): (r: seq<Instrument>)
    ensures n == 0 ==> r == itm + [atm]
    ensures n > 0 ==> r == Window(itm, atm, otm, n)
  {
    TakeLast(itm, n) + [atm] + TakeFirst(otm, n)
  }

  function MinNat(a: nat, b: nat): nat
  {
    if a <= b then a else b
  }

  /** The strike window as intended: the n ITM strikes nearest the money,
      the ATM strike and the n nearest OTM strikes. */
  function Window(itm: seq<Instrument>, atm: Instrument, otm: seq<Instrument>, n: nat): (r: seq<Instrument>)
    ensures |r| == MinNat(n, |itm|) + 1 + MinNat(n, |otm|) && |r| <= 2 * n + 1
    ensures r[MinNat(n, |itm|)] == atm
    ensures forall k :: 0 <= k < MinNat(n, |itm|) ==> r[k] == itm[|itm| - MinNat(n, |itm|) + k]
    ensures forall k :: 0 <= k < MinNat(n, |otm|) ==> r[MinNat(n, |itm|) + 1 + k] == otm[k]
  {
    (if n == 0 then [] else TakeLast(itm, n)) + [atm] + TakeFirst(otm, n)
  }

  /** With no strikes configured the written window still counts the ITM
      strikes; the intended one is the ATM strike alone. */
  lemma ZeroStrikeWindow()
    ensures WindowAsWritten(["C90", "C95"], "C100", ["C105"], 0) == ["C90", "C95", "C100"]
    ensures Window(["C90", "C95"], "C100", ["C105"], 0) == ["C100"]
  {
  }

  /** A float64 quotient of two open-interest totals: the totals are numpy
      numbers, so a zero denominator gives an infinity or NaN, not an
      exception. */
  datatype Ratio = Finite(x: real) | PosInf | NegInf | NaN

  predicate AtLeast(r: Ratio, t: real)
  {
    match r
    case Finite(x) => x >= t
    case PosInf => true
    case NegInf => false
    case NaN => false
  }

  predicate AtMost(r: Ratio, t: real)
  {
    match r
    case Finite(x) => x <= t
    case PosInf => false
    case NegInf => true
    case NaN => false
  }

  /** The summed open interest of a list of strikes. */
  function SumOi(xs: seq<Instrument>, oi: Instrument -> real): real
  {
    if |xs| == 0 then 0.0 else oi(xs[0]) + SumOi(xs[1..], oi)
  }

  /** _calculate_put_call_ratio: total put OI over total call OI. */
  function PutCallRatio(ce: seq<Instrument>, pe: seq<Instrument>, oi: Instrument -> real): (r: Ratio)
    ensures r.Finite? <==> SumOi(ce, oi) != 0.0
    ensures r.Finite? ==> r.x * SumOi(ce, oi) == SumOi(pe, oi)
    ensures r == PosInf <==> SumOi(ce, oi) == 0.0 && SumOi(pe, oi) > 0.0
    ensures r == NaN <==> SumOi(ce, oi) == 0.0 && SumOi(pe, oi) == 0.0
  {
    var c := SumOi(ce, oi);
    var p := SumOi(pe, oi);
    if c != 0.0 then Finite(p / c)
    else if p > 0.0 then PosInf
    else if p < 0.0 then NegInf
    else NaN
  }

  /** _get_put_call_ratio for one chain, with the written or the intended
      window. */
  function ChainRatio(cfg: PcrConfig, fixed: bool, c: Chain, oi: Instrument -> real): Ratio
  {
    if fixed then PutCallRatio(Window(c.ceItm, c.ceAtm, c.ceOtm, cfg.strikes), Window(c.peItm, c.peAtm, c.peOtm, cfg.strikes), oi)
    else PutCallRatio(WindowAsWritten(c.ceItm, c.ceAtm, c.ceOtm, cfg.strikes),
               WindowAsWritten(c.peItm, c.peAtm, c.peOtm, cfg.strikes), oi)
  }

  /** _get_child_instrument_based_on_pcr: a ratio at or above the bearish
      threshold picks the ATM call (checked first), one at or below the
      bullish threshold the ATM put; anything else, NaN included, picks
      nothing. */
  function Decide(cfg: PcrConfig, ratio: Ratio, c: Chain): (r: Option<(Instrument, Sentiment)>)
    ensures (r.Some? && r.value.1 == Bearish) <==> AtLeast(ratio, cfg.bearish)
    ensures (r.Some? && r.value.1 == Bullish) <==> !AtLeast(ratio, cfg.bearish) && AtMost(ratio, cfg.bullish)
    ensures r.Some? ==> r.value.0 == (if r.value.1 == Bearish then c.ceAtm else c.peAtm)
  {
    if AtLeast(ratio, cfg.bearish) then Some((c.ceAtm, Bearish))
    else if AtMost(ratio, cfg.bullish) then Some((c.peAtm, Bullish))
    else None
  }

  /** With the bullish threshold below the bearish one, every finite ratio
      falls in exactly one of the three bands; NaN falls in none. */
  lemma BandsPartition(cfg: PcrConfig, x: real, c: Chain)
    requires cfg.bullish < cfg.bearish
    ensures Decide(cfg, Finite(x), c).None? <==> cfg.bullish < x < cfg.bearish
    ensures Decide(cfg, NaN, c).None?
  {
  }

  /** _get_sentiment_from_instrument: a CE symbol (or its "[LOCAL]" form)
      reads BEARISH, a PE symbol BULLISH; anything else raises
      NotImplementedError. */
  function SentimentOf(symbol: Instrument): (r: Result<Sentiment>)
    ensures r == Ok(Bearish) <==> SymbolSuffix(symbol) == Some(CE)
    ensures r == Ok(Bullish) <==> SymbolSuffix(symbol) == Some(PE)
    ensures r.Err? <==> SymbolSuffix(symbol).None?
    ensures r.Err? ==> r.fault == NotImplemented
  {
    match SymbolSuffix(symbol)
    case Some(CE) => Ok(Bearish)
    case Some(PE) => Ok(Bullish)
    case None => Err(NotImplemented)
  }

  /** A chain whose ATM call and put carry their suffixes. */
  predicate Labelled(c: Chain)
  {
    EndsWith(c.ceAtm, "CE") && EndsWith(c.peAtm, "PE")
  }

  /** The child a decision picks reads back as the decision's sentiment. */
  lemma DecisionReadsBack(cfg: PcrConfig, ratio: Ratio, c: Chain)
    requires Labelled(c)
    ensures var d := Decide(cfg, ratio, c); d.Some? ==> SentimentOf(d.value.0) == Ok(d.value.1)
  {
    var d := Decide(cfg, ratio, c);
    if d.Some? && d.value.1 == Bullish {
      var s := c.peAtm;
      assert s[|s| - 2..] == "PE";
      assert !EndsWith(s, "CE") by { assert s[|s| - 2..][0] == 'P'; }
      assert !EndsWith(s, "CE [LOCAL]") by {
        if |s| >= 10 { assert s[|s| - 10..][9] == s[|s| - 1] == s[|s| - 2..][1] == 'E'; }
      }
    }
  }

  /** The cache key `f'{tradingsymbol}_{candle}'`. */
  datatype Key = Key(symbol: Instrument, candle: int)

  /** Every cached ratio is the one computing it would give. */
  predicate Faithful(cache: map<Key, Ratio>, compute: Key -> Ratio)
  {
    forall k :: k in cache ==> cache[k] == compute(k)
  }

  /** The ratio cache: a cached key is read back; a missing one is computed
      after the cache is emptied, so the cache never holds more than one
      entry once it has missed. */
  function Cached(cache: map<Key, Ratio>, key: Key, compute: Key -> Ratio): (r: (Ratio, map<Key, Ratio>))
    ensures Faithful(cache, compute) ==> r.0 == compute(key) && Faithful(r.1, compute)
    ensures key in r.1
    ensures key !in cache ==> r.1.Keys == {key}
    ensures key in cache ==> r.1 == cache
  {
    if key in cache then (cache[key], cache)
    else (compute(key), map[key := compute(key)])
  }

  /** The strategy's state: the held child per base, the ratio cache and
      the child-to-base mapper. */
  datatype PcrState = PcrState(main: map<Instrument, Instrument>, cache: map<Key, Ratio>, mapper: map<Instrument, Instrument>)

  /** The inputs of one candle: its time, the option chain of every base
      and the latest open interest of every strike. */
  datatype Market = Market(candle: int, chainOf: Instrument -> Chain, oi: Instrument -> real)

  function RatioOf(cfg: PcrConfig, fixed: bool, m: Market): Key -> Ratio
  {
    (k: Key) => ChainRatio(cfg, fixed, m.chainOf(k.symbol), m.oi)
  }

  /** The decision for one base in this candle. */
  function DecisionOf(cfg: PcrConfig, fixed: bool, m: Market, b: Instrument): Option<(Instrument, Sentiment)>
  {
    Decide(cfg, ChainRatio(cfg, fixed, m.chainOf(b), m.oi), m.chainOf(b))
  }

  /** The decisions of one candle, per base. */
  function Decisions(cfg: PcrConfig, fixed: bool, m: Market): Instrument -> Option<(Instrument, Sentiment)>
  {
    (b: Instrument) => DecisionOf(cfg, fixed, m, b)
  }

  /** The entries of one candle: each base holding nothing whose decision
      picks a child, as (child, base), in bucket order. */
  function EntryPicks(main: map<Instrument, Instrument>, bucket: seq<Instrument>,
                      decision: Instrument -> Option<(Instrument, Sentiment)>)
    : (r: seq<(Instrument, Instrument)>)
    ensures forall k :: 0 <= k < |r| ==> var b := r[k].1;
              b in bucket && b !in main && decision(b).Some? && r[k].0 == decision(b).value.0
    ensures forall b :: b in bucket && b !in main && decision(b).Some? ==> (decision(b).value.0, b) in r
    decreases |bucket|
  {
    if |bucket| == 0 then []
    else
      var b := bucket[0];
      var rest := EntryPicks(main, bucket[1..], decision);
      assert forall x :: x in bucket ==> x == b || x in bucket[1..];
      if b !in main && decision(b).Some? then [(decision(b).value.0, b)] + rest
      else rest
  }

  /** The entry scan's walk over the bucket with the ratio cache: the
      selection is `EntryPicks` and the cache stays faithful. */
  function EntryScan(cfg: PcrConfig, fixed: bool, main: map<Instrument, Instrument>, cache: map<Key, Ratio>,
                     bucket: seq<Instrument>, m: Market)
    : (r: (seq<(Instrument, Instrument)>, map<Key, Ratio>))
    requires Faithful(cache, RatioOf(cfg, fixed, m))
    ensures r.0 == EntryPicks(main, bucket, Decisions(cfg, fixed, m))
    ensures Faithful(r.1, RatioOf(cfg, fixed, m))
    decreases |bucket|
  {
    if |bucket| == 0 then ([], cache)
    else
      var b := bucket[0];
      if b in main then EntryScan(cfg, fixed, main, cache, bucket[1..], m)
      else
        var (ratio, cache') := Cached(cache, Key(b, m.candle), RatioOf(cfg, fixed, m));
        var d := Decide(cfg, ratio, m.chainOf(b));
        var rest := EntryScan(cfg, fixed, main, cache', bucket[1..], m);
        if d.None? then rest else ([(d.value.0, b)] + rest.0, rest.1)
  }

  /** strategy_select_instruments_for_entry: the selection is `EntryPicks`
      (a BUY each), every selected child is mapped to its base in order,
      and the cache stays faithful. */
  function SelectPcrEntry(cfg: PcrConfig, fixed: bool, st: PcrState, bucket: seq<Instrument>, m: Market)
    : (r: (seq<(Instrument, Instrument)>, PcrState))
    requires Faithful(st.cache, RatioOf(cfg, fixed, m))
    ensures r.0 == EntryPicks(st.main, bucket, Decisions(cfg, fixed, m))
    ensures Faithful(r.1.cache, RatioOf(cfg, fixed, m))
    ensures r.1.main == st.main && r.1.mapper == AddMappings(st.mapper, r.0)
  {
    var (picks, cache) := EntryScan(cfg, fixed, st.main, st.cache, bucket, m);
    (picks, st.(cache := cache, mapper := AddMappings(st.mapper, picks)))
  }

  /** strategy_enter_position: the order's child is held for the base. */
  function EnterPcr(st: PcrState, base: Instrument, child: Instrument): (r: PcrState)
    ensures r.main == st.main[base := child] && r.cache == st.cache && r.mapper == st.mapper
  {
    st.(main := st.main[base := child])
  }

  /** The exit rule for one held base: a decision that picks a child of the
      other sentiment. */
  predicate Flips(cfg: PcrConfig, fixed: bool, m: Market, b: Instrument, held: Sentiment)
  {
    DecisionOf(cfg, fixed, m, b).Some? && DecisionOf(cfg, fixed, m, b).value.1 != held
  }

  /** A child of the bucket whose base is held. */
  predicate HeldBy(main: map<Instrument, Instrument>, mapper: map<Instrument, Instrument>, i: Instrument)
  {
    i in mapper && mapper[i] in main
  }

  /** A held base whose symbol the sentiment reader refuses. */
  predicate Unreadable(main: map<Instrument, Instrument>, mapper: map<Instrument, Instrument>,
                       sense: Instrument -> Result<Sentiment>, i: Instrument)
  {
    HeldBy(main, mapper, i) && sense(main[mapper[i]]).Err?
  }

  /** A held base whose sentiment the candle's decision reverses. */
  predicate ExitsOn(main: map<Instrument, Instrument>, mapper: map<Instrument, Instrument>,
                    decision: Instrument -> Option<(Instrument, Sentiment)>, sense: Instrument -> Result<Sentiment>,
                    i: Instrument)
  {
    HeldBy(main, mapper, i) && sense(main[mapper[i]]).Ok?
    && decision(mapper[i]).Some? && decision(mapper[i]).value.1 != sense(main[mapper[i]]).value
  }

  /** The (newly decided child, base) pair of every exiting child of the bucket. */
  function ExitSet(main: map<Instrument, Instrument>, mapper: map<Instrument, Instrument>, bucket: seq<Instrument>,
                   decision: Instrument -> Option<(Instrument, Sentiment)>, sense: Instrument -> Result<Sentiment>)
    : set<(Instrument, Instrument)>
  {
    set i | i in bucket && ExitsOn(main, mapper, decision, sense, i) :: (decision(mapper[i]).value.0, mapper[i])
  }

  /** The exits of one candle: for each child of a held base, the held
      symbol's sentiment (which raises on a symbol that is neither CE nor
      PE) is compared with this candle's decision; a flip selects the newly
      decided child with an 'EXIT' for the base, as (child, base). A
      neutral ratio keeps the position. Children the mapper does not know
      are passed over. */
  function ExitPicks(main: map<Instrument, Instrument>, mapper: map<Instrument, Instrument>, bucket: seq<Instrument>,
                     decision: Instrument -> Option<(Instrument, Sentiment)>, sense: Instrument -> Result<Sentiment>)
    : (r: Result<seq<(Instrument, Instrument)>>)
    ensures r.Err? <==> exists i :: i in bucket && Unreadable(main, mapper, sense, i)
    ensures r.Err? ==> exists i :: i in bucket && Unreadable(main, mapper, sense, i) && r.fault == sense(main[mapper[i]]).fault
    ensures r.Ok? ==> forall p :: p in r.value <==> p in ExitSet(main, mapper, bucket, decision, sense)
    decreases |bucket|
  {
    if |bucket| == 0 then Ok([])
    else
      var i := bucket[0];
      assert forall x :: x in bucket ==> x == i || x in bucket[1..];
      assert forall x :: x in bucket[1..] ==> x in bucket;
      ExitSetCons(main, mapper, bucket, decision, sense);
      if !HeldBy(main, mapper, i) then ExitPicks(main, mapper, bucket[1..], decision, sense)
      else
        var b := mapper[i];
        var held := sense(main[b]);
        if held.Err? then
          assert bucket[0] in bucket && Unreadable(main, mapper, sense, i);
          Err(held.fault)
        else
          var rest := ExitPicks(main, mapper, bucket[1..], decision, sense);
          if rest.Err? then rest
          else if decision(b).Some? && decision(b).value.1 != held.value then
            Ok([(decision(b).value.0, b)] + rest.value)
          else rest
  }

  /** The exit set of a bucket is its first child's exit, if any, and the
      exit set of the rest. */
  lemma ExitSetCons(main: map<Instrument, Instrument>, mapper: map<Instrument, Instrument>, bucket: seq<Instrument>,
                    decision: Instrument -> Option<(Instrument, Sentiment)>, sense: Instrument -> Result<Sentiment>)
    requires |bucket| > 0
    ensures var i := bucket[0];
            ExitSet(main, mapper, bucket, decision, sense)
            == (if ExitsOn(main, mapper, decision, sense, i) then {(decision(mapper[i]).value.0, mapper[i])} else {})
               + ExitSet(main, mapper, bucket[1..], decision, sense)
  {
    var i := bucket[0];
    var whole := ExitSet(main, mapper, bucket, decision, sense);
    var later := ExitSet(main, mapper, bucket[1..], decision, sense);
    var head: set<(Instrument, Instrument)> :=
      if ExitsOn(main, mapper, decision, sense, i) then {(decision(mapper[i]).value.0, mapper[i])} else {};
    forall p | p in whole ensures p in head + later {
      var x :| x in bucket && ExitsOn(main, mapper, decision, sense, x) && p == (decision(mapper[x]).value.0, mapper[x]);
      if x != i {
        assert x in bucket[1..];
      }
    }
    forall p | p in head + later ensures p in whole {
      if p !in head {
        var x :| x in bucket[1..] && ExitsOn(main, mapper, decision, sense, x) && p == (decision(mapper[x]).value.0, mapper[x]);
        assert x in bucket;
      }
    }
  }

  /** strategy_select_instruments_for_exit, with the ratio cache: the
      selection is `ExitPicks` (an 'EXIT' each) and the cache stays
      faithful. */
  function SelectPcrExit(cfg: PcrConfig, fixed: bool, st: PcrState, bucket: seq<Instrument>, m: Market)
    : (r: Result<(seq<(Instrument, Instrument)>, PcrState)>)
    requires Faithful(st.cache, RatioOf(cfg, fixed, m))
    ensures var picks := ExitPicks(st.main, st.mapper, bucket, Decisions(cfg, fixed, m), SentimentOf);
            (r.Ok? <==> picks.Ok?) && (r.Err? ==> r.fault == picks.fault) && (r.Ok? ==> r.value.0 == picks.value)
    ensures r.Err? ==> r.fault == NotImplemented
    ensures r.Ok? ==> Faithful(r.value.1.cache, RatioOf(cfg, fixed, m))
    ensures r.Ok? ==> r.value.1.main == st.main && r.value.1.mapper == st.mapper
    decreases |bucket|
  {
    if |bucket| == 0 then Ok(([], st))
    else
      var i := bucket[0];
      if i !in st.mapper || st.mapper[i] !in st.main then SelectPcrExit(cfg, fixed, st, bucket[1..], m)
      else
        var b := st.mapper[i];
        var held := SentimentOf(st.main[b]);
        if held.Err? then Err(held.fault)
        else
          var (ratio, cache) := Cached(st.cache, Key(b, m.candle), RatioOf(cfg, fixed, m));
          var d := Decide(cfg, ratio, m.chainOf(b));
          var rest := SelectPcrExit(cfg, fixed, st.(cache := cache), bucket[1..], m);
          if rest.Err? then rest
          else if d.Some? && d.value.1 != held.value then Ok(([(d.value.0, b)] + rest.value.0, rest.value.1))
          else rest
  }

  /** strategy_exit_position: 'EXIT' exits the base's order and forgets it
      (a base with no order raises KeyError); any other action changes
      nothing. */
  function ExitPcr(st: PcrState, base: Instrument, action: Action): (r: Result<(PcrState, bool)>)
    ensures action == Close && base !in st.main ==> r == Err(MissingKey)
    ensures action == Close && base in st.main ==> r == Ok((st.(main := st.main - {base}), true))
    ensures action != Close ==> r == Ok((st, false))
  {
    if action != Close then Ok((st, false))
    else if base !in st.main then Err(MissingKey)
    else Ok((st.(main := st.main - {base}), true))
  }

  /** A sentiment flip reverses the position within one candle: the exit
      scan selects the base, the exit forgets it, and the entry scan then
      buys the newly decided child. */
  lemma FlipReverses(cfg: PcrConfig, fixed: bool, st: PcrState, i: Instrument, m: Market)
    requires Faithful(st.cache, RatioOf(cfg, fixed, m))
    requires i in st.mapper && st.mapper[i] in st.main
    requires SentimentOf(st.main[st.mapper[i]]).Ok?
    requires Flips(cfg, fixed, m, st.mapper[i], SentimentOf(st.main[st.mapper[i]]).value)
    ensures var b := st.mapper[i];
            var x := SelectPcrExit(cfg, fixed, st, [i], m);
            x.Ok? && x.value.0 == [(DecisionOf(cfg, fixed, m, b).value.0, b)]
            && var after := ExitPcr(x.value.1, b, Close);
            after.Ok? && after.value.1
            && SelectPcrEntry(cfg, fixed, after.value.0, [b], m).0 == x.value.0
  {
    var b := st.mapper[i];
    var x := SelectPcrExit(cfg, fixed, st, [i], m);
    assert [i][1..] == [];
    var after := ExitPcr(x.value.1, b, Close);
    assert [b][1..] == [];
  }

  /** A decision of the held sentiment, or none, keeps the position. */
  lemma SameSentimentHolds(cfg: PcrConfig, fixed: bool, st: PcrState, i: Instrument, m: Market)
    requires Faithful(st.cache, RatioOf(cfg, fixed, m))
    requires i in st.mapper && st.mapper[i] in st.main
    requires SentimentOf(st.main[st.mapper[i]]).Ok?
    requires !Flips(cfg, fixed, m, st.mapper[i], SentimentOf(st.main[st.mapper[i]]).value)
    ensures SelectPcrExit(cfg, fixed, st, [i], m) == Ok(([], SelectPcrExit(cfg, fixed, st, [i], m).value.1))
  {
    assert [i][1..] == [];
  }
}
