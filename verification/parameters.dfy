/** The parameter checks the strategies run once, in their constructors.

    A single-file strategy first reads each of its parameters with
    `self.strategy_parameters[key]` (a missing key raises KeyError) and then
    asserts, one after another, that every period is a positive whole
    number, every stop or target trigger lies strictly between 0 and 1 and
    a trailing stop-loss factor is positive; a failed assert stops the
    constructor. The options strategies count the dictionary's entries and
    call `check_argument` on each value instead. */
module Parameters {
  import opened Common
  import opened OrderPrices
  import opened OpeningRange
  import opened SpreadLevels
  import opened Breach
  import opened CallButterfly

  /** A parameter value as the YAML loader delivers it: a Python int or float. */
  datatype Number = Int(i: int) | Float(x: real)

  function Value(n: Number): real
  {
    match n
    case Int(i) => i as real
    case Float(x) => x
  }

  /** Python's `int()` of a number: truncation toward zero. */
  function Trunc(x: real): (t: int)
    ensures 0.0 <= x ==> 0 <= t && t as real <= x < t as real + 1.0
    ensures x < 0.0 ==> t <= 0 && t as real - 1.0 < x <= t as real
  {
    if 0.0 <= x then x.Floor else -((-x).Floor)
  }

  /** `0 < v == int(v)`: Python chains the two comparisons, so the value is
      positive and equal to its own truncation. */
  predicate PositiveWhole(n: Number)
  {
    0.0 < Value(n) && Value(n) == Trunc(Value(n)) as real
  }

  /** A value passes the period assert exactly when it is some positive
      integer, whether it arrives as an int or as a float. */
  lemma PositiveWholeIsPositiveInteger(n: Number)
    ensures PositiveWhole(n) <==> 0.0 < Value(n) && Value(n).Floor as real == Value(n)
  {
    if 0.0 <= Value(n) {
      assert Trunc(Value(n)) == Value(n).Floor;
    }
  }

  // ---------------------------------------------------------------------
  // The single-file strategies: reads, then asserts

  /** What a constructor asserts of one parameter. */
  datatype Rule =
    | Period      // `0 < v == int(v)`
    | Trigger     // `0 < v < 1`
    | Positive    // `0 < v`

  predicate Passes(rule: Rule, n: Number)
  {
    match rule
    case Period => PositiveWhole(n)
    case Trigger => Fraction(Value(n))
    case Positive => 0.0 < Value(n)
  }

  /** The reads `self.strategy_parameters[key]`, in order: the first missing
      key raises KeyError, otherwise the values come back in key order. */
  function Fetch(params: map<string, Number>, keys: seq<string>): (r: Result<seq<Number>>)
    ensures r.Ok? <==> forall k :: 0 <= k < |keys| ==> keys[k] in params
    ensures r.Err? ==> r.fault == MissingKey
    ensures r.Ok? ==> |r.value| == |keys| && forall k :: 0 <= k < |keys| ==> r.value[k] == params[keys[k]]
  {
    if keys == [] then Ok([])
    else if keys[0] !in params then Err(MissingKey)
    else
      var rest := Fetch(params, keys[1..]);
      if rest.Err? then rest else Ok([params[keys[0]]] + rest.value)
  }

  /** The asserts, in order: the first that fails stops the constructor,
      otherwise every value is kept. */
  function Asserts(rules: seq<Rule>, vals: seq<Number>): (r: Result<seq<real>>)
    requires |rules| == |vals|
    ensures r.Ok? <==> forall k :: 0 <= k < |rules| ==> Passes(rules[k], vals[k])
    ensures r.Err? ==> r.fault == InvalidArgument
    ensures r.Ok? ==> |r.value| == |vals| && forall k :: 0 <= k < |vals| ==> r.value[k] == Value(vals[k])
  {
    if rules == [] then Ok([])
    else if !Passes(rules[0], vals[0]) then Err(InvalidArgument)
    else
      var rest := Asserts(rules[1..], vals[1..]);
      if rest.Err? then rest else Ok([Value(vals[0])] + rest.value)
  }

  /** One parameter of a constructor: its key and what is asserted of it. */
  datatype Param = Param(key: string, rule: Rule)

  /** A single-file strategy's constructor: every key is read before any
      assert runs, so a missing key wins over a bad value. */
  function Construct(params: map<string, Number>, schema: seq<Param>): (r: Result<seq<real>>)
    ensures r.Ok? <==> forall k :: 0 <= k < |schema| ==>
                         schema[k].key in params && Passes(schema[k].rule, params[schema[k].key])
    ensures forall k :: 0 <= k < |schema| && schema[k].key !in params ==> r == Err(MissingKey)
    ensures (forall k :: 0 <= k < |schema| ==> schema[k].key in params) && r.Err? ==> r.fault == InvalidArgument
    ensures r.Ok? ==> |r.value| == |schema|
                      && forall k :: 0 <= k < |schema| ==> r.value[k] == Value(params[schema[k].key])
  {
    var keys := seq(|schema|, k requires 0 <= k < |schema| => schema[k].key);
    var rules := seq(|schema|, k requires 0 <= k < |schema| => schema[k].rule);
    assert forall k :: 0 <= k < |schema| ==> keys[k] == schema[k].key && rules[k] == schema[k].rule;
    var vals := Fetch(params, keys);
    if vals.Err? then Err(MissingKey) else Asserts(rules, vals.value)
  }

  /** The schemas of the single-file strategies the typed constructors below
      do not spell out. */
  const InverseEmaSchema := [Param("LARGER_TIME_PERIOD", Period), Param("SMALLER_TIME_PERIOD", Period)]
  const MacdSchema := [Param("FASTMA_PERIOD", Period), Param("SLOWMA_PERIOD", Period), Param("SIGNAL_PERIOD", Period)]
  const AroonCoverSchema := [Param("TIME_PERIOD", Period), Param("STOPLOSS_TRIGGER", Trigger)]
  const BandsCoverSchema := [Param("TIME_PERIOD", Period), Param("STANDARD_DEVIATIONS", Period),
                             Param("STOPLOSS_TRIGGER", Trigger)]
  const SmaBracketSchema := [Param("TIMEPERIOD1", Period), Param("TIMEPERIOD2", Period),
                             Param("STOPLOSS_TRIGGER", Trigger), Param("TARGET_TRIGGER", Trigger),
                             Param("TRAILING_STOPLOSS_TRIGGER", Positive)]

  datatype BandsConfig = BandsConfig(timePeriod: int, stdDevs: int)

  const BandsSchema := [Param("TIME_PERIOD", Period), Param("STANDARD_DEVIATIONS", Period)]

  /** The Bollinger-band constructors: a time period and a number of
      standard deviations, both positive whole numbers. */
  function BandsParams(params: map<string, Number>): (r: Result<BandsConfig>)
    ensures r.Ok? <==> "TIME_PERIOD" in params && "STANDARD_DEVIATIONS" in params
                       && PositiveWhole(params["TIME_PERIOD"]) && PositiveWhole(params["STANDARD_DEVIATIONS"])
    ensures "TIME_PERIOD" !in params || "STANDARD_DEVIATIONS" !in params ==> r == Err(MissingKey)
    ensures r.Err? && "TIME_PERIOD" in params && "STANDARD_DEVIATIONS" in params ==> r.fault == InvalidArgument
    ensures r.Ok? ==> 0 < r.value.timePeriod && 0 < r.value.stdDevs
                      && r.value.timePeriod as real == Value(params["TIME_PERIOD"])
                      && r.value.stdDevs as real == Value(params["STANDARD_DEVIATIONS"])
  {
    assert BandsSchema[0].key == "TIME_PERIOD" && BandsSchema[1].key == "STANDARD_DEVIATIONS";
    var v := Construct(params, BandsSchema);
    if v.Err? then Err(v.fault)
    else
      assert Passes(BandsSchema[0].rule, params[BandsSchema[0].key]);
      assert Passes(BandsSchema[1].rule, params[BandsSchema[1].key]);
      Ok(BandsConfig(Trunc(v.value[0]), Trunc(v.value[1])))
  }

  const BandsBracketSchema := BandsSchema + [Param("STOPLOSS_TRIGGER", Trigger), Param("TARGET_TRIGGER", Trigger),
                                             Param("TRAILING_STOPLOSS_TRIGGER", Positive)]

  predicate HasBandsBracketKeys(params: map<string, Number>)
  {
    "TIME_PERIOD" in params && "STANDARD_DEVIATIONS" in params && "STOPLOSS_TRIGGER" in params
    && "TARGET_TRIGGER" in params && "TRAILING_STOPLOSS_TRIGGER" in params
  }

  /** The Bollinger-band and Williams %R bracket-order constructors: the two
      band periods, then the bracket's stop and target fractions and its
      positive trailing factor. */
  function BandsBracketParams(params: map<string, Number>): (r: Result<(BandsConfig, BracketConfig)>)
    ensures r.Ok? <==> HasBandsBracketKeys(params)
                       && PositiveWhole(params["TIME_PERIOD"]) && PositiveWhole(params["STANDARD_DEVIATIONS"])
                       && BracketParams(Value(params["STOPLOSS_TRIGGER"]), Value(params["TARGET_TRIGGER"]),
                                        Value(params["TRAILING_STOPLOSS_TRIGGER"])).Ok?
    ensures !HasBandsBracketKeys(params) ==> r == Err(MissingKey)
    ensures r.Ok? ==> r.value.0 == BandsParams(params).value
                      && r.value.1 == BracketConfig(Value(params["STOPLOSS_TRIGGER"]), Value(params["TARGET_TRIGGER"]),
                                                    Value(params["TRAILING_STOPLOSS_TRIGGER"]))
  {
    assert BandsBracketSchema[0].key == "TIME_PERIOD" && BandsBracketSchema[1].key == "STANDARD_DEVIATIONS"
           && BandsBracketSchema[2].key == "STOPLOSS_TRIGGER" && BandsBracketSchema[3].key == "TARGET_TRIGGER"
           && BandsBracketSchema[4].key == "TRAILING_STOPLOSS_TRIGGER";
    var v := Construct(params, BandsBracketSchema);
    if v.Err? then Err(v.fault)
    else
      assert Passes(BandsBracketSchema[0].rule, params[BandsBracketSchema[0].key]);
      assert Passes(BandsBracketSchema[1].rule, params[BandsBracketSchema[1].key]);
      Ok((BandsConfig(Trunc(v.value[0]), Trunc(v.value[1])), BracketConfig(v.value[2], v.value[3], v.value[4])))
  }

  datatype EmaConfig = EmaConfig(period1: int, period2: int)

  const EmaSchema := [Param("TIMEPERIOD1", Period), Param("TIMEPERIOD2", Period)]

  /** The EMA crossover constructor: two positive whole periods. */
  function EmaParams(params: map<string, Number>): (r: Result<EmaConfig>)
    ensures r.Ok? <==> "TIMEPERIOD1" in params && "TIMEPERIOD2" in params
                       && PositiveWhole(params["TIMEPERIOD1"]) && PositiveWhole(params["TIMEPERIOD2"])
    ensures "TIMEPERIOD1" !in params || "TIMEPERIOD2" !in params ==> r == Err(MissingKey)
    ensures r.Err? && "TIMEPERIOD1" in params && "TIMEPERIOD2" in params ==> r.fault == InvalidArgument
    ensures r.Ok? ==> r.value.period1 as real == Value(params["TIMEPERIOD1"])
                      && r.value.period2 as real == Value(params["TIMEPERIOD2"])
  {
    assert EmaSchema[0].key == "TIMEPERIOD1" && EmaSchema[1].key == "TIMEPERIOD2";
    var v := Construct(params, EmaSchema);
    if v.Err? then Err(v.fault)
    else
      assert Passes(EmaSchema[0].rule, params[EmaSchema[0].key]);
      assert Passes(EmaSchema[1].rule, params[EmaSchema[1].key]);
      Ok(EmaConfig(Trunc(v.value[0]), Trunc(v.value[1])))
  }

  const AroonSchema := [Param("TIME_PERIOD", Period)]

  /** The Aroon crossover constructor: one positive whole period. */
  function AroonParams(params: map<string, Number>): (r: Result<int>)
    ensures r.Ok? <==> "TIME_PERIOD" in params && PositiveWhole(params["TIME_PERIOD"])
    ensures "TIME_PERIOD" !in params ==> r == Err(MissingKey)
    ensures r.Err? && "TIME_PERIOD" in params ==> r.fault == InvalidArgument
    ensures r.Ok? ==> 0 < r.value && r.value as real == Value(params["TIME_PERIOD"])
  {
    assert AroonSchema[0].key == "TIME_PERIOD";
    var v := Construct(params, AroonSchema);
    if v.Err? then Err(v.fault)
    else
      assert Passes(AroonSchema[0].rule, params[AroonSchema[0].key]);
      Ok(Trunc(v.value[0]))
  }

  datatype StochasticConfig = StochasticConfig(fastk: int, slowk: int, slowd: int)

  const StochasticSchema := [Param("FASTK_PERIOD", Period), Param("SLOWK_PERIOD", Period), Param("SLOWD_PERIOD", Period)]

  /** The stochastic crossover constructor: three positive whole periods. */
  function StochasticParams(params: map<string, Number>): (r: Result<StochasticConfig>)
    ensures r.Ok? <==> "FASTK_PERIOD" in params && "SLOWK_PERIOD" in params && "SLOWD_PERIOD" in params
                       && PositiveWhole(params["FASTK_PERIOD"]) && PositiveWhole(params["SLOWK_PERIOD"])
                       && PositiveWhole(params["SLOWD_PERIOD"])
    ensures "FASTK_PERIOD" !in params || "SLOWK_PERIOD" !in params || "SLOWD_PERIOD" !in params ==> r == Err(MissingKey)
    ensures r.Ok? ==> r.value.fastk as real == Value(params["FASTK_PERIOD"])
                      && r.value.slowk as real == Value(params["SLOWK_PERIOD"])
                      && r.value.slowd as real == Value(params["SLOWD_PERIOD"])
  {
    assert StochasticSchema[0].key == "FASTK_PERIOD" && StochasticSchema[1].key == "SLOWK_PERIOD"
           && StochasticSchema[2].key == "SLOWD_PERIOD";
    var v := Construct(params, StochasticSchema);
    if v.Err? then Err(v.fault)
    else
      assert Passes(StochasticSchema[0].rule, params[StochasticSchema[0].key]);
      assert Passes(StochasticSchema[1].rule, params[StochasticSchema[1].key]);
      assert Passes(StochasticSchema[2].rule, params[StochasticSchema[2].key]);
      Ok(StochasticConfig(Trunc(v.value[0]), Trunc(v.value[1]), Trunc(v.value[2])))
  }

  datatype HeikinAshiConfig = HeikinAshiConfig(buyPoints: int, sellPoints: int, smaPeriod: int)

  const HeikinAshiSchema := [Param("PROFIT_BOOKING_BUY_POINTS", Period), Param("PROFIT_BOOKING_SELL_POINTS", Period),
                             Param("SMA_PERIOD", Period)]

  /** The SMA Heikin-Ashi constructor: the two profit-booking distances and
      the SMA period, all positive whole numbers. */
  function HeikinAshiParams(params: map<string, Number>): (r: Result<HeikinAshiConfig>)
    ensures r.Ok? <==> "PROFIT_BOOKING_BUY_POINTS" in params && "PROFIT_BOOKING_SELL_POINTS" in params
                       && "SMA_PERIOD" in params
                       && PositiveWhole(params["PROFIT_BOOKING_BUY_POINTS"])
                       && PositiveWhole(params["PROFIT_BOOKING_SELL_POINTS"])
                       && PositiveWhole(params["SMA_PERIOD"])
    ensures ("PROFIT_BOOKING_BUY_POINTS" !in params || "PROFIT_BOOKING_SELL_POINTS" !in params
             || "SMA_PERIOD" !in params) ==> r == Err(MissingKey)
    ensures r.Ok? ==> 0 < r.value.buyPoints && 0 < r.value.sellPoints && 0 < r.value.smaPeriod
                      && r.value.buyPoints as real == Value(params["PROFIT_BOOKING_BUY_POINTS"])
                      && r.value.sellPoints as real == Value(params["PROFIT_BOOKING_SELL_POINTS"])
                      && r.value.smaPeriod as real == Value(params["SMA_PERIOD"])
  {
    assert HeikinAshiSchema[0].key == "PROFIT_BOOKING_BUY_POINTS" && HeikinAshiSchema[1].key == "PROFIT_BOOKING_SELL_POINTS"
           && HeikinAshiSchema[2].key == "SMA_PERIOD";
    var v := Construct(params, HeikinAshiSchema);
    if v.Err? then Err(v.fault)
    else
      assert Passes(HeikinAshiSchema[0].rule, params[HeikinAshiSchema[0].key]);
      assert Passes(HeikinAshiSchema[1].rule, params[HeikinAshiSchema[1].key]);
      assert Passes(HeikinAshiSchema[2].rule, params[HeikinAshiSchema[2].key]);
      Ok(HeikinAshiConfig(Trunc(v.value[0]), Trunc(v.value[1]), Trunc(v.value[2])))
  }

  datatype RsiCoverConfig = RsiCoverConfig(timePeriod: int, overbought: int, oversold: int, stoploss: real)

  const RsiCoverSchema := [Param("TIME_PERIOD", Period), Param("OVERBOUGHT_VALUE", Period),
                           Param("OVERSOLD_VALUE", Period), Param("STOPLOSS_TRIGGER", Trigger)]

  predicate HasRsiCoverKeys(params: map<string, Number>)
  {
    "TIME_PERIOD" in params && "OVERBOUGHT_VALUE" in params && "OVERSOLD_VALUE" in params
    && "STOPLOSS_TRIGGER" in params
  }

  /** The reverse-RSI cover-order constructor: the RSI period and both
      thresholds are positive whole numbers, the stop a cover-order fraction. */
  function RsiCoverParams(params: map<string, Number>): (r: Result<RsiCoverConfig>)
    ensures r.Ok? <==> HasRsiCoverKeys(params)
                       && PositiveWhole(params["TIME_PERIOD"]) && PositiveWhole(params["OVERBOUGHT_VALUE"])
                       && PositiveWhole(params["OVERSOLD_VALUE"])
                       && CoverParams(Value(params["STOPLOSS_TRIGGER"])).Ok?
    ensures !HasRsiCoverKeys(params) ==> r == Err(MissingKey)
    ensures r.Ok? ==> r.value.timePeriod as real == Value(params["TIME_PERIOD"])
                      && r.value.overbought as real == Value(params["OVERBOUGHT_VALUE"])
                      && r.value.oversold as real == Value(params["OVERSOLD_VALUE"])
                      && r.value.stoploss == Value(params["STOPLOSS_TRIGGER"])
  {
    assert RsiCoverSchema[0].key == "TIME_PERIOD" && RsiCoverSchema[1].key == "OVERBOUGHT_VALUE"
           && RsiCoverSchema[2].key == "OVERSOLD_VALUE" && RsiCoverSchema[3].key == "STOPLOSS_TRIGGER";
    var v := Construct(params, RsiCoverSchema);
    if v.Err? then Err(v.fault)
    else
      assert Passes(RsiCoverSchema[0].rule, params[RsiCoverSchema[0].key]);
      assert Passes(RsiCoverSchema[1].rule, params[RsiCoverSchema[1].key]);
      assert Passes(RsiCoverSchema[2].rule, params[RsiCoverSchema[2].key]);
      Ok(RsiCoverConfig(Trunc(v.value[0]), Trunc(v.value[1]), Trunc(v.value[2]), v.value[3]))
  }

  /** A float period with no fractional part passes the assert as its
      integer; one with a fractional part, or zero, is refused; a missing
      key is reported before any assert runs. */
  lemma FloatPeriods()
    ensures BandsParams(map["TIME_PERIOD" := Float(20.0), "STANDARD_DEVIATIONS" := Int(2)]) == Ok(BandsConfig(20, 2))
    ensures BandsParams(map["TIME_PERIOD" := Float(20.5), "STANDARD_DEVIATIONS" := Int(2)]) == Err(InvalidArgument)
    ensures BandsParams(map["TIME_PERIOD" := Int(0), "STANDARD_DEVIATIONS" := Int(2)]) == Err(InvalidArgument)
    ensures BandsParams(map["TIME_PERIOD" := Int(0)]) == Err(MissingKey)
  {
    var good := map["TIME_PERIOD" := Float(20.0), "STANDARD_DEVIATIONS" := Int(2)];
    assert Trunc(20.0) == 20;
    assert PositiveWhole(good["TIME_PERIOD"]) && PositiveWhole(good["STANDARD_DEVIATIONS"]);
    var half := map["TIME_PERIOD" := Float(20.5), "STANDARD_DEVIATIONS" := Int(2)];
    assert Trunc(20.5) == 20;
    assert !PositiveWhole(half["TIME_PERIOD"]);
  }

  // ---------------------------------------------------------------------
  // The options spreads: `check_argument` after counting the entries

  /** `is_positive_int`, `is_positive_int_or_float` and
      `is_nonnegative_int_or_float`, read by their names. */
  predicate PositiveInt(n: Number)
  {
    n.Int? && 0 < n.i
  }

  predicate PositiveNumber(n: Number)
  {
    0.0 < Value(n)
  }

  predicate NonNegative(n: Number)
  {
    0.0 <= Value(n)
  }

  predicate DistinctKeys(keys: seq<string>)
  {
    forall i, j :: 0 <= i < j < |keys| ==> keys[i] != keys[j]
  }

  /** A dictionary holding distinct keys has at least as many entries. */
  lemma {:induction false} KeysCounted(params: map<string, Number>, keys: seq<string>)
    requires DistinctKeys(keys)
    requires forall k :: 0 <= k < |keys| ==> keys[k] in params
    ensures |keys| <= |params|
  {
    if keys != [] {
      var rest := params - {keys[0]};
      assert rest.Keys == params.Keys - {keys[0]};
      assert forall k :: 0 <= k < |keys[1..]| ==> keys[1..][k] in rest by {
        forall k | 0 <= k < |keys[1..]|
          ensures keys[1..][k] in rest
        {
          assert keys[1..][k] == keys[k + 1] && keys[k + 1] != keys[0];
        }
      }
      KeysCounted(rest, keys[1..]);
      assert |rest.Keys| == |params.Keys| - 1;
    }
  }

  const StrikesKey := "NUMBER_OF_OTM_STRIKES_SELL_LEG"
  const StoplossKey := "STOPLOSS_PERCENTAGE"
  const TargetKey := "TARGET_PERCENTAGE"
  const TrailingKey := "TRAILING_STOPLOSS_PERCENTAGE"
  const ReentryKey := "RE_ENTRY_LIMIT"

  const TargetStopsKeys := [StrikesKey, StoplossKey, TargetKey, TrailingKey, ReentryKey]

  predicate HasTargetStopsKeys(params: map<string, Number>)
  {
    StrikesKey in params && StoplossKey in params && TargetKey in params && TrailingKey in params
    && ReentryKey in params
  }

  datatype TargetStopsConfig = TargetStopsConfig(strikes: int, pcts: TargetPcts, reentries: int)

  /** The bull call spread with target, stops and re-entry: the five
      parameters are read with `[]` in the constructor, then
      `validate_parameters` asks for at least five entries, exactly one
      allowed expiry date (else the strategy stops), a positive integer
      re-entry limit and strike count, and non-negative percentages. Since
      the five keys were already read, the entry count never rejects. */
  function TargetStopsParams(params: map<string, Number>, expiries: int): (r: Result<TargetStopsConfig>)
    ensures r.Ok? <==> HasTargetStopsKeys(params) && expiries == 1
                       && PositiveInt(params[ReentryKey]) && PositiveInt(params[StrikesKey])
                       && NonNegative(params[TargetKey]) && NonNegative(params[StoplossKey])
                       && NonNegative(params[TrailingKey])
    ensures !HasTargetStopsKeys(params) ==> r == Err(MissingKey)
    ensures HasTargetStopsKeys(params) && expiries != 1 ==> r == Err(SystemExit)
    ensures r.Ok? ==> r.value == TargetStopsConfig(params[StrikesKey].i,
                                                   TargetPcts(Value(params[StoplossKey]), Value(params[TargetKey]),
                                                              Value(params[TrailingKey])),
                                                   params[ReentryKey].i)
  {
    assert TargetStopsKeys[0] == StrikesKey && TargetStopsKeys[1] == StoplossKey && TargetStopsKeys[2] == TargetKey
           && TargetStopsKeys[3] == TrailingKey && TargetStopsKeys[4] == ReentryKey;
    var vals := Fetch(params, TargetStopsKeys);
    if vals.Err? then Err(MissingKey)
    else if |params| < 5 then
      KeysCounted(params, TargetStopsKeys);
      Err(InvalidArgument)
    else if expiries != 1 then Err(SystemExit)
    else if !PositiveInt(params[ReentryKey]) || !PositiveInt(params[StrikesKey]) then Err(InvalidArgument)
    else if !NonNegative(params[TargetKey]) || !NonNegative(params[StoplossKey]) || !NonNegative(params[TrailingKey]) then
      Err(InvalidArgument)
    else
      Ok(TargetStopsConfig(params[StrikesKey].i,
                           TargetPcts(Value(params[StoplossKey]), Value(params[TargetKey]), Value(params[TrailingKey])),
                           params[ReentryKey].i))
  }

  /** `dict.get(key, default)`. */
  function Get(params: map<string, Number>, key: string, default: Number): (n: Number)
    ensures key in params ==> n == params[key]
    ensures key !in params ==> n == default
  {
    if key in params then params[key] else default
  }

  datatype DiagonalConfig = DiagonalConfig(strikes: int, reentries: int, pcts: DiagPcts)

  /** The long call diagonal spread: each parameter falls back to its
      default (4 strikes, 4 re-entries, 15% stop-loss, 20% trailing stop),
      but `validate_parameters` still asks for at least four entries in the
      dictionary, then a positive integer re-entry limit and strike count
      and non-negative percentages. */
  function DiagonalParams(params: map<string, Number>): (r: Result<DiagonalConfig>)
    ensures |params| < 4 ==> r == Err(InvalidArgument)
    ensures r.Err? ==> r.fault == InvalidArgument
    ensures r.Ok? ==> 0 < r.value.strikes && 0 < r.value.reentries
                      && 0.0 <= r.value.pcts.sl && 0.0 <= r.value.pcts.tsl
    ensures StrikesKey !in params && ReentryKey !in params && StoplossKey !in params && TrailingKey !in params
            ==> (r.Ok? <==> 4 <= |params|) && (r.Ok? ==> r.value == DiagonalConfig(4, 4, DiagPcts(15.0, 20.0)))
    ensures StrikesKey in params && ReentryKey in params && StoplossKey in params && TrailingKey in params
            ==> (r.Ok? <==> PositiveInt(params[ReentryKey]) && PositiveInt(params[StrikesKey])
                            && NonNegative(params[StoplossKey]) && NonNegative(params[TrailingKey]))
  {
    var strikes := Get(params, StrikesKey, Int(4));
    var reentries := Get(params, ReentryKey, Int(4));
    var sl := Get(params, StoplossKey, Int(15));
    var tsl := Get(params, TrailingKey, Int(20));
    assert StrikesKey in params && ReentryKey in params && StoplossKey in params && TrailingKey in params
           ==> 4 <= |params| by {
      if StrikesKey in params && ReentryKey in params && StoplossKey in params && TrailingKey in params {
        KeysCounted(params, [StrikesKey, ReentryKey, StoplossKey, TrailingKey]);
      }
    }
    if |params| < 4 then Err(InvalidArgument)
    else if !PositiveInt(reentries) || !PositiveInt(strikes) then Err(InvalidArgument)
    else if !NonNegative(sl) || !NonNegative(tsl) then Err(InvalidArgument)
    else Ok(DiagonalConfig(strikes.i, reentries.i, DiagPcts(Value(sl), Value(tsl))))
  }

  /** The defaults alone never pass: an empty dictionary is refused, while
      the same four values written out are accepted. */
  lemma DiagonalDefaultsNeedEntries()
    ensures DiagonalParams(map[]) == Err(InvalidArgument)
    ensures DiagonalParams(map[StrikesKey := Int(4), ReentryKey := Int(4), StoplossKey := Int(15), TrailingKey := Int(20)])
            == Ok(DiagonalConfig(4, 4, DiagPcts(15.0, 20.0)))
  {
    var full := map[StrikesKey := Int(4), ReentryKey := Int(4), StoplossKey := Int(15), TrailingKey := Int(20)];
    KeysCounted(full, [StrikesKey, ReentryKey, StoplossKey, TrailingKey]);
  }

  // ---------------------------------------------------------------------
  // The OTM short straddle with regular orders

  /** `datetime.MINYEAR`..`MAXYEAR` and the Gregorian month lengths. */
  function DaysIn(year: int, month: int): int
  {
    if month == 2 then (if year % 4 == 0 && (year % 100 != 0 || year % 400 == 0) then 29 else 28)
    else if month == 4 || month == 6 || month == 9 || month == 11 then 30
    else 31
  }

  /** What `datetime(year, month, day)` accepts. */
  predicate ValidDate(year: int, month: int, day: int)
  {
    1 <= year <= 9999 && 1 <= month <= 12 && 1 <= day <= DaysIn(year, month)
  }

  datatype Date = Date(year: int, month: int, day: int)

  datatype OtmConfig = OtmConfig(expiry: Date, stoplossPoints: real, profitDesired: Number, start: TimeOfDay)

  const DayKey := "INSTRUMENT_EXPIRY_DAY"
  const MonthKey := "INSTRUMENT_EXPIRY_MONTH"
  const YearKey := "INSTRUMENT_EXPIRY_YEAR"
  const PointsKey := "STOPLOSS_POINTS"
  const ProfitKey := "PROFIT_DESIRED"
  const HoursKey := "USER_DEFINED_CANDLE_START_TIME_HOURS"
  const MinutesKey := "USER_DEFINED_CANDLE_START_TIME_MINUTES"

  const OtmKeys := [DayKey, MonthKey, YearKey, PointsKey, ProfitKey, HoursKey, MinutesKey]

  predicate HasOtmKeys(params: map<string, Number>)
  {
    DayKey in params && MonthKey in params && YearKey in params && PointsKey in params
    && ProfitKey in params && HoursKey in params && MinutesKey in params
  }

  /** Every value the constructor checks with `check_argument` passes. */
  predicate OtmArguments(params: map<string, Number>)
    requires HasOtmKeys(params)
  {
    PositiveInt(params[DayKey]) && PositiveInt(params[MonthKey]) && PositiveInt(params[YearKey])
    && PositiveNumber(params[PointsKey]) && PositiveInt(params[HoursKey]) && PositiveInt(params[MinutesKey])
  }

  /** The OTM straddle's constructor: at least six entries, then the seven
      reads, then the argument checks, then the expiry date and the start
      time are built, a date or a time that does not exist stopping the
      strategy. Seven keys are read, so a dictionary of six is never
      accepted, and the minute must be positive, so a start on the hour is
      refused. */
  function OtmParams(params: map<string, Number>): (r: Result<OtmConfig>)
    ensures |params| < 6 ==> r == Err(InvalidArgument)
    ensures 6 <= |params| && !HasOtmKeys(params) ==> r == Err(MissingKey)
    ensures r.Ok? <==> HasOtmKeys(params) && OtmArguments(params)
                       && ValidDate(params[YearKey].i, params[MonthKey].i, params[DayKey].i)
                       && params[HoursKey].i <= 23 && params[MinutesKey].i <= 59
    ensures r == Err(SystemExit) ==> HasOtmKeys(params) && OtmArguments(params)
    ensures HasOtmKeys(params) && r.Err? ==> (r.fault == InvalidArgument <==> !OtmArguments(params))
    ensures r.Ok? ==> 7 <= |params|
                      && r.value == OtmConfig(Date(params[YearKey].i, params[MonthKey].i, params[DayKey].i),
                                              Value(params[PointsKey]), params[ProfitKey],
                                              TimeOfDay(params[HoursKey].i, params[MinutesKey].i, 0))
  {
    assert OtmKeys[0] == DayKey && OtmKeys[1] == MonthKey && OtmKeys[2] == YearKey && OtmKeys[3] == PointsKey
           && OtmKeys[4] == ProfitKey && OtmKeys[5] == HoursKey && OtmKeys[6] == MinutesKey;
    assert HasOtmKeys(params) ==> 7 <= |params| by {
      if HasOtmKeys(params) {
        KeysCounted(params, OtmKeys);
      }
    }
    if |params| < 6 then Err(InvalidArgument)
    else
      var vals := Fetch(params, OtmKeys);
      if vals.Err? then Err(MissingKey)
      else if !OtmArguments(params) then Err(InvalidArgument)
      else if !ValidDate(params[YearKey].i, params[MonthKey].i, params[DayKey].i) then Err(SystemExit)
      else
        var start := StartTime(params[HoursKey].i, params[MinutesKey].i);
        if start.Err? then Err(SystemExit)
        else
          Ok(OtmConfig(Date(params[YearKey].i, params[MonthKey].i, params[DayKey].i),
                       Value(params[PointsKey]), params[ProfitKey], start.value))
  }

  /** A dictionary with every key whose start minute is 0 is refused as a
      bad argument, whatever else it holds. */
  lemma OnTheHourRefused(params: map<string, Number>)
    requires HasOtmKeys(params)
    requires params[MinutesKey] == Int(0)
    ensures OtmParams(params) == Err(InvalidArgument)
  {
    KeysCounted(params, OtmKeys);
  }

  // ---------------------------------------------------------------------
  // The bull call spreads with a trailing stop-loss and re-entry

  /** Which of the two trailing-stop bull call spreads: they read the
      strike count and the re-entry limit under different keys. */
  datatype TrailingSpread = WithStoploss | WithTrailingReentry

  function StrikesKeyOf(spread: TrailingSpread): string
  {
    match spread
    case WithStoploss => "NUMBER_OF_OTM_STRIKES_SELL_CALL_LEG"
    case WithTrailingReentry => StrikesKey
  }

  function ReentryKeyOf(spread: TrailingSpread): string
  {
    match spread
    case WithStoploss => "RE_ENTRY_COUNT"
    case WithTrailingReentry => ReentryKey
  }

  predicate HasTrailingKeys(spread: TrailingSpread, params: map<string, Number>)
  {
    StrikesKeyOf(spread) in params && TrailingKey in params && ReentryKeyOf(spread) in params
  }

  /** The strike count is kept as given: no check is made of it. */
  datatype TrailingConfig = TrailingConfig(strikes: Number, tslPct: real, reentries: Number)

  /** Both spreads read their three parameters with `[]`, then
      `validate_parameters` asks for at least two entries, exactly one
      allowed expiry date (else the strategy stops) and a non-negative
      re-entry limit and trailing percentage. Since three keys were already
      read, the entry count never rejects. */
  function TrailingSpreadParams(spread: TrailingSpread, params: map<string, Number>, expiries: int)
    : (r: Result<TrailingConfig>)
    ensures r.Ok? <==> HasTrailingKeys(spread, params) && expiries == 1
                       && NonNegative(params[ReentryKeyOf(spread)]) && NonNegative(params[TrailingKey])
    ensures !HasTrailingKeys(spread, params) ==> r == Err(MissingKey)
    ensures HasTrailingKeys(spread, params) && expiries != 1 ==> r == Err(SystemExit)
    ensures r.Err? && r.fault == InvalidArgument ==> HasTrailingKeys(spread, params) && expiries == 1
    ensures r.Ok? ==> r.value == TrailingConfig(params[StrikesKeyOf(spread)], Value(params[TrailingKey]),
                                                params[ReentryKeyOf(spread)])
  {
    var keys := [StrikesKeyOf(spread), TrailingKey, ReentryKeyOf(spread)];
    assert keys[0] == StrikesKeyOf(spread) && keys[1] == TrailingKey && keys[2] == ReentryKeyOf(spread);
    var vals := Fetch(params, keys);
    if vals.Err? then Err(MissingKey)
    else if |params| < 2 then
      KeysCounted(params, keys);
      Err(InvalidArgument)
    else if expiries != 1 then Err(SystemExit)
    else if !NonNegative(params[ReentryKeyOf(spread)]) || !NonNegative(params[TrailingKey]) then Err(InvalidArgument)
    else Ok(TrailingConfig(params[StrikesKeyOf(spread)], Value(params[TrailingKey]), params[ReentryKeyOf(spread)]))
  }

  // ---------------------------------------------------------------------
  // The price-breach strategies and the short call butterfly

  const AllowUpperKey := "ALLOW_UPPER_PRICE_BREACH"
  const AllowLowerKey := "ALLOW_LOWER_PRICE_BREACH"
  const UpperOffsetKey := "PRICE_BREACH_UPPER_OFFSET"
  const LowerOffsetKey := "PRICE_BREACH_LOWER_OFFSET"

  /** How an offset is read: `get(offset, 100)` when `get(allow, 0) == 1`,
      a comparison Python also makes true of the float 1.0, and `None`
      otherwise. */
  function ReadOffset(params: map<string, Number>, allowKey: string, offsetKey: string): Option<Number>
  {
    if Value(Get(params, allowKey, Int(0))) == 1.0 then Some(Get(params, offsetKey, Int(100))) else None
  }

  /** `isinstance(x, int) and x in [0, 1]`: the float 1.0 does not pass. */
  predicate Flag(n: Number)
  {
    n == Int(0) || n == Int(1)
  }

  /** The non-negativity check of an offset, made only when it is enabled. */
  predicate OffsetArgument(o: Option<Number>)
  {
    o.Some? ==> NonNegative(o.value)
  }

  /** Both flags are 0 or 1 and every enabled offset is non-negative. */
  predicate BreachArguments(params: map<string, Number>)
  {
    OffsetArgument(ReadOffset(params, AllowUpperKey, UpperOffsetKey))
    && OffsetArgument(ReadOffset(params, AllowLowerKey, LowerOffsetKey))
    && Flag(Get(params, AllowUpperKey, Int(0))) && Flag(Get(params, AllowLowerKey, Int(0)))
  }

  /** The offsets the strategy keeps once its flags have passed. */
  function BreachOffsets(params: map<string, Number>): Offsets
    requires Flag(Get(params, AllowUpperKey, Int(0))) && Flag(Get(params, AllowLowerKey, Int(0)))
  {
    Offsets(Offset(Get(params, AllowUpperKey, Int(0)).i, Value(Get(params, UpperOffsetKey, Int(100)))),
            Offset(Get(params, AllowLowerKey, Int(0)).i, Value(Get(params, LowerOffsetKey, Int(100)))))
  }

  /** A strike-count parameter and its default. */
  datatype StrikeParam = StrikeParam(key: string, default: int)

  function StrikeParams(shape: Shape): seq<StrikeParam>
  {
    match shape
    case Condor => [StrikeParam("NUMBER_OF_OTM_STRIKES_BUY_CALL_LEG", 1), StrikeParam("NUMBER_OF_OTM_STRIKES_SELL_CALL_LEG", 3),
                    StrikeParam("NUMBER_OF_OTM_STRIKES_BUY_PUT_LEG", 1), StrikeParam("NUMBER_OF_OTM_STRIKES_SELL_PUT_LEG", 3)]
    case Butterfly => [StrikeParam("NUMBER_OF_OTM_STRIKES_BUY_CALL_LEG", 2), StrikeParam("NUMBER_OF_OTM_STRIKES_BUY_PUT_LEG", 2)]
  }

  function StrikeValue(params: map<string, Number>, p: StrikeParam): Number
  {
    Get(params, p.key, Int(p.default))
  }

  /** The strike counts, each read with its default and checked in order
      to be a positive int. */
  function Strikes(params: map<string, Number>, specs: seq<StrikeParam>): (r: Result<seq<int>>)
    ensures r.Ok? <==> forall k :: 0 <= k < |specs| ==> PositiveInt(StrikeValue(params, specs[k]))
    ensures r.Err? ==> r.fault == InvalidArgument
    ensures r.Ok? ==> |r.value| == |specs| && forall k :: 0 <= k < |specs| ==> r.value[k] == StrikeValue(params, specs[k]).i
  {
    if specs == [] then Ok([])
    else if !PositiveInt(StrikeValue(params, specs[0])) then Err(InvalidArgument)
    else
      var rest := Strikes(params, specs[1..]);
      if rest.Err? then rest else Ok([StrikeValue(params, specs[0]).i] + rest.value)
  }

  datatype BreachConfig = BreachConfig(strikes: seq<int>, offsets: Offsets)

  /** The long iron condor and the short iron butterfly: every parameter
      falls back to its default, then `validate_parameters` asks for exactly
      one allowed expiry date (else the strategy stops), non-negative
      offsets, positive int strike counts and flags that are the int 0
      or 1. */
  function BreachParams(shape: Shape, params: map<string, Number>, expiries: int): (r: Result<BreachConfig>)
    ensures expiries != 1 ==> r == Err(SystemExit)
    ensures expiries == 1 && r.Err? ==> r.fault == InvalidArgument
    ensures r.Ok? <==> expiries == 1 && BreachArguments(params)
                       && forall k :: 0 <= k < |StrikeParams(shape)| ==> PositiveInt(StrikeValue(params, StrikeParams(shape)[k]))
    ensures r.Ok? ==> (r.value.offsets.upper.Some? <==> Get(params, AllowUpperKey, Int(0)) == Int(1))
                      && (r.value.offsets.lower.Some? <==> Get(params, AllowLowerKey, Int(0)) == Int(1))
    ensures r.Ok? ==> r.value.offsets == BreachOffsets(params)
                      && |r.value.strikes| == |StrikeParams(shape)|
                      && forall k :: 0 <= k < |StrikeParams(shape)| ==>
                           0 < r.value.strikes[k] && r.value.strikes[k] == StrikeValue(params, StrikeParams(shape)[k]).i
  {
    if expiries != 1 then Err(SystemExit)
    else if !OffsetArgument(ReadOffset(params, AllowUpperKey, UpperOffsetKey))
            || !OffsetArgument(ReadOffset(params, AllowLowerKey, LowerOffsetKey)) then Err(InvalidArgument)
    else
      var strikes := Strikes(params, StrikeParams(shape));
      if strikes.Err? then Err(InvalidArgument)
      else if !Flag(Get(params, AllowUpperKey, Int(0))) || !Flag(Get(params, AllowLowerKey, Int(0))) then
        Err(InvalidArgument)
      else Ok(BreachConfig(strikes.value, BreachOffsets(params)))
  }

  /** With no parameters at all both strategies start with their default
      strike counts and with price breaches switched off, while a float
      flag 1.0 switches the offset on when it is read but is then refused
      by the flag check. */
  lemma BreachDefaults()
    ensures BreachParams(Condor, map[], 1) == Ok(BreachConfig([1, 3, 1, 3], Offsets(None, None)))
    ensures BreachParams(Butterfly, map[], 1) == Ok(BreachConfig([2, 2], Offsets(None, None)))
    ensures ReadOffset(map[AllowUpperKey := Float(1.0)], AllowUpperKey, UpperOffsetKey) == Some(Int(100))
    ensures BreachParams(Condor, map[AllowUpperKey := Float(1.0)], 1) == Err(InvalidArgument)
  {
    var none: map<string, Number> := map[];
    assert Strikes(none, StrikeParams(Condor)).value == [1, 3, 1, 3];
    assert Strikes(none, StrikeParams(Butterfly)).value == [2, 2];
  }

  const CbStrikeParams := [StrikeParam("NUMBER_OF_OTM_STRIKES_BUY_CALL_LEG", 2),
                           StrikeParam("NUMBER_OF_ITM_STRIKES_BUY_CALL_LEG", 2)]
  const CbReentryKey := "REENTRY_LIMIT"

  datatype CbConfig = CbConfig(exits: CbParams, strikes: seq<int>, reentryLimit: int)

  /** The short call butterfly: every parameter falls back to its default
      (10% stop-loss, 20% target, one re-entry, two strikes out on each
      wing) and `validate_parameters` asks, with no expiry check, for
      non-negative offsets and percentages, positive int strike counts,
      flags that are the int 0 or 1 and a non-negative int re-entry
      limit. */
  function CallButterflyParams(params: map<string, Number>): (r: Result<CbConfig>)
    ensures r.Err? ==> r.fault == InvalidArgument
    ensures r.Ok? <==> BreachArguments(params)
                       && NonNegative(Get(params, TargetKey, Int(20))) && NonNegative(Get(params, StoplossKey, Int(10)))
                       && (forall k :: 0 <= k < |CbStrikeParams| ==> PositiveInt(StrikeValue(params, CbStrikeParams[k])))
                       && Get(params, CbReentryKey, Int(1)).Int? && 0 <= Get(params, CbReentryKey, Int(1)).i
    ensures r.Ok? ==> r.value.exits == CbParams(BreachOffsets(params), Value(Get(params, StoplossKey, Int(10))),
                                                Value(Get(params, TargetKey, Int(20))))
                      && r.value.reentryLimit == Get(params, CbReentryKey, Int(1)).i
                      && |r.value.strikes| == 2
                      && forall k :: 0 <= k < 2 ==> r.value.strikes[k] == StrikeValue(params, CbStrikeParams[k]).i
  {
    var reentry := Get(params, CbReentryKey, Int(1));
    if !OffsetArgument(ReadOffset(params, AllowUpperKey, UpperOffsetKey))
       || !OffsetArgument(ReadOffset(params, AllowLowerKey, LowerOffsetKey))
       || !NonNegative(Get(params, TargetKey, Int(20))) || !NonNegative(Get(params, StoplossKey, Int(10))) then
      Err(InvalidArgument)
    else
      var strikes := Strikes(params, CbStrikeParams);
      if strikes.Err? then Err(InvalidArgument)
      else if !Flag(Get(params, AllowUpperKey, Int(0))) || !Flag(Get(params, AllowLowerKey, Int(0))) then
        Err(InvalidArgument)
      else if !(reentry.Int? && 0 <= reentry.i) then Err(InvalidArgument)
      else
        Ok(CbConfig(CbParams(BreachOffsets(params), Value(Get(params, StoplossKey, Int(10))),
                             Value(Get(params, TargetKey, Int(20)))),
                    strikes.value, reentry.i))
  }

  /** With no parameters the butterfly starts with its defaults and price
      exits switched off; a float re-entry limit is refused. */
  lemma CallButterflyDefaults()
    ensures CallButterflyParams(map[]) == Ok(CbConfig(CbParams(Offsets(None, None), 10.0, 20.0), [2, 2], 1))
    ensures CallButterflyParams(map[CbReentryKey := Float(1.0)]) == Err(InvalidArgument)
  {
    var none: map<string, Number> := map[];
    assert Strikes(none, CbStrikeParams).value == [2, 2];
  }
}
