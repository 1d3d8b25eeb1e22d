/** The prices a strategy attaches to a cover or bracket order, all derived
    from the last traded price (LTP) and fractional parameters the
    strategy checks once, in its constructor:

    - a cover order carries a stop trigger a fraction `stoploss` of the
      LTP away from it, on the losing side;
    - a bracket order carries a stop-loss trigger and a target trigger on
      either side of the LTP, and a trailing stop-loss that is the LTP
      times its own (positive, not necessarily fractional) parameter. */
module OrderPrices {
  import opened Common

  /** The constructor's `assert 0 < x < 1` for a fractional parameter. */
  predicate Fraction(x: real)
  {
    0.0 < x < 1.0
  }

  /** A cover strategy's stop fraction, accepted when it lies strictly
      between 0 and 1 (a failed `assert` otherwise). */
  function CoverParams(stoploss: real): (r: Result<real>)
    ensures r.Ok? <==> Fraction(stoploss)
    ensures r.Ok? ==> r.value == stoploss
    ensures r.Err? ==> r.fault == InvalidArgument
  {
    if Fraction(stoploss) then Ok(stoploss) else Err(InvalidArgument)
  }

  datatype BracketConfig = BracketConfig(stoploss: real, target: real, trailing: real)

  /** A bracket strategy's three parameters: the stop and target are
      fractions, the trailing stop-loss factor is only required to be
      positive. */
  function BracketParams(stoploss: real, target: real, trailing: real): (r: Result<BracketConfig>)
    ensures r.Ok? <==> Fraction(stoploss) && Fraction(target) && 0.0 < trailing
    ensures r.Ok? ==> r.value == BracketConfig(stoploss, target, trailing)
    ensures r.Err? ==> r.fault == InvalidArgument
  {
    if !Fraction(stoploss) || !Fraction(target) || !(0.0 < trailing) then Err(InvalidArgument)
    else Ok(BracketConfig(stoploss, target, trailing))
  }

  /** Profit per unit of a position on `side` opened at `entry` and closed at `exit`. */
  function Pnl(side: Side, entry: real, exit: real): real
  {
    if side == Buy then exit - entry else entry - exit
  }

  /** A cover order's stop trigger: below the LTP for a BUY, above it for
      a SELL, in either case the LTP times the stop fraction away. */
  function CoverTrigger(side: Side, ltp: real, stoploss: real): (t: real)
    ensures Pnl(side, ltp, t) == -(ltp * stoploss)
    ensures 0.0 < ltp && Fraction(stoploss) ==> (side == Buy <==> t < ltp)
    ensures 0.0 < ltp && Fraction(stoploss) && side == Buy ==> 0.0 < t
  {
    if side == Buy then ltp - ltp * stoploss else ltp + ltp * stoploss
  }

  datatype BracketPrices = BracketPrices(price: real, stoploss: real, target: real, trailing: real)

  /** A bracket order's prices for `side` at `ltp`. */
  function Bracket(side: Side, ltp: real, cfg: BracketConfig): (r: BracketPrices)
    ensures r.price == ltp
    ensures Pnl(side, ltp, r.stoploss) == -(ltp * cfg.stoploss)
    ensures Pnl(side, ltp, r.target) == ltp * cfg.target
    ensures r.trailing == ltp * cfg.trailing
  {
    if side == Buy then
      BracketPrices(ltp, ltp - ltp * cfg.stoploss, ltp + ltp * cfg.target, ltp * cfg.trailing)
    else
      BracketPrices(ltp, ltp + ltp * cfg.stoploss, ltp - ltp * cfg.target, ltp * cfg.trailing)
  }

  /** With a positive LTP and an accepted stop fraction, the stop-loss
      trigger is a positive price on the losing side of the position. */
  lemma BracketStopLoses(side: Side, ltp: real, cfg: BracketConfig)
    requires 0.0 < ltp && Fraction(cfg.stoploss)
    ensures side == Buy ==> 0.0 < Bracket(side, ltp, cfg).stoploss < ltp
    ensures side == Sell ==> ltp < Bracket(side, ltp, cfg).stoploss
  {
    StopPrice(side, ltp, cfg.stoploss, Bracket(side, ltp, cfg).stoploss);
  }

  /** A price the LTP times `f` away from the LTP, below it for a BUY and
      above it for a SELL. */
  lemma StopPrice(side: Side, ltp: real, f: real, y: real)
    requires 0.0 < ltp && Fraction(f)
    requires y == (if side == Buy then ltp - ltp * f else ltp + ltp * f)
    ensures side == Buy ==> 0.0 < y < ltp
    ensures side == Sell ==> ltp < y
  {
    MulFraction(ltp, f);
  }

  /** With a positive LTP and an accepted target fraction, the target
      trigger is a positive price on the winning side of the position. */
  lemma BracketTargetGains(side: Side, ltp: real, cfg: BracketConfig)
    requires 0.0 < ltp && Fraction(cfg.target)
    ensures side == Buy ==> ltp < Bracket(side, ltp, cfg).target
    ensures side == Sell ==> 0.0 < Bracket(side, ltp, cfg).target < ltp
  {
    MulFraction(ltp, cfg.target);
  }

  lemma MulFraction(x: real, f: real)
    requires 0.0 < x && Fraction(f)
    ensures 0.0 < x * f < x
  {
    assert x - x * f == x * (1.0 - f);
    assert 0.0 < x * (1.0 - f);
  }

  lemma MulPositive(x: real, y: real)
    requires 0.0 < x && 0.0 < y
    ensures 0.0 < x * y
  {
  }

  /** The SELL bracket is the BUY bracket reflected about the LTP. */
  lemma BracketMirror(ltp: real, cfg: BracketConfig)
    ensures var b := Bracket(Buy, ltp, cfg);
            var s := Bracket(Sell, ltp, cfg);
            s.stoploss - ltp == ltp - b.stoploss && s.target - ltp == ltp - b.target
            && s.trailing == b.trailing && s.price == b.price
  {
  }

  /** A cover order's trigger is the stop leg of the bracket with the same
      stop fraction. */
  lemma CoverIsBracketStop(side: Side, ltp: real, cfg: BracketConfig)
    ensures CoverTrigger(side, ltp, cfg.stoploss) == Bracket(side, ltp, cfg).stoploss
  {
  }

  datatype PricedOrder =
    | CoverOrder(side: Side, price: real, trigger: real)
    | BracketOrder(side: Side, prices: BracketPrices)

  /** strategy_enter_position of the cover and bracket strategies: the
      'BUY' and 'SELL' metas place the priced order, anything else raises
      SystemExit. */
  function PricedEntry(a: Action, ltp: real, bracket: Option<BracketConfig>, stoploss: real): (r: Result<PricedOrder>)
    ensures r.Err? <==> !a.Place?
    ensures r.Err? ==> r.fault == SystemExit
    ensures r.Ok? ==> r.value.side == a.side
    ensures r.Ok? && bracket.None? ==> r.value == CoverOrder(a.side, ltp, CoverTrigger(a.side, ltp, stoploss))
    ensures r.Ok? && bracket.Some? ==> r.value.BracketOrder? && r.value.prices.price == ltp
                                       && Pnl(a.side, ltp, r.value.prices.stoploss) == -(ltp * bracket.value.stoploss)
                                       && Pnl(a.side, ltp, r.value.prices.target) == ltp * bracket.value.target
  {
    if !a.Place? then Err(SystemExit)
    else if bracket.None? then Ok(CoverOrder(a.side, ltp, CoverTrigger(a.side, ltp, stoploss)))
    else Ok(BracketOrder(a.side, Bracket(a.side, ltp, bracket.value)))
  }
}
