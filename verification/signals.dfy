/** How the single-instrument strategies turn indicator crossover codes into
    an order side (entry) and into an exit decision for a held side.
    The indicators themselves (EMA, SMA, MACD, RSI, STOCH, AROON, VWAP, OBV)
    are inputs: only the crossover codes they produce appear here. */
module Signals {
  import opened Common

  /** `action_constants = {1: 'BUY', -1: 'SELL'}`, applied when the
      crossover is 1 or -1; nothing is selected for 0. */
  function DirectSide(c: Crossover): (r: Option<Side>)
    ensures r.Some? <==> c != 0
    ensures r.Some? ==> SideCode(r.value) == c
  {
    if c == 1 then Some(Buy) else if c == -1 then Some(Sell) else None
  }

  /** The inverse-EMA-scalping map `{-1: 'BUY', 1: 'SELL'}`. */
  function InverseSide(c: Crossover): (r: Option<Side>)
    ensures r.Some? <==> c != 0
    ensures r.Some? ==> SideCode(r.value) == -c
  {
    if c == -1 then Some(Buy) else if c == 1 then Some(Sell) else None
  }

  /** The inverted map is the direct map with every side flipped. */
  lemma InverseIsFlippedDirect(c: Crossover)
    ensures InverseSide(c).Some? == DirectSide(c).Some?
    ensures InverseSide(c).Some? ==> InverseSide(c).value == Opposite(DirectSide(c).value)
  {
  }

  /** A SELL entry is kept only when the strategy runs in INTRADAY mode;
      a BUY entry is always kept. */
  function SellOnlyIntraday(o: Option<Side>, m: Mode): (r: Option<Side>)
    ensures r == Some(Buy) <==> o == Some(Buy)
    ensures r == Some(Sell) <==> o == Some(Sell) && m == Intraday
  {
    match o
    case Some(Sell) => if m == Intraday then o else None
    case _ => o
  }

  /** The RSI threshold entry: an upward cross of the oversold line gives
      BUY; otherwise a downward cross of the overbought line gives SELL. */
  function ThresholdSide(oversold: Crossover, overbought: Crossover): (r: Option<Side>)
    ensures r == Some(Buy) <==> oversold == 1
    ensures r == Some(Sell) <==> oversold != 1 && overbought == -1
  {
    if oversold == 1 then Some(Buy)
    else if overbought == -1 then Some(Sell)
    else None
  }

  /** Exit on any crossover (`crossover in [1, -1]`). */
  predicate AnyCross(c: Crossover)
  {
    c == 1 || c == -1
  }

  /** Exit when the crossover points against the held side:
      `(crossover == 1 and SELL) or (crossover == -1 and BUY)`. */
  predicate Opposes(c: Crossover, held: Side)
  {
    (c == 1 && held == Sell) || (c == -1 && held == Buy)
  }

  /** A crossover opposes the held side exactly when the direct entry map
      would open the other side. */
  lemma OpposesIsOppositeEntry(c: Crossover, held: Side)
    ensures Opposes(c, held) <==> DirectSide(c) == Some(Opposite(held))
    ensures Opposes(c, held) ==> AnyCross(c)
  {
  }

  /** RSI-MACD exit: `(oversold == -1 and SELL) or (overbought == 1 and BUY)`. */
  predicate RsiMacdExit(oversold: Crossover, overbought: Crossover, held: Side)
  {
    (oversold == -1 && held == Sell) || (overbought == 1 && held == Buy)
  }

  /** Reverse-RSI exit: `(oversold == -1 and BUY) or (overbought == 1 and SELL)`. */
  predicate ReverseRsiExit(oversold: Crossover, overbought: Crossover, held: Side)
  {
    (oversold == -1 && held == Buy) || (overbought == 1 && held == Sell)
  }

  /** The v2 reverse-RSI exit: a SELL closes when either line crosses up,
      a BUY closes when either line crosses down. */
  predicate EitherLineExit(oversold: Crossover, overbought: Crossover, held: Side)
  {
    ((oversold == 1 || overbought == 1) && held == Sell)
    || ((oversold == -1 || overbought == -1) && held == Buy)
  }

  /** The v2 exit fires whenever the reverse-RSI exit fires, and also in
      cases where it does not (so the two strategy versions differ). */
  lemma EitherLineExitWeakensReverseRsi(oversold: Crossover, overbought: Crossover, held: Side)
    ensures ReverseRsiExit(oversold, overbought, held) ==> EitherLineExit(oversold, overbought, held)
    ensures EitherLineExit(1, 0, Sell) && !ReverseRsiExit(1, 0, Sell)
  {
  }

  /** The RSI-MACD and reverse-RSI exits close opposite sides on the same
      crossings: swapping the held side swaps the rules. */
  lemma RsiMacdMirrorsReverseRsi(oversold: Crossover, overbought: Crossover, held: Side)
    ensures RsiMacdExit(oversold, overbought, held) <==> ReverseRsiExit(oversold, overbought, Opposite(held))
  {
  }

  /** A parameter Python treats as given: present and nonzero. */
  predicate Given(p: Option<int>)
  {
    p.Some? && p.value != 0
  }

  /** `get('FASTK_PERIOD') or get('PERIOD')`: an absent or zero primary
      parameter falls back to the alternative name. */
  function FallbackParameter(primary: Option<int>, alternative: Option<int>): (r: Option<int>)
    ensures r == primary || r == alternative
    ensures Given(r) <==> Given(primary) || Given(alternative)
    ensures Given(primary) ==> r == primary
    ensures Given(r) && r != primary ==> !Given(primary) && r == alternative
  {
    if Given(primary) then primary else alternative
  }
}
