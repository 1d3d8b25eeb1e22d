/** The exit checks of the bull call spread and long call diagonal spread
    strategies. Each keeps its levels (entry spread, stop-loss, target,
    highest spread, trailing stop) in fields shared by every base
    instrument; a check first fills the levels from the two legs' fill
    prices when no entry spread is recorded, then compares the current
    spread (buy-leg LTP minus sell-leg LTP) with them. Python's `None` is
    `Option.None`; comparing with `None` is a TypeError (TypeMismatch). */
module SpreadLevels {
  import opened Common

  /** Fill prices and latest traded prices of the two legs. */
  datatype Quotes = Quotes(buyEntry: real, sellEntry: real, buyLtp: real, sellLtp: real)

  /** The spread paid at entry. */
  function EntrySpread(q: Quotes): real { q.buyEntry - q.sellEntry }

  /** The spread now. */
  function CurrentSpread(q: Quotes): real { q.buyLtp - q.sellLtp }

  /** `value * (1 - pct / 100)`: a level `pct` percent under `value`. */
  function Under(value: real, pct: real): real { value * (1.0 - pct / 100.0) }

  /** `value * (1 + pct / 100)`: a level `pct` percent over `value`. */
  function Over(value: real, pct: real): real { value * (1.0 + pct / 100.0) }

  /** A level under a larger value is larger (for pct <= 100). */
  lemma UnderMonotone(x: real, y: real, pct: real)
    requires x <= y && pct <= 100.0
    ensures Under(x, pct) <= Under(y, pct)
  {
    var k := 1.0 - pct / 100.0;
    assert k >= 0.0;
    assert (y - x) * k >= 0.0;
  }

  /** A level under a non-negative value does not exceed it (for pct >= 0),
      and a level under a negative value is not positive (for pct <= 100). */
  lemma UnderBounds(x: real, pct: real)
    requires 0.0 <= pct <= 100.0
    ensures x >= 0.0 ==> Under(x, pct) <= x
    ensures x < 0.0 ==> Under(x, pct) <= 0.0
  {
    var k := 1.0 - pct / 100.0;
    assert 0.0 <= k <= 1.0;
    if x >= 0.0 {
      assert x * (1.0 - k) >= 0.0;
    } else {
      assert (-x) * k >= 0.0;
    }
  }

  // ---------------------------------------------------------------------
  // Trailing-stop-only check (trailing_stop_spread of the trailing-stoploss
  // re-entry spread and of the stop-loss spread)
  // ---------------------------------------------------------------------

  datatype TrailLevels = TrailLevels(entry: Option<real>, highest: Option<real>, stop: Option<real>)

  /** The levels before any position: everything `None`. */
  const NoTrail := TrailLevels(None, None, None)

  /** The levels are filled together and the stop trails the highest spread. */
  predicate TrailConsistent(l: TrailLevels, pct: real)
  {
    Truthy(l.entry) ==> l.highest.Some? && l.stop == Some(Under(l.highest.value, pct))
  }

  /** trailing_stop_spread: (exit?, levels after the call). */
  function CheckTrailing(l: TrailLevels, q: Quotes, pct: real): (r: Result<(bool, TrailLevels)>)
    ensures r.Ok? && r.value.0 ==> r.value.1 == NoTrail
    ensures r.Ok? && !r.value.0 ==> r.value.1.entry == (if Truthy(l.entry) then l.entry else Some(EntrySpread(q)))
  {
    var m := if Truthy(l.entry) then l
             else TrailLevels(Some(EntrySpread(q)), Some(EntrySpread(q)), Some(Under(EntrySpread(q), pct)));
    var c := CurrentSpread(q);
    if m.highest.None? then Err(TypeMismatch)
    else
      var u := if c > m.highest.value then m.(highest := Some(c), stop := Some(Under(c, pct))) else m;
      if u.stop.None? then Err(TypeMismatch)
      else if c < u.stop.value then Ok((true, NoTrail))
      else Ok((false, u))
  }

  /** From consistent levels the check never fails, keeps the levels
      consistent, and the highest spread only rises. */
  lemma TrailingKeepsConsistent(l: TrailLevels, q: Quotes, pct: real)
    requires TrailConsistent(l, pct)
    ensures CheckTrailing(l, q, pct).Ok?
    ensures TrailConsistent(CheckTrailing(l, q, pct).value.1, pct)
    ensures var r := CheckTrailing(l, q, pct).value;
            Truthy(l.entry) && !r.0 ==> r.1.highest.Some? && r.1.highest.value >= l.highest.value
  {
  }

  /** For a non-negative spread and a trailing percentage in [0, 100], the
      check exits exactly when the spread falls under the trailing
      percentage below the highest spread seen before this call: a new
      high can never trigger the exit itself. */
  lemma TrailingExitIff(l: TrailLevels, q: Quotes, pct: real)
    requires TrailConsistent(l, pct) && 0.0 <= pct <= 100.0 && CurrentSpread(q) >= 0.0
    ensures var h := if Truthy(l.entry) then l.highest.value else EntrySpread(q);
            CheckTrailing(l, q, pct).Ok?
            && (CheckTrailing(l, q, pct).value.0 <==> CurrentSpread(q) < Under(h, pct))
  {
    var h := if Truthy(l.entry) then l.highest.value else EntrySpread(q);
    var c := CurrentSpread(q);
    if c > h {
      UnderBounds(c, pct);
      UnderBounds(h, pct);
    }
  }

  // ---------------------------------------------------------------------
  // Target, hard stop and trailing stop (check_exit_conditions of the
  // bull call spread with target, stops and re-entry)
  // ---------------------------------------------------------------------

  datatype TargetLevels = TargetLevels(entry: Option<real>, stoploss: Option<real>, target: Option<real>,
                                       highest: Option<real>, trailing: Option<real>)

  /** The levels before any position: everything `None`. */
  const NoTarget := TargetLevels(None, None, None, None, None)

  /** The three percentages of the strategy. */
  datatype TargetPcts = TargetPcts(sl: real, target: real, tsl: real)

  /** An entry spread comes with its stop-loss and target premiums, and a
      trailing high comes with its trailing stop. */
  predicate TargetConsistent(l: TargetLevels, p: TargetPcts)
  {
    (Truthy(l.entry) ==> l.stoploss.Some? && l.target.Some?)
    && (Truthy(l.highest) ==> l.trailing == Some(Under(l.highest.value, p.tsl)))
  }

  /** Fill the entry-spread levels when no entry spread is recorded. */
  function InitTarget(l: TargetLevels, q: Quotes, p: TargetPcts): (m: TargetLevels)
    ensures Truthy(l.entry) ==> m == l
    ensures !Truthy(l.entry) ==> m == l.(entry := Some(EntrySpread(q)),
                                         stoploss := Some(Under(EntrySpread(q), p.sl)),
                                         target := Some(Over(EntrySpread(q), p.target)))
  {
    if Truthy(l.entry) then l
    else l.(entry := Some(EntrySpread(q)), stoploss := Some(Under(EntrySpread(q), p.sl)),
            target := Some(Over(EntrySpread(q), p.target)))
  }

  /** The trailing part of the check, after target and hard stop passed:
      activate on a spread above entry / (1 - tsl%), ratchet on a new
      high, exit under the trailing stop (clearing entry, high and stop). */
  function TrailPart(m: TargetLevels, c: real, p: TargetPcts): (r: Result<(bool, TargetLevels)>)
    requires m.entry.Some?
  {
    if !Truthy(m.highest) && p.tsl == 100.0 then Err(DivisionByZero)
    else
      var a := if !Truthy(m.highest) && c > m.entry.value / (1.0 - p.tsl / 100.0)
               then m.(highest := Some(c), trailing := Some(Under(c, p.tsl))) else m;
      if !Truthy(a.highest) then Ok((false, a))
      else
        var u := if c > a.highest.value then a.(highest := Some(c), trailing := Some(Under(c, p.tsl))) else a;
        if u.trailing.None? then Err(TypeMismatch)
        else if c < u.trailing.value then Ok((true, u.(highest := None, entry := None, trailing := None)))
        else Ok((false, u))
  }

  /** check_exit_conditions as written: the target and hard-stop exits
      clear only the entry spread, leaving the trailing high and stop of
      the finished position in place. */
  function CheckTargetStops(l: TargetLevels, q: Quotes, p: TargetPcts): (r: Result<(bool, TargetLevels)>)
    ensures r.Ok? && r.value.0 ==> r.value.1.entry == None
    ensures r.Ok? && !Truthy(l.entry) ==>
              r.value.1.stoploss == Some(Under(EntrySpread(q), p.sl))
              && r.value.1.target == Some(Over(EntrySpread(q), p.target))
  {
    var m := InitTarget(l, q, p);
    var c := CurrentSpread(q);
    if m.target.None? then Err(TypeMismatch)
    else if c > m.target.value then Ok((true, m.(entry := None)))
    else if m.stoploss.None? then Err(TypeMismatch)
    else if c < m.stoploss.value then Ok((true, m.(entry := None)))
    else TrailPart(m, c, p)
  }

  /** check_exit_conditions with every exit clearing the trailing levels
      too, as the trailing exit does. */
  function CheckTargetStopsFixed(l: TargetLevels, q: Quotes, p: TargetPcts): (r: Result<(bool, TargetLevels)>)
    ensures r.Ok? && r.value.0 ==> r.value.1.entry == None && r.value.1.highest == None
    ensures r.Ok? && !Truthy(l.entry) ==>
              r.value.1.stoploss == Some(Under(EntrySpread(q), p.sl))
              && r.value.1.target == Some(Over(EntrySpread(q), p.target))
  {
    var m := InitTarget(l, q, p);
    var c := CurrentSpread(q);
    if m.target.None? then Err(TypeMismatch)
    else if c > m.target.value then Ok((true, m.(entry := None, highest := None, trailing := None)))
    else if m.stoploss.None? then Err(TypeMismatch)
    else if c < m.stoploss.value then Ok((true, m.(entry := None, highest := None, trailing := None)))
    else TrailPart(m, c, p)
  }

  /** Both checks agree whenever the position does not exit on target or
      hard stop. */
  lemma TargetStopsFixOnlyResets(l: TargetLevels, q: Quotes, p: TargetPcts)
    ensures var a := CheckTargetStops(l, q, p);
            var b := CheckTargetStopsFixed(l, q, p);
            a.Ok? == b.Ok? && (a.Ok? ==> a.value.0 == b.value.0)
            && (a.Ok? && !a.value.0 ==> a == b)
  {
  }

  /** Under consistent levels and a trailing percentage under 100 the
      check never fails and keeps the levels consistent; a target above
      the current spread is checked before the stop-loss. */
  lemma TargetStopsKeepsConsistent(l: TargetLevels, q: Quotes, p: TargetPcts)
    requires TargetConsistent(l, p) && p.tsl < 100.0
    ensures CheckTargetStops(l, q, p).Ok?
    ensures TargetConsistent(CheckTargetStops(l, q, p).value.1, p)
    ensures var m := InitTarget(l, q, p);
            CurrentSpread(q) > m.target.value ==> CheckTargetStops(l, q, p) == Ok((true, m.(entry := None)))
  {
  }

  /** With a high recorded and no target or hard-stop exit, the high
      rises to the current spread exactly when the spread exceeds it, and
      the trailing stop stays tsl% below the high. */
  lemma TargetStopsRatchet(l: TargetLevels, q: Quotes, p: TargetPcts)
    requires TargetConsistent(l, p) && Truthy(l.highest) && p.tsl < 100.0
    requires var m := InitTarget(l, q, p);
             m.stoploss.value <= CurrentSpread(q) <= m.target.value
    ensures var r := CheckTargetStops(l, q, p).value;
            var h := if CurrentSpread(q) > l.highest.value then CurrentSpread(q) else l.highest.value;
            !r.0 ==> r.1.highest == Some(h) && r.1.trailing == Some(Under(h, p.tsl))
    ensures var r := CheckTargetStops(l, q, p).value;
            var h := if CurrentSpread(q) > l.highest.value then CurrentSpread(q) else l.highest.value;
            r.0 <==> CurrentSpread(q) < Under(h, p.tsl)
  {
  }

  /** Under the corrected check a position whose first check finds no
      trailing high (as after any exit) and whose spread has not risen
      past the activation level can only exit on its target or stop. */
  lemma FixedFreshPositionIgnoresOldTrail(l: TargetLevels, q: Quotes, p: TargetPcts)
    requires TargetConsistent(l, p) && !Truthy(l.entry) && !Truthy(l.highest)
    requires 0.0 <= p.tsl < 100.0
    requires CurrentSpread(q) <= EntrySpread(q) / (1.0 - p.tsl / 100.0)
    ensures var r := CheckTargetStopsFixed(l, q, p);
            r.Ok? && (r.value.0 <==> CurrentSpread(q) > Over(EntrySpread(q), p.target)
                                     || CurrentSpread(q) < Under(EntrySpread(q), p.sl))
  {
  }

  /** Every exit of the corrected check leaves no trailing high behind, so
      the next position starts from the state FixedFreshPositionIgnoresOldTrail
      describes. */
  lemma FixedExitForgetsTrail(l: TargetLevels, q: Quotes, p: TargetPcts)
    requires TargetConsistent(l, p) && p.tsl < 100.0
    ensures var r := CheckTargetStopsFixed(l, q, p);
            r.Ok? && (r.value.0 ==> !Truthy(r.value.1.entry) && !Truthy(r.value.1.highest)
                                    && TargetConsistent(r.value.1, p))
  {
  }

  /** The check as written lets a finished position's trailing stop exit
      the next position at once: entry spread 10, stop-loss 50%, target
      50%, trail 10%; the spread reaches 14 (high 14, trailing stop
      12.6), then 16 exits on target; the next position, again entered
      at a spread of 10, is exited at a spread of 11, inside its own
      stop-loss/target band and below its own activation level. */
  lemma TargetStopsInheritsTrail()
    ensures var p := TargetPcts(50.0, 50.0, 10.0);
            var q1 := Quotes(20.0, 10.0, 24.0, 10.0);
            var q2 := Quotes(20.0, 10.0, 26.0, 10.0);
            var q3 := Quotes(20.0, 10.0, 21.0, 10.0);
            var s1 := CheckTargetStops(NoTarget, q1, p);
            s1 == Ok((false, TargetLevels(Some(10.0), Some(5.0), Some(15.0), Some(14.0), Some(12.6))))
            && var s2 := CheckTargetStops(s1.value.1, q2, p);
            s2 == Ok((true, TargetLevels(None, Some(5.0), Some(15.0), Some(14.0), Some(12.6))))
            && CheckTargetStops(s2.value.1, q3, p).value.0
            && !CheckTargetStopsFixed(CheckTargetStopsFixed(s1.value.1, q2, p).value.1, q3, p).value.0
  {
  }

  // ---------------------------------------------------------------------
  // Long call diagonal spread (_check_exit_conditions)
  // ---------------------------------------------------------------------

  datatype DiagLevels = DiagLevels(entry: Option<real>, stoploss: Option<real>, highest: Option<real>,
                                   trailing: Option<real>, activated: bool)

  /** The levels before any position. */
  const NoDiag := DiagLevels(None, None, None, None, false)

  /** The stop-loss and trailing-stop percentages of the strategy. */
  datatype DiagPcts = DiagPcts(sl: real, tsl: real)

  /** Entry levels present together; the stop-loss premium is the trailing
      stop; before activation the high is the entry spread and the stop is
      the hard stop-loss, after it the stop trails the high by tsl%. */
  predicate DiagConsistent(l: DiagLevels, p: DiagPcts)
  {
    (!Truthy(l.entry) ==> !l.activated)
    && (Truthy(l.entry) ==>
          l.stoploss.Some? && l.highest.Some? && l.trailing == l.stoploss
          && (!l.activated ==> l.highest == l.entry && l.stoploss == Some(Under(l.entry.value, p.sl)))
          && (l.activated ==> l.stoploss == Some(Under(l.highest.value, p.tsl))))
  }

  /** Fill the levels at the first check of a position. */
  function InitDiag(l: DiagLevels, q: Quotes, p: DiagPcts): (m: DiagLevels)
    ensures Truthy(l.entry) ==> m == l
    ensures !Truthy(l.entry) ==> m.entry == Some(EntrySpread(q)) && m.highest == m.entry
                                 && m.stoploss == Some(Under(EntrySpread(q), p.sl)) && m.trailing == m.stoploss
  {
    if Truthy(l.entry) then l
    else l.(entry := Some(EntrySpread(q)), stoploss := Some(Under(EntrySpread(q), p.sl)),
            highest := Some(EntrySpread(q)), trailing := Some(Under(EntrySpread(q), p.sl)))
  }

  /** The diagonal spread's exit check as written: exit only under the
      stop-loss premium; any new high moves the stop to tsl% under it. */
  function CheckDiagonal(l: DiagLevels, q: Quotes, p: DiagPcts): (r: Result<(bool, DiagLevels)>)
    ensures r.Ok? && r.value.0 ==> r.value.1.entry == None && r.value.1.highest == None
  {
    var m := InitDiag(l, q, p);
    var c := CurrentSpread(q);
    if m.stoploss.None? then Err(TypeMismatch)
    else if c < m.stoploss.value then Ok((true, m.(highest := None, entry := None, trailing := None, activated := false)))
    else if m.highest.None? then Err(TypeMismatch)
    else if c > m.highest.value then
      Ok((false, m.(activated := true, trailing := Some(Under(c, p.tsl)), highest := Some(c),
                    stoploss := Some(Under(c, p.tsl)))))
    else Ok((false, m))
  }

  /** The diagonal check with the activation threshold its comments
      describe: the stop starts trailing only once the spread exceeds
      entry / (1 - tsl%), and then ratchets on every new high. */
  function CheckDiagonalFixed(l: DiagLevels, q: Quotes, p: DiagPcts): (r: Result<(bool, DiagLevels)>)
    ensures r.Ok? && r.value.0 ==> r.value.1.entry == None && r.value.1.highest == None
  {
    var m := InitDiag(l, q, p);
    var c := CurrentSpread(q);
    if m.stoploss.None? then Err(TypeMismatch)
    else if c < m.stoploss.value then Ok((true, m.(highest := None, entry := None, trailing := None, activated := false)))
    else if m.highest.None? || m.entry.None? then Err(TypeMismatch)
    else if !m.activated && p.tsl == 100.0 then Err(DivisionByZero)
    else if (m.activated && c > m.highest.value)
            || (!m.activated && c > m.entry.value / (1.0 - p.tsl / 100.0)) then
      Ok((false, m.(activated := true, trailing := Some(Under(c, p.tsl)), highest := Some(c),
                    stoploss := Some(Under(c, p.tsl)))))
    else Ok((false, m))
  }

  /** The only exit of the diagonal check is the spread falling under the
      stop-loss premium in force (after the first check's fill); the
      levels stay consistent and the high never falls. */
  lemma DiagonalExitIff(l: DiagLevels, q: Quotes, p: DiagPcts)
    requires DiagConsistent(l, p) && EntrySpread(q) > 0.0
    ensures var m := InitDiag(l, q, p);
            var r := CheckDiagonal(l, q, p);
            r.Ok? && (r.value.0 <==> CurrentSpread(q) < m.stoploss.value)
            && DiagConsistent(r.value.1, p)
            && (!r.value.0 ==> r.value.1.highest.value >= m.highest.value)
  {
  }

  /** As written the stop can fall: entry spread 10, stop-loss 15%, trail
      20%; a spread of 10.1 is a new high and moves the stop-loss premium
      from 8.5 down to 8.08. */
  lemma DiagonalStopCanFall()
    ensures var p := DiagPcts(15.0, 20.0);
            var s1 := CheckDiagonal(NoDiag, Quotes(20.0, 10.0, 20.0, 10.0), p);
            s1 == Ok((false, DiagLevels(Some(10.0), Some(8.5), Some(10.0), Some(8.5), false)))
            && CheckDiagonal(s1.value.1, Quotes(20.0, 10.0, 20.1, 10.0), p)
               == Ok((false, DiagLevels(Some(10.0), Some(8.08), Some(10.1), Some(8.08), true)))
  {
  }

  /** A spread past the activation level puts the trailing stop above the
      entry spread, hence above the hard stop-loss. */
  lemma ActivationRaisesStop(e: real, c: real, p: DiagPcts)
    requires e > 0.0 && 0.0 <= p.sl && 0.0 <= p.tsl < 100.0
    requires c > e / (1.0 - p.tsl / 100.0)
    ensures Under(c, p.tsl) > e >= Under(e, p.sl)
  {
    var k := 1.0 - p.tsl / 100.0;
    assert c * k > (e / k) * k;
    UnderBounds(e, if p.sl <= 100.0 then p.sl else 100.0);
    if p.sl > 100.0 {
      var k2 := p.sl / 100.0 - 1.0;
      assert k2 > 0.0;
      assert e * k2 > 0.0;
      assert Under(e, p.sl) == -(e * k2);
    }
  }

  /** With the activation threshold the stop-loss premium never falls while
      a position is held (non-negative entry spread, percentages in
      [0, 100)), and the levels stay consistent. */
  lemma DiagonalFixedStopNeverFalls(l: DiagLevels, q: Quotes, p: DiagPcts)
    requires DiagConsistent(l, p) && 0.0 <= p.sl && 0.0 <= p.tsl < 100.0
    requires Truthy(l.entry) ==> l.entry.value > 0.0
    requires EntrySpread(q) > 0.0
    ensures var m := InitDiag(l, q, p);
            var r := CheckDiagonalFixed(l, q, p);
            r.Ok? && DiagConsistent(r.value.1, p)
            && (!r.value.0 ==> r.value.1.stoploss.value >= m.stoploss.value)
  {
    var m := InitDiag(l, q, p);
    var c := CurrentSpread(q);
    if !m.activated && c > m.entry.value / (1.0 - p.tsl / 100.0) {
      ActivationRaisesStop(m.entry.value, c, p);
    }
    if m.activated && c > m.highest.value {
      UnderMonotone(m.highest.value, c, p.tsl);
    }
  }
}
