/** The price-breach strategies: the long iron condor and the short iron
    butterfly with re-entry. Both hold four legs per base instrument,
    filed by suffix in a CE and a PE ledger, exit every leg when the
    underlying moves a configured offset away from a reference price
    (which then moves to the breaching price), and re-enter when the
    ledgers are empty and either no breach is pending or the price has
    come back by the offset. The reference price and the two pending
    flags are single fields shared by all base instruments. */
module Breach {
  import opened Common
  import opened Ledger
  import opened OptionLegs

  /** Which of the two strategies: they differ in their leg lists and in
      how the lower-side formulas are written. */
  datatype Shape = Condor | Butterfly

  /** The breach offsets: `None` unless the matching ALLOW_*_PRICE_BREACH
      parameter is 1. */
  datatype Offsets = Offsets(upper: Option<real>, lower: Option<real>)

  /** How an offset parameter is read. */
  function Offset(allow: int, value: real): (r: Option<real>)
    ensures r.Some? <==> allow == 1
    ensures r.Some? ==> r.value == value
  {
    if allow == 1 then Some(value) else None
  }

  /** base_price_post_breach and the two flag_*_breach_possible_reentry. */
  datatype BreachState = BreachState(reference: Option<real>, upperPending: bool, lowerPending: bool)

  /** The state before any entry. */
  const Initial := BreachState(None, false, false)

  /** A pending flag can only have been raised by a check that read an
      enabled offset against a recorded reference price. */
  predicate Consistent(s: BreachState, o: Offsets)
  {
    (s.upperPending ==> Truthy(o.upper) && s.reference.Some?)
    && (s.lowerPending ==> Truthy(o.lower) && s.reference.Some?)
  }

  // ---------------------------------------------------------------------
  // Breach and re-entry tests, as each file writes them
  // ---------------------------------------------------------------------

  /** Upper breach: the price rose by at least the offset (both files). */
  predicate UpperBreach(current: real, reference: real, offset: real)
  {
    current - reference >= offset
  }

  /** Lower breach as the condor writes it. */
  predicate CondorLowerBreach(current: real, reference: real, offset: real)
  {
    current - reference <= -offset
  }

  /** Lower breach as the butterfly writes it. */
  predicate ButterflyLowerBreach(current: real, reference: real, offset: real)
  {
    reference - current >= offset
  }

  /** Upper re-entry: after an upper breach the price fell back by the
      offset (both files). */
  predicate UpperReentry(current: real, reference: real, offset: real)
  {
    reference - current >= offset
  }

  /** Lower re-entry as the condor writes it. */
  predicate CondorLowerReentry(current: real, reference: real, offset: real)
  {
    reference - current <= -offset
  }

  /** Lower re-entry as the butterfly writes it. */
  predicate ButterflyLowerReentry(current: real, reference: real, offset: real)
  {
    current - reference >= offset
  }

  /** The two files' lower-side formulas are the same tests: a lower
      breach is a fall by at least the offset and a lower re-entry a rise
      back by at least the offset; an upper re-entry is exactly a lower
      breach measured from the new reference, and the other way round. */
  lemma LowerFormulasAgree(current: real, reference: real, offset: real)
    ensures CondorLowerBreach(current, reference, offset) <==> ButterflyLowerBreach(current, reference, offset)
    ensures CondorLowerReentry(current, reference, offset) <==> ButterflyLowerReentry(current, reference, offset)
    ensures UpperReentry(current, reference, offset) <==> ButterflyLowerBreach(current, reference, offset)
    ensures ButterflyLowerReentry(current, reference, offset) <==> UpperBreach(current, reference, offset)
  {
  }

  function LowerBreach(shape: Shape, current: real, reference: real, offset: real): bool
  {
    if shape == Condor then CondorLowerBreach(current, reference, offset)
    else ButterflyLowerBreach(current, reference, offset)
  }

  function LowerReentry(shape: Shape, current: real, reference: real, offset: real): bool
  {
    if shape == Condor then CondorLowerReentry(current, reference, offset)
    else ButterflyLowerReentry(current, reference, offset)
  }

  /** check_exit_condition: recompute both pending flags from the current
      underlying price (a disabled or zero offset gives `False`); on
      either breach the reference moves to the current price and the
      base exits. */
  function CheckExit(shape: Shape, s: BreachState, o: Offsets, current: real): (r: Result<(bool, BreachState)>)
    ensures r.Err? <==> s.reference.None? && (Truthy(o.upper) || Truthy(o.lower))
    ensures r.Ok? ==> (r.value.0 <==> r.value.1.upperPending || r.value.1.lowerPending)
    ensures r.Ok? ==> r.value.1.reference == (if r.value.0 then Some(current) else s.reference)
    ensures r.Ok? && !Truthy(o.upper) ==> !r.value.1.upperPending
    ensures r.Ok? && !Truthy(o.lower) ==> !r.value.1.lowerPending
    ensures r.Ok? ==> Consistent(r.value.1, o)
  {
    if (Truthy(o.upper) || Truthy(o.lower)) && s.reference.None? then Err(TypeMismatch)
    else
      var up := Truthy(o.upper) && UpperBreach(current, s.reference.value, o.upper.value);
      var low := Truthy(o.lower) && LowerBreach(shape, current, s.reference.value, o.lower.value);
      if up || low then Ok((true, BreachState(Some(current), up, low)))
      else Ok((false, BreachState(s.reference, false, false)))
  }

  /** A breach on either side is a move of at least the offset away from
      the reference, whichever file's formulas are used. */
  lemma BreachIsMoveByOffset(shape: Shape, s: BreachState, o: Offsets, current: real)
    requires s.reference.Some?
    ensures var r := CheckExit(shape, s, o, current);
            var d := current - s.reference.value;
            r.Ok? && (r.value.0 <==> (Truthy(o.upper) && d >= o.upper.value)
                                     || (Truthy(o.lower) && -d >= o.lower.value))
  {
  }

  // ---------------------------------------------------------------------
  // Entry
  // ---------------------------------------------------------------------

  /** The re-entry conditions of the entry scan: (upper, lower). */
  function ReentryFlags(shape: Shape, s: BreachState, o: Offsets, current: real): (r: Result<(bool, bool)>)
    ensures Consistent(s, o) ==> r.Ok?
    ensures r.Ok? ==> (r.value.0 ==> s.upperPending) && (r.value.1 ==> s.lowerPending)
  {
    if s.upperPending && (s.reference.None? || o.upper.None?) then Err(TypeMismatch)
    else
      var up := s.upperPending && UpperReentry(current, s.reference.value, o.upper.value);
      if s.lowerPending && (s.reference.None? || o.lower.None?) then Err(TypeMismatch)
      else
        var low := s.lowerPending && LowerReentry(shape, current, s.reference.value, o.lower.value);
        Ok((up, low))
  }

  /** The leg keys of both strategies. */
  datatype LegName = CeBuy | CeSell | PeBuy | PeSell

  /** A leg of the list: its key, suffix, strike direction, strike count
      and side. */
  datatype BreachLeg = BreachLeg(name: LegName, spec: LegSpec)

  /** The condor's four OTM legs: buy and sell a call, buy and sell a put. */
  function CondorLegs(ceBuy: nat, ceSell: nat, peBuy: nat, peSell: nat): (legs: seq<BreachLeg>)
    ensures |legs| == 4 && forall k :: 0 <= k < 4 ==> legs[k].spec.dir == OTM
    ensures [legs[0].spec.suffix, legs[1].spec.suffix, legs[2].spec.suffix, legs[3].spec.suffix] == [CE, CE, PE, PE]
    ensures [legs[0].spec.side, legs[1].spec.side, legs[2].spec.side, legs[3].spec.side] == [Buy, Sell, Buy, Sell]
  {
    [BreachLeg(CeBuy, LegSpec(Buy, CE, OTM, ceBuy, 0)), BreachLeg(CeSell, LegSpec(Sell, CE, OTM, ceSell, 0)),
     BreachLeg(PeBuy, LegSpec(Buy, PE, OTM, peBuy, 0)), BreachLeg(PeSell, LegSpec(Sell, PE, OTM, peSell, 0))]
  }

  /** The butterfly's legs: buy the OTM wings, sell the ATM call and put. */
  function ButterflyLegs(ceBuy: nat, peBuy: nat): (legs: seq<BreachLeg>)
    ensures |legs| == 4
    ensures legs[1].spec.dir == ATM && legs[3].spec.dir == ATM && legs[1].spec.strikes == 0 && legs[3].spec.strikes == 0
    ensures legs[0].spec.dir == OTM && legs[2].spec.dir == OTM
    ensures [legs[0].spec.side, legs[1].spec.side, legs[2].spec.side, legs[3].spec.side] == [Buy, Sell, Buy, Sell]
  {
    [BreachLeg(CeBuy, LegSpec(Buy, CE, OTM, ceBuy, 0)), BreachLeg(CeSell, LegSpec(Sell, CE, ATM, 0, 0)),
     BreachLeg(PeBuy, LegSpec(Buy, PE, OTM, peBuy, 0)), BreachLeg(PeSell, LegSpec(Sell, PE, ATM, 0, 0))]
  }

  /** The gate of one base in the entry scan. */
  predicate EntryOpen(flat: bool, s: BreachState, re: (bool, bool))
  {
    flat && (re.0 || re.1 || !(s.upperPending || s.lowerPending))
  }

  /** strategy_select_instruments_for_entry: (entering bases, option
      setups run as (base, suffix), state after the scan). `flat` is
      `not ce_ledger and not pe_ledger`: both ledgers empty for every
      base. The pending flags are cleared after the first base that saw
      them, whether or not it re-entered; the option chain of a suffix is
      set up once per scan, by the first entering base. */
  function SelectBreachEntry(shape: Shape, flat: bool, s: BreachState, o: Offsets, ltp: Instrument -> real,
                             bucket: seq<Instrument>, setUp: set<Suffix>)
    : (r: Result<(seq<Instrument>, seq<(Instrument, Suffix)>, BreachState)>)
    ensures Consistent(s, o) ==> r.Ok?
    ensures r.Ok? ==> forall b :: b in r.value.0 ==> b in bucket
    ensures r.Ok? && !flat ==> r.value.0 == []
    ensures r.Ok? ==> r.value.2.reference == s.reference
    ensures r.Ok? && |bucket| > 0 ==> !r.value.2.upperPending && !r.value.2.lowerPending
    ensures r.Ok? ==> forall k :: 0 <= k < |r.value.1| ==> r.value.1[k].1 !in setUp && r.value.1[k].0 in r.value.0
    ensures r.Ok? ==> forall j, k :: 0 <= j < k < |r.value.1| ==> r.value.1[j].1 != r.value.1[k].1
    decreases |bucket|
  {
    if |bucket| == 0 then Ok(([], [], s))
    else
      var b := bucket[0];
      var re := ReentryFlags(shape, s, o, ltp(b));
      if re.Err? then Err(re.fault)
      else
        var enter := EntryOpen(flat, s, re.value);
        var triggered := s.upperPending || s.lowerPending;
        var s' := if triggered then s.(upperPending := false, lowerPending := false) else s;
        var news := if enter then (if CE in setUp then [] else [(b, CE)]) + (if PE in setUp then [] else [(b, PE)]) else [];
        var setUp' := if enter then setUp + {CE, PE} else setUp;
        var rest := SelectBreachEntry(shape, flat, s', o, ltp, bucket[1..], setUp');
        if rest.Err? then rest
        else
          assert forall x :: x in rest.value.0 ==> x in bucket;
          Ok(((if enter then [b] else []) + rest.value.0, news + rest.value.1, rest.value.2))
  }

  /** With empty ledgers and no breach pending, every base of the scan
      enters and the first of them sets up both option chains. */
  lemma {:induction false} NoPendingEntersAll(shape: Shape, s: BreachState, o: Offsets, ltp: Instrument -> real,
                                              bucket: seq<Instrument>)
    requires !s.upperPending && !s.lowerPending
    ensures var r := SelectBreachEntry(shape, true, s, o, ltp, bucket, {});
            r.Ok? && r.value.0 == bucket
            && r.value.1 == (if |bucket| == 0 then [] else [(bucket[0], CE), (bucket[0], PE)])
  {
    if |bucket| > 0 {
      assert {} + {CE, PE} == {CE, PE};
      NoPendingEntersAllAfterSetup(shape, s, o, ltp, bucket[1..]);
    }
  }

  /** The rest of the scan once both chains are set up. */
  lemma {:induction false} NoPendingEntersAllAfterSetup(shape: Shape, s: BreachState, o: Offsets, ltp: Instrument -> real,
                                                        bucket: seq<Instrument>)
    requires !s.upperPending && !s.lowerPending
    ensures var r := SelectBreachEntry(shape, true, s, o, ltp, bucket, {CE, PE});
            r.Ok? && r.value.0 == bucket && r.value.1 == []
    decreases |bucket|
  {
    if |bucket| > 0 {
      NoPendingEntersAllAfterSetup(shape, s, o, ltp, bucket[1..]);
      assert {CE, PE} + {CE, PE} == {CE, PE};
    }
  }

  /** A pending breach only delays re-entry by one scan: if the price has
      not come back by the offset, the first scan enters nothing but
      clears the flags, and the next scan enters every base whatever the
      price does. */
  lemma PendingBreachDelaysOneScan(shape: Shape, s: BreachState, o: Offsets, ltp: Instrument -> real, b: Instrument)
    requires Consistent(s, o) && (s.upperPending || s.lowerPending)
    requires ReentryFlags(shape, s, o, ltp(b)) == Ok((false, false))
    ensures var r1 := SelectBreachEntry(shape, true, s, o, ltp, [b], {});
            r1.Ok? && r1.value.0 == []
            && var r2 := SelectBreachEntry(shape, true, r1.value.2, o, ltp, [b], {});
            r2.Ok? && r2.value.0 == [b]
  {
    var r1 := SelectBreachEntry(shape, true, s, o, ltp, [b], {});
    assert [b][1..] == [];
    NoPendingEntersAll(shape, r1.value.2, o, ltp, [b]);
  }

  /** With a breach pending, a base enters exactly when the price has come
      back by the offset on the side that breached. */
  lemma PendingReentryIff(shape: Shape, s: BreachState, o: Offsets, current: real)
    requires Consistent(s, o) && (s.upperPending || s.lowerPending)
    ensures var re := ReentryFlags(shape, s, o, current);
            var ref := s.reference.value;
            re.Ok? && (EntryOpen(true, s, re.value) <==>
                         (s.upperPending && ref - current >= o.upper.value)
                         || (s.lowerPending && current - ref >= o.lower.value))
  {
  }

  // ---------------------------------------------------------------------
  // Placement and exit
  // ---------------------------------------------------------------------

  /** The two ledgers, filed by suffix, and the strategy state. */
  datatype Books = Books(ce: Legbook<LegName>, pe: Legbook<LegName>, state: BreachState)

  /** strategy_enter_position: the reference price becomes the base's
      current price; a placed leg is filed in the ledger of its suffix; a
      failed leg exits every leg of the base from both ledgers and stops
      the strategy. */
  function EnterBreachLeg(bk: Books, base: Instrument, leg: BreachLeg, o: Option<BrokerOrder>, baseLtp: real)
    : (r: (Books, seq<Instrument>, bool))
    ensures r.0.state == bk.state.(reference := Some(baseLtp))
    ensures r.2 <==> !PlacedSuccessfully(o)
    ensures !r.2 && leg.spec.suffix == CE ==> base in r.0.ce && Lookup(r.0.ce[base], leg.name) == Some(o) && r.0.pe == bk.pe
    ensures !r.2 && leg.spec.suffix == PE ==> base in r.0.pe && Lookup(r.0.pe[base], leg.name) == Some(o) && r.0.ce == bk.ce
    ensures r.2 ==> base !in r.0.ce && base !in r.0.pe
                    && r.1 == Children(LegsOf(bk.ce, base)) + Children(LegsOf(bk.pe, base))
    ensures !r.2 ==> forall j :: j != leg.name ==>
              Lookup(LegsOf(r.0.ce, base), j) == Lookup(LegsOf(bk.ce, base), j)
              && Lookup(LegsOf(r.0.pe, base), j) == Lookup(LegsOf(bk.pe, base), j)
    ensures forall b :: b != base ==> (b in r.0.ce <==> b in bk.ce) && (b in bk.ce ==> r.0.ce[b] == bk.ce[b])
    ensures forall b :: b != base ==> (b in r.0.pe <==> b in bk.pe) && (b in bk.pe ==> r.0.pe[b] == bk.pe[b])
  {
    var st := bk.state.(reference := Some(baseLtp));
    if PlacedSuccessfully(o) then
      if leg.spec.suffix == CE then (Books(bk.ce[base := Put(LegsOf(bk.ce, base), leg.name, o)], bk.pe, st), [], false)
      else (Books(bk.ce, bk.pe[base := Put(LegsOf(bk.pe, base), leg.name, o)], st), [], false)
    else
      var gone := ExitBreachBase(bk, base);
      (gone.0.(state := st), gone.1, true)
  }

  /** exit_all_positions_for_base_instrument: exit every truthy leg of the
      base in both ledgers and drop the base from both. */
  function ExitBreachBase(bk: Books, base: Instrument): (r: (Books, seq<Instrument>))
    ensures base !in r.0.ce && base !in r.0.pe && r.0.state == bk.state
    ensures r.1 == Children(LegsOf(bk.ce, base)) + Children(LegsOf(bk.pe, base))
    ensures forall b :: b != base ==> (b in r.0.ce <==> b in bk.ce) && (b in bk.ce ==> r.0.ce[b] == bk.ce[b])
    ensures forall b :: b != base ==> (b in r.0.pe <==> b in bk.pe) && (b in bk.pe ==> r.0.pe[b] == bk.pe[b])
  {
    var c := ExitBase(bk.ce, base);
    var p := ExitBase(bk.pe, base);
    (Books(c.1, p.1, bk.state), c.0 + p.0)
  }

  /** The legs of a base as the exit scan lists them: CE then PE. */
  function BothLegs(ce: Legbook<LegName>, pe: Legbook<LegName>, b: Instrument): seq<Slot<LegName>>
    requires b in ce && b in pe
  {
    ce[b] + pe[b]
  }

  /** The bases whose breach is checked in one scan, in bucket order, and
      whether the scan meets a base missing from either ledger (an
      AttributeError that ends it after the bases before). A mapped
      child's base is looked at once; it is checked when all its legs are
      complete, vacuously so when it has none. */
  function BreachCheckOrder(ce: Legbook<LegName>, pe: Legbook<LegName>, mapper: map<Instrument, Instrument>,
                            bucket: seq<Instrument>, done: seq<Instrument>): (r: (seq<Instrument>, bool))
    ensures Distinct(r.0)
    ensures forall b :: b in r.0 ==> b !in done && b in ce && b in pe && AllComplete(BothLegs(ce, pe, b))
    ensures forall b :: b in r.0 ==> exists i :: i in bucket && i in mapper && mapper[i] == b
    ensures r.1 <==> exists i :: i in bucket && i in mapper && mapper[i] !in done && (mapper[i] !in ce || mapper[i] !in pe)
    ensures !r.1 ==> forall i ::
              (i in bucket && i in mapper && mapper[i] !in done && AllComplete(BothLegs(ce, pe, mapper[i])))
              ==> mapper[i] in r.0
    decreases |bucket|
  {
    if |bucket| == 0 then ([], false)
    else
      assert forall i :: i in bucket[1..] ==> i in bucket;
      assert forall i :: i in bucket ==> i == bucket[0] || i in bucket[1..];
      if bucket[0] !in mapper || mapper[bucket[0]] in done then
        BreachCheckOrder(ce, pe, mapper, bucket[1..], done)
      else
        var b := mapper[bucket[0]];
        if b !in ce || b !in pe then ([], true)
        else
          var rest := BreachCheckOrder(ce, pe, mapper, bucket[1..], done + [b]);
          if AllComplete(BothLegs(ce, pe, b)) then
            assert forall k :: 1 <= k < |[b] + rest.0| ==> ([b] + rest.0)[k] == rest.0[k - 1];
            ([b] + rest.0, rest.1)
          else rest
  }

  /** The breach check as the exit scan calls it: on the underlying's
      price, against the one reference the strategy keeps. */
  function BreachCheck(shape: Shape, o: Offsets, ltp: Instrument -> real)
    : (BreachState, Instrument) -> Result<(bool, BreachState)>
  {
    (s: BreachState, b: Instrument) => CheckExit(shape, s, o, ltp(b))
  }

  /** The two ledgers seen as one leg book: each base held in both maps to
      its CE legs followed by its PE legs. */
  function Merged(ce: Legbook<LegName>, pe: Legbook<LegName>): (book: Legbook<LegName>)
    ensures forall b :: b in book <==> b in ce && b in pe
    ensures forall b :: b in book ==> |book[b]| == |ce[b]| + |pe[b]|
    ensures forall b :: b in book ==> book[b][..|ce[b]|] == ce[b] && book[b][|ce[b]|..] == pe[b]
  {
    map b | b in ce.Keys * pe.Keys :: BothLegs(ce, pe, b)
  }

  /** strategy_select_instruments_for_exit: (children, EXIT meta bases,
      breach state after the scan). The breach checks run in order on the
      one reference the strategy keeps, the first error ends the scan,
      and a base missing from either ledger fails it after the bases
      before it were checked. A base is exited exactly when its check
      fired and it holds legs, and then with every one of them. */
  function SelectBreachExit(shape: Shape, ce: Legbook<LegName>, pe: Legbook<LegName>, s: BreachState, o: Offsets,
                            ltp: Instrument -> real, mapper: map<Instrument, Instrument>, bucket: seq<Instrument>)
    : (r: Result<(seq<Instrument>, seq<Instrument>, BreachState)>)
    ensures var order := BreachCheckOrder(ce, pe, mapper, bucket, []);
            var run := RunChecks(BreachCheck(shape, o, ltp), s, order.0);
            (r.Err? <==> run.Err? || order.1)
            && (r.Ok? ==>
                  r.value.2 == run.value.1
                  && |r.value.0| == |r.value.1|
                  && (forall k :: 0 <= k < |r.value.0| ==>
                        r.value.1[k] in ce && r.value.1[k] in pe
                        && r.value.0[k] in Children(BothLegs(ce, pe, r.value.1[k])))
                  && (forall b :: b in r.value.1 <==>
                        exists k :: 0 <= k < |order.0| && order.0[k] == b && run.value.0[k]
                                    && |BothLegs(ce, pe, b)| > 0)
                  && (forall c :: c in r.value.0 <==>
                        exists k :: 0 <= k < |order.0| && run.value.0[k]
                                    && c in Children(BothLegs(ce, pe, order.0[k]))))
  {
    var order := BreachCheckOrder(ce, pe, mapper, bucket, []);
    match RunChecks(BreachCheck(shape, o, ltp), s, order.0)
    case Err(f) => Err(f)
    case Ok(run) =>
      if order.1 then Err(MissingKey)
      else
        var e := EmitFired(Merged(ce, pe), order.0, run.0);
        Ok((e.0, e.1, run.1))
  }

  /** With both offsets disabled no breach check fails or fires, so a
      scan that meets every base in both ledgers exits nothing. */
  lemma DisabledOffsetsNeverExit(shape: Shape, ce: Legbook<LegName>, pe: Legbook<LegName>, s: BreachState,
                                 o: Offsets, ltp: Instrument -> real, mapper: map<Instrument, Instrument>,
                                 bucket: seq<Instrument>)
    requires !Truthy(o.upper) && !Truthy(o.lower)
    requires forall i :: i in bucket && i in mapper ==> mapper[i] in ce && mapper[i] in pe
    ensures var r := SelectBreachExit(shape, ce, pe, s, o, ltp, mapper, bucket);
            r.Ok? && (forall c :: c !in r.value.0) && (forall b :: b !in r.value.1)
  {
    var order := BreachCheckOrder(ce, pe, mapper, bucket, []);
    forall st: BreachState, b: Instrument
      ensures BreachCheck(shape, o, ltp)(st, b).Ok? && !BreachCheck(shape, o, ltp)(st, b).value.0
    {
      assert BreachCheck(shape, o, ltp)(st, b) == CheckExit(shape, st, o, ltp(b));
    }
    NeverFires(BreachCheck(shape, o, ltp), s, order.0);
  }

  /** Entering the four legs of a flat base, every one placed, files each
      CE leg in the CE ledger and each PE leg in the PE ledger under its
      key; exiting the base afterwards leaves both ledgers as they were
      before the entry. */
  lemma FourLegsFiledBySuffix(bk: Books, base: Instrument, legs: seq<BreachLeg>, os: seq<BrokerOrder>, px: real)
    requires |legs| == 4 && |os| == 4 && base !in bk.ce && base !in bk.pe
    requires [legs[0].name, legs[1].name, legs[2].name, legs[3].name] == [CeBuy, CeSell, PeBuy, PeSell]
    requires [legs[0].spec.suffix, legs[1].spec.suffix, legs[2].spec.suffix, legs[3].spec.suffix] == [CE, CE, PE, PE]
    requires forall k :: 0 <= k < 4 ==> PlacedSuccessfully(Some(os[k]))
    ensures var e1 := EnterBreachLeg(bk, base, legs[0], Some(os[0]), px);
            var e2 := EnterBreachLeg(e1.0, base, legs[1], Some(os[1]), px);
            var e3 := EnterBreachLeg(e2.0, base, legs[2], Some(os[2]), px);
            var e4 := EnterBreachLeg(e3.0, base, legs[3], Some(os[3]), px);
            !e1.2 && !e2.2 && !e3.2 && !e4.2
            && Lookup(LegsOf(e4.0.ce, base), CeBuy) == Some(Some(os[0]))
            && Lookup(LegsOf(e4.0.ce, base), CeSell) == Some(Some(os[1]))
            && Lookup(LegsOf(e4.0.pe, base), PeBuy) == Some(Some(os[2]))
            && Lookup(LegsOf(e4.0.pe, base), PeSell) == Some(Some(os[3]))
            && var x := ExitBreachBase(e4.0, base);
            x.0.ce == bk.ce && x.0.pe == bk.pe
  {
    assert PlacedSuccessfully(Some(os[0])) && PlacedSuccessfully(Some(os[1]));
    assert PlacedSuccessfully(Some(os[2])) && PlacedSuccessfully(Some(os[3]));
    var e1 := EnterBreachLeg(bk, base, legs[0], Some(os[0]), px);
    var e2 := EnterBreachLeg(e1.0, base, legs[1], Some(os[1]), px);
    var e3 := EnterBreachLeg(e2.0, base, legs[2], Some(os[2]), px);
    var e4 := EnterBreachLeg(e3.0, base, legs[3], Some(os[3]), px);
    assert Lookup(LegsOf(e2.0.ce, base), CeBuy) == Some(Some(os[0]));
    assert Lookup(LegsOf(e3.0.pe, base), PeBuy) == Some(Some(os[2]));
    assert AgreeOff(e2.0, bk, base);
    assert AgreeOff(e4.0, bk, base);
    ExitRestoresAgreeing(bk, e4.0, base);
  }

  /** The two ledger pairs hold the same legs for every base but `base`. */
  ghost predicate AgreeOff(a: Books, b: Books, base: Instrument)
  {
    (forall x :: x != base ==> (x in a.ce <==> x in b.ce) && (x in b.ce ==> a.ce[x] == b.ce[x]))
    && (forall x :: x != base ==> (x in a.pe <==> x in b.pe) && (x in b.pe ==> a.pe[x] == b.pe[x]))
  }

  /** Exiting a base from ledgers that differ from flat ones only at that
      base gives back the flat ones. */
  lemma ExitRestoresAgreeing(flat: Books, bk: Books, base: Instrument)
    requires base !in flat.ce && base !in flat.pe && AgreeOff(bk, flat, base)
    ensures var x := ExitBreachBase(bk, base);
            x.0.ce == flat.ce && x.0.pe == flat.pe
  {
    var x := ExitBreachBase(bk, base);
    assert x.0.ce.Keys == flat.ce.Keys;
    assert x.0.pe.Keys == flat.pe.Keys;
  }
}
