/** The short straddle and short strangle with target and risk control:
    per base instrument one CE and one PE leg are sold (ATM for the
    straddle, N strikes OTM for the strangle), filed by suffix, and both
    are bought back together once their combined price falls below a
    target or rises above a stoploss, both fixed from the premium
    collected at entry. */
module Straddles {
  import opened Common
  import opened Ledger
  import opened OptionLegs
  import Parameters

  /** Which of the two files: the strangle's strike count must be a
      positive integer. */
  datatype Shape = Straddle | Strangle(strikes: nat)

  predicate ValidShape(s: Shape)
  {
    s.Strangle? ==> s.strikes >= 1
  }

  /** The parameters: both must be non-negative numbers. */
  datatype Params = Params(targetPct: real, stoplossMultiplier: real)

  predicate ValidParams(p: Params)
  {
    p.targetPct >= 0.0 && p.stoplossMultiplier >= 0.0
  }

  const StrikesKey := "NUMBER_OF_STRIKES"
  const TargetKey := "TARGET_PERCENTAGE"
  const MultiplierKey := "STOPLOSS_MULTIPLIER"

  /** The keys each constructor reads with `[]`, in order. */
  function StraddleKeys(strangle: bool): (keys: seq<string>)
    ensures Parameters.DistinctKeys(keys)
  {
    if strangle then [StrikesKey, TargetKey, MultiplierKey] else [TargetKey, MultiplierKey]
  }

  /** The constructor, then validate_parameters. The keys are read with
      `[]` first, so a missing one raises KeyError before any check runs;
      the entry count asked for next (two, three for the strangle) then
      always holds. The strangle's strike count must be a positive int,
      then exactly one allowed expiry date is required (else the strategy
      stops), then both numbers must be non-negative ints or floats. */
  function ValidateStraddle(strangle: bool, params: map<string, Parameters.Number>, expiries: int)
    : (r: Result<(Shape, Params)>)
    ensures r.Ok? <==> TargetKey in params && MultiplierKey in params
                       && (strangle ==> StrikesKey in params && Parameters.PositiveInt(params[StrikesKey]))
                       && expiries == 1
                       && Parameters.NonNegative(params[TargetKey]) && Parameters.NonNegative(params[MultiplierKey])
    ensures TargetKey !in params || MultiplierKey !in params || (strangle && StrikesKey !in params)
            ==> r == Err(MissingKey)
    ensures TargetKey in params && MultiplierKey in params && (strangle ==> StrikesKey in params) && r.Err? ==>
              (r.fault == SystemExit <==> (strangle ==> Parameters.PositiveInt(params[StrikesKey])) && expiries != 1)
              && (r.fault == SystemExit || r.fault == InvalidArgument)
    ensures r.Ok? ==> ValidShape(r.value.0) && ValidParams(r.value.1)
                      && r.value.1 == Params(Parameters.Value(params[TargetKey]), Parameters.Value(params[MultiplierKey]))
                      && (r.value.0.Strangle? <==> strangle)
                      && (strangle ==> r.value.0.strikes == params[StrikesKey].i)
  {
    var keys := StraddleKeys(strangle);
    var vals := Parameters.Fetch(params, keys);
    if vals.Err? then
      assert !strangle ==> keys[0] == TargetKey && keys[1] == MultiplierKey;
      assert strangle ==> keys[0] == StrikesKey && keys[1] == TargetKey && keys[2] == MultiplierKey;
      Err(MissingKey)
    else
      assert TargetKey in params && MultiplierKey in params && (strangle ==> StrikesKey in params) by {
        assert keys[|keys| - 2] == TargetKey && keys[|keys| - 1] == MultiplierKey;
        assert strangle ==> keys[0] == StrikesKey;
      }
      if |params| < |keys| then
        Parameters.KeysCounted(params, keys);
        Err(InvalidArgument)
      else if strangle && !Parameters.PositiveInt(params[StrikesKey]) then Err(InvalidArgument)
      else if expiries != 1 then Err(SystemExit)
      else if !Parameters.NonNegative(params[TargetKey]) || !Parameters.NonNegative(params[MultiplierKey]) then
        Err(InvalidArgument)
      else
        var shape := if strangle then Strangle(params[StrikesKey].i) else Straddle;
        Ok((shape, Params(Parameters.Value(params[TargetKey]), Parameters.Value(params[MultiplierKey]))))
  }

  /** A dictionary with only the target percentage is a KeyError for both
      files, not the argument error the entry count would report. */
  lemma ShortDictionaryIsKeyError()
    ensures ValidateStraddle(false, map[TargetKey := Parameters.Int(10)], 1) == Err(MissingKey)
    ensures ValidateStraddle(true, map[TargetKey := Parameters.Int(10)], 1) == Err(MissingKey)
  {
    assert MultiplierKey !in map[TargetKey := Parameters.Int(10)];
  }

  /** The leg sold for one suffix. */
  function LegFor(shape: Shape, suffix: Suffix): (spec: LegSpec)
    ensures spec.side == Sell && spec.suffix == suffix
    ensures shape == Straddle ==> spec.dir == ATM && spec.strikes == 0
    ensures shape.Strangle? ==> spec.dir == OTM && spec.strikes == shape.strikes
  {
    match shape
    case Straddle => LegSpec(Sell, suffix, ATM, 0, 0)
    case Strangle(n) => LegSpec(Sell, suffix, OTM, n, 0)
  }

  /** The CE and PE main orders, each keyed by base instrument. */
  datatype Books = Books(ce: map<Instrument, BrokerOrder>, pe: map<Instrument, BrokerOrder>)

  function BookOf(bk: Books, suffix: Suffix): map<Instrument, BrokerOrder>
  {
    if suffix == CE then bk.ce else bk.pe
  }

  /** strategy_select_instruments_for_entry: for each base, CE then PE,
      the leg is selected exactly when that suffix has no order for the
      base yet. */
  function SelectStraddleEntry(shape: Shape, bk: Books, bucket: seq<Instrument>): (r: seq<(Instrument, LegSpec)>)
    ensures forall k :: 0 <= k < |r| ==> r[k].0 in bucket && r[k].0 !in BookOf(bk, r[k].1.suffix)
                                         && r[k].1 == LegFor(shape, r[k].1.suffix)
    ensures forall b, suffix :: b in bucket && b !in BookOf(bk, suffix) ==> (b, LegFor(shape, suffix)) in r
    decreases |bucket|
  {
    if |bucket| == 0 then []
    else
      var b := bucket[0];
      var here := (if b in bk.ce then [] else [(b, LegFor(shape, CE))])
                  + (if b in bk.pe then [] else [(b, LegFor(shape, PE))]);
      var rest := SelectStraddleEntry(shape, bk, bucket[1..]);
      assert forall x :: x in bucket[1..] ==> x in bucket;
      assert forall x :: x in bucket ==> x == b || x in bucket[1..];
      here + rest
  }

  /** A flat base gets both legs in one scan; a base holding both gets none. */
  lemma EntryFillsMissingLegs(shape: Shape, bk: Books, b: Instrument)
    ensures b !in bk.ce && b !in bk.pe ==>
              SelectStraddleEntry(shape, bk, [b]) == [(b, LegFor(shape, CE)), (b, LegFor(shape, PE))]
    ensures b in bk.ce && b in bk.pe ==> SelectStraddleEntry(shape, bk, [b]) == []
  {
    assert [b][1..] == [];
  }

  /** strategy_enter_position: a placed order is filed under its suffix;
      a failed one exits both legs of the base and stops the strategy
      (ABSystemExit). Returns the books, the children exited and whether
      the strategy stopped. */
  function EnterStraddleLeg(bk: Books, base: Instrument, suffix: Suffix, o: Option<BrokerOrder>)
    : (r: (Books, seq<Instrument>, bool))
    ensures r.2 <==> !PlacedSuccessfully(o)
    ensures !r.2 ==> BookOf(r.0, suffix) == BookOf(bk, suffix)[base := o.value]
                     && BookOf(r.0, Other(suffix)) == BookOf(bk, Other(suffix))
    ensures r.2 ==> r.0 == ExitStraddleBase(bk, base).0 && r.1 == ExitStraddleBase(bk, base).1
  {
    if PlacedSuccessfully(o) then
      (if suffix == CE then bk.(ce := bk.ce[base := o.value]) else bk.(pe := bk.pe[base := o.value]), [], false)
    else
      var x := ExitStraddleBase(bk, base);
      (x.0, x.1, true)
  }

  function Other(s: Suffix): Suffix
  {
    if s == CE then PE else CE
  }

  /** exit_all_positions_for_base_instrument: exit whichever legs exist
      (CE first) and forget both. */
  function ExitStraddleBase(bk: Books, base: Instrument): (r: (Books, seq<Instrument>))
    ensures base !in r.0.ce && base !in r.0.pe
    ensures r.0.ce == bk.ce - {base} && r.0.pe == bk.pe - {base}
    ensures |r.1| <= 2
    ensures forall x :: x in r.1 <==> (base in bk.ce && x == bk.ce[base].child) || (base in bk.pe && x == bk.pe[base].child)
  {
    var exits := (if base in bk.ce then [bk.ce[base].child] else []) + (if base in bk.pe then [bk.pe[base].child] else []);
    (Books(bk.ce - {base}, bk.pe - {base}), exits)
  }

  /** check_exit_condition: the two legs' combined current price against a
      target (first) and a stoploss derived from the premium collected.
      The function falls through to `None`, which reads as false. */
  function CheckStraddleExit(ce: BrokerOrder, pe: BrokerOrder, ltp: Instrument -> real, p: Params): (exit: bool)
    ensures var collected := ce.entryPrice + pe.entryPrice;
            var now := ltp(ce.child) + ltp(pe.child);
            exit <==> now < collected * (1.0 - p.targetPct / 100.0) || now > collected * p.stoplossMultiplier
  {
    var total := ltp(ce.child) + ltp(pe.child);
    var net := ce.entryPrice + pe.entryPrice;
    total < net * (1.0 - p.targetPct / 100.0) || total > net * p.stoplossMultiplier
  }

  /** With a stoploss multiplier of at least one, legs still priced at what
      was collected never exit; and a price that exits through the
      stoploss keeps exiting as the price rises further. */
  lemma StraddleBand(ce: BrokerOrder, pe: BrokerOrder, ltp: Instrument -> real, ltp': Instrument -> real, p: Params)
    requires ValidParams(p) && p.stoplossMultiplier >= 1.0 && ce.entryPrice + pe.entryPrice >= 0.0
    ensures ltp(ce.child) + ltp(pe.child) == ce.entryPrice + pe.entryPrice ==> !CheckStraddleExit(ce, pe, ltp, p)
    ensures ltp(ce.child) + ltp(pe.child) > (ce.entryPrice + pe.entryPrice) * p.stoplossMultiplier
            && ltp'(ce.child) + ltp'(pe.child) >= ltp(ce.child) + ltp(pe.child)
            ==> CheckStraddleExit(ce, pe, ltp', p)
  {
    var net := ce.entryPrice + pe.entryPrice;
    NonNegativeProduct(net, p.targetPct / 100.0);
    NonNegativeProduct(net, p.stoplossMultiplier - 1.0);
    assert net * (1.0 - p.targetPct / 100.0) == net - net * (p.targetPct / 100.0);
    assert net * p.stoplossMultiplier == net + net * (p.stoplossMultiplier - 1.0);
  }

  lemma NonNegativeProduct(a: real, b: real)
    requires a >= 0.0 && b >= 0.0
    ensures a * b >= 0.0
  {
  }

  /** Both orders of the base exist and are complete and its exit check
      fires. */
  predicate StraddleFires(bk: Books, ltp: Instrument -> real, p: Params, b: Instrument)
  {
    b in bk.ce && b in bk.pe && CompleteStatus(Some(bk.ce[b])) && CompleteStatus(Some(bk.pe[b]))
    && CheckStraddleExit(bk.ce[b], bk.pe[b], ltp, p)
  }

  /** The bases of the bucket's mapped instruments that are not in `done`,
      each once, in bucket order: the bases an exit scan looks at. */
  function LookedAt(mapper: map<Instrument, Instrument>, bucket: seq<Instrument>, done: seq<Instrument>)
    : (r: seq<Instrument>)
    ensures Distinct(r)
    ensures forall b :: b in r <==> b !in done && exists i :: i in bucket && i in mapper && mapper[i] == b
    decreases |bucket|
  {
    if |bucket| == 0 then []
    else
      assert forall i :: i in bucket[1..] ==> i in bucket;
      assert forall i :: i in bucket ==> i == bucket[0] || i in bucket[1..];
      if bucket[0] !in mapper || mapper[bucket[0]] in done then LookedAt(mapper, bucket[1..], done)
      else
        var b := mapper[bucket[0]];
        var rest := LookedAt(mapper, bucket[1..], done + [b]);
        assert b !in rest;
        assert forall k :: 1 <= k < |[b] + rest| ==> ([b] + rest)[k] == rest[k - 1];
        [b] + rest
  }

  /** Each child of the selection is a leg of the base its meta entry
      names, and that base is one of `bases` that fired. */
  predicate StraddlePaired(bk: Books, bases: seq<Instrument>, fired: set<Instrument>,
                          kids: seq<Instrument>, metas: seq<Instrument>)
  {
    |kids| == |metas|
    && forall k :: 0 <= k < |metas| ==>
         metas[k] in bases && metas[k] in fired && metas[k] in bk.ce && metas[k] in bk.pe
         && (kids[k] == bk.ce[metas[k]].child || kids[k] == bk.pe[metas[k]].child)
  }

  /** Every base of `bases` that fired is selected with both its
      children. */
  predicate StraddleCovers(bk: Books, bases: seq<Instrument>, fired: set<Instrument>,
                           kids: seq<Instrument>, metas: seq<Instrument>)
  {
    forall b :: b in bases && b in fired && b in bk.ce && b in bk.pe ==>
      b in metas && bk.ce[b].child in kids && bk.pe[b].child in kids
  }

  /** Putting a firing base's two children before a paired selection of
      the remaining bases keeps it paired. */
  lemma PairedCons(bk: Books, bases: seq<Instrument>, fired: set<Instrument>,
                   kids: seq<Instrument>, metas: seq<Instrument>)
    requires |bases| > 0 && bases[0] in fired && bases[0] in bk.ce && bases[0] in bk.pe
    requires StraddlePaired(bk, bases[1..], fired, kids, metas)
    ensures StraddlePaired(bk, bases, fired, [bk.ce[bases[0]].child, bk.pe[bases[0]].child] + kids,
                           [bases[0], bases[0]] + metas)
  {
    var b := bases[0];
    var kids' := [bk.ce[b].child, bk.pe[b].child] + kids;
    var metas' := [b, b] + metas;
    forall k | 0 <= k < |metas'|
      ensures metas'[k] in bases && metas'[k] in fired && metas'[k] in bk.ce && metas'[k] in bk.pe
              && (kids'[k] == bk.ce[metas'[k]].child || kids'[k] == bk.pe[metas'[k]].child)
    {
      if k >= 2 {
        assert metas'[k] == metas[k - 2] && kids'[k] == kids[k - 2];
        assert metas[k - 2] in bases[1..];
      }
    }
  }

  /** Putting a firing base's two children before a covering selection of
      the remaining bases keeps it covering. */
  lemma CoversCons(bk: Books, bases: seq<Instrument>, fired: set<Instrument>,
                   kids: seq<Instrument>, metas: seq<Instrument>)
    requires |bases| > 0 && bases[0] in bk.ce && bases[0] in bk.pe
    requires StraddleCovers(bk, bases[1..], fired, kids, metas)
    ensures StraddleCovers(bk, bases, fired, [bk.ce[bases[0]].child, bk.pe[bases[0]].child] + kids,
                           [bases[0], bases[0]] + metas)
  {
    var b := bases[0];
    forall x | x in bases && x in fired && x in bk.ce && x in bk.pe
      ensures x in [b, b] + metas && bk.ce[x].child in [bk.ce[b].child, bk.pe[b].child] + kids
              && bk.pe[x].child in [bk.ce[b].child, bk.pe[b].child] + kids
    {
      if x != b {
        assert x in bases[1..];
      }
    }
  }

  /** Skipping a base that does not fire, or lacks a leg, keeps a paired
      and covering selection of the remaining bases so. */
  lemma StraddleSkip(bk: Books, bases: seq<Instrument>, fired: set<Instrument>,
                     kids: seq<Instrument>, metas: seq<Instrument>)
    requires |bases| > 0 && !(bases[0] in fired && bases[0] in bk.ce && bases[0] in bk.pe)
    requires StraddlePaired(bk, bases[1..], fired, kids, metas)
    requires StraddleCovers(bk, bases[1..], fired, kids, metas)
    ensures StraddlePaired(bk, bases, fired, kids, metas) && StraddleCovers(bk, bases, fired, kids, metas)
  {
    forall k | 0 <= k < |metas|
      ensures metas[k] in bases
    {
      assert metas[k] in bases[1..];
    }
    forall x | x in bases && x in fired && x in bk.ce && x in bk.pe
      ensures x in metas && bk.ce[x].child in kids && bk.pe[x].child in kids
    {
      assert x in bases[1..];
    }
  }

  /** How many of `bases` fire and hold both legs. */
  function Firing(bk: Books, bases: seq<Instrument>, fired: set<Instrument>): nat
    decreases |bases|
  {
    if |bases| == 0 then 0
    else (if bases[0] in fired && bases[0] in bk.ce && bases[0] in bk.pe then 1 else 0) + Firing(bk, bases[1..], fired)
  }

  /** The selection built from the bases looked at: both children of
      every base in `fired`, CE first, with one EXIT
      meta entry each. */
  function StraddleEmit(bk: Books, bases: seq<Instrument>, fired: set<Instrument>)
    : (r: (seq<Instrument>, seq<Instrument>))
    ensures |r.0| == 2 * Firing(bk, bases, fired)
    ensures StraddlePaired(bk, bases, fired, r.0, r.1)
    ensures StraddleCovers(bk, bases, fired, r.0, r.1)
    decreases |bases|
  {
    if |bases| == 0 then ([], [])
    else
      var b := bases[0];
      var rest := StraddleEmit(bk, bases[1..], fired);
      if b in fired && b in bk.ce && b in bk.pe then
        PairedCons(bk, bases, fired, rest.0, rest.1);
        CoversCons(bk, bases, fired, rest.0, rest.1);
        ([bk.ce[b].child, bk.pe[b].child] + rest.0, [b, b] + rest.1)
      else
        StraddleSkip(bk, bases, fired, rest.0, rest.1);
        rest
  }

  /** The exit selection over the bases looked at: both children of every
      such base whose orders are complete and whose check fires, one EXIT
      meta entry each. */
  function ExitsOf(bk: Books, ltp: Instrument -> real, p: Params, looked: seq<Instrument>)
    : (r: (seq<Instrument>, seq<Instrument>))
    ensures |r.0| == |r.1| && |r.0| % 2 == 0
    ensures forall k :: 0 <= k < |r.1| ==>
              r.1[k] in looked && StraddleFires(bk, ltp, p, r.1[k])
              && (r.0[k] == bk.ce[r.1[k]].child || r.0[k] == bk.pe[r.1[k]].child)
    ensures forall b :: b in looked && StraddleFires(bk, ltp, p, b) ==>
              b in r.1 && bk.ce[b].child in r.0 && bk.pe[b].child in r.0
  {
    var fired := set b | b in looked && StraddleFires(bk, ltp, p, b);
    var e := StraddleEmit(bk, looked, fired);
    PairedLift(bk, ltp, p, looked, fired, e.0, e.1);
    CoversLift(bk, ltp, p, looked, fired, e.0, e.1);
    Twice(|e.0|, Firing(bk, looked, fired));
    e
  }

  /** Twice a number is even. */
  lemma Twice(x: int, n: int)
    requires x == 2 * n
    ensures x % 2 == 0
  {
  }

  /** A paired selection over the bases that fired, read in terms of the
      exit test itself. */
  lemma PairedLift(bk: Books, ltp: Instrument -> real, p: Params, looked: seq<Instrument>, fired: set<Instrument>,
                   kids: seq<Instrument>, metas: seq<Instrument>)
    requires forall b :: b in fired ==> StraddleFires(bk, ltp, p, b)
    requires StraddlePaired(bk, looked, fired, kids, metas)
    ensures forall k :: 0 <= k < |metas| ==>
              metas[k] in looked && StraddleFires(bk, ltp, p, metas[k]) && metas[k] in bk.ce && metas[k] in bk.pe
              && (kids[k] == bk.ce[metas[k]].child || kids[k] == bk.pe[metas[k]].child)
  {
    forall k | 0 <= k < |metas|
      ensures metas[k] in looked && StraddleFires(bk, ltp, p, metas[k]) && metas[k] in bk.ce && metas[k] in bk.pe
              && (kids[k] == bk.ce[metas[k]].child || kids[k] == bk.pe[metas[k]].child)
    {
      assert metas[k] in fired;
    }
  }

  /** A covering selection over the bases that fired, read in terms of the
      exit test itself. */
  lemma CoversLift(bk: Books, ltp: Instrument -> real, p: Params, looked: seq<Instrument>, fired: set<Instrument>,
                   kids: seq<Instrument>, metas: seq<Instrument>)
    requires forall b :: b in looked && StraddleFires(bk, ltp, p, b) ==> b in fired
    requires StraddleCovers(bk, looked, fired, kids, metas)
    ensures forall b :: b in looked && StraddleFires(bk, ltp, p, b) ==>
              b in metas && bk.ce[b].child in kids && bk.pe[b].child in kids
  {
    forall b | b in looked && StraddleFires(bk, ltp, p, b)
      ensures b in metas && bk.ce[b].child in kids && bk.pe[b].child in kids
    {
      assert b in fired;
    }
  }

  /** Some instrument of the bucket is a mapped child of base `b`. */
  predicate MappedBase(mapper: map<Instrument, Instrument>, bucket: seq<Instrument>, b: Instrument)
  {
    exists i :: i in bucket && i in mapper && mapper[i] == b
  }

  /** strategy_select_instruments_for_exit: the bucket's mapped children
      are read back to their bases, each base is looked at once (the
      processed list starts empty on every call), and a base whose two
      orders are complete and whose check fires exits with both children,
      CE first, under one EXIT meta entry each. */
  function SelectStraddleExit(bk: Books, ltp: Instrument -> real, p: Params,
                              mapper: map<Instrument, Instrument>, bucket: seq<Instrument>)
    : (r: (seq<Instrument>, seq<Instrument>))
    ensures |r.0| == |r.1| && |r.0| % 2 == 0
    ensures forall k :: 0 <= k < |r.1| ==>
              MappedBase(mapper, bucket, r.1[k]) && StraddleFires(bk, ltp, p, r.1[k])
              && (r.0[k] == bk.ce[r.1[k]].child || r.0[k] == bk.pe[r.1[k]].child)
    ensures forall i :: i in bucket && i in mapper && StraddleFires(bk, ltp, p, mapper[i]) ==>
              mapper[i] in r.1 && bk.ce[mapper[i]].child in r.0 && bk.pe[mapper[i]].child in r.0
  {
    var looked := LookedAt(mapper, bucket, []);
    assert forall i :: i in bucket && i in mapper ==> mapper[i] in looked;
    assert forall b :: b in looked ==> MappedBase(mapper, bucket, b);
    ExitsOf(bk, ltp, p, looked)
  }

  /** Entering both legs of a flat base and exiting it afterwards exits
      exactly the two children and restores the books. */
  lemma EnterBothThenExit(bk: Books, base: Instrument, ce: BrokerOrder, pe: BrokerOrder)
    requires base !in bk.ce && base !in bk.pe
    requires PlacedSuccessfully(Some(ce)) && PlacedSuccessfully(Some(pe))
    ensures var e1 := EnterStraddleLeg(bk, base, CE, Some(ce));
            var e2 := EnterStraddleLeg(e1.0, base, PE, Some(pe));
            !e1.2 && !e2.2
            && var x := ExitStraddleBase(e2.0, base);
            x.0 == bk && x.1 == [ce.child, pe.child]
  {
    var e1 := EnterStraddleLeg(bk, base, CE, Some(ce));
    var e2 := EnterStraddleLeg(e1.0, base, PE, Some(pe));
    assert e2.0 == Books(bk.ce[base := ce], bk.pe[base := pe]);
    var x := ExitStraddleBase(e2.0, base);
    assert x.0.ce == bk.ce && x.0.pe == bk.pe;
  }
}
