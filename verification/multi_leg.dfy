/** The once-a-day multi-leg strategies: the bull call ladder (three
    legs, in `options_bull_call_ladder` and `options_bull_call_ladder_v2.py`)
    and the box spread (four legs). The first time a base instrument is
    seen in a day, its whole configured leg list is emitted; nothing is
    ever exited by the strategy. Each leg is configured by integer codes
    that the strategy decodes through fixed maps. */
module MultiLeg {
  import opened Common
  import opened Ledger
  import opened OptionLegs

  /** A leg's configured codes: suffix (1: CE, 2: PE), strike direction
      (0: ITM, 1: ATM, 2: OTM), number of strikes, transaction type
      (1: BUY, 2: SELL). */
  datatype LegCode = LegCode(suffix: int, dir: int, strikes: nat, tt: int)

  predicate ValidCode(c: LegCode)
  {
    (c.suffix == 1 || c.suffix == 2) && 0 <= c.dir <= 2 && (c.tt == 1 || c.tt == 2)
  }

  /** The three code maps; a code outside a map's keys is a KeyError. The
      ladder's v2 file maps the strike direction to the strings "ITM",
      "ATM", "OTM" rather than to the enum, naming the same directions. */
  function DecodeLeg(c: LegCode): (r: Result<LegSpec>)
    ensures r.Ok? <==> ValidCode(c)
    ensures r.Err? ==> r.fault == MissingKey
    ensures r.Ok? ==> (r.value.suffix == CE <==> c.suffix == 1) && (r.value.side == Buy <==> c.tt == 1)
                      && (r.value.dir == ITM <==> c.dir == 0) && (r.value.dir == ATM <==> c.dir == 1)
                      && r.value.strikes == c.strikes && r.value.expiry == 0
  {
    if !ValidCode(c) then Err(MissingKey)
    else
      Ok(LegSpec(if c.tt == 1 then Buy else Sell, if c.suffix == 1 then CE else PE,
                 if c.dir == 0 then ITM else if c.dir == 1 then ATM else OTM, c.strikes, 0))
  }

  /** The whole leg list, decoded in order. */
  function DecodeLegs(codes: seq<LegCode>): (r: Result<seq<LegSpec>>)
    ensures r.Ok? <==> forall k :: 0 <= k < |codes| ==> ValidCode(codes[k])
    ensures r.Err? ==> r.fault == MissingKey
    ensures r.Ok? ==> |r.value| == |codes| && forall k :: 0 <= k < |codes| ==> r.value[k] == DecodeLeg(codes[k]).value
    decreases |codes|
  {
    if |codes| == 0 then Ok([])
    else
      var head := DecodeLeg(codes[0]);
      var rest := DecodeLegs(codes[1..]);
      if head.Err? then Err(head.fault)
      else if rest.Err? then Err(rest.fault)
      else Ok([head.value] + rest.value)
  }

  /** The bull call ladder's default codes. */
  const LadderDefaults := [LegCode(1, 1, 0, 1), LegCode(1, 2, 2, 1), LegCode(1, 2, 4, 2)]

  /** The box spread's default codes. */
  const BoxDefaults := [LegCode(1, 0, 0, 1), LegCode(1, 2, 2, 2), LegCode(2, 0, 2, 1), LegCode(2, 2, 0, 2)]

  /** The defaults decode to a bull call ladder (buy the ATM call and a call
      two strikes out, sell a call four strikes out) and to a box spread
      (a bull call spread and a bear put spread). */
  lemma DefaultLegLists()
    ensures DecodeLegs(LadderDefaults)
            == Ok([LegSpec(Buy, CE, ATM, 0, 0), LegSpec(Buy, CE, OTM, 2, 0), LegSpec(Sell, CE, OTM, 4, 0)])
    ensures DecodeLegs(BoxDefaults)
            == Ok([LegSpec(Buy, CE, ITM, 0, 0), LegSpec(Sell, CE, OTM, 2, 0),
                   LegSpec(Buy, PE, ITM, 2, 0), LegSpec(Sell, PE, OTM, 0, 0)])
  {
    var ladder := DecodeLegs(LadderDefaults);
    assert ValidCode(LadderDefaults[0]) && ValidCode(LadderDefaults[1]) && ValidCode(LadderDefaults[2]);
    assert |ladder.value| == 3;
    assert ladder.value == [DecodeLeg(LadderDefaults[0]).value, DecodeLeg(LadderDefaults[1]).value,
                            DecodeLeg(LadderDefaults[2]).value];
    var box := DecodeLegs(BoxDefaults);
    assert ValidCode(BoxDefaults[0]) && ValidCode(BoxDefaults[1]) && ValidCode(BoxDefaults[2]) && ValidCode(BoxDefaults[3]);
    assert |box.value| == 4;
    assert box.value == [DecodeLeg(BoxDefaults[0]).value, DecodeLeg(BoxDefaults[1]).value,
                         DecodeLeg(BoxDefaults[2]).value, DecodeLeg(BoxDefaults[3]).value];
  }

  /** The bucket's bases not yet done for the day, in order, and the done
      list they are appended to. A base listed twice is taken once. */
  function FreshBases(done: seq<Instrument>, bucket: seq<Instrument>): (r: (seq<Instrument>, seq<Instrument>))
    ensures r.1 == done + r.0
    ensures forall k :: 0 <= k < |r.0| ==> r.0[k] in bucket && r.0[k] !in done
    ensures Distinct(r.0)
    ensures forall x :: x in bucket ==> x in r.1
    ensures forall x :: x in bucket && x !in done ==> x in r.0
    ensures (forall x :: x in bucket ==> x in done) ==> r == ([], done)
    decreases |bucket|
  {
    if |bucket| == 0 then ([], done)
    else
      var b := bucket[0];
      assert forall x :: x in bucket ==> x == b || x in bucket[1..];
      assert forall x :: x in bucket[1..] ==> x in bucket;
      if b in done then FreshBases(done, bucket[1..])
      else
        var rest := FreshBases(done + [b], bucket[1..]);
        assert rest.1 == done + ([b] + rest.0);
        assert b !in rest.0 by {
          assert forall k :: 0 <= k < |rest.0| ==> rest.0[k] !in done + [b];
        }
        DistinctCons(b, rest.0);
        assert b in bucket && b !in done;
        ([b] + rest.0, rest.1)
  }

  /** Where the k-th leg of the i-th base sits in a grid of `width` legs per base. */
  function GridIndex(i: nat, width: nat, k: nat): nat
  {
    i * width + k
  }

  /** Every base is paired with every leg, base-major: the grid a
      nested loop over bases and legs appends. */
  predicate Grid(emitted: seq<(Instrument, LegSpec)>, bases: seq<Instrument>, legs: seq<LegSpec>)
  {
    |emitted| == |bases| * |legs|
    && forall i, k :: 0 <= i < |bases| && 0 <= k < |legs| ==>
         GridIndex(i, |legs|, k) < |emitted| && emitted[GridIndex(i, |legs|, k)] == (bases[i], legs[k])
  }

  lemma EmitGrid(bases: seq<Instrument>, legs: seq<LegSpec>)
    ensures Grid(Emit(bases, legs), bases, legs)
  {
    var r := Emit(bases, legs);
    forall i, k | 0 <= i < |bases| && 0 <= k < |legs|
      ensures GridIndex(i, |legs|, k) < |r| && r[GridIndex(i, |legs|, k)] == (bases[i], legs[k])
    {
      EmitShape(bases, legs, i, k);
    }
  }

  /** strategy_select_instruments_for_entry: every fresh base emits the
      whole leg list, each leg with its configured side. Decoding happens
      only once a fresh base is found, so a bad code surfaces only then. */
  function SelectLegs(done: seq<Instrument>, bucket: seq<Instrument>, codes: seq<LegCode>)
    : (r: Result<(seq<(Instrument, LegSpec)>, seq<Instrument>)>)
    ensures r.Err? <==> |FreshBases(done, bucket).0| > 0 && DecodeLegs(codes).Err?
    ensures r.Err? ==> r.fault == MissingKey
    ensures r.Ok? ==> r.value.1 == FreshBases(done, bucket).1
    ensures r.Ok? && |FreshBases(done, bucket).0| == 0 ==> r.value.0 == []
    ensures r.Ok? && |FreshBases(done, bucket).0| > 0 ==>
              Grid(r.value.0, FreshBases(done, bucket).0, DecodeLegs(codes).value)
  {
    var newB := FreshBases(done, bucket);
    if |newB.0| == 0 then Ok(([], newB.1))
    else
      var legs := DecodeLegs(codes);
      if legs.Err? then Err(legs.fault)
      else
        EmitGrid(newB.0, legs.value);
        Ok((Emit(newB.0, legs.value), newB.1))
  }

  /** A base, once taken, is never fresh again. */
  lemma FreshOnlyOnce(done: seq<Instrument>, bucket: seq<Instrument>)
    ensures var first := FreshBases(done, bucket).1;
            FreshBases(first, bucket) == ([], first)
  {
    var first := FreshBases(done, bucket).1;
    assert forall x :: x in bucket ==> x in first;
  }

  /** Once a day: a second scan with the same bucket emits nothing. */
  lemma OncePerDay(done: seq<Instrument>, bucket: seq<Instrument>, codes: seq<LegCode>)
    requires SelectLegs(done, bucket, codes).Ok?
    ensures var first := SelectLegs(done, bucket, codes).value;
            SelectLegs(first.1, bucket, codes) == Ok(([], first.1))
  {
    FreshOnlyOnce(done, bucket);
  }

  /** strategy_select_instruments_for_exit and strategy_exit_position: the
      strategy selects no exit and handles none, so every leg stays open
      until the host squares it off. */
  function ExitLegs(bucket: seq<Instrument>): (r: (seq<Instrument>, bool))
    ensures |r.0| == 0 && !r.1
  {
    ([], false)
  }
}
