/** The short call butterfly with price exits and re-entry: three call
    legs per base (buy OTM, sell twice the quantity ATM, buy ITM), exited
    together on a breach of the underlying's reference price or when the
    legs' net premium leaves a target/stoploss band fixed at the first
    exit check. Re-entries are rationed by a per-base counter. Unlike the
    condor, every per-instrument value here is a dictionary keyed by the
    base instrument. */
module CallButterfly {
  import opened Common
  import opened Ledger
  import opened OptionLegs
  import Breach

  /** The three leg keys. */
  datatype CbLeg = BuyOtm | SellAtm | BuyItm

  /** The legs: (key, side, suffix, strike direction, strike count). */
  function CbLegs(otmStrikes: nat, itmStrikes: nat): (legs: seq<(CbLeg, LegSpec)>)
    ensures |legs| == 3 && forall k :: 0 <= k < 3 ==> legs[k].1.suffix == CE
    ensures [legs[0].0, legs[1].0, legs[2].0] == [BuyOtm, SellAtm, BuyItm]
    ensures forall k :: 0 <= k < 3 ==> (legs[k].1.side == Sell <==> legs[k].0 == SellAtm)
    ensures legs[1].1.dir == ATM && legs[1].1.strikes == 0
  {
    [(BuyOtm, LegSpec(Buy, CE, OTM, otmStrikes, 0)), (SellAtm, LegSpec(Sell, CE, ATM, 0, 0)),
     (BuyItm, LegSpec(Buy, CE, ITM, itmStrikes, 0))]
  }

  /** The order quantity of a leg: the ATM sell leg trades twice the lots. */
  function Quantity(leg: CbLeg, lots: nat, lotSize: nat): nat
  {
    if leg == SellAtm then 2 * lotSize * lots else lots * lotSize
  }

  /** +1 for a BUY leg, -1 for the SELL leg (`ott_multiplier`). */
  function Sign(leg: CbLeg): real
  {
    if leg == SellAtm then -1.0 else 1.0
  }

  /** The position is quantity-neutral: the two bought wings together
      trade exactly as many units as the sold body. */
  lemma QuantitiesBalance(otmStrikes: nat, itmStrikes: nat, lots: nat, lotSize: nat)
    ensures var legs := CbLegs(otmStrikes, itmStrikes);
            Sign(legs[0].0) * (Quantity(legs[0].0, lots, lotSize) as real)
            + Sign(legs[1].0) * (Quantity(legs[1].0, lots, lotSize) as real)
            + Sign(legs[2].0) * (Quantity(legs[2].0, lots, lotSize) as real) == 0.0
  {
  }

  // ---------------------------------------------------------------------
  // State
  // ---------------------------------------------------------------------

  /** The strategy's dictionaries, each keyed by base instrument. */
  datatype CbState = CbState(
    reference: map<Instrument, real>,   // base_instrument_price_at_entry
    orders: Legbook<CbLeg>,             // child_instrument_main_orders
    entryPremium: map<Instrument, real>,
    stoploss: map<Instrument, real>,
    target: map<Instrument, real>,
    left: map<Instrument, int>)         // reentry_left

  /** `d.get(b)`. */
  function Get<V>(d: map<Instrument, V>, b: Instrument): (r: Option<V>)
    ensures r.Some? <==> b in d
    ensures r.Some? ==> r.value == d[b]
  {
    if b in d then Some(d[b]) else None
  }

  /** initialize: an empty leg dictionary for every instrument of the bucket
      and nothing else. */
  function Initialize(bucket: seq<Instrument>): (st: CbState)
    ensures forall b :: b in st.orders <==> b in bucket
    ensures forall b :: b in st.orders ==> st.orders[b] == []
    ensures st.reference == map[] && st.entryPremium == map[] && st.left == map[]
  {
    CbState(map[], map b | b in bucket :: [], map[], map[], map[], map[])
  }

  // ---------------------------------------------------------------------
  // The re-entry counter
  // ---------------------------------------------------------------------

  /** One update of `reentry_left[b]` at an entry scan. As written, a
      missing or zero counter is set to the limit and any other value is
      decremented; the corrected rule sets it only when it is missing. */
  function NextLeft(fixed: bool, left: Option<int>, limit: nat): int
  {
    if left.None? || (!fixed && left.value == 0) then limit else left.value - 1
  }

  /** The counter after `k` entry scans that saw the base. It is updated on
      every scan, whether or not the base is flat. */
  function LeftAfter(fixed: bool, limit: nat, k: nat): (r: Option<int>)
    ensures r.Some? <==> k > 0
    decreases k
  {
    if k == 0 then None else Some(NextLeft(fixed, LeftAfter(fixed, limit, k - 1), limit))
  }

  /** From a scan that set the counter to the limit, the counter counts
      down by one per scan for the next `limit` scans, under both rules. */
  lemma {:induction false} CountsDown(fixed: bool, limit: nat, k: nat, j: nat)
    requires LeftAfter(fixed, limit, k) == Some(limit as int)
    requires j <= limit
    ensures LeftAfter(fixed, limit, k + j) == Some(limit - j)
    decreases j
  {
    if j > 0 {
      CountsDown(fixed, limit, k, j - 1);
      assert k + j - 1 + 1 == k + j;
    }
  }

  /** As written, the counter that ran down to zero is refilled on the
      very next scan. */
  lemma AsWrittenRefills(limit: nat, k: nat)
    requires LeftAfter(false, limit, k) == Some(limit as int)
    ensures LeftAfter(false, limit, k + limit + 1) == Some(limit as int)
  {
    CountsDown(false, limit, k, limit);
  }

  /** As written, the limit never runs out: however many scans have gone
      by, the counter is back at the limit (and the gate open again) at
      scan m·(limit+1)+1 for every m. */
  lemma {:induction false} AsWrittenNeverExhausted(limit: nat, m: nat)
    requires limit >= 1
    ensures LeftAfter(false, limit, m * (limit + 1) + 1) == Some(limit as int)
    ensures LeftAfter(false, limit, m * (limit + 1) + 1).value > 0
  {
    if m > 0 {
      AsWrittenNeverExhausted(limit, m - 1);
      AsWrittenRefills(limit, (m - 1) * (limit + 1) + 1);
      assert (m - 1) * (limit + 1) + 1 + limit + 1 == m * (limit + 1) + 1;
    }
  }

  /** With the corrected rule the counter only counts down: the gate is
      open at scan k exactly when k is at most the limit. */
  lemma {:induction false} FixedCounterRunsOut(limit: nat, k: nat)
    requires k >= 1
    ensures LeftAfter(true, limit, k) == Some(limit - (k - 1))
    ensures LeftAfter(true, limit, k).value > 0 <==> k <= limit
    decreases k
  {
    if k > 1 {
      FixedCounterRunsOut(limit, k - 1);
    }
  }

  // ---------------------------------------------------------------------
  // Entry
  // ---------------------------------------------------------------------

  /** strategy_select_instruments_for_entry: for each base, update its
      re-entry counter, then select all three legs if its leg dictionary
      is empty and the counter is positive. A base without a leg
      dictionary (one not in the bucket at initialisation) is a KeyError.
      The result is the entering bases and the new state. */
  function SelectCbEntry(fixed: bool, st: CbState, bucket: seq<Instrument>, limit: nat)
    : (r: Result<(seq<Instrument>, CbState)>)
    ensures r.Err? <==> exists k :: 0 <= k < |bucket| && bucket[k] !in st.orders
    ensures r.Ok? ==> r.value.1 == st.(left := r.value.1.left)
    ensures r.Ok? ==> forall b :: b in r.value.0 ==> b in bucket && st.orders[b] == []
    ensures r.Ok? ==> forall b :: b !in bucket ==> Get(r.value.1.left, b) == Get(st.left, b)
    ensures r.Ok? && Distinct(bucket) ==> forall k :: 0 <= k < |bucket| ==>
              var b := bucket[k];
              var n := NextLeft(fixed, Get(st.left, b), limit);
              b in r.value.1.left && r.value.1.left[b] == n
              && (b in r.value.0 <==> st.orders[b] == [] && n > 0)
    decreases |bucket|
  {
    if |bucket| == 0 then Ok(([], st))
    else
      var b := bucket[0];
      if b !in st.orders then Err(MissingKey)
      else
        var n := NextLeft(fixed, Get(st.left, b), limit);
        var st' := st.(left := st.left[b := n]);
        var rest := SelectCbEntry(fixed, st', bucket[1..], limit);
        if rest.Err? then
          Err(rest.fault)
        else
          var enters := st.orders[b] == [] && n > 0;
          var r := ((if enters then [b] else []) + rest.value.0, rest.value.1);
          assert forall k :: 1 <= k < |bucket| ==> bucket[k] == bucket[1..][k - 1];
          if Distinct(bucket) then DistinctTail(bucket); Ok(r) else Ok(r)
  }

  /** strategy_enter_position: a leg that is placed and complete records the
      base's current price as its reference and is filed under its key;
      any other outcome exits every leg of the base (without stopping the
      strategy). Returns the new state and the children exited. */
  function EnterCbLeg(st: CbState, base: Instrument, leg: CbLeg, o: Option<BrokerOrder>, baseLtp: real)
    : (r: Result<(CbState, seq<Instrument>)>)
    ensures r.Err? <==> CompleteStatus(o) && base !in st.orders
    ensures r.Ok? && CompleteStatus(o) ==>
              r.value.1 == [] && r.value.0.reference == st.reference[base := baseLtp]
              && base in r.value.0.orders && Lookup(r.value.0.orders[base], leg) == Some(o)
              && (forall j :: j != leg ==> Lookup(r.value.0.orders[base], j) == Lookup(st.orders[base], j))
    ensures r.Ok? && !CompleteStatus(o) ==>
              r.value == ExitCbBase(st, base) && r.value.0.reference == st.reference
  {
    if CompleteStatus(o) then
      if base !in st.orders then Err(MissingKey)
      else Ok((st.(reference := st.reference[base := baseLtp],
                   orders := st.orders[base := Put(st.orders[base], leg, o)]), []))
    else Ok(ExitCbBase(st, base))
  }

  /** exit_all_positions_for_base_instrument: exit every truthy leg, leave
      an empty leg dictionary and drop the base's three premiums. */
  function ExitCbBase(st: CbState, base: Instrument): (r: (CbState, seq<Instrument>))
    ensures r.1 == Children(LegsOf(st.orders, base))
    ensures base in r.0.orders && r.0.orders[base] == []
    ensures base !in r.0.entryPremium && base !in r.0.stoploss && base !in r.0.target
    ensures r.0.reference == st.reference && r.0.left == st.left
    ensures forall b :: b != base ==> Get(r.0.orders, b) == Get(st.orders, b) && Get(r.0.entryPremium, b) == Get(st.entryPremium, b)
  {
    (st.(orders := st.orders[base := []], entryPremium := st.entryPremium - {base},
         stoploss := st.stoploss - {base}, target := st.target - {base}),
     Children(LegsOf(st.orders, base)))
  }

  // ---------------------------------------------------------------------
  // Exit condition
  // ---------------------------------------------------------------------

  /** Σ sign·price over the legs; an empty slot has no transaction type. */
  function SignedSum(legs: seq<Slot<CbLeg>>, price: BrokerOrder -> real): (r: Result<real>)
    ensures r.Ok? <==> forall j :: 0 <= j < |legs| ==> legs[j].order.Some?
    decreases |legs|
  {
    if |legs| == 0 then Ok(0.0)
    else if legs[0].order.None? then Err(TypeMismatch)
    else
      var rest := SignedSum(legs[1..], price);
      assert forall j :: 1 <= j < |legs| ==> legs[j] == legs[1..][j - 1];
      if rest.Err? then rest
      else Ok(Sign(legs[0].key) * price(legs[0].order.value) + rest.value)
  }

  /** The price an order was filled at. */
  function EntryPrice(o: BrokerOrder): real
  {
    o.entryPrice
  }

  /** The price of an order's instrument now. */
  function MarketPrice(ltp: Instrument -> real): BrokerOrder -> real
  {
    (o: BrokerOrder) => ltp(o.child)
  }

  /** The net premium of the three filed legs is the two wings less the
      body, the body counted once whatever its quantity. */
  lemma NetPremiumOfThreeLegs(otm: BrokerOrder, atm: BrokerOrder, itm: BrokerOrder, price: BrokerOrder -> real)
    ensures SignedSum([Slot(BuyOtm, Some(otm)), Slot(SellAtm, Some(atm)), Slot(BuyItm, Some(itm))], price)
            == Ok(price(otm) - price(atm) + price(itm))
  {
    var l3 := [Slot(BuyItm, Some(itm))];
    var l2 := [Slot(SellAtm, Some(atm))] + l3;
    var l1 := [Slot(BuyOtm, Some(otm))] + l2;
    assert l3[1..] == [];
    assert SignedSum(l3, price) == Ok(price(itm));
    assert l2[1..] == l3;
    assert SignedSum(l2, price) == Ok(-price(atm) + price(itm));
    assert l1[1..] == l2;
    assert l1 == [Slot(BuyOtm, Some(otm)), Slot(SellAtm, Some(atm)), Slot(BuyItm, Some(itm))];
  }

  /** The stoploss and target premiums fixed from an entry premium: the
      band sits around the entry premium, widening with the percentages. */
  function Bands(entry: real, slPct: real, targetPct: real): (r: (real, real))
    ensures entry >= 0.0 && slPct >= 0.0 && targetPct >= 0.0 ==> r.1 <= entry <= r.0
    ensures entry > 0.0 && slPct > 0.0 ==> r.0 > entry
    ensures entry > 0.0 && targetPct > 0.0 ==> r.1 < entry
  {
    BandsAround(entry, slPct, targetPct);
    (entry * (1.0 + slPct / 100.0), entry * (1.0 - targetPct / 100.0))
  }

  lemma BandsAround(entry: real, slPct: real, targetPct: real)
    ensures entry >= 0.0 && slPct >= 0.0 ==> entry * (1.0 + slPct / 100.0) >= entry
    ensures entry >= 0.0 && targetPct >= 0.0 ==> entry * (1.0 - targetPct / 100.0) <= entry
    ensures entry > 0.0 && slPct > 0.0 ==> entry * (1.0 + slPct / 100.0) > entry
    ensures entry > 0.0 && targetPct > 0.0 ==> entry * (1.0 - targetPct / 100.0) < entry
  {
    assert entry * (1.0 + slPct / 100.0) == entry + entry * (slPct / 100.0);
    assert entry * (1.0 - targetPct / 100.0) == entry - entry * (targetPct / 100.0);
  }

  /** The parameters of the exit check. */
  datatype CbParams = CbParams(offsets: Breach.Offsets, slPct: real, targetPct: real)

  /** What the exit check reads about a base before deciding: the
      breach flags and the current net premium. */
  datatype Reading = Reading(breach: bool, net: real)

  /** The breach flags: whether the underlying moved at least the upper
      offset above, or at most the lower offset below, the reference
      price. With an offset enabled, a base without a reference price
      fails the subtraction; with both offsets off there is no breach. */
  function BreachOf(st: CbState, base: Instrument, p: CbParams, ltp: Instrument -> real): (r: Result<bool>)
    ensures r.Err? <==> (Truthy(p.offsets.upper) || Truthy(p.offsets.lower)) && base !in st.reference
    ensures !Truthy(p.offsets.upper) && !Truthy(p.offsets.lower) ==> r == Ok(false)
  {
    var o := p.offsets;
    if (Truthy(o.upper) || Truthy(o.lower)) && base !in st.reference then Err(TypeMismatch)
    else
      var current := ltp(base);
      var up := Truthy(o.upper) && Breach.UpperBreach(current, st.reference[base], o.upper.value);
      var low := Truthy(o.lower) && Breach.CondorLowerBreach(current, st.reference[base], o.lower.value);
      Ok(up || low)
  }

  function ReadBase(st: CbState, base: Instrument, p: CbParams, ltp: Instrument -> real): (r: Result<Reading>)
    ensures r.Ok? <==> BreachOf(st, base, p, ltp).Ok?
                       && base in st.orders && SignedSum(st.orders[base], MarketPrice(ltp)).Ok?
    ensures r.Ok? ==> r.value.breach == BreachOf(st, base, p, ltp).value
  {
    var br := BreachOf(st, base, p, ltp);
    if br.Err? then Err(br.fault)
    else if base !in st.orders then Err(MissingKey)
    else
      var net := SignedSum(st.orders[base], MarketPrice(ltp));
      if net.Err? then Err(net.fault) else Ok(Reading(br.value, net.value))
  }

  /** check_exit_condition. A base without a truthy entry premium gets one
      from its legs' entry prices, with the stoploss and target premiums
      around it; as written that happens only while no base at all has an
      entry premium (otherwise the dictionary itself is stored and the
      stoploss multiplication fails), the corrected rule always does it.
      As written a breach fails on its log line, which reads a breach-flag
      dictionary the strategy never defines; the corrected rule exits.
      The base exits on a breach, a net premium under the target or one
      over the stoploss, and its reference then moves to the current
      underlying price. */
  function CheckCbExit(fixed: bool, st: CbState, base: Instrument, p: CbParams, ltp: Instrument -> real)
    : (r: Result<(bool, CbState)>)
    ensures r.Ok? ==> ReadBase(st, base, p, ltp).Ok?
    ensures r.Ok? ==> base in r.value.1.entryPremium && base in r.value.1.stoploss && base in r.value.1.target
    ensures r.Ok? ==> var rd := ReadBase(st, base, p, ltp).value; var s' := r.value.1;
              (r.value.0 <==> rd.breach || rd.net < s'.target[base] || rd.net > s'.stoploss[base])
    ensures r.Ok? ==> r.value.1.reference == (if r.value.0 then st.reference[base := ltp(base)] else st.reference)
    ensures r.Ok? ==> r.value.1.orders == st.orders && r.value.1.left == st.left
    ensures r.Ok? && !Truthy(Get(st.entryPremium, base)) ==>
              var e := SignedSum(st.orders[base], EntryPrice);
              e.Ok? && r.value.1.entryPremium[base] == e.value
              && (r.value.1.stoploss[base], r.value.1.target[base]) == Bands(e.value, p.slPct, p.targetPct)
    ensures r.Ok? && Truthy(Get(st.entryPremium, base)) ==>
              r.value.1.entryPremium == st.entryPremium && r.value.1.stoploss == st.stoploss && r.value.1.target == st.target
    ensures (fixed && ReadBase(st, base, p, ltp).Ok?
             && (Truthy(Get(st.entryPremium, base)) ==> base in st.stoploss && base in st.target)) ==> r.Ok?
    ensures !fixed && !Truthy(Get(st.entryPremium, base)) && st.entryPremium != map[] ==> r.Err?
    ensures !fixed && BreachOf(st, base, p, ltp) == Ok(true) ==> r == Err(MissingKey)
    ensures fixed && r.Ok? && BreachOf(st, base, p, ltp) == Ok(true) ==> r.value.0
  {
    var br := BreachOf(st, base, p, ltp);
    var rd := ReadBase(st, base, p, ltp);
    if !fixed && br == Ok(true) then Err(MissingKey)
    else if rd.Err? then Err(rd.fault)
    else
      var s' :=
        if Truthy(Get(st.entryPremium, base)) then Ok(st)
        else if !fixed && st.entryPremium != map[] then Err(TypeMismatch)
        else
          var e := SignedSum(st.orders[base], EntryPrice);
          assert e.Ok?;
          var bands := Bands(e.value, p.slPct, p.targetPct);
          Ok(st.(entryPremium := st.entryPremium[base := e.value],
                 stoploss := st.stoploss[base := bands.0], target := st.target[base := bands.1]));
      if s'.Err? then Err(s'.fault)
      else if base !in s'.value.stoploss || base !in s'.value.target then Err(MissingKey)
      else
        var exit := rd.value.breach || rd.value.net < s'.value.target[base] || rd.value.net > s'.value.stoploss[base];
        if exit then Ok((true, s'.value.(reference := st.reference[base := ltp(base)])))
        else Ok((false, s'.value))
  }

  /** The failure at line 148: one base with an entry premium on record
      makes the first exit check of any other base fail, while the
      corrected rule records the new base's own premium. */
  lemma PremiumDictionaryStored()
    ensures var st := CbState(map[], map["NIFTY" := []], map["BANKNIFTY" := 5.0], map["BANKNIFTY" := 5.5],
                              map["BANKNIFTY" := 4.0], map[]);
            var p := CbParams(Breach.Offsets(None, None), 10.0, 20.0);
            var ltp := (i: Instrument) => 100.0;
            CheckCbExit(false, st, "NIFTY", p, ltp).Err?
            && CheckCbExit(true, st, "NIFTY", p, ltp).Ok?
  {
    var st := CbState(map[], map["NIFTY" := []], map["BANKNIFTY" := 5.0], map["BANKNIFTY" := 5.5],
                      map["BANKNIFTY" := 4.0], map[]);
    assert "NIFTY" != "BANKNIFTY" by {
      assert "NIFTY"[0] != "BANKNIFTY"[0];
    }
    assert "BANKNIFTY" in st.entryPremium;
    assert SignedSum([], EntryPrice) == Ok(0.0);
  }

  /** Corrected: once a base has a non-zero entry premium, later checks keep
      its band, and a net premium inside the band (with no breach) never
      exits. */
  lemma FixedBandHolds(st: CbState, base: Instrument, p: CbParams, ltp: Instrument -> real)
    requires ReadBase(st, base, p, ltp).Ok? && !ReadBase(st, base, p, ltp).value.breach
    requires Truthy(Get(st.entryPremium, base)) && base in st.stoploss && base in st.target
    requires st.target[base] <= ReadBase(st, base, p, ltp).value.net <= st.stoploss[base]
    ensures CheckCbExit(true, st, base, p, ltp) == Ok((false, st))
  {
  }

  /** The first check of a base whose legs are still worth what they were
      bought for never exits on premium alone (with non-negative
      percentages and a non-negative entry premium). */
  lemma NoPremiumExitAtEntry(st: CbState, base: Instrument, p: CbParams, ltp: Instrument -> real)
    requires p.slPct >= 0.0 && p.targetPct >= 0.0
    requires base !in st.entryPremium && ReadBase(st, base, p, ltp).Ok? && !ReadBase(st, base, p, ltp).value.breach
    requires SignedSum(st.orders[base], EntryPrice) == SignedSum(st.orders[base], MarketPrice(ltp))
    requires SignedSum(st.orders[base], EntryPrice).value >= 0.0
    ensures CheckCbExit(true, st, base, p, ltp).Ok? && !CheckCbExit(true, st, base, p, ltp).value.0
  {
  }

  // ---------------------------------------------------------------------
  // Exit selection
  // ---------------------------------------------------------------------

  /** The exit check as the exit scan calls it on the strategy's state. */
  function CbCheck(fixed: bool, p: CbParams, ltp: Instrument -> real): (CbState, Instrument) -> Result<(bool, CbState)>
  {
    (s: CbState, b: Instrument) => CheckCbExit(fixed, s, b, p, ltp)
  }

  /** The bases whose exit check runs in one scan, in bucket order, and
      whether the scan meets a base without a leg dictionary (a KeyError
      that ends it after the bases before). A mapped child's base is
      looked at once; it is checked when all its legs are complete,
      vacuously so for an empty dictionary. */
  function CbCheckOrder(orders: Legbook<CbLeg>, mapper: map<Instrument, Instrument>, bucket: seq<Instrument>,
                        done: seq<Instrument>): (r: (seq<Instrument>, bool))
    ensures Distinct(r.0)
    ensures forall b :: b in r.0 ==> b !in done && b in orders && AllComplete(orders[b])
    ensures forall b :: b in r.0 ==> exists i :: i in bucket && i in mapper && mapper[i] == b
    ensures r.1 <==> exists i :: i in bucket && i in mapper && mapper[i] !in done && mapper[i] !in orders
    ensures !r.1 ==> forall i :: i in bucket && i in mapper && mapper[i] !in done && AllComplete(orders[mapper[i]])
                                 ==> mapper[i] in r.0
    decreases |bucket|
  {
    if |bucket| == 0 then ([], false)
    else
      assert forall i :: i in bucket[1..] ==> i in bucket;
      assert forall i :: i in bucket ==> i == bucket[0] || i in bucket[1..];
      if bucket[0] !in mapper || mapper[bucket[0]] in done then
        CbCheckOrder(orders, mapper, bucket[1..], done)
      else
        var b := mapper[bucket[0]];
        if b !in orders then ([], true)
        else
          var rest := CbCheckOrder(orders, mapper, bucket[1..], done + [b]);
          if AllComplete(orders[b]) then
            assert forall k :: 1 <= k < |[b] + rest.0| ==> ([b] + rest.0)[k] == rest.0[k - 1];
            ([b] + rest.0, rest.1)
          else rest
  }

  /** strategy_select_instruments_for_exit: (children, EXIT meta bases,
      state after the scan). The checks run in order on the strategy's
      state, the first error ends the scan, and a base without a leg
      dictionary fails it after the bases before it were checked. A base
      is exited exactly when its check fired and it holds legs, and then
      with every one of its leg instruments; the leg dictionaries are
      never touched. */
  function SelectCbExit(fixed: bool, st: CbState, p: CbParams, ltp: Instrument -> real,
                        mapper: map<Instrument, Instrument>, bucket: seq<Instrument>)
    : (r: Result<(seq<Instrument>, seq<Instrument>, CbState)>)
    ensures var order := CbCheckOrder(st.orders, mapper, bucket, []);
            var run := RunChecks(CbCheck(fixed, p, ltp), st, order.0);
            (r.Err? <==> run.Err? || order.1)
            && (r.Ok? ==>
                  r.value.2 == run.value.1 && r.value.2.orders == st.orders
                  && |r.value.0| == |r.value.1|
                  && (forall k :: 0 <= k < |r.value.0| ==>
                        r.value.1[k] in st.orders && r.value.0[k] in Children(st.orders[r.value.1[k]]))
                  && (forall b :: b in r.value.1 <==>
                        exists k :: 0 <= k < |order.0| && order.0[k] == b && run.value.0[k] && |st.orders[b]| > 0)
                  && (forall c :: c in r.value.0 <==>
                        exists k :: 0 <= k < |order.0| && run.value.0[k] && c in Children(st.orders[order.0[k]])))
  {
    var order := CbCheckOrder(st.orders, mapper, bucket, []);
    var check := CbCheck(fixed, p, ltp);
    RunChecksKeep(check, (s: CbState) => s.orders == st.orders, st, order.0);
    match RunChecks(check, st, order.0)
    case Err(f) => Err(f)
    case Ok(run) =>
      if order.1 then Err(MissingKey)
      else
        var e := EmitFired(st.orders, order.0, run.0);
        Ok((e.0, e.1, run.1))
  }

  /** The failure at line 140: as written, a base whose underlying has
      moved past the upper offset makes its exit check fail, while the
      corrected check exits it and moves its reference price. */
  lemma BreachRaisesAsWritten()
    ensures var st := CbState(map["NIFTY" := 100.0], map["NIFTY" := []], map["NIFTY" := 5.0], map["NIFTY" := 5.5],
                              map["NIFTY" := 4.0], map[]);
            var p := CbParams(Breach.Offsets(Some(50.0), None), 10.0, 20.0);
            var ltp := (i: Instrument) => if i == "NIFTY" then 160.0 else 0.0;
            CheckCbExit(false, st, "NIFTY", p, ltp) == Err(MissingKey)
            && CheckCbExit(true, st, "NIFTY", p, ltp).Ok?
            && CheckCbExit(true, st, "NIFTY", p, ltp).value.0
            && CheckCbExit(true, st, "NIFTY", p, ltp).value.1.reference["NIFTY"] == 160.0
  {
    var st := CbState(map["NIFTY" := 100.0], map["NIFTY" := []], map["NIFTY" := 5.0], map["NIFTY" := 5.5],
                      map["NIFTY" := 4.0], map[]);
    var p := CbParams(Breach.Offsets(Some(50.0), None), 10.0, 20.0);
    var ltp := (i: Instrument) => if i == "NIFTY" then 160.0 else 0.0;
    assert ltp("NIFTY") == 160.0;
    assert Breach.UpperBreach(160.0, 100.0, 50.0);
    assert BreachOf(st, "NIFTY", p, ltp) == Ok(true);
    assert SignedSum([], MarketPrice(ltp)) == Ok(0.0);
  }

  /** Entering the three legs of a flat base, each placed and complete,
      files all three; exiting the base then leaves an empty dictionary,
      no premiums for it, and exits exactly the three children. */
  lemma EnterThreeThenExit(st: CbState, base: Instrument, otm: BrokerOrder, atm: BrokerOrder, itm: BrokerOrder, px: real)
    requires base in st.orders && st.orders[base] == []
    requires CompleteStatus(Some(otm)) && CompleteStatus(Some(atm)) && CompleteStatus(Some(itm))
    ensures var e1 := EnterCbLeg(st, base, BuyOtm, Some(otm), px);
            e1.Ok? && var e2 := EnterCbLeg(e1.value.0, base, SellAtm, Some(atm), px);
            e2.Ok? && var e3 := EnterCbLeg(e2.value.0, base, BuyItm, Some(itm), px);
            e3.Ok? && e3.value.0.orders[base] == [Slot(BuyOtm, Some(otm)), Slot(SellAtm, Some(atm)), Slot(BuyItm, Some(itm))]
            && var x := ExitCbBase(e3.value.0, base);
            x.1 == [otm.child, atm.child, itm.child] && x.0.orders == st.orders
            && base !in x.0.entryPremium
  {
    var legs := [Slot(BuyOtm, Some(otm)), Slot(SellAtm, Some(atm)), Slot(BuyItm, Some(itm))];
    var s1, s2, s3 := EnterThree(st, base, otm, atm, itm, px);
    ExitOfThree(st, s3, base, legs, otm, atm, itm);
  }

  /** The three entries of a flat base, one after the other. */
  lemma EnterThree(st: CbState, base: Instrument, otm: BrokerOrder, atm: BrokerOrder, itm: BrokerOrder, px: real)
    returns (s1: CbState, s2: CbState, s3: CbState)
    requires base in st.orders && st.orders[base] == []
    requires CompleteStatus(Some(otm)) && CompleteStatus(Some(atm)) && CompleteStatus(Some(itm))
    ensures EnterCbLeg(st, base, BuyOtm, Some(otm), px) == Ok((s1, []))
    ensures EnterCbLeg(s1, base, SellAtm, Some(atm), px) == Ok((s2, []))
    ensures EnterCbLeg(s2, base, BuyItm, Some(itm), px) == Ok((s3, []))
    ensures s3.orders == st.orders[base := [Slot(BuyOtm, Some(otm)), Slot(SellAtm, Some(atm)), Slot(BuyItm, Some(itm))]]
    ensures s3.entryPremium == st.entryPremium
  {
    var l2 := [Slot(BuyOtm, Some(otm)), Slot(SellAtm, Some(atm))];
    s1, s2 := EnterTwo(st, base, otm, atm, px);
    s3 := FiledNew(s2, base, l2, BuyItm, Some(itm), px);
    assert l2 + [Slot(BuyItm, Some(itm))] == [Slot(BuyOtm, Some(otm)), Slot(SellAtm, Some(atm)), Slot(BuyItm, Some(itm))];
    assert s3.orders == st.orders[base := l2 + [Slot(BuyItm, Some(itm))]];
  }

  /** The first two entries of a flat base. */
  lemma EnterTwo(st: CbState, base: Instrument, otm: BrokerOrder, atm: BrokerOrder, px: real)
    returns (s1: CbState, s2: CbState)
    requires base in st.orders && st.orders[base] == []
    requires CompleteStatus(Some(otm)) && CompleteStatus(Some(atm))
    ensures EnterCbLeg(st, base, BuyOtm, Some(otm), px) == Ok((s1, []))
    ensures EnterCbLeg(s1, base, SellAtm, Some(atm), px) == Ok((s2, []))
    ensures s2.orders == st.orders[base := [Slot(BuyOtm, Some(otm)), Slot(SellAtm, Some(atm))]]
            && s2.orders[base] == [Slot(BuyOtm, Some(otm)), Slot(SellAtm, Some(atm))]
    ensures s2.entryPremium == st.entryPremium
  {
    var l1 := [Slot(BuyOtm, Some(otm))];
    s1 := FiledNew(st, base, [], BuyOtm, Some(otm), px);
    s2 := FiledNew(s1, base, l1, SellAtm, Some(atm), px);
    assert l1 + [Slot(SellAtm, Some(atm))] == [Slot(BuyOtm, Some(otm)), Slot(SellAtm, Some(atm))];
    assert s2.orders == st.orders[base := l1 + [Slot(SellAtm, Some(atm))]];
  }

  /** A complete order for a leg the base has not filed yet is appended;
      the rest of the book is untouched. */
  lemma FiledNew(st: CbState, base: Instrument, legs: seq<Slot<CbLeg>>, leg: CbLeg, o: Option<BrokerOrder>, px: real)
    returns (st': CbState)
    requires CompleteStatus(o) && base in st.orders && st.orders[base] == legs
    requires forall j :: 0 <= j < |legs| ==> legs[j].key != leg
    ensures EnterCbLeg(st, base, leg, o, px) == Ok((st', []))
    ensures st'.orders == st.orders[base := legs + [Slot(leg, o)]] && st'.orders[base] == legs + [Slot(leg, o)]
    ensures st'.entryPremium == st.entryPremium
  {
    st' := FiledLeg(st, base, leg, o, px);
    PutNewKey(legs, leg, o);
  }

  /** A complete leg order is filed and nothing is exited. */
  lemma FiledLeg(st: CbState, base: Instrument, leg: CbLeg, o: Option<BrokerOrder>, px: real) returns (st': CbState)
    requires CompleteStatus(o) && base in st.orders
    ensures EnterCbLeg(st, base, leg, o, px) == Ok((st', []))
    ensures st' == st.(reference := st.reference[base := px], orders := st.orders[base := Put(st.orders[base], leg, o)])
  {
    st' := st.(reference := st.reference[base := px], orders := st.orders[base := Put(st.orders[base], leg, o)]);
  }

  lemma ExitOfThree(st: CbState, s3: CbState, base: Instrument, legs: seq<Slot<CbLeg>>,
                    a: BrokerOrder, b: BrokerOrder, c: BrokerOrder)
    requires base in st.orders && st.orders[base] == []
    requires legs == [Slot(BuyOtm, Some(a)), Slot(SellAtm, Some(b)), Slot(BuyItm, Some(c))]
    requires s3.orders == st.orders[base := legs]
    ensures var x := ExitCbBase(s3, base);
            x.1 == [a.child, b.child, c.child] && x.0.orders == st.orders && base !in x.0.entryPremium
  {
    PlacedOfThree(legs, a, b, c);
    var x := ExitCbBase(s3, base);
    assert x.0.orders == st.orders[base := legs][base := []];
  }

  lemma PlacedOfThree(legs: seq<Slot<CbLeg>>, a: BrokerOrder, b: BrokerOrder, c: BrokerOrder)
    requires legs == [Slot(BuyOtm, Some(a)), Slot(SellAtm, Some(b)), Slot(BuyItm, Some(c))]
    ensures Placed(legs) == [a, b, c]
  {
    assert legs[1..] == [Slot(SellAtm, Some(b)), Slot(BuyItm, Some(c))];
    assert legs[1..][1..] == [Slot(BuyItm, Some(c))];
    assert legs[1..][1..][1..] == [];
    assert Placed(legs[1..][1..]) == [c];
  }
}
