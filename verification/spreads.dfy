/** The ledger side of the bull call spread strategies (target and stops
    with re-entry, trailing stop-loss with re-entry, stop-loss) and of the
    long call diagonal spread: the re-entry counters that gate a base
    instrument's entries, the two-leg list each selected base emits, the
    exit selection that checks each base at most once, and the
    diagonal's guarded leg placement. */
module Spreads {
  import opened Common
  import opened Ledger
  import opened OptionLegs
  import opened SpreadLevels

  // ---------------------------------------------------------------------
  // Re-entry counters
  // ---------------------------------------------------------------------

  /** How a strategy keeps its per-base re-entry count. */
  datatype CountRule =
    | LocalOnly          // read with default 0, incremented in a local variable only
    | FirstSightingZero  // the first sighting stores 0; later ones increment the stored count
    | Stored             // read with default 0, stored incremented

  /** `re_entry_count.get(base, 0)`. */
  function Count(counts: map<Instrument, int>, b: Instrument): int
  {
    if b in counts then counts[b] else 0
  }

  /** No stored count exceeds the limit. */
  predicate Bounded(counts: map<Instrument, int>, limit: int)
  {
    forall b :: b in counts ==> counts[b] <= limit
  }

  /** The re-entry gate of one flat base: (enter?, counts after). */
  function Reentry(rule: CountRule, counts: map<Instrument, int>, b: Instrument, limit: int): (r: (bool, map<Instrument, int>))
    ensures forall x :: x != b ==> (x in r.1 <==> x in counts) && (x in counts ==> r.1[x] == counts[x])
    ensures rule != FirstSightingZero ==> (r.0 <==> Count(counts, b) < limit)
    ensures rule == FirstSightingZero ==> (r.0 <==> b !in counts || counts[b] < limit)
    ensures rule == LocalOnly ==> r.1 == counts
    ensures rule == Stored ==> Count(r.1, b) == (if r.0 then Count(counts, b) + 1 else Count(counts, b))
    ensures rule == FirstSightingZero ==>
              b in r.1 && r.1[b] == (if b !in counts then 0 else if r.0 then counts[b] + 1 else counts[b])
    ensures rule != LocalOnly && Bounded(counts, limit) && limit >= 0 ==> Bounded(r.1, limit)
  {
    match rule
    case LocalOnly => (Count(counts, b) < limit, counts)
    case FirstSightingZero =>
      if b !in counts then (true, counts[b := 0])
      else if counts[b] >= limit then (false, counts)
      else (true, counts[b := counts[b] + 1])
    case Stored =>
      if Count(counts, b) >= limit then (false, counts)
      else (true, counts[b := Count(counts, b) + 1])
  }

  /** strategy_select_instruments_for_entry: the base instruments, in
      bucket order, that hold no legs and pass the re-entry gate, with the
      counts after the scan. */
  function SelectSpreadEntry(book: Legbook<Side>, counts: map<Instrument, int>, bucket: seq<Instrument>,
                             limit: int, rule: CountRule): (r: (seq<Instrument>, map<Instrument, int>))
    ensures |r.0| <= |bucket|
    ensures forall x :: x in r.0 ==> x in bucket && !Holds(book, x)
    ensures forall x :: Count(r.1, x) >= Count(counts, x)
    ensures forall x :: x !in bucket ==> (x in r.1 <==> x in counts) && (x in counts ==> r.1[x] == counts[x])
    ensures rule == LocalOnly ==> r.1 == counts
    ensures rule == LocalOnly ==>
              forall x :: x in r.0 <==> x in bucket && !Holds(book, x) && Count(counts, x) < limit
    decreases |bucket|
  {
    if |bucket| == 0 then ([], counts)
    else
      var b := bucket[0];
      assert forall x :: x in bucket[1..] ==> x in bucket;
      if Holds(book, b) then
        var rest := SelectSpreadEntry(book, counts, bucket[1..], limit, rule);
        assert forall x :: x in bucket ==> x == b || x in bucket[1..];
        rest
      else
        var g := Reentry(rule, counts, b, limit);
        var rest := SelectSpreadEntry(book, g.1, bucket[1..], limit, rule);
        assert forall x :: x in bucket ==> x == b || x in bucket[1..];
        if g.0 then ([b] + rest.0, rest.1) else rest
  }

  /** Under the stored count, a base is selected only while under the
      limit and each selection raises its count; no count is pushed past
      the limit. */
  lemma {:induction false} StoredEntryGate(book: Legbook<Side>, counts: map<Instrument, int>, bucket: seq<Instrument>,
                                           limit: int, rule: CountRule)
    ensures var r := SelectSpreadEntry(book, counts, bucket, limit, rule);
            rule == Stored ==> forall x :: x in r.0 ==> Count(r.1, x) > Count(counts, x) && Count(counts, x) < limit
    ensures var r := SelectSpreadEntry(book, counts, bucket, limit, rule);
            rule != LocalOnly && Bounded(counts, limit) && limit >= 0 ==> Bounded(r.1, limit)
    decreases |bucket|
  {
    if |bucket| > 0 {
      var b := bucket[0];
      if Holds(book, b) {
        StoredEntryGate(book, counts, bucket[1..], limit, rule);
      } else {
        var g := Reentry(rule, counts, b, limit);
        StoredEntryGate(book, g.1, bucket[1..], limit, rule);
      }
    }
  }

  /** How many of `n` successive entry scans select base `b`, when `b`
      is flat at every scan (its positions have been exited in between). */
  function Entries(book: Legbook<Side>, counts: map<Instrument, int>, bucket: seq<Instrument>,
                   limit: int, rule: CountRule, b: Instrument, n: nat): (k: nat)
    ensures k <= n
    decreases n
  {
    if n == 0 then 0
    else
      var r := SelectSpreadEntry(book, counts, bucket, limit, rule);
      (if b in r.0 then 1 else 0) + Entries(book, r.1, bucket, limit, rule, b, n - 1)
  }

  /** With the count kept only in a local variable the re-entry limit is
      never reached: a flat base under the limit is entered on every scan. */
  lemma {:induction false} LocalOnlyNeverExhausts(book: Legbook<Side>, counts: map<Instrument, int>,
                                                  bucket: seq<Instrument>, limit: int, b: Instrument, n: nat)
    requires b in bucket && !Holds(book, b) && Count(counts, b) < limit
    ensures Entries(book, counts, bucket, limit, LocalOnly, b, n) == n
  {
    if n > 0 {
      LocalOnlyNeverExhausts(book, counts, bucket, limit, b, n - 1);
    }
  }

  /** With the count stored, a base is entered at most `limit` times in
      all, however many scans find it flat. */
  lemma {:induction false} StoredBoundsEntries(book: Legbook<Side>, counts: map<Instrument, int>,
                                               bucket: seq<Instrument>, limit: int, b: Instrument, n: nat)
    ensures Entries(book, counts, bucket, limit, Stored, b, n) <= if limit > Count(counts, b) then limit - Count(counts, b) else 0
    decreases n
  {
    if n > 0 {
      var r := SelectSpreadEntry(book, counts, bucket, limit, Stored);
      StoredEntryGate(book, counts, bucket, limit, Stored);
      StoredBoundsEntries(book, r.1, bucket, limit, b, n - 1);
    }
  }

  /** The two legs of a bull call spread: BUY the ATM call, SELL the call
      `n` strikes out of the money, both on the nearest expiry. */
  function BullCallLegs(n: nat): (legs: seq<LegSpec>)
    ensures |legs| == 2
    ensures legs[0].side == Buy && legs[0].dir == ATM && legs[0].strikes == 0
    ensures legs[1].side == Sell && legs[1].dir == OTM && legs[1].strikes == n
    ensures forall k :: 0 <= k < 2 ==> legs[k].suffix == CE && legs[k].expiry == 0
  {
    [LegSpec(Buy, CE, ATM, 0, 0), LegSpec(Sell, CE, OTM, n, 0)]
  }

  /** The two legs of the long call diagonal: BUY the ATM call of the
      second expiry, SELL the call `n` strikes out of the money of the
      first expiry. */
  function DiagonalLegs(n: nat): (legs: seq<LegSpec>)
    ensures |legs| == 2
    ensures legs[0] == LegSpec(Buy, CE, ATM, 0, 1) && legs[1] == LegSpec(Sell, CE, OTM, n, 0)
  {
    [LegSpec(Buy, CE, ATM, 0, 1), LegSpec(Sell, CE, OTM, n, 0)]
  }

  /** Every selected base contributes its BUY leg and then its SELL leg,
      adjacent and in bucket order. */
  lemma SpreadEntryEmitsPairs(bases: seq<Instrument>, n: nat, i: nat)
    requires i < |bases|
    ensures |Emit(bases, BullCallLegs(n))| == 2 * |bases|
    ensures Emit(bases, BullCallLegs(n))[2 * i] == (bases[i], LegSpec(Buy, CE, ATM, 0, 0))
    ensures Emit(bases, BullCallLegs(n))[2 * i + 1] == (bases[i], LegSpec(Sell, CE, OTM, n, 0))
  {
    EmitShape(bases, BullCallLegs(n), i, 0);
    EmitShape(bases, BullCallLegs(n), i, 1);
  }

  // ---------------------------------------------------------------------
  // Exit selection
  // ---------------------------------------------------------------------

  /** How many EXIT meta entries an exiting base contributes. */
  datatype MetaRule =
    | PerHeldBase   // as written: one per base in the ledger
    | PerLeg        // one per leg instrument selected

  /** The base holds legs and all of them are complete: the test a base
      passes before its exit check runs. */
  predicate Ready(book: Legbook<Side>, b: Instrument)
  {
    Holds(book, b) && AllComplete(book[b])
  }

  /** A ready base has at least one leg instrument to exit. */
  lemma ReadyHasChildren(book: Legbook<Side>, b: Instrument)
    requires Ready(book, b)
    ensures |Children(book[b])| > 0
  {
    var legs := book[b];
    assert CompleteStatus(legs[0].order);
    assert legs[0].order.value in Placed(legs);
  }

  /** The bases whose exit check runs in one scan, in bucket order. A child
      instrument's base is looked at once (the processed list starts as
      `done`) and checked only when it is ready; conversely every mapped
      child whose base is ready and not in `done` has its base checked. */
  function CheckOrder(book: Legbook<Side>, mapper: map<Instrument, Instrument>, bucket: seq<Instrument>,
                      done: seq<Instrument>): (r: seq<Instrument>)
    ensures Distinct(r)
    ensures forall b :: b in r ==> b !in done && Ready(book, b)
    ensures forall b :: b in r ==> exists i :: i in bucket && i in mapper && mapper[i] == b
    ensures forall i :: i in bucket && i in mapper && mapper[i] !in done && Ready(book, mapper[i]) ==> mapper[i] in r
    decreases |bucket|
  {
    if |bucket| == 0 then []
    else
      assert forall i :: i in bucket[1..] ==> i in bucket;
      assert forall i :: i in bucket ==> i == bucket[0] || i in bucket[1..];
      if bucket[0] !in mapper || mapper[bucket[0]] in done then
        CheckOrder(book, mapper, bucket[1..], done)
      else
        var b := mapper[bucket[0]];
        var rest := CheckOrder(book, mapper, bucket[1..], done + [b]);
        if Ready(book, b) then
          assert forall k :: 1 <= k < |[b] + rest| ==> ([b] + rest)[k] == rest[k - 1];
          [b] + rest
        else rest
  }

  /** The selection built from the checks that fired: every fired base's
      leg instruments, in check order, with its EXIT meta entries. */
  function EmitExits(book: Legbook<Side>, bases: seq<Instrument>, fired: seq<bool>, rule: MetaRule)
    : (r: (seq<Instrument>, seq<Instrument>))
    requires |fired| == |bases| && forall b :: b in bases ==> Ready(book, b)
    ensures forall b :: b in r.1 <==> exists k :: 0 <= k < |bases| && bases[k] == b && fired[k]
    ensures forall c :: c in r.0 <==> exists k :: 0 <= k < |bases| && fired[k] && bases[k] in book && c in Children(book[bases[k]])
    ensures rule == PerLeg ==> |r.0| == |r.1|
    ensures rule == PerLeg ==> forall k :: 0 <= k < |r.0| ==> r.1[k] in book && r.0[k] in Children(book[r.1[k]])
    decreases |bases|
  {
    if |bases| == 0 then ([], [])
    else
      var b := bases[0];
      assert b in bases && Ready(book, b);
      assert forall x :: x in bases[1..] ==> x in bases;
      var rest := EmitExits(book, bases[1..], fired[1..], rule);
      assert forall k :: 1 <= k < |bases| ==> bases[k] == bases[1..][k - 1] && fired[k] == fired[1..][k - 1];
      if fired[0] then
        var kids := Children(book[b]);
        ReadyHasChildren(book, b);
        var m := if rule == PerLeg then Copies(b, |kids|) else Copies(b, |book|);
        assert |m| > 0 && m[0] == b;
        assert rule == PerLeg ==>
                 |kids + rest.0| == |m + rest.1|
                 && forall k :: 0 <= k < |kids + rest.0| ==>
                      (m + rest.1)[k] in book && (kids + rest.0)[k] in Children(book[(m + rest.1)[k]]) by {
          if rule == PerLeg {
            PairedAppend(book, b, kids, m, rest.0, rest.1);
          }
        }
        (kids + rest.0, m + rest.1)
      else rest
  }

  /** The exit selection of the spread strategies: (leg instruments, EXIT
      meta bases, level fields after the scan). The bases of the bucket's
      children are checked once each, in bucket order, when ready; the
      checks share the level fields `st`; an error in any check ends the
      scan with that error. A base is exited exactly when its check fired,
      and then with every one of its leg instruments. */
  function SelectSpreadExitBy<S>(book: Legbook<Side>, mapper: map<Instrument, Instrument>, bucket: seq<Instrument>,
                                 check: (S, Instrument) -> Result<(bool, S)>, st: S, rule: MetaRule)
    : (r: Result<(seq<Instrument>, seq<Instrument>, S)>)
    ensures var bases := CheckOrder(book, mapper, bucket, []);
            var run := RunChecks(check, st, bases);
            (r.Err? <==> run.Err?)
            && (r.Err? ==> r.fault == run.fault)
            && (r.Ok? ==>
                  r.value.2 == run.value.1
                  && (forall b :: b in r.value.1 <==> exists k :: 0 <= k < |bases| && bases[k] == b && run.value.0[k])
                  && (forall c :: c in r.value.0 <==>
                        exists k :: 0 <= k < |bases| && run.value.0[k] && bases[k] in book
                                   && c in Children(book[bases[k]]))
                  && (rule == PerLeg ==>
                        |r.value.0| == |r.value.1|
                        && forall k :: 0 <= k < |r.value.0| ==>
                             r.value.1[k] in book && r.value.0[k] in Children(book[r.value.1[k]])))
  {
    var bases := CheckOrder(book, mapper, bucket, []);
    match RunChecks(check, st, bases)
    case Err(f) => Err(f)
    case Ok(run) =>
      var e := EmitExits(book, bases, run.0, rule);
      Ok((e.0, e.1, run.1))
  }

  /** strategy_select_instruments_for_exit as written: the EXIT meta list
      is extended once per base in the ledger. */
  function SelectSpreadExitAsWritten<S>(book: Legbook<Side>, mapper: map<Instrument, Instrument>,
                                        bucket: seq<Instrument>, check: (S, Instrument) -> Result<(bool, S)>, st: S)
    : (r: Result<(seq<Instrument>, seq<Instrument>, S)>)
    ensures r.Ok? ==> forall b :: b in r.value.1 ==>
              Ready(book, b) && b in CheckOrder(book, mapper, bucket, [])
  {
    SelectSpreadExitBy(book, mapper, bucket, check, st, PerHeldBase)
  }

  /** The exit selection with one EXIT meta entry per leg instrument: the
      two lists are aligned and every instrument is a leg of the ready,
      checked base its meta names. */
  function SelectSpreadExit<S>(book: Legbook<Side>, mapper: map<Instrument, Instrument>,
                               bucket: seq<Instrument>, check: (S, Instrument) -> Result<(bool, S)>, st: S)
    : (r: Result<(seq<Instrument>, seq<Instrument>, S)>)
    ensures r.Ok? ==> |r.value.0| == |r.value.1|
    ensures r.Ok? ==> forall k :: 0 <= k < |r.value.0| ==>
              Ready(book, r.value.1[k]) && r.value.1[k] in CheckOrder(book, mapper, bucket, [])
              && r.value.0[k] in Children(book[r.value.1[k]])
  {
    var s := SelectSpreadExitBy(book, mapper, bucket, check, st, PerLeg);
    assert s.Ok? ==> forall k :: 0 <= k < |s.value.1| ==> s.value.1[k] in s.value.1;
    s
  }

  /** With a check that ignores the levels, a bucket child whose base is
      ready is exited, base and every leg, exactly when the base's check
      fires. */
  lemma ExitIffFires<S>(book: Legbook<Side>, mapper: map<Instrument, Instrument>, bucket: seq<Instrument>,
                        check: (S, Instrument) -> Result<(bool, S)>, fires: Instrument -> bool, st: S, i: Instrument)
    requires forall s, b :: check(s, b) == Ok((fires(b), s))
    requires i in bucket && i in mapper && Ready(book, mapper[i])
    ensures var r := SelectSpreadExit(book, mapper, bucket, check, st);
            r.Ok? && (mapper[i] in r.value.1 <==> fires(mapper[i]))
            && (fires(mapper[i]) ==> forall c :: c in Children(book[mapper[i]]) ==> c in r.value.0)
  {
    var bases := CheckOrder(book, mapper, bucket, []);
    StatelessChecks(check, fires, st, bases);
    var b := mapper[i];
    assert b in bases;
    var k :| 0 <= k < |bases| && bases[k] == b;
    var run := RunChecks(check, st, bases).value;
    assert run.0[k] == fires(b);
    if mapper[i] in SelectSpreadExit(book, mapper, bucket, check, st).value.1 {
      var j :| 0 <= j < |bases| && bases[j] == b && run.0[j];
      assert j == k by { assert Distinct(bases); }
    }
  }

  /** As written the lists disagree: a single base holding two complete
      legs whose check fires selects two leg instruments but only one
      EXIT meta entry. */
  lemma ExitMetaMisaligned()
    ensures var o1 := BrokerOrder("NIFTY-CE-ATM", true, Complete, 120.0);
            var o2 := BrokerOrder("NIFTY-CE-OTM", true, Complete, 60.0);
            var book := map["NIFTY" := [Slot(Buy, Some(o1)), Slot(Sell, Some(o2))]];
            var mapper := map["NIFTY-CE-ATM" := "NIFTY", "NIFTY-CE-OTM" := "NIFTY"];
            var r := SelectSpreadExitAsWritten(book, mapper, ["NIFTY-CE-ATM", "NIFTY-CE-OTM"],
                                               (s: (), b: Instrument) => Ok((true, s)), ());
            r.Ok? && |r.value.0| == 2 && |r.value.1| == 1
  {
    var o1 := BrokerOrder("NIFTY-CE-ATM", true, Complete, 120.0);
    var o2 := BrokerOrder("NIFTY-CE-OTM", true, Complete, 60.0);
    var legs := [Slot(Buy, Some(o1)), Slot(Sell, Some(o2))];
    var book := map["NIFTY" := legs];
    var mapper := map["NIFTY-CE-ATM" := "NIFTY", "NIFTY-CE-OTM" := "NIFTY"];
    assert legs[1..] == [Slot(Sell, Some(o2))];
    assert Placed(legs) == [o1, o2];
    assert |Children(legs)| == 2;
    var bucket: seq<Instrument> := ["NIFTY-CE-ATM", "NIFTY-CE-OTM"];
    assert bucket[1..] == ["NIFTY-CE-OTM"];
    assert CheckOrder(book, mapper, bucket[1..], ["NIFTY"]) == [];
    assert CheckOrder(book, mapper, bucket, []) == ["NIFTY"];
    var check := (s: (), b: Instrument) => Ok((true, s));
    var one: seq<Instrument> := ["NIFTY"];
    assert one[1..] == [];
    assert [true] + [] == [true];
    assert RunChecks(check, (), one) == Ok(([true], ()));
    assert book.Keys == {"NIFTY"};
    assert |book| == 1;
    assert EmitExits(book, [], [], PerHeldBase) == ([], []);
    var fired := [true];
    assert fired[1..] == [];
    assert Copies("NIFTY", 1) == ["NIFTY"];
    assert Children(legs) + [] == Children(legs) && ["NIFTY"] + [] == one;
    assert EmitExits(book, one, fired, PerHeldBase) == (Children(legs), ["NIFTY"]);
  }

  // ---------------------------------------------------------------------
  // The level checks as the exit scan calls them
  // ---------------------------------------------------------------------

  /** The quotes of a base's BUY and SELL legs: entry prices from the
      orders, last traded prices from `ltp`. A missing key raises
      KeyError; a key holding no order raises on the attribute access. */
  function QuotesOf(legs: seq<Slot<Side>>, ltp: Instrument -> real): (r: Result<Quotes>)
    ensures r.Ok? <==> Lookup(legs, Buy).Some? && Lookup(legs, Buy).value.Some?
                       && Lookup(legs, Sell).Some? && Lookup(legs, Sell).value.Some?
    ensures r.Ok? ==>
              var ob := Lookup(legs, Buy).value.value;
              var os := Lookup(legs, Sell).value.value;
              r.value == Quotes(ob.entryPrice, os.entryPrice, ltp(ob.child), ltp(os.child))
  {
    var buy := Lookup(legs, Buy);
    var sell := Lookup(legs, Sell);
    if buy.None? || sell.None? || buy.value.None? || sell.value.None? then Err(MissingKey)
    else
      var ob := buy.value.value;
      var os := sell.value.value;
      Ok(Quotes(ob.entryPrice, os.entryPrice, ltp(ob.child), ltp(os.child)))
  }

  /** A level check (trailing_stop_spread, check_exit_conditions or the
      diagonal's _check_exit_conditions) as the exit scan calls it on a
      base: the quotes of its legs, then the check on the one set of level
      fields the whole strategy keeps. */
  function LevelCheck<L>(book: Legbook<Side>, ltp: Instrument -> real, f: (L, Quotes) -> Result<(bool, L)>)
    : (L, Instrument) -> Result<(bool, L)>
  {
    (l: L, b: Instrument) =>
      if b !in book then Err(MissingKey)
      else
        match QuotesOf(book[b], ltp)
        case Err(e) => Err(e)
        case Ok(q) => f(l, q)
  }

  /** As written the trailing levels are shared: NIFTY entered at a spread
      of 10 and holds there, which leaves a stop of 8; BANKNIFTY entered
      at 6 and now trades at 5, above its own stop of 4.8. Checked in that
      order, BANKNIFTY is measured against NIFTY's stop and exited; with
      levels kept per base it is not. */
  lemma SharedLevelsCrossBases()
    ensures var n1 := BrokerOrder("NIFTY-CE-ATM", true, Complete, 20.0);
            var n2 := BrokerOrder("NIFTY-CE-OTM", true, Complete, 10.0);
            var b1 := BrokerOrder("BANKNIFTY-CE-ATM", true, Complete, 16.0);
            var b2 := BrokerOrder("BANKNIFTY-CE-OTM", true, Complete, 10.0);
            var book := map["NIFTY" := [Slot(Buy, Some(n1)), Slot(Sell, Some(n2))],
                            "BANKNIFTY" := [Slot(Buy, Some(b1)), Slot(Sell, Some(b2))]];
            var ltp := (c: Instrument) => if c == "BANKNIFTY-CE-ATM" then 15.0 else if c == "NIFTY-CE-ATM" then 20.0 else 10.0;
            var check := LevelCheck(book, ltp, (l: TrailLevels, q: Quotes) => CheckTrailing(l, q, 20.0));
            RunChecks(check, NoTrail, ["NIFTY", "BANKNIFTY"]).Ok?
            && RunChecks(check, NoTrail, ["NIFTY", "BANKNIFTY"]).value.0 == [false, true]
            && RunChecks(PerBase(check, NoTrail), map[], ["NIFTY", "BANKNIFTY"]).Ok?
            && RunChecks(PerBase(check, NoTrail), map[], ["NIFTY", "BANKNIFTY"]).value.0 == [false, false]
  {
    var n1 := BrokerOrder("NIFTY-CE-ATM", true, Complete, 20.0);
    var n2 := BrokerOrder("NIFTY-CE-OTM", true, Complete, 10.0);
    var b1 := BrokerOrder("BANKNIFTY-CE-ATM", true, Complete, 16.0);
    var b2 := BrokerOrder("BANKNIFTY-CE-OTM", true, Complete, 10.0);
    var nl := [Slot(Buy, Some(n1)), Slot(Sell, Some(n2))];
    var bl := [Slot(Buy, Some(b1)), Slot(Sell, Some(b2))];
    var book := map["NIFTY" := nl, "BANKNIFTY" := bl];
    var ltp := (c: Instrument) => if c == "BANKNIFTY-CE-ATM" then 15.0 else if c == "NIFTY-CE-ATM" then 20.0 else 10.0;
    var check := LevelCheck(book, ltp, (l: TrailLevels, q: Quotes) => CheckTrailing(l, q, 20.0));
    assert nl[1..] == [Slot(Sell, Some(n2))];
    assert bl[1..] == [Slot(Sell, Some(b2))];
    assert Lookup(nl, Buy) == Some(Some(n1)) && Lookup(nl, Sell) == Some(Some(n2));
    assert Lookup(bl, Buy) == Some(Some(b1)) && Lookup(bl, Sell) == Some(Some(b2));
    assert ltp("NIFTY-CE-ATM") == 20.0 && ltp("NIFTY-CE-OTM") == 10.0;
    assert ltp("BANKNIFTY-CE-ATM") == 15.0 && ltp("BANKNIFTY-CE-OTM") == 10.0;
    assert QuotesOf(nl, ltp) == Ok(Quotes(20.0, 10.0, 20.0, 10.0));
    assert QuotesOf(bl, ltp) == Ok(Quotes(16.0, 10.0, 15.0, 10.0));
    var shared := TrailLevels(Some(10.0), Some(10.0), Some(8.0));
    assert check(NoTrail, "NIFTY") == Ok((false, shared));
    assert check(shared, "BANKNIFTY") == Ok((true, NoTrail));
    var bases: seq<Instrument> := ["NIFTY", "BANKNIFTY"];
    assert bases[1..] == ["BANKNIFTY"];
    var own := TrailLevels(Some(6.0), Some(6.0), Some(4.8));
    assert check(NoTrail, "BANKNIFTY") == Ok((false, own));
    var m1: map<Instrument, TrailLevels> := map["NIFTY" := shared];
    assert Own(map[], "NIFTY", NoTrail) == NoTrail;
    assert PerBase(check, NoTrail)(map[], "NIFTY") == Ok((false, m1));
    assert Own(m1, "BANKNIFTY", NoTrail) == NoTrail;
    assert PerBase(check, NoTrail)(m1, "BANKNIFTY") == Ok((false, m1["BANKNIFTY" := own]));
    assert [false] + [] == [false] && [false] + [false] == [false, false];
  }

  // ---------------------------------------------------------------------
  // Diagonal spread leg placement
  // ---------------------------------------------------------------------

  /** The base holds a truthy order under key `k`. */
  predicate HasLeg(book: Legbook<Side>, base: Instrument, k: Side)
  {
    base in book && Lookup(book[base], k).Some? && Lookup(book[base], k).value.Some?
  }

  /** strategy_enter_position of the diagonal: a leg whose base already
      has legs but not the opposite one drops the base's entry and places
      nothing; otherwise the order is filed (even a failed one, as `None`
      or as the rejected order); a failed placement stops the strategy
      and, when an order object exists, unwinds the base. */
  function EnterDiagonal(book: Legbook<Side>, base: Instrument, k: Side, o: Option<BrokerOrder>): (r: Placement<Side>)
    ensures Holds(book, base) && !HasLeg(book, base, Opposite(k)) ==>
              r == Placement(book - {base}, [], false)
    ensures !(Holds(book, base) && !HasLeg(book, base, Opposite(k))) ==>
              (r.halted <==> !PlacedSuccessfully(o))
              && (r.halted && o.Some? ==> base !in r.book)
              && (!r.halted || o.None? ==> base in r.book && Lookup(r.book[base], k) == Some(o))
    ensures forall b :: b != base ==> (b in r.book <==> b in book) && (b in book ==> r.book[b] == book[b])
  {
    if Holds(book, base) && !HasLeg(book, base, Opposite(k)) then Placement(book - {base}, [], false)
    else
      var filed := book[base := Put(LegsOf(book, base), k, o)];
      if PlacedSuccessfully(o) then Placement(filed, [], false)
      else if o.Some? then
        var (gone, rest) := ExitBase(filed, base);
        Placement(rest, gone, true)
      else Placement(filed, [], true)
  }

  /** Entering the BUY leg and then the SELL leg of a flat base, both
      placed successfully, leaves the base holding exactly those two legs. */
  lemma DiagonalPairFiled(book: Legbook<Side>, base: Instrument, o1: BrokerOrder, o2: BrokerOrder)
    requires !Holds(book, base)
    requires PlacedSuccessfully(Some(o1)) && PlacedSuccessfully(Some(o2))
    ensures var p1 := EnterDiagonal(book, base, Buy, Some(o1));
            var p2 := EnterDiagonal(p1.book, base, Sell, Some(o2));
            !p1.halted && !p2.halted && p2.book[base] == [Slot(Buy, Some(o1)), Slot(Sell, Some(o2))]
  {
    var p1 := EnterDiagonal(book, base, Buy, Some(o1));
    assert LegsOf(book, base) == [];
    assert p1.book[base] == [Slot(Buy, Some(o1))];
    assert HasLeg(p1.book, base, Buy);
  }

  /** A BUY leg that the broker refused outright (`None`) is filed as
      `None`; the SELL leg that follows finds no BUY leg and drops the
      base, so no naked SELL leg is placed. */
  lemma DiagonalOrphanDropped(book: Legbook<Side>, base: Instrument, o2: Option<BrokerOrder>)
    requires !Holds(book, base)
    ensures var p1 := EnterDiagonal(book, base, Buy, None);
            var p2 := EnterDiagonal(p1.book, base, Sell, o2);
            p1.halted && p2 == Placement(p1.book - {base}, [], false) && base !in p2.book
  {
    var p1 := EnterDiagonal(book, base, Buy, None);
    assert p1.book[base] == [Slot(Buy, None)];
    assert Holds(p1.book, base) && !HasLeg(p1.book, base, Buy);
  }
}
