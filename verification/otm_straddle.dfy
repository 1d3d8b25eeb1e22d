/** The short straddle with regular orders: once per day it picks the CE
    and PE contracts whose strikes lie nearest the underlying, sells both
    once (over all base instruments), guards each with a stoploss BUY
    order, cancels the other side when one stoploss fills, and squares
    everything off when the premium decay reaches a desired profit. The
    exit scan never selects anything: all exits are placed directly. */
module OtmStraddle {
  import opened Common
  import opened Ledger
  import opened OptionLegs

  // ---------------------------------------------------------------------
  // Contract selection
  // ---------------------------------------------------------------------

  /** One row of the instrument master for the chosen expiry. */
  datatype Row = Row(symbol: Instrument, kind: Suffix, strike: real)

  function Dist(strike: real, ltp: real): (d: real)
    ensures d >= 0.0 && (d == strike - ltp || d == ltp - strike)
  {
    if strike >= ltp then strike - ltp else ltp - strike
  }

  /** The smallest strike distance in a non-empty chain. */
  function MinDist(rows: seq<Row>, ltp: real): (m: real)
    requires |rows| > 0
    ensures forall k :: 0 <= k < |rows| ==> m <= Dist(rows[k].strike, ltp)
    ensures exists k :: 0 <= k < |rows| && m == Dist(rows[k].strike, ltp)
    decreases |rows|
  {
    if |rows| == 1 then Dist(rows[0].strike, ltp)
    else
      var m := MinDist(rows[1..], ltp);
      assert forall k :: 1 <= k < |rows| ==> rows[k] == rows[1..][k - 1];
      var d := Dist(rows[0].strike, ltp);
      if d <= m then d else m
  }

  /** The rows within distance `m`, in order. */
  function Within(rows: seq<Row>, ltp: real, m: real): (r: seq<Row>)
    ensures forall x :: x in r <==> x in rows && Dist(x.strike, ltp) <= m
    ensures |r| <= |rows|
    decreases |rows|
  {
    if |rows| == 0 then []
    else (if Dist(rows[0].strike, ltp) <= m then [rows[0]] else []) + Within(rows[1..], ltp, m)
  }

  /** The rows at or above a strike, in order. */
  function AtOrAbove(rows: seq<Row>, ltp: real): (r: seq<Row>)
    ensures forall x :: x in r <==> x in rows && x.strike >= ltp
    decreases |rows|
  {
    if |rows| == 0 then []
    else (if rows[0].strike >= ltp then [rows[0]] else []) + AtOrAbove(rows[1..], ltp)
  }

  /** The last two of the nearest rows: the pair itself when it is two
      rows of different types, the ones at or above the underlying when
      it is four rows; fatal otherwise. */
  function PickFrom(near: seq<Row>, ltp: real): (r: Result<(Row, Row)>)
    ensures r.Ok? ==> r.value.0 in near && r.value.1 in near
    ensures r.Ok? && |near| == 2 && near[0].kind != near[1].kind ==> r.value.0.kind != r.value.1.kind
    ensures r.Ok? && !(|near| == 2 && near[0].kind != near[1].kind) ==>
              |near| == 4 && r.value.0.strike >= ltp && r.value.1.strike >= ltp
  {
    var pair := |near| == 2 && near[0].kind != near[1].kind;
    if !pair && |near| != 4 then Err(SystemExit)
    else
      var last := if pair then near else AtOrAbove(near, ltp);
      if |last| < 2 then Err(OutOfRange)
      else
        var a := last[|last| - 2];
        var b := last[|last| - 1];
        assert a in last && b in last;
        assert pair ==> a == near[0] && b == near[1];
        Ok((a, b))
  }

  /** set_and_subscribe_trading_symbols: keep the rows nearest the
      underlying; fatal unless that leaves two rows of different types or
      four rows, and of four keep those at or above the underlying; the
      last two rows left are the contracts. */
  function PickContracts(rows: seq<Row>, ltp: real): (r: Result<(Row, Row)>)
    ensures r.Ok? ==> r.value.0 in rows && r.value.1 in rows
    ensures r.Ok? ==> Nearer(r.value.0, rows, ltp) && Nearer(r.value.1, rows, ltp)
    ensures r.Ok? && |Nearest(rows, ltp)| == 2 && Nearest(rows, ltp)[0].kind != Nearest(rows, ltp)[1].kind ==>
              r.value.0.kind != r.value.1.kind
    ensures r.Ok? && !(|Nearest(rows, ltp)| == 2 && Nearest(rows, ltp)[0].kind != Nearest(rows, ltp)[1].kind) ==>
              |Nearest(rows, ltp)| == 4 && r.value.0.strike >= ltp && r.value.1.strike >= ltp
    ensures |rows| == 0 ==> r == Err(SystemExit)
  {
    if |rows| == 0 then Err(SystemExit)
    else
      var near := Nearest(rows, ltp);
      var r := PickFrom(near, ltp);
      assert r.Ok? ==> r.value.0 in near && r.value.1 in near;
      r
  }

  /** Row `x` is at least as near the underlying as every row of `rows`. */
  predicate Nearer(x: Row, rows: seq<Row>, ltp: real)
  {
    forall y :: y in rows ==> Dist(x.strike, ltp) <= Dist(y.strike, ltp)
  }

  /** The rows at the minimum distance. */
  function Nearest(rows: seq<Row>, ltp: real): (r: seq<Row>)
    requires |rows| > 0
    ensures forall x :: x in r <==> x in rows && Nearer(x, rows, ltp)
  {
    var m := MinDist(rows, ltp);
    var r := Within(rows, ltp, m);
    forall x | x in rows && Nearer(x, rows, ltp)
      ensures x in r
    {
      var k :| 0 <= k < |rows| && m == Dist(rows[k].strike, ltp);
      assert rows[k] in rows;
    }
    forall x | x in r
      ensures Nearer(x, rows, ltp)
    {
      forall y | y in rows
        ensures Dist(x.strike, ltp) <= Dist(y.strike, ltp)
      {
        var k :| 0 <= k < |rows| && rows[k] == y;
      }
    }
    r
  }

  /** With the underlying between two strikes, the nearer strike's CE and
      PE are picked. */
  lemma PicksNearestPair()
    ensures var rows := [Row("C100", CE, 100.0), Row("P100", PE, 100.0), Row("C110", CE, 110.0), Row("P110", PE, 110.0)];
            PickContracts(rows, 103.0) == Ok((Row("C100", CE, 100.0), Row("P100", PE, 100.0)))
  {
    var rows := [Row("C100", CE, 100.0), Row("P100", PE, 100.0), Row("C110", CE, 110.0), Row("P110", PE, 110.0)];
    assert MinDist(rows, 103.0) == 3.0;
    assert rows[1..][1..][1..][1..] == [];
    assert Nearest(rows, 103.0) == [Row("C100", CE, 100.0), Row("P100", PE, 100.0)];
  }

  /** Two strikes, each with its CE and PE. */
  const TwoStrikes := [Row("C100", CE, 100.0), Row("P100", PE, 100.0), Row("C110", CE, 110.0), Row("P110", PE, 110.0)]

  lemma MidpointDistance()
    ensures MinDist(TwoStrikes, 105.0) == 5.0
  {
    var rows := TwoStrikes;
    assert rows[1..][1..][1..] == [rows[3]];
    assert MinDist(rows[1..][1..][1..], 105.0) == 5.0;
    assert MinDist(rows[1..][1..], 105.0) == 5.0;
    assert MinDist(rows[1..], 105.0) == 5.0;
  }

  /** A chain whose every strike is within the distance is kept whole. */
  lemma {:induction false} WithinAll(rows: seq<Row>, ltp: real, m: real)
    requires forall k :: 0 <= k < |rows| ==> Dist(rows[k].strike, ltp) <= m
    ensures Within(rows, ltp, m) == rows
    decreases |rows|
  {
    if |rows| > 0 {
      WithinAll(rows[1..], ltp, m);
      assert [rows[0]] + rows[1..] == rows;
    }
  }

  lemma MidpointAllNearest()
    ensures Nearest(TwoStrikes, 105.0) == TwoStrikes
  {
    MidpointDistance();
    WithinAll(TwoStrikes, 105.0, 5.0);
    assert Nearest(TwoStrikes, 105.0) == Within(TwoStrikes, 105.0, 5.0);
  }

  lemma MidpointUpperRows()
    ensures AtOrAbove(TwoStrikes, 105.0) == [Row("C110", CE, 110.0), Row("P110", PE, 110.0)]
  {
    var rows := TwoStrikes;
    assert rows[1..][1..][1..][1..] == [];
  }

  /** With the underlying exactly between two strikes all four rows tie and
      the upper strike's pair is picked. */
  lemma MidpointPicksUpperPair()
    ensures PickContracts(TwoStrikes, 105.0) == Ok((Row("C110", CE, 110.0), Row("P110", PE, 110.0)))
  {
    MidpointAllNearest();
    MidpointUpperRows();
  }

  // ---------------------------------------------------------------------
  // CE/PE classification
  // ---------------------------------------------------------------------

  /** The suffix a trading symbol ends with, if it is CE or PE. */
  function SuffixOf(symbol: Instrument): (r: Option<Suffix>)
    ensures r == Some(CE) <==> EndsWith(symbol, "CE")
    ensures r == Some(PE) <==> EndsWith(symbol, "PE") && !EndsWith(symbol, "CE")
  {
    if EndsWith(symbol, "CE") then Some(CE) else if EndsWith(symbol, "PE") then Some(PE) else None
  }

  /** A symbol ending in "[LOCAL]" ends in "]". */
  lemma {:induction false} TaggedEndsInBracket(symbol: Instrument, t: string)
    requires EndsWith(symbol, t) && |t| > 0 && t[|t| - 1] == ']'
    ensures EndsWith(symbol, "]")
  {
    EndsWithLast(symbol, t);
    assert symbol[|symbol| - 1..] == [symbol[|symbol| - 1]];
  }

  /** On plain contract symbols (not ending in "]") this file classifies
      exactly as the shared suffix classifier does. */
  lemma {:induction false} SuffixOfAgreesOnPlainSymbols(symbol: Instrument)
    requires !EndsWith(symbol, "]")
    ensures SuffixOf(symbol) == SymbolSuffix(symbol)
  {
    if EndsWith(symbol, "CE [LOCAL]") { TaggedEndsInBracket(symbol, "CE [LOCAL]"); }
    if EndsWith(symbol, "PE [LOCAL]") { TaggedEndsInBracket(symbol, "PE [LOCAL]"); }
  }

  /** A plain symbol built from a suffix is classified as that suffix; the
      "[LOCAL]"-tagged form, which the shared classifier accepts, is
      recognised by neither suffix here. */
  lemma {:induction false} SuffixOfBuiltSymbols(root: Instrument, s: Suffix)
    ensures SuffixOf(root + SuffixText(s)) == Some(s)
    ensures SuffixOf(root + SuffixText(s) + " [LOCAL]") == None
  {
    EndsWithAppend(root, SuffixText(s), "CE");
    var local := root + SuffixText(s) + " [LOCAL]";
    if EndsWith(local, "CE") { EndsWithLast(local, "CE"); }
    if EndsWith(local, "PE") { EndsWithLast(local, "PE"); }
  }

  /** Every contract of the list is a CE or a PE contract. */
  predicate Classified(contracts: seq<Instrument>)
  {
    forall k :: 0 <= k < |contracts| ==> SuffixOf(contracts[k]).Some?
  }

  /** No contract of the list carries suffix `s`. */
  predicate Lacks(contracts: seq<Instrument>, s: Suffix)
  {
    forall k :: 0 <= k < |contracts| ==> SuffixOf(contracts[k]) != Some(s)
  }

  /** The list facts above, split at the last contract. */
  lemma LastSplit(contracts: seq<Instrument>)
    requires |contracts| > 0
    ensures var init := contracts[..|contracts| - 1];
            var x := contracts[|contracts| - 1];
            && (Classified(contracts) <==> Classified(init) && SuffixOf(x).Some?)
            && (forall s :: Lacks(contracts, s) <==> Lacks(init, s) && SuffixOf(x) != Some(s))
            && (forall c :: c in init ==> c in contracts)
  {
    var init := contracts[..|contracts| - 1];
    assert forall k :: 0 <= k < |init| ==> init[k] == contracts[k];
    assert contracts == init + [contracts[|contracts| - 1]];
  }

  /** extract_ce_pe_instruments: the last CE and the last PE contract of a
      base; any other contract raises NotImplementedError. */
  function Extract(contracts: seq<Instrument>): (r: Result<(Option<Instrument>, Option<Instrument>)>)
    ensures r.Ok? <==> forall k :: 0 <= k < |contracts| ==> SuffixOf(contracts[k]).Some?
    ensures r.Ok? && r.value.0.Some? ==> r.value.0.value in contracts && SuffixOf(r.value.0.value) == Some(CE)
    ensures r.Ok? && r.value.1.Some? ==> r.value.1.value in contracts && SuffixOf(r.value.1.value) == Some(PE)
    decreases |contracts|
  {
    if |contracts| == 0 then Ok((None, None))
    else
      var init := contracts[..|contracts| - 1];
      var x := contracts[|contracts| - 1];
      var r := Extract(init);
      LastSplit(contracts);
      assert r.Ok? <==> Classified(init);
      assert Classified(contracts) <==> forall k :: 0 <= k < |contracts| ==> SuffixOf(contracts[k]).Some?;
      if r.Err? || SuffixOf(x).None? then Err(NotImplemented)
      else if SuffixOf(x) == Some(CE) then Ok((Some(x), r.value.1))
      else Ok((r.value.0, Some(x)))
  }

  /** A suffix is missing from the extraction exactly when no contract
      carries it. */
  lemma {:induction false} ExtractMissing(contracts: seq<Instrument>)
    requires Extract(contracts).Ok?
    ensures Extract(contracts).value.0.None? <==> forall k :: 0 <= k < |contracts| ==> SuffixOf(contracts[k]) != Some(CE)
    ensures Extract(contracts).value.1.None? <==> forall k :: 0 <= k < |contracts| ==> SuffixOf(contracts[k]) != Some(PE)
    decreases |contracts|
  {
    if |contracts| > 0 {
      var init := contracts[..|contracts| - 1];
      LastSplit(contracts);
      ExtractMissing(init);
      assert Extract(init).value.0.None? <==> Lacks(init, CE);
      assert Extract(init).value.1.None? <==> Lacks(init, PE);
      assert Extract(contracts).value.0.None? <==> Lacks(contracts, CE);
      assert Extract(contracts).value.1.None? <==> Lacks(contracts, PE);
    }
  }

  // ---------------------------------------------------------------------
  // State and entry
  // ---------------------------------------------------------------------

  /** The strategy's dictionaries. `main` and `sl` are keyed by contract,
      as are the per-suffix copies; `contracts` maps each base to its two
      picked contracts. */
  datatype OtmState = OtmState(
    contracts: map<Instrument, seq<Instrument>>,
    started: set<Instrument>,                 // the keys of day_start
    firstDone: bool,
    main: map<Instrument, BrokerOrder>,
    mainCe: map<Instrument, Option<BrokerOrder>>,
    mainPe: map<Instrument, Option<BrokerOrder>>,
    entryCe: map<Instrument, real>,
    entryPe: map<Instrument, real>,
    sl: map<Instrument, BrokerOrder>,
    slCe: map<Instrument, Option<BrokerOrder>>,
    slPe: map<Instrument, Option<BrokerOrder>>)

  const Fresh := OtmState(map[], {}, false, map[], map[], map[], map[], map[], map[], map[], map[])

  /** What an entry intent asks for: the main SELL or its stoploss. */
  datatype Purpose = MainOrder | StoplossOrder
  datatype Intent = Intent(purpose: Purpose, contract: Instrument)

  /** strategy_select_instruments_for_entry. Before the start time nothing
      happens; the first scan after it picks the contracts of each base;
      after that, the first base with contracts yields a main and a
      stoploss intent per contract (see `Pairs`), and no base ever yields
      again. The result names that base and its contracts, if any. */
  function SelectOtmEntry(st: OtmState, bucket: seq<Instrument>, afterStart: bool,
                          chain: Instrument -> seq<Row>, ltp: Instrument -> real)
    : (r: Result<(Option<(Instrument, seq<Instrument>)>, OtmState)>)
    ensures !afterStart ==> r == Ok((None, st))
    ensures r.Ok? && st.firstDone ==> r.value.0.None? && r.value.1.firstDone
    ensures r.Ok? && r.value.0.Some? ==>
              r.value.0.value.0 in bucket && |r.value.0.value.1| > 0 && r.value.1.firstDone && !st.firstDone
    ensures r.Ok? ==> r.value.1.main == st.main && r.value.1.sl == st.sl
    ensures r.Ok? && st.firstDone ==> r.value.1.firstDone
    decreases |bucket|
  {
    if !afterStart || |bucket| == 0 then Ok((None, st))
    else
      var b := bucket[0];
      if b !in st.started then
        var picked := PickContracts(chain(b), ltp(b));
        if picked.Err? then Err(picked.fault)
        else
          var st' := st.(contracts := st.contracts[b := [picked.value.0.symbol, picked.value.1.symbol]],
                         started := st.started + {b});
          var rest := SelectOtmEntry(st', bucket[1..], afterStart, chain, ltp);
          if rest.Err? then rest
          else
            assert rest.value.0.Some? ==> rest.value.0.value.0 in bucket;
            rest
      else if !st.firstDone && b in st.contracts && |st.contracts[b]| > 0 then
        var st' := st.(firstDone := true);
        var rest := SelectOtmEntry(st', bucket[1..], afterStart, chain, ltp);
        if rest.Err? then rest
        else Ok((Some((b, st.contracts[b])), rest.value.1))
      else
        var rest := SelectOtmEntry(st, bucket[1..], afterStart, chain, ltp);
        if rest.Err? then rest
        else
          assert rest.value.0.Some? ==> rest.value.0.value.0 in bucket;
          rest
  }

  /** Once the first straddle has been sold, no later scan sells another,
      whatever the bucket and prices. */
  lemma SellsOnce(st: OtmState, b1: seq<Instrument>, b2: seq<Instrument>, chain: Instrument -> seq<Row>,
                  ltp: Instrument -> real)
    requires var r := SelectOtmEntry(st, b1, true, chain, ltp); r.Ok? && r.value.0.Some?
    ensures var r := SelectOtmEntry(st, b1, true, chain, ltp);
            var r2 := SelectOtmEntry(r.value.1, b2, true, chain, ltp);
            r2.Ok? ==> r2.value.0.None?
  {
  }

  /** A main and a stoploss intent for each contract, in order. */
  function Pairs(b: Instrument, contracts: seq<Instrument>): (r: seq<(Instrument, Intent)>)
    ensures |r| == 2 * |contracts|
    ensures forall k :: 0 <= k < |r| ==> r[k].0 == b && r[k].1 == Intent(if k % 2 == 0 then MainOrder else StoplossOrder, contracts[k / 2])
    decreases |contracts|
  {
    if |contracts| == 0 then []
    else
      var rest := Pairs(b, contracts[1..]);
      var r := [(b, Intent(MainOrder, contracts[0])), (b, Intent(StoplossOrder, contracts[0]))] + rest;
      assert forall k :: 2 <= k < |r| ==> r[k] == rest[k - 2] && (k - 2) / 2 == k / 2 - 1 && (k - 2) % 2 == k % 2;
      r
  }

  /** What an entry asks the broker for. */
  datatype Request = Request(contract: Instrument, side: Side, stoploss: bool, trigger: Option<real>)

  /** strategy_enter_position. A main intent sells the contract at market
      and records the order and the contract's price under its suffix. A
      stoploss intent places a stoploss-market BUY triggered STOPLOSS_POINTS
      above the contract's price when the main order is complete, and
      records the result (`None` when nothing was placed) under the
      contract's suffix. As written the main order is looked up under the
      base instrument, where it never is; the corrected lookup uses the
      contract. `placed` is the broker's answer to the request. */
  function EnterOtm(fixed: bool, st: OtmState, base: Instrument, intent: Intent, ltp: Instrument -> real,
                    points: real, placed: BrokerOrder)
    : (r: Result<(OtmState, Option<Request>)>)
    ensures intent.purpose == MainOrder ==>
              r.Ok? && r.value.1 == Some(Request(intent.contract, Sell, false, None))
              && r.value.0.main == st.main[intent.contract := placed]
    ensures intent.purpose == MainOrder && SuffixOf(intent.contract) == Some(CE) ==>
              r.Ok? && intent.contract in r.value.0.mainCe && intent.contract in r.value.0.entryCe
              && r.value.0.mainCe[intent.contract] == Some(placed) && r.value.0.entryCe[intent.contract] == ltp(intent.contract)
    ensures intent.purpose == MainOrder && SuffixOf(intent.contract) == Some(PE) ==>
              r.Ok? && intent.contract in r.value.0.mainPe && intent.contract in r.value.0.entryPe
              && r.value.0.mainPe[intent.contract] == Some(placed) && r.value.0.entryPe[intent.contract] == ltp(intent.contract)
    ensures intent.purpose == StoplossOrder && r.Ok? ==> r.value.0.main == st.main
    ensures intent.purpose == StoplossOrder && r.Ok? ==>
              var key := if fixed then intent.contract else base;
              (r.value.1.Some? <==> key in st.main && st.main[key].status == Complete)
              && (r.value.1.Some? ==> r.value.1.value == Request(intent.contract, Buy, true, Some(ltp(intent.contract) + points)))
    ensures intent.purpose == StoplossOrder && r.Ok? && SuffixOf(intent.contract) == Some(CE) ==>
              intent.contract in r.value.0.slCe && r.value.0.slCe[intent.contract] == (if r.value.1.Some? then Some(placed) else None)
    ensures intent.purpose == StoplossOrder && r.Ok? && SuffixOf(intent.contract) == Some(PE) ==>
              intent.contract in r.value.0.slPe && r.value.0.slPe[intent.contract] == (if r.value.1.Some? then Some(placed) else None)
  {
    var c := intent.contract;
    var px := ltp(c);
    match intent.purpose
    case MainOrder =>
      var st1 := st.(main := st.main[c := placed]);
      var st2 :=
        if SuffixOf(c) == Some(CE) then st1.(mainCe := st1.mainCe[c := Some(placed)], entryCe := st1.entryCe[c := px])
        else if SuffixOf(c) == Some(PE) then st1.(mainPe := st1.mainPe[c := Some(placed)], entryPe := st1.entryPe[c := px])
        else st1;
      Ok((st2, Some(Request(c, Sell, false, None))))
    case StoplossOrder =>
      var key := if fixed then c else base;
      if key in st.main && st.main[key].status == Complete && c !in st.main then Err(MissingKey)
      else
        var go := key in st.main && st.main[key].status == Complete;
        var st1 := if go then st.(sl := st.sl[c := placed]) else st;
        var pushed := if go then Some(placed) else None;
        var st2 :=
          if SuffixOf(c) == Some(CE) then st1.(slCe := st1.slCe[c := pushed])
          else if SuffixOf(c) == Some(PE) then st1.(slPe := st1.slPe[c := pushed])
          else st1;
        Ok((st2, if go then Some(Request(c, Buy, true, Some(px + points))) else None))
  }

  /** As written, no stoploss is ever placed: the main orders are filed
      under their contracts, so a base that is not itself one of the
      contracts entered never finds one, even right after its contract's
      main order completed. The corrected lookup places it. */
  lemma StoplossLookedUpUnderBase(st: OtmState, base: Instrument, contract: Instrument, ltp: Instrument -> real,
                                  points: real, sold: BrokerOrder, guard: BrokerOrder)
    requires base != contract && base !in st.main && sold.status == Complete
    ensures var e := EnterOtm(false, st, base, Intent(MainOrder, contract), ltp, points, sold);
            e.Ok? && var s := EnterOtm(false, e.value.0, base, Intent(StoplossOrder, contract), ltp, points, guard);
            s.Ok? && s.value.1 == None
    ensures var e := EnterOtm(true, st, base, Intent(MainOrder, contract), ltp, points, sold);
            e.Ok? && var s := EnterOtm(true, e.value.0, base, Intent(StoplossOrder, contract), ltp, points, guard);
            s.Ok? && s.value.1 == Some(Request(contract, Buy, true, Some(ltp(contract) + points)))
  {
  }

  // ---------------------------------------------------------------------
  // Exit scan
  // ---------------------------------------------------------------------

  /** What the exit scan does to the broker directly. */
  datatype Event = Cancel(order: BrokerOrder) | ExitMain(order: BrokerOrder)

  function MainOf(st: OtmState, s: Suffix): map<Instrument, Option<BrokerOrder>>
  {
    if s == CE then st.mainCe else st.mainPe
  }

  function SlOf(st: OtmState, s: Suffix): map<Instrument, Option<BrokerOrder>>
  {
    if s == CE then st.slCe else st.slPe
  }

  /** `d.get(k) is not None`, with the order. */
  function Live(d: map<Instrument, Option<BrokerOrder>>, k: Instrument): (r: Option<BrokerOrder>)
    ensures r.Some? <==> k in d && d[k].Some?
    ensures r.Some? ==> d[k] == r
  {
    if k in d then d[k] else None
  }

  /** Forget one side's main and stoploss order of a contract. */
  function Clear(st: OtmState, s: Suffix, c: Instrument): (r: OtmState)
    ensures Live(MainOf(r, s), c).None? && Live(SlOf(r, s), c).None?
    ensures MainOf(r, Opp(s)) == MainOf(st, Opp(s)) && SlOf(r, Opp(s)) == SlOf(st, Opp(s))
    ensures forall x :: x != c ==> Live(MainOf(r, s), x) == Live(MainOf(st, s), x) && Live(SlOf(r, s), x) == Live(SlOf(st, s), x)
    ensures r.entryCe == st.entryCe && r.entryPe == st.entryPe && r.contracts == st.contracts && r.main == st.main
  {
    if s == CE then st.(mainCe := st.mainCe[c := None], slCe := st.slCe[c := None])
    else st.(mainPe := st.mainPe[c := None], slPe := st.slPe[c := None])
  }

  function Opp(s: Suffix): Suffix
  {
    if s == CE then PE else CE
  }

  /** Cancel a side's stoploss and exit its main order, whichever exist,
      then forget both. */
  function SquareOff(st: OtmState, s: Suffix, c: Instrument): (r: (OtmState, seq<Event>))
    ensures r.0 == Clear(st, s, c)
    ensures r.1 == (if Live(SlOf(st, s), c).Some? then [Cancel(Live(SlOf(st, s), c).value)] else [])
                   + (if Live(MainOf(st, s), c).Some? then [ExitMain(Live(MainOf(st, s), c).value)] else [])
  {
    var events := (if Live(SlOf(st, s), c).Some? then [Cancel(Live(SlOf(st, s), c).value)] else [])
                  + (if Live(MainOf(st, s), c).Some? then [ExitMain(Live(MainOf(st, s), c).value)] else []);
    (Clear(st, s, c), events)
  }

  /** The profit of the pair: premium collected less premium now, per unit,
      times the quantity. */
  function Profit(st: OtmState, ce: Instrument, pe: Instrument, ltp: Instrument -> real, qty: real): real
    requires ce in st.entryCe && pe in st.entryPe
  {
    (st.entryCe[ce] - ltp(ce)) * qty + (st.entryPe[pe] - ltp(pe)) * qty
  }

  /** The profit is the drop in the pair's combined price times the
      quantity, so with a non-negative quantity it only grows as either
      contract gets cheaper. */
  lemma ProfitIsPremiumDecay(st: OtmState, ce: Instrument, pe: Instrument, ltp: Instrument -> real,
                             ltp': Instrument -> real, qty: real)
    requires ce in st.entryCe && pe in st.entryPe && qty >= 0.0
    ensures Profit(st, ce, pe, ltp, qty) == ((st.entryCe[ce] + st.entryPe[pe]) - (ltp(ce) + ltp(pe))) * qty
    ensures ltp'(ce) <= ltp(ce) && ltp'(pe) <= ltp(pe) ==> Profit(st, ce, pe, ltp', qty) >= Profit(st, ce, pe, ltp, qty)
  {
    if ltp'(ce) <= ltp(ce) && ltp'(pe) <= ltp(pe) {
      var gain := (ltp(ce) + ltp(pe)) - (ltp'(ce) + ltp'(pe));
      assert gain >= 0.0;
      assert Profit(st, ce, pe, ltp', qty) == Profit(st, ce, pe, ltp, qty) + gain * qty;
    }
  }

  /** The square-off test of one base: with both main orders live, reaching
      the desired profit cancels both stoplosses and exits both mains (PE
      side first). */
  function ProfitCheck(st: OtmState, ce: Option<Instrument>, pe: Option<Instrument>, ltp: Instrument -> real,
                       qty: real, desired: real)
    : (r: Result<(OtmState, seq<Event>)>)
    ensures r.Ok? && r.value.1 != [] ==>
              ce.Some? && pe.Some? && Live(st.mainCe, ce.value).Some? && Live(st.mainPe, pe.value).Some?
              && ce.value in st.entryCe && pe.value in st.entryPe && Profit(st, ce.value, pe.value, ltp, qty) >= desired
              && Live(MainOf(r.value.0, CE), ce.value).None? && Live(MainOf(r.value.0, PE), pe.value).None?
              && Live(SlOf(r.value.0, CE), ce.value).None? && Live(SlOf(r.value.0, PE), pe.value).None?
              && ExitMain(st.mainCe[ce.value].value) in r.value.1 && ExitMain(st.mainPe[pe.value].value) in r.value.1
    ensures r.Ok? && r.value.1 == [] ==> r.value.0 == st
    ensures r.Ok? ==> r.value.0.contracts == st.contracts && r.value.0.main == st.main
    ensures (ce.Some? && pe.Some? && Live(st.mainCe, ce.value).Some? && Live(st.mainPe, pe.value).Some?
             && ce.value in st.entryCe && pe.value in st.entryPe) ==>
              r.Ok? && (r.value.1 != [] <==> Profit(st, ce.value, pe.value, ltp, qty) >= desired)
  {
    if ce.None? || pe.None? || Live(st.mainPe, pe.value).None? || Live(st.mainCe, ce.value).None? then Ok((st, []))
    else if ce.value !in st.entryCe || pe.value !in st.entryPe then Err(MissingKey)
    else if Profit(st, ce.value, pe.value, ltp, qty) >= desired then
      var p := SquareOff(st, PE, pe.value);
      var c := SquareOff(p.0, CE, ce.value);
      assert MainOf(p.0, CE) == st.mainCe;
      Ok((c.0, p.1 + c.1))
    else Ok((st, []))
  }

  /** One contract of one base in the exit scan: a completed stoploss on
      this contract's side squares off the other side; then the profit
      test runs. */
  function ScanContract(st: OtmState, c: Instrument, ce: Option<Instrument>, pe: Option<Instrument>,
                        ltp: Instrument -> real, qty: real, desired: real)
    : (r: Result<(OtmState, seq<Event>)>)
    ensures r.Ok? ==> r.value.0.contracts == st.contracts && r.value.0.main == st.main
  {
    var s := SuffixOf(c);
    var partner := if s == Some(CE) then pe else if s == Some(PE) then ce else None;
    var first :=
      if s.Some? && Live(SlOf(st, s.value), c).Some? && Live(SlOf(st, s.value), c).value.status == Complete
         && partner.Some? then SquareOff(st, Opp(s.value), partner.value)
      else (st, []);
    var second := ProfitCheck(first.0, ce, pe, ltp, qty, desired);
    if second.Err? then second else Ok((second.value.0, first.1 + second.value.1))
  }

  /** When one side's stoploss has filled, the scan of that contract leaves
      the other side with neither a live main nor a live stoploss order,
      having exited its main order if there was one, and leaves this
      side's orders alone. */
  lemma StoplossCancelsOtherSide(st: OtmState, c: Instrument, ce: Instrument, pe: Instrument,
                                 ltp: Instrument -> real, qty: real, desired: real)
    requires SuffixOf(c) == Some(CE) && c == ce
    requires Live(st.slCe, c).Some? && Live(st.slCe, c).value.status == Complete
    ensures var r := ScanContract(st, c, Some(ce), Some(pe), ltp, qty, desired);
            r.Ok? && Live(r.value.0.mainPe, pe).None? && Live(r.value.0.slPe, pe).None?
            && (Live(st.mainPe, pe).Some? ==> ExitMain(Live(st.mainPe, pe).value) in r.value.1)
            && Live(r.value.0.slCe, ce) == Live(st.slCe, ce) && Live(r.value.0.mainCe, ce) == Live(st.mainCe, ce)
  {
    var first := SquareOff(st, PE, pe);
    assert Live(first.0.mainPe, pe).None?;
  }

  /** strategy_select_instruments_for_exit, over the contracts of a base. */
  function ScanContracts(st: OtmState, cs: seq<Instrument>, ce: Option<Instrument>, pe: Option<Instrument>,
                         ltp: Instrument -> real, qty: real, desired: real)
    : (r: Result<(OtmState, seq<Event>)>)
    ensures r.Ok? ==> r.value.0.contracts == st.contracts && r.value.0.main == st.main
    decreases |cs|
  {
    if |cs| == 0 then Ok((st, []))
    else
      var one := ScanContract(st, cs[0], ce, pe, ltp, qty, desired);
      if one.Err? then one
      else
        var rest := ScanContracts(one.value.0, cs[1..], ce, pe, ltp, qty, desired);
        if rest.Err? then rest else Ok((rest.value.0, one.value.1 + rest.value.1))
  }

  /** strategy_select_instruments_for_exit: every base with contracts has
      each of them scanned; nothing is ever selected, so the only effects
      are the state and the broker events. A contract that is neither CE
      nor PE raises NotImplementedError. */
  function SelectOtmExit(st: OtmState, bucket: seq<Instrument>, ltp: Instrument -> real, qty: Instrument -> real,
                         desired: real)
    : (r: Result<(OtmState, seq<Event>)>)
    ensures r.Ok? ==> r.value.0.contracts == st.contracts && r.value.0.main == st.main
    decreases |bucket|
  {
    if |bucket| == 0 then Ok((st, []))
    else
      var b := bucket[0];
      if b !in st.contracts then SelectOtmExit(st, bucket[1..], ltp, qty, desired)
      else
        var x := Extract(st.contracts[b]);
        if x.Err? then Err(x.fault)
        else
          var one := ScanContracts(st, st.contracts[b], x.value.0, x.value.1, ltp, qty(b), desired);
          if one.Err? then one
          else
            var rest := SelectOtmExit(one.value.0, bucket[1..], ltp, qty, desired);
            if rest.Err? then rest else Ok((rest.value.0, one.value.1 + rest.value.1))
  }
}
