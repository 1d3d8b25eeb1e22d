/** The per-instrument position ledger (`main_order_map` / `main_order`)
    shared by every single-instrument strategy, and the four host callbacks
    over it: select-for-entry, enter, select-for-exit, exit.

    Python stores `None` after an exit; here the key is removed, which is
    the same for every `.get(instrument) is None` test the strategies make. */
module Ledger {
  import opened Common

  /** What a strategy reads of its main order. */
  datatype Order = Order(side: Side, status: Status)

  /** An instrument, identified by its trading symbol. */
  type Instrument = string

  type Book = map<Instrument, Order>

  /** The ledger test in front of the entry decision:
      `get(i) is None`, no test at all, or (inverted) `get(i) is not None`. */
  datatype Gate = WhenFlat | Always | WhenHeld

  predicate GateOpen(g: Gate, book: Book, i: Instrument)
  {
    match g
    case WhenFlat => i !in book
    case Always => true
    case WhenHeld => i in book
  }

  /** strategy_select_instruments_for_entry: walk the bucket in order and
      keep each instrument whose gate is open and whose decision is a side. */
  function SelectEntry(book: Book, bucket: seq<Instrument>, gate: Gate, decide: Instrument -> Option<Side>)
    : (r: Selection<Instrument, Side>)
    ensures r.Aligned() && |r.instruments| <= |bucket|
    ensures forall k :: 0 <= k < |r.instruments| ==>
              r.instruments[k] in bucket && GateOpen(gate, book, r.instruments[k])
              && decide(r.instruments[k]) == Some(r.meta[k])
    ensures forall i :: i in bucket ==>
              (i in r.instruments <==> GateOpen(gate, book, i) && decide(i).Some?)
    decreases |bucket|
  {
    if |bucket| == 0 then Empty()
    else
      var rest := SelectEntry(book, bucket[1..], gate, decide);
      var i := bucket[0];
      if GateOpen(gate, book, i) && decide(i).Some? then Cons(i, decide(i).value, rest) else rest
  }

  /** Exit selection needs a held order, possibly COMPLETE, on which the
      strategy's exit rule fires. */
  predicate Exitable(book: Book, i: Instrument, needComplete: bool, fires: (Instrument, Side) -> bool)
  {
    i in book && (needComplete ==> book[i].status == Complete) && fires(i, book[i].side)
  }

  /** The meta an exit carries: 'EXIT', or EXIT_BUY / EXIT_SELL naming the held side. */
  function ExitTag(sideTagged: bool, held: Side): Action
  {
    if sideTagged then CloseSide(held) else Close
  }

  /** strategy_select_instruments_for_exit. */
  function SelectExit(book: Book, bucket: seq<Instrument>, needComplete: bool,
                             fires: (Instrument, Side) -> bool, sideTagged: bool)
    : (r: Selection<Instrument, Action>)
    ensures r.Aligned() && |r.instruments| <= |bucket|
    ensures forall k :: 0 <= k < |r.instruments| ==>
              r.instruments[k] in bucket && Exitable(book, r.instruments[k], needComplete, fires)
              && r.meta[k] == ExitTag(sideTagged, book[r.instruments[k]].side)
    ensures forall i :: i in bucket ==>
              (i in r.instruments <==> Exitable(book, i, needComplete, fires))
    decreases |bucket|
  {
    if |bucket| == 0 then Empty()
    else
      var rest := SelectExit(book, bucket[1..], needComplete, fires, sideTagged);
      var i := bucket[0];
      if Exitable(book, i, needComplete, fires) then Cons(i, ExitTag(sideTagged, book[i].side), rest) else rest
  }

  /** strategy_enter_position: place the order for the meta's side and
      record it. `checked` strategies raise SystemExit on any meta that is
      not an entry side; the others pass the meta straight to the broker. */
  function Enter(book: Book, i: Instrument, a: Action, status: Status, checked: bool): (r: Result<Book>)
    ensures r.Err? <==> checked && !a.Place?
    ensures r.Ok? && a.Place? ==> i in r.value && r.value[i] == Order(a.side, status)
    ensures r.Ok? ==> forall j :: j != i ==> (j in r.value <==> j in book)
    ensures r.Ok? ==> forall j :: j != i && j in book ==> r.value[j] == book[j]
  {
    if !a.Place? then (if checked then Err(SystemExit) else Ok(book))
    else Ok(book[i := Order(a.side, status)])
  }

  /** strategy_exit_position: on an accepted meta, exit the held order
      and clear the entry (a missing entry is an attribute error on None). */
  function ExitPosition(book: Book, i: Instrument, a: Action, accepts: Action -> bool)
    : (r: Result<(Book, bool)>)
    ensures !accepts(a) ==> r == Ok((book, false))
    ensures accepts(a) && i !in book ==> r.Err?
    ensures accepts(a) && i in book ==> r.Ok? && r.value.1 && i !in r.value.0
    ensures r.Ok? ==> forall j :: j != i ==> (j in r.value.0 <==> j in book)
    ensures r.Ok? ==> forall j :: j != i && j in r.value.0 ==> r.value.0[j] == book[j]
  {
    if !accepts(a) then Ok((book, false))
    else if i !in book then Err(MissingKey)
    else Ok((book - {i}, true))
  }

  /** Entering an instrument that holds nothing and then exiting it
      restores the ledger exactly. */
  lemma EnterExitRoundTrip(book: Book, i: Instrument, s: Side, status: Status, checked: bool)
    requires i !in book
    ensures Enter(book, i, Place(s), status, checked).Ok?
    ensures ExitPosition(Enter(book, i, Place(s), status, checked).value, i, Close, a => a == Close)
            == Ok((book, true))
  {
    var after := book[i := Order(s, status)];
    assert after - {i} == book;
  }

  /** initialize_instrument in delivery mode: adopt the instrument's first
      existing order as the main order. */
  function Adopt(book: Book, i: Instrument, existing: seq<Order>): (r: Book)
    ensures |existing| > 0 ==> i in r && r[i] == existing[0]
    ensures |existing| == 0 ==> r == book
    ensures forall j :: j != i ==> (j in r <==> j in book) && (j in book ==> r[j] == book[j])
  {
    if |existing| > 0 then book[i := existing[0]] else book
  }

  /** The host's entry phase: enter every selected (instrument, side) pair in order. */
  function EnterAll(book: Book, sel: Selection<Instrument, Side>, status: Status): (r: Book)
    requires sel.Aligned()
    ensures forall j :: j in r <==> j in book || j in sel.instruments
    decreases |sel.instruments|
  {
    if |sel.instruments| == 0 then book
    else EnterAll(book[sel.instruments[0] := Order(sel.meta[0], status)],
                  Selection(sel.instruments[1..], sel.meta[1..]), status)
  }

  /** The last side entered for j, if any. */
  lemma {:induction false} EnterAllSide(book: Book, sel: Selection<Instrument, Side>, status: Status, k: nat)
    requires sel.Aligned() && k < |sel.instruments|
    requires forall k' :: k < k' < |sel.instruments| ==> sel.instruments[k'] != sel.instruments[k]
    ensures sel.instruments[k] in EnterAll(book, sel, status)
    ensures EnterAll(book, sel, status)[sel.instruments[k]] == Order(sel.meta[k], status)
    decreases |sel.instruments|
  {
    var j := sel.instruments[k];
    var tail := Selection(sel.instruments[1..], sel.meta[1..]);
    var book' := book[sel.instruments[0] := Order(sel.meta[0], status)];
    if k == 0 {
      EnterAllUntouched(book', tail, status, j);
    } else {
      EnterAllSide(book', tail, status, k - 1);
    }
  }

  /** Entries for instruments that are not selected are left alone. */
  lemma {:induction false} EnterAllUntouched(book: Book, sel: Selection<Instrument, Side>, status: Status, j: Instrument)
    requires sel.Aligned() && j !in sel.instruments
    ensures j in EnterAll(book, sel, status) <==> j in book
    ensures j in book ==> EnterAll(book, sel, status)[j] == book[j]
    decreases |sel.instruments|
  {
    if |sel.instruments| > 0 {
      EnterAllUntouched(book[sel.instruments[0] := Order(sel.meta[0], status)],
                        Selection(sel.instruments[1..], sel.meta[1..]), status, j);
    }
  }

  /** The host's exit phase: every selected instrument's entry is cleared. */
  function ExitAll(book: Book, sel: seq<Instrument>): (r: Book)
    ensures forall j :: j in r <==> j in book && j !in sel
    ensures forall j :: j in r ==> r[j] == book[j]
  {
    map j | j in book && j !in sel :: book[j]
  }

  predicate Distinct(s: seq<Instrument>)
  {
    forall a, b :: 0 <= a < b < |s| ==> s[a] != s[b]
  }

  /** One candle as the host runs it: exit selection and exits first,
      then entry selection and entries. */
  function Tick(book: Book, bucket: seq<Instrument>, gate: Gate, decide: Instrument -> Option<Side>,
                       needComplete: bool, fires: (Instrument, Side) -> bool, status: Status): Book
  {
    var exits := SelectExit(book, bucket, needComplete, fires, false);
    var afterExit := ExitAll(book, exits.instruments);
    EnterAll(afterExit, SelectEntry(afterExit, bucket, gate, decide), status)
  }

  lemma SelectionKeepsDistinct(book: Book, bucket: seq<Instrument>, gate: Gate, decide: Instrument -> Option<Side>)
    requires Distinct(bucket)
    ensures Distinct(SelectEntry(book, bucket, gate, decide).instruments)
    decreases |bucket|
  {
    if |bucket| > 0 {
      DistinctTail(bucket);
      SelectionKeepsDistinct(book, bucket[1..], gate, decide);
      var rest := SelectEntry(book, bucket[1..], gate, decide);
      assert bucket[0] !in rest.instruments;
      DistinctCons(bucket[0], rest.instruments);
    }
  }

  /** The tail of a list without repeats has none and lacks the head. */
  lemma DistinctTail(s: seq<Instrument>)
    requires |s| > 0 && Distinct(s)
    ensures Distinct(s[1..]) && s[0] !in s[1..]
  {
    forall a, b | 0 <= a < b < |s[1..]| ensures s[1..][a] != s[1..][b] {
      assert s[1..][a] == s[a + 1] && s[1..][b] == s[b + 1];
    }
    forall b | 0 <= b < |s[1..]| ensures s[1..][b] != s[0] {
      assert s[1..][b] == s[b + 1];
    }
  }

  /** Prepending an absent element keeps a list without repeats. */
  lemma DistinctCons(i: Instrument, s: seq<Instrument>)
    requires Distinct(s) && i !in s
    ensures Distinct([i] + s)
  {
    forall a, b | 0 <= a < b < |[i] + s| ensures ([i] + s)[a] != ([i] + s)[b] {
      assert ([i] + s)[b] == s[b - 1];
    }
  }

  /** Stop-and-reverse: when every held order whose signal fires is exited
      before entries are taken (the exit rule fires on every signal that
      would open a position and does not wait for COMPLETE), a candle
      leaves each instrument of the bucket either untouched (no signal) or
      holding exactly one fresh order on the signalled side, and never
      overwrites a still-held order. */
  lemma TickReverses(book: Book, bucket: seq<Instrument>, gate: Gate, decide: Instrument -> Option<Side>,
                        fires: (Instrument, Side) -> bool, status: Status, i: Instrument)
    requires Distinct(bucket) && i in bucket && gate != WhenHeld
    requires forall j, s :: j in bucket && decide(j).Some? ==> fires(j, s)
    ensures var after := Tick(book, bucket, gate, decide, false, fires, status);
            (decide(i).Some? ==> i in after && after[i] == Order(decide(i).value, status))
    ensures var afterExit := ExitAll(book, SelectExit(book, bucket, false, fires, false).instruments);
            forall j :: j in SelectEntry(afterExit, bucket, gate, decide).instruments ==> j !in afterExit
  {
    var exits := SelectExit(book, bucket, false, fires, false);
    var afterExit := ExitAll(book, exits.instruments);
    var sel := SelectEntry(afterExit, bucket, gate, decide);
    SelectionKeepsDistinct(afterExit, bucket, gate, decide);
    forall j | j in sel.instruments ensures j !in afterExit {
      assert j in bucket && decide(j).Some?;
      if j in book {
        assert fires(j, book[j].side);
        assert j in exits.instruments;
      }
    }
    if decide(i).Some? {
      assert i !in afterExit by {
        if i in book {
          assert fires(i, book[i].side);
        }
      }
      assert i in sel.instruments;
      var k :| 0 <= k < |sel.instruments| && sel.instruments[k] == i;
      EnterAllSide(afterExit, sel, status, k);
    }
  }

  /** Under the `is None` gate, a held order on which the exit rule does
      not fire survives the candle unchanged: no exit, no re-entry. */
  lemma TickKeepsUnfired(book: Book, bucket: seq<Instrument>, decide: Instrument -> Option<Side>,
                         needComplete: bool, fires: (Instrument, Side) -> bool, status: Status, i: Instrument)
    requires i in book && !Exitable(book, i, needComplete, fires)
    ensures i in Tick(book, bucket, WhenFlat, decide, needComplete, fires, status)
    ensures Tick(book, bucket, WhenFlat, decide, needComplete, fires, status)[i] == book[i]
  {
    var exits := SelectExit(book, bucket, needComplete, fires, false);
    var afterExit := ExitAll(book, exits.instruments);
    assert i !in exits.instruments;
    assert i in afterExit;
    var sel := SelectEntry(afterExit, bucket, WhenFlat, decide);
    assert i !in sel.instruments;
    EnterAllUntouched(afterExit, sel, status, i);
  }

  /** When no instrument of the bucket both passes the gate and has a
      side, nothing is selected. */
  lemma {:induction false} SelectEntrySilent(book: Book, bucket: seq<Instrument>, gate: Gate,
                                             decide: Instrument -> Option<Side>)
    requires forall i :: i in bucket ==> !GateOpen(gate, book, i) || decide(i) == None
    ensures SelectEntry(book, bucket, gate, decide) == Empty()
    decreases |bucket|
  {
    if |bucket| > 0 {
      assert bucket[0] in bucket;
      SelectEntrySilent(book, bucket[1..], gate, decide);
    }
  }

  /** An exit rule that never fires selects nothing. */
  lemma {:induction false} SelectExitSilent(book: Book, bucket: seq<Instrument>, needComplete: bool,
                                            fires: (Instrument, Side) -> bool, sideTagged: bool)
    requires forall i, s :: i in bucket ==> !fires(i, s)
    ensures SelectExit(book, bucket, needComplete, fires, sideTagged) == Empty()
    decreases |bucket|
  {
    if |bucket| > 0 {
      assert bucket[0] in bucket;
      SelectExitSilent(book, bucket[1..], needComplete, fires, sideTagged);
    }
  }

  /** One candle under the `is None` gate, for one instrument of the
      bucket: if it was flat or its exit fired, it ends holding a fresh
      order on the decided side, or nothing when there is no decision;
      otherwise its order is kept as it was. */
  lemma TickFlat(book: Book, bucket: seq<Instrument>, decide: Instrument -> Option<Side>,
                 needComplete: bool, fires: (Instrument, Side) -> bool, status: Status, i: Instrument)
    requires Distinct(bucket) && i in bucket
    ensures var after := Tick(book, bucket, WhenFlat, decide, needComplete, fires, status);
            var flat := i !in book || Exitable(book, i, needComplete, fires);
            (flat && decide(i).Some? ==> i in after && after[i] == Order(decide(i).value, status))
            && (flat && decide(i) == None ==> i !in after)
            && (!flat ==> i in after && after[i] == book[i])
  {
    var exits := SelectExit(book, bucket, needComplete, fires, false);
    var afterExit := ExitAll(book, exits.instruments);
    var sel := SelectEntry(afterExit, bucket, WhenFlat, decide);
    if i in sel.instruments {
      SelectionKeepsDistinct(afterExit, bucket, WhenFlat, decide);
      var k :| 0 <= k < |sel.instruments| && sel.instruments[k] == i;
      EnterAllSide(afterExit, sel, status, k);
    } else {
      EnterAllUntouched(afterExit, sel, status, i);
    }
  }
}
