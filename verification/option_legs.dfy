/** The bookkeeping every multi-leg options strategy shares: the broker
    order of one leg, the order-status helpers of pyalgotrading's
    strategy utils, the per-base dictionary of leg orders (kept in
    insertion order, as Python's dict is), the leg list a strategy emits
    for a base instrument, and `exit_all_positions_for_base_instrument`. */
module OptionLegs {
  import opened Common
  import opened Ledger

  /** A broker order as the strategies inspect it: the child (option)
      instrument it trades, whether the broker assigned it an id, its
      status and its fill price. */
  datatype BrokerOrder = BrokerOrder(child: Instrument, hasId: bool, status: Status, entryPrice: real)

  /** check_order_placed_successfully: an order object exists, has a broker
      id and was not rejected. */
  predicate PlacedSuccessfully(o: Option<BrokerOrder>)
  {
    o.Some? && o.value.hasId && o.value.status != Rejected
  }

  /** check_order_complete_status: an order object exists, has a broker id
      and is COMPLETE; such an order was in particular placed successfully. */
  function CompleteStatus(o: Option<BrokerOrder>): (b: bool)
    ensures b <==> o.Some? && o.value.hasId && o.value.status == Complete
    ensures b ==> PlacedSuccessfully(o)
  {
    o.Some? && o.value.hasId && o.value.status == Complete
  }

  /** One entry of a base instrument's leg dictionary: its key (the leg's
      side, or its option suffix) and the order stored under it, which a
      strategy may have stored as `None`. */
  datatype Slot<K> = Slot(key: K, order: Option<BrokerOrder>)

  /** `legs.get(k)`: the order stored under `k`, if the key is present. */
  function Lookup<K(==,!new)>(legs: seq<Slot<K>>, k: K): (r: Option<Option<BrokerOrder>>)
    ensures r.Some? <==> exists j :: 0 <= j < |legs| && legs[j].key == k
    ensures r.Some? ==> exists j :: 0 <= j < |legs| && legs[j] == Slot(k, r.value)
  {
    if |legs| == 0 then None
    else if legs[0].key == k then Some(legs[0].order)
    else
      var r := Lookup(legs[1..], k);
      assert forall j :: 0 <= j < |legs| - 1 ==> legs[1..][j] == legs[j + 1];
      r
  }

  /** `legs[k] = o`: overwrite the key in place, or append it at the end. */
  function Put<K(==,!new)>(legs: seq<Slot<K>>, k: K, o: Option<BrokerOrder>): (r: seq<Slot<K>>)
    ensures Lookup(r, k) == Some(o)
    ensures forall j :: j != k ==> Lookup(r, j) == Lookup(legs, j)
    ensures |r| == if Lookup(legs, k).Some? then |legs| else |legs| + 1
  {
    if |legs| == 0 then [Slot(k, o)]
    else if legs[0].key == k then [Slot(k, o)] + legs[1..]
    else [legs[0]] + Put(legs[1..], k, o)
  }

  /** A new key is appended at the end. */
  lemma {:induction false} PutNewKey<K(!new)>(legs: seq<Slot<K>>, k: K, o: Option<BrokerOrder>)
    requires forall j :: 0 <= j < |legs| ==> legs[j].key != k
    ensures Put(legs, k, o) == legs + [Slot(k, o)]
    decreases |legs|
  {
    if |legs| > 0 {
      PutNewKey(legs[1..], k, o);
      assert [legs[0]] + (legs[1..] + [Slot(k, o)]) == legs + [Slot(k, o)];
    }
  }

  /** The truthy orders of a leg dictionary, in insertion order: what
      `filter(None, legs.values())` yields. */
  function Placed<K>(legs: seq<Slot<K>>): (r: seq<BrokerOrder>)
    ensures |r| <= |legs|
    ensures forall o :: o in r <==> exists j :: 0 <= j < |legs| && legs[j].order == Some(o)
  {
    if |legs| == 0 then []
    else
      var rest := Placed(legs[1..]);
      assert forall j :: 0 <= j < |legs| - 1 ==> legs[1..][j] == legs[j + 1];
      if legs[0].order.Some? then [legs[0].order.value] + rest else rest
  }

  /** The child instruments of the truthy orders of a leg dictionary. */
  function Children<K>(legs: seq<Slot<K>>): (r: seq<Instrument>)
    ensures |r| == |Placed(legs)|
    ensures forall k :: 0 <= k < |r| ==> r[k] == Placed(legs)[k].child
  {
    seq(|Placed(legs)|, k requires 0 <= k < |Placed(legs)| => Placed(legs)[k].child)
  }

  /** `all(check_order_complete_status(o) for o in legs.values())`. */
  predicate AllComplete<K>(legs: seq<Slot<K>>)
  {
    forall j :: 0 <= j < |legs| ==> CompleteStatus(legs[j].order)
  }

  /** When every slot holds a complete order, every slot contributes its
      order: the dictionary and its truthy orders have the same length. */
  lemma {:induction false} AllCompletePlacesEvery<K>(legs: seq<Slot<K>>)
    requires AllComplete(legs)
    ensures |Placed(legs)| == |legs|
    decreases |legs|
  {
    if |legs| > 0 {
      assert CompleteStatus(legs[0].order);
      assert forall j :: 0 <= j < |legs| - 1 ==> legs[1..][j] == legs[j + 1];
      AllCompletePlacesEvery(legs[1..]);
    }
  }

  /** The per-base ledger of leg orders (`child_instrument_main_orders`). */
  type Legbook<K> = map<Instrument, seq<Slot<K>>>

  /** `legbook.get(base)` is truthy: the base has a non-empty leg dictionary. */
  predicate Holds<K>(book: Legbook<K>, base: Instrument)
  {
    base in book && |book[base]| > 0
  }

  /** The leg dictionary of a base, empty when absent (`setdefault(base, {})`). */
  function LegsOf<K>(book: Legbook<K>, base: Instrument): (r: seq<Slot<K>>)
    ensures base !in book ==> r == []
    ensures base in book ==> r == book[base]
  {
    if base in book then book[base] else []
  }

  /** exit_all_positions_for_base_instrument: exit every truthy leg order of
      the base and drop the base from the ledger; nothing else changes. */
  function ExitBase<K>(book: Legbook<K>, base: Instrument): (r: (seq<Instrument>, Legbook<K>))
    ensures r.0 == Children(LegsOf(book, base))
    ensures base !in r.1
    ensures forall b :: b != base ==> (b in r.1 <==> b in book) && (b in book ==> r.1[b] == book[b])
  {
    (Children(LegsOf(book, base)), book - {base})
  }

  /** What a leg placement leaves behind: the ledger, the orders exited to
      unwind the base, and whether the strategy stops. */
  datatype Placement<K> = Placement(book: Legbook<K>, unwound: seq<Instrument>, halted: bool)

  /** strategy_enter_position of the raising strategies: a leg placed
      successfully is filed under its key; a failed leg unwinds the legs
      already placed for its base and stops the strategy (ABSystemExit). */
  function EnterOrUnwind<K(==,!new)>(book: Legbook<K>, base: Instrument, k: K, o: Option<BrokerOrder>): (r: Placement<K>)
    ensures r.halted <==> !PlacedSuccessfully(o)
    ensures !r.halted ==> base in r.book && Lookup(r.book[base], k) == Some(o)
                          && r.unwound == []
    ensures r.halted ==> base !in r.book && r.unwound == Children(LegsOf(book, base))
    ensures forall b :: b != base ==> (b in r.book <==> b in book) && (b in book ==> r.book[b] == book[b])
  {
    if PlacedSuccessfully(o) then Placement(book[base := Put(LegsOf(book, base), k, o)], [], false)
    else
      var (gone, rest) := ExitBase(book, base);
      Placement(rest, gone, true)
  }

  /** After a successful placement, exiting the base drops it again and
      exits exactly the legs it held, the new one included. */
  lemma EnterThenExitBase<K(!new)>(book: Legbook<K>, base: Instrument, k: K, o: Option<BrokerOrder>)
    requires PlacedSuccessfully(o)
    ensures var p := EnterOrUnwind(book, base, k, o);
            var (gone, rest) := ExitBase(p.book, base);
            rest == book - {base} && o.value.child in gone
  {
    var p := EnterOrUnwind(book, base, k, o);
    var e := ExitBase(p.book, base);
    assert o.value.child in e.0 by {
      var legs := p.book[base];
      var l := Lookup(legs, k);
      var j :| 0 <= j < |legs| && legs[j] == Slot(k, l.value);
      assert legs[j].order == Some(o.value);
      assert o.value in Placed(legs);
      var n :| 0 <= n < |Placed(legs)| && Placed(legs)[n] == o.value;
      assert Children(legs)[n] == o.value.child;
      assert e.0 == Children(legs);
    }
    assert e.1 == book - {base} by {
      assert e.1.Keys == (book - {base}).Keys;
    }
  }

  /** A leg of a strategy's leg list: transaction side, option suffix,
      strike direction, number of strikes away from ATM, expiry index. */
  datatype LegSpec = LegSpec(side: Side, suffix: Suffix, dir: StrikeDir, strikes: nat, expiry: nat)

  /** The legs emitted for the selected base instruments: every base gets
      the whole leg list, in order, one base after the other. */
  function Emit(bases: seq<Instrument>, legs: seq<LegSpec>): (r: seq<(Instrument, LegSpec)>)
    ensures |r| == |bases| * |legs|
  {
    if |bases| == 0 then []
    else seq(|legs|, j requires 0 <= j < |legs| => (bases[0], legs[j])) + Emit(bases[1..], legs)
  }

  /** The k-th leg of the j-th selected base sits at position j·|legs| + k. */
  lemma {:induction false} EmitShape(bases: seq<Instrument>, legs: seq<LegSpec>, i: nat, k: nat)
    requires i < |bases| && k < |legs|
    ensures i * |legs| + k < |Emit(bases, legs)|
    ensures Emit(bases, legs)[i * |legs| + k] == (bases[i], legs[k])
  {
    var r := Emit(bases, legs);
    var head := seq(|legs|, j requires 0 <= j < |legs| => (bases[0], legs[j]));
    assert r == head + Emit(bases[1..], legs);
    if i == 0 {
      assert r[k] == head[k];
    } else {
      EmitShape(bases[1..], legs, i - 1, k);
      assert i * |legs| + k == |legs| + ((i - 1) * |legs| + k);
      assert r[i * |legs| + k] == Emit(bases[1..], legs)[(i - 1) * |legs| + k];
    }
  }

  /** The children of the selected (child, base) pairs. */
  function ChildrenOf(pairs: seq<(Instrument, Instrument)>): set<Instrument>
  {
    set k | 0 <= k < |pairs| :: pairs[k].0
  }

  /** instruments_mapper.add_mappings for every selected (child, base), in
      order: a child selected twice keeps its last base. */
  function AddMappings(mapper: map<Instrument, Instrument>, pairs: seq<(Instrument, Instrument)>)
    : (r: map<Instrument, Instrument>)
    ensures r.Keys == mapper.Keys + ChildrenOf(pairs)
    ensures forall k :: 0 <= k < |pairs| && (forall j :: k < j < |pairs| ==> pairs[j].0 != pairs[k].0)
                        ==> r[pairs[k].0] == pairs[k].1
    ensures forall c :: c in mapper && c !in ChildrenOf(pairs) ==> r[c] == mapper[c]
    decreases |pairs|
  {
    if |pairs| == 0 then mapper
    else
      var n := |pairs| - 1;
      var front := pairs[..n];
      var r := AddMappings(mapper, front);
      MappingStep(mapper, pairs, r);
      r[pairs[n].0 := pairs[n].1]
  }

  /** Mapping the last pair after the others: what `AddMappings` states
      of the front carries over to the whole. */
  lemma MappingStep(mapper: map<Instrument, Instrument>, pairs: seq<(Instrument, Instrument)>,
                    r: map<Instrument, Instrument>)
    requires |pairs| > 0
    requires var front := pairs[..|pairs| - 1];
             && r.Keys == mapper.Keys + ChildrenOf(front)
             && (forall k :: 0 <= k < |front| && (forall j :: k < j < |front| ==> front[j].0 != front[k].0)
                   ==> r[front[k].0] == front[k].1)
             && (forall c :: c in mapper && c !in ChildrenOf(front) ==> r[c] == mapper[c])
    ensures var r' := r[pairs[|pairs| - 1].0 := pairs[|pairs| - 1].1];
            && r'.Keys == mapper.Keys + ChildrenOf(pairs)
            && (forall k :: 0 <= k < |pairs| && (forall j :: k < j < |pairs| ==> pairs[j].0 != pairs[k].0)
                  ==> r'[pairs[k].0] == pairs[k].1)
            && (forall c :: c in mapper && c !in ChildrenOf(pairs) ==> r'[c] == mapper[c])
  {
    var n := |pairs| - 1;
    var front := pairs[..n];
    var r' := r[pairs[n].0 := pairs[n].1];
    assert forall k :: 0 <= k < n ==> front[k] == pairs[k];
    assert ChildrenOf(pairs) == ChildrenOf(front) + {pairs[n].0};
    forall k | 0 <= k < |pairs| && (forall j :: k < j < |pairs| ==> pairs[j].0 != pairs[k].0)
      ensures r'[pairs[k].0] == pairs[k].1
    {
      if k < n {
        assert pairs[n].0 != pairs[k].0;
        assert forall j :: k < j < |front| ==> front[j].0 != front[k].0;
        assert r[front[k].0] == front[k].1;
      }
    }
  }

  /** Some of a base's legs with as many meta entries for it, followed by
      a paired remainder, stay paired. */
  lemma PairedAppend<K>(orders: Legbook<K>, b: Instrument, kids: seq<Instrument>, m: seq<Instrument>,
                 r0: seq<Instrument>, r1: seq<Instrument>)
    requires b in orders && forall k :: 0 <= k < |kids| ==> kids[k] in Children(orders[b])
    requires |m| == |kids| && forall k :: 0 <= k < |m| ==> m[k] == b
    requires |r0| == |r1| && forall k :: 0 <= k < |r0| ==> r1[k] in orders && r0[k] in Children(orders[r1[k]])
    ensures |kids + r0| == |m + r1|
    ensures forall k :: 0 <= k < |kids + r0| ==> (m + r1)[k] in orders && (kids + r0)[k] in Children(orders[(m + r1)[k]])
  {
    forall k | 0 <= k < |kids + r0|
      ensures (m + r1)[k] in orders && (kids + r0)[k] in Children(orders[(m + r1)[k]])
    {
      if k < |kids| {
        assert (m + r1)[k] == b && (kids + r0)[k] == kids[k];
      } else {
        assert (m + r1)[k] == r1[k - |kids|] && (kids + r0)[k] == r0[k - |kids|];
      }
    }
  }

  /** `[x] * n`. */
  function Copies(x: Instrument, n: nat): (r: seq<Instrument>)
    ensures |r| == n && forall k :: 0 <= k < n ==> r[k] == x
  {
    seq(n, _ => x)
  }

  /** The meta bases of the first base, put before those of the rest, are
      the bases that fired and hold legs. */
  lemma FiredMetasStep<K>(book: Legbook<K>, bases: seq<Instrument>, fired: seq<bool>, m: seq<Instrument>,
                          rest: seq<Instrument>)
    requires |fired| == |bases| > 0 && forall b :: b in bases ==> b in book
    requires forall x :: x in m <==> fired[0] && |book[bases[0]]| > 0 && x == bases[0]
    requires forall x :: x in rest <==>
               exists k :: 0 <= k < |bases[1..]| && bases[1..][k] == x && fired[1..][k] && |book[x]| > 0
    ensures forall x :: x in m + rest <==>
              exists k :: 0 <= k < |bases| && bases[k] == x && fired[k] && |book[x]| > 0
  {
    forall x
      ensures x in m + rest <==> exists k :: 0 <= k < |bases| && bases[k] == x && fired[k] && |book[x]| > 0
    {
      if x in m {
        assert bases[0] == x && fired[0] && |book[x]| > 0;
      } else if x in rest {
        var k :| 0 <= k < |bases[1..]| && bases[1..][k] == x && fired[1..][k] && |book[x]| > 0;
        assert bases[k + 1] == x && fired[k + 1];
      }
      if exists k :: 0 <= k < |bases| && bases[k] == x && fired[k] && |book[x]| > 0 {
        var k :| 0 <= k < |bases| && bases[k] == x && fired[k] && |book[x]| > 0;
        if k > 0 {
          assert bases[1..][k - 1] == x && fired[1..][k - 1];
        }
      }
    }
  }

  /** The children of the first base, put before those of the rest, are
      the leg instruments of the bases that fired. */
  lemma FiredChildrenStep<K>(book: Legbook<K>, bases: seq<Instrument>, fired: seq<bool>, kids: seq<Instrument>,
                             rest: seq<Instrument>)
    requires |fired| == |bases| > 0 && forall b :: b in bases ==> b in book
    requires forall c :: c in kids <==> fired[0] && c in Children(book[bases[0]])
    requires forall c :: c in rest <==>
               exists k :: 0 <= k < |bases[1..]| && fired[1..][k] && c in Children(book[bases[1..][k]])
    ensures forall c :: c in kids + rest <==>
              exists k :: 0 <= k < |bases| && fired[k] && c in Children(book[bases[k]])
  {
    forall c
      ensures c in kids + rest <==> exists k :: 0 <= k < |bases| && fired[k] && c in Children(book[bases[k]])
    {
      if c in kids {
        assert fired[0] && c in Children(book[bases[0]]);
      } else if c in rest {
        var k :| 0 <= k < |bases[1..]| && fired[1..][k] && c in Children(book[bases[1..][k]]);
        assert bases[k + 1] == bases[1..][k] && fired[k + 1];
      }
      if exists k :: 0 <= k < |bases| && fired[k] && c in Children(book[bases[k]]) {
        var k :| 0 <= k < |bases| && fired[k] && c in Children(book[bases[k]]);
        if k > 0 {
          assert bases[1..][k - 1] == bases[k] && fired[1..][k - 1];
        }
      }
    }
  }

  /** The selection an exit scan builds from the checks that fired, for
      bases whose legs are all complete: every fired base's leg instruments,
      in check order, with one EXIT meta entry per entry of its leg
      dictionary, which for complete legs is one per instrument. */
  function EmitFired<K>(book: Legbook<K>, bases: seq<Instrument>, fired: seq<bool>): (r: (seq<Instrument>, seq<Instrument>))
    requires |fired| == |bases| && forall b :: b in bases ==> b in book && AllComplete(book[b])
    ensures |r.0| == |r.1|
    ensures forall k :: 0 <= k < |r.0| ==> r.1[k] in book && r.0[k] in Children(book[r.1[k]])
    ensures forall b :: b in r.1 <==> exists k :: 0 <= k < |bases| && bases[k] == b && fired[k] && |book[b]| > 0
    ensures forall c :: c in r.0 <==> exists k :: 0 <= k < |bases| && fired[k] && c in Children(book[bases[k]])
    decreases |bases|
  {
    if |bases| == 0 then ([], [])
    else
      var b := bases[0];
      assert b in bases;
      assert forall x :: x in bases[1..] ==> x in bases;
      var rest := EmitFired(book, bases[1..], fired[1..]);
      AllCompletePlacesEvery(book[b]);
      var kids := if fired[0] then Children(book[b]) else [];
      var m := Copies(b, |kids|);
      assert forall x :: x in m <==> fired[0] && |book[b]| > 0 && x == b by {
        if |kids| > 0 {
          assert m[0] == b;
        }
      }
      FiredMetasStep(book, bases, fired, m, rest.1);
      FiredChildrenStep(book, bases, fired, kids, rest.0);
      PairedAppend(book, b, kids, m, rest.0, rest.1);
      (kids + rest.0, m + rest.1)
  }

  // ---------------------------------------------------------------------
  // Exit checks run one after another in an exit scan
  // ---------------------------------------------------------------------

  /** The exit checks of one scan run one after another on the strategy's
      level fields: each check starts from the levels the previous one
      left, and the first error ends the scan. Gives whether each check
      fired and the levels after the last one. */
  function RunChecks<S>(check: (S, Instrument) -> Result<(bool, S)>, st: S, bases: seq<Instrument>)
    : (r: Result<(seq<bool>, S)>)
    ensures r.Ok? ==> |r.value.0| == |bases|
    decreases |bases|
  {
    if |bases| == 0 then Ok(([], st))
    else
      match check(st, bases[0])
      case Err(f) => Err(f)
      case Ok(first) =>
        match RunChecks(check, first.1, bases[1..])
        case Err(f) => Err(f)
        case Ok(rest) => Ok(([first.0] + rest.0, rest.1))
  }

  /** Running the checks of two lists of bases is running the first list,
      then the second from the levels the first left. */
  lemma {:induction false} RunChecksAppend<S>(check: (S, Instrument) -> Result<(bool, S)>, st: S,
                                              a: seq<Instrument>, b: seq<Instrument>)
    ensures var whole := RunChecks(check, st, a + b);
            var first := RunChecks(check, st, a);
            (first.Err? ==> whole == Err(first.fault))
            && (first.Ok? ==>
                  var second := RunChecks(check, first.value.1, b);
                  (second.Err? ==> whole == Err(second.fault))
                  && (second.Ok? ==> whole == Ok((first.value.0 + second.value.0, second.value.1))))
    decreases |a|
  {
    if |a| == 0 {
      assert a + b == b;
      var second := RunChecks(check, st, b);
      if second.Ok? {
        assert [] + second.value.0 == second.value.0;
      }
    } else {
      assert (a + b)[0] == a[0] && (a + b)[1..] == a[1..] + b;
      match check(st, a[0])
      case Err(f) =>
      case Ok(first) =>
        RunChecksAppend(check, first.1, a[1..], b);
        var tail := RunChecks(check, first.1, a[1..]);
        if tail.Ok? && RunChecks(check, tail.value.1, b).Ok? {
          var second := RunChecks(check, tail.value.1, b);
          assert RunChecks(check, first.1, a[1..] + b) == Ok((tail.value.0 + second.value.0, second.value.1));
          assert RunChecks(check, st, a) == Ok(([first.0] + tail.value.0, tail.value.1));
          assert [first.0] + (tail.value.0 + second.value.0) == ([first.0] + tail.value.0) + second.value.0;
        }
    }
  }

  /** A check that ignores the levels fires base by base on its own test
      and leaves the levels alone. */
  lemma {:induction false} StatelessChecks<S>(check: (S, Instrument) -> Result<(bool, S)>, fires: Instrument -> bool,
                                              st: S, bases: seq<Instrument>)
    requires forall s, b :: check(s, b) == Ok((fires(b), s))
    ensures var r := RunChecks(check, st, bases);
            r.Ok? && r.value.1 == st && forall k :: 0 <= k < |bases| ==> r.value.0[k] == fires(bases[k])
    decreases |bases|
  {
    if |bases| > 0 {
      StatelessChecks(check, fires, st, bases[1..]);
      var rest := RunChecks(check, st, bases[1..]).value;
      assert forall k :: 1 <= k < |bases| ==> bases[k] == bases[1..][k - 1];
      assert forall k :: 1 <= k < |bases| ==> ([fires(bases[0])] + rest.0)[k] == rest.0[k - 1];
    }
  }

  /** The levels a base owns under per-base bookkeeping. */
  function Own<L>(m: map<Instrument, L>, b: Instrument, init: L): L
  {
    if b in m then m[b] else init
  }

  /** The check with levels kept per base: it reads and writes only the
      entry of the base it checks, starting from `init`. */
  function PerBase<L>(check: (L, Instrument) -> Result<(bool, L)>, init: L)
    : (map<Instrument, L>, Instrument) -> Result<(bool, map<Instrument, L>)>
  {
    (m: map<Instrument, L>, b: Instrument) =>
      match check(Own(m, b, init), b)
      case Err(f) => Err(f)
      case Ok(res) => Ok((res.0, m[b := res.1]))
  }

  /** With levels kept per base, a scan over distinct bases fails exactly
      when one base's own check fails, and otherwise each base fires as
      its own check on its own levels does: no base sees another's. */
  lemma {:induction false} PerBaseIndependent<L>(check: (L, Instrument) -> Result<(bool, L)>, init: L,
                                                 m: map<Instrument, L>, bases: seq<Instrument>)
    requires Distinct(bases)
    ensures var r := RunChecks(PerBase(check, init), m, bases);
            (r.Ok? <==> forall k :: 0 <= k < |bases| ==> check(Own(m, bases[k], init), bases[k]).Ok?)
            && (r.Ok? ==> forall k :: 0 <= k < |bases| ==>
                  r.value.0[k] == check(Own(m, bases[k], init), bases[k]).value.0)
    decreases |bases|
  {
    if |bases| > 0 {
      var b0 := bases[0];
      var tail := bases[1..];
      assert forall k :: 1 <= k < |bases| ==> bases[k] == tail[k - 1] && bases[k] != b0;
      assert Distinct(tail) by {
        forall x, y | 0 <= x < y < |tail| ensures tail[x] != tail[y] {
          assert tail[x] == bases[x + 1] && tail[y] == bases[y + 1];
        }
      }
      match check(Own(m, b0, init), b0)
      case Err(f) =>
      case Ok(res) =>
        var m1 := m[b0 := res.1];
        PerBaseIndependent(check, init, m1, tail);
        assert forall k :: 1 <= k < |bases| ==> Own(m1, bases[k], init) == Own(m, bases[k], init);
        var rt := RunChecks(PerBase(check, init), m1, tail);
        if rt.Ok? {
          assert forall k :: 1 <= k < |bases| ==> ([res.0] + rt.value.0)[k] == rt.value.0[k - 1];
        } else {
          var j :| 0 <= j < |tail| && !check(Own(m1, tail[j], init), tail[j]).Ok?;
          assert bases[j + 1] == tail[j];
        }
    }
  }

  /** A property of the levels that every check keeps holds after a whole
      scan. */
  lemma {:induction false} RunChecksKeep<S>(check: (S, Instrument) -> Result<(bool, S)>, inv: S -> bool,
                                            st: S, bases: seq<Instrument>)
    requires inv(st)
    requires forall s, b :: inv(s) && check(s, b).Ok? ==> inv(check(s, b).value.1)
    ensures RunChecks(check, st, bases).Ok? ==> inv(RunChecks(check, st, bases).value.1)
    decreases |bases|
  {
    if |bases| > 0 && check(st, bases[0]).Ok? {
      RunChecksKeep(check, inv, check(st, bases[0]).value.1, bases[1..]);
    }
  }

  /** A check that never fails and never fires leaves a scan with nothing
      fired. */
  lemma {:induction false} NeverFires<S>(check: (S, Instrument) -> Result<(bool, S)>, st: S, bases: seq<Instrument>)
    requires forall s, b :: check(s, b).Ok? && !check(s, b).value.0
    ensures RunChecks(check, st, bases).Ok?
    ensures forall k :: 0 <= k < |bases| ==> !RunChecks(check, st, bases).value.0[k]
    decreases |bases|
  {
    if |bases| > 0 {
      var next := check(st, bases[0]).value.1;
      NeverFires(check, next, bases[1..]);
      var rest := RunChecks(check, next, bases[1..]).value.0;
      assert forall k :: 1 <= k < |bases| ==> ([false] + rest)[k] == rest[k - 1];
    }
  }
}
