/** Vocabulary shared by every strategy model: order sides, crossover codes,
    strategy modes, broker order statuses, option-chain terms, the host's
    parallel (instruments, meta) lists, and Python's list slicing. */
module Common {

  datatype Option<T> = None | Some(value: T)

  /** The exceptions a strategy callback raises, as an error value. */
  datatype Fault =
    | SystemExit          // `raise SystemExit(...)` / ABSystemExit
    | NotImplemented      // `raise NotImplementedError`
    | MissingKey          // KeyError, or AttributeError: an attribute read on None or never defined
    | DivisionByZero      // Python `ZeroDivisionError`
    | EmptySequence       // `max()` / `min()` of an empty list
    | OutOfRange          // a list or series index past either end
    | TypeMismatch        // a comparison or arithmetic with `None` (TypeError)
    | InvalidArgument     // a parameter rejected by `check_argument` or a constructor `assert`,
                          // or a broker call whose arguments sit in the wrong slots

  datatype Result<T> = Ok(value: T) | Err(fault: Fault)

  /** Transaction side of an order (BUY / SELL). */
  datatype Side = Buy | Sell

  function Opposite(s: Side): (r: Side)
    ensures r != s
  {
    if s == Buy then Sell else Buy
  }

  /** The value `self.utils.crossover` returns: 1 (first series crosses
      above the second), -1 (crosses below) or 0. */
  type Crossover = c: int | -1 <= c <= 1

  /** The crossover code that the side's action map uses (1: BUY, -1: SELL). */
  function SideCode(s: Side): (c: Crossover)
    ensures c != 0
    ensures s == Buy <==> c == 1
  {
    if s == Buy then 1 else -1
  }

  /** `StrategyMode.INTRADAY` or the delivery mode. */
  datatype Mode = Intraday | Delivery

  /** Broker order status as the strategies read it. */
  datatype Status = Pending | Open | Complete | Rejected | Cancelled

  /** Option trading-symbol suffix. */
  datatype Suffix = CE | PE

  /** `OptionsStrikeDirection`. */
  datatype StrikeDir = ITM | ATM | OTM

  /** The action recorded in a meta entry.
      `Place(Buy)` is 'BUY' / ENTRY_BUY, `Close` is 'EXIT',
      `CloseSide(Sell)` is EXIT_SELL (close a SELL position), `Idle` is NO_ACTION. */
  datatype Action = Place(side: Side) | Close | CloseSide(side: Side) | Idle

  /** The two parallel lists every selector returns. */
  datatype Selection<I, M> = Selection(instruments: seq<I>, meta: seq<M>)
  {
    predicate Aligned() { |instruments| == |meta| }
  }

  function Empty<I, M>(): (r: Selection<I, M>)
    ensures r.Aligned() && |r.instruments| == 0
  {
    Selection([], [])
  }

  /** Prepends one (instrument, meta) pair. */
  function Cons<I, M>(i: I, m: M, s: Selection<I, M>): (r: Selection<I, M>)
    requires s.Aligned()
    ensures r.Aligned()
    ensures |r.instruments| == |s.instruments| + 1
    ensures r.instruments[0] == i && r.meta[0] == m
    ensures r.instruments[1..] == s.instruments && r.meta[1..] == s.meta
  {
    Selection([i] + s.instruments, [m] + s.meta)
  }

  /** Python `s[-n:]` for n >= 0. Note `s[-0:]` is the whole list. */
  function TakeLast<T>(s: seq<T>, n: nat): (r: seq<T>)
    ensures |r| == (if n == 0 || n >= |s| then |s| else n)
    ensures n == 0 || n >= |s| ==> r == s
    ensures 0 < n < |s| ==> r == s[|s| - n..]
  {
    if n == 0 || n >= |s| then s else s[|s| - n..]
  }

  /** Python `s[:n]` for n >= 0. */
  function TakeFirst<T>(s: seq<T>, n: nat): (r: seq<T>)
    ensures |r| == (if n >= |s| then |s| else n)
    ensures n >= |s| ==> r == s
    ensures n < |s| ==> r == s[..n]
  {
    if n >= |s| then s else s[..n]
  }

  /** Python `max()` of a non-empty list. */
  function Max(s: seq<real>): (m: real)
    requires |s| > 0
    ensures m in s
    ensures forall k :: 0 <= k < |s| ==> s[k] <= m
  {
    if |s| == 1 then s[0]
    else
      var rest := Max(s[1..]);
      assert forall k :: 1 <= k < |s| ==> s[k] == s[1..][k - 1];
      if s[0] >= rest then s[0] else rest
  }

  /** Python `min()` of a non-empty list. */
  function Min(s: seq<real>): (m: real)
    requires |s| > 0
    ensures m in s
    ensures forall k :: 0 <= k < |s| ==> m <= s[k]
  {
    if |s| == 1 then s[0]
    else
      var rest := Min(s[1..]);
      assert forall k :: 1 <= k < |s| ==> s[k] == s[1..][k - 1];
      if s[0] <= rest then s[0] else rest
  }

  /** Python `sum()`. */
  function Sum(s: seq<real>): real
  {
    if |s| == 0 then 0.0 else s[0] + Sum(s[1..])
  }

  lemma {:induction false} SumAppend(a: seq<real>, b: seq<real>)
    ensures Sum(a + b) == Sum(a) + Sum(b)
  {
    if |a| == 0 {
      assert a + b == b;
    } else {
      assert (a + b)[1..] == a[1..] + b;
      SumAppend(a[1..], b);
    }
  }

  /** One OHLC candle of the historical data. */
  datatype Candle = Candle(open: real, high: real, low: real, close: real)

  /** A real candle: open and close lie between low and high. */
  predicate WellFormed(c: Candle)
  {
    c.low <= c.open <= c.high && c.low <= c.close <= c.high
  }

  /** Python truthiness of an optional number: `None` and `0` are both false. */
  predicate Truthy(x: Option<real>)
  {
    x.Some? && x.value != 0.0
  }

  /** Python `str.endswith`. */
  predicate EndsWith(s: string, suffix: string)
  {
    |s| >= |suffix| && s[|s| - |suffix|..] == suffix
  }

  /** The option suffix a trading symbol ends with, the "[LOCAL]" form of
      a symbol included; `None` for any other symbol. */
  function SymbolSuffix(symbol: string): (r: Option<Suffix>)
    ensures r == Some(CE) <==> EndsWith(symbol, "CE") || EndsWith(symbol, "CE [LOCAL]")
    ensures r == Some(PE) <==> !(EndsWith(symbol, "CE") || EndsWith(symbol, "CE [LOCAL]"))
                               && (EndsWith(symbol, "PE") || EndsWith(symbol, "PE [LOCAL]"))
  {
    if EndsWith(symbol, "CE") || EndsWith(symbol, "CE [LOCAL]") then Some(CE)
    else if EndsWith(symbol, "PE") || EndsWith(symbol, "PE [LOCAL]") then Some(PE)
    else None
  }

  /** The two letters a trading symbol of the suffix ends with. */
  function SuffixText(s: Suffix): string
  {
    if s == CE then "CE" else "PE"
  }

  /** A symbol ending in `b` ends in whatever `b` ends in. */
  lemma {:induction false} EndsWithAppend(a: string, b: string, t: string)
    requires |t| <= |b|
    ensures EndsWith(a + b, t) <==> EndsWith(b, t)
  {
    assert (a + b)[|a + b| - |t|..] == b[|b| - |t|..];
  }

  /** Two strings with a common ending share their last character. */
  lemma {:induction false} EndsWithLast(s: string, t: string)
    requires EndsWith(s, t) && |t| > 0
    ensures s[|s| - 1] == t[|t| - 1]
  {
    assert s[|s| - 1] == s[|s| - |t|..][|t| - 1];
  }

  /** Classification inverts symbol construction: a contract symbol built
      from any root, a suffix and optionally the "[LOCAL]" tag is
      classified as that suffix. */
  lemma {:induction false} SymbolSuffixRoundTrip(root: string, s: Suffix, local: bool)
    ensures SymbolSuffix(root + SuffixText(s) + (if local then " [LOCAL]" else "")) == Some(s)
  {
    if local {
      LocalRoundTrip(root, s);
    } else {
      assert root + SuffixText(s) + "" == root + SuffixText(s);
      PlainRoundTrip(root, s);
    }
  }

  /** The plain half of SymbolSuffixRoundTrip. */
  lemma {:induction false} PlainRoundTrip(root: string, s: Suffix)
    ensures SymbolSuffix(root + SuffixText(s)) == Some(s)
  {
    var sym := root + SuffixText(s);
    EndsWithAppend(root, SuffixText(s), SuffixText(s));
    assert EndsWith(SuffixText(s), SuffixText(s));
    if s == PE {
      EndsWithAppend(root, "PE", "CE");
      assert !EndsWith("PE", "CE") by { assert "PE"[0] != "CE"[0]; }
      assert sym[|sym| - 1] == 'E';
      if EndsWith(sym, "CE [LOCAL]") {
        EndsWithLast(sym, "CE [LOCAL]");
        assert false;
      }
    }
  }

  /** The "[LOCAL]" half of SymbolSuffixRoundTrip. */
  lemma {:induction false} LocalRoundTrip(root: string, s: Suffix)
    ensures SymbolSuffix(root + SuffixText(s) + " [LOCAL]") == Some(s)
  {
    var tail := SuffixText(s) + " [LOCAL]";
    var sym := root + SuffixText(s) + " [LOCAL]";
    assert sym == root + tail;
    EndsWithAppend(root, tail, tail);
    assert EndsWith(tail, tail);
    if s == PE {
      assert tail == "PE [LOCAL]";
      EndsWithAppend(root, tail, "CE [LOCAL]");
      assert !EndsWith(tail, "CE [LOCAL]") by { assert tail[0] != "CE [LOCAL]"[0]; }
      assert sym[|sym| - 1] == ']';
      if EndsWith(sym, "CE") {
        EndsWithLast(sym, "CE");
        assert false;
      }
    }
  }
}
