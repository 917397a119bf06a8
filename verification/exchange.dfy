/** What the bot asks of the exchange: the side-effecting calls it issues,
    the orders it builds, and the outcomes the exchange may answer with. */
module Exchange {
  import opened Common
  import opened Signal

  /** An exception: a `ccxt.BaseError` with its message, or anything else. */
  datatype Error = CcxtError(message: string) | OtherError

  /** How a call to the exchange ended. */
  datatype Outcome = Done | Raised(error: Error)

  /** The `posSide` order parameter, 'Long' or 'Short'. */
  datatype PosSide = LongSide | ShortSide

  /** The arguments of one `create_order`; absent optional params are None. */
  datatype OrderRequest = OrderRequest(
    symbol: string,
    orderType: string,
    side: Side,
    amount: real,
    reduceOnly: bool,
    posSide: Option<PosSide>,
    marginMode: Option<string>)

  /** A side-effecting exchange call, in the order the bot issues them. */
  datatype Call =
    | SetMarginMode(mode: string, marginSymbol: string)
    | SetLeverage(leverage: int, leverageSymbol: string)
    | CreateOrder(order: OrderRequest)
  {
    function Symbol(): string {
      match this
      case SetMarginMode(_, s) => s
      case SetLeverage(_, s) => s
      case CreateOrder(o) => o.symbol
    }
  }

  const UsdtValue: real := 1.5
  const Leverage: int := 10
  const Isolated: string := "isolated"

  /** `usdt_value / ticker['last']`; None when the ticker has no last price or
      it is zero, where the division raises. */
  function BaseAmount(lastPrice: Option<real>): (r: Option<real>)
    ensures r.Some? <==> lastPrice.Some? && lastPrice.value != 0.0
    ensures r.Some? ==> r.value * lastPrice.value == UsdtValue
  {
    if lastPrice.Some? && lastPrice.value != 0.0 then Some(UsdtValue / lastPrice.value) else None
  }

  /** 'Long' for a buy, 'Short' for a sell. */
  function PositionSideFor(side: Side): PosSide {
    if side == Buy then LongSide else ShortSide
  }

  /** The orders among a sequence of calls, in order. */
  function Orders(calls: seq<Call>): (r: seq<OrderRequest>)
    ensures |r| <= |calls|
  {
    if calls == [] then []
    else (if calls[0].CreateOrder? then [calls[0].order] else []) + Orders(calls[1..])
  }

  lemma {:induction false} OrdersAppend(a: seq<Call>, b: seq<Call>)
    ensures Orders(a + b) == Orders(a) + Orders(b)
  {
    if a == [] {
      assert a + b == b;
    } else {
      var head := if a[0].CreateOrder? then [a[0].order] else [];
      assert (a + b)[0] == a[0];
      assert (a + b)[1..] == a[1..] + b;
      assert Orders(a + b) == head + Orders(a[1..] + b);
      OrdersAppend(a[1..], b);
      assert Orders(a) == head + Orders(a[1..]);
    }
  }

  /** The orders for `symbol`, in order. */
  function OrdersOn(orders: seq<OrderRequest>, symbol: string): (r: seq<OrderRequest>)
    ensures |r| <= |orders|
  {
    if orders == [] then []
    else (if orders[0].symbol == symbol then [orders[0]] else []) + OrdersOn(orders[1..], symbol)
  }

  /** No order for `symbol` is left out, and no other order is kept. */
  lemma {:induction false} OrdersOnExact(orders: seq<OrderRequest>, symbol: string)
    ensures forall o :: o in OrdersOn(orders, symbol) <==> o in orders && o.symbol == symbol
  {
    if orders != [] {
      OrdersOnExact(orders[1..], symbol);
      assert forall o :: o in orders <==> o == orders[0] || o in orders[1..];
    }
  }

  lemma {:induction false} OrdersOnAppend(a: seq<OrderRequest>, b: seq<OrderRequest>, symbol: string)
    ensures OrdersOn(a + b, symbol) == OrdersOn(a, symbol) + OrdersOn(b, symbol)
  {
    if a == [] {
      assert a + b == b;
    } else {
      var head := if a[0].symbol == symbol then [a[0]] else [];
      assert (a + b)[0] == a[0];
      assert (a + b)[1..] == a[1..] + b;
      assert OrdersOn(a + b, symbol) == head + OrdersOn(a[1..] + b, symbol);
      OrdersOnAppend(a[1..], b, symbol);
      assert OrdersOn(a, symbol) == head + OrdersOn(a[1..], symbol);
    }
  }

  /** The orders for `symbol` among two runs of calls add up. */
  lemma OrdersOnCalls(x: seq<Call>, y: seq<Call>, symbol: string)
    ensures |OrdersOn(Orders(x + y), symbol)| ==
      |OrdersOn(Orders(x), symbol)| + |OrdersOn(Orders(y), symbol)|
  {
    OrdersAppend(x, y);
    OrdersOnAppend(Orders(x), Orders(y), symbol);
  }

  /** The calls of a loop that issues `step(s)` for each symbol `s` in turn. */
  function Trace(symbols: seq<string>, step: string -> seq<Call>): seq<Call> {
    if symbols == [] then [] else step(symbols[0]) + Trace(symbols[1..], step)
  }

  /** The calls for a list of symbols are those for its front followed by
      those for its back: no iteration depends on an earlier one. */
  lemma {:induction false} TraceSplits(front: seq<string>, back: seq<string>,
                                       step: string -> seq<Call>)
    ensures Trace(front + back, step) == Trace(front, step) + Trace(back, step)
  {
    if front == [] {
      assert front + back == back;
    } else {
      assert (front + back)[0] == front[0];
      assert (front + back)[1..] == front[1..] + back;
      TraceSplits(front[1..], back, step);
    }
  }

  /** One more iteration appends that symbol's calls. */
  lemma TraceStep(symbols: seq<string>, i: nat, step: string -> seq<Call>)
    requires i < |symbols|
    ensures Trace(symbols[..i + 1], step) == Trace(symbols[..i], step) + step(symbols[i])
  {
    assert symbols[..i + 1] == symbols[..i] + [symbols[i]];
    TraceSplits(symbols[..i], [symbols[i]], step);
    assert Trace([symbols[i]], step) == step(symbols[i]) + Trace([], step) by {
      assert [symbols[i]][1..] == [];
    }
  }

  /** The calls for the symbol at index i sit between those for the symbols
      before it and those for the symbols after it. */
  lemma TraceAround(symbols: seq<string>, i: nat, step: string -> seq<Call>)
    requires i < |symbols|
    ensures Trace(symbols, step) ==
      Trace(symbols[..i], step) + step(symbols[i]) + Trace(symbols[i + 1..], step)
  {
    assert symbols == symbols[..i + 1] + symbols[i + 1..];
    TraceSplits(symbols[..i + 1], symbols[i + 1..], step);
    TraceStep(symbols, i, step);
  }

  /** When each step makes at most k orders for its own symbol and none for
      another, a symbol gets at most k orders per occurrence among the
      symbols. */
  lemma {:induction false} TraceOrdersOn(symbols: seq<string>, step: string -> seq<Call>,
                                         symbol: string, k: nat)
    requires forall s :: |OrdersOn(Orders(step(s)), symbol)| <= if s == symbol then k else 0
    ensures |OrdersOn(Orders(Trace(symbols, step)), symbol)| <= k * multiset(symbols)[symbol]
  {
    if symbols != [] {
      var head, rest := symbols[0], symbols[1..];
      TraceOrdersOn(rest, step, symbol, k);
      assert Trace(symbols, step) == step(head) + Trace(rest, step);
      OrdersOnCalls(step(head), Trace(rest, step), symbol);
      MultisetHead(symbols, symbol);
      var before := multiset(rest)[symbol];
      var here := if head == symbol then 1 else 0;
      var x, y := |OrdersOn(Orders(step(head)), symbol)|, |OrdersOn(Orders(Trace(rest, step)), symbol)|;
      assert x <= k * here;
      assert y <= k * before;
      MulAdd(k, here, before);
    }
  }

  lemma MultisetHead(symbols: seq<string>, symbol: string)
    requires symbols != []
    ensures multiset(symbols)[symbol] == (if symbols[0] == symbol then 1 else 0) + multiset(symbols[1..])[symbol]
  {
    assert symbols == [symbols[0]] + symbols[1..];
  }

  lemma MulAdd(k: nat, a: nat, b: nat)
    ensures k * (a + b) == k * a + k * b
  {
  }

  /** When every step only names its own symbol, every call of the loop names
      one of the symbols. */
  lemma {:induction false} TraceTargets(symbols: seq<string>, step: string -> seq<Call>)
    requires forall s, c :: c in step(s) ==> c.Symbol() == s
    ensures forall c :: c in Trace(symbols, step) ==> c.Symbol() in symbols
  {
    if symbols != [] {
      TraceTargets(symbols[1..], step);
      assert forall s :: s in symbols[1..] ==> s in symbols;
    }
  }

  /** Python's `needle in hay` on strings. */
  function Contains(hay: string, needle: string): bool
    decreases |hay|
  {
    if |needle| > |hay| then false
    else hay[..|needle|] == needle || Contains(hay[1..], needle)
  }

  /** `needle` occurs in `hay` starting at index `i`. */
  ghost predicate OccursAt(hay: string, needle: string, i: int) {
    0 <= i <= |hay| - |needle| && hay[i..i + |needle|] == needle
  }

  lemma {:induction false} ContainsIff(hay: string, needle: string)
    ensures Contains(hay, needle) <==> exists i :: OccursAt(hay, needle, i)
  {
    var n := |needle|;
    if n <= |hay| && hay[..n] != needle {
      ContainsIff(hay[1..], needle);
      if Contains(hay[1..], needle) {
        var j :| OccursAt(hay[1..], needle, j);
        SliceOfTail(hay, j, n);
        assert OccursAt(hay, needle, j + 1);
      } else {
        forall i | 0 < i <= |hay| - n
          ensures !OccursAt(hay, needle, i)
        {
          SliceOfTail(hay, i - 1, n);
          assert !OccursAt(hay[1..], needle, i - 1);
        }
      }
    } else if n <= |hay| {
      assert OccursAt(hay, needle, 0);
    }
  }

  lemma SliceOfTail(hay: string, k: nat, n: nat)
    requires k + n < |hay|
    ensures hay[1..][k..k + n] == hay[k + 1..k + 1 + n]
  {
    var a, b := hay[1..][k..k + n], hay[k + 1..k + 1 + n];
    assert |a| == |b|;
    assert forall t :: 0 <= t < |a| ==> a[t] == b[t];
  }
}
