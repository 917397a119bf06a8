/** The scan cycle of main.py: select the flat USDT swap symbols once, then
    for each one evaluate the signal, re-read the position counts, apply the
    caps, skip every buy, and submit an isolated-margin market sell. */
module MainBot {
  import opened Common
  import opened Signal
  import opened Positions
  import opened Symbols
  import opened Risk
  import opened Exchange

  /** What the exchange answers, for one symbol, to each call main.py makes
      about it. None stands for a call that raised (or, for the price, a
      ticker without a last price). */
  datatype Feed = Feed(
    indicators: Option<Indicators>,     // fetch_ohlcv and the indicator code
    positions: Option<seq<Position>>,   // the fresh fetch_positions before the gate
    lastPrice: Option<real>,            // fetch_ticker(symbol)['last']
    marginMode: Outcome,                // set_margin_mode('isolated', symbol)
    leverage: Outcome)                  // set_leverage(10, symbol)

  /** An exception that the `except ccxt.BaseError` around the margin-mode and
      leverage calls does not catch; it ends the symbol's order attempt. */
  predicate Escapes(o: Outcome) {
    o == Raised(OtherError)
  }

  /** The counts of `get_open_position_counts` on the fresh fetch. */
  function FreshCounts(f: Feed): (r: Option<Counts>)
    ensures r.Some? <==> f.positions.Some? && OpenPositionCounts(f.positions.value).Some?
  {
    match f.positions
    case None => None
    case Some(ps) =>
      match OpenPositionCounts(ps)
      case None => None
      case Some(t) => Some(t.counts)
  }

  /** Margin mode, leverage, then the order with posSide and isolated margin;
      a BaseError from the first two is only logged. */
  function Submission(symbol: string, side: Side, amount: real, f: Feed): seq<Call> {
    var order := OrderRequest(symbol, "market", side, amount, false,
                              Some(PositionSideFor(side)), Some(Isolated));
    [SetMarginMode(Isolated, symbol)] +
    if Escapes(f.marginMode) then [] else
    [SetLeverage(Leverage, symbol)] +
    if Escapes(f.leverage) then [] else
    [CreateOrder(order)]
  }

  /** The calls one iteration of the loop issues for `symbol`. */
  function SymbolCalls(symbol: string, f: Feed): seq<Call> {
    match f.indicators
    case None => []
    case Some(ind) =>
      var verdict := Evaluate(ind);
      if !verdict.shouldTrade then []
      else match FreshCounts(f)
        case None => []
        case Some(counts) =>
          if !WithinCaps(verdict.side, counts) || verdict.side == Some(Buy) then []
          else match BaseAmount(f.lastPrice)
            case None => []
            case Some(amount) => Submission(symbol, verdict.side.value, amount, f)
  }

  /** Orders per symbol: exactly one market sell, sized 1.5 USDT at the last
      price, with posSide 'Short', isolated margin and reduceOnly off, when the
      signal is a sell, the fresh short count is under its cap, the price
      divides and no non-ccxt exception escapes margin mode or leverage;
      otherwise none. */
  lemma SymbolOrders(symbol: string, f: Feed)
    ensures Orders(SymbolCalls(symbol, f)) ==
      if && f.indicators.Some?
         && Evaluate(f.indicators.value).side == Some(Sell)
         && FreshCounts(f).Some?
         && FreshCounts(f).value.shortCount < MaxShortTrades
         && f.lastPrice.Some? && f.lastPrice.value != 0.0
         && !Escapes(f.marginMode) && !Escapes(f.leverage)
      then [OrderRequest(symbol, "market", Sell, UsdtValue / f.lastPrice.value, false,
                         Some(ShortSide), Some(Isolated))]
      else []
  {
    var calls := SymbolCalls(symbol, f);
    if calls != [] {
      var side := Evaluate(f.indicators.value).side.value;
      var amount := BaseAmount(f.lastPrice).value;
      var margin := [SetMarginMode(Isolated, symbol)];
      var lev := [SetLeverage(Leverage, symbol)];
      var order := [CreateOrder(OrderRequest(symbol, "market", side, amount, false,
                                             Some(PositionSideFor(side)), Some(Isolated)))];
      assert Orders(margin) == [] && Orders(lev) == [];
      assert Orders(order) == [order[0].order] by {
        assert order[1..] == [];
      }
      if Escapes(f.marginMode) {
        assert calls == margin;
      } else if Escapes(f.leverage) {
        OrdersAppend(margin, lev);
        assert calls == margin + lev;
      } else {
        OrdersAppend(margin, lev + order);
        OrdersAppend(lev, order);
        assert calls == margin + (lev + order);
      }
    }
  }

  /** The set-up calls of one iteration: nothing reaches the exchange unless
      the signal sells, the fresh counts admit it and the price divides; then
      isolated margin mode is set first, leverage 10 next unless the first call
      raised something other than a ccxt error, and the order, if any, comes
      third. */
  lemma SymbolSetup(symbol: string, f: Feed)
    ensures var calls := SymbolCalls(symbol, f);
      && (calls != [] <==>
            && f.indicators.Some?
            && Evaluate(f.indicators.value).side == Some(Sell)
            && FreshCounts(f).Some? && FreshCounts(f).value.shortCount < MaxShortTrades
            && f.lastPrice.Some? && f.lastPrice.value != 0.0)
      && (calls != [] ==> calls[0] == SetMarginMode(Isolated, symbol))
      && (calls != [] && !Escapes(f.marginMode) ==> calls[1] == SetLeverage(Leverage, symbol))
      && (forall i :: 0 <= i < |calls| && calls[i].CreateOrder? ==>
            i == 2 && calls[1] == SetLeverage(Leverage, symbol))
  {
  }

  /** Every call issued in one iteration names that iteration's symbol. */
  lemma SymbolCallsTarget(symbol: string, f: Feed)
    ensures forall c :: c in SymbolCalls(symbol, f) ==> c.Symbol() == symbol
  {
  }

  /** The loop body as a function of the symbol. */
  function Step(feed: string -> Feed): string -> seq<Call> {
    s => SymbolCalls(s, feed(s))
  }

  /** Over a whole loop: every call names a candidate, and there is at most
      one order per candidate, each a sell built as SymbolOrders says. */
  lemma {:induction false} PlanOrders(candidates: seq<string>, feed: string -> Feed)
    ensures forall c :: c in Trace(candidates, Step(feed)) ==> c.Symbol() in candidates
    ensures |Orders(Trace(candidates, Step(feed)))| <= |candidates|
    ensures forall o :: o in Orders(Trace(candidates, Step(feed))) ==>
      && o.symbol in candidates && o.side == Sell && o.orderType == "market"
      && o.posSide == Some(ShortSide) && o.marginMode == Some(Isolated) && !o.reduceOnly
  {
    forall s, c | c in Step(feed)(s)
      ensures c.Symbol() == s
    {
      SymbolCallsTarget(s, feed(s));
    }
    TraceTargets(candidates, Step(feed));
    if candidates != [] {
      var head := candidates[0];
      var rest := candidates[1..];
      PlanOrders(rest, feed);
      OrdersAppend(SymbolCalls(head, feed(head)), Trace(rest, Step(feed)));
      SymbolOrders(head, feed(head));
      assert forall s :: s in rest ==> s in candidates;
    }
  }

  /** One iteration makes at most one order, none for another symbol. */
  lemma OrdersOnOneSymbol(head: string, f: Feed, symbol: string)
    ensures |OrdersOn(Orders(SymbolCalls(head, f)), symbol)| <= if head == symbol then 1 else 0
  {
    SymbolOrders(head, f);
  }

  /** A symbol gets at most as many orders as it occurs among the candidates:
      one order per iteration, and only for that iteration's symbol. */
  lemma OrdersPerCandidate(candidates: seq<string>, feed: string -> Feed, symbol: string)
    ensures |OrdersOn(Orders(Trace(candidates, Step(feed))), symbol)| <= multiset(candidates)[symbol]
  {
    forall s
      ensures |OrdersOn(Orders(Step(feed)(s)), symbol)| <= if s == symbol then 1 else 0
    {
      OrdersOnOneSymbol(s, feed(s), symbol);
    }
    TraceOrdersOn(candidates, Step(feed), symbol, 1);
  }

  /** main.py:91-97: the candidates, or None when loading the markets, fetching
      the positions or classifying them raised and the cycle is aborted. */
  function Candidates(markets: Option<seq<Market>>, positions: Option<seq<Position>>)
    : Option<seq<string>>
  {
    match markets
    case None => None
    case Some(ms) =>
      match positions
      case None => None
      case Some(ps) =>
        match OpenPositionCounts(ps)
        case None => None
        case Some(t) => Some(NotOpened(SwapSymbols(ms), OpenedSymbols(t.open)))
  }

  /** The cycle goes on exactly when markets and positions were fetched and the
      initial classification did not raise; its candidates are then the USDT
      swap symbols, in market order, that no open position is on. */
  lemma CandidateSelection(markets: Option<seq<Market>>, positions: Option<seq<Position>>)
    ensures var r := Candidates(markets, positions);
      && (r.Some? <==>
            markets.Some? && positions.Some? && OpenPositionCounts(positions.value).Some?)
      && (r.Some? ==> IsSubsequence(r.value, SwapSymbols(markets.value)))
      && (r.Some? ==> forall s :: s in r.value <==>
            && (exists m :: m in markets.value && m.symbol == s && IsUsdtSwap(m))
            && (forall p :: p in positions.value && IsOpen(p) ==> p.symbol != s))
  {
    if Candidates(markets, positions).Some? {
      CandidatesExact(markets.value, positions.value);
    }
  }

  function CycleCalls(markets: Option<seq<Market>>, positions: Option<seq<Position>>,
                      feed: string -> Feed): seq<Call>
  {
    match Candidates(markets, positions)
    case None => []
    case Some(candidates) => Trace(candidates, Step(feed))
  }

  /** No call of a cycle touches a symbol that is not a USDT swap or that had
      an open position when the cycle started, and every order is a sell. */
  lemma CycleTargets(markets: Option<seq<Market>>, positions: Option<seq<Position>>,
                     feed: string -> Feed)
    ensures forall c :: c in CycleCalls(markets, positions, feed) ==>
      && markets.Some? && positions.Some?
      && (exists m :: m in markets.value && m.symbol == c.Symbol() && IsUsdtSwap(m))
      && (forall p :: p in positions.value && IsOpen(p) ==> p.symbol != c.Symbol())
    ensures forall o :: o in Orders(CycleCalls(markets, positions, feed)) ==> o.side == Sell
  {
    CandidateSelection(markets, positions);
    match Candidates(markets, positions)
    case None =>
    case Some(candidates) =>
      PlanOrders(candidates, feed);
  }

  /** The body of the loop over the candidates; each `continue` of the
      source ends the iteration with a `return`. */
  method ProcessSymbol(symbol: string, f: Feed) returns (issued: seq<Call>)
    ensures issued == SymbolCalls(symbol, f)
  {
    issued := [];
    if f.indicators.None? {
      return;
    }
    var verdict := Evaluate(f.indicators.value);
    if !verdict.shouldTrade {
      return;
    }
    var counts := FreshCounts(f);
    if counts.None? {
      return;
    }
    if counts.value.shortCount >= MaxShortTrades && verdict.side == Some(Sell) {
      return;
    }
    if counts.value.longCount >= MaxLongTrades && verdict.side == Some(Buy) {
      return;
    }
    if verdict.side == Some(Buy) {
      return;  // "No buying for now"
    }
    var amount := BaseAmount(f.lastPrice);
    if amount.None? {
      return;
    }
    issued := issued + [SetMarginMode(Isolated, symbol)];
    if Escapes(f.marginMode) {
      return;
    }
    issued := issued + [SetLeverage(Leverage, symbol)];
    if Escapes(f.leverage) {
      return;
    }
    var posSide := if verdict.side == Some(Buy) then LongSide else ShortSide;
    issued := issued + [CreateOrder(OrderRequest(symbol, "market", verdict.side.value,
                                               amount.value, false, Some(posSide), Some(Isolated)))];
  }

  /** One run of `main()`: the exchange calls it issues, in order. */
  method RunCycle(markets: Option<seq<Market>>, positions: Option<seq<Position>>,
                  feed: string -> Feed)
    returns (calls: seq<Call>)
    ensures calls == CycleCalls(markets, positions, feed)
    ensures forall o :: o in Orders(calls) ==> o.side == Sell && o.posSide == Some(ShortSide)
  {
    calls := [];
    if markets.None? || positions.None? {
      return;
    }
    var allSymbols := SwapSymbols(markets.value);
    var tally := OpenPositionCounts(positions.value);
    if tally.None? {
      return;
    }
    var symbolsNotOpened := NotOpened(allSymbols, OpenedSymbols(tally.value.open));
    for i := 0 to |symbolsNotOpened|
      invariant calls == Trace(symbolsNotOpened[..i], Step(feed))
    {
      var symbol := symbolsNotOpened[i];
      TraceStep(symbolsNotOpened, i, Step(feed));
      var issued := ProcessSymbol(symbol, feed(symbol));
      calls := calls + issued;
    }
    assert symbolsNotOpened[..|symbolsNotOpened|] == symbolsNotOpened;
    PlanOrders(symbolsNotOpened, feed);
  }
}
