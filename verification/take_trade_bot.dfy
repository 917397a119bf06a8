/** The scan cycle of take_trade.py: one position snapshot per cycle serves
    both the candidate selection and the caps; buys are allowed; the order is
    first sent without posSide and resent once with it when the exchange
    answers with the inconsistent-position-mode error. */
module TakeTrade {
  import opened Common
  import opened Signal
  import opened Positions
  import opened Symbols
  import opened Risk
  import opened Exchange

  /** What the exchange answers, for one symbol, to the calls take_trade.py
      makes about it. None stands for a call that raised (or, for the price, a
      ticker without a last price). */
  datatype Feed = Feed(
    indicators: Option<Indicators>,  // fetch_ohlcv and the indicator code
    lastPrice: Option<real>,         // fetch_ticker(symbol)['last']
    leverage: Outcome,               // set_leverage(10, symbol)
    firstOrder: Outcome)             // the first create_order

  const PosModeError: string := "TE_ERR_INCONSISTENT_POS_MODE"

  /** The first order raised a ccxt.BaseError whose text names the
      inconsistent-position-mode error. */
  predicate RetriesWithPosSide(o: Outcome) {
    o.Raised? && o.error.CcxtError? && Contains(o.error.message, PosModeError)
  }

  /** Leverage, the order without posSide and, on the position-mode error,
      the same order with posSide. */
  function Submission(symbol: string, side: Side, amount: real, f: Feed): seq<Call> {
    var first := OrderRequest(symbol, "market", side, amount, false, None, None);
    [SetLeverage(Leverage, symbol)] +
    if f.leverage.Raised? then [] else
    [CreateOrder(first)] +
    if RetriesWithPosSide(f.firstOrder) then [CreateOrder(first.(posSide := Some(PositionSideFor(side))))]
    else []
  }

  /** The calls one iteration of the loop issues for `symbol`; `open` is the
      cycle's snapshot of open positions. */
  function SymbolCalls(symbol: string, f: Feed, open: seq<Position>): seq<Call> {
    match f.indicators
    case None => []
    case Some(ind) =>
      var verdict := Evaluate(ind);
      if !verdict.shouldTrade then []
      else match CountSides(open)
        case None => []
        case Some(counts) =>
          if !WithinCaps(verdict.side, counts) then []
          else match BaseAmount(f.lastPrice)
            case None => []
            case Some(amount) => Submission(symbol, verdict.side.value, amount, f)
  }

  /** Orders per symbol: when the signal trades, the snapshot counts admit it,
      the price divides and set_leverage did not raise, one market order of
      1.5 USDT at the last price without posSide, followed by the same order
      with posSide exactly when the first raised the position-mode error;
      otherwise none. */
  lemma SymbolOrders(symbol: string, f: Feed, open: seq<Position>)
    ensures Orders(SymbolCalls(symbol, f, open)) ==
      if && f.indicators.Some?
         && Evaluate(f.indicators.value).shouldTrade
         && CountSides(open).Some?
         && WithinCaps(Evaluate(f.indicators.value).side, CountSides(open).value)
         && f.lastPrice.Some? && f.lastPrice.value != 0.0
         && !f.leverage.Raised?
      then
        var side := Evaluate(f.indicators.value).side.value;
        var first := OrderRequest(symbol, "market", side, UsdtValue / f.lastPrice.value,
                                  false, None, None);
        [first] + if RetriesWithPosSide(f.firstOrder)
                  then [first.(posSide := Some(PositionSideFor(side)))] else []
      else []
  {
    var calls := SymbolCalls(symbol, f, open);
    if calls != [] {
      var side := Evaluate(f.indicators.value).side.value;
      var amount := BaseAmount(f.lastPrice).value;
      var first := OrderRequest(symbol, "market", side, amount, false, None, None);
      var lev := [SetLeverage(Leverage, symbol)];
      var once := [CreateOrder(first)];
      var again := if RetriesWithPosSide(f.firstOrder)
                   then [CreateOrder(first.(posSide := Some(PositionSideFor(side))))] else [];
      assert Orders(lev) == [];
      assert Orders(once) == [first] by {
        assert once[1..] == [];
      }
      assert Orders(again) == if again == [] then [] else [again[0].order] by {
        if again != [] {
          assert again[1..] == [];
        }
      }
      if f.leverage.Raised? {
        assert calls == lev;
      } else {
        OrdersAppend(lev, once + again);
        OrdersAppend(once, again);
        assert calls == lev + (once + again);
      }
    }
  }

  /** The set-up calls of one iteration: nothing reaches the exchange unless
      the signal trades, the snapshot counts are within the caps and the price
      divides; then leverage 10 is set first, before every order attempt, and
      the margin mode is never set. */
  lemma SymbolSetup(symbol: string, f: Feed, open: seq<Position>)
    ensures var calls := SymbolCalls(symbol, f, open);
      && (calls != [] <==>
            && f.indicators.Some?
            && Evaluate(f.indicators.value).shouldTrade
            && CountSides(open).Some?
            && WithinCaps(Evaluate(f.indicators.value).side, CountSides(open).value)
            && f.lastPrice.Some? && f.lastPrice.value != 0.0)
      && (calls != [] ==> calls[0] == SetLeverage(Leverage, symbol))
      && (forall i :: 0 <= i < |calls| && calls[i].CreateOrder? ==> 1 <= i)
      && (forall c :: c in calls ==> !c.SetMarginMode?)
  {
  }

  /** Every call issued in one iteration names that iteration's symbol. */
  lemma SymbolCallsTarget(symbol: string, f: Feed, open: seq<Position>)
    ensures forall c :: c in SymbolCalls(symbol, f, open) ==> c.Symbol() == symbol
  {
  }

  /** The loop body as a function of the symbol; every iteration reads the
      same cycle-start snapshot `open`. */
  function Step(feed: string -> Feed, open: seq<Position>): string -> seq<Call> {
    s => SymbolCalls(s, feed(s), open)
  }

  /** The counts come from the cycle-start snapshot, so the calls for the
      candidate at index i are the same whatever was done before it: those of
      SymbolCalls on the one snapshot, between the calls for the candidates
      before and after it. */
  lemma SnapshotPerSymbol(candidates: seq<string>, i: nat, feed: string -> Feed,
                          open: seq<Position>)
    requires i < |candidates|
    ensures Trace(candidates, Step(feed, open)) ==
      Trace(candidates[..i], Step(feed, open))
      + SymbolCalls(candidates[i], feed(candidates[i]), open)
      + Trace(candidates[i + 1..], Step(feed, open))
  {
    TraceAround(candidates, i, Step(feed, open));
  }

  /** One iteration makes at most two order attempts, each for its own
      symbol, a market order with reduceOnly off and no margin mode; an
      attempt with posSide carries the one matching its side. */
  lemma SymbolOrderFields(symbol: string, f: Feed, open: seq<Position>)
    ensures |Orders(SymbolCalls(symbol, f, open))| <= 2
    ensures forall o :: o in Orders(SymbolCalls(symbol, f, open)) ==>
      && o.symbol == symbol && o.orderType == "market" && !o.reduceOnly
      && o.marginMode.None?
      && (o.posSide.Some? ==> o.posSide == Some(PositionSideFor(o.side)))
  {
    SymbolOrders(symbol, f, open);
  }

  /** One iteration makes at most two order attempts, none for another symbol. */
  lemma OrdersOnOneSymbol(head: string, f: Feed, open: seq<Position>, symbol: string)
    ensures |OrdersOn(Orders(SymbolCalls(head, f, open)), symbol)| <= if head == symbol then 2 else 0
  {
    SymbolOrderFields(head, f, open);
    var here := Orders(SymbolCalls(head, f, open));
    OrdersOnExact(here, symbol);
    if head != symbol && OrdersOn(here, symbol) != [] {
      assert OrdersOn(here, symbol)[0] in OrdersOn(here, symbol);
    }
  }

  /** A symbol gets at most two order attempts for each time it occurs among
      the candidates, and none unless it is one. */
  lemma OrdersPerCandidate(candidates: seq<string>, feed: string -> Feed,
                            open: seq<Position>, symbol: string)
    ensures |OrdersOn(Orders(Trace(candidates, Step(feed, open))), symbol)|
      <= 2 * multiset(candidates)[symbol]
  {
    forall s
      ensures |OrdersOn(Orders(Step(feed, open)(s)), symbol)| <= if s == symbol then 2 else 0
    {
      OrdersOnOneSymbol(s, feed(s), open, symbol);
    }
    TraceOrdersOn(candidates, Step(feed, open), symbol, 2);
  }

  /** Over a whole loop: every call names a candidate; at most two order
      attempts per candidate, each a market order with reduceOnly off and no
      margin mode; an attempt with posSide carries the one matching its side. */
  lemma {:induction false} PlanOrders(candidates: seq<string>, feed: string -> Feed,
                                      open: seq<Position>)
    ensures forall c :: c in Trace(candidates, Step(feed, open)) ==> c.Symbol() in candidates
    ensures |Orders(Trace(candidates, Step(feed, open)))| <= 2 * |candidates|
    ensures forall o :: o in Orders(Trace(candidates, Step(feed, open))) ==>
      && o.symbol in candidates && o.orderType == "market" && !o.reduceOnly
      && o.marginMode.None?
      && (o.posSide.Some? ==> o.posSide == Some(PositionSideFor(o.side)))
  {
    forall s, c | c in Step(feed, open)(s)
      ensures c.Symbol() == s
    {
      SymbolCallsTarget(s, feed(s), open);
    }
    TraceTargets(candidates, Step(feed, open));
    if candidates != [] {
      var head := candidates[0];
      var rest := candidates[1..];
      PlanOrders(rest, feed, open);
      OrdersAppend(SymbolCalls(head, feed(head), open), Trace(rest, Step(feed, open)));
      SymbolOrderFields(head, feed(head), open);
      assert forall s :: s in rest ==> s in candidates;
    }
  }

  /** take_trade.py:75-86: the candidates and the open-position snapshot, or None when
      loading the markets or fetching the positions raised. */
  function Snapshot(markets: Option<seq<Market>>, positions: Option<seq<Position>>)
    : Option<(seq<string>, seq<Position>)>
  {
    match markets
    case None => None
    case Some(ms) =>
      match positions
      case None => None
      case Some(ps) =>
        var open := OpenPositions(ps);
        Some((NotOpened(SwapSymbols(ms), OpenedSymbols(open)), open))
  }

  /** The cycle goes on exactly when markets and positions were fetched; the
      snapshot is the open records, the candidates are the USDT swap symbols,
      in market order, that none of them is on. */
  lemma SnapshotSelection(markets: Option<seq<Market>>, positions: Option<seq<Position>>)
    ensures var r := Snapshot(markets, positions);
      && (r.Some? <==> markets.Some? && positions.Some?)
      && (r.Some? ==> r.value.1 == OpenPositions(positions.value))
      && (r.Some? ==> IsSubsequence(r.value.0, SwapSymbols(markets.value)))
      && (r.Some? ==> forall s :: s in r.value.0 <==>
            && (exists m :: m in markets.value && m.symbol == s && IsUsdtSwap(m))
            && (forall p :: p in positions.value && IsOpen(p) ==> p.symbol != s))
  {
    if Snapshot(markets, positions).Some? {
      CandidatesExact(markets.value, positions.value);
    }
  }

  function CycleCalls(markets: Option<seq<Market>>, positions: Option<seq<Position>>,
                      feed: string -> Feed): seq<Call>
  {
    match Snapshot(markets, positions)
    case None => []
    case Some((candidates, open)) => Trace(candidates, Step(feed, open))
  }

  /** No call of a cycle touches a symbol that is not a USDT swap or that had
      an open position when the cycle started. */
  lemma CycleTargets(markets: Option<seq<Market>>, positions: Option<seq<Position>>,
                     feed: string -> Feed)
    ensures forall c :: c in CycleCalls(markets, positions, feed) ==>
      && markets.Some? && positions.Some?
      && (exists m :: m in markets.value && m.symbol == c.Symbol() && IsUsdtSwap(m))
      && (forall p :: p in positions.value && IsOpen(p) ==> p.symbol != c.Symbol())
  {
    SnapshotSelection(markets, positions);
    match Snapshot(markets, positions)
    case None =>
    case Some((candidates, open)) =>
      PlanOrders(candidates, feed, open);
  }

  /** The body of the loop over the candidates; each `continue` of the
      source ends the iteration with a `return`. `open` is the cycle's
      snapshot of open positions. */
  method ProcessSymbol(symbol: string, f: Feed, open: seq<Position>) returns (issued: seq<Call>)
    ensures issued == SymbolCalls(symbol, f, open)
  {
    issued := [];
    if f.indicators.None? {
      return;
    }
    var verdict := Evaluate(f.indicators.value);
    if !verdict.shouldTrade {
      return;
    }
    var counts := CountSides(open);
    if counts.None? {
      return;
    }
    if counts.value.shortCount >= MaxShortTrades && verdict.side == Some(Sell) {
      return;
    }
    if counts.value.longCount >= MaxLongTrades && verdict.side == Some(Buy) {
      return;
    }
    var amount := BaseAmount(f.lastPrice);
    if amount.None? {
      return;
    }
    issued := issued + [SetLeverage(Leverage, symbol)];
    if f.leverage.Raised? {
      return;
    }
    var side := verdict.side.value;
    var first := OrderRequest(symbol, "market", side, amount.value, false, None, None);
    issued := issued + [CreateOrder(first)];
    if RetriesWithPosSide(f.firstOrder) {
      var posSide := if side == Sell then ShortSide else LongSide;
      assert posSide == PositionSideFor(side);
      issued := issued + [CreateOrder(first.(posSide := Some(posSide)))];
    }
  }

  /** One run of `main()`: the exchange calls it issues, in order. */
  method RunCycle(markets: Option<seq<Market>>, positions: Option<seq<Position>>,
                  feed: string -> Feed)
    returns (calls: seq<Call>)
    ensures calls == CycleCalls(markets, positions, feed)
    ensures forall o :: o in Orders(calls) ==>
      o.posSide.Some? ==> o.posSide == Some(PositionSideFor(o.side))
  {
    calls := [];
    if markets.None? || positions.None? {
      return;
    }
    var allSymbols := SwapSymbols(markets.value);
    var openPositions := OpenPositions(positions.value);
    var symbolsNotOpened := NotOpened(allSymbols, OpenedSymbols(openPositions));
    for i := 0 to |symbolsNotOpened|
      invariant calls == Trace(symbolsNotOpened[..i], Step(feed, openPositions))
    {
      var symbol := symbolsNotOpened[i];
      TraceStep(symbolsNotOpened, i, Step(feed, openPositions));
      var issued := ProcessSymbol(symbol, feed(symbol), openPositions);
      calls := calls + issued;
    }
    assert symbolsNotOpened[..|symbolsNotOpened|] == symbolsNotOpened;
    PlanOrders(symbolsNotOpened, feed, openPositions);
  }
}
