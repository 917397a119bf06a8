# Phemex USDT-swap scan bot, modelled in Dafny

The repository holds two near-identical Python scripts, `main.py` and
`take_trade.py`. Every few seconds each one runs one *scan cycle*, in these steps:

1. Load the exchange's markets and keep the USDT-settled swap symbols.
2. Fetch the positions and drop every symbol that already has an open position.
3. For each remaining symbol, in market order:
   - evaluate an EMA/ATR/RSI signal;
   - check the per-side caps on concurrent positions (15 shorts, 2 longs);
   - submit a 1.5 USDT market order at leverage 10.

This project models the decision logic of one cycle and the exact sequence of
side-effecting exchange calls it issues (set_margin_mode, set_leverage,
create_order). Everything the exchange answers becomes an input:
the markets, the positions, the per-symbol indicator values, the last price,
and the outcome (done, or which exception) of each side-effecting call.

Modules:

- `Signal` (signal.dfy): the decision in `check_trade_signal`, meaning the trend
  label and the `(should_trade, side)` verdict.
- `Positions` (positions.dfy): the open filter and the two three-clause
  classifiers that count a position as short or long. This includes the Python
  exceptions that `float(None)` and `None.lower()` raise inside them.
- `Symbols` (symbols.dfy): the swap-symbol filter and the not-opened filter.
- `Risk` (risk.dfy): the caps.
- `Exchange` (exchange.dfy): the exchange calls, order requests, the base amount,
  the generic trace of a per-symbol loop, and Python's substring test.
- `MainBot` (main_bot.dfy) and `TakeTrade` (take_trade_bot.dfy): one cycle of
  each script.
  - `RunCycle` is the imperative loop. It is proved equal to a function
    `CycleCalls` over the inputs.
  - `ProcessSymbol` is the loop body, with each `continue` written as a `return`.
    It is proved equal to `SymbolCalls`.
  - Lemmas characterise which orders a cycle can produce.

How the two scripts differ, as the code has them:

- **Position counts.** `main.py` re-fetches and re-classifies the positions for
  every symbol that signals (`get_open_position_counts`). `take_trade.py`
  classifies the one snapshot taken at the start of the cycle.
- **Failures of the initial classification.** `main.py` already classifies
  positions in its initial fetch, so a record that makes the classifier raise
  aborts the whole cycle. `take_trade.py` only classifies inside the per-symbol
  `try`, so such a record skips every symbol that signals.
- **Buys.** `main.py` skips every buy after the caps. `take_trade.py` trades
  both sides.
- **Margin mode and leverage.** `main.py` sets isolated margin mode, then
  leverage, catching `ccxt.BaseError` around each. It always sends `posSide`
  and `marginMode` with the order.
- **Position-mode retry.** `take_trade.py` does not catch errors from
  `set_leverage`. It sends the order without `posSide` first, and resends it
  once with `posSide` only when the `ccxt.BaseError` text contains
  `TE_ERR_INCONSISTENT_POS_MODE`.
- **Classifier semantics.** In both scripts the short and long tests are two
  independent disjunctions, not a priority order. One record can count on both
  sides (`Positions.CountedOnBothSides`) or on neither
  (`Positions.UnclassifiedCountsNeither`).

Line 115 of `main.py` opens a string with `"` and closes it with `'`, so the
file as written is not valid Python and never runs. The model takes the evident
intent of lines 114-116: log "No buying for now" and skip the symbol.

## Model

| member | source | states |
|---|---|---|
| Signal.TrendOf | main.py:38 | uptrend exactly when EMA9 > EMA21, downtrend exactly when EMA9 < EMA21, sideways exactly when they are equal |
| Signal.Evaluate | take_trade.py:38-45 | should_trade holds exactly when a side is chosen. Buy holds exactly when normalised ATR > 0.015, EMA9 < EMA21 and RSI <= 30. Sell holds exactly when normalised ATR > 0.015, EMA9 > EMA21 and RSI >= 70. The trend is that of the EMAs |
| Signal.CaseTable | main.py:38-45 | of the trend × RSI zone × volatility table, only "downtrend, oversold, volatile" buys and only "uptrend, overbought, volatile" sells; no other cell trades |
| Signal.SignalMonotone | main.py:41-45 | a signal keeps its side when volatility rises and the RSI moves further into its zone |
| Positions.OpenPositions | main.py:60 | every record kept is open (contracts present and nonzero), and no more records are kept than fetched |
| Positions.OpenPositionsKept | take_trade.py:82 | the open records are a subsequence of the fetched ones. A record is kept exactly when it is fetched and open, and as many times as it was fetched |
| Positions.OpenPositionsAppend | main.py:60 | filtering a concatenation of fetched lists is filtering each part and concatenating |
| Positions.Matches | main.py:63-65 | the explicit side word alone classifies the record. The test raises exactly when the side word is not there and either `size` is None, or `size` does not point the way and `info.side` is None |
| Positions.MatchesValue | main.py:61-72 | when the test does not raise, it holds exactly when one of three clauses holds: the side word matches, `size` has the direction's sign (negative short, positive long), or the lower-cased `info.side` is 'sell' (short) or 'buy' (long) |
| Positions.InfoWordAnyCase | take_trade.py:99 | the lower-cased info side equals 'sell' ('buy') exactly when it has that length and each letter is the word's letter in either case |
| Positions.Select | take_trade.py:95-108 | a comprehension that does not raise keeps at most as many records as it is given |
| Positions.SelectKept | main.py:61-72 | the kept records are a subsequence of the open ones. A record is kept exactly when its test returns true, and as many times as it occurs |
| Positions.SelectAppend | take_trade.py:95-108 | the comprehension over a concatenation raises exactly when it raises on one of the parts, and otherwise keeps each part's records in turn |
| Positions.SelectOne | take_trade.py:95-108 | on one record, the comprehension raises when the test raises, and otherwise keeps the record exactly when the test holds |
| Positions.SelectCount | take_trade.py:110-111 | a comprehension that does not raise keeps exactly one record per index whose test holds |
| Positions.SelectFailsIff | take_trade.py:95-108 | the comprehension raises exactly when the test raises on some open record |
| Positions.CountSides | take_trade.py:95-111 | counts exist exactly when neither comprehension raises. The short (long) count is then the number of open records whose short (long) test holds, at most the number of open records |
| Positions.OpenPositionCounts | main.py:58-73 | returns the open records and, as the short and long counts, the number of open records whose test for each side holds. It raises exactly when classifying the open records raises |
| Positions.ExplicitSideCounted | main.py:63 | an open record whose side is 'short' (or 'long') is in that list whenever the list is built |
| Positions.SizeSignCounted | main.py:64-70 | an open record whose `size` is negative (positive) is in the short (long) list whenever the list is built |
| Positions.InfoSideCounted | take_trade.py:99-107 | an open record whose `info.side` reads 'sell' ('buy') in any letter case is in the short (long) list whenever the list is built |
| Positions.CountedOnBothSides | main.py:61-72 | a record reported 'long' whose raw info side is 'Sell' is counted as one short and one long |
| Positions.UnclassifiedCountsNeither | take_trade.py:95-108 | a record with no side, size or info side is in neither list whenever the list is built, whatever the other records are |
| Symbols.SwapSymbolsExact | main.py:92 | the swap symbols are a subsequence of the market keys, and a symbol is in them exactly when some market with that key ends in ':USDT' and has type 'swap' |
| Symbols.NotOpenedExact | take_trade.py:86 | the not-opened symbols keep the market order, and a symbol is in them exactly when it is in the list and not in the opened set |
| Symbols.CandidatesExact | take_trade.py:76-86 | the candidates are, in market order, exactly the USDT swap symbols that no open position is on |
| Risk.WithinCaps | take_trade.py:114-119 | a sell passes exactly when fewer than 15 shorts are open, a buy exactly when fewer than 2 longs are open, and no side always passes |
| Exchange.BaseAmount | main.py:120-122 | an amount exists exactly when the last price is present and nonzero, and then amount × price = 1.5 USDT |
| Exchange.TraceSplits | main.py:99 | the calls of the loop over a concatenation are those over the front followed by those over the back |
| Exchange.TraceStep | take_trade.py:88 | one more iteration appends exactly that symbol's calls |
| Exchange.TraceAround | take_trade.py:88 | the calls for the candidate at index i lie between those for the candidates before and after it |
| Exchange.OrdersOnExact | take_trade.py:128-147 | the orders kept for a symbol are exactly the orders naming it |
| Exchange.TraceOrdersOn | take_trade.py:88 | when each iteration makes at most k orders for its own symbol and none for another, a symbol gets at most k orders per time it occurs in the loop |
| Exchange.TraceTargets | main.py:99 | when each iteration only touches its own symbol, every call of the loop names one of the candidates |
| Exchange.ContainsIff | take_trade.py:137 | `needle in hay` holds exactly when the needle occurs at some index of the text |
| MainBot.FreshCounts | main.py:105 | counts exist exactly when the fresh fetch succeeds and classifying it does not raise |
| MainBot.SymbolOrders | main.py:101-156 | one symbol yields exactly one order when five conditions hold; otherwise it yields none. The conditions: the signal says sell; the fresh counts exist and hold fewer than 15 shorts; the price is usable; no non-ccxt exception escapes margin mode or leverage. The order is a market sell of 1.5 USDT worth, reduceOnly false, posSide 'Short', isolated margin |
| MainBot.SymbolSetup | main.py:104-142 | an iteration makes no side-effecting exchange call (set_margin_mode, set_leverage, create_order) unless four conditions hold: the signal sells; the fresh counts exist and hold fewer than 15 shorts; the price is present; it is nonzero. The first call is then set_margin_mode('isolated'). set_leverage(10) comes second unless the first raised a non-ccxt error, and an order only ever comes third, after set_leverage |
| MainBot.SymbolCallsTarget | main.py:118-152 | every call made for a symbol names that symbol |
| MainBot.PlanOrders | main.py:99-156 | every call of the loop names a candidate. There are at most as many orders in all as candidates, and each is a market sell with posSide 'Short', isolated margin and reduceOnly false |
| MainBot.OrdersOnOneSymbol | main.py:142-152 | one iteration makes at most one order, and none for another symbol |
| MainBot.OrdersPerCandidate | main.py:99-156 | a symbol gets at most as many orders as it occurs among the candidates (once per distinct market key) |
| MainBot.CandidateSelection | main.py:91-97 | the cycle proceeds exactly when markets and positions were fetched and the initial classification did not raise. Its candidates are then, in market order, the USDT swap symbols with no open position |
| MainBot.CycleTargets | main.py:91-156 | no call of a cycle touches a non-swap symbol or a symbol that had an open position, and every order is a sell |
| MainBot.ProcessSymbol | main.py:100-156 | the loop body issues exactly `SymbolCalls`. `SymbolSetup` characterises its set-up calls and `SymbolOrders` its orders |
| MainBot.RunCycle | main.py:80-165 | the cycle issues exactly `CycleCalls`, and every order it sends is a sell with posSide 'Short' |
| TakeTrade.SymbolOrders | take_trade.py:89-148 | nothing is ordered unless five conditions hold: the signal trades; the snapshot counts do not raise and are within the caps; the price is usable; set_leverage does not raise. One market order of 1.5 USDT worth without posSide is then sent. It is followed by the same order with the matching posSide exactly when the first raised a ccxt error naming TE_ERR_INCONSISTENT_POS_MODE |
| TakeTrade.SymbolSetup | take_trade.py:93-128 | an iteration makes no side-effecting exchange call (set_leverage, create_order) unless four conditions hold: the signal trades; the snapshot counts exist and are within the caps; the price is present; it is nonzero. The first call is then set_leverage(10), every order attempt comes after it, and margin mode is never set |
| TakeTrade.SymbolCallsTarget | take_trade.py:121-148 | every call made for a symbol names that symbol |
| TakeTrade.SnapshotPerSymbol | take_trade.py:88-111 | each candidate's calls are decided by the one cycle-start snapshot, whatever earlier iterations did |
| TakeTrade.SymbolOrderFields | take_trade.py:127-148 | at most two order attempts per symbol, each a market order for that symbol with reduceOnly false and no margin mode; a posSide, when present, matches the side |
| TakeTrade.PlanOrders | take_trade.py:88-150 | every call of the loop names a candidate. There are at most twice as many order attempts in all as candidates, each with the fields above |
| TakeTrade.OrdersOnOneSymbol | take_trade.py:127-148 | one iteration makes at most two order attempts, and none for another symbol |
| TakeTrade.OrdersPerCandidate | take_trade.py:88-150 | a symbol gets at most two order attempts per time it occurs among the candidates |
| TakeTrade.SnapshotSelection | take_trade.py:75-86 | the cycle proceeds exactly when markets and positions were fetched. The snapshot is the open records, and the candidates are, in market order, the USDT swap symbols with no open position |
| TakeTrade.CycleTargets | take_trade.py:75-150 | no call of a cycle touches a non-swap symbol or a symbol that had an open position |
| TakeTrade.ProcessSymbol | take_trade.py:89-150 | the loop body issues exactly `SymbolCalls`. `SymbolSetup` characterises its set-up calls and `SymbolOrders` its orders |
| TakeTrade.RunCycle | take_trade.py:62-153 | the cycle issues exactly `CycleCalls`, and every posSide it sends matches its order's side |

## Left out

- Indicator numerics are inputs, not modelled. This covers the pandas EMA, the `ta` ATR and RSI, `rsi_prev`, and the `details` dict other than the trend.
- NaN is not modelled. A NaN indicator makes every comparison false in Python, so the signal returns no trade. The model's reals cannot be NaN.
- Floating point is not modelled. Prices, amounts and the 0.015 floor are exact reals, so `Exchange.BaseAmount` states exact division.
- The network and the ccxt library are parameters. Every answer of `load_markets`, `fetch_positions`, `fetch_ohlcv`, `fetch_ticker`, `set_margin_mode`, `set_leverage` and `create_order` is an input, and the exchange's response to an order is not modelled.
- Scheduling is not modelled. That covers `schedule.every(6).seconds`, the outer `while True`, `time.sleep`, and the state of successive cycles, since each cycle re-reads everything.
- Logging (`print`, `traceback`) is not modelled.
- The read-only calls `load_markets`, `fetch_positions`, `fetch_ohlcv` and `fetch_ticker` are not recorded in the call trace; only their answers are inputs.
- `Positions.LowerAscii` models `str.lower()` on ASCII letters only. Python's full Unicode lowering is not modelled.
- Key presence in `contracts` and `side` is not tracked. They are read with `dict.get`, so a missing key and None behave alike and are one `None`.
- `Positions.IsOpen` assumes `contracts` and `size` are numbers. A non-numeric string there, which would make `float()` raise, is not modelled.
- `info` is assumed to be a dict or None when present; None is modelled as the raising case.
- `Symbols.SwapSymbols` assumes market keys are unique and every market has a `type`. It takes the markets as a list of (key, type) pairs in iteration order, and a missing `type` (a KeyError) is not modelled.
- API keys, `load_dotenv` and the ccxt client construction are left out, since they are configuration only.
