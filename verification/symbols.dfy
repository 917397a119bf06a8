/** Candidate-symbol selection, the same in both scripts: the USDT-settled
    swap markets, in market order, minus every symbol with an open position. */
module Symbols {
  import opened Common
  import opened Positions

  /** One entry of `load_markets()`: its key and its `type`. */
  datatype Market = Market(symbol: string, marketType: string)

  predicate EndsWith(s: string, suffix: string) {
    |suffix| <= |s| && s[|s| - |suffix|..] == suffix
  }

  predicate IsUsdtSwap(m: Market) {
    EndsWith(m.symbol, ":USDT") && m.marketType == "swap"
  }

  /** The market keys in iteration order. */
  function Keys(markets: seq<Market>): (r: seq<string>)
    ensures |r| == |markets|
    ensures forall i :: 0 <= i < |markets| ==> r[i] == markets[i].symbol
  {
    if markets == [] then [] else [markets[0].symbol] + Keys(markets[1..])
  }

  /** The keys, in market order, of the swap markets settled in USDT. */
  function SwapSymbols(markets: seq<Market>): seq<string> {
    if markets == [] then []
    else (if IsUsdtSwap(markets[0]) then [markets[0].symbol] else []) + SwapSymbols(markets[1..])
  }

  lemma {:induction false} SwapSymbolsExact(markets: seq<Market>)
    ensures IsSubsequence(SwapSymbols(markets), Keys(markets))
    ensures forall s :: s in SwapSymbols(markets) <==>
      exists m :: m in markets && m.symbol == s && IsUsdtSwap(m)
  {
    if markets != [] {
      SwapSymbolsExact(markets[1..]);
      var rest := SwapSymbols(markets[1..]);
      assert Keys(markets)[1..] == Keys(markets[1..]);
      if IsUsdtSwap(markets[0]) {
        assert SwapSymbols(markets) == [markets[0].symbol] + rest;
        assert ([markets[0].symbol] + rest)[1..] == rest;
      } else {
        assert SwapSymbols(markets) == rest;
      }
      assert forall m :: m in markets <==> m == markets[0] || m in markets[1..];
    }
  }

  /** The symbols that the open records are on. */
  function OpenedSymbols(open: seq<Position>): set<string> {
    set p | p in open :: p.symbol
  }

  /** The symbols of `all`, in order, that are not in `openedSymbols`. */
  function NotOpened(all: seq<string>, openedSymbols: set<string>): seq<string> {
    if all == [] then []
    else (if all[0] !in openedSymbols then [all[0]] else []) + NotOpened(all[1..], openedSymbols)
  }

  lemma {:induction false} NotOpenedExact(all: seq<string>, openedSymbols: set<string>)
    ensures IsSubsequence(NotOpened(all, openedSymbols), all)
    ensures forall s :: s in NotOpened(all, openedSymbols) <==> s in all && s !in openedSymbols
  {
    if all != [] {
      NotOpenedExact(all[1..], openedSymbols);
      var rest := NotOpened(all[1..], openedSymbols);
      if all[0] !in openedSymbols {
        assert NotOpened(all, openedSymbols) == [all[0]] + rest;
        assert ([all[0]] + rest)[1..] == rest;
      } else {
        assert NotOpened(all, openedSymbols) == rest;
      }
      assert forall s :: s in all <==> s == all[0] || s in all[1..];
    }
  }

  /** The candidates are exactly the USDT swap symbols that no open position
      is on, in market order. */
  lemma CandidatesExact(markets: seq<Market>, positions: seq<Position>)
    ensures var c := NotOpened(SwapSymbols(markets), OpenedSymbols(OpenPositions(positions)));
      && IsSubsequence(c, SwapSymbols(markets))
      && forall s :: s in c <==>
           && (exists m :: m in markets && m.symbol == s && IsUsdtSwap(m))
           && (forall p :: p in positions && IsOpen(p) ==> p.symbol != s)
  {
    var open := OpenPositions(positions);
    SwapSymbolsExact(markets);
    NotOpenedExact(SwapSymbols(markets), OpenedSymbols(open));
    OpenPositionsKept(positions);
    forall s
      ensures s in OpenedSymbols(open) <==> exists p :: p in positions && IsOpen(p) && p.symbol == s
    {
      if s in OpenedSymbols(open) {
        var p :| p in open && p.symbol == s;
        assert p in positions && IsOpen(p);
      }
    }
  }
}
