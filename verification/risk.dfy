/** The per-side caps on concurrent positions (MAX_NO_SELL_TRADE and
    MAX_NO_BUY_TRADE in both scripts). */
module Risk {
  import opened Common
  import opened Signal
  import opened Positions

  const MaxShortTrades: nat := 15
  const MaxLongTrades: nat := 2

  /** Neither skip of the gate fires: a sell is skipped once the short count
      has reached its cap, a buy once the long count has reached its cap. */
  function WithinCaps(side: Option<Side>, counts: Counts): (ok: bool)
    ensures side == Some(Sell) ==> (ok <==> counts.shortCount < MaxShortTrades)
    ensures side == Some(Buy) ==> (ok <==> counts.longCount < MaxLongTrades)
    ensures side == None ==> ok
  {
    !(counts.shortCount >= MaxShortTrades && side == Some(Sell))
    && !(counts.longCount >= MaxLongTrades && side == Some(Buy))
  }
}
