/** The decision part of `check_trade_signal`, identical in main.py and
    take_trade.py: a trend label from the two EMAs and a (should_trade, side)
    verdict from fixed volatility and RSI thresholds. The indicator values
    themselves (pandas EMA, the ATR and RSI of the `ta` library) are inputs. */
module Signal {
  import opened Common

  /** Latest values of the indicators over one symbol's recent candles. */
  datatype Indicators = Indicators(
    ema9: real,           // EMA(9) of the close, latest bar
    ema21: real,          // EMA(21) of the close, latest bar
    normalizedAtr: real,  // latest ATR(10) divided by the latest close
    rsiNow: real)         // latest RSI(10)

  datatype Trend = Uptrend | Downtrend | Sideways

  /** The order side, Python's 'buy' / 'sell'. */
  datatype Side = Buy | Sell

  /** The triple returned by `check_trade_signal`, keeping from the details
      dict only the trend label that the caller reads. */
  datatype Verdict = Verdict(shouldTrade: bool, side: Option<Side>, trend: Trend)

  const VolatilityFloor: real := 0.015
  const Oversold: real := 30.0
  const Overbought: real := 70.0

  function TrendOf(ema9: real, ema21: real): (t: Trend)
    ensures t == Uptrend <==> ema9 > ema21
    ensures t == Downtrend <==> ema9 < ema21
    ensures t == Sideways <==> ema9 == ema21
  {
    if ema9 > ema21 then Uptrend
    else if ema9 < ema21 then Downtrend
    else Sideways
  }

  function Evaluate(ind: Indicators): (v: Verdict)
    ensures v.trend == TrendOf(ind.ema9, ind.ema21)
    ensures v.shouldTrade <==> v.side.Some?
    ensures v.side == Some(Buy) <==>
      ind.normalizedAtr > VolatilityFloor && ind.ema9 < ind.ema21 && ind.rsiNow <= Oversold
    ensures v.side == Some(Sell) <==>
      ind.normalizedAtr > VolatilityFloor && ind.ema9 > ind.ema21 && ind.rsiNow >= Overbought
  {
    var trend := TrendOf(ind.ema9, ind.ema21);
    if ind.normalizedAtr > VolatilityFloor then
      if trend == Downtrend && ind.rsiNow <= Oversold then Verdict(true, Some(Buy), trend)
      else if trend == Uptrend && ind.rsiNow >= Overbought then Verdict(true, Some(Sell), trend)
      else Verdict(false, None, trend)
    else Verdict(false, None, trend)
  }

  /** The three RSI zones of the case table. */
  datatype RsiZone = OversoldZone | NeutralZone | OverboughtZone

  function ZoneOf(rsi: real): RsiZone {
    if rsi <= Oversold then OversoldZone
    else if rsi >= Overbought then OverboughtZone
    else NeutralZone
  }

  /** Of the 3 trends x 3 RSI zones x 2 volatility states, exactly two
      combinations trade: oversold in a downtrend buys, overbought in an
      uptrend sells, both only above the volatility floor. */
  lemma CaseTable(ind: Indicators)
    ensures var v := Evaluate(ind);
      var t := TrendOf(ind.ema9, ind.ema21);
      var z := ZoneOf(ind.rsiNow);
      && (v.side == Some(Buy) <==> ind.normalizedAtr > VolatilityFloor && t == Downtrend && z == OversoldZone)
      && (v.side == Some(Sell) <==> ind.normalizedAtr > VolatilityFloor && t == Uptrend && z == OverboughtZone)
      && (!v.shouldTrade <==> v.side == None)
  {
  }

  /** A signal survives higher volatility and a more extreme RSI reading. */
  lemma SignalMonotone(ind: Indicators, atr: real, rsi: real)
    requires Evaluate(ind).shouldTrade && atr >= ind.normalizedAtr
    requires Evaluate(ind).side == Some(Buy) ==> rsi <= ind.rsiNow
    requires Evaluate(ind).side == Some(Sell) ==> rsi >= ind.rsiNow
    ensures Evaluate(ind.(normalizedAtr := atr, rsiNow := rsi)).side == Evaluate(ind).side
  {
  }
}
