/** The rows of the candle table, which both the stream consumer and the telemetry endpoint fill. */
module Candles {
  datatype Timeframe = M1 | M5 | M15 | H1 | Other(name: string)

  /** The unique key of a candle; the timestamp counts microseconds since the epoch, in UTC. */
  datatype BarKey = BarKey(source: string, symbol: string, timeframe: Timeframe, timestamp: int)

  datatype Candle = Candle(open: real, high: real, low: real, close: real, volume: real)

  predicate Sound(c: Candle) {
    && c.open > 0.0 && c.high > 0.0 && c.low > 0.0 && c.close > 0.0 && c.volume >= 0.0
    && c.high >= c.open && c.high >= c.close && c.high >= c.low
    && c.low <= c.open && c.low <= c.close
  }
}
