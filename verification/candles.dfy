/** The candle record every detector reads. The source's data frames name the
    columns either `o/h/l/c` or `open/high/low/close`; both are this record. */
module Candles {

  datatype Candle = Candle(ts: int, open: real, high: real, low: real, close: real, volume: real)

  /** The `high` column. */
  function Highs(c: seq<Candle>): (h: seq<real>)
    ensures |h| == |c|
    ensures forall i :: 0 <= i < |c| ==> h[i] == c[i].high
  {
    seq(|c|, i requires 0 <= i < |c| => c[i].high)
  }

  /** The `low` column. */
  function Lows(c: seq<Candle>): (l: seq<real>)
    ensures |l| == |c|
    ensures forall i :: 0 <= i < |c| ==> l[i] == c[i].low
  {
    seq(|c|, i requires 0 <= i < |c| => c[i].low)
  }

  /** `df['c'].iloc[-1]`: the most recent close. */
  function LastClose(c: seq<Candle>): real
    requires |c| > 0
  {
    c[|c| - 1].close
  }
}
