/** The wick-to-body test shared by the three manipulation filters
    (main.py `manip_check`, manipulation_filter.py, screening/manipulationfilter.py):
    a candle is anomalous when its upper plus lower shadow exceeds a multiple
    of its body. The filters differ only in the constant added to the body,
    the threshold and how the count is judged. */
module WickAnomaly {
  import opened Common
  import opened Candles

  /** The positive constant added to the body so that a flat candle divides
      by something non-zero. */
  type Epsilon = x: real | x > 0.0 witness 1.0

  /** The two shadows together: high above the body plus low below it. */
  function Shadows(c: Candle): real {
    (c.high - Max(c.open, c.close)) + (Min(c.open, c.close) - c.low)
  }

  /** (upper shadow + lower shadow) / (|close - open| + eps). On a candle
      whose high and low enclose its open and close the ratio is never
      negative. */
  function WickRatio(c: Candle, eps: Epsilon): (r: real)
    ensures c.low <= Min(c.open, c.close) && Max(c.open, c.close) <= c.high ==> r >= 0.0
  {
    Shadows(c) / (Abs(c.close - c.open) + eps)
  }

  predicate Anomalous(c: Candle, eps: Epsilon, threshold: real) {
    WickRatio(c, eps) > threshold
  }

  /** Without the division: a candle is anomalous exactly when its shadows
      outweigh `threshold` times its padded body. */
  lemma AnomalousMeansShadowsOutweighBody(c: Candle, eps: Epsilon, threshold: real)
    ensures Anomalous(c, eps, threshold) <==> Shadows(c) > threshold * (Abs(c.close - c.open) + eps)
  {
    var d := Abs(c.close - c.open) + eps;
    var r := WickRatio(c, eps);
    assert r * d == Shadows(c);
    if r > threshold {
      assert r * d > threshold * d;
    } else {
      assert r * d <= threshold * d;
    }
  }

  /** `(ratio > threshold).sum()`. */
  function AnomalyCount(cs: seq<Candle>, eps: Epsilon, threshold: real): (n: nat)
    ensures n <= |cs|
  {
    if cs == [] then 0
    else AnomalyCount(cs[..|cs| - 1], eps, threshold) + (if Anomalous(cs[|cs| - 1], eps, threshold) then 1 else 0)
  }

  /** The positions of the anomalous candles. */
  ghost function AnomalousBars(cs: seq<Candle>, eps: Epsilon, threshold: real): set<int> {
    set i | 0 <= i < |cs| && Anomalous(cs[i], eps, threshold)
  }

  /** The running count is the number of anomalous positions. */
  lemma {:induction false} AnomalyCountIsBarCount(cs: seq<Candle>, eps: Epsilon, threshold: real)
    ensures AnomalyCount(cs, eps, threshold) == |AnomalousBars(cs, eps, threshold)|
    decreases |cs|
  {
    if cs != [] {
      var front := cs[..|cs| - 1];
      AnomalyCountIsBarCount(front, eps, threshold);
      var last := |cs| - 1;
      if Anomalous(cs[last], eps, threshold) {
        assert AnomalousBars(cs, eps, threshold) == AnomalousBars(front, eps, threshold) + {last};
      } else {
        assert AnomalousBars(cs, eps, threshold) == AnomalousBars(front, eps, threshold);
      }
    }
  }

  /** Counting distributes over concatenation. */
  lemma {:induction false} AnomalyCountAppend(a: seq<Candle>, b: seq<Candle>, eps: Epsilon, threshold: real)
    ensures AnomalyCount(a + b, eps, threshold) == AnomalyCount(a, eps, threshold) + AnomalyCount(b, eps, threshold)
    decreases |b|
  {
    if b != [] {
      var front := b[..|b| - 1];
      assert (a + b)[..|a + b| - 1] == a + front;
      AnomalyCountAppend(a, front, eps, threshold);
    } else {
      assert a + b == a;
    }
  }

  function Repeat(c: Candle, n: nat): (cs: seq<Candle>)
    ensures |cs| == n && forall i :: 0 <= i < n ==> cs[i] == c
  {
    seq(n, _ => c)
  }

  /** n copies of one candle hold n anomalies or none. */
  lemma {:induction false} AnomalyCountRepeat(c: Candle, n: nat, eps: Epsilon, threshold: real)
    ensures AnomalyCount(Repeat(c, n), eps, threshold) == if Anomalous(c, eps, threshold) then n else 0
    decreases n
  {
    if n > 0 {
      assert Repeat(c, n)[..n - 1] == Repeat(c, n - 1);
      AnomalyCountRepeat(c, n - 1, eps, threshold);
    }
  }
}
