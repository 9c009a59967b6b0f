/** The scanner's symbol universe (main.py): `get_dynamic_symbols` ranks the
    eligible instruments of the 24h volume cache by volume and keeps the top
    `MAX_SYMBOLS`; `OKXShortBot.__init__` cuts that list into the FVG, TREND
    and COMBO buckets. */
module BotUniverse {
  import opened Common
  import opened PySeq
  import opened Symbols

  /** One entry of the volume cache. The cache is a dict; it is given here as
      its entries in insertion order. */
  datatype Ticker = Ticker(symbol: string, volume: real)

  /** The list comprehension at main.py:65, in cache order. */
  function Qualifying(vols: seq<Ticker>, minVol: real): (r: seq<Ticker>)
    ensures forall t :: t in r ==> t in vols && Eligible(t.symbol, t.volume, minVol)
    ensures forall t :: t in vols && Eligible(t.symbol, t.volume, minVol) ==> t in r
    ensures multiset(r) <= multiset(vols)
  {
    if vols == [] then []
    else
      var rest := Qualifying(vols[1..], minVol);
      assert forall t :: t in vols ==> t == vols[0] || t in vols[1..];
      assert vols == [vols[0]] + vols[1..];
      if Eligible(vols[0].symbol, vols[0].volume, minVol) then [vols[0]] + rest else rest
  }

  /** The comprehension keeps a single entry exactly when it is eligible ... */
  lemma QualifyingSingle(t: Ticker, minVol: real)
    ensures Qualifying([t], minVol) == if Eligible(t.symbol, t.volume, minVol) then [t] else []
  {
    assert [t][1..] == [];
  }

  /** ... and filters a concatenation piecewise, so it keeps each eligible
      entry once, in cache order. */
  lemma {:induction false} QualifyingAppend(a: seq<Ticker>, b: seq<Ticker>, minVol: real)
    ensures Qualifying(a + b, minVol) == Qualifying(a, minVol) + Qualifying(b, minVol)
  {
    if a == [] {
      assert a + b == b;
    } else {
      assert (a + b)[1..] == a[1..] + b;
      QualifyingAppend(a[1..], b, minVol);
    }
  }

  /** Every entry of a occurs in b at least as often as in a. */
  predicate Submultiset(a: seq<Ticker>, b: seq<Ticker>) {
    multiset(a) <= multiset(b)
  }

  predicate NonIncreasing(ts: seq<Ticker>) {
    forall i, j :: 0 <= i < j < |ts| ==> ts[i].volume >= ts[j].volume
  }

  /** Insert t before the first entry whose volume does not exceed its own, so
      that among equal volumes earlier entries stay first. */
  function Insert(t: Ticker, sorted: seq<Ticker>): seq<Ticker> {
    if sorted == [] || sorted[0].volume <= t.volume then [t] + sorted
    else [sorted[0]] + Insert(t, sorted[1..])
  }

  /** Insertion adds exactly the new entry, which lands first unless the
      old head outranks it. */
  lemma {:induction false} InsertAddsEntry(t: Ticker, sorted: seq<Ticker>)
    ensures var r := Insert(t, sorted);
            && multiset(r) == multiset(sorted) + multiset{t}
            && r != [] && (r[0] == t || (sorted != [] && r[0] == sorted[0]))
  {
    if sorted != [] && sorted[0].volume > t.volume {
      assert sorted == [sorted[0]] + sorted[1..];
      InsertAddsEntry(t, sorted[1..]);
    }
  }

  /** Insertion keeps a ranking ranked. */
  lemma {:induction false} InsertKeepsRanking(t: Ticker, sorted: seq<Ticker>)
    requires NonIncreasing(sorted)
    ensures NonIncreasing(Insert(t, sorted))
  {
    if sorted == [] || sorted[0].volume <= t.volume {
      ConsNonIncreasing(t, sorted);
    } else {
      var tail := sorted[1..];
      assert NonIncreasing(tail) by {
        forall i, j | 0 <= i < j < |tail|
          ensures tail[i].volume >= tail[j].volume
        {
          assert tail[i] == sorted[i + 1] && tail[j] == sorted[j + 1];
        }
      }
      InsertKeepsRanking(t, tail);
      InsertAddsEntry(t, tail);
      ConsNonIncreasing(sorted[0], Insert(t, tail));
    }
  }

  /** A non-increasing list stays so behind a head at least its first volume. */
  lemma ConsNonIncreasing(head: Ticker, rest: seq<Ticker>)
    requires NonIncreasing(rest)
    requires rest != [] ==> head.volume >= rest[0].volume
    ensures NonIncreasing([head] + rest)
  {
    var s := [head] + rest;
    forall i, j | 0 <= i < j < |s|
      ensures s[i].volume >= s[j].volume
    {
      if i == 0 {
        assert rest[0].volume >= rest[j - 1].volume;
      }
    }
  }

  /** `sorted(..., key=volume, reverse=True)`. */
  function SortByVolumeDesc(ts: seq<Ticker>): (r: seq<Ticker>)
    ensures NonIncreasing(r)
    ensures multiset(r) == multiset(ts)
  {
    if ts == [] then []
    else
      assert ts == [ts[0]] + ts[1..];
      var rest := SortByVolumeDesc(ts[1..]);
      InsertKeepsRanking(ts[0], rest);
      InsertAddsEntry(ts[0], rest);
      Insert(ts[0], rest)
  }

  /** The ranked, truncated entries behind `get_dynamic_symbols`. */
  function RankedTickers(vols: seq<Ticker>, minVol: real, maxSymbols: int): seq<Ticker> {
    Prefix(SortByVolumeDesc(Qualifying(vols, minVol)), maxSymbols)
  }

  /** The symbol column of a list of entries. */
  function SymbolsOf(ts: seq<Ticker>): (r: seq<string>)
    ensures |r| == |ts|
    ensures forall k :: 0 <= k < |r| ==> r[k] == ts[k].symbol
  {
    if ts == [] then [] else [ts[0].symbol] + SymbolsOf(ts[1..])
  }

  /** Some eligible cache entry carries this symbol. */
  predicate ListedEligible(vols: seq<Ticker>, symbol: string, minVol: real) {
    exists t :: t in vols && t.symbol == symbol && Eligible(symbol, t.volume, minVol)
  }

  /** `get_dynamic_symbols`: the symbols of the ranked entries. Each is the
      symbol of an eligible cache entry, the entries behind them are kept no
      more often than the cache holds them, and there are as many as
      `MAX_SYMBOLS` allows, or every eligible one when there are fewer. */
  function DynamicSymbols(vols: seq<Ticker>, minVol: real, maxSymbols: int): (r: seq<string>)
    ensures |r| == |RankedTickers(vols, minVol, maxSymbols)|
    ensures forall k :: 0 <= k < |r| ==> r[k] == RankedTickers(vols, minVol, maxSymbols)[k].symbol
    ensures forall k :: 0 <= k < |r| ==> ListedEligible(vols, r[k], minVol)
    ensures maxSymbols >= 0 ==>
              |r| == if maxSymbols < |Qualifying(vols, minVol)| then maxSymbols else |Qualifying(vols, minVol)|
    ensures Submultiset(RankedTickers(vols, minVol, maxSymbols), Qualifying(vols, minVol))
  {
    var ranked := RankedTickers(vols, minVol, maxSymbols);
    var r := SymbolsOf(ranked);
    assert forall k :: 0 <= k < |r| ==> ListedEligible(vols, r[k], minVol) by {
      RankedAreEligibleEntries(vols, minVol, maxSymbols);
      forall k | 0 <= k < |r|
        ensures ListedEligible(vols, r[k], minVol)
      {
        assert ranked[k] in ranked;
      }
    }
    assert maxSymbols >= 0 ==>
             |r| == if maxSymbols < |Qualifying(vols, minVol)| then maxSymbols else |Qualifying(vols, minVol)| by {
      RankedSize(vols, minVol, maxSymbols);
    }
    assert Submultiset(ranked, Qualifying(vols, minVol)) by {
      RankedWithinQualifying(vols, minVol, maxSymbols);
    }
    r
  }

  /** Every returned entry is an eligible cache entry; there are exactly
      min(`MAX_SYMBOLS`, number eligible) of them, in non-increasing volume
      order; and they are the top of the ranking: an eligible entry left out
      has no more volume than any entry kept. */
  lemma DynamicSymbolsAreTopEligible(vols: seq<Ticker>, minVol: real, maxSymbols: int)
    ensures var r := RankedTickers(vols, minVol, maxSymbols);
            && (forall t :: t in r ==> t in vols && Eligible(t.symbol, t.volume, minVol))
            && multiset(r) <= multiset(Qualifying(vols, minVol))
            && (maxSymbols >= 0 ==>
                  |r| == if maxSymbols < |Qualifying(vols, minVol)| then maxSymbols else |Qualifying(vols, minVol)|)
            && NonIncreasing(r)
            && (forall t, k :: t in Qualifying(vols, minVol) && t !in r && 0 <= k < |r| ==> r[k].volume >= t.volume)
  {
    var q := Qualifying(vols, minVol);
    PrefixOfRanking(q, SortByVolumeDesc(q), RankedTickers(vols, minVol, maxSymbols));
    RankedWithinQualifying(vols, minVol, maxSymbols);
    RankedSize(vols, minVol, maxSymbols);
  }

  /** The ranked entries are eligible cache entries ... */
  lemma RankedAreEligibleEntries(vols: seq<Ticker>, minVol: real, maxSymbols: int)
    ensures forall t :: t in RankedTickers(vols, minVol, maxSymbols) ==> t in vols && Eligible(t.symbol, t.volume, minVol)
  {
    var q := Qualifying(vols, minVol);
    PrefixOfRanking(q, SortByVolumeDesc(q), RankedTickers(vols, minVol, maxSymbols));
  }

  /** ... each kept no more often than the comprehension keeps it. */
  lemma RankedWithinQualifying(vols: seq<Ticker>, minVol: real, maxSymbols: int)
    ensures multiset(RankedTickers(vols, minVol, maxSymbols)) <= multiset(Qualifying(vols, minVol))
  {
    var sorted := SortByVolumeDesc(Qualifying(vols, minVol));
    var r := RankedTickers(vols, minVol, maxSymbols);
    assert sorted == r + sorted[|r|..];
  }

  /** The ranking keeps min(`MAX_SYMBOLS`, number eligible) entries. */
  lemma RankedSize(vols: seq<Ticker>, minVol: real, maxSymbols: int)
    ensures var r := RankedTickers(vols, minVol, maxSymbols);
            maxSymbols >= 0 ==>
              |r| == if maxSymbols < |Qualifying(vols, minVol)| then maxSymbols else |Qualifying(vols, minVol)|
  {
    var q := Qualifying(vols, minVol);
    var sorted := SortByVolumeDesc(q);
    assert |multiset(sorted)| == |multiset(q)|;
  }

  /** A prefix of a non-increasing permutation of q holds only members of q,
      is itself non-increasing, and beats every member of q it leaves out. */
  lemma PrefixOfRanking(q: seq<Ticker>, sorted: seq<Ticker>, r: seq<Ticker>)
    requires NonIncreasing(sorted) && multiset(sorted) == multiset(q)
    requires |r| <= |sorted| && r == sorted[..|r|]
    ensures forall t :: t in r ==> t in q
    ensures NonIncreasing(r)
    ensures forall t, k :: t in q && t !in r && 0 <= k < |r| ==> r[k].volume >= t.volume
  {
    forall t | t in r
      ensures t in q
    {
      assert t in multiset(sorted);
    }
    forall t, k | t in q && t !in r && 0 <= k < |r|
      ensures r[k].volume >= t.volume
    {
      assert t in multiset(q);
      assert t in sorted;
      var p :| 0 <= p < |sorted| && sorted[p] == t;
      assert forall p' :: 0 <= p' < |r| ==> sorted[p'] != t;
    }
  }

  /** The three strategy buckets. */
  datatype Buckets = Buckets(fvg: seq<string>, trend: seq<string>, combo: seq<string>)

  /** `OKXShortBot.__init__`: `int(n * pct)` symbols to FVG, the next
      `int(n * pct)` to TREND, the remainder to COMBO. */
  function Partition(all: seq<string>, fvgPct: real, trendPct: real): Buckets {
    var f := Share(|all|, fvgPct);
    var t := Share(|all|, trendPct);
    Buckets(Prefix(all, f), Slice(all, f, f + t), Suffix(all, f + t))
  }

  /** `int(n * pct)`: a bucket's size. */
  function Share(n: nat, pct: real): (k: int)
    ensures pct >= 0.0 ==> 0 <= k && k as real <= n as real * pct < k as real + 1.0
  {
    assert pct >= 0.0 ==> n as real * pct >= 0.0 by {
      if pct >= 0.0 {
        NonNegativeProduct(n as real, pct);
      }
    }
    Trunc(n as real * pct)
  }

  /** With non-negative shares the buckets are consecutive pieces of the list
      that together give it back, COMBO taking whatever the other two leave;
      when the shares add up to at most 1 the FVG and TREND buckets have
      exactly `int(n * pct)` symbols and COMBO has `combo_count`. */
  lemma PartitionSplitsInOrder(all: seq<string>, fvgPct: real, trendPct: real)
    requires fvgPct >= 0.0 && trendPct >= 0.0
    ensures var b := Partition(all, fvgPct, trendPct);
            && b.fvg + b.trend + b.combo == all
            && (fvgPct + trendPct <= 1.0 ==>
                  && |b.fvg| == Share(|all|, fvgPct)
                  && |b.trend| == Share(|all|, trendPct)
                  && |b.combo| == |all| - |b.fvg| - |b.trend|)
  {
    var n := |all|;
    var f, t := Share(n, fvgPct), Share(n, trendPct);
    ConsecutivePieces(all, f, f + t);
    if fvgPct + trendPct <= 1.0 {
      SharesFit(n, fvgPct, trendPct);
    }
  }

  /** Shares adding up to at most 1 never ask for more than the list holds. */
  lemma SharesFit(n: nat, p: real, q: real)
    requires p >= 0.0 && q >= 0.0 && p + q <= 1.0
    ensures Share(n, p) + Share(n, q) <= n
  {
    var x, y := n as real * p, n as real * q;
    assert x >= 0.0 && y >= 0.0 && x + y <= n as real by {
      NonNegativeProduct(n as real, p);
      NonNegativeProduct(n as real, q);
      ShareSum(n as real, p, q);
    }
    TruncSumFits(x, y, n);
  }

  /** Truncating two non-negative amounts that add up to at most n gives
      whole numbers that still add up to at most n. */
  lemma TruncSumFits(x: real, y: real, n: nat)
    requires x >= 0.0 && y >= 0.0 && x + y <= n as real
    ensures Trunc(x) + Trunc(y) <= n
  {
    assert Trunc(x) as real + Trunc(y) as real <= n as real;
  }

  /** Cutting at two bounds 0 <= a <= b gives three consecutive pieces whose
      concatenation is the list. */
  lemma ConsecutivePieces<T>(s: seq<T>, a: int, b: int)
    requires 0 <= a <= b
    ensures Prefix(s, a) + Slice(s, a, b) + Suffix(s, b) == s
    ensures b <= |s| ==> |Prefix(s, a)| == a && |Slice(s, a, b)| == b - a && |Suffix(s, b)| == |s| - b
  {
    var i, j := SliceBound(a, |s|), SliceBound(b, |s|);
    assert s[..i] + s[i..j] + s[j..] == s;
  }

  lemma NonNegativeProduct(a: real, b: real)
    requires a >= 0.0 && b >= 0.0
    ensures a * b >= 0.0
  {
  }

  lemma ShareSum(n: real, p: real, q: real)
    requires n >= 0.0 && p >= 0.0 && q >= 0.0 && p + q <= 1.0
    ensures n * p + n * q <= n
  {
    assert n * p + n * q == n * (p + q);
    assert n * (p + q) <= n * 1.0;
  }

  /** When the list has no repeated symbol, no symbol lands in two buckets. */
  lemma BucketsDisjoint(all: seq<string>, fvgPct: real, trendPct: real)
    requires fvgPct >= 0.0 && trendPct >= 0.0
    requires Distinct(all)
    ensures var b := Partition(all, fvgPct, trendPct);
            && (forall s :: s in b.fvg ==> s !in b.trend && s !in b.combo)
            && (forall s :: s in b.trend ==> s !in b.combo)
  {
    PartitionSplitsInOrder(all, fvgPct, trendPct);
    var b := Partition(all, fvgPct, trendPct);
    DistinctPiecesDisjoint(b.fvg, b.trend, b.combo);
  }

  predicate Distinct<T(==)>(w: seq<T>) {
    forall p, q :: 0 <= p < q < |w| ==> w[p] != w[q]
  }

  /** The pieces of a list without repetitions share no element. */
  lemma DistinctPiecesDisjoint<T>(x: seq<T>, y: seq<T>, z: seq<T>)
    requires Distinct(x + y + z)
    ensures forall s :: s in x ==> s !in y && s !in z
    ensures forall s :: s in y ==> s !in z
  {
    var w := x + y + z;
    forall s | s in x
      ensures s !in y && s !in z
    {
      var p :| 0 <= p < |x| && x[p] == s;
      assert w[p] == s;
      forall q | 0 <= q < |y|
        ensures y[q] != s
      {
        assert w[|x| + q] == y[q];
      }
      forall q | 0 <= q < |z|
        ensures z[q] != s
      {
        assert w[|x| + |y| + q] == z[q];
      }
    }
    forall s | s in y
      ensures s !in z
    {
      var p :| 0 <= p < |y| && y[p] == s;
      assert w[|x| + p] == s;
      forall q | 0 <= q < |z|
        ensures z[q] != s
      {
        assert w[|x| + |y| + q] == z[q];
      }
    }
  }
}
