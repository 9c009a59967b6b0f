/** `UniverseFilter.get_symbols` (universe_filter.py): the eligible swaps of
    OKX's 24h ticker list, in the order the exchange lists them, at most 200;
    fixed fallback lists on an API error code or an exception. The HTTP
    request is left out: its outcome is the input. */
module UniverseFilter {
  import opened Common
  import opened PySeq
  import opened Symbols

  /** One ticker of the response: `volCcy24h` may be absent. */
  datatype TickerRow = TickerRow(instId: string, volCcy24h: Option<real>)

  /** What the request produced: a decoded response, or an exception raised
      while fetching or reading it. */
  datatype TickerResponse = Responded(code: string, data: seq<TickerRow>) | Raised

  const DefaultMinVolumeUsd: real := 5000000.0

  /** `symbols[:200]`. */
  const UniverseCap: nat := 200

  /** The list returned when the API answers with a non-zero code. */
  const ApiErrorFallback: seq<string> := ["BTC-USDT-SWAP", "ETH-USDT-SWAP", "SOL-USDT-SWAP", "BNB-USDT-SWAP"]

  /** The list returned when anything raises. */
  const ExceptionFallback: seq<string> := ["ETH-USDT-SWAP", "SOL-USDT-SWAP", "BNB-USDT-SWAP", "XRP-USDT-SWAP"]

  /** `float(ticker.get('volCcy24h', 0))`. */
  function RowVolume(row: TickerRow): real {
    row.volCcy24h.GetOr(0.0)
  }

  /** The loop at universe_filter.py:18-27: eligible rows' symbols, in order. */
  function Matching(rows: seq<TickerRow>, minVol: real): (r: seq<string>)
    ensures |r| <= |rows|
    ensures forall s :: s in r ==> exists row :: row in rows && row.instId == s && Eligible(s, RowVolume(row), minVol)
    ensures forall row :: row in rows && Eligible(row.instId, RowVolume(row), minVol) ==> row.instId in r
  {
    if rows == [] then []
    else
      var rest := Matching(rows[1..], minVol);
      assert forall row :: row in rows ==> row == rows[0] || row in rows[1..];
      if Eligible(rows[0].instId, RowVolume(rows[0]), minVol) then [rows[0].instId] + rest else rest
  }

  /** Matching distributes over concatenation: the filter keeps the
      exchange's order and judges each row on its own. */
  lemma {:induction false} MatchingAppend(a: seq<TickerRow>, b: seq<TickerRow>, minVol: real)
    ensures Matching(a + b, minVol) == Matching(a, minVol) + Matching(b, minVol)
  {
    if a == [] {
      assert a + b == b;
    } else {
      assert (a + b)[1..] == a[1..] + b;
      MatchingAppend(a[1..], b, minVol);
    }
  }

  /** `get_symbols`. */
  function GetSymbols(resp: TickerResponse, minVol: real): (r: seq<string>)
    ensures resp.Raised? ==> r == ExceptionFallback
    ensures resp.Responded? && resp.code != "0" ==> r == ApiErrorFallback
    ensures resp.Responded? && resp.code == "0" ==>
              && |r| <= UniverseCap
              && (forall s :: s in r ==> exists row :: row in resp.data && row.instId == s && Eligible(s, RowVolume(row), minVol))
              && (|Matching(resp.data, minVol)| <= UniverseCap ==>
                    forall row :: row in resp.data && Eligible(row.instId, RowVolume(row), minVol) ==> row.instId in r)
              && r == Matching(resp.data, minVol)[..if |Matching(resp.data, minVol)| < UniverseCap
                                                    then |Matching(resp.data, minVol)| else UniverseCap]
  {
    match resp
    case Raised => ExceptionFallback
    case Responded(code, data) =>
      if code != "0" then ApiErrorFallback
      else
        var all := Matching(data, minVol);
        var r := Prefix(all, UniverseCap as int);
        assert forall s :: s in r ==> s in all;
        r
  }

  /** `get_symbols()` with its default floor of 5,000,000 in 24h volume: a
      successful answer only names swaps that traded more than that. */
  function GetSymbolsDefault(resp: TickerResponse): (r: seq<string>)
    ensures resp.Responded? && resp.code == "0" ==>
              forall s :: s in r ==> exists row :: row in resp.data && row.instId == s && RowVolume(row) > 5000000.0
  {
    GetSymbols(resp, DefaultMinVolumeUsd)
  }

  /** The cap keeps the first 200 matches, not the 200 largest: once the rows
      so far have produced 200 matches, later rows cannot change the answer,
      whatever their volume. */
  lemma LaterRowsNeverDisplace(a: seq<TickerRow>, b: seq<TickerRow>, minVol: real)
    requires |Matching(a, minVol)| >= UniverseCap
    ensures GetSymbols(Responded("0", a + b), minVol) == GetSymbols(Responded("0", a), minVol)
  {
    MatchingAppend(a, b, minVol);
    var ma := Matching(a, minVol);
    assert (ma + Matching(b, minVol))[..UniverseCap] == ma[..UniverseCap];
  }

  /** The API-error list still contains BTC, which every successful answer
      excludes; the exception list does not. */
  lemma FallbacksDisagreeOnBtc(resp: TickerResponse, minVol: real)
    requires resp.Responded? && resp.code == "0"
    ensures "BTC-USDT-SWAP" in ApiErrorFallback
    ensures "BTC-USDT-SWAP" !in GetSymbols(resp, minVol)
    ensures forall s :: s in ExceptionFallback ==> !Contains(s, Excluded)
  {
    var btc := "BTC-USDT-SWAP";
    assert OccursAt(btc, Excluded, 0);
    forall s | s in ExceptionFallback
      ensures !Contains(s, Excluded)
    {
      assert forall k :: 0 <= k < |s| ==> s[k] != 'C';
      forall i | 0 <= i <= |s| - |Excluded|
        ensures !OccursAt(s, Excluded, i)
      {
        assert s[i..i + 3][2] == s[i + 2] != 'C';
      }
    }
  }
}
