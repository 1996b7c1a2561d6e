/**
 * `_normalise_crypto`: the price service's answer, a mapping from asset id to
 * its quoted fields, becomes a list of crypto records in the mapping's
 * iteration order. The mapping is a sequence of `(id, fields)` pairs so that
 * this order is explicit; a missing number defaults to 0.0.
 */
module Agent {
  import opened Wrappers
  import opened Records
  import Movers

  /** One entry of the raw answer: an asset id and its numeric fields (`"usd"`, `"usd_24h_change"`, ...). */
  type RawQuote = (string, map<string, real>)

  method NormaliseCrypto(raw: seq<RawQuote>) returns (items: seq<CryptoRecord>)
    ensures |items| == |raw|
    ensures forall i :: 0 <= i < |raw| ==> items[i].id == raw[i].0
    ensures forall i :: 0 <= i < |raw| ==>
      && ("usd" in raw[i].1 ==> items[i].priceUsd == raw[i].1["usd"])
      && ("usd" !in raw[i].1 ==> items[i].priceUsd == 0.0)
    ensures forall i :: 0 <= i < |raw| ==>
      && ("usd_24h_change" in raw[i].1 ==> items[i].pctChange24h == raw[i].1["usd_24h_change"])
      && ("usd_24h_change" !in raw[i].1 ==> items[i].pctChange24h == 0.0)
  {
    items := [];
    for i := 0 to |raw|
      invariant |items| == i
      invariant forall j :: 0 <= j < i ==> items[j] == CryptoRecord(
        raw[j].0, DictGet(raw[j].1, "usd", 0.0), DictGet(raw[j].1, "usd_24h_change", 0.0))
    {
      var (assetId, values) := raw[i];
      items := items + [CryptoRecord(assetId, DictGet(values, "usd", 0.0), DictGet(values, "usd_24h_change", 0.0))];
    }
  }

  /**
   * An asset quoted without a 24h change is normalised to a change of 0.0, so
   * at a positive threshold it is never reported as a crypto mover. The second
   * requires is the change clause of `NormaliseCrypto`'s postcondition, so any
   * `items` that `NormaliseCrypto(raw)` returns meets it.
   */
  lemma NoChangeNeverMoves(raw: seq<RawQuote>, items: seq<CryptoRecord>, i: nat, threshold: real, topN: int)
    requires |items| == |raw| && i < |raw|
    requires forall j :: 0 <= j < |raw| ==> "usd_24h_change" !in raw[j].1 ==> items[j].pctChange24h == 0.0
    requires "usd_24h_change" !in raw[i].1 && threshold > 0.0
    ensures items[i] !in Movers.TopMovers(items, CryptoPct, threshold, topN)
  {
    Movers.TopMoversSelection(items, CryptoPct, threshold, topN);
  }
}
