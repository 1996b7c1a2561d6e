/**
 * The records that flow through the agent: one per crypto asset (built by the
 * normaliser) and one per currency (built by the FX selection), and the field
 * selectors the mover detector is run with.
 */
module Records {
  import opened Wrappers

  /** `{"id", "price_usd", "pct_change_24h"}`. */
  datatype CryptoRecord = CryptoRecord(id: string, priceUsd: real, pctChange24h: real)

  /** `{"symbol", "rate_eur", "pct_change_1d", "date"}`. */
  datatype FxRecord = FxRecord(symbol: string, rateEur: real, pctChange1d: real, date: string)

  /** The `"pct_change_24h"` field of a crypto record; always present. */
  function CryptoPct(r: CryptoRecord): Option<real>
  {
    Some(r.pctChange24h)
  }

  /** The `"pct_change_1d"` field of an FX record; always present. */
  function FxPct(r: FxRecord): Option<real>
  {
    Some(r.pctChange1d)
  }
}
