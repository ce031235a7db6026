/** GetCurrencyConversionRates and the price conversion of DisplayAssets. */
module Rates {
  import opened Wrappers

  /** The hard-coded table: value of one US dollar in each currency. */
  const RawRates: map<string, real> := map["USD" := 1.0, "EUR" := 0.85, "GBP" := 0.75, "SEK" := 8.5]

  const Currencies: set<string> := {"USD", "EUR", "GBP", "SEK"}

  lemma RawRatesArePositive(k: string)
    requires k in RawRates
    ensures RawRates[k] > 0.0
  {
  }

  /** The table rebased on `base`: every rate divided by the base's rate.
      Looking up a base that is not in the table throws KeyNotFoundException,
      given here as None. */
  function ConversionRates(base: string): (r: Option<map<string, real>>)
    ensures r.Some? <==> base in RawRates
    ensures r.Some? ==> r.value.Keys == Currencies
    ensures r.Some? ==> forall k :: k in r.value ==> r.value[k] * RawRates[base] == RawRates[k]
    ensures r.Some? ==> r.value[base] == 1.0
  {
    if base !in RawRates then None
    else
      RawRatesArePositive(base);
      Some(map k | k in RawRates :: RawRates[k] / RawRates[base])
  }

  /** Rebasing keeps every cross rate: the ratio of two entries does not
      depend on the base currency. */
  lemma RebasingKeepsCrossRates(base: string, a: string, b: string)
    requires base in RawRates && a in RawRates && b in RawRates
    ensures ConversionRates(base).value[a] / ConversionRates(base).value[b] == RawRates[a] / RawRates[b]
  {
  }

  /** The per-row factor: the table entry for the display currency, or 1 when
      the table has no such key. */
  function DisplayFactor(rates: map<string, real>, currency: string): (f: real) {
    if currency in rates then rates[currency] else 1.0
  }

  /** The converted price of one row. */
  function DisplayedPrice(price: real, rates: map<string, real>, currency: string): (p: real)
    ensures currency in rates ==> p == price * rates[currency]
    ensures currency !in rates ==> p == price
  {
    price * DisplayFactor(rates, currency)
  }

  /** With a table rebased on any known currency, the displayed price in a
      known currency is the stored price converted at the raw rates: times
      the display currency's rate, divided by the base's rate. */
  lemma DisplayedPriceConverts(price: real, base: string, currency: string)
    requires base in RawRates && currency in RawRates
    ensures DisplayedPrice(price, ConversionRates(base).value, currency) * RawRates[base]
            == price * RawRates[currency]
  {
    var t := ConversionRates(base).value;
    assert t[currency] * RawRates[base] == RawRates[currency];
    assert price * t[currency] * RawRates[base] == price * (t[currency] * RawRates[base]);
  }

  /** Main builds the table from the currency it displays in, so every price
      is shown as stored. */
  lemma SameCurrencyShowsStoredPrice(price: real, currency: string)
    requires ConversionRates(currency).Some?
    ensures DisplayedPrice(price, ConversionRates(currency).value, currency) == price
  {
  }
}
