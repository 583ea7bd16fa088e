/**
 * The price cache as the dashboard keeps it: two variables, the cached record and the time it
 * was stored, read and overwritten by the price lookup. The lookup is proved to do exactly what
 * `Pricing.Lookup` describes, so the lemmas proved there (hit leaves everything alone, a miss
 * refills the slot, one fetch per 300 s window) hold of it.
 */
module Cache {
  import opened Common
  import opened Pricing

  class PriceCache {
    var cachedPrice: Option<PriceEntry>
    var cacheTimestamp: real

    /** The cache as a value. */
    function State(): CacheState
      reads this
    {
      CacheState(cachedPrice, cacheTimestamp)
    }

    /** Nothing cached, timestamp 0. */
    constructor ()
      ensures State() == EmptyCache
    {
      cachedPrice := None;
      cacheTimestamp := 0.0;
    }

    /** The price lookup at time `now`. The provider outcomes are what the primary source, the
        secondary source and the rate service would answer if asked; on a hit they are not used. */
    method GetCurrentPrice(now: real, providers: Providers, lang: Lang) returns (entry: PriceEntry)
      modifies this
      ensures (State(), entry) == Lookup(old(State()), now, providers, lang)
      ensures IsHit(old(State()), now) ==>
        entry == old(cachedPrice).value && cachedPrice == old(cachedPrice) && cacheTimestamp == old(cacheTimestamp)
      ensures !IsHit(old(State()), now) ==>
        cachedPrice == Some(entry) && cacheTimestamp == now && entry == Fetch(providers, lang)
    {
      if cachedPrice.Some? && now - cacheTimestamp < CacheDuration {
        return cachedPrice.value;
      }

      var usdPerOunce: real;
      match providers.primary {
        case Some(close) =>
          usdPerOunce := close;
        case None =>
          var fallback := SecondaryUsd(providers.secondary);
          if fallback.Some? {
            usdPerOunce := fallback.value;
          } else {
            usdPerOunce := DefaultUsdPerOunce;
          }
      }

      assert usdPerOunce == SpotPrice(providers.primary, providers.secondary).usdPerOunce;
      var egpRate := ExchangeRate(providers.rates);
      var egpPerGram := EgpPerGram21k(usdPerOunce, egpRate);
      cachedPrice := Some(PriceEntry(usdPerOunce, egpPerGram, lang));
      cacheTimestamp := now;
      entry := cachedPrice.value;
    }
  }
}
