/**
 * The price pipeline of the dashboard: the USD to EGP exchange rate with its fallback, the spot
 * price of gold in USD per troy ounce with its primary -> secondary -> constant fallback chain,
 * the conversion to EGP per gram of 21-karat gold, and the single-slot cache with a 300-second
 * lifetime, written as functions of an explicit cache state. The class in module Cache runs the
 * same cache step by step and is proved against `Lookup` below.
 */
module Pricing {
  import opened Common
  import Text

  /** Grams in one troy ounce. */
  const TroyOunceGrams: real := 31.1035
  /** Share of pure gold in 21-karat gold (21/24). */
  const Purity21k: real := 0.875
  /** Spot price used when both quote sources fail, in USD per troy ounce. */
  const DefaultUsdPerOunce: real := 2000.0
  /** Exchange rate used when the rate service fails, in EGP per USD. */
  const DefaultEgpPerUsd: real := 47.5
  /** Lifetime of a cached price, in seconds. */
  const CacheDuration: real := 300.0

  /** Key of the EGP rate inside `conversion_rates`. */
  const EgpCode: string := "EGP"
  /** Key of the rate inside the "Realtime Currency Exchange Rate" object of the secondary source. */
  const RateField: string := "5. Exchange Rate"

  // ---------------------------------------------------------------------------------------------
  // Exchange rate

  /** What the exchange-rate service gave back. `RateRequestFailed` covers a transport error, a
      non-2xx status and a body that is not JSON; `RateBody` carries the `conversion_rates` object
      when the key is present. */
  datatype RateResponse =
    | RateRequestFailed
    | RateBody(conversionRates: Option<map<string, real>>)

  /** The rate lookup exactly as written: `None` stands for the KeyError that escapes when
      `conversion_rates` is present but has no "EGP" entry, since the handler catches only request
      and JSON errors. */
  function ExchangeRateAsWritten(resp: RateResponse): (r: Option<real>)
    ensures r.None? <==> resp.RateBody? && resp.conversionRates.Some? && EgpCode !in resp.conversionRates.value
  {
    match resp
    case RateRequestFailed => Some(DefaultEgpPerUsd)
    case RateBody(None) => Some(DefaultEgpPerUsd)
    case RateBody(Some(rates)) => if EgpCode in rates then Some(rates[EgpCode]) else None
  }

  /** A body in which `conversion_rates` exists and carries an EGP rate. */
  predicate HasEgpRate(resp: RateResponse) {
    resp.RateBody? && resp.conversionRates.Some? && EgpCode in resp.conversionRates.value
  }

  /** The rate lookup with every failure, the missing "EGP" entry included, ending in 47.5. */
  function ExchangeRate(resp: RateResponse): (r: real)
    ensures HasEgpRate(resp) ==> r == resp.conversionRates.value[EgpCode]
    ensures !HasEgpRate(resp) ==> r == DefaultEgpPerUsd
  {
    if HasEgpRate(resp) then resp.conversionRates.value[EgpCode] else DefaultEgpPerUsd
  }

  /** The corrected lookup returns what the written one returns wherever that one returns. */
  lemma ExchangeRateAgrees(resp: RateResponse)
    ensures ExchangeRateAsWritten(resp).Some? ==> ExchangeRate(resp) == ExchangeRateAsWritten(resp).value
    ensures ExchangeRateAsWritten(resp).None? ==> ExchangeRate(resp) == DefaultEgpPerUsd
  {
  }

  /** A well-formed reply without an EGP entry makes the written lookup raise. */
  lemma MissingEgpRaisesAsWritten()
    ensures ExchangeRateAsWritten(RateBody(Some(map["USD" := 1.0]))).None?
    ensures ExchangeRate(RateBody(Some(map["USD" := 1.0]))) == DefaultEgpPerUsd
  {
  }

  // ---------------------------------------------------------------------------------------------
  // Spot price

  /** What the secondary quote source gave back. `QuoteRequestFailed` covers a transport error, a
      non-2xx status and a body that is not JSON; `QuoteBody` carries the "Realtime Currency
      Exchange Rate" object, field name to field text, when it is present. */
  datatype SecondaryQuote =
    | QuoteRequestFailed
    | QuoteBody(realtime: Option<map<string, string>>)

  /** The secondary source's price: present only when the object is there, holds the rate field
      and that field reads as a number. A missing key and an unreadable number both end in None. */
  function SecondaryUsd(q: SecondaryQuote): (r: Option<real>)
    ensures r.Some? <==>
      q.QuoteBody? && q.realtime.Some? && RateField in q.realtime.value
      && Text.ParseNumber(q.realtime.value[RateField]).Some?
    ensures r.Some? ==> r == Text.ParseNumber(q.realtime.value[RateField])
  {
    match q
    case QuoteRequestFailed => None
    case QuoteBody(None) => None
    case QuoteBody(Some(fields)) => if RateField in fields then Text.ParseNumber(fields[RateField]) else None
  }

  /** The three outcomes of one price lookup handed to the cache: the last close of the primary
      source (None when its history is empty or the call raised), the secondary source's reply and
      the exchange-rate reply. */
  datatype Providers = Providers(primary: Option<real>, secondary: SecondaryQuote, rates: RateResponse)

  /** Which stage of the fallback chain supplied the price; each later stage is announced to the
      user by a warning. */
  datatype QuoteStage = FromPrimary | FromSecondary | FromDefault

  datatype SpotQuote = SpotQuote(usdPerOunce: real, stage: QuoteStage)

  /** The fallback chain: the primary close when there is one, else the secondary quote when it
      reads, else 2000.0. It never fails. */
  function SpotPrice(primary: Option<real>, secondary: SecondaryQuote): (q: SpotQuote)
    ensures q.stage == FromPrimary <==> primary.Some?
    ensures q.stage == FromSecondary <==> primary.None? && SecondaryUsd(secondary).Some?
    ensures q.stage == FromPrimary ==> q.usdPerOunce == primary.value
    ensures q.stage == FromSecondary ==> Some(q.usdPerOunce) == SecondaryUsd(secondary)
    ensures q.stage == FromDefault ==> q.usdPerOunce == DefaultUsdPerOunce
  {
    match primary
    case Some(close) => SpotQuote(close, FromPrimary)
    case None =>
      match SecondaryUsd(secondary)
      case Some(usd) => SpotQuote(usd, FromSecondary)
      case None => SpotQuote(DefaultUsdPerOunce, FromDefault)
  }

  // ---------------------------------------------------------------------------------------------
  // Conversion to EGP per gram of 21K

  /** EGP per gram of 21-karat gold from USD per troy ounce of pure gold and EGP per USD. */
  function EgpPerGram21k(usdPerOunce: real, egpPerUsd: real): (p: real)
    ensures p * TroyOunceGrams == usdPerOunce * egpPerUsd * Purity21k
    ensures usdPerOunce > 0.0 && egpPerUsd > 0.0 ==> p > 0.0
  {
    (usdPerOunce * egpPerUsd / TroyOunceGrams) * Purity21k
  }

  /** The inverse conversion: the pure-gold USD price per ounce behind a 21K EGP price per gram. */
  function UsdPerOunceOf(egpPerGram: real, egpPerUsd: real): (u: real)
    requires egpPerUsd != 0.0
    ensures u * egpPerUsd * Purity21k == egpPerGram * TroyOunceGrams
  {
    egpPerGram * TroyOunceGrams / (egpPerUsd * Purity21k)
  }

  /** Converting a USD price and converting it back gives the USD price again, and the other way
      round: the conversion loses nothing for a non-zero rate. */
  lemma ConversionRoundTrip(usdPerOunce: real, egpPerGram: real, egpPerUsd: real)
    requires egpPerUsd != 0.0
    ensures UsdPerOunceOf(EgpPerGram21k(usdPerOunce, egpPerUsd), egpPerUsd) == usdPerOunce
    ensures EgpPerGram21k(UsdPerOunceOf(egpPerGram, egpPerUsd), egpPerUsd) == egpPerGram
  {
    var p := EgpPerGram21k(usdPerOunce, egpPerUsd);
    var u := UsdPerOunceOf(p, egpPerUsd);
    var k := egpPerUsd * Purity21k;
    assert k != 0.0;
    assert u * k == usdPerOunce * k;
    var u' := UsdPerOunceOf(egpPerGram, egpPerUsd);
    var p' := EgpPerGram21k(u', egpPerUsd);
    assert p' * TroyOunceGrams == egpPerGram * TroyOunceGrams;
  }

  /** The conversion is linear in the USD price: the EGP difference of two closes is the converted
      USD difference. */
  lemma ConversionOfDifference(today: real, yesterday: real, egpPerUsd: real)
    ensures EgpPerGram21k(today - yesterday, egpPerUsd) == EgpPerGram21k(today, egpPerUsd) - EgpPerGram21k(yesterday, egpPerUsd)
  {
    var a, b, d := EgpPerGram21k(today, egpPerUsd), EgpPerGram21k(yesterday, egpPerUsd), EgpPerGram21k(today - yesterday, egpPerUsd);
    assert d * TroyOunceGrams == (a - b) * TroyOunceGrams;
  }

  // ---------------------------------------------------------------------------------------------
  // The cached price and the cache

  /** The cached record: USD per ounce, EGP per gram of 21K, and the language its display text was
      rendered in. */
  datatype PriceEntry = PriceEntry(usdPerOunce: real, egpPerGram21k: real, lang: Lang)

  /** A fresh lookup through the fallback chain and the exchange rate. */
  function Fetch(p: Providers, lang: Lang): (e: PriceEntry)
    ensures e.usdPerOunce == SpotPrice(p.primary, p.secondary).usdPerOunce
    ensures e.egpPerGram21k * TroyOunceGrams == e.usdPerOunce * ExchangeRate(p.rates) * Purity21k
    ensures e.lang == lang
  {
    var usd := SpotPrice(p.primary, p.secondary).usdPerOunce;
    PriceEntry(usd, EgpPerGram21k(usd, ExchangeRate(p.rates)), lang)
  }

  /** The two globals of the cache: the cached record (None before the first lookup) and the time
      it was stored. */
  datatype CacheState = CacheState(slot: Option<PriceEntry>, stamp: real)

  const EmptyCache: CacheState := CacheState(None, 0.0)

  /** A lookup at `now` is served from the slot: a record is there and it is younger than 300 s. */
  predicate IsHit(s: CacheState, now: real) {
    s.slot.Some? && now - s.stamp < CacheDuration
  }

  /** One lookup: the record returned and the cache after it. */
  function Lookup(s: CacheState, now: real, p: Providers, lang: Lang): (r: (CacheState, PriceEntry))
    ensures IsHit(s, now) ==> r == (s, s.slot.value)
    ensures !IsHit(s, now) ==> r == (CacheState(Some(Fetch(p, lang)), now), Fetch(p, lang))
  {
    if IsHit(s, now) then (s, s.slot.value)
    else
      var e := Fetch(p, lang);
      (CacheState(Some(e), now), e)
  }

  /** On a hit the stored record comes back, the cache is untouched, and neither the providers nor
      the language are looked at: any other outcomes give the same result. */
  lemma HitLeavesCacheAlone(s: CacheState, now: real, p: Providers, q: Providers, lang: Lang, lang': Lang)
    requires IsHit(s, now)
    ensures Lookup(s, now, p, lang) == (s, s.slot.value)
    ensures Lookup(s, now, p, lang) == Lookup(s, now, q, lang')
  {
  }

  /** On a miss the slot is overwritten with a fresh record, converted from the fallback chain's
      price at the current rate, stamped with `now`; even the default price is cached. */
  lemma MissRefills(s: CacheState, now: real, p: Providers, lang: Lang)
    requires !IsHit(s, now)
    ensures var (s', e) := Lookup(s, now, p, lang);
      && s' == CacheState(Some(e), now)
      && e.usdPerOunce == SpotPrice(p.primary, p.secondary).usdPerOunce
      && e.egpPerGram21k == EgpPerGram21k(e.usdPerOunce, ExchangeRate(p.rates))
      && e.lang == lang
  {
  }

  /** After any lookup the slot holds the record just returned, so a price is always available. */
  lemma LookupFillsSlot(s: CacheState, now: real, p: Providers, lang: Lang)
    ensures Lookup(s, now, p, lang).0.slot == Some(Lookup(s, now, p, lang).1)
  {
  }

  /** A lookup made at least 300 s after the record was stored fetches again. */
  lemma ExpiredEntryRefetches(s: CacheState, now: real, p: Providers, lang: Lang)
    requires now - s.stamp >= CacheDuration
    ensures Lookup(s, now, p, lang) == (CacheState(Some(Fetch(p, lang)), now), Fetch(p, lang))
  {
  }

  /** A hit returns the text in the language of the lookup that filled the slot, not the one asked
      for: switching language within 300 s keeps the old text. */
  lemma HitKeepsStoredLanguage(s: CacheState, now: real, p: Providers, lang: Lang)
    requires IsHit(s, now) && s.slot.value.lang != lang
    ensures Lookup(s, now, p, lang).1.lang != lang
  {
  }

  // ---------------------------------------------------------------------------------------------
  // Several lookups in a row

  /** One call of the price lookup: the time and the provider outcomes it would see. */
  datatype Call = Call(now: real, providers: Providers, lang: Lang)

  /** The records returned by a series of lookups, the final cache, and the number of fetches. */
  datatype Trace = Trace(entries: seq<PriceEntry>, final: CacheState, fetches: nat)

  function Replay(s: CacheState, calls: seq<Call>): (t: Trace)
    ensures |t.entries| == |calls|
    ensures t.fetches <= |calls|
    ensures calls != [] ==> t.final.slot == Some(t.entries[|calls| - 1])
    ensures t.fetches == 0 ==> t.final == s
    decreases |calls|
  {
    if calls == [] then Trace([], s, 0)
    else
      var c := calls[0];
      var (s', e) := Lookup(s, c.now, c.providers, c.lang);
      var rest := Replay(s', calls[1..]);
      Trace([e] + rest.entries, rest.final, rest.fetches + (if IsHit(s, c.now) then 0 else 1))
  }

  predicate AllWithin(calls: seq<Call>, from: real) {
    forall i :: 0 <= i < |calls| ==> from <= calls[i].now < from + CacheDuration
  }

  /** Once a record is stored at a time inside a 300 s window, every later lookup in that window
      is a hit returning that record. */
  lemma {:induction false} HitsAfterFillInWindow(s: CacheState, calls: seq<Call>, from: real)
    requires s.slot.Some? && from <= s.stamp
    requires AllWithin(calls, from)
    ensures Replay(s, calls).fetches == 0
    ensures Replay(s, calls).final == s
    ensures forall i :: 0 <= i < |calls| ==> Replay(s, calls).entries[i] == s.slot.value
    decreases |calls|
  {
    if calls != [] {
      assert IsHit(s, calls[0].now);
      HitsAfterFillInWindow(s, calls[1..], from);
    }
  }

  /** Lookups whose times all lie in one 300 s window fetch at most once, whatever the order of
      the times and whatever the cache held before. */
  lemma {:induction false} OneFetchPerWindow(s: CacheState, calls: seq<Call>, from: real)
    requires AllWithin(calls, from)
    ensures Replay(s, calls).fetches <= 1
    decreases |calls|
  {
    if calls != [] {
      var c := calls[0];
      var (s', e) := Lookup(s, c.now, c.providers, c.lang);
      assert AllWithin(calls[1..], from);
      if IsHit(s, c.now) {
        OneFetchPerWindow(s', calls[1..], from);
      } else {
        HitsAfterFillInWindow(s', calls[1..], from);
      }
    }
  }
}
