/**
 * The decisions the dashboard script takes around the price: which price is in effect (the
 * manual one from the sidebar or the cached live one), the three headlines kept from the news
 * service, the day-over-day change and its trend, the volatility level shown beside the price
 * trends, and the price alert.
 */
module Dashboard {
  import opened Common
  import opened Pricing
  import opened Cache
  import Calculator

  // ---------------------------------------------------------------------------------------------
  // Effective price

  /** The text shown for the effective price: the manual price in the current language, or the
      text of the cached record, in the language that record was fetched in. */
  datatype PriceText = ManualPriceText(price: real, lang: Lang) | LivePriceText(entry: PriceEntry)

  /** The effective price and its text, as stored in the session. */
  datatype EffectivePrice = EffectivePrice(price: Option<real>, text: PriceText)

  /** The manual price is used when the sidebar box is ticked (`manual` is then Some) and the value
      typed is positive. */
  predicate ManualPriceInUse(manual: Option<real>) {
    manual.Some? && manual.value > 0.0
  }

  /** Sets the effective price. The manual price bypasses the cache entirely; otherwise the price
      comes from one cache lookup, which always yields a record, so the "failed to fetch gold
      price" outcome is never reached and a price is always in effect. */
  method SelectEffectivePrice(cache: PriceCache, manual: Option<real>, now: real, providers: Providers, lang: Lang)
    returns (eff: EffectivePrice)
    modifies cache
    ensures eff.price.Some?
    ensures eff.text.ManualPriceText? <==> ManualPriceInUse(manual)
    ensures ManualPriceInUse(manual) ==>
      eff == EffectivePrice(Some(manual.value), ManualPriceText(manual.value, lang))
      && cache.State() == old(cache.State())
    ensures !ManualPriceInUse(manual) ==>
      var (s', e) := Lookup(old(cache.State()), now, providers, lang);
      eff == EffectivePrice(Some(e.egpPerGram21k), LivePriceText(e)) && cache.State() == s'
  {
    if manual.Some? && manual.value > 0.0 {
      eff := EffectivePrice(Some(manual.value), ManualPriceText(manual.value, lang));
    } else {
      var entry := cache.GetCurrentPrice(now, providers, lang);
      eff := EffectivePrice(Some(entry.egpPerGram21k), LivePriceText(entry));
    }
  }

  // ---------------------------------------------------------------------------------------------
  // News

  datatype Article = Article(title: string, description: string, url: Option<string>)

  /** What the news service gave back: `NewsRequestFailed` covers a transport error, a non-2xx
      status and a body that is not JSON; `NewsBody` carries the "articles" array when present. */
  datatype NewsResponse = NewsRequestFailed | NewsBody(articles: Option<seq<Article>>)

  const MaxHeadlines: nat := 3

  /** The articles kept: the first three returned, or none on any failure. */
  function Headlines(resp: NewsResponse): (r: seq<Article>)
    ensures |r| <= MaxHeadlines
    ensures resp.NewsBody? && resp.articles.Some? ==>
      var all := resp.articles.value;
      |r| == (if |all| < MaxHeadlines then |all| else MaxHeadlines) && r == all[..|r|]
    ensures !(resp.NewsBody? && resp.articles.Some?) ==> r == []
  {
    match resp
    case NewsRequestFailed => []
    case NewsBody(None) => []
    case NewsBody(Some(all)) => if |all| <= MaxHeadlines then all else all[..MaxHeadlines]
  }

  // ---------------------------------------------------------------------------------------------
  // Day-over-day change

  /** The five-day close history: `HistoryFailed` when the call raised, otherwise the closes in
      USD per ounce, oldest first. */
  datatype History = HistoryFailed | Closes(closes: seq<real>)

  datatype Trend = MayRise | MayFall

  /** The change report. `percent` is None where the base price is zero and the division yields
      no finite number. */
  datatype ChangeReport =
    | Change(egpPerGram: real, percent: Option<real>, trend: Trend)
    | InsufficientData
    | ChangeFailed

  function PriceChange(history: History, rates: RateResponse): (r: ChangeReport)
    ensures r.ChangeFailed? <==> history.HistoryFailed?
    ensures r.InsufficientData? <==> history.Closes? && |history.closes| < 2
    ensures r.Change? ==>
      var closes := history.closes;
      var today, yesterday := closes[|closes| - 1], closes[|closes| - 2];
      var rate := ExchangeRate(rates);
      && r.egpPerGram == EgpPerGram21k(today, rate) - EgpPerGram21k(yesterday, rate)
      && (r.trend == MayRise <==> r.egpPerGram > 0.0)
      && (r.percent.None? <==> EgpPerGram21k(yesterday, rate) == 0.0)
  {
    match history
    case HistoryFailed => ChangeFailed
    case Closes(closes) =>
      if |closes| < 2 then InsufficientData
      else
        var today, yesterday := closes[|closes| - 1], closes[|closes| - 2];
        var rate := ExchangeRate(rates);
        var change := EgpPerGram21k(today - yesterday, rate);
        ConversionOfDifference(today, yesterday, rate);
        var base := EgpPerGram21k(yesterday, rate);
        var percent := if base == 0.0 then None else Some(change / base * 100.0);
        Change(change, percent, if change > 0.0 then MayRise else MayFall)
  }

  /** With a positive exchange rate the trend says "may rise" exactly when the last close is above
      the one before, and the percentage is the USD percentage: the rate and the conversion
      constants cancel out. A flat day reads "may fall". */
  lemma ChangeMatchesUsdMove(closes: seq<real>, rates: RateResponse)
    requires |closes| >= 2 && ExchangeRate(rates) > 0.0
    ensures var today, yesterday := closes[|closes| - 1], closes[|closes| - 2];
      var r := PriceChange(Closes(closes), rates);
      && r.Change?
      && (r.trend == MayRise <==> today > yesterday)
      && (yesterday != 0.0 ==> r.percent == Some((today - yesterday) / yesterday * 100.0))
  {
    var today, yesterday := closes[|closes| - 1], closes[|closes| - 2];
    var rate := ExchangeRate(rates);
    var k := rate * Purity21k / TroyOunceGrams;
    ConversionIsScaling(today - yesterday, rate);
    ConversionIsScaling(yesterday, rate);
    ScaledMove(today, yesterday, k);
    var r := PriceChange(Closes(closes), rates);
    var change, base := EgpPerGram21k(today - yesterday, rate), EgpPerGram21k(yesterday, rate);
    assert r == Change(change, if base == 0.0 then None else Some(change / base * 100.0), r.trend);
    assert change == (today - yesterday) * k;
    assert base == yesterday * k;
    assert r.trend == MayRise <==> change > 0.0;
    assert r.trend == MayRise <==> today > yesterday;
    if yesterday != 0.0 {
      assert base != 0.0;
      assert r.percent == Some(change / base * 100.0);
    }
  }

  /** Converting is multiplying by one factor that depends on the rate only. */
  lemma ConversionIsScaling(usd: real, rate: real)
    ensures EgpPerGram21k(usd, rate) == usd * (rate * Purity21k / TroyOunceGrams)
  {
  }

  lemma ScaledMove(today: real, yesterday: real, k: real)
    requires k > 0.0
    ensures (today - yesterday) * k > 0.0 <==> today > yesterday
    ensures yesterday * k == 0.0 <==> yesterday == 0.0
    ensures yesterday != 0.0 ==> (today - yesterday) * k / (yesterday * k) * 100.0 == (today - yesterday) / yesterday * 100.0
  {
    if yesterday != 0.0 {
      var d := today - yesterday;
      assert d * k / (yesterday * k) == d / yesterday;
    }
  }

  // ---------------------------------------------------------------------------------------------
  // Volatility

  datatype Level = Low | Medium | High

  /** The volatility gauge: the absolute percentage change over 5, capped at 1. */
  function Volatility(percent: real): (v: real)
    ensures 0.0 <= v <= 1.0
    ensures v == 1.0 <==> Abs(percent) >= 5.0
    ensures v < 1.0 ==> v * 5.0 == Abs(percent)
  {
    Min(Abs(percent) / 5.0, 1.0)
  }

  /** The label of the gauge: above 0.7 high, above 0.3 medium, otherwise low. */
  function VolatilityLevel(v: real): (l: Level)
    ensures l == High <==> v > 0.7
    ensures l == Medium <==> 0.3 < v <= 0.7
    ensures l == Low <==> v <= 0.3
  {
    if v > 0.7 then High else if v > 0.3 then Medium else Low
  }

  /** The label read directly off the percentage: above 3.5 % high, above 1.5 % medium. */
  lemma VolatilityBands(percent: real)
    ensures VolatilityLevel(Volatility(percent)) == High <==> Abs(percent) > 3.5
    ensures VolatilityLevel(Volatility(percent)) == Medium <==> 1.5 < Abs(percent) <= 3.5
    ensures VolatilityLevel(Volatility(percent)) == Low <==> Abs(percent) <= 1.5
  {
  }

  // ---------------------------------------------------------------------------------------------
  // Price alert

  datatype AlertKind = AtOrBelow | Above

  /** The alert panel: shown only for a positive alert price and a usable effective price; it
      reports whether the effective price is at or below the alert price. */
  function PriceAlert(alertPrice: real, effective: Option<real>): (r: Option<AlertKind>)
    ensures r.None? <==> !(alertPrice > 0.0 && Calculator.HasPrice(effective))
    ensures r == Some(AtOrBelow) <==> alertPrice > 0.0 && Calculator.HasPrice(effective) && effective.value <= alertPrice
    ensures r == Some(Above) <==> alertPrice > 0.0 && Calculator.HasPrice(effective) && effective.value > alertPrice
  {
    if alertPrice > 0.0 && Calculator.HasPrice(effective) then
      Some(if effective.value <= alertPrice then AtOrBelow else Above)
    else
      None
  }
}
