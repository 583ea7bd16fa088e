# Gold dashboard core in Dafny

A model of the decision logic of a single-page gold investment dashboard for the Egyptian market
(`test.py`). The model covers:

- the price of 21-karat gold in EGP per gram. It comes from a primary quote, falls back to a
  secondary quote and then to a constant of 2000 USD per troy ounce. The USD to EGP rate falls
  back to 47.5. The conversion is `usd * rate / 31.1035 * 0.875`.
- the single-slot price cache, which keeps a record for 300 seconds.
- the choice between a manual price and the live price.
- the three headlines kept from the news service.
- the day-over-day change and its trend.
- the purchase and savings calculators, which run their checks in a fixed order. The page calls
  the purchase calculator only from the question box, with the digits that box found, so the
  pound sign and the commas it strips never reach it there. The savings calculator is not called
  at all: the calculator tab does the same arithmetic inline. Both are modelled as the functions
  they are.
- the volatility level and the price alert.
- the keyword router of the question box: the first rule that fires wins, in the order price,
  news, change, then "how much gold". A purchase question reads its amount from the first run of
  digits.

Modules:

- `Common`: `Option`, the display language, and `Abs`/`Min`.
- `Text`: lower-casing, substring tests, the first digit run, the pound-sign clean-up, and the
  subset of `float()` that the model admits.
- `Pricing`: the constants, the exchange rate, the fallback chain and the conversion. It also
  holds the cache as pure functions of an explicit state, with the lemmas about them.
- `Cache`: the class `PriceCache`. Its two fields are the two globals of the script, and its
  method `GetCurrentPrice` is proved to do what `Pricing.Lookup` describes.
- `Calculator`: the purchase and savings calculators.
- `Dashboard`: the effective price, the news, the change, the volatility and the alert.
- `Router`: the query classification and the reply to a question.

Outside services are not called. Their outcomes are parameters:

- the clock is a `real` time;
- the quote, rate, news and history services are outcome datatypes;
- the language model is a `ModelOutcome`.

Displayed texts become reply constructors plus a language flag.

## Model

| member | source | states |
|---|---|---|
| Pricing.ExchangeRate | test.py:23-32 | The rate is the "EGP" entry of `conversion_rates` when the reply has one. On every other outcome it is 47.5: a failed request, a body that is not JSON, a missing object, or a missing entry. |
| Pricing.ExchangeRateAsWritten | test.py:25-30 | As written, the lookup fails (KeyError) exactly when `conversion_rates` is present without "EGP". Every other outcome yields a rate. |
| Pricing.ExchangeRateAgrees | test.py:23-32 | The corrected rate equals the written one wherever the written one yields a rate. Where the written one raises, the corrected one is 47.5. |
| Pricing.MissingEgpRaisesAsWritten | test.py:29-30 | With the reply `{"conversion_rates": {"USD": 1.0}}`, the written lookup raises and the corrected one gives 47.5. |
| Pricing.SecondaryUsd | test.py:58-68 | The secondary quote gives a price exactly when the request succeeded, the "Realtime Currency Exchange Rate" object is there, it holds "5. Exchange Rate", and that text reads as a number. The price is that number. |
| Pricing.SpotPrice | test.py:47-69 | Fallback chain: the primary close if there is one. Otherwise the secondary price if it reads. Otherwise 2000.0. The stage reports which one supplied the price, and the price is never missing. |
| Pricing.EgpPerGram21k | test.py:73 | The EGP price per gram of 21K, times 31.1035, equals the USD price times the rate times 0.875. It is positive for a positive price and rate. |
| Pricing.UsdPerOunceOf | test.py:73 | The inverse conversion: the USD price per ounce, times the rate times 0.875, equals the EGP price per gram times 31.1035. |
| Pricing.ConversionRoundTrip | test.py:73 | Converting to EGP per gram and back gives the same price, in both directions, for any non-zero rate. |
| Pricing.ConversionOfDifference | test.py:114 | Converting the USD difference of two closes gives the difference of the converted closes. |
| Pricing.Fetch | test.py:47-78 | A fresh record holds the fallback chain's USD price and its conversion at the current rate. Its text is in the language of the request. |
| Pricing.Lookup | test.py:44-80 | A lookup with a record younger than 300 s returns that record and leaves the cache as it is. Any other lookup fetches, stores the fresh record stamped with the current time, and returns it. |
| Pricing.HitLeavesCacheAlone | test.py:44-45 | A record younger than 300 s is returned as it is and the cache is unchanged. Neither the providers nor the language influence the result. |
| Pricing.MissRefills | test.py:47-80 | On a miss, the slot is overwritten with the fresh record stamped with the current time. This includes a record built from the default price. |
| Pricing.LookupFillsSlot | test.py:44-80 | After any lookup, the slot holds the record just returned. |
| Pricing.ExpiredEntryRefetches | test.py:44 | A lookup made 300 s or more after the record was stored fetches again. |
| Pricing.HitKeepsStoredLanguage | test.py:44-45 | A hit returns text in the language the record was fetched in, even when another language is now selected. |
| Pricing.Replay | test.py:40-80 | A series of lookups returns one record per call and fetches at most once per call. After a non-empty series the cache holds the last record returned. A series that never fetches leaves the cache exactly as it was. |
| Pricing.HitsAfterFillInWindow | test.py:37-45 | Once a record is stored inside a 300 s window, every later lookup in the window is a hit that returns that record and does not fetch. |
| Pricing.OneFetchPerWindow | test.py:34-45 | Lookups whose times all fall in one 300 s window fetch at most once, whatever the cache held before. |
| Cache.PriceCache.constructor | test.py:35-36 | The cache starts with no record and timestamp 0. |
| Cache.PriceCache.GetCurrentPrice | test.py:40-80 | The new fields and the returned record are exactly `Lookup` of the old fields. On a hit the fields are unchanged and the stored record is returned. On a miss the slot holds the fetched record, stamped with the current time. |
| Dashboard.SelectEffectivePrice | test.py:167-180 | A positive manual price becomes the effective price, with the manual text, and the cache is not consulted. Otherwise one cache lookup supplies both the price and the text. A price is always in effect, so the "failed to fetch" branch cannot be reached. |
| Dashboard.Headlines | test.py:95-103 | The first min(3, n) articles of a successful reply, in order. A failed request or a missing "articles" key gives none. |
| Dashboard.PriceChange | test.py:106-120 | A failed history gives the failure report. Fewer than two closes give "insufficient data". Otherwise the change is the difference of the last two closes, each converted. The trend is "may rise" exactly when the change is positive. The percentage is missing exactly when the converted base is zero. |
| Dashboard.ChangeMatchesUsdMove | test.py:110-116 | For a positive rate, the trend is "may rise" exactly when the last close is above the one before. The percentage equals the USD percentage, because the rate and the constants cancel. |
| Dashboard.Volatility | test.py:297 | The gauge lies in [0, 1]. It is 1 exactly when the change is at least 5 % in absolute value, and otherwise it is that absolute value divided by 5. |
| Dashboard.VolatilityLevel | test.py:299 | The label is "high" exactly above 0.7, "medium" exactly above 0.3 and at most 0.7, and "low" exactly at or below 0.3. |
| Dashboard.VolatilityBands | test.py:297-299 | Read straight off the percentage: "high" means above 3.5 %, "medium" means above 1.5 % and at most 3.5 %, and "low" means at most 1.5 %. |
| Dashboard.PriceAlert | test.py:346-351 | The alert appears exactly when the alert price is positive and the effective price is present and non-zero. It says "at or below" exactly when the effective price does not exceed the alert price, and "above" otherwise. |
| Calculator.ParseAmount | test.py:125 | After the pound signs and commas are removed, the amount reads exactly when what remains is a decimal after an optional sign. A remaining run of digits reads as its base-ten value. |
| Calculator.ParseAmountIgnoresSeparators | test.py:125 | A comma or a pound sign inserted anywhere in the amount changes nothing that is read. |
| Calculator.GoldPurchase | test.py:123-134 | The checks run in order: unreadable amount, then an amount that is not positive, then a missing or zero price. Each outcome occurs exactly under its condition. A successful result holds the parsed amount, the effective price, and grams with grams times price equal to the amount. |
| Calculator.GramsFor | test.py:130 | Grams times the price per gram equals the sum spent, and a positive sum at a positive price buys a positive weight. |
| Calculator.SavingsPlan | test.py:137-149 | The checks run in order: unreadable monthly amount, then a monthly amount or a month count that is not positive, then a missing price. Each outcome occurs exactly under its condition. A successful result holds the grams that the monthly amount times the months buys at the effective price. |
| Text.RemoveChar | test.py:125 | Removing a character drops every occurrence of it and keeps every other character as often as it occurs. Text without that character is unchanged. |
| Text.RemoveCharConcat | test.py:125 | Removal works piece by piece: removing from a concatenation gives the concatenation of the removals, so the kept characters stay in order. |
| Text.RemoveCharSingle | test.py:125 | A single character is dropped exactly when it is the one removed. |
| Text.CleanAmount | test.py:125 | After the clean-up no pound sign and no comma remain, and every other character is kept as often as it occurs. A run of digits is left unchanged. |
| Text.CleanAmountConcat | test.py:125 | The clean-up works piece by piece, and a lone pound sign or comma vanishes. |
| Text.ParseNumber | test.py:125 | A number reads exactly when its unsigned part reads. Its absolute value is the unsigned value. A leading minus gives a value of at most zero, and only a leading minus gives a negative value. A run of digits reads as its base-ten value. |
| Text.ParseNumberAccepts | test.py:125 | The texts that read as numbers are exactly the decimals after an optional sign. |
| Text.ParseUnsigned | test.py:125 | An unsigned decimal reads as a non-negative number, and a run of digits reads as its value. |
| Text.ParseUnsignedAccepts | test.py:125 | The texts that read are exactly the decimals: digits, or digits, a point and digits, with at least one digit in all. "" and "." do not read. |
| Text.ParseUnsignedPoint | test.py:125 | A decimal with its point at position k reads as the value of the digits before the point plus the fraction after it. |
| Text.DecimalValue | test.py:125 | The whole part plus the fraction equals the value of all the digits divided by ten to the number of digits after the point. |
| Text.DigitsValueAppend | test.py:125 | Reading two digit strings one after the other shifts the first one by the length of the second. |
| Text.ExampleDecimals | test.py:125 | "5.25" reads as 5.25, while "5," and "." do not read. |
| Text.DigitValue | test.py:209 | Each digit is worth its position in its script's table of ten digits: ASCII, Arabic-Indic or Extended Arabic-Indic. |
| Text.DigitsValueZero | test.py:125-126 | A run of digits has value 0 exactly when every digit is a zero. |
| Text.DigitRunLength | test.py:209 | The run at the head of a text is all digits and maximal. |
| Text.SearchDigits | test.py:209 | The search finds nothing exactly when the text has no digit. Otherwise it returns the first maximal digit run: no digit before it, digits throughout, and a non-digit or the end after it. |
| Text.FirstDigitRunUnique | test.py:209 | A text has at most one first maximal digit run. |
| Text.Lower | test.py:194 | Lower-casing keeps the length and lowers each character in place. |
| Text.LowerKeepsLowerCase | test.py:194 | A text with no upper-case letter is unchanged by lower-casing. |
| Text.ContainsIffOccurs | test.py:197 | The substring test holds exactly when the keyword occurs at some position. |
| Text.KeywordCharsOccur | test.py:197 | A text that lacks one of a keyword's characters does not contain the keyword. |
| Text.LowerKeepsNonLatinKeyword | test.py:194-197 | A keyword without Latin letters is found in the lower-cased query exactly when it is found in the query. |
| Text.LowerFindsCaseVariant | test.py:194-197 | Any case variant of a keyword in the query ("PRICE", "Price") is found after lower-casing. |
| Router.Classify | test.py:193-212 | A purchase question carries no amount exactly when the query has no digit. Otherwise it carries the query's first maximal digit run. |
| Router.FirstFiring | test.py:197-207 | The index found belongs to a rule that fires, and no earlier rule fires. No index means that no rule fires. |
| Router.ClassifyIsFirstFiring | test.py:197-213 | The if-elif chain decides exactly as "the first firing rule of the ordered table wins". |
| Router.FirstMatchWins | test.py:197-207 | A query that fires rule k through either keyword, and no earlier rule, gets rule k's topic, whatever later rules it also fires. |
| Router.KeywordsMatchQuery | test.py:194-207 | The Arabic keywords are found whatever the letter case of the query, and the English keywords are already lower-case. |
| Router.PriceKeywordFound | test.py:197-198 | A query that contains a price keyword after lower-casing is a price question. |
| Router.PriceKeywordInQuery | test.py:194-198 | A query holding a price keyword at any position is a price question. The English keyword may appear in any letter case. |
| Router.ExamplePriceQuestions | test.py:197-198 | "price today" and "السعر اليوم" are price questions. |
| Router.ExampleUpperCasePrice | test.py:194-198 | "PRICE today" is a price question too. |
| Router.ExampleChangeQuestionsGetThePrice | test.py:309 | The question tab's own example change questions contain the price keyword, so they get the price, not the change. |
| Router.ExamplePurchaseQuestion | test.py:207-210 | "how much gold for 5000" is a purchase question for the digits "5000" at position 18. |
| Router.NotMentioned | test.py:197-207 | A query that lacks one character of each keyword of a rule does not fire that rule. |
| Router.Respond | test.py:193-222 | The reply keeps the language. A price question gets the effective-price text. A news question gets the kept headlines, or the news failure when there are none. A change question gets the change report. A purchase question gets the calculator's outcome for its first digit run at the effective price, or the request for an amount when there is no digit. A news reply has one to three articles. The purchase branch never reports an unreadable amount, because a digit run always reads. |
| Router.PurchaseAmountFromQuery | test.py:207-212 | With no digit, the purchase branch asks for the amount. Otherwise the amount is the base-ten value of the first digit run. It is refused as not positive exactly when all its digits are zeros, and reported as lacking a price exactly when it is positive and no price is in effect. The reply is the calculator's outcome at the session's effective price: a purchase it allows carries that price, and grams that cost exactly the amount at it. |
| Router.UnclassifiedFallsBack | test.py:213-222 | A query that fires no rule gets the model's answer, or the model's error when the model raises, or the guidance message when there is no model. |

## Left out

- The page layout, the sidebar widgets, the tabs, the charts, the progress bars and the PDF report are not modelled. The number inputs appear only as parameters.
- HTTP requests, `yfinance`, the JSON decoding and the clock are not modelled. Each is an outcome parameter (`Providers`, `NewsResponse`, `History`, `ModelOutcome`, `now`).
- The language model's own behaviour is not modelled. Only its three outcomes are: absent, an answer, or an exception.
- Warnings and error messages shown as side effects are not modelled. `Pricing.QuoteStage` records which fallback stage supplied the price instead.
- The display texts and their two-decimal formatting are not modelled. A reply is a constructor plus a language flag.
- Pricing.SpotPrice: numbers are exact reals, not IEEE doubles. Rounding is not modelled, and neither are NaN or infinity from a provider.
- Text.ParseNumber: only an optional sign, digits and an optional fraction are admitted. Python's `float()` also accepts surrounding whitespace, exponents, "inf", "nan" and underscores between digits; the model treats these as unreadable.
- Text.IsDigit: only ASCII, Arabic-Indic and Extended Arabic-Indic digits are treated as digits. Python's `\d` accepts the other Unicode decimal digits too.
- Text.Lower: only ASCII letters are lower-cased. The keywords are ASCII or Arabic, and Arabic has no case.
- Dashboard.PriceChange: a zero base, which in floating point gives infinity or NaN, is modelled as a missing percentage. The change report also reads the rate through the corrected lookup. As written, a rate reply without "EGP" raises inside `get_price_change` (test.py:113), and the handler at test.py:119-120 turns that into the failure report. The model computes a change at 47.5 instead; see "## Findings".
- The volatility panel parses the percentage back out of the change text (test.py:295-296). That step is not modelled. `Dashboard.Volatility` takes the percentage directly.
- The portfolio tab and the investment calculator tab (test.py:231-277) are not modelled. They repeat the calculator arithmetic on widget values.
- `get_historical_data` (test.py:83-92) is not modelled: it is not called anywhere on the page.
- The 50- and 200-day moving averages and the average return (test.py:286-293) are pandas series arithmetic, and they are not modelled.
- Router.Respond: an article without "title" or "description" would raise while the news reply is built. Articles are modelled with both fields present.
- Streamlit runs the script again on every interaction and re-creates the module globals. The cache therefore survives only within one run. The model describes the cache over any series of lookups, without saying when the globals are reset.
- Concurrent sessions sharing the process are not modelled.

## Findings

| source | as written | input that shows it | evidently intended | confidence | as-written member | corrected member |
|---|---|---|---|---|---|---|
| test.py:29-30 | `data["conversion_rates"]["EGP"]` raises KeyError when `conversion_rates` has no "EGP" entry. The handler catches only request and JSON errors, so the error escapes the rate lookup. The price lookup at test.py:72 fails with it. The change report at test.py:113 fails too: the handler at test.py:119-120 catches the error and reports a failure. | a successful reply with body `{"conversion_rates": {"USD": 1.0}}` | 47.5 EGP per USD, as on every other failure of the rate service | medium; not executed | Pricing.ExchangeRateAsWritten (Pricing.MissingEgpRaisesAsWritten) | Pricing.ExchangeRate |
