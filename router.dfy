/**
 * The question box of the dashboard: a query is lower-cased and tested against four rules in a
 * fixed order, each rule holding an Arabic and an English keyword; the first rule whose keyword
 * occurs decides the answer. A purchase question reads its amount from the first run of digits
 * of the query. A query that matches no rule goes to the language model, or gets a guidance
 * message when there is none.
 */
module Router {
  import opened Common
  import opened Text
  import opened Calculator
  import opened Dashboard
  import Pricing

  const PriceArabic: string := "سعر"
  const PriceEnglish: string := "price"
  const NewsArabic: string := "أخبار"
  const NewsEnglish: string := "news"
  const ChangeArabic: string := "تغير"
  const ChangeEnglish: string := "change"
  const PurchaseArabic: string := "كم ذهب"
  const PurchaseEnglish: string := "how much gold"

  /** What a query asks for. A purchase question carries the match of the first digit run, if any. */
  datatype Intent = AskPrice | AskNews | AskChange | AskPurchase(amount: Option<Match>) | Unclassified

  predicate Mentions(lowered: string, arabic: string, english: string) {
    Contains(lowered, arabic) || Contains(lowered, english)
  }

  /** The if-elif chain of the query handler, with the digit search of the purchase branch. */
  function Classify(query: string): (i: Intent)
    ensures i.AskPurchase? ==> (i.amount.None? <==> NoDigit(query))
    ensures i.AskPurchase? && i.amount.Some? ==> IsFirstDigitRun(query, i.amount.value)
  {
    var lowered := Lower(query);
    if Mentions(lowered, PriceArabic, PriceEnglish) then AskPrice
    else if Mentions(lowered, NewsArabic, NewsEnglish) then AskNews
    else if Mentions(lowered, ChangeArabic, ChangeEnglish) then AskChange
    else if Mentions(lowered, PurchaseArabic, PurchaseEnglish) then AskPurchase(SearchDigits(query))
    else Unclassified
  }

  // ---------------------------------------------------------------------------------------------
  // The same policy as an ordered table of rules

  datatype Topic = PriceTopic | NewsTopic | ChangeTopic | PurchaseTopic

  datatype Rule = Rule(arabic: string, english: string, topic: Topic)

  /** The rules in the order they are tried. */
  const Rules: seq<Rule> := [
    Rule(PriceArabic, PriceEnglish, PriceTopic),
    Rule(NewsArabic, NewsEnglish, NewsTopic),
    Rule(ChangeArabic, ChangeEnglish, ChangeTopic),
    Rule(PurchaseArabic, PurchaseEnglish, PurchaseTopic)
  ]

  predicate Fires(rule: Rule, lowered: string) {
    Mentions(lowered, rule.arabic, rule.english)
  }

  /** Index of the first rule that fires: every earlier rule stays silent. */
  function FirstFiring(rules: seq<Rule>, lowered: string): (k: Option<nat>)
    ensures k.Some? ==>
      k.value < |rules| && Fires(rules[k.value], lowered)
      && forall j :: 0 <= j < k.value ==> !Fires(rules[j], lowered)
    ensures k.None? ==> forall j :: 0 <= j < |rules| ==> !Fires(rules[j], lowered)
  {
    if rules == [] then None
    else if Fires(rules[0], lowered) then Some(0)
    else
      match FirstFiring(rules[1..], lowered)
      case None => None
      case Some(k) => Some(k + 1)
  }

  function TopicOf(i: Intent): Option<Topic> {
    match i
    case AskPrice => Some(PriceTopic)
    case AskNews => Some(NewsTopic)
    case AskChange => Some(ChangeTopic)
    case AskPurchase(_) => Some(PurchaseTopic)
    case Unclassified => None
  }

  /** The chain of tests decides exactly as "first firing rule of the table wins". */
  lemma ClassifyIsFirstFiring(query: string)
    ensures TopicOf(Classify(query)) ==
      match FirstFiring(Rules, Lower(query))
      case None => None
      case Some(k) => Some(Rules[k].topic)
  {
    var lowered := Lower(query);
    var k := FirstFiring(Rules, lowered);
    if k.Some? {
      assert Fires(Rules[k.value], lowered);
    }
    if Fires(Rules[0], lowered) {
      assert k == Some(0);
    } else if Fires(Rules[1], lowered) {
      assert k == Some(1);
    } else if Fires(Rules[2], lowered) {
      assert k == Some(2);
    } else if Fires(Rules[3], lowered) {
      assert k == Some(3);
    } else {
      assert k == None;
    }
  }

  /** Priority: price before news before change before purchase. A query that fires rule `k`
      through either of its keywords, and no earlier rule, gets rule `k`'s answer, whatever later
      rules it also fires. */
  lemma FirstMatchWins(query: string, k: nat)
    requires k < |Rules|
    requires Fires(Rules[k], Lower(query))
    requires forall j :: 0 <= j < k ==> !Fires(Rules[j], Lower(query))
    ensures TopicOf(Classify(query)) == Some(Rules[k].topic)
  {
    ClassifyIsFirstFiring(query);
    var f := FirstFiring(Rules, Lower(query));
    assert f.Some?;
    assert !(f.value < k) && !(k < f.value);
  }

  /** The Arabic keywords hold no Latin letter, so lower-casing the query does not affect them; the
      English keywords are lower-case, so they match in any letter case. */
  lemma KeywordsMatchQuery(query: string, k: nat)
    requires k < |Rules|
    ensures Contains(Lower(query), Rules[k].arabic) <==> Contains(query, Rules[k].arabic)
    ensures Lower(Rules[k].english) == Rules[k].english
  {
    KeywordCharacters(k);
    LowerKeepsNonLatinKeyword(query, Rules[k].arabic);
    var e := Rules[k].english;
    assert Lower(e) == e;
  }

  lemma KeywordCharacters(k: nat)
    requires k < |Rules|
    ensures forall i :: 0 <= i < |Rules[k].arabic| ==> !IsAsciiLetter(Rules[k].arabic[i])
    ensures forall i :: 0 <= i < |Rules[k].english| ==> !IsUpperAscii(Rules[k].english[i])
  {
    if k == 0 {
      assert Rules[k] == Rule(PriceArabic, PriceEnglish, PriceTopic);
    } else if k == 1 {
      assert Rules[k] == Rule(NewsArabic, NewsEnglish, NewsTopic);
    } else if k == 2 {
      assert Rules[k] == Rule(ChangeArabic, ChangeEnglish, ChangeTopic);
    } else {
      assert Rules[k] == Rule(PurchaseArabic, PurchaseEnglish, PurchaseTopic);
    }
  }

  /** A query that mentions a price keyword after lower-casing is a price question. */
  lemma PriceKeywordFound(query: string, kw: string, at: nat)
    requires kw == PriceArabic || kw == PriceEnglish
    requires OccursAt(Lower(query), kw, at)
    ensures Classify(query) == AskPrice
  {
    ContainsIffOccurs(Lower(query), kw);
  }

  /** A query holding a price keyword, in any letter case, is a price question. */
  lemma PriceKeywordInQuery(query: string, kw: string, at: nat)
    requires kw == PriceArabic || Lower(kw) == PriceEnglish
    requires OccursAt(query, kw, at)
    ensures Classify(query) == AskPrice
  {
    ContainsIffOccurs(query, kw);
    KeywordsMatchQuery(query, 0);
    if kw == PriceArabic {
      assert Contains(Lower(query), PriceArabic);
    } else {
      LowerFindsCaseVariant(query, kw);
      assert Contains(Lower(query), PriceEnglish);
    }
  }

  /** "price today" and "السعر اليوم" reach the price answer in either language. */
  lemma ExamplePriceQuestions(english: string, arabic: string)
    requires english == "price today" && arabic == "السعر اليوم"
    ensures Classify(english) == AskPrice && Classify(arabic) == AskPrice
  {
    assert english[..5] == PriceEnglish;
    PriceKeywordInQuery(english, PriceEnglish, 0);
    assert arabic[2..5] == PriceArabic;
    PriceKeywordInQuery(arabic, PriceArabic, 2);
  }

  /** "PRICE today" reaches the price answer too: the letter case of the query does not matter. */
  lemma ExampleUpperCasePrice(query: string)
    requires query == "PRICE today"
    ensures Classify(query) == AskPrice
  {
    var kw := query[..5];
    assert kw == "PRICE";
    assert Lower(kw) == PriceEnglish by {
      assert forall i :: 0 <= i < 5 ==> Lower(kw)[i] == PriceEnglish[i];
    }
    PriceKeywordInQuery(query, kw, 0);
  }

  /** The question tab's own examples for the price change contain the price keyword, which is
      tried first, so they are answered with the price instead of the change. */
  lemma ExampleChangeQuestionsGetThePrice(english: string, arabic: string)
    requires english == "What’s the price change today?" && arabic == "ما هو تغير سعر الذهب اليوم؟"
    ensures Classify(english) == AskPrice && Classify(arabic) == AskPrice
  {
    assert english[11..16] == PriceEnglish;
    PriceKeywordInQuery(english, PriceEnglish, 11);
    assert arabic[11..14] == PriceArabic;
    PriceKeywordInQuery(arabic, PriceArabic, 11);
  }

  /** "how much gold for 5000" is a purchase question for the amount 5000. */
  lemma ExamplePurchaseQuestion(query: string)
    requires query == "how much gold for 5000"
    ensures Classify(query) == AskPurchase(Some(Match(18, "5000")))
  {
    ExampleHasOnlyPurchaseKeyword(query);
    ExampleAmount(query);
  }

  lemma ExampleHasOnlyPurchaseKeyword(query: string)
    requires query == "how much gold for 5000"
    ensures !Mentions(Lower(query), PriceArabic, PriceEnglish)
    ensures !Mentions(Lower(query), NewsArabic, NewsEnglish)
    ensures !Mentions(Lower(query), ChangeArabic, ChangeEnglish)
    ensures Mentions(Lower(query), PurchaseArabic, PurchaseEnglish)
  {
    ExampleIsLowerCase(query);
    ExampleKeywords(Lower(query));
  }

  lemma ExampleIsLowerCase(query: string)
    requires query == "how much gold for 5000"
    ensures Lower(query) == query
  {
    forall i | 0 <= i < |query|
      ensures !IsUpperAscii(query[i])
    {
    }
    LowerKeepsLowerCase(query);
  }

  lemma ExampleKeywords(lowered: string)
    requires lowered == "how much gold for 5000"
    ensures !Mentions(lowered, PriceArabic, PriceEnglish)
    ensures !Mentions(lowered, NewsArabic, NewsEnglish)
    ensures !Mentions(lowered, ChangeArabic, ChangeEnglish)
    ensures Mentions(lowered, PurchaseArabic, PurchaseEnglish)
  {
    ExampleMissingCharacters(lowered);
    NotMentioned(lowered, PriceArabic, PriceEnglish, PriceArabic[0], 'p');
    NotMentioned(lowered, NewsArabic, NewsEnglish, NewsArabic[0], 'n');
    NotMentioned(lowered, ChangeArabic, ChangeEnglish, ChangeArabic[0], 'a');
    ExamplePurchaseKeyword(lowered);
  }

  lemma ExampleMissingCharacters(lowered: string)
    requires lowered == "how much gold for 5000"
    ensures 'p' !in lowered && 'n' !in lowered && 'a' !in lowered
    ensures PriceArabic[0] !in lowered && NewsArabic[0] !in lowered && ChangeArabic[0] !in lowered
  {
    assert forall i :: 0 <= i < |lowered| ==> lowered[i] < '\U{0600}';
  }

  lemma ExamplePurchaseKeyword(lowered: string)
    requires lowered == "how much gold for 5000"
    ensures Mentions(lowered, PurchaseArabic, PurchaseEnglish)
  {
    assert lowered[..13] == PurchaseEnglish;
    assert StartsWith(lowered, PurchaseEnglish);
  }

  /** A query misses a rule when it lacks one character of each of the rule's keywords. */
  lemma NotMentioned(lowered: string, arabic: string, english: string, a: char, e: char)
    requires a in arabic && e in english && a !in lowered && e !in lowered
    ensures !Mentions(lowered, arabic, english)
  {
    KeywordCharsOccur(lowered, arabic, a);
    KeywordCharsOccur(lowered, english, e);
  }

  lemma ExampleAmount(query: string)
    requires query == "how much gold for 5000"
    ensures SearchDigits(query) == Some(Match(18, "5000"))
  {
    var m := Match(18, "5000");
    assert query[18..22] == "5000";
    assert IsFirstDigitRun(query, m);
    assert !NoDigit(query) by { assert IsDigit(query[18]); }
    FirstDigitRunUnique(query, SearchDigits(query).value, m);
  }

  // ---------------------------------------------------------------------------------------------
  // Answering

  /** What the language model did with the query: there is no model, it answered, or it raised. */
  datatype ModelOutcome = NoModel | ModelAnswer(text: string) | ModelRaised(error: string)

  /** What the handlers would see: the effective price of the session, the news and history
      replies, the rate reply fetched for the change report, and the language model's outcome. */
  datatype Env = Env(
    effective: EffectivePrice,
    news: NewsResponse,
    history: History,
    changeRates: Pricing.RateResponse,
    model: ModelOutcome)

  datatype Reply =
    | PriceReply(priceText: PriceText)
    | NewsReply(articles: seq<Article>)
    | NewsUnavailable
    | ChangeReply(report: ChangeReport)
    | PurchaseReply(outcome: PurchaseOutcome)
    | AmountNotFound
    | ModelReply(text: string)
    | ModelError(error: string)
    | Guidance

  /** A reply and the language it is rendered in. */
  datatype Answer = Answer(reply: Reply, lang: Lang)

  function Respond(query: string, env: Env, lang: Lang): (a: Answer)
    ensures a.lang == lang
    ensures Classify(query) == AskPrice ==> a.reply == PriceReply(env.effective.text)
    ensures Classify(query) == AskNews ==>
      a.reply == (if Headlines(env.news) != [] then NewsReply(Headlines(env.news)) else NewsUnavailable)
    ensures Classify(query) == AskChange ==> a.reply == ChangeReply(PriceChange(env.history, env.changeRates))
    ensures Classify(query).AskPurchase? ==>
      a.reply == match Classify(query).amount
        case None => AmountNotFound
        case Some(m) => PurchaseReply(GoldPurchase(m.text, env.effective.price))
    ensures a.reply.NewsReply? ==> 0 < |a.reply.articles| <= MaxHeadlines
    ensures a.reply.PurchaseReply? ==> !a.reply.outcome.AmountUnreadable?
  {
    match Classify(query)
    case AskPrice => Answer(PriceReply(env.effective.text), lang)
    case AskNews =>
      var articles := Headlines(env.news);
      Answer(if articles != [] then NewsReply(articles) else NewsUnavailable, lang)
    case AskChange => Answer(ChangeReply(PriceChange(env.history, env.changeRates)), lang)
    case AskPurchase(amount) =>
      (match amount
       case None => Answer(AmountNotFound, lang)
       case Some(m) => Answer(PurchaseReply(GoldPurchase(m.text, env.effective.price)), lang))
    case Unclassified =>
      match env.model
      case NoModel => Answer(Guidance, lang)
      case ModelAnswer(text) => Answer(ModelReply(text), lang)
      case ModelRaised(error) => Answer(ModelError(error), lang)
  }

  /** The purchase branch: with no digit in the query the answer asks for the amount; otherwise the
      amount is the first maximal digit run of the query read in base ten, it always reads, it is
      refused as not positive exactly when all its digits are zeros, and the answer is the
      calculator's for that amount at the session's effective price. */
  lemma PurchaseAmountFromQuery(query: string, env: Env, lang: Lang)
    requires Classify(query).AskPurchase?
    ensures NoDigit(query) ==> Respond(query, env, lang).reply == AmountNotFound
    ensures forall m :: IsFirstDigitRun(query, m) ==>
      var r := Respond(query, env, lang).reply;
      && r.PurchaseReply?
      && (r.outcome.AmountNotPositive? <==> forall i :: 0 <= i < |m.text| ==> DigitValue(m.text[i]) == 0)
      && (r.outcome.PurchasePriceMissing? <==> DigitsValue(m.text) > 0 && !HasPrice(env.effective.price))
      && r.outcome == GoldPurchase(m.text, env.effective.price)
      && (r.outcome.CanBuy? ==>
            && r.outcome.amount == DigitsValue(m.text) as real
            && Some(r.outcome.price) == env.effective.price
            && r.outcome.grams == GramsFor(r.outcome.amount, r.outcome.price))
  {
    forall m | IsFirstDigitRun(query, m)
      ensures var r := Respond(query, env, lang).reply;
        && r.PurchaseReply?
        && (r.outcome.AmountNotPositive? <==> forall i :: 0 <= i < |m.text| ==> DigitValue(m.text[i]) == 0)
        && (r.outcome.PurchasePriceMissing? <==> DigitsValue(m.text) > 0 && !HasPrice(env.effective.price))
        && r.outcome == GoldPurchase(m.text, env.effective.price)
        && (r.outcome.CanBuy? ==>
              && r.outcome.amount == DigitsValue(m.text) as real
              && Some(r.outcome.price) == env.effective.price
              && r.outcome.grams == GramsFor(r.outcome.amount, r.outcome.price))
    {
      var found := Classify(query).amount;
      assert found.Some?;
      FirstDigitRunUnique(query, found.value, m);
      DigitsValueZero(m.text);
      assert ParseAmount(m.text) == Some(DigitsValue(m.text) as real);
    }
  }

  /** A query that matches no rule is answered by the model, or by the guidance message when
      there is no model. */
  lemma UnclassifiedFallsBack(query: string, env: Env, lang: Lang)
    requires forall k :: 0 <= k < |Rules| ==> !Fires(Rules[k], Lower(query))
    ensures env.model.NoModel? ==> Respond(query, env, lang).reply == Guidance
    ensures env.model.ModelAnswer? ==> Respond(query, env, lang).reply == ModelReply(env.model.text)
    ensures env.model.ModelRaised? ==> Respond(query, env, lang).reply == ModelError(env.model.error)
  {
    ClassifyIsFirstFiring(query);
    assert FirstFiring(Rules, Lower(query)).None?;
    assert Classify(query) == Unclassified;
  }
}
