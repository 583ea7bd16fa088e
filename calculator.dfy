/**
 * The two calculators: how much 21K gold an amount of EGP buys at the effective price, and how
 * much a monthly saving buys over a number of months. Both read the amount from text, and both
 * check in the same fixed order: unreadable amount, then a non-positive amount (or month count),
 * then a missing effective price.
 */
module Calculator {
  import opened Common
  import Text

  /** Whether an effective price is usable: present and, as Python's truth test on a float
      demands, not zero. */
  predicate HasPrice(effective: Option<real>) {
    effective.Some? && effective.value != 0.0
  }

  /** The amount typed by the user, with the pound sign and thousands separators removed. */
  function ParseAmount(text: string): (r: Option<real>)
    ensures var clean := Text.CleanAmount(text);
      && (r.Some? <==> Text.ParseUnsigned(Text.Magnitude(clean)).Some?)
      && (Text.AllDigits(clean) && clean != [] ==> r == Some(Text.DigitsValue(clean) as real))
    ensures Text.AllDigits(text) && text != [] ==> r == Some(Text.DigitsValue(text) as real)
  {
    Text.ParseNumber(Text.CleanAmount(text))
  }

  /** A comma or a pound sign anywhere in the amount makes no difference to what is read. */
  lemma ParseAmountIgnoresSeparators(a: string, b: string)
    ensures ParseAmount(a + [','] + b) == ParseAmount(a + b)
    ensures ParseAmount(a + [Text.PoundSign] + b) == ParseAmount(a + b)
  {
    Text.CleanAmountConcat(a, b);
    Text.CleanAmountConcat(a + [','], b);
    Text.CleanAmountConcat(a, [',']);
    Text.CleanAmountConcat(a + [Text.PoundSign], b);
    Text.CleanAmountConcat(a, [Text.PoundSign]);
    assert Text.CleanAmount(a + [',']) == Text.CleanAmount(a);
    assert Text.CleanAmount(a + [Text.PoundSign]) == Text.CleanAmount(a);
  }

  datatype PurchaseOutcome =
    | AmountUnreadable
    | AmountNotPositive
    | PurchasePriceMissing
    | CanBuy(amount: real, grams: real, price: real)

  /** Grams of 21K gold an amount buys. */
  function GoldPurchase(amountText: string, effective: Option<real>): (r: PurchaseOutcome)
    ensures r.AmountUnreadable? <==> ParseAmount(amountText).None?
    ensures r.AmountNotPositive? <==> ParseAmount(amountText).Some? && ParseAmount(amountText).value <= 0.0
    ensures r.PurchasePriceMissing? <==>
      ParseAmount(amountText).Some? && ParseAmount(amountText).value > 0.0 && !HasPrice(effective)
    ensures r.CanBuy? ==>
      && Some(r.amount) == ParseAmount(amountText) && r.amount > 0.0
      && Some(r.price) == effective && r.price != 0.0
      && r.grams == GramsFor(r.amount, r.price)
  {
    var parsed := ParseAmount(amountText);
    if parsed.None? then AmountUnreadable
    else
      var amount := parsed.value;
      if amount <= 0.0 then AmountNotPositive
      else if !HasPrice(effective) then PurchasePriceMissing
      else CanBuy(amount, GramsFor(amount, effective.value), effective.value)
  }

  /** Grams bought by a sum of EGP at a price per gram. */
  function GramsFor(egp: real, pricePerGram: real): (grams: real)
    requires pricePerGram != 0.0
    ensures grams * pricePerGram == egp
    ensures egp > 0.0 && pricePerGram > 0.0 ==> grams > 0.0
  {
    egp / pricePerGram
  }

  datatype SavingsOutcome =
    | MonthlyUnreadable
    | PlanNotPositive
    | PlanPriceMissing
    | CanSave(monthly: real, months: int, grams: real)

  /** Grams of 21K gold saved by putting aside a monthly amount for some months (12 unless given). */
  function SavingsPlan(monthlyText: string, effective: Option<real>, months: int := 12): (r: SavingsOutcome)
    ensures r.MonthlyUnreadable? <==> ParseAmount(monthlyText).None?
    ensures r.PlanNotPositive? <==>
      ParseAmount(monthlyText).Some? && (ParseAmount(monthlyText).value <= 0.0 || months <= 0)
    ensures r.PlanPriceMissing? <==>
      ParseAmount(monthlyText).Some? && ParseAmount(monthlyText).value > 0.0 && months > 0 && !HasPrice(effective)
    ensures r.CanSave? ==>
      && Some(r.monthly) == ParseAmount(monthlyText) && r.monthly > 0.0
      && r.months == months > 0 && HasPrice(effective)
      && r.grams == GramsFor(TotalSaved(r.monthly, months), effective.value)
  {
    var parsed := ParseAmount(monthlyText);
    if parsed.None? then MonthlyUnreadable
    else
      var monthly := parsed.value;
      if monthly <= 0.0 || months <= 0 then PlanNotPositive
      else if !HasPrice(effective) then PlanPriceMissing
      else CanSave(monthly, months, GramsFor(TotalSaved(monthly, months), effective.value))
  }

  /** The sum put aside over the whole plan. */
  function TotalSaved(monthly: real, months: int): real {
    monthly * months as real
  }
}
