/**
 * String logic the dashboard relies on: the decimal digits matched by `\d`, ASCII case folding
 * as done by `str.lower`, substring tests (`kw in s`), the leftmost-longest digit run found by
 * `re.search(r'\d+', s)`, the character stripping of the calculators, and the subset of
 * `float(s)` that the model accepts.
 */
module Text {
  import opened Common

  // ---------------------------------------------------------------------------------------------
  // Digits

  /** Decimal digits: ASCII, Arabic-Indic and Extended Arabic-Indic. */
  predicate IsDigit(c: char) {
    || ('0' <= c <= '9')
    || ('\U{0660}' <= c <= '\U{0669}')
    || ('\U{06F0}' <= c <= '\U{06F9}')
  }

  /** The ten digits of each script, in order of value. */
  const AsciiDigits: string := "0123456789"
  const ArabicIndicDigits: string :=
    "\U{0660}\U{0661}\U{0662}\U{0663}\U{0664}\U{0665}\U{0666}\U{0667}\U{0668}\U{0669}"
  const ExtendedArabicIndicDigits: string :=
    "\U{06F0}\U{06F1}\U{06F2}\U{06F3}\U{06F4}\U{06F5}\U{06F6}\U{06F7}\U{06F8}\U{06F9}"

  /** The value of a digit: its place in its script's table of ten digits. */
  function DigitValue(c: char): (d: nat)
    requires IsDigit(c)
    ensures d <= 9
    ensures c == AsciiDigits[d] || c == ArabicIndicDigits[d] || c == ExtendedArabicIndicDigits[d]
    ensures d == 0 <==> c in {'0', '\U{0660}', '\U{06F0}'}
  {
    if '0' <= c <= '9' then c as int - '0' as int
    else if '\U{0660}' <= c <= '\U{0669}' then c as int - 0x0660
    else c as int - 0x06F0
  }

  predicate AllDigits(s: string) {
    forall i :: 0 <= i < |s| ==> IsDigit(s[i])
  }

  predicate NoDigit(s: string) {
    forall i :: 0 <= i < |s| ==> !IsDigit(s[i])
  }

  /** The value of a digit string read in base ten, most significant digit first. */
  function DigitsValue(s: string): nat
    requires AllDigits(s)
  {
    if s == [] then 0 else DigitsValue(s[..|s| - 1]) * 10 + DigitValue(s[|s| - 1])
  }

  /** A digit string is worth zero exactly when each of its digits is a zero. */
  lemma {:induction false} DigitsValueZero(s: string)
    requires AllDigits(s)
    ensures DigitsValue(s) == 0 <==> forall i :: 0 <= i < |s| ==> DigitValue(s[i]) == 0
  {
    if s != [] {
      var init := s[..|s| - 1];
      DigitsValueZero(init);
      assert forall i :: 0 <= i < |init| ==> init[i] == s[i];
    }
  }

  function Pow10(n: nat): (p: nat)
    ensures p >= 1
  {
    if n == 0 then 1 else 10 * Pow10(n - 1)
  }

  /** Reading a digit string that is split in two: the first part is shifted by the length of
      the second. */
  lemma {:induction false} DigitsValueAppend(w: string, f: string)
    requires AllDigits(w) && AllDigits(f)
    ensures AllDigits(w + f)
    ensures DigitsValue(w + f) == DigitsValue(w) * Pow10(|f|) + DigitsValue(f)
  {
    if f == [] {
      assert w + f == w;
    } else {
      var init := f[..|f| - 1];
      DigitsValueAppend(w, init);
      assert (w + f)[..|w + f| - 1] == w + init;
      assert (w + f)[|w + f| - 1] == f[|f| - 1];
      ShiftOneDigit(DigitsValue(w), Pow10(|init|), DigitsValue(init), DigitValue(f[|f| - 1]));
    }
  }

  lemma ShiftOneDigit(a: int, p: int, b: int, d: int)
    ensures (a * p + b) * 10 + d == a * (10 * p) + (b * 10 + d)
  {
  }

  /** Length of the run of digits at the start of `s`: the greedy `\d+` from position 0. */
  function DigitRunLength(s: string): (n: nat)
    ensures n <= |s|
    ensures AllDigits(s[..n])
    ensures n == |s| || !IsDigit(s[n])
  {
    if s == [] || !IsDigit(s[0]) then 0
    else
      var m := DigitRunLength(s[1..]);
      assert s[..1 + m] == [s[0]] + s[1..][..m];
      1 + m
  }

  // ---------------------------------------------------------------------------------------------
  // re.search(r'\d+', s)

  /** A regular-expression match: where it starts and the text of group 0. */
  datatype Match = Match(start: nat, text: string)

  /** `m` is the match `re.search(r'\d+', s)` reports: the first digit of `s` starts it and it
      extends over every digit that follows. */
  predicate IsFirstDigitRun(s: string, m: Match) {
    && |m.text| > 0
    && m.start + |m.text| <= |s|
    && s[m.start..m.start + |m.text|] == m.text
    && AllDigits(m.text)
    && NoDigit(s[..m.start])
    && (m.start + |m.text| == |s| || !IsDigit(s[m.start + |m.text|]))
  }

  function SearchDigitsFrom(s: string, i: nat): (m: Option<Match>)
    requires i <= |s|
    requires NoDigit(s[..i])
    ensures m.None? <==> NoDigit(s)
    ensures m.Some? ==> IsFirstDigitRun(s, m.value)
    decreases |s| - i
  {
    if i == |s| then
      assert s[..i] == s;
      None
    else if IsDigit(s[i]) then
      var n := DigitRunLength(s[i..]);
      assert s[i..][..n] == s[i..i + n];
      Some(Match(i, s[i..i + n]))
    else
      assert s[..i + 1] == s[..i] + [s[i]];
      SearchDigitsFrom(s, i + 1)
  }

  /** `re.search(r'\d+', s)`: the leftmost, longest run of digits, or no match. */
  function SearchDigits(s: string): (m: Option<Match>)
    ensures m.None? <==> NoDigit(s)
    ensures m.Some? ==> IsFirstDigitRun(s, m.value)
  {
    SearchDigitsFrom(s, 0)
  }

  /** The characterisation used by SearchDigits admits one match only, so it pins the result down. */
  lemma FirstDigitRunUnique(s: string, a: Match, b: Match)
    requires IsFirstDigitRun(s, a) && IsFirstDigitRun(s, b)
    ensures a == b
  {
    DigitRunPositions(s, a);
    DigitRunPositions(s, b);
    assert IsDigit(s[a.start]) && IsDigit(s[b.start]);
    assert a.start == b.start;
  }

  /** Position by position reading of IsFirstDigitRun. */
  lemma DigitRunPositions(s: string, m: Match)
    requires IsFirstDigitRun(s, m)
    ensures forall k :: 0 <= k < m.start ==> !IsDigit(s[k])
    ensures forall k :: m.start <= k < m.start + |m.text| ==> IsDigit(s[k])
  {
    forall k | 0 <= k < m.start ensures !IsDigit(s[k]) {
      assert s[..m.start][k] == s[k];
    }
    forall k | m.start <= k < m.start + |m.text| ensures IsDigit(s[k]) {
      assert s[k] == m.text[k - m.start];
    }
  }

  // ---------------------------------------------------------------------------------------------
  // str.lower and the `in` operator

  predicate IsUpperAscii(c: char) { 'A' <= c <= 'Z' }

  predicate IsAsciiLetter(c: char) { 'A' <= c <= 'Z' || 'a' <= c <= 'z' }

  function LowerChar(c: char): (l: char)
    ensures IsUpperAscii(c) ==> 'a' <= l <= 'z' && l as int == c as int + 32
    ensures !IsUpperAscii(c) ==> l == c
  {
    if IsUpperAscii(c) then (c as int + 32) as char else c
  }

  /** `s.lower()`, restricted to the ASCII letters. */
  function Lower(s: string): (r: string)
    ensures |r| == |s|
    ensures forall i :: 0 <= i < |s| ==> r[i] == LowerChar(s[i])
  {
    if s == [] then [] else [LowerChar(s[0])] + Lower(s[1..])
  }

  predicate StartsWith(s: string, prefix: string) {
    |prefix| <= |s| && s[..|prefix|] == prefix
  }

  /** Python's `kw in s` on strings. */
  predicate Contains(s: string, kw: string) {
    StartsWith(s, kw) || (s != [] && Contains(s[1..], kw))
  }

  predicate OccursAt(s: string, kw: string, i: nat) {
    i + |kw| <= |s| && s[i..i + |kw|] == kw
  }

  /** The recursive test agrees with the positional reading of `kw in s`, in both directions. */
  lemma {:induction false} ContainsIffOccurs(s: string, kw: string)
    ensures Contains(s, kw) <==> exists i :: OccursAt(s, kw, i)
  {
    if StartsWith(s, kw) {
      assert OccursAt(s, kw, 0);
    } else if s == [] {
    } else {
      ContainsIffOccurs(s[1..], kw);
      if j: nat :| OccursAt(s[1..], kw, j) {
        assert s[j + 1..j + 1 + |kw|] == s[1..][j..j + |kw|];
        assert OccursAt(s, kw, j + 1);
      }
      if i: nat :| OccursAt(s, kw, i) && i > 0 {
        assert s[1..][i - 1..i - 1 + |kw|] == s[i..i + |kw|];
        assert OccursAt(s[1..], kw, i - 1);
      }
    }
  }

  /** Text without upper-case ASCII letters is left as it is. */
  lemma LowerKeepsLowerCase(s: string)
    requires forall i :: 0 <= i < |s| ==> !IsUpperAscii(s[i])
    ensures Lower(s) == s
  {
    assert forall i :: 0 <= i < |s| ==> Lower(s)[i] == s[i];
  }

  /** Every character of a keyword found in a text occurs in that text; a text that lacks one of
      the keyword's characters does not contain the keyword. */
  lemma KeywordCharsOccur(s: string, kw: string, c: char)
    ensures c in kw && Contains(s, kw) ==> c in s
  {
    if c in kw && Contains(s, kw) {
      ContainsIffOccurs(s, kw);
      var i: nat :| OccursAt(s, kw, i);
      var j :| 0 <= j < |kw| && kw[j] == c;
      assert s[i + j] == s[i..i + |kw|][j];
    }
  }

  /** Lower-casing does not move a keyword that holds no ASCII letter: an Arabic keyword is found
      in `s.lower()` exactly when it is found in `s`. */
  lemma {:induction false} LowerKeepsNonLatinKeyword(s: string, kw: string)
    requires forall i :: 0 <= i < |kw| ==> !IsAsciiLetter(kw[i])
    ensures Contains(Lower(s), kw) <==> Contains(s, kw)
  {
    var l := Lower(s);
    assert StartsWith(l, kw) <==> StartsWith(s, kw) by {
      if |kw| <= |s| {
        if l[..|kw|] == kw {
          forall i | 0 <= i < |kw| ensures s[i] == kw[i] {
            assert l[i] == kw[i];
          }
        }
        if s[..|kw|] == kw {
          forall i | 0 <= i < |kw| ensures l[i] == kw[i] {
            assert s[i] == kw[i];
          }
        }
      }
    }
    if s != [] {
      assert l[1..] == Lower(s[1..]);
      LowerKeepsNonLatinKeyword(s[1..], kw);
    }
  }

  /** Any spelling of a keyword that lower-cases to it is found after `s.lower()`: "PRICE" and
      "Price" in a query both reach the "price" test. */
  lemma {:induction false} LowerFindsCaseVariant(s: string, variant: string)
    requires Contains(s, variant)
    ensures Contains(Lower(s), Lower(variant))
  {
    var l, lv := Lower(s), Lower(variant);
    if StartsWith(s, variant) {
      assert l[..|lv|] == lv;
    } else {
      assert l[1..] == Lower(s[1..]);
      LowerFindsCaseVariant(s[1..], variant);
    }
  }

  // ---------------------------------------------------------------------------------------------
  // str.replace and float()

  /** `s.replace(c, "")` for a one-character pattern: every other character is kept, as often as it
      occurs. */
  function RemoveChar(s: string, c: char): (r: string)
    ensures multiset(r) == multiset(s)[c := 0]
    ensures c !in r
    ensures forall x :: x in r ==> x in s
    ensures c !in s ==> r == s
  {
    if s == [] then []
    else if s[0] == c then
      assert s == [s[0]] + s[1..];
      RemoveChar(s[1..], c)
    else
      assert s == [s[0]] + s[1..];
      [s[0]] + RemoveChar(s[1..], c)
  }

  /** Removal works piece by piece and keeps the order of what it keeps. */
  lemma {:induction false} RemoveCharConcat(a: string, b: string, c: char)
    ensures RemoveChar(a + b, c) == RemoveChar(a, c) + RemoveChar(b, c)
  {
    if a == [] {
      assert a + b == b;
    } else {
      assert (a + b)[0] == a[0];
      assert (a + b)[1..] == a[1..] + b;
      RemoveCharConcat(a[1..], b, c);
    }
  }

  /** On one character, removal drops it exactly when it is the one removed. */
  lemma RemoveCharSingle(x: char, c: char)
    ensures RemoveChar([x], c) == if x == c then [] else [x]
  {
    assert [x][1..] == [];
  }

  /** The letter jeem, the abbreviation of the Egyptian pound that users type after an amount. */
  const PoundSign: char := '\U{062C}'

  /** `amount_str.replace("ج", "").replace(",", "")`. */
  function CleanAmount(s: string): (r: string)
    ensures PoundSign !in r && ',' !in r
    ensures multiset(r) == multiset(s)[PoundSign := 0][',' := 0]
    ensures AllDigits(s) ==> r == s
  {
    assert !IsDigit(PoundSign) && !IsDigit(',');
    var unsigned := RemoveChar(s, PoundSign);
    assert multiset(unsigned) == multiset(s)[PoundSign := 0];
    RemoveChar(unsigned, ',')
  }

  /** The clean-up works piece by piece, and a lone pound sign or comma vanishes. */
  lemma CleanAmountConcat(a: string, b: string)
    ensures CleanAmount(a + b) == CleanAmount(a) + CleanAmount(b)
    ensures CleanAmount([PoundSign]) == [] && CleanAmount([',']) == []
  {
    RemoveCharConcat(a, b, PoundSign);
    RemoveCharConcat(RemoveChar(a, PoundSign), RemoveChar(b, PoundSign), ',');
    RemoveCharSingle(PoundSign, PoundSign);
    RemoveCharSingle(',', PoundSign);
    RemoveCharSingle(',', ',');
  }

  /** Digits after the decimal point: `d` read as a fraction of one. */
  function FractionValue(d: string): (f: real)
    requires AllDigits(d)
    ensures 0.0 <= f
  {
    var x: nat, p: nat := DigitsValue(d), Pow10(|d|);
    Scaled(x as real, p as real)
  }

  /** `x` divided by a positive scale. */
  function Scaled(x: real, p: real): (f: real)
    requires x >= 0.0 && p > 0.0
    ensures f >= 0.0
  {
    x / p
  }

  /** The texts read as unsigned decimals: digits, or digits, a point and digits, with at least
      one digit in all. */
  predicate IsDecimal(s: string) {
    || (s != [] && AllDigits(s))
    || (exists k :: 0 <= k < |s| && s[k] == '.' && AllDigits(s[..k]) && AllDigits(s[k + 1..]) && |s| > 1)
  }

  /** A text whose first `k` characters are digits and whose character `k` is not has a digit run
      of length `k` at its head. */
  lemma DigitRunEndsAt(s: string, k: nat)
    requires k < |s| && !IsDigit(s[k]) && AllDigits(s[..k])
    ensures DigitRunLength(s) == k
  {
    var n := DigitRunLength(s);
    forall i | 0 <= i < k ensures IsDigit(s[i]) {
      assert s[..k][i] == s[i];
    }
    forall i | 0 <= i < n ensures IsDigit(s[i]) {
      assert s[..n][i] == s[i];
    }
  }

  /** An unsigned decimal: digits, optionally a point and more digits, at least one digit in all
      ("5", "5.", ".5" and "5.25" are read; "" and "." are not). */
  function ParseUnsigned(s: string): (r: Option<real>)
    ensures r.Some? ==> r.value >= 0.0
    ensures AllDigits(s) && s != [] ==> r == Some(DigitsValue(s) as real)
  {
    var n := DigitRunLength(s);
    assert AllDigits(s) ==> n == |s|;
    assert s[..|s|] == s;
    var whole, rest := s[..n], s[n..];
    if rest == [] then
      if n > 0 then Some(DigitsValue(whole) as real) else None
    else if rest[0] == '.' && AllDigits(rest[1..]) && n + |rest| - 1 > 0 then
      Some(DigitsValue(whole) as real + FractionValue(rest[1..]))
    else
      None
  }

  /** ParseUnsigned reads exactly the decimals. */
  lemma ParseUnsignedAccepts(s: string)
    ensures ParseUnsigned(s).Some? <==> IsDecimal(s)
  {
    ParseUnsignedReadsDecimals(s);
  }

  /** The shape test inside ParseUnsigned accepts exactly the decimals. */
  lemma ParseUnsignedReadsDecimals(s: string)
    ensures var n := DigitRunLength(s);
      var rest := s[n..];
      IsDecimal(s) <==>
        (rest == [] && n > 0) || (rest != [] && rest[0] == '.' && AllDigits(rest[1..]) && n + |rest| - 1 > 0)
  {
    var n := DigitRunLength(s);
    var rest := s[n..];
    if rest != [] && rest[0] == '.' && AllDigits(rest[1..]) && n + |rest| - 1 > 0 {
      assert s[n] == '.' && s[n + 1..] == rest[1..];
    }
    if rest == [] && n > 0 {
      assert s[..n] == s;
    }
    if k :| 0 <= k < |s| && s[k] == '.' && AllDigits(s[..k]) && AllDigits(s[k + 1..]) && |s| > 1 {
      DigitRunEndsAt(s, k);
      assert rest[1..] == s[k + 1..];
    }
    if s != [] && AllDigits(s) {
      assert s[..|s|] == s;
      assert n == |s|;
    }
  }

  /** A decimal with its point at `k` reads as the digits before the point plus the fraction
      after it. */
  lemma ParseUnsignedPoint(s: string, k: nat)
    requires k < |s| && s[k] == '.' && AllDigits(s[..k]) && AllDigits(s[k + 1..]) && |s| > 1
    ensures ParseUnsigned(s) == Some(DigitsValue(s[..k]) as real + FractionValue(s[k + 1..]))
  {
    DigitRunEndsAt(s, k);
    assert s[k..][1..] == s[k + 1..];
  }

  /** The value of w plus the fraction f is the value of the digits of w then f, divided by ten to
      the number of digits of f. */
  lemma DecimalValue(w: string, f: string)
    requires AllDigits(w) && AllDigits(f)
    ensures AllDigits(w + f)
    ensures DigitsValue(w) as real + FractionValue(f) == Scaled(DigitsValue(w + f) as real, Pow10(|f|) as real)
  {
    DigitsValueAppend(w, f);
    FractionIsScaled(f);
    ShiftScaled(DigitsValue(w), DigitsValue(f), Pow10(|f|));
  }

  lemma FractionIsScaled(d: string)
    requires AllDigits(d)
    ensures FractionValue(d) == Scaled(DigitsValue(d) as real, Pow10(|d|) as real)
  {
  }

  lemma ShiftScaled(a: nat, q: nat, p: nat)
    requires p >= 1
    ensures a as real + Scaled(q as real, p as real) == Scaled((a * p + q) as real, p as real)
  {
    var pr := p as real;
    assert (a * p + q) as real == a as real * pr + q as real;
    assert (a as real * pr + q as real) / pr == a as real + q as real / pr;
  }

  /** The text after an optional leading sign. */
  function Magnitude(s: string): (m: string)
    ensures |m| <= |s|
  {
    if s != [] && (s[0] == '-' || s[0] == '+') then s[1..] else s
  }

  /** `float(s)` on the strings this model admits: an optional sign and an unsigned decimal. */
  function ParseNumber(s: string): (r: Option<real>)
    ensures r.Some? <==> ParseUnsigned(Magnitude(s)).Some?
    ensures r.Some? ==> Abs(r.value) == ParseUnsigned(Magnitude(s)).value
    ensures r.Some? && s != [] && s[0] == '-' ==> r.value <= 0.0
    ensures r.Some? && r.value < 0.0 ==> s != [] && s[0] == '-'
    ensures AllDigits(s) && s != [] ==> r == Some(DigitsValue(s) as real)
  {
    if s != [] && s[0] == '-' then
      match ParseUnsigned(s[1..])
      case Some(v) => Some(-v)
      case None => None
    else if s != [] && s[0] == '+' then
      ParseUnsigned(s[1..])
    else
      ParseUnsigned(s)
  }

  /** `float(s)` reads exactly a decimal after an optional sign. */
  lemma ParseNumberAccepts(s: string)
    ensures ParseNumber(s).Some? <==> IsDecimal(Magnitude(s))
  {
    ParseUnsignedAccepts(Magnitude(s));
  }

  /** "5.25" reads as 5.25, "5," is not a number, and "." is not a number. */
  lemma ExampleDecimals(a: string, b: string, c: string)
    requires a == "5.25" && b == "5," && c == "."
    ensures ParseNumber(a) == Some(5.25) && ParseNumber(b).None? && ParseNumber(c).None?
  {
    ParseUnsignedPoint(a, 1);
    assert a[..1] == "5" && a[2..] == "25";
    assert DigitsValue("25") == 25;
  }
}
