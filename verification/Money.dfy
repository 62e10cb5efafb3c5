/** Amounts in cents and their decimal spelling (src/common/money/money.ts). */
module Money {
  import opened Common
  import opened JsText

  /** What toFixed(2) prints for n hundredths, without the point: three digits or more (ECMA-262, section 21.1.3.3). */
  function Padded(n: nat): string {
    var m := PrintNat(n);
    if |m| == 1 then "00" + m else if |m| == 2 then "0" + m else m
  }

  function Signed(negative: bool, body: string): string {
    (if negative then "-" else "") + body
  }

  function FormatAmountFromCents(cents: int): string {
    var digits := Padded(if cents < 0 then -cents else cents);
    assert |digits| >= 2;
    Signed(cents < 0, digits[..|digits| - 2] + "." + digits[|digits| - 2..])
  }

  /** Position of the first point, or the length. */
  function PointAt(s: string): (k: nat)
    ensures k <= |s| && (k < |s| ==> s[k] == '.') && forall i :: 0 <= i < k ==> s[i] != '.'
  {
    if s == "" then 0 else if s[0] == '.' then 0 else 1 + PointAt(s[1..])
  }

  function Unsigned(s: string): string {
    if s != "" && s[0] == '-' then s[1..] else s
  }

  /** digits, optionally followed by a point and one or two digits. */
  predicate IsAmount(s: string) {
    var k := PointAt(s);
    && k > 0 && AllDigits(s[..k])
    && (k == |s| || (1 <= |s| - k - 1 <= 2 && AllDigits(s[k + 1..])))
  }

  function Fraction(s: string): string {
    var k := PointAt(s);
    if k == |s| then "" else s[k + 1..]
  }

  lemma FractionDigits(s: string)
    requires IsAmount(s)
    ensures AllDigits((Fraction(s) + "00")[..2])
  {
  }

  function AmountCents(s: string): nat
    requires IsAmount(s)
  {
    FractionDigits(s);
    100 * DigitsValue(s[..PointAt(s)]) + DigitsValue((Fraction(s) + "00")[..2])
  }

  /** None stands for the exception on a malformed amount. */
  function YuanStringToCents(yuan: string): Option<int> {
    var trimmed := Trim(yuan);
    var unsigned := Unsigned(trimmed);
    if !IsAmount(unsigned) then None
    else
      var cents: int := AmountCents(unsigned);
      Some(if trimmed[0] == '-' then -cents else cents)
  }

  // ----------------------------------------------------- what is accepted, and as what

  /** An optional minus, digits, and optionally a point with one or two digits. */
  predicate Spells(s: string, negative: bool, whole: string, frac: string) {
    && whole != "" && AllDigits(whole) && AllDigits(frac) && |frac| <= 2
    && s == Signed(negative, whole + if frac == "" then "" else "." + frac)
  }

  /** One decimal counts tenths, two count hundredths. */
  function FractionCents(frac: string): nat
    requires AllDigits(frac) && |frac| <= 2
  {
    if |frac| == 0 then 0 else if |frac| == 1 then 10 * DigitValue(frac[0]) else DigitsValue(frac)
  }

  lemma PointOfSpelling(whole: string, frac: string)
    requires whole != "" && AllDigits(whole) && AllDigits(frac) && |frac| <= 2
    ensures var body := whole + if frac == "" then "" else "." + frac;
      PointAt(body) == |whole| && body[..|whole|] == whole && Fraction(body) == frac && IsAmount(body)
  {
    var body := whole + if frac == "" then "" else "." + frac;
    if frac == "" {
      assert body == whole;
      assert forall i :: 0 <= i < |whole| ==> whole[i] != '.';
      assert body[..|whole|] == whole;
    } else {
      assert body == whole + "." + frac;
      PointOf(whole, frac);
      assert body[..|whole|] == whole && body[|whole| + 1..] == frac;
    }
  }

  lemma FractionValue(frac: string)
    requires AllDigits(frac) && |frac| <= 2
    ensures AllDigits((frac + "00")[..2]) && DigitsValue((frac + "00")[..2]) == FractionCents(frac)
  {
    if |frac| == 0 {
      assert (frac + "00")[..2] == "00";
      TwoDigits("00");
    } else if |frac| == 1 {
      assert (frac + "00")[..2] == [frac[0], '0'];
      TwoDigits([frac[0], '0']);
    } else {
      assert (frac + "00")[..2] == frac;
    }
  }

  /** The value of an accepted spelling, whatever space surrounds it. */
  lemma SpelledCents(yuan: string, negative: bool, whole: string, frac: string)
    requires Spells(Trim(yuan), negative, whole, frac)
    ensures var cents := 100 * DigitsValue(whole) + FractionCents(frac);
      YuanStringToCents(yuan) == Some(if negative then -(cents as int) else cents)
  {
    var body := whole + if frac == "" then "" else "." + frac;
    BodyCents(whole, frac);
    assert body[0] == whole[0];
    UnsignedOf(negative, body);
  }

  lemma BodyCents(whole: string, frac: string)
    requires whole != "" && AllDigits(whole) && AllDigits(frac) && |frac| <= 2
    ensures var body := whole + if frac == "" then "" else "." + frac;
      IsAmount(body) && AmountCents(body) == 100 * DigitsValue(whole) + FractionCents(frac)
  {
    PointOfSpelling(whole, frac);
    FractionValue(frac);
  }

  lemma UnsignedOf(negative: bool, body: string)
    requires body != "" && body[0] != '-'
    ensures var s := Signed(negative, body);
      s != "" && (s[0] == '-' <==> negative) && Unsigned(s) == body
  {
    if negative {
      assert Signed(true, body) == "-" + body && ("-" + body)[1..] == body;
    } else {
      assert Signed(false, body) == body;
    }
  }

  /** Exactly the spellings of that shape are accepted, with any space around them. */
  lemma AcceptedIff(yuan: string)
    ensures YuanStringToCents(yuan).Some? <==>
      exists negative, whole, frac :: Spells(Trim(yuan), negative, whole, frac)
  {
    var t := Trim(yuan);
    var u := Unsigned(t);
    if YuanStringToCents(yuan).Some? {
      var k := PointAt(u);
      var whole, frac := u[..k], Fraction(u);
      var negative := t[0] == '-';
      assert u == whole + if frac == "" then "" else "." + frac by {
        if k == |u| {
          assert u == whole;
        } else {
          assert u == u[..k] + [u[k]] + u[k + 1..];
        }
      }
      assert t == Signed(negative, u) by {
        assert negative ==> t == "-" + t[1..];
      }
      assert Spells(t, negative, whole, frac);
    }
    if negative, whole, frac :| Spells(t, negative, whole, frac) {
      SpelledCents(yuan, negative, whole, frac);
    }
  }

  // ------------------------------------------------------------- round trips

  /** The canonical spelling: normal whole part, point, exactly two digits, no negative zero. */
  predicate Canonical(s: string) {
    var u := Unsigned(s);
    && |u| >= 4 && u[|u| - 3] == '.' && Normal(u[..|u| - 3]) && AllDigits(u[|u| - 2..])
    && (s[0] == '-' ==> u != "0.00")
  }

  lemma PointOf(whole: string, frac: string)
    requires AllDigits(whole)
    ensures PointAt(whole + "." + frac) == |whole|
  {
    var s := whole + "." + frac;
    assert s[|whole|] == '.';
    assert forall i :: 0 <= i < |whole| ==> s[i] == whole[i] && s[i] != '.';
  }

  lemma TwoDigits(frac: string)
    requires |frac| == 2 && AllDigits(frac)
    ensures DigitsValue(frac) == 10 * DigitValue(frac[0]) + DigitValue(frac[1])
  {
    assert frac[..1] == [frac[0]] && frac[..1][..0] == "";
    assert DigitsValue(frac[..1]) == DigitValue(frac[0]);
  }

  lemma AmountOf(whole: string, frac: string)
    requires whole != "" && AllDigits(whole) && |frac| == 2 && AllDigits(frac)
    ensures IsAmount(whole + "." + frac)
    ensures AllDigits(whole + frac) && AmountCents(whole + "." + frac) == DigitsValue(whole + frac)
  {
    var s := whole + "." + frac;
    PointOf(whole, frac);
    assert s[..|whole|] == whole && s[|whole| + 1..] == frac;
    assert (frac + "00")[..2] == frac;
    TwoDigits(frac);
    DigitsValueSnoc(whole, frac[0]);
    DigitsValueSnoc(whole + [frac[0]], frac[1]);
    assert whole + frac == whole + [frac[0]] + [frac[1]];
  }

  lemma PaddedValue(n: nat)
    ensures |Padded(n)| >= 3 && AllDigits(Padded(n)) && DigitsValue(Padded(n)) == n
    ensures Normal(Padded(n)[..|Padded(n)| - 2])
  {
    PrintThenRead(n);
    var m := PrintNat(n);
    LeadingZero(m);
    LeadingZero("0" + m);
    assert "0" + ("0" + m) == "00" + m;
    assert |m| <= 2 ==> Padded(n)[..|Padded(n)| - 2] == "0";
  }

  /** The printed form in parts: sign, whole part, fraction. */
  lemma FormatParts(cents: int) returns (whole: string, frac: string)
    ensures FormatAmountFromCents(cents) == Signed(cents < 0, whole + "." + frac)
    ensures Normal(whole) && |frac| == 2 && AllDigits(frac)
    ensures AllDigits(whole + frac) && DigitsValue(whole + frac) == if cents < 0 then -cents else cents
  {
    var n := if cents < 0 then -cents else cents;
    var digits := Padded(n);
    PaddedValue(n);
    whole, frac := digits[..|digits| - 2], digits[|digits| - 2..];
    assert whole + frac == digits;
  }

  lemma NoSpace(c: char)
    requires IsDigit(c) || c == '-'
    ensures !IsSpace(c)
  {
  }

  /** A sign in front of a body, taken off again. */
  lemma SignOn(negative: bool, body: string)
    requires body != "" && IsDigit(body[0]) && IsDigit(body[|body| - 1])
    ensures var s := Signed(negative, body);
      s != "" && (s[0] == '-' <==> negative) && !IsSpace(s[0]) && !IsSpace(s[|s| - 1]) && Unsigned(s) == body
  {
    NoSpace(body[0]);
    NoSpace(body[|body| - 1]);
    NoSpace('-');
    var s := Signed(negative, body);
    if negative {
      assert s == "-" + body && s[1..] == body && s[|s| - 1] == body[|body| - 1];
    } else {
      assert s == body;
    }
  }

  lemma ParsedAs(s: string, body: string)
    requires Trim(s) == s && s != "" && Unsigned(s) == body && IsAmount(body)
    ensures YuanStringToCents(s) == Some(if s[0] == '-' then -(AmountCents(body) as int) else AmountCents(body))
  {
  }

  /** How a well-formed body parses with and without a sign. */
  lemma ParseSigned(negative: bool, whole: string, frac: string)
    requires whole != "" && AllDigits(whole) && |frac| == 2 && AllDigits(frac)
    ensures AllDigits(whole + frac)
    ensures YuanStringToCents(Signed(negative, whole + "." + frac))
         == Some(if negative then -(DigitsValue(whole + frac) as int) else DigitsValue(whole + frac))
  {
    var body := whole + "." + frac;
    AmountOf(whole, frac);
    assert body[0] == whole[0] && body[|body| - 1] == frac[1];
    SignOn(negative, body);
    TrimKeeps(Signed(negative, body));
    ParsedAs(Signed(negative, body), body);
  }

  /** Every integer number of cents, negative ones included, survives printing and parsing. */
  lemma PrintThenParse(cents: int)
    ensures YuanStringToCents(FormatAmountFromCents(cents)) == Some(cents)
  {
    var whole, frac := FormatParts(cents);
    ParseSigned(cents < 0, whole, frac);
  }

  lemma PrintedIsCanonical(cents: int)
    ensures Canonical(FormatAmountFromCents(cents))
  {
    var whole, frac := FormatParts(cents);
    var s, body := FormatAmountFromCents(cents), whole + "." + frac;
    assert s[0] == '-' <==> cents < 0;
    assert Unsigned(s) == body;
    assert |body| == |whole| + 3 && body[..|body| - 3] == whole && body[|body| - 2..] == frac;
    if body == "0.00" {
      ZeroBody(whole, frac);
    }
  }

  lemma ZeroBody(whole: string, frac: string)
    requires |frac| == 2 && whole + "." + frac == "0.00"
    ensures AllDigits(whole + frac) && DigitsValue(whole + frac) == 0
  {
    var body := whole + "." + frac;
    assert whole == body[..1] == "0" && frac == body[2..] == "00";
    assert whole + frac == "000";
    ZeroDigits();
  }

  lemma ZeroDigits()
    ensures AllDigits("000") && DigitsValue("000") == 0
  {
    LeadingZero(""); LeadingZero("0"); LeadingZero("00");
    assert "0" + "" == "0" && "0" + "0" == "00" && "0" + "00" == "000";
  }

  /** Parsing then printing any accepted spelling gives the canonical one for the same cents. */
  lemma ParseThenPrint(yuan: string)
    requires YuanStringToCents(yuan).Some?
    ensures var printed := FormatAmountFromCents(YuanStringToCents(yuan).value);
      Canonical(printed) && YuanStringToCents(printed) == YuanStringToCents(yuan)
  {
    PrintThenParse(YuanStringToCents(yuan).value);
    PrintedIsCanonical(YuanStringToCents(yuan).value);
  }

  lemma TwoDigitsUnique(f1: string, f2: string)
    requires |f1| == 2 && |f2| == 2 && AllDigits(f1) && AllDigits(f2) && DigitsValue(f1) == DigitsValue(f2)
    ensures f1 == f2
  {
    TwoDigits(f1); TwoDigits(f2);
    assert f1[0] == f2[0] && f1[1] == f2[1];
  }

  lemma SplitValue(whole: string, frac: string)
    requires AllDigits(whole) && |frac| == 2 && AllDigits(frac)
    ensures AllDigits(whole + frac) && DigitsValue(whole + frac) == 100 * DigitsValue(whole) + DigitsValue(frac)
    ensures DigitsValue(frac) < 100
  {
    TwoDigits(frac);
    DigitsValueSnoc(whole, frac[0]);
    DigitsValueSnoc(whole + [frac[0]], frac[1]);
    assert whole + frac == whole + [frac[0]] + [frac[1]];
  }

  lemma SameHundreds(a: nat, b: nat, c: nat, d: nat)
    requires 100 * a + b == 100 * c + d && b < 100 && d < 100
    ensures a == c && b == d
  {
  }

  /** Two canonical bodies with the same cents are the same string. */
  lemma CanonicalBodyIsUnique(w1: string, f1: string, w2: string, f2: string)
    requires Normal(w1) && Normal(w2) && |f1| == 2 && |f2| == 2 && AllDigits(f1) && AllDigits(f2)
    requires AllDigits(w1 + f1) && AllDigits(w2 + f2) && DigitsValue(w1 + f1) == DigitsValue(w2 + f2)
    ensures w1 == w2 && f1 == f2
  {
    SplitValue(w1, f1); SplitValue(w2, f2);
    SameHundreds(DigitsValue(w1), DigitsValue(f1), DigitsValue(w2), DigitsValue(f2));
    ReadThenPrint(w1); ReadThenPrint(w2);
    TwoDigitsUnique(f1, f2);
  }

  /** A canonical spelling in parts. */
  lemma CanonicalParts(s: string) returns (whole: string, frac: string)
    requires Canonical(s)
    ensures s == Signed(s[0] == '-', whole + "." + frac)
    ensures Normal(whole) && |frac| == 2 && AllDigits(frac)
    ensures s[0] == '-' ==> AllDigits(whole + frac) && DigitsValue(whole + frac) > 0
  {
    var u := Unsigned(s);
    whole, frac := u[..|u| - 3], u[|u| - 2..];
    assert u == whole + "." + frac;
    if s[0] == '-' {
      NotZero(whole, frac);
    }
  }

  lemma NotZero(whole: string, frac: string)
    requires Normal(whole) && |frac| == 2 && AllDigits(frac) && whole + "." + frac != "0.00"
    ensures AllDigits(whole + frac) && DigitsValue(whole + frac) > 0
  {
    SplitValue(whole, frac);
    if whole[0] != '0' {
      ReadThenPrint(whole);
    } else {
      assert whole == "0" && frac == [frac[0], frac[1]];
      TwoDigits(frac);
    }
  }

  /** The printer is the exact inverse of the parser on canonical spellings, so they match the integers one to one. */
  lemma CanonicalIsPrinted(s: string)
    requires Canonical(s)
    ensures YuanStringToCents(s).Some? && FormatAmountFromCents(YuanStringToCents(s).value) == s
  {
    var whole, frac := CanonicalParts(s);
    ParseSigned(s[0] == '-', whole, frac);
    var cents := YuanStringToCents(s).value;
    var w2, f2 := FormatParts(cents);
    CanonicalBodyIsUnique(whole, frac, w2, f2);
  }
}
