/** The string and number conversions of JavaScript that money and token lifetimes rely on. */
module JsText {

  /** White space and line terminators, as String.prototype.trim removes them (section 22.1.3.32 of ECMA-262). */
  predicate IsSpace(c: char) {
    || c == ' ' || '\t' <= c <= '\r' || c == '\U{00A0}' || c == '\U{1680}' || '\U{2000}' <= c <= '\U{200A}'
    || c == '\U{2028}' || c == '\U{2029}' || c == '\U{202F}' || c == '\U{205F}' || c == '\U{3000}' || c == '\U{FEFF}'
  }

  function TrimLeft(s: string): string {
    if s != "" && IsSpace(s[0]) then TrimLeft(s[1..]) else s
  }

  function TrimRight(s: string): string {
    if s != "" && IsSpace(s[|s| - 1]) then TrimRight(s[..|s| - 1]) else s
  }

  function Trim(s: string): string {
    TrimRight(TrimLeft(s))
  }

  lemma {:induction false} TrimLeftIs(s: string) returns (n: nat)
    ensures n <= |s| && TrimLeft(s) == s[n..]
    ensures forall i :: 0 <= i < n ==> IsSpace(s[i])
    ensures n < |s| ==> !IsSpace(s[n])
    decreases |s|
  {
    n := 0;
    if s != "" && IsSpace(s[0]) {
      var m := TrimLeftIs(s[1..]);
      n := m + 1;
      assert s[1..][m..] == s[n..];
      assert forall i :: 0 < i < n ==> s[i] == s[1..][i - 1];
    }
  }

  lemma {:induction false} TrimRightIs(s: string) returns (n: nat)
    ensures n <= |s| && TrimRight(s) == s[..n]
    ensures forall i :: n <= i < |s| ==> IsSpace(s[i])
    ensures n > 0 ==> !IsSpace(s[n - 1])
    decreases |s|
  {
    n := |s|;
    if s != "" && IsSpace(s[|s| - 1]) {
      var init := s[..|s| - 1];
      n := TrimRightIs(init);
      assert init[..n] == s[..n];
      assert forall i :: n <= i < |init| ==> s[i] == init[i];
    }
  }

  /** Trimming takes the space off both ends, all of it, and nothing else. */
  lemma TrimIs(s: string) returns (i: nat, j: nat)
    ensures i <= j <= |s| && Trim(s) == s[i..j]
    ensures forall k :: 0 <= k < i || j <= k < |s| ==> IsSpace(s[k])
    ensures i < j ==> !IsSpace(s[i]) && !IsSpace(s[j - 1])
  {
    i := TrimLeftIs(s);
    var n := TrimRightIs(s[i..]);
    j := i + n;
    assert s[i..][..n] == s[i..j];
    assert forall k :: j <= k < |s| ==> s[k] == s[i..][k - i];
    assert n > 0 ==> s[i..][n - 1] == s[j - 1];
  }

  predicate IsDigit(c: char) {
    '0' <= c <= '9'
  }

  predicate AllDigits(s: string) {
    forall i :: 0 <= i < |s| ==> IsDigit(s[i])
  }

  function DigitValue(c: char): nat
    requires IsDigit(c)
  {
    (c - '0') as nat
  }

  /** Number(s) for a string of decimal digits; the empty string reads as 0. */
  function DigitsValue(s: string): nat
    requires AllDigits(s)
  {
    if s == "" then 0 else 10 * DigitsValue(s[..|s| - 1]) + DigitValue(s[|s| - 1])
  }

  function DigitChar(d: nat): char
    requires d < 10
  {
    '0' + d as char
  }

  /** The decimal digits of a number, without leading zeros. */
  function PrintNat(n: nat): string {
    if n < 10 then [DigitChar(n)] else PrintNat(n / 10) + [DigitChar(n % 10)]
  }

  /** Digits without a superfluous leading zero. */
  predicate Normal(s: string) {
    s != "" && AllDigits(s) && (|s| > 1 ==> s[0] != '0')
  }

  lemma DigitsValueSnoc(s: string, c: char)
    requires AllDigits(s) && IsDigit(c)
    ensures AllDigits(s + [c]) && DigitsValue(s + [c]) == 10 * DigitsValue(s) + DigitValue(c)
  {
    assert (s + [c])[..|s|] == s;
  }

  /** Printing gives the normal form, and reading it back gives the number. */
  lemma {:induction false} PrintThenRead(n: nat)
    ensures Normal(PrintNat(n)) && DigitsValue(PrintNat(n)) == n
    ensures n > 0 ==> PrintNat(n)[0] != '0'
  {
    if n >= 10 {
      PrintThenRead(n / 10);
      DigitsValueSnoc(PrintNat(n / 10), DigitChar(n % 10));
      assert PrintNat(n)[0] == PrintNat(n / 10)[0];
    } else {
      DigitsValueSnoc("", DigitChar(n));
      assert "" + [DigitChar(n)] == [DigitChar(n)];
    }
  }

  lemma PrintStep(n: nat, last: char)
    requires n > 0 && IsDigit(last)
    ensures PrintNat(10 * n + DigitValue(last)) == PrintNat(n) + [last]
  {
    var m := 10 * n + DigitValue(last);
    assert m / 10 == n && m % 10 == DigitValue(last);
  }

  lemma OneDigit(c: char)
    requires IsDigit(c)
    ensures PrintNat(DigitValue(c)) == [c]
    ensures c != '0' ==> DigitValue(c) > 0
  {
  }

  lemma LastDigit(s: string)
    requires s != "" && AllDigits(s)
    ensures AllDigits(s[..|s| - 1]) && DigitsValue(s) == 10 * DigitsValue(s[..|s| - 1]) + DigitValue(s[|s| - 1])
  {
  }

  /** Reading a normal form and printing it gives it back. */
  lemma {:induction false} ReadThenPrint(s: string)
    requires Normal(s)
    ensures PrintNat(DigitsValue(s)) == s
    ensures s[0] != '0' ==> DigitsValue(s) > 0
    decreases |s|
  {
    var init, last := s[..|s| - 1], s[|s| - 1];
    LastDigit(s);
    if |s| == 1 {
      OneDigit(last);
      assert s == [last];
    } else {
      assert s == init + [last] && init[0] == s[0];
      ReadThenPrint(init);
      PrintStep(DigitsValue(init), last);
    }
  }

  /** Leading zeros do not change a value. */
  lemma {:induction false} LeadingZeroes(zeroes: string, s: string)
    requires AllDigits(zeroes) && AllDigits(s) && DigitsValue(zeroes) == 0
    ensures AllDigits(zeroes + s) && DigitsValue(zeroes + s) == DigitsValue(s)
    decreases |s|
  {
    if s == "" {
      assert zeroes + s == zeroes;
    } else {
      var init, last := s[..|s| - 1], s[|s| - 1];
      LeadingZeroes(zeroes, init);
      assert zeroes + s == (zeroes + init) + [last];
      DigitsValueSnoc(zeroes + init, last);
      LastDigit(s);
    }
  }

  lemma LeadingZero(s: string)
    requires AllDigits(s)
    ensures AllDigits("0" + s) && DigitsValue("0" + s) == DigitsValue(s)
  {
    OneDigitValue('0');
    LeadingZeroes("0", s);
  }

  lemma OneDigitValue(c: char)
    requires IsDigit(c)
    ensures AllDigits([c]) && DigitsValue([c]) == DigitValue(c)
  {
    LastDigit([c]);
  }

  /** A string that neither starts nor ends with a space is its own trim. */
  lemma TrimKeeps(s: string)
    requires s != "" && !IsSpace(s[0]) && !IsSpace(s[|s| - 1])
    ensures Trim(s) == s
  {
    assert TrimLeft(s) == s;
  }
}
