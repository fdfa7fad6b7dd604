/** Decimal amount texts: the amount field's input filter `^\d*\.?\d*$`
    and `String.toDoubleOrNull` / `String.toDouble` on such texts; and the
    whole percentages `(part / total * 100).toInt()`. */
module Numbers {
  import opened Wrappers
  import Text

  /** The position of the first '.', or -1. */
  function DotIndex(s: string): (r: int)
    ensures -1 <= r < |s|
    ensures r == -1 <==> '.' !in s
    ensures r >= 0 ==> s[r] == '.' && '.' !in s[..r]
  {
    if s == [] then -1
    else if s[0] == '.' then 0
    else
      var k := DotIndex(s[1..]);
      assert s == [s[0]] + s[1..];
      if k == -1 then -1
      else
        assert s[..k + 1] == [s[0]] + s[1..][..k];
        k + 1
  }

  /** `matches(Regex("^\\d*\\.?\\d*$"))`: digits, at most one '.', digits
      (`\d` is an ASCII digit here). */
  predicate MatchesAmountPattern(s: string) {
    var i := DotIndex(s);
    if i < 0 then Text.AllDigits(s) else Text.AllDigits(s[..i]) && Text.AllDigits(s[i + 1..])
  }

  /** The texts the filter accepts are closed under prefixes, so deleting
      from the end never gets stuck. */
  lemma AmountPatternPrefix(s: string, n: nat)
    requires MatchesAmountPattern(s) && n <= |s|
    ensures MatchesAmountPattern(s[..n])
  {
    var i := DotIndex(s);
    var p := s[..n];
    if i < 0 || n <= i {
      assert '.' !in p by {
        if i >= 0 {
          assert p == s[..i][..n];
        }
      }
    } else {
      assert p[..i] == s[..i];
      assert DotIndex(p) == i;
      assert p[i + 1..] == s[i + 1..][..n - i - 1];
    }
  }

  function Pow10(k: nat): (r: real)
    ensures r >= 1.0
  {
    if k == 0 then 1.0 else 10.0 * Pow10(k - 1)
  }

  predicate HasDigit(s: string) {
    exists i :: 0 <= i < |s| && Text.IsDigit(s[i])
  }

  /** The value of a filtered text: integer part plus fraction. */
  function AmountValue(s: string): (r: real)
    requires MatchesAmountPattern(s)
    ensures r >= 0.0
  {
    var i := DotIndex(s);
    if i < 0 then Text.DigitsValue(s) as real
    else Text.DigitsValue(s[..i]) as real + Text.DigitsValue(s[i + 1..]) as real / Pow10(|s| - i - 1)
  }

  /** The position of the first exponent marker 'E' or 'e', or -1. */
  function ExpIndex(s: string): (r: int)
    ensures -1 <= r < |s|
    ensures r == -1 <==> 'E' !in s && 'e' !in s
    ensures r >= 0 ==> (s[r] == 'E' || s[r] == 'e') && 'E' !in s[..r] && 'e' !in s[..r]
  {
    if s == [] then -1
    else if s[0] == 'E' || s[0] == 'e' then 0
    else
      var k := ExpIndex(s[1..]);
      assert s == [s[0]] + s[1..];
      if k == -1 then -1
      else
        assert s[..k + 1] == [s[0]] + s[1..][..k];
        k + 1
  }

  /** The exponent after the marker: `[+-]?\d+`. */
  predicate ExponentText(t: string) {
    if |t| > 0 && (t[0] == '+' || t[0] == '-') then |t| > 1 && Text.AllDigits(t[1..])
    else |t| > 0 && Text.AllDigits(t)
  }

  function ExponentValue(t: string): int
    requires ExponentText(t)
  {
    if t[0] == '-' then 0 - Text.DigitsValue(t[1..])
    else if t[0] == '+' then Text.DigitsValue(t[1..])
    else Text.DigitsValue(t)
  }

  /** `x` times ten to the power `e`. */
  function Scaled(x: real, e: int): (r: real)
    ensures x >= 0.0 ==> r >= 0.0
  {
    if e >= 0 then x * Pow10(e) else x / Pow10(-e)
  }

  /** A mantissa the amount filter accepts, holding a digit, then an
      exponent: the scientific texts of the `Double` grammar. */
  predicate MatchesScientific(s: string) {
    var k := ExpIndex(s);
    k >= 0 && MatchesAmountPattern(s[..k]) && HasDigit(s[..k]) && ExponentText(s[k + 1..])
  }

  /** The value of a scientific text: the mantissa scaled by the exponent. */
  function ScientificValue(s: string): (r: real)
    requires MatchesScientific(s)
    ensures r >= 0.0
  {
    var k := ExpIndex(s);
    Scaled(AmountValue(s[..k]), ExponentValue(s[k + 1..]))
  }

  /** `toDoubleOrNull()` on a text without sign or surrounding white space:
      a number for a filtered text holding a digit, and for a scientific
      text such as "1.0E7" or "5.0E-4"; null for anything else. */
  function ToDoubleOrNull(s: string): (r: Option<real>)
    ensures MatchesAmountPattern(s) ==> (r.None? <==> s == "" || s == ".")
    ensures !MatchesAmountPattern(s) ==> (r.Some? <==> MatchesScientific(s))
    ensures r.Some? ==> r.value >= 0.0
  {
    if MatchesAmountPattern(s) then
      NoDigitIsEmptyOrDot(s);
      if HasDigit(s) then Some(AmountValue(s)) else None
    else if MatchesScientific(s) then Some(ScientificValue(s))
    else None
  }

  /** The layout of Kotlin's `Double.toString` for a finite non-negative
      value: digits, '.', digits and, below 10^-3 or from 10^7 on, an
      exponent after 'E'. */
  predicate DoubleTextShape(s: string) {
    var k := ExpIndex(s);
    var m := if k < 0 then s else s[..k];
    var i := DotIndex(m);
    0 < i < |m| - 1 && Text.AllDigits(m[..i]) && Text.AllDigits(m[i + 1..])
    && (k >= 0 ==> ExponentText(s[k + 1..]))
  }

  /** Every text `Double.toString` writes for an amount parses back, so a
      loaded expense's amount text is never rejected by `toDoubleOrNull`. */
  lemma DoubleTextParses(s: string)
    requires DoubleTextShape(s)
    ensures ToDoubleOrNull(s).Some?
  {
    var k := ExpIndex(s);
    var m := if k < 0 then s else s[..k];
    var i := DotIndex(m);
    assert MatchesAmountPattern(m);
    assert m[..i][0] == m[0];
    assert HasDigit(m);
    if k >= 0 {
      assert !MatchesAmountPattern(s) by {
        if MatchesAmountPattern(s) {
          AmountPatternHasNoMarker(s, k);
        }
      }
    }
  }

  /** A filtered text holds digits and '.' only. */
  lemma AmountPatternHasNoMarker(s: string, k: nat)
    requires MatchesAmountPattern(s) && k < |s|
    ensures s[k] == '.' || Text.IsDigit(s[k])
  {
    var i := DotIndex(s);
    if i >= 0 && k < i {
      assert s[k] == s[..i][k];
    } else if i >= 0 && k > i {
      assert s[k] == s[i + 1..][k - i - 1];
    }
  }

  /** `Double.toString(1.0E7)` reads back as ten million. */
  lemma ParseTenMillion()
    ensures ToDoubleOrNull("1.0E7") == Some(10000000.0)
  {
    var s := "1.0E7";
    OneAndZero("1.0", '1');
    assert ExpIndex(s) == 3;
    assert s[..3] == "1.0" && s[4..] == "7";
    assert ExponentValue("7") == 7;
    AmountPatternPrefixHasNoMarker(s);
    assert Pow10(7) == 10000000.0;
  }

  /** `Double.toString(5.0E-4)` reads back as 0.0005. */
  lemma ParseFiveTenThousandths()
    ensures ToDoubleOrNull("5.0E-4") == Some(0.0005)
  {
    var s := "5.0E-4";
    OneAndZero("5.0", '5');
    assert ExpIndex(s) == 3;
    assert s[..3] == "5.0" && s[4..] == "-4";
    assert "-4"[1..] == "4";
    assert ExponentValue("-4") == -4;
    AmountPatternPrefixHasNoMarker(s);
    assert MatchesScientific(s);
    assert Pow10(4) == 10000.0;
    assert Scaled(5.0, -4) == 5.0 / 10000.0 == 0.0005;
    assert ScientificValue(s) == 0.0005;
  }

  /** A one-digit mantissa "d.0" is a scientific mantissa worth d. */
  lemma OneAndZero(m: string, d: char)
    requires m == [d, '.', '0'] && Text.IsDigit(d)
    ensures MatchesAmountPattern(m) && HasDigit(m)
    ensures AmountValue(m) == (d as int - '0' as int) as real
  {
    assert DotIndex(m) == 1;
    assert m[..1] == [d] && m[2..] == "0";
    assert [d][..0] == [];
    assert "0"[..0] == [];
    assert Text.DigitsValue([d]) == d as int - '0' as int;
    assert Text.DigitsValue("0") == 0;
    assert Text.IsDigit(m[0]);
  }

  lemma AmountPatternPrefixHasNoMarker(s: string)
    requires |s| > 3 && s[3] == 'E'
    ensures !MatchesAmountPattern(s)
  {
    if MatchesAmountPattern(s) {
      AmountPatternHasNoMarker(s, 3);
    }
  }

  /** A filtered text without digits is "" or ".". */
  lemma NoDigitIsEmptyOrDot(s: string)
    requires MatchesAmountPattern(s)
    ensures !HasDigit(s) <==> s == "" || s == "."
  {
    if s != "" && s != "." {
      DigitWitness(s);
    }
    if s == "." {
      assert !Text.IsDigit(s[0]);
    }
  }

  lemma DigitWitness(s: string)
    requires MatchesAmountPattern(s) && s != "" && s != "."
    ensures HasDigit(s)
  {
    var i := DotIndex(s);
    if i < 0 {
      assert Text.IsDigit(s[0]);
    } else if i > 0 {
      assert s[..i][0] == s[0];
    } else {
      assert |s| >= 2;
      assert s[1..][0] == s[1];
    }
  }

  /** `toDouble()`: like `toDoubleOrNull`, but a `NumberFormatException`
      instead of null. */
  function ToDouble(s: string): (r: Result<real>)
    ensures r.Ok? <==> ToDoubleOrNull(s).Some?
    ensures r.Ok? ==> r.value == ToDoubleOrNull(s).value
    ensures r.Err? ==> r.error == NumberFormat
  {
    match ToDoubleOrNull(s)
    case Some(x) => Ok(x)
    case None => Err(NumberFormat)
  }

  /** A whole number's decimal text reads back as that number. */
  lemma ParseWhole(n: nat)
    ensures ToDoubleOrNull(Text.NatToString(n)) == Some(n as real)
  {
    var s := Text.NatToString(n);
    Text.NatToStringValue(n);
    assert '.' !in s by {
      forall i | 0 <= i < |s| ensures s[i] != '.' {
        assert Text.IsDigit(s[i]);
      }
    }
    assert Text.IsDigit(s[0]);
  }

  lemma ParseTwelveFifty()
    ensures ToDoubleOrNull("12.50") == Some(12.5)
  {
    var s := "12.50";
    assert DotIndex(s) == 2;
    assert s[..2] == "12" && s[3..] == "50";
    assert Text.DigitsValue("12") == 12 by {
      assert "12"[..1] == "1";
    }
    assert Text.DigitsValue("50") == 50 by {
      assert "50"[..1] == "5";
    }
    assert Text.IsDigit(s[0]);
  }

  /** `(x).toInt()` of a Double: truncation toward zero, saturated to the
      Int range. */
  function DoubleToInt(x: real): (r: int)
    ensures -0x8000_0000 <= r <= 0x7FFF_FFFF
    ensures 0.0 <= x && x < 0x7FFF_FFFF as real ==> r as real <= x < r as real + 1.0
    ensures -(0x8000_0000 as real) < x && x <= 0.0 ==> r as real - 1.0 < x <= r as real
  {
    var t := if x >= 0.0 then x.Floor else -((-x).Floor);
    if t > 0x7FFF_FFFF then 0x7FFF_FFFF else if t < -0x8000_0000 then -0x8000_0000 else t
  }

  /** `(categoryTotal / total * 100).toInt()`: 0/0 is NaN, which converts
      to 0, and x/0 is an infinity, which saturates. */
  function PercentOf(amount: real, total: real): (p: int)
    ensures total == 0.0 ==> (p == 0 <==> amount == 0.0)
    ensures 0.0 <= amount <= total && total > 0.0 ==> 0 <= p <= 100
  {
    if total == 0.0 then
      (if amount == 0.0 then 0 else if amount > 0.0 then 0x7FFF_FFFF else -0x8000_0000)
    else
      var q := amount / total * 100.0;
      assert 0.0 <= amount <= total && total > 0.0 ==> q <= 100.0 by {
        if 0.0 <= amount <= total && total > 0.0 {
          assert amount / total <= 1.0;
        }
      }
      DoubleToInt(q)
  }
}
