/**
 * Quality values. The source keeps a q-value as an `f32` parsed with
 * `str::parse` and falls back to 1.0 when parsing fails; here a weight is an
 * integer number of thousandths, the precision section 5.3.1 of RFC 7231
 * allows.
 */
module Weights {
  import opened Wrappers
  import opened Strings

  predicate IsDigit(c: char) {
    '0' <= c <= '9'
  }

  predicate AllDigits(s: string) {
    forall i :: 0 <= i < |s| ==> IsDigit(s[i])
  }

  function Digit(c: char): (d: nat)
    requires IsDigit(c)
    ensures d <= 9
  {
    c as int - '0' as int
  }

  function DigitsValue(s: string): nat
    requires AllDigits(s)
  {
    if s == [] then 0 else DigitsValue(s[..|s| - 1]) * 10 + Digit(s[|s| - 1])
  }

  /** The first three fraction digits, padded with zeros, as thousandths. */
  function Thousandths(frac: string): (t: nat)
    requires AllDigits(frac)
    ensures t < 1000
  {
    var d := frac + "000";
    assert IsDigit(d[0]) && IsDigit(d[1]) && IsDigit(d[2]);
    Digit(d[0]) * 100 + Digit(d[1]) * 10 + Digit(d[2])
  }

  /**
   * Unsigned decimal text `digits`, `digits.digits` or `.digits` in
   * thousandths; none for any other text.
   */
  function UnsignedWeight(s: string): (w: Option<nat>)
    ensures AllDigits(s) && |s| > 0 ==> w == Some(DigitsValue(s) * 1000)
    ensures '.' !in s && !(AllDigits(s) && |s| > 0) ==> w.None?
  {
    if |s| > 0 && AllDigits(s) then Some(DigitsValue(s) * 1000)
    else if '.' in s then
      var i := IndexOf(s, '.');
      var whole, frac := s[..i], s[i + 1..];
      if AllDigits(whole) && AllDigits(frac) && |whole| + |frac| > 0
      then Some(DigitsValue(whole) * 1000 + Thousandths(frac))
      else None
    else None
  }

  function Pow10(n: nat): (p: nat)
    ensures p >= 1
  {
    if n == 0 then 1 else 10 * Pow10(n - 1)
  }

  /**
   * The usual q-value form `whole.frac`: the whole part counts in thousands
   * and a fraction of up to three digits in the matching power of ten, so
   * `0.5`, `.5` and `0.500` all weigh 500 and `1.` weighs 1000.
   */
  lemma {:induction false} DottedWeight(whole: string, frac: string)
    requires AllDigits(whole) && AllDigits(frac) && |whole| + |frac| > 0 && |frac| <= 3
    ensures UnsignedWeight(whole + "." + frac)
      == Some(DigitsValue(whole) * 1000 + DigitsValue(frac) * Pow10(3 - |frac|))
  {
    DottedSplit(whole, frac);
    var d := frac + "000";
    assert frac == d[..|frac|];
    if |frac| == 1 {
      assert frac[..0] == "";
    } else if |frac| == 2 {
      assert frac[..1] == [frac[0]] && [frac[0]][..0] == "";
    } else if |frac| == 3 {
      var two := frac[..2];
      assert two[..1] == [frac[0]] && [frac[0]][..0] == "";
      assert DigitsValue(two) == Digit(frac[0]) * 10 + Digit(frac[1]);
      assert DigitsValue(frac) == DigitsValue(two) * 10 + Digit(frac[2]);
    }
  }

  /** Fraction digits past the third take no part in the weight. */
  lemma {:induction false} LongFractionTruncated(whole: string, frac: string)
    requires AllDigits(whole) && AllDigits(frac) && |frac| > 3
    ensures UnsignedWeight(whole + "." + frac) == UnsignedWeight(whole + "." + frac[..3])
  {
    DottedSplit(whole, frac);
    DottedSplit(whole, frac[..3]);
    assert (frac + "000")[..3] == (frac[..3] + "000")[..3];
  }

  /** Text `whole.frac` with a digit-only whole part splits at that point. */
  lemma DottedSplit(whole: string, frac: string)
    requires AllDigits(whole)
    ensures var s := whole + "." + frac;
      !AllDigits(s) && '.' in s && IndexOf(s, '.') == |whole|
      && s[..|whole|] == whole && s[|whole| + 1..] == frac
  {
    var s := whole + "." + frac;
    assert s[|whole|] == '.' && !IsDigit(s[|whole|]);
    assert s[..|whole|] == whole;
    assert '.' !in whole by {
      forall i | 0 <= i < |whole| ensures whole[i] != '.' { assert IsDigit(whole[i]); }
    }
    IndexOfFirst(s, '.', |whole|);
    assert s[|whole| + 1..] == frac;
  }

  /**
   * `weight.parse::<f32>().unwrap_or(1.0)` in thousandths: unsigned decimal
   * text with an optional `+` or `-` sign; any other text gives 1000.
   */
  function ParseWeight(s: string): (w: int)
    ensures UnsignedWeight(s).Some? ==> w == UnsignedWeight(s).value
    ensures |s| > 0 && s[0] == '-' && UnsignedWeight(s[1..]).Some? ==> w == -(UnsignedWeight(s[1..]).value as int)
    ensures w < 0 ==> |s| > 0 && s[0] == '-'
    ensures UnsignedWeight(s).None? && !(|s| > 0 && (s[0] == '+' || s[0] == '-') && UnsignedWeight(s[1..]).Some?)
      ==> w == 1000
  {
    if |s| > 0 && (s[0] == '+' || s[0] == '-') then
      match UnsignedWeight(s[1..])
      case Some(u) => if s[0] == '-' then -(u as int) else u
      case None => 1000
    else
      match UnsignedWeight(s)
      case Some(u) => u
      case None => 1000
  }

  /**
   * A q-value `0.d` weighs `d` tenths; a negative one weighs below nothing;
   * unparsable text weighs the full 1000.
   */
  lemma ParseWeightExamples(d: char)
    requires IsDigit(d)
    ensures ParseWeight("0." + [d]) == (d as int - '0' as int) * 100
    ensures ParseWeight("1") == 1000 && ParseWeight("0") == 0 && ParseWeight("1.0") == 1000
    ensures ParseWeight("-1") == -1000
    ensures ParseWeight("high") == 1000
  {
    var s := "0." + [d];
    assert !AllDigits(s) by { assert !IsDigit(s[1]); }
    assert IndexOf(s, '.') == 1 by { IndexOfFirst(s, '.', 1); }
    assert s[..1] == "0" && s[2..] == [d];
    assert DigitsValue("0") == 0 by { assert "0"[..0] == ""; }
    var t := "1.0";
    assert !AllDigits(t) by { assert !IsDigit(t[1]); }
    assert IndexOf(t, '.') == 1 by { IndexOfFirst(t, '.', 1); }
    assert t[..1] == "1" && t[2..] == "0";
    assert DigitsValue("1") == 1 by { assert "1"[..0] == ""; }
    assert "-1"[1..] == "1";
    var h := "high";
    assert !AllDigits(h) by { assert !IsDigit(h[0]); }
    assert '.' !in h;
  }
}
