/**
  Decimal text on the serial line: how the firmware writes a value with
  `printf("%.3f")` and how the host reads it back with Python's `float()`.
  A printed value is modelled as a whole number of thousandths; parsed text
  is given its exact rational value.
 */
module DecimalText {

  predicate IsDigit(c: char)
  {
    '0' <= c <= '9'
  }

  predicate AllDigits(s: string)
  {
    forall i :: 0 <= i < |s| ==> IsDigit(s[i])
  }

  function DigitChar(d: nat): (c: char)
    requires d < 10
    ensures IsDigit(c) && c as int - '0' as int == d
  {
    ('0' as int + d) as char
  }

  /** The value of a string of digits, most significant first. */
  function DigitsValue(s: string): int
  {
    if |s| == 0 then 0 else DigitsValue(s[..|s| - 1]) * 10 + (s[|s| - 1] as int - '0' as int)
  }

  function Pow10(n: nat): (p: nat)
    ensures p >= 1
  {
    if n == 0 then 1 else 10 * Pow10(n - 1)
  }

  /** The end of the run of digits that starts at `i`. */
  function DigitsEnd(s: string, i: nat): (j: nat)
    requires i <= |s|
    ensures i <= j <= |s|
    ensures forall k :: i <= k < j ==> IsDigit(s[k])
    ensures j == |s| || !IsDigit(s[j])
    decreases |s| - i
  {
    if i < |s| && IsDigit(s[i]) then DigitsEnd(s, i + 1) else i
  }

  /** The decimal numeral of a natural number, without leading zeros. */
  function NatText(n: nat): (t: string)
    ensures 0 < |t| && AllDigits(t)
    ensures n >= 10 ==> t[0] != '0'
  {
    if n < 10 then [DigitChar(n)] else NatText(n / 10) + [DigitChar(n % 10)]
  }

  /** Reading a numeral back gives the number. */
  lemma {:induction false} NatTextValue(n: nat)
    ensures DigitsValue(NatText(n)) == n
  {
    if n >= 10 {
      NatTextValue(n / 10);
      var t := NatText(n);
      assert t[..|t| - 1] == NatText(n / 10);
    }
  }

  /** Exactly three digits, with leading zeros: the fraction part of `%.3f`. */
  function ThreeDigits(r: nat): (t: string)
    requires r < 1000
    ensures |t| == 3 && AllDigits(t)
    ensures DigitsValue(t) == r
  {
    var t := [DigitChar(r / 100), DigitChar(r / 10 % 10), DigitChar(r % 10)];
    var a, b, c := r / 100, r / 10 % 10, r % 10;
    assert t[..2][..1] == [t[0]];
    assert DigitsValue([t[0]]) == a by {
      assert [t[0]][..0] == [];
    }
    assert DigitsValue(t[..2]) == a * 10 + b;
    assert DigitsValue(t) == (a * 10 + b) * 10 + c;
    t
  }

  /** `printf("%.3f")` of a value that is `k` thousandths. */
  function FixedThree(k: int): string
  {
    var m := if k < 0 then -k else k;
    (if k < 0 then "-" else "") + NatText(m / 1000) + "." + ThreeDigits(m % 1000)
  }

  predicate IsSign(c: char)
  {
    c == '+' || c == '-'
  }

  /** The value of digits with an optional fraction after a point: `\d+\.?\d*`. */
  function UnsignedDecimalValue(body: string): real
  {
    var d := DigitsEnd(body, 0);
    if d < |body| && body[d] == '.' then PointValue(body[..d], body[d + 1..DigitsEnd(body, d + 1)])
    else DigitsValue(body[..d]) as real
  }

  /** The value of whole digits `w` followed by fraction digits `f`. */
  function PointValue(w: string, f: string): real
  {
    DigitsValue(w) as real + DigitsValue(f) as real / Pow10(|f|) as real
  }

  /** Python's `float()` applied to text of the form `[-+]?\d+\.?\d*`. */
  function DecimalValue(t: string): real
  {
    if |t| > 0 && t[0] == '-' then -UnsignedDecimalValue(t[1..])
    else if |t| > 0 && t[0] == '+' then UnsignedDecimalValue(t[1..])
    else UnsignedDecimalValue(t)
  }

  /** A run of digits stopped by a non-digit, or by the end, ends there. */
  lemma {:induction false} DigitsEndAt(s: string, i: nat, j: nat)
    requires i <= j <= |s|
    requires forall k :: i <= k < j ==> IsDigit(s[k])
    requires j == |s| || !IsDigit(s[j])
    ensures DigitsEnd(s, i) == j
    decreases j - i
  {
    if i < j {
      DigitsEndAt(s, i + 1, j);
    }
  }

  /** Digits, a point and digits read as the whole part plus the scaled fraction. */
  lemma PointNumberValue(w: string, f: string)
    requires 0 < |w| && AllDigits(w) && AllDigits(f)
    ensures UnsignedDecimalValue(w + "." + f) == PointValue(w, f)
  {
    var body := w + "." + f;
    assert body[|w|] == '.';
    assert forall k :: 0 <= k < |w| ==> body[k] == w[k];
    DigitsEndAt(body, 0, |w|);
    assert body[..|w|] == w;
    assert forall k :: |w| + 1 <= k < |body| ==> body[k] == f[k - |w| - 1];
    DigitsEndAt(body, |w| + 1, |body|);
    assert body[|w| + 1..|body|] == f;
  }

  /** Unsigned `%.3f` text reads back as `m` thousandths. */
  lemma UnsignedFixedValue(m: nat)
    ensures UnsignedDecimalValue(NatText(m / 1000) + "." + ThreeDigits(m % 1000)) == m as real / 1000.0
  {
    PointNumberValue(NatText(m / 1000), ThreeDigits(m % 1000));
    NatTextValue(m / 1000);
    assert Pow10(3) == 1000;
  }

  /** Python reads the firmware's `%.3f` text back as exactly `k` thousandths. */
  lemma FixedThreeValue(k: int)
    ensures DecimalValue(FixedThree(k)) == k as real / 1000.0
  {
    var m := if k < 0 then -k else k;
    var body := NatText(m / 1000) + "." + ThreeDigits(m % 1000);
    UnsignedFixedValue(m);
    var t := FixedThree(k);
    if k < 0 {
      assert t == "-" + body;
      assert t[1..] == body;
    } else {
      assert t == body;
      assert t[0] != '-' && t[0] != '+';
    }
  }
}
