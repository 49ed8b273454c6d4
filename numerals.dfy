/** Positional numerals in bases 2 to 16 with lower-case digits, as `big-integer` parses and
    renders them (`bigInt(s, base)`, `toString(base)`). Digit strings are read most significant
    digit first. */
module Numerals {

  type Base = b: nat | 2 <= b <= 16 witness 10

  predicate IsDigitChar(c: char) { '0' <= c <= '9' || 'a' <= c <= 'f' }

  /** The value of a lower-case digit character. */
  function DigitValue(c: char): (v: nat)
    requires IsDigitChar(c)
    ensures v < 16
    ensures v == 0 <==> c == '0'
  {
    if c <= '9' then c as int - '0' as int else c as int - 'a' as int + 10
  }

  /** The lower-case digit character of a value below 16. */
  function Digit(d: nat): (c: char)
    requires d < 16
    ensures IsDigitChar(c) && DigitValue(c) == d
  {
    if d < 10 then (d + '0' as int) as char else (d - 10 + 'a' as int) as char
  }

  lemma DigitOfValue(c: char)
    requires IsDigitChar(c)
    ensures Digit(DigitValue(c)) == c
  {
  }

  /** Every character of `s` is a digit of base `b`. */
  predicate IsNumeral(s: string, b: Base) {
    forall i :: 0 <= i < |s| ==> IsDigitChar(s[i]) && DigitValue(s[i]) < b
  }

  /** A numeral with no superfluous leading zero, as `toString(b)` produces. */
  predicate IsCanonical(s: string, b: Base) {
    IsNumeral(s, b) && |s| > 0 && (s[0] == '0' ==> |s| == 1)
  }

  function Pow(b: nat, k: nat): (p: nat)
    ensures b >= 1 ==> p >= 1
  {
    if k == 0 then 1 else b * Pow(b, k - 1)
  }

  /** The value a numeral denotes. */
  function Value(s: string, b: Base): nat
    requires IsNumeral(s, b)
  {
    if |s| == 0 then 0 else b * Value(s[..|s| - 1], b) + DigitValue(s[|s| - 1])
  }

  /** `toString(b)`: the shortest numeral of `n`, "0" for zero. */
  function Render(n: nat, b: Base): (s: string)
    ensures IsCanonical(s, b) && Value(s, b) == n
    decreases n
  {
    if n < b then
      [Digit(n)]
    else
      DivModSplit(n, b);
      var hi := Render(n / b, b);
      RenderStep(n, b, hi);
      hi + [Digit(n % b)]
  }

  /** `n` splits into its quotient and remainder by `b`; the quotient of a number of at least
      two digits is positive and smaller. */
  lemma DivModSplit(n: nat, b: Base)
    ensures n / b >= 0 && n == b * (n / b) + n % b && 0 <= n % b < b
    ensures n >= b ==> 1 <= n / b < n
  {
  }

  /** The shortest numeral of `n / b` followed by the digit of `n % b` is that of `n`. */
  lemma RenderStep(n: nat, b: Base, hi: string)
    requires n >= b && IsCanonical(hi, b) && Value(hi, b) == n / b
    ensures IsCanonical(hi + [Digit(n % b)], b) && Value(hi + [Digit(n % b)], b) == n
  {
    DivModSplit(n, b);
    AppendDigit(hi, n % b, b);
    CanonicalPositive(hi, b);
  }

  /** Appending a digit to a numeral shifts its value by one place. */
  lemma AppendDigit(hi: string, d: nat, b: Base)
    requires IsNumeral(hi, b) && d < b
    ensures IsNumeral(hi + [Digit(d)], b)
    ensures Value(hi + [Digit(d)], b) == b * Value(hi, b) + d
  {
    var s := hi + [Digit(d)];
    assert s[..|s| - 1] == hi;
  }

  /** A canonical numeral of a positive value does not start with '0'. */
  lemma CanonicalPositive(s: string, b: Base)
    requires IsCanonical(s, b) && Value(s, b) >= 1
    ensures s[0] != '0'
  {
  }

  function Zeros(k: nat): (s: string)
    ensures |s| == k && forall i :: 0 <= i < k ==> s[i] == '0'
  {
    seq(k, i => '0')
  }

  /** `locationIdFromDecStr`'s padding loop: prepend '0' until the text is `width` long. */
  function LeftPad(s: string, width: nat): string {
    if |s| >= width then s else Zeros(width - |s|) + s
  }

  lemma LeftPadShort(s: string, width: nat)
    requires |s| <= width
    ensures LeftPad(s, width) == Zeros(width - |s|) + s
  {
    if |s| == width { assert Zeros(0) + s == s; }
  }

  /** The `k` least significant digits of `n`. */
  function FixedWidth(n: nat, b: Base, k: nat): (s: string)
    ensures |s| == k && IsNumeral(s, b)
  {
    if k == 0 then [] else FixedWidth(n / b, b, k - 1) + [Digit(n % b)]
  }

  lemma DivModOf(v: nat, d: nat, b: Base)
    requires d < b
    ensures (b * v + d) / b == v && (b * v + d) % b == d
  {
    var n := b * v + d;
    DivModSplit(n, b);
    QuotientUnique(b, n / b, n % b, v, d);
  }

  /** Quotient and remainder are unique. */
  lemma QuotientUnique(b: Base, q: nat, r: nat, v: nat, d: nat)
    requires b * q + r == b * v + d && r < b && d < b
    ensures q == v && r == d
  {
    if q < v {
      MulMono(b, q + 1, v);
      MulSucc(b, q);
    } else if v < q {
      MulMono(b, v + 1, q);
      MulSucc(b, v);
    }
  }

  lemma MulSucc(b: nat, x: nat)
    ensures b * (x + 1) == b * x + b
  {
  }

  lemma DivBelow(n: nat, b: Base, p: nat)
    requires n < b * p
    ensures n / b < p
  {
    MulMono(b, p, n / b);
    assert b * (n / b) <= n;
  }

  lemma MulMono(b: nat, x: nat, y: nat)
    ensures x <= y ==> b * x <= b * y
  {
  }

  /** A numeral of length k denotes a value below b^k. */
  lemma {:induction false} ValueBelowPow(s: string, b: Base)
    requires IsNumeral(s, b)
    ensures Value(s, b) < Pow(b, |s|)
  {
    if |s| > 0 {
      var p := s[..|s| - 1];
      ValueBelowPow(p, b);
      AppendDigitBelow(Value(p, b), DigitValue(s[|s| - 1]), b, Pow(b, |p|));
    }
  }

  lemma AppendDigitBelow(v: nat, d: nat, b: Base, p: nat)
    requires v < p && d < b
    ensures b * v + d < b * p
  {
    MulMono(b, v + 1, p);
  }

  /** Leading zeros do not change the value of a numeral. */
  lemma {:induction false} ValueOfZeroPadded(s: string, j: nat, b: Base)
    requires IsNumeral(s, b)
    ensures IsNumeral(Zeros(j) + s, b) && Value(Zeros(j) + s, b) == Value(s, b)
    decreases |s|, j
  {
    var t := Zeros(j) + s;
    if |s| == 0 {
      assert t == Zeros(j);
      if j > 0 {
        assert t[..|t| - 1] == Zeros(j - 1) + s;
        ValueOfZeroPadded(s, j - 1, b);
      }
    } else {
      assert t[..|t| - 1] == Zeros(j) + s[..|s| - 1];
      ValueOfZeroPadded(s[..|s| - 1], j, b);
    }
  }

  lemma {:induction false} FixedWidthOfZero(b: Base, k: nat)
    ensures FixedWidth(0, b, k) == Zeros(k)
  {
    if k > 0 { FixedWidthOfZero(b, k - 1); }
  }

  /** Reading the k least significant digits of a k-digit numeral gives the numeral back. */
  lemma {:induction false} FixedWidthOfValue(s: string, b: Base)
    requires IsNumeral(s, b)
    ensures FixedWidth(Value(s, b), b, |s|) == s
  {
    if |s| > 0 {
      var p := s[..|s| - 1];
      FixedWidthOfValue(p, b);
      DivModOf(Value(p, b), DigitValue(s[|s| - 1]), b);
      DigitOfValue(s[|s| - 1]);
    }
  }

  /** Padding the shortest numeral of a value below b^k to k digits gives its k-digit form. */
  lemma {:induction false} PadRender(n: nat, b: Base, k: nat)
    requires 1 <= k && n < Pow(b, k)
    ensures LeftPad(Render(n, b), k) == FixedWidth(n, b, k)
    decreases k
  {
    if n < b {
      PadRenderDigit(n, b, k);
    } else {
      PowOne(b);
      assert k >= 2;
      PowStep(b, k);
      DivBelow(n, b, Pow(b, k - 1));
      PadRender(n / b, b, k - 1);
      PadRenderStep(n, b, k);
    }
  }

  lemma PadRenderStep(n: nat, b: Base, k: nat)
    requires n >= b && k >= 2
    requires LeftPad(Render(n / b, b), k - 1) == FixedWidth(n / b, b, k - 1)
    ensures LeftPad(Render(n, b), k) == FixedWidth(n, b, k)
  {
    RenderUnfold(n, b);
    PadAppend(Render(n / b, b), Digit(n % b), k - 1);
  }

  lemma PadRenderDigit(n: nat, b: Base, k: nat)
    requires 1 <= k && n < b
    ensures LeftPad(Render(n, b), k) == FixedWidth(n, b, k)
  {
    FixedWidthOfZero(b, k - 1);
    SmallDivMod(n, b);
    assert FixedWidth(n, b, k) == Zeros(k - 1) + [Digit(n)];
    assert Render(n, b) == [Digit(n)];
    if k > 1 {
      assert LeftPad([Digit(n)], k) == Zeros(k - 1) + [Digit(n)];
    } else {
      assert Zeros(0) + [Digit(n)] == [Digit(n)];
    }
  }

  lemma SmallDivMod(n: nat, b: Base)
    requires n < b
    ensures n / b == 0 && n % b == n
  {
  }

  lemma {:induction false} PowAdd(b: nat, m: nat, n: nat)
    ensures Pow(b, m + n) == Pow(b, m) * Pow(b, n)
  {
    if m > 0 {
      PowAdd(b, m - 1, n);
      MulAssoc(b, Pow(b, m - 1), Pow(b, n));
      assert Pow(b, m + n) == b * Pow(b, m - 1 + n);
    }
  }

  lemma PowStep(b: nat, k: nat)
    requires k >= 1
    ensures Pow(b, k) == b * Pow(b, k - 1)
  {
  }

  lemma MulAssoc(x: nat, y: nat, z: nat)
    ensures x * (y * z) == (x * y) * z
  {
  }

  lemma PowOne(b: nat)
    ensures Pow(b, 1) == b
  {
  }

  lemma PadAppend(hi: string, c: char, w: nat)
    requires |LeftPad(hi, w)| == w
    ensures LeftPad(hi + [c], w + 1) == LeftPad(hi, w) + [c]
  {
    if |hi| < w {
      assert Zeros(w + 1 - |hi + [c]|) + (hi + [c]) == (Zeros(w - |hi|) + hi) + [c];
    }
  }

  /** A value below b^k has a shortest numeral of at most k digits. */
  lemma RenderLength(n: nat, b: Base, k: nat)
    requires 1 <= k && n < Pow(b, k)
    ensures |Render(n, b)| <= k
  {
    PadRender(n, b, k);
  }

  /** Canonical numerals are exactly the rendered ones: render(value(s)) == s. */
  lemma RenderOfValue(s: string, b: Base)
    requires IsCanonical(s, b)
    ensures Render(Value(s, b), b) == s
  {
    ValueBelowPow(s, b);
    PadRender(Value(s, b), b, |s|);
    FixedWidthOfValue(s, b);
  }

  /** One step of `Render` on a number of at least two digits. */
  lemma RenderUnfold(n: nat, b: Base)
    requires n >= b
    ensures Render(n, b) == Render(n / b, b) + [Digit(n % b)]
  {
  }
}
