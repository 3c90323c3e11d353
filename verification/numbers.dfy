/**
 * The numeric conversions the extractor applies to captured text:
 * `strconv.Atoi` on a run of ASCII digits, for a 32-bit `int`, and
 * `strconv.Atof64` on a run of digits and dots. A float is kept as the
 * decimal numeral it was read from; its binary rounding is not modelled.
 */
module Numbers {
  import opened Text

  /** The largest value of Go's `int`, which was 32 bits wide on every
      target before Go 1.1 (the `os.Error` and `exec` API the program uses
      predate Go 1). */
  const MaxInt: int := 0x7FFF_FFFF

  function DigitValue(c: char): (v: nat)
    requires IsDigit(c)
    ensures v < 10
  {
    c as int - '0' as int
  }

  function DigitChar(v: nat): (c: char)
    requires v < 10
    ensures IsDigit(c) && DigitValue(c) == v
  {
    ('0' as int + v) as char
  }

  /** The value of a decimal numeral, most significant digit first. */
  function DecimalValue(d: string): nat
    requires AllInClass(d, Digit)
  {
    if d == [] then 0 else 10 * DecimalValue(d[..|d| - 1]) + DigitValue(d[|d| - 1])
  }

  /** The shortest decimal numeral of `n` (what `%d` prints). */
  function DecimalText(n: nat): (d: string)
    ensures |d| > 0 && AllInClass(d, Digit)
    ensures d[0] != '0' || n == 0
  {
    if n < 10 then [DigitChar(n)] else DecimalText(n / 10) + [DigitChar(n % 10)]
  }

  /** Reading back a printed numeral gives the number. */
  lemma {:induction false} DecimalRoundTrip(n: nat)
    ensures DecimalValue(DecimalText(n)) == n
  {
    if n >= 10 {
      var d := DecimalText(n);
      assert d[..|d| - 1] == DecimalText(n / 10);
      DecimalRoundTrip(n / 10);
    }
  }

  /** The `(i, err)` pair of `strconv.Atoi`: `ok` is `err == nil`. */
  datatype IntParse = IntParse(value: int, ok: bool)

  /** `strconv.Atoi` on a non-empty run of ASCII digits: such a text is
      always well formed, so the only error is a value beyond `MaxInt`, and
      then the value returned is clamped to `MaxInt`. */
  function Atoi(d: string): (r: IntParse)
    requires |d| > 0 && AllInClass(d, Digit)
    ensures 0 <= r.value <= MaxInt
    ensures r.ok ==> r.value == DecimalValue(d)
    ensures !r.ok ==> DecimalValue(d) > MaxInt && r.value == MaxInt
  {
    var v := DecimalValue(d);
    if v <= MaxInt then IntParse(v, true) else IntParse(MaxInt, false)
  }

  /** Atoi accepts every numeral `%d` prints for an `int`, and reads it back exactly. */
  lemma AtoiOfDecimalText(n: nat)
    requires n <= MaxInt
    ensures Atoi(DecimalText(n)) == IntParse(n, true)
  {
    DecimalRoundTrip(n);
  }

  /** Atoi rejects every printed number past MaxInt, and yields MaxInt for it. */
  lemma AtoiPastMaxInt(n: nat)
    requires n > MaxInt
    ensures Atoi(DecimalText(n)) == IntParse(MaxInt, false)
  {
    DecimalRoundTrip(n);
  }

  /** A float64 as this model sees it: zero, or the number a decimal numeral denotes. */
  datatype Float64 = Zero | Decimal(numeral: string)

  /** The `(f, err)` pair of `strconv.Atof64`: `ok` is `err == nil`. */
  datatype FloatParse = FloatParse(value: Float64, ok: bool)

  /** Go's float syntax, for texts made of digits and dots only: digits,
      optionally a single dot among them, and at least one digit in all. */
  ghost predicate IsFloatLiteral(t: string) {
    || (|t| > 0 && AllInClass(t, Digit))
    || exists k :: 0 <= k < |t| && t[k] == '.' && |t| > 1
                   && AllInClass(t[..k], Digit) && AllInClass(t[k + 1..], Digit)
  }

  function CountDots(t: string): (n: nat)
    ensures n <= |t|
    ensures n == 0 ==> '.' !in t
  {
    if t == [] then 0 else (if t[0] == '.' then 1 else 0) + CountDots(t[1..])
  }

  /** `strconv.Atof64` on a run of digits and dots. A text that breaks the
      syntax is an error and yields zero. A numeral too large for a float64
      (an overflow to infinity) is not modelled. */
  function Atof64(t: string): (r: FloatParse)
    requires AllInClass(t, DigitOrDot)
    ensures r.ok <==> IsFloatLiteral(t)
    ensures r.value == if r.ok then Decimal(t) else Zero
  {
    LiteralIffFewDots(t);
    if CountDots(t) <= 1 && CountDots(t) < |t| then FloatParse(Decimal(t), true)
    else FloatParse(Zero, false)
  }

  /** The executable test used by Atof64 matches the float syntax. */
  lemma LiteralIffFewDots(t: string)
    requires AllInClass(t, DigitOrDot)
    ensures IsFloatLiteral(t) <==> CountDots(t) <= 1 && CountDots(t) < |t|
  {
    if IsFloatLiteral(t) {
      LiteralHasFewDots(t);
    }
    if CountDots(t) <= 1 && CountDots(t) < |t| {
      FewDotsIsLiteral(t);
    }
  }

  lemma LiteralHasFewDots(t: string)
    requires AllInClass(t, DigitOrDot) && IsFloatLiteral(t)
    ensures CountDots(t) <= 1 && CountDots(t) < |t|
  {
    if |t| > 0 && AllInClass(t, Digit) {
      NoDotsIffDigits(t);
    } else {
      var k :| 0 <= k < |t| && t[k] == '.' && |t| > 1
               && AllInClass(t[..k], Digit) && AllInClass(t[k + 1..], Digit);
      DotsAround(t, k);
      NoDotsIffDigits(t[..k]);
      NoDotsIffDigits(t[k + 1..]);
    }
  }

  lemma FewDotsIsLiteral(t: string)
    requires AllInClass(t, DigitOrDot) && CountDots(t) <= 1 && CountDots(t) < |t|
    ensures IsFloatLiteral(t)
  {
    NoDotsIffDigits(t);
    if CountDots(t) == 1 {
      var k := IndexOf(t, '.');
      DotsAround(t, k);
      assert AllInClass(t[..k], DigitOrDot);
      assert AllInClass(t[k + 1..], DigitOrDot);
      NoDotsIffDigits(t[..k]);
      NoDotsIffDigits(t[k + 1..]);
    }
  }

  /** Counting dots on either side of the dot at index `k`. */
  lemma DotsAround(t: string, k: nat)
    requires k < |t| && t[k] == '.'
    ensures CountDots(t) == CountDots(t[..k]) + 1 + CountDots(t[k + 1..])
  {
    var rest := [t[k]] + t[k + 1..];
    assert t == t[..k] + rest;
    CountDotsAppend(t[..k], rest);
    assert rest[1..] == t[k + 1..];
    assert CountDots(rest) == 1 + CountDots(t[k + 1..]);
  }

  lemma {:induction false} CountDotsAppend(a: string, b: string)
    ensures CountDots(a + b) == CountDots(a) + CountDots(b)
  {
    if a == [] {
      assert a + b == b;
    } else {
      assert (a + b)[1..] == a[1..] + b;
      CountDotsAppend(a[1..], b);
    }
  }

  /** A text of digits and dots has no dot exactly when it is all digits. */
  lemma {:induction false} NoDotsIffDigits(t: string)
    requires AllInClass(t, DigitOrDot)
    ensures CountDots(t) == 0 <==> AllInClass(t, Digit)
  {
    if t != [] {
      NoDotsIffDigits(t[1..]);
      assert AllInClass(t, Digit) <==> IsDigit(t[0]) && AllInClass(t[1..], Digit);
    }
  }
}
