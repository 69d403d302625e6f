/** Decimal numbers as text: Rust's formatting of integers, and `str::parse` back. */
module Numbers {
  import opened Wrappers

  const U8_MAX: nat := 0xFF
  const U32_MAX: nat := 0xFFFF_FFFF
  const U64_MAX: nat := 0xFFFF_FFFF_FFFF_FFFF
  const I64_MAX: nat := 0x7FFF_FFFF_FFFF_FFFF

  predicate IsDigit(c: char) {
    '0' <= c <= '9'
  }

  function DigitChar(d: nat): (c: char)
    requires d < 10
    ensures IsDigit(c) && DigitValue(c) == d
  {
    ('0' as int + d) as char
  }

  function DigitValue(c: char): nat
    requires IsDigit(c)
  {
    c as int - '0' as int
  }

  predicate AllDigits(s: string) {
    forall i | 0 <= i < |s| :: IsDigit(s[i])
  }

  function Decimal(n: nat): (s: string)
    ensures s != [] && AllDigits(s)
  {
    if n < 10 then [DigitChar(n)] else Decimal(n / 10) + [DigitChar(n % 10)]
  }

  /** The number of digits is at most `width` exactly when the number is below `10^width`. */
  lemma {:induction false} DecimalLength(n: nat, width: nat)
    requires width >= 1
    ensures |Decimal(n)| <= width <==> n < Power10(width)
  {
    if n < 10 {
      assert Power10(width) == 10 * Power10(width - 1);
    } else if width == 1 {
      assert Power10(1) == 10;
    } else {
      DecimalLength(n / 10, width - 1);
      assert Power10(width) == 10 * Power10(width - 1);
    }
  }

  function Power10(k: nat): (p: nat)
    ensures p >= 1
  {
    if k == 0 then 1 else 10 * Power10(k - 1)
  }

  /** Zero-padded to at least `width`. */
  function Padded(n: nat, width: nat): string {
    var s := Decimal(n);
    if |s| >= width then s else seq(width - |s|, _ => '0') + s
  }

  /** The value of a string of digits. */
  function Value(s: string): nat
    requires AllDigits(s)
  {
    if s == [] then 0 else 10 * Value(s[..|s| - 1]) + DigitValue(s[|s| - 1])
  }

  /** `str::parse` for an unsigned integer type whose largest value is `max`. */
  function ParseUnsigned(s: string, max: nat): Option<nat> {
    var digits := if s != [] && s[0] == '+' then s[1..] else s;
    if digits == [] || !AllDigits(digits) || Value(digits) > max then None else Some(Value(digits))
  }

  /** `str::parse` for a signed integer type of range `-max - 1 ..= max`. */
  function ParseSigned(s: string, max: nat): Option<int> {
    if s != [] && s[0] == '-' then
      var digits := s[1..];
      if digits == [] || !AllDigits(digits) || Value(digits) > max + 1 then None else Some(0 - Value(digits))
    else
      match ParseUnsigned(s, max)
      case Some(n) => Some(n)
      case None => None
  }

  /** `{:+}`: always with a sign. */
  function Signed(n: int): string {
    if n >= 0 then "+" + Decimal(n) else "-" + Decimal(-n)
  }

  lemma {:induction false} ValueOfDecimal(n: nat)
    ensures Value(Decimal(n)) == n
  {
    if n >= 10 {
      ValueOfDecimal(n / 10);
      assert Decimal(n)[..|Decimal(n)| - 1] == Decimal(n / 10);
    }
  }

  lemma UnsignedRoundTrips(n: nat, max: nat)
    requires n <= max
    ensures ParseUnsigned(Decimal(n), max) == Some(n)
  {
    ValueOfDecimal(n);
    assert IsDigit(Decimal(n)[0]);
  }

  lemma SignedRoundTrips(n: int, max: nat)
    requires 0 - max - 1 <= n <= max
    ensures ParseSigned(Signed(n), max) == Some(n)
  {
    var digits := Decimal(if n >= 0 then n else -n);
    ValueOfDecimal(if n >= 0 then n else -n);
    assert Signed(n)[1..] == digits;
  }

  lemma NextDigit(front: nat, digit: nat)
    requires front > 0 && digit < 10
    ensures Decimal(10 * front + digit) == Decimal(front) + [DigitChar(digit)]
  {
  }

  lemma ShiftedOnce(p: nat, width: nat)
    requires width > 0
    ensures p * Power10(width) == 10 * (p * Power10(width - 1))
  {
  }

  lemma ShiftedIsPositive(p: nat, width: nat)
    requires p > 0
    ensures p * Power10(width) > 0
  {
  }

  /** Digits written after digits. */
  lemma {:induction false} DigitsJoin(p: nat, n: nat)
    requires p > 0
    ensures Decimal(p) + Decimal(n) == Decimal(p * Power10(|Decimal(n)|) + n)
    decreases n
  {
    hide Power10;
    var width := |Decimal(n)|;
    ShiftedOnce(p, width);
    ShiftedIsPositive(p, width - 1);
    if n < 10 {
      ShiftedByNothing(p);
      NextDigit(p, n);
    } else {
      DigitsJoin(p, n / 10);
      NextDigit(p * Power10(width - 1) + n / 10, n % 10);
      assert Decimal(p) + Decimal(n) == (Decimal(p) + Decimal(n / 10)) + [DigitChar(n % 10)];
    }
  }

  lemma ShiftedByNothing(p: nat)
    ensures p * Power10(0) == p
  {
  }

  lemma {:induction false} LeadingDigit(n: nat)
    requires n > 0
    ensures Decimal(n)[0] != '0'
  {
    if n >= 10 {
      LeadingDigit(n / 10);
    }
  }

  /** Digits put before others, the first of them not zero, make the number larger. */
  lemma {:induction false} LongerIsLarger(front: string, digits: string)
    requires AllDigits(front) && AllDigits(digits) && front != "" && front[0] != '0'
    ensures AllDigits(front + digits) && Value(front + digits) > Value(digits)
    decreases |front| + |digits|
  {
    if digits == "" {
      assert front + digits == front;
      if |front| > 1 {
        LongerIsLarger(front[..|front| - 1], "");
        assert front[..|front| - 1] + "" == front[..|front| - 1];
      }
    } else {
      var n := |digits| - 1;
      LongerIsLarger(front, digits[..n]);
      assert (front + digits)[..|front| + n] == front + digits[..n];
    }
  }

  /** Zero-padded, a number has its width and its value. */
  lemma PaddedReads(n: nat, width: nat)
    requires 1 <= width && n < Power10(width)
    ensures |Padded(n, width)| == width && AllDigits(Padded(n, width)) && Value(Padded(n, width)) == n
  {
    DecimalLength(n, width);
    ValueOfDecimal(n);
    ZerosInFront(width - |Decimal(n)|, Decimal(n));
  }

  lemma {:induction false} ZerosInFront(k: nat, digits: string)
    requires AllDigits(digits)
    ensures var s := seq(k, _ => '0') + digits; AllDigits(s) && Value(s) == Value(digits)
    decreases |digits|, k
  {
    var s := seq(k, _ => '0') + digits;
    if digits != "" {
      var n := |digits| - 1;
      assert s[..|s| - 1] == seq(k, _ => '0') + digits[..n];
      ZerosInFront(k, digits[..n]);
    } else if k > 0 {
      assert s[..|s| - 1] == seq(k - 1, _ => '0') + "";
      ZerosInFront(k - 1, "");
    }
  }

  /** A plus sign is accepted; a number that does not fit, a lone sign and nothing at all are refused. */
  lemma PlusAndLimits(n: nat, max: nat)
    ensures ParseUnsigned("+" + Decimal(n), max) == ParseUnsigned(Decimal(n), max)
    ensures ParseUnsigned(Decimal(n), max) == if n <= max then Some(n) else None
    ensures ParseUnsigned("", max).None? && ParseUnsigned("+", max).None?
  {
    ValueOfDecimal(n);
    assert IsDigit(Decimal(n)[0]);
    assert ("+" + Decimal(n))[1..] == Decimal(n);
  }
}
