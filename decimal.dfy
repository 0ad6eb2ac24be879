/** Decimal rendering of a C `int` as done by the `%d` conversion of
    printf-family functions (C11 section 7.21.6.1), and the bounded copy
    that `snprintf` makes into a fixed-size buffer. */
module DecimalText {

  /** INT_MIN and INT_MAX of the 32-bit `int` of the target. */
  const IntMin: int := -0x8000_0000
  const IntMax: int := 0x7fff_ffff

  predicate IsDigit(c: char) {
    '0' <= c <= '9'
  }

  predicate AllDigits(s: string) {
    forall k :: 0 <= k < |s| ==> IsDigit(s[k])
  }

  function DigitChar(d: nat): (c: char)
    requires d < 10
    ensures IsDigit(c)
  {
    ('0' as int + d) as char
  }

  /** The digits of `n`, most significant first, without leading zeros. */
  function NatText(n: nat): (t: string)
    decreases n
  {
    if n < 10 then [DigitChar(n)] else NatText(n / 10) + [DigitChar(n % 10)]
  }

  /** `%d`: a minus sign for negative values, then the digits. */
  function Render(v: int): (t: string)
  {
    if v < 0 then "-" + NatText(-v) else NatText(v)
  }

  /** The value a reader of the text recovers (the partner of `NatText`). */
  function DigitsValue(s: string): (n: nat)
    requires AllDigits(s)
    decreases |s|
  {
    if s == [] then 0 else DigitsValue(s[..|s| - 1]) * 10 + (s[|s| - 1] as int - '0' as int)
  }

  /** Text of the shape `%d` produces: digits, optionally after a minus sign. */
  predicate WellFormed(t: string) {
    |t| > 0 && (AllDigits(t) || (t[0] == '-' && AllDigits(t[1..])))
  }

  /** The value of a well-formed `%d` text. */
  function Parse(t: string): (v: int)
    requires WellFormed(t)
  {
    if t[0] == '-' then -(DigitsValue(t[1..]) as int) else DigitsValue(t)
  }

  /** Digits of `n` are digits, read back to `n`, and carry no leading zero. */
  lemma {:induction false} NatTextRoundTrip(n: nat)
    ensures |NatText(n)| > 0 && AllDigits(NatText(n))
    ensures DigitsValue(NatText(n)) == n
    ensures NatText(n)[0] == '0' ==> n == 0
    decreases n
  {
    if n >= 10 {
      NatTextRoundTrip(n / 10);
      var t := NatText(n);
      assert t[..|t| - 1] == NatText(n / 10);
    }
  }

  /** `Render` is read back to the value it renders, and has the canonical
      `%d` shape: a minus sign exactly for negative values, and no leading
      zero unless the text is "0" itself. */
  lemma RenderRoundTrip(v: int)
    ensures WellFormed(Render(v))
    ensures Parse(Render(v)) == v
    ensures Render(v)[0] == '-' <==> v < 0
    ensures Render(v)[0] == '0' ==> Render(v) == "0"
    ensures v < 0 ==> |Render(v)| >= 2 && Render(v)[1] != '0'
  {
    if v < 0 {
      NatTextRoundTrip(-v);
      assert Render(v)[1..] == NatText(-v);
    } else {
      NatTextRoundTrip(v);
    }
  }

  function Pow10(k: nat): (p: nat)
    ensures p >= 1
  {
    if k == 0 then 1 else 10 * Pow10(k - 1)
  }

  /** A value below 10^k has at most k digits. */
  lemma {:induction false} NatTextLength(n: nat, k: nat)
    requires 1 <= k && n < Pow10(k)
    ensures |NatText(n)| <= k
    decreases k
  {
    if n >= 10 {
      assert k > 1;
      assert n / 10 < Pow10(k - 1);
      NatTextLength(n / 10, k - 1);
    }
  }

  /** Any 32-bit `int` renders in at most 11 characters ("-2147483648"). */
  lemma RenderLength(v: int)
    requires IntMin <= v <= IntMax
    ensures |Render(v)| <= 11
  {
    assert Pow10(10) == 10_000_000_000;
    if v < 0 {
      NatTextLength(-v, 10);
    } else {
      NatTextLength(v, 10);
    }
  }

  /** What `snprintf(buf, size, ...)` leaves in `buf` (up to the terminating
      NUL) when the formatted text is `text`: at most `size - 1` characters. */
  function Bounded(size: nat, text: string): (stored: string)
    requires size > 0
    ensures |stored| == if |text| < size then |text| else size - 1
    ensures stored <= text
  {
    if |text| < size then text else text[..size - 1]
  }
}
