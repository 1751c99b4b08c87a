/** The two C library conversions between integers and decimal text that the
    plugins use: printf's `%ld` (setpoint.cpp) and `strtol(text, NULL, 10)`
    (config.cpp), for a 64-bit `long`. */
module CNumeric {

  const LONG_MIN: int := -0x8000_0000_0000_0000
  const LONG_MAX: int := 0x7FFF_FFFF_FFFF_FFFF

  predicate IsDigit(ch: char)
  {
    '0' <= ch <= '9'
  }

  /** isspace() in the C locale: space, \t, \n, \v, \f, \r. */
  predicate IsSpace(ch: char)
  {
    ch == ' ' || ch == '\t' || ch == '\n' || ch == '\U{B}' || ch == '\U{C}' || ch == '\r'
  }

  predicate AllDigits(s: string)
  {
    forall k | 0 <= k < |s| :: IsDigit(s[k])
  }

  function DigitChar(d: nat): (ch: char)
    requires d < 10
    ensures IsDigit(ch)
  {
    ('0' as int + d) as char
  }

  /** The decimal digits of `n`, most significant first, without leading zeros. */
  function Digits(n: nat): (r: string)
    ensures |r| > 0 && AllDigits(r)
    ensures r[0] == '0' ==> n == 0
  {
    if n < 10 then [DigitChar(n)] else Digits(n / 10) + [DigitChar(n % 10)]
  }

  /** The number a string of decimal digits denotes. */
  function ValueOf(ds: string): (r: nat)
    requires AllDigits(ds)
  {
    if ds == [] then 0 else ValueOf(ds[..|ds| - 1]) * 10 + (ds[|ds| - 1] as int - '0' as int)
  }

  /** `snprintf(buf, 40, "%ld", n)`: a minus sign for a negative value, then
      the digits of its magnitude (at most 20 characters, so never truncated). */
  function DecimalText(n: int): (r: string)
    requires LONG_MIN <= n <= LONG_MAX
    ensures |r| > 0
    ensures r[0] == '-' <==> n < 0
  {
    if n < 0 then "-" + Digits(-n) else Digits(n)
  }

  /** Leading white space skipped by strtol. */
  function SkipSpace(s: string): (r: string)
    ensures |r| <= |s| && r == s[|s| - |r|..]
    ensures r != [] ==> !IsSpace(r[0])
    ensures forall k | 0 <= k < |s| - |r| :: IsSpace(s[k])
  {
    if s != [] && IsSpace(s[0]) then SkipSpace(s[1..]) else s
  }

  /** The longest prefix of `s` made of decimal digits. */
  function DigitPrefix(s: string): (r: string)
    ensures |r| <= |s| && r == s[..|r|]
    ensures AllDigits(r)
    ensures |r| < |s| ==> !IsDigit(s[|r|])
  {
    if s != [] && IsDigit(s[0]) then [s[0]] + DigitPrefix(s[1..]) else []
  }

  /** strtol's answer to a value out of range: LONG_MIN or LONG_MAX. */
  function Saturate(v: int): (r: int)
    ensures LONG_MIN <= r <= LONG_MAX
    ensures LONG_MIN <= v <= LONG_MAX ==> r == v
    ensures v < LONG_MIN ==> r == LONG_MIN
    ensures v > LONG_MAX ==> r == LONG_MAX
  {
    if v < LONG_MIN then LONG_MIN else if v > LONG_MAX then LONG_MAX else v
  }

  /** `strtol(s, NULL, 10)`: skip white space, take an optional sign and the
      longest run of digits; no digits gives 0, overflow saturates. */
  function Strtol(s: string): (r: int)
    ensures LONG_MIN <= r <= LONG_MAX
  {
    var t := SkipSpace(s);
    var signed := t != [] && (t[0] == '-' || t[0] == '+');
    var magnitude: int := ValueOf(DigitPrefix(if signed then t[1..] else t));
    Saturate(if signed && t[0] == '-' then -magnitude else magnitude)
  }

  lemma {:induction false} ValueOfDigits(n: nat)
    ensures ValueOf(Digits(n)) == n
  {
    if n >= 10 {
      var ds := Digits(n);
      assert ds[..|ds| - 1] == Digits(n / 10);
      ValueOfDigits(n / 10);
    }
  }

  lemma {:induction false} DigitPrefixOfDigits(ds: string)
    requires AllDigits(ds)
    ensures DigitPrefix(ds) == ds
  {
    if ds != [] {
      DigitPrefixOfDigits(ds[1..]);
    }
  }

  /** Reading back what `%ld` printed gives the number that was printed. */
  lemma {:induction false} StrtolDecimalText(n: int)
    requires LONG_MIN <= n <= LONG_MAX
    ensures Strtol(DecimalText(n)) == n
  {
    if n < 0 {
      StrtolNegative(DecimalText(n), n);
    } else {
      StrtolDigits(DecimalText(n), n);
    }
  }

  /** The digits of a non-negative `long` read back as that number. */
  lemma {:induction false} StrtolDigits(text: string, n: nat)
    requires n <= LONG_MAX && text == Digits(n)
    ensures Strtol(text) == n
  {
    assert SkipSpace(text) == text;
    DigitPrefixOfDigits(text);
    ValueOfDigits(n);
  }

  /** A minus sign and the digits of the magnitude of a negative `long`
      read back as that number. */
  lemma {:induction false} StrtolNegative(text: string, n: int)
    requires LONG_MIN <= n < 0 && text == "-" + Digits(-n)
    ensures Strtol(text) == n
  {
    assert text[1..] == Digits(-n);
    StrtolMinus(text, Digits(-n));
    DigitPrefixOfDigits(Digits(-n));
    ValueOfDigits(-n);
  }

  /** A minus sign before the text: strtol negates what the rest reads as. */
  lemma {:induction false} StrtolMinus(text: string, rest: string)
    requires text != [] && text[0] == '-' && text[1..] == rest
    ensures Strtol(text) == Saturate(-(ValueOf(DigitPrefix(rest)) as int))
  {
    SignNotSpace(text);
  }

  /** strtol skips nothing before a sign. */
  lemma {:induction false} SignNotSpace(text: string)
    requires text != [] && (text[0] == '-' || text[0] == '+')
    ensures SkipSpace(text) == text
  {
    assert !IsSpace(text[0]);
  }

  /** Text with no digit at all is read as 0 (strtol reports no conversion). */
  lemma {:induction false} StrtolWithoutDigits(s: string)
    requires forall k | 0 <= k < |s| :: !IsDigit(s[k])
    ensures Strtol(s) == 0
  {
  }
}
