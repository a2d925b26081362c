// Integer formatting and parsing in the forms strconv.FormatInt, strconv.FormatUint
// and fmt's "%d" verb produce and read.
module Decimal {
  predicate IsDigit(c: char)
  {
    '0' <= c <= '9'
  }

  predicate AllDigits(s: string)
  {
    forall i :: 0 <= i < |s| ==> IsDigit(s[i])
  }

  function DigitChar(d: int): (c: char)
    requires 0 <= d < 10
    ensures IsDigit(c) && c as int - '0' as int == d
  {
    ('0' as int + d) as char
  }

  function DigitValue(c: char): (d: int)
    requires IsDigit(c)
    ensures 0 <= d < 10 && DigitChar(d) == c
  {
    c as int - '0' as int
  }

  /** Base-10 digits of `n`: at least one digit and no leading zero. */
  function FormatNat(n: nat): (r: string)
    ensures |r| >= 1 && AllDigits(r)
    ensures |r| > 1 ==> r[0] != '0'
    ensures r[0] == '0' <==> n == 0
  {
    if n < 10 then [DigitChar(n)] else FormatNat(n / 10) + [DigitChar(n % 10)]
  }

  /** strconv.FormatInt(n, 10): a '-' sign for negative values, then the digits. */
  function FormatInt(n: int): (r: string)
    ensures |r| >= 1
    ensures n < 0 <==> r[0] == '-'
    ensures n >= 0 ==> AllDigits(r)
    ensures n < 0 ==> AllDigits(r[1..]) && |r| >= 2
  {
    if n < 0 then "-" + FormatNat(-n) else FormatNat(n)
  }

  /** The value of a digit string (fmt's "%d" without a sign). */
  function ParseDigits(s: string): nat
    requires AllDigits(s)
  {
    if s == [] then 0 else ParseDigits(s[..|s| - 1]) * 10 + DigitValue(s[|s| - 1])
  }

  lemma {:induction false} ParseFormatNat(n: nat)
    ensures ParseDigits(FormatNat(n)) == n
  {
    var r := FormatNat(n);
    if n >= 10 {
      ParseFormatNat(n / 10);
      assert r[..|r| - 1] == FormatNat(n / 10);
    }
  }

  /** FormatNat is injective: distinct values print differently. */
  lemma FormatNatInjective(a: nat, b: nat)
    requires FormatNat(a) == FormatNat(b)
    ensures a == b
  {
    ParseFormatNat(a);
    ParseFormatNat(b);
  }

  /** The digits the value of a digit string prints as, when it has no leading zero. */
  lemma {:induction false} FormatParseDigits(s: string)
    requires |s| >= 1 && AllDigits(s) && (|s| > 1 ==> s[0] != '0')
    ensures FormatNat(ParseDigits(s)) == s
  {
    if |s| > 1 {
      var p := s[..|s| - 1];
      FormatParseDigits(p);
      LeadingDigitPositive(p);
      assert ParseDigits(s) / 10 == ParseDigits(p);
      assert ParseDigits(s) % 10 == DigitValue(s[|s| - 1]);
    }
  }

  lemma {:induction false} LeadingDigitPositive(s: string)
    requires |s| >= 1 && AllDigits(s) && s[0] != '0'
    ensures ParseDigits(s) >= 1
  {
    if |s| > 1 {
      LeadingDigitPositive(s[..|s| - 1]);
    }
  }

  /** The length of the run of digits `s` starts with, as fmt's number scanner reads it. */
  function DigitPrefixLength(s: string): (k: nat)
    ensures k <= |s| && AllDigits(s[..k])
    ensures k < |s| ==> !IsDigit(s[k])
  {
    if s == [] || !IsDigit(s[0]) then 0
    else
      var k := DigitPrefixLength(s[1..]);
      assert s[..k + 1] == [s[0]] + s[1..][..k];
      k + 1
  }

  /** The digits of a formatted number end where the text after them starts with a non-digit. */
  lemma DigitPrefixOfFormat(n: nat, rest: string)
    requires rest == [] || !IsDigit(rest[0])
    ensures DigitPrefixLength(FormatNat(n) + rest) == |FormatNat(n)|
    ensures (FormatNat(n) + rest)[..|FormatNat(n)|] == FormatNat(n)
    ensures (FormatNat(n) + rest)[|FormatNat(n)|..] == rest
  {
  }

  function HexDigitChar(d: int): (c: char)
    requires 0 <= d < 16
  {
    if d < 10 then ('0' as int + d) as char else ('a' as int + d - 10) as char
  }

  predicate IsHexDigit(c: char)
  {
    ('0' <= c <= '9') || ('a' <= c <= 'f')
  }

  function HexDigitValue(c: char): (d: int)
    requires IsHexDigit(c)
    ensures 0 <= d < 16 && HexDigitChar(d) == c
  {
    if c <= '9' then c as int - '0' as int else c as int - 'a' as int + 10
  }

  /** strconv.FormatUint(n, 16): lower-case hexadecimal digits, no leading zero. */
  function FormatHex(n: nat): (r: string)
    ensures |r| >= 1 && (forall i :: 0 <= i < |r| ==> IsHexDigit(r[i]))
    ensures |r| > 1 ==> r[0] != '0'
  {
    if n < 16 then [HexDigitChar(n)] else FormatHex(n / 16) + [HexDigitChar(n % 16)]
  }

  function ParseHex(s: string): nat
    requires forall i :: 0 <= i < |s| ==> IsHexDigit(s[i])
  {
    if s == [] then 0 else ParseHex(s[..|s| - 1]) * 16 + HexDigitValue(s[|s| - 1])
  }

  lemma {:induction false} ParseFormatHex(n: nat)
    ensures ParseHex(FormatHex(n)) == n
  {
    var r := FormatHex(n);
    if n >= 16 {
      ParseFormatHex(n / 16);
      assert r[..|r| - 1] == FormatHex(n / 16);
    }
  }
}
