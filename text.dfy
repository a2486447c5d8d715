/** The decimal and hexadecimal renderings that Python's format specifications produce. */
module Text {
  /** The ASCII digit of a value 0..9. */
  function DigitChar(d: nat): (c: char)
    requires d < 10
    ensures '0' <= c <= '9' && (c as int) - ('0' as int) == d
  {
    ('0' as int + d) as char
  }

  /** Value of a string of decimal digits. */
  function DecimalValue(s: string): int
  {
    if s == [] then 0 else DecimalValue(s[..|s| - 1]) * 10 + ((s[|s| - 1] as int) - ('0' as int))
  }

  predicate IsDigits(s: string)
  {
    forall i :: 0 <= i < |s| ==> '0' <= s[i] <= '9'
  }

  /** `str(n)` for a natural number: shortest decimal digits, no leading zero. */
  function NatString(n: nat): (r: string)
    ensures |r| >= 1 && IsDigits(r)
    ensures r[0] == '0' ==> r == "0"
    ensures n < 10 <==> |r| == 1
  {
    if n < 10 then [DigitChar(n)] else NatString(n / 10) + [DigitChar(n % 10)]
  }

  /** `str(i)` for any integer: a minus sign before the digits of a negative value. */
  function IntString(i: int): (r: string)
    ensures i < 0 <==> (|r| > 0 && r[0] == '-')
  {
    if i < 0 then "-" + NatString(-i) else NatString(i)
  }

  /** Reading back the digits that `NatString` writes gives the number. */
  lemma {:induction false} NatStringValue(n: nat)
    ensures DecimalValue(NatString(n)) == n
  {
    if n >= 10 {
      var s := NatString(n);
      assert s[..|s| - 1] == NatString(n / 10);
      NatStringValue(n / 10);
    }
  }

  /** `f"{n:02d}"`: decimal digits, left-padded with one zero below ten. */
  function ZeroPad2(n: nat): (r: string)
    ensures |r| >= 2 && IsDigits(r)
    ensures n < 100 <==> |r| == 2
    ensures DecimalValue(r) == n
  {
    NatStringValue(n);
    if n < 10 then
      assert DecimalValue("0" + NatString(n)) == DecimalValue(NatString(n)) by {
        assert ("0" + NatString(n))[..1] == "0";
      }
      "0" + NatString(n)
    else
      assert n < 100 ==> |NatString(n / 10)| == 1;
      NatString(n)
  }

  /** The upper-case hexadecimal digit of a value 0..15. */
  function HexDigit(d: nat): (c: char)
    requires d < 16
    ensures HexDigitValue(c) == d
  {
    if d < 10 then DigitChar(d) else ('A' as int + (d - 10)) as char
  }

  /** Value of one hexadecimal digit; -1 for any other character. */
  function HexDigitValue(c: char): int
  {
    if '0' <= c <= '9' then (c as int) - ('0' as int)
    else if 'A' <= c <= 'F' then (c as int) - ('A' as int) + 10
    else -1
  }

  /** `f"{b:02X}"` for an octet: two upper-case hexadecimal digits. */
  function Hex2(b: nat): (r: string)
    requires b < 256
    ensures |r| == 2 && HexDigitValue(r[0]) * 16 + HexDigitValue(r[1]) == b
    ensures forall i :: 0 <= i < 2 ==> ('0' <= r[i] <= '9' || 'A' <= r[i] <= 'F')
  {
    [HexDigit(b / 16), HexDigit(b % 16)]
  }
}
