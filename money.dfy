/**
 * Money is kept in integer öre (hundredths of a krona). `FormatOre` is what
 * `Number.prototype.toFixed(2)` prints for such an amount; `ParseOre` reads
 * that text back and is its inverse.
 */
module Money {
  import opened Wrappers

  predicate IsDigit(c: char) {
    '0' <= c <= '9'
  }

  function DigitChar(d: nat): (c: char)
    requires d < 10
    ensures IsDigit(c)
  {
    ('0' as int + d) as char
  }

  function DigitValue(c: char): (d: nat)
    requires IsDigit(c)
    ensures d < 10
  {
    c as int - '0' as int
  }

  /** Decimal digits of n, most significant first, without leading zeros. */
  function NatDigits(n: nat): (r: string)
    ensures |r| > 0
    ensures forall i :: 0 <= i < |r| ==> IsDigit(r[i])
  {
    if n < 10 then [DigitChar(n)] else NatDigits(n / 10) + [DigitChar(n % 10)]
  }

  function ParseNat(s: string): nat
    requires forall i :: 0 <= i < |s| ==> IsDigit(s[i])
  {
    if s == [] then 0 else ParseNat(s[..|s| - 1]) * 10 + DigitValue(s[|s| - 1])
  }

  lemma {:induction false} ParseNatDigits(n: nat)
    ensures ParseNat(NatDigits(n)) == n
  {
    var r := NatDigits(n);
    if n >= 10 {
      ParseNatDigits(n / 10);
      assert r[..|r| - 1] == NatDigits(n / 10);
    }
  }

  /** `(n / 100).toFixed(2)` for an amount of n öre: sign, krona digits, a point, two öre digits. */
  function FormatOre(n: int): (r: string)
    ensures |r| >= 4 && r[|r| - 3] == '.'
    ensures IsDigit(r[|r| - 2]) && IsDigit(r[|r| - 1])
    ensures (r[0] == '-') <==> n < 0
    ensures ';' !in r
  {
    if n < 0 then "-" + FormatUnsigned(-n) else FormatUnsigned(n)
  }

  function FormatUnsigned(n: nat): (r: string)
    ensures |r| >= 4 && r[|r| - 3] == '.'
    ensures forall i :: 0 <= i < |r| - 3 ==> IsDigit(r[i])
    ensures IsDigit(r[|r| - 2]) && IsDigit(r[|r| - 1])
    ensures ';' !in r
  {
    NatDigits(n / 100) + "." + [DigitChar(n % 100 / 10), DigitChar(n % 10)]
  }

  /** Reads `[-]digits.dd` back into öre; anything else is refused. */
  function ParseOre(s: string): Option<int> {
    var negative := |s| > 0 && s[0] == '-';
    match ParseUnsignedOre(if negative then s[1..] else s)
    case Some(v) => var w: int := v; Some(if negative then -w else w)
    case None => None
  }

  function ParseUnsignedOre(s: string): Option<nat> {
    if |s| >= 4 && s[|s| - 3] == '.' && IsDigit(s[|s| - 2]) && IsDigit(s[|s| - 1])
       && forall i :: 0 <= i < |s| - 3 ==> IsDigit(s[i])
    then Some(ParseNat(s[..|s| - 3]) * 100 + DigitValue(s[|s| - 2]) * 10 + DigitValue(s[|s| - 1]))
    else None
  }

  /** The amount printed into a payment payload is recovered exactly. */
  lemma FormatOreRoundTrip(n: int)
    ensures ParseOre(FormatOre(n)) == Some(n)
  {
    var s := FormatOre(n);
    if n < 0 {
      var u := FormatUnsigned(-n);
      assert s == "-" + u;
      assert s[0] == '-' && s[1..] == u;
      UnsignedRoundTrip(-n);
      assert ParseUnsignedOre(s[1..]) == Some(-n);
    } else {
      assert s == FormatUnsigned(n);
      UnsignedRoundTrip(n);
      assert s[0] != '-' && ParseUnsignedOre(s) == Some(n);
    }
  }

  lemma UnsignedRoundTrip(n: nat)
    ensures FormatUnsigned(n)[0] != '-'
    ensures ParseUnsignedOre(FormatUnsigned(n)) == Some(n)
  {
    var s := FormatUnsigned(n);
    var k := NatDigits(n / 100);
    assert s[..|s| - 3] == k;
    assert s[0] == k[0];
    ParseNatDigits(n / 100);
    assert DigitValue(s[|s| - 2]) == n % 100 / 10;
    assert DigitValue(s[|s| - 1]) == n % 10;
  }

  /** Different amounts are formatted differently. */
  lemma FormatOreInjective(m: int, n: int)
    requires FormatOre(m) == FormatOre(n)
    ensures m == n
  {
    FormatOreRoundTrip(m);
    FormatOreRoundTrip(n);
  }
}
