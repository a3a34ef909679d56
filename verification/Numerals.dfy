/** Digits: printing and reading numbers in base 10 and 16. */
module Numerals {

  predicate IsDigit(c: char) { '0' <= c <= '9' }
  predicate IsHexDigit(c: char) { IsDigit(c) || 'a' <= c <= 'f' || 'A' <= c <= 'F' }

  function DigitValue(c: char): (d: nat)
  {
    if IsDigit(c) then c as int - '0' as int
    else if 'a' <= c <= 'f' then c as int - 'a' as int + 10
    else if 'A' <= c <= 'F' then c as int - 'A' as int + 10
    else 0
  }

  function DigitsValue(s: string, base: nat): nat {
    if s == "" then 0 else DigitsValue(s[..|s|-1], base) * base + DigitValue(s[|s|-1])
  }

  /** printf "%llu". */
  function Decimal(n: nat): (s: string)
    ensures s != "" && forall c :: c in s ==> IsDigit(c)
  {
    var d := ('0' as int + n % 10) as char;
    if n < 10 then [d] else Decimal(n / 10) + [d]
  }

  function HexChar(d: nat): (c: char)
    requires d < 16
    ensures IsHexDigit(c) && DigitValue(c) == d
  {
    if d < 10 then ('0' as int + d) as char else ('a' as int + (d - 10)) as char
  }

  /** printf "%llx". */
  function Hex(n: nat): (s: string)
    ensures s != "" && forall c :: c in s ==> IsHexDigit(c)
  {
    if n < 16 then [HexChar(n)] else Hex(n / 16) + [HexChar(n % 16)]
  }

  lemma {:induction false} DecimalValue(n: nat)
    ensures DigitsValue(Decimal(n), 10) == n
  {
    var d := ('0' as int + n % 10) as char;
    if n >= 10 {
      DecimalValue(n / 10);
      assert Decimal(n)[..|Decimal(n)|-1] == Decimal(n / 10);
    } else {
      assert DigitsValue([d], 10) == DigitsValue("", 10) * 10 + DigitValue(d);
    }
  }

  lemma {:induction false} HexValue(n: nat)
    ensures DigitsValue(Hex(n), 16) == n
  {
    if n >= 16 {
      HexValue(n / 16);
      assert Hex(n)[..|Hex(n)|-1] == Hex(n / 16);
    } else {
      var s := [HexChar(n)];
      assert s[..0] == "";
      assert DigitsValue(s, 16) == DigitsValue(s[..0], 16) * 16 + DigitValue(HexChar(n));
    }
  }

  /** Base two, without a prefix. */
  function Binary(n: nat): (s: string)
    ensures s != "" && forall c :: c in s ==> c == '0' || c == '1'
  {
    var d := if n % 2 == 0 then '0' else '1';
    if n < 2 then [d] else Binary(n / 2) + [d]
  }

  lemma OneMoreDigit(s: string, d: char, base: nat)
    ensures DigitsValue(s + [d], base) == DigitsValue(s, base) * base + DigitValue(d)
  {
    assert (s + [d])[..|s|] == s;
  }

  lemma {:induction false} BinaryValue(n: nat)
    ensures DigitsValue(Binary(n), 2) == n
  {
    hide DigitsValue;
    var d := if n % 2 == 0 then '0' else '1';
    if n >= 2 {
      BinaryValue(n / 2);
      OneMoreDigit(Binary(n / 2), d, 2);
    } else {
      OneDigit(d, 2);
    }
  }

  lemma OneDigit(d: char, base: nat)
    ensures DigitsValue([d], base) == DigitValue(d)
  {
    assert [d][..0] == "";
    assert DigitsValue([d][..0], base) == 0;
  }

  function Zeros(k: nat): (s: string)
    ensures |s| == k && forall c :: c in s ==> c == '0'
  {
    seq(k, _ => '0')
  }

  lemma {:induction false} LeadingZeros(s: string, k: nat, base: nat)
    ensures DigitsValue(Zeros(k) + s, base) == DigitsValue(s, base)
    decreases |s|, k
  {
    var w := Zeros(k) + s;
    if s != "" {
      assert w[..|w|-1] == Zeros(k) + s[..|s|-1];
      LeadingZeros(s[..|s|-1], k, base);
    } else if k > 0 {
      assert w[..|w|-1] == Zeros(k - 1) + s;
      LeadingZeros(s, k - 1, base);
    } else {
      assert w == s;
    }
  }

  /** The same digits, some of the letters in upper case. */
  predicate SameDigits(s: string, w: string) {
    && |s| == |w|
    && forall i :: 0 <= i < |s| ==> w[i] == s[i] || ('a' <= s[i] <= 'f' && w[i] == s[i] - 'a' + 'A')
  }

  lemma {:induction false} CaseDoesNotMatter(s: string, w: string, base: nat)
    requires SameDigits(s, w)
    ensures DigitsValue(s, base) == DigitsValue(w, base)
    decreases |s|
  {
    if s != "" {
      CaseDoesNotMatter(s[..|s|-1], w[..|w|-1], base);
    }
  }
}
