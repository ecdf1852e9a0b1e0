/**
 * The number printing and reading the payments rest on: Number.prototype.toFixed with no fraction digits
 * (section 21.1.3.3 of ECMA-262), decimal text, and parseInt on decimal text.
 */
module Numbers {
  import opened Wrappers

  // The nearest integer; of two equally near, the one further from zero
  function ToFixed(x: real): (r: int)
    ensures x >= 0.0 ==> x - 0.5 < r as real <= x + 0.5
    ensures x < 0.0 ==> x - 0.5 <= r as real < x + 0.5
  {
    if x >= 0.0 then (x + 0.5).Floor else -((-x + 0.5).Floor)
  }

  // Rounding carries a number past an integer from half way to the next one on.
  lemma ToFixedAtMost(x: real, n: int)
    requires x >= 0.0
    ensures ToFixed(x) <= n <==> x < n as real + 0.5
  {
    if x < n as real + 0.5 {
      assert ToFixed(x) as real < (n + 1) as real;
    }
  }

  lemma ToFixedAbove(x: real, n: int)
    requires n as real <= x
    ensures n <= ToFixed(x)
  {
    assert ((n - 1) as real) < ToFixed(x) as real;
  }

  function DigitChar(d: nat): (c: char)
    requires d < 10
    ensures IsDigit(c) && DigitValue(c) == d
  {
    "0123456789"[d]
  }

  predicate IsDigit(c: char) {
    '0' <= c <= '9'
  }

  function DigitValue(c: char): nat
    requires IsDigit(c)
  {
    c as int - '0' as int
  }

  function NatText(n: nat): (s: string)
    ensures |s| > 0 && forall k :: 0 <= k < |s| ==> IsDigit(s[k])
  {
    if n < 10 then [DigitChar(n)] else NatText(n / 10) + [DigitChar(n % 10)]
  }

  // BigInt.prototype.toString, and toFixed(0) on an integer
  function IntText(n: int): string {
    if n < 0 then "-" + NatText(-n) else NatText(n)
  }

  // The digits s starts with, read after the number `acc`
  function ReadDigits(s: string, acc: nat): nat {
    if s == "" || !IsDigit(s[0]) then acc else ReadDigits(s[1..], 10 * acc + DigitValue(s[0]))
  }

  function ReadNat(s: string): Option<int> {
    if s == "" || !IsDigit(s[0]) then None else Some(ReadDigits(s, 0))
  }

  // parseInt(s); None is NaN
  function ParseInt(s: string): Option<int> {
    if s != "" && s[0] == '-' then
      match ReadNat(s[1..])
      case None => None
      case Some(n) => var minus: int := -n; Some(minus)
    else if s != "" && s[0] == '+' then ReadNat(s[1..])
    else ReadNat(s)
  }

  lemma {:induction false} ReadDigitsAppend(a: string, b: string, acc: nat)
    requires forall k :: 0 <= k < |a| ==> IsDigit(a[k])
    ensures ReadDigits(a + b, acc) == ReadDigits(b, ReadDigits(a, acc))
    decreases |a|
  {
    if a == "" {
      assert a + b == b;
    } else {
      assert (a + b)[0] == a[0] && (a + b)[1..] == a[1..] + b;
      ReadDigitsAppend(a[1..], b, 10 * acc + DigitValue(a[0]));
    }
  }

  lemma {:induction false} ReadNatText(n: nat)
    ensures ReadDigits(NatText(n), 0) == n
  {
    if n < 10 {
      assert NatText(n)[1..] == "";
    } else {
      var last := [DigitChar(n % 10)];
      ReadDigitsAppend(NatText(n / 10), last, 0);
      ReadNatText(n / 10);
      assert last[1..] == "";
    }
  }

  // A printed amount is read back as itself.
  lemma ParseIntText(n: int)
    ensures ParseInt(IntText(n)) == Some(n)
  {
    var digits := NatText(if n < 0 then -n else n);
    ReadNatText(if n < 0 then -n else n);
    assert IsDigit(digits[0]);
    if n < 0 {
      assert IntText(n)[1..] == digits;
    }
  }

  lemma {:induction false} NoMoreDigits(rest: string, acc: nat)
    requires rest == "" || !IsDigit(rest[0])
    ensures ReadDigits(rest, acc) == acc
  {}

  lemma DigitsPrefix(n: nat, rest: string)
    requires rest == "" || !IsDigit(rest[0])
    ensures ReadNat(NatText(n) + rest) == Some(n)
    ensures (NatText(n) + rest)[0] == NatText(n)[0]
  {
    ReadDigitsAppend(NatText(n), rest, 0);
    ReadNatText(n);
    NoMoreDigits(rest, n);
  }

  lemma ParseSigned(digits: string)
    requires digits != "" && IsDigit(digits[0])
    ensures ParseInt(digits) == ParseInt("+" + digits) == ReadNat(digits)
    ensures ReadNat(digits).Some? && ParseInt("-" + digits) == Some(-ReadNat(digits).value)
  {
    assert ("+" + digits)[1..] == digits && ("-" + digits)[1..] == digits;
    hide ReadDigits;
  }

  // An integer is read off the front of a text: "0.02" is 0.
  lemma ParseIntPrefix(n: int, rest: string)
    requires rest == "" || !IsDigit(rest[0])
    ensures ParseInt(IntText(n) + rest) == Some(n)
    ensures n >= 0 ==> ParseInt("+" + IntText(n) + rest) == Some(n)
  {
    var size := if n < 0 then -n else n;
    var digits := NatText(size) + rest;
    DigitsPrefix(size, rest);
    ParseSigned(digits);
    Regroup("-", NatText(size), rest);
    Regroup("+", NatText(size), rest);
    hide ParseInt, ReadNat, NatText;
    assert IntText(n) == if n < 0 then "-" + NatText(size) else NatText(size);
    hide IntText;
  }

  // There is a number exactly if a digit comes first, or right behind a sign.
  lemma ParseIntExactly(s: string)
    ensures ParseInt(s).Some?
       <==> (|s| > 0 && IsDigit(s[0])) || (|s| > 1 && (s[0] == '-' || s[0] == '+') && IsDigit(s[1]))
  {}
}
