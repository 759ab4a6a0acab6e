/** Decimal text for natural numbers (JavaScript's `${n}` on a non-negative
    integer) and for `toFixed(1)` on non-negative exact reals. */
module Decimal {

  predicate IsDigit(c: char) { '0' <= c <= '9' }

  predicate AllDigits(s: string) { forall i :: 0 <= i < |s| ==> IsDigit(s[i]) }

  function DigitChar(d: nat): (c: char)
    requires d < 10
    ensures IsDigit(c) && c as int - '0' as int == d
  {
    ('0' as int + d) as char
  }

  /** Shortest decimal representation, no sign, no leading zeros. */
  function NatToString(n: nat): (s: string)
    ensures |s| > 0 && AllDigits(s)
    decreases n
  {
    if n < 10 then [DigitChar(n)] else NatToString(n / 10) + [DigitChar(n % 10)]
  }

  /** Reads a string of digits back as a number. */
  function ParseNat(s: string): nat
    requires AllDigits(s)
    decreases |s|
  {
    if s == [] then 0
    else ParseNat(s[..|s| - 1]) * 10 + (s[|s| - 1] as int - '0' as int)
  }

  lemma {:induction false} ParseNatToString(n: nat)
    ensures ParseNat(NatToString(n)) == n
    decreases n
  {
    if n >= 10 {
      var s := NatToString(n);
      assert s[..|s| - 1] == NatToString(n / 10);
      ParseNatToString(n / 10);
    }
  }

  lemma NatToStringInjective(a: nat, b: nat)
    requires NatToString(a) == NatToString(b)
    ensures a == b
  {
    ParseNatToString(a);
    ParseNatToString(b);
  }

  /** Rounds a non-negative real to the nearest tenth, taking the larger
      candidate on a tie, as `Number.prototype.toFixed(1)` specifies. The
      result is the number of tenths. */
  function TenthsOf(x: real): (n: nat)
    requires x >= 0.0
    ensures x - 0.05 < n as real / 10.0 <= x + 0.05
  {
    (x * 10.0 + 0.5).Floor
  }

  /** A number of tenths written out: integer part, a dot, one digit. */
  function TenthsText(n: nat): string
  {
    NatToString(n / 10) + "." + NatToString(n % 10)
  }

  /** `x.toFixed(1)` for a non-negative real. */
  function Fixed1(x: real): string
    requires x >= 0.0
  {
    TenthsText(TenthsOf(x))
  }

  /** Integer division of naturals is the floor of the exact quotient. */
  lemma DivIsFloor(a: nat, b: nat)
    requires b > 0
    ensures a / b == (a as real / b as real).Floor
  {
    var q, r := a / b, a % b;
    assert a == q * b + r;
    assert (a as real) == (q as real) * (b as real) + (r as real);
    assert a as real / b as real == q as real + r as real / b as real;
    assert 0.0 <= r as real / b as real < 1.0;
  }

  lemma Fixed1OfZero()
    ensures Fixed1(0.0) == "0.0"
  {
  }

  lemma Fixed1OfHundred()
    ensures Fixed1(100.0) == "100.0"
  {
    assert TenthsOf(100.0) == 1000;
    TenthsTextOfThousand();
  }

  lemma TenthsTextOfThousand()
    ensures TenthsText(1000) == "100.0"
  {
    assert NatToString(100) == NatToString(10) + "0";
    assert NatToString(10) == "10";
  }

  /** The text of Fixed1 reads back as the rounded number of tenths. */
  lemma {:induction false} Fixed1RoundTrip(x: real)
    requires x >= 0.0
    ensures var s := Fixed1(x);
            var ip := NatToString(TenthsOf(x) / 10);
            s[..|ip|] == ip && s[|ip|] == '.' && AllDigits(s[|ip| + 1..])
            && ParseNat(s[..|ip|]) * 10 + ParseNat(s[|ip| + 1..]) == TenthsOf(x)
  {
    var n := TenthsOf(x);
    var s := Fixed1(x);
    var ip := NatToString(n / 10);
    assert s[..|ip|] == ip;
    assert s[|ip| + 1..] == NatToString(n % 10);
    ParseNatToString(n / 10);
    ParseNatToString(n % 10);
  }
}
