// Decimal numerals, and keys built by joining parts with colons.
module Decimals {

  function Digit(d: nat): char
    requires d < 10
  {
    ('0' as int + d) as char
  }

  predicate IsDigit(c: char) {
    '0' <= c <= '9'
  }

  predicate Numeral(s: string) {
    s != "" && forall c :: c in s ==> IsDigit(c)
  }

  // str(n)
  function Decimal(n: nat): (s: string)
    ensures Numeral(s)
  {
    if n < 10 then [Digit(n)] else Decimal(n / 10) + [Digit(n % 10)]
  }

  // int(s)
  function Parse(s: string): nat
    requires Numeral(s)
  {
    var n := |s| - 1;
    assert s[n] in s;
    var last := s[n] as int - '0' as int;
    if n == 0 then last
    else
      assert forall c :: c in s[..n] ==> c in s;
      Parse(s[..n]) * 10 + last
  }

  lemma {:induction false} ParseDecimal(n: nat)
    ensures Parse(Decimal(n)) == n
  {
    if n < 10 {
    } else {
      ParseDecimal(n / 10);
      assert Decimal(n)[..|Decimal(n)| - 1] == Decimal(n / 10);
    }
  }

  lemma NoColonInNumeral(s: string)
    requires Numeral(s)
    ensures ':' !in s
  {
  }

  lemma LastColon(a: string, x: string)
    requires ':' !in x
    ensures var k := a + ":" + x; k[|a|] == ':' && forall i :: |a| < i < |k| ==> k[i] != ':'
  {
    var k := a + ":" + x;
    forall i | |a| < i < |k|
      ensures k[i] != ':'
    {
      assert k[i] == x[i - |a| - 1];
    }
  }

  // The last colon of a joined key separates its parts, whatever colons the first part holds.
  lemma JoinInjective(a: string, x: string, b: string, y: string)
    requires ':' !in x && ':' !in y
    requires a + ":" + x == b + ":" + y
    ensures a == b && x == y
  {
    var k := a + ":" + x;
    LastColon(a, x);
    LastColon(b, y);
    assert |a| == |b|;
    assert a == k[..|a|] == b;
    assert x == k[|a| + 1..] == y;
  }
}
