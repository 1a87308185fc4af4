/** The decimal text that sprintf("%d") writes and atoi reads. */
module Decimal {

  predicate IsDigit(c: char) {
    '0' <= c <= '9'
  }

  predicate IsSpace(c: char) {
    c == ' ' || '\t' <= c <= '\r'
  }

  function Digits(n: nat): (s: string)
    ensures s != [] && forall c <- s :: IsDigit(c)
  {
    var last := [('0' as int + n % 10) as char];
    if n < 10 then last else Digits(n / 10) + last
  }

  function Format(n: int): (s: string)
    ensures s != [] && forall c <- s :: IsDigit(c) || c == '-'
  {
    if n < 0 then "-" + Digits(-n) else Digits(n)
  }

  function ReadDigits(s: string, acc: nat): nat {
    if s == [] || !IsDigit(s[0]) then acc
    else ReadDigits(s[1..], 10 * acc + (s[0] as int - '0' as int))
  }

  function Atoi(s: string): int {
    if s == [] then 0
    else if IsSpace(s[0]) then Atoi(s[1..])
    else if s[0] == '-' then 0 - ReadDigits(s[1..], 0)
    else if s[0] == '+' then ReadDigits(s[1..], 0)
    else ReadDigits(s, 0)
  }

  lemma {:induction false} ReadBack(n: nat, rest: string)
    ensures ReadDigits(Digits(n) + rest, 0) == ReadDigits(rest, n)
    decreases n
  {
    var last := [('0' as int + n % 10) as char];
    if n < 10 {
      assert Digits(n) + rest == last + rest;
      assert (last + rest)[1..] == rest;
    } else {
      assert Digits(n) + rest == Digits(n / 10) + (last + rest);
      ReadBack(n / 10, last + rest);
      assert (last + rest)[1..] == rest;
    }
  }

  lemma AtoiFormat(n: int)
    ensures Atoi(Format(n)) == n
  {
    var m: nat := if n < 0 then -n else n;
    assert Digits(m) + [] == Digits(m);
    ReadBack(m, []);
    assert IsDigit(Digits(m)[0]);
    if n < 0 {
      assert ("-" + Digits(m))[1..] == Digits(m);
    }
  }

  function Pow10(k: nat): (p: nat)
    ensures p > 0
  {
    if k == 0 then 1 else 10 * Pow10(k - 1)
  }

  lemma DivTwice(n: nat, p: nat)
    requires p > 0
    ensures n / 10 / p == n / (10 * p)
  {
    var q, r := n / 10 / p, n / 10 % p;
    assert n / 10 == p * q + r;
    var s := 10 * r + n % 10;
    assert n == (10 * p) * q + s && 0 <= s < 10 * p;
    DivIs(n, 10 * p, q, s);
  }

  lemma DivIs(n: nat, m: nat, q: nat, s: nat)
    requires n == m * q + s && s < m
    ensures n / m == q
  {
    var d, r := n / m, n % m;
    assert n == m * d + r;
    Remainders(m, d, q, r, s);
  }

  lemma Remainders(m: nat, d: nat, q: nat, r: nat, s: nat)
    requires r < m && s < m && m * d + r == m * q + s
    ensures d == q
  {
    if d > q {
      Larger(m, d, q);
    } else if d < q {
      Larger(m, q, d);
    }
  }

  lemma {:induction false} Larger(m: nat, d: nat, q: nat)
    requires d > q
    ensures m * d >= m * q + m
    decreases d - q
  {
    OneMore(m, d - 1);
    if d - 1 > q {
      Larger(m, d - 1, q);
    }
  }

  lemma OneMore(m: nat, d: nat)
    ensures m * (d + 1) == m * d + m
  {
  }

  /** The digits are those of the number in base ten, the last one for the ones. */
  lemma {:induction false} DigitAt(n: nat, k: nat)
    requires k < |Digits(n)|
    ensures Digits(n)[|Digits(n)| - 1 - k] as int == '0' as int + n / Pow10(k) % 10
    decreases n
  {
    if k > 0 {
      assert |Digits(n)| == |Digits(n / 10)| + 1;
      DigitAt(n / 10, k - 1);
      DivTwice(n, Pow10(k - 1));
    }
  }

  /** There are enough of them, and no zero is in front. */
  lemma {:induction false} DigitsSuffice(n: nat)
    ensures n < Pow10(|Digits(n)|)
    ensures n > 0 ==> Digits(n)[0] != '0'
    decreases n
  {
    if n >= 10 {
      DigitsSuffice(n / 10);
      assert |Digits(n)| == |Digits(n / 10)| + 1;
    } else {
      assert Pow10(1) == 10 * Pow10(0) && Pow10(0) == 1;
    }
  }
}
