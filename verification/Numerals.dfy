/** Numbers as printf writes them. */
module Numerals {
  import opened Bytes

  function Digit(d: nat): (c: byte)
    requires d < 16
  {
    if d < 10 then (d + '0' as nat) as char else (d - 10 + 'a' as nat) as char
  }

  function Digits(n: nat, base: nat): (s: Str)
    requires 2 <= base <= 16
    ensures s != []
  {
    if n < base then [Digit(n)] else Digits(n / base, base) + [Digit(n % base)]
  }

  function Decimal(n: nat): Str {
    Digits(n, 10)
  }

  function Hex(n: nat): Str {
    ['0', 'x'] + Digits(n, 16)
  }

  /** A signed number. */
  function Signed(n: int): Str {
    if n < 0 then ['-'] + Decimal(-n) else Decimal(n)
  }

  predicate IsDigit(b: byte) {
    '0' <= b <= '9'
  }

  /** The number that decimal digits spell. */
  function NumberOf(s: Str): nat
    requires forall b :: b in s ==> IsDigit(b)
  {
    if s == [] then 0
    else
      var last := s[|s| - 1];
      assert last in s && IsDigit(last);
      NumberOf(s[..|s| - 1]) * 10 + (last as nat - '0' as nat)
  }

  /** Decimal spells its argument, without a leading zero. */
  lemma {:induction false} DecimalSpells(n: nat)
    ensures forall b :: b in Decimal(n) ==> IsDigit(b)
    ensures NumberOf(Decimal(n)) == n
    ensures Decimal(n)[0] == '0' ==> n == 0
    ensures n == 0 ==> |Decimal(n)| == 1
  {
    if n >= 10 {
      DecimalSpells(n / 10);
      var init := Decimal(n / 10);
      assert Decimal(n) == init + [Digit(n % 10)];
      assert Decimal(n)[..|Decimal(n)| - 1] == init;
    } else {
      assert Decimal(n) == [Digit(n)] && Decimal(n)[..0] == [];
    }
  }

  lemma {:induction false} FewDigits(n: nat, base: nat)
    requires 2 <= base <= 16
    ensures n < base <==> |Digits(n, base)| == 1
    ensures n < base ==> Digits(n, base) == [Digit(n)]
  {
  }

  lemma {:induction false} LastDigit(n: nat, base: nat) returns (high: nat, low: nat)
    requires 2 <= base <= 16 && n >= base
    ensures high < n && low < base && n == base * high + low && Digits(n, base) == Digits(high, base) + [Digit(low)]
  {
    high, low := n / base, n % base;
  }

  lemma {:induction false} DigitsInjective(a: nat, b: nat, base: nat)
    requires (base == 10 || base == 16) && Digits(a, base) == Digits(b, base)
    ensures a == b
    decreases a
  {
    FewDigits(a, base);
    FewDigits(b, base);
    if a >= base {
      var m, x := LastDigit(a, base);
      var n, y := LastDigit(b, base);
      var s := Digits(a, base);
      assert s[..|s| - 1] == Digits(m, base) == Digits(n, base) && s[|s| - 1] == Digit(x) == Digit(y);
      DigitsInjective(m, n, base);
    }
  }

  /** No digit is a blank, a bracket or the end of a line. */
  lemma {:induction false} DigitsArePlain(n: nat, base: nat)
    requires 2 <= base <= 16
    ensures forall c :: c in Digits(n, base) ==> '0' <= c <= 'f'
  {
    if n >= base {
      var high, _ := LastDigit(n, base);
      DigitsArePlain(high, base);
    }
  }
}
