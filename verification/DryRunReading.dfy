/** The escapes of the dry-run text and its numbers can be read back. */
module DryRunReading {
  import opened Bytes
  import opened DryRun
  import opened DryRunText
  import opened Numerals

  /** The value of a small hexadecimal digit. */
  function DigitValue(c: char): Option<nat> {
    if '0' <= c <= '9' then Some(c as nat - 48) else if 'a' <= c <= 'f' then Some(c as nat - 87) else None
  }

  /** What an escaped text stands for: a backslash before a backslash, n, r or t, or
      before u, two zeros and two hexadecimal digits, any other character for itself. */
  function Unescaped(t: string): Option<seq<int>>
    decreases |t|
  {
    if t == [] then Some([])
    else if t[0] != '\\' then Follow(t[0] as int, Unescaped(t[1..]))
    else if |t| < 2 then None
    else if t[1] == '\\' then Follow(92, Unescaped(t[2..]))
    else if t[1] == 'n' then Follow(10, Unescaped(t[2..]))
    else if t[1] == 'r' then Follow(13, Unescaped(t[2..]))
    else if t[1] == 't' then Follow(9, Unescaped(t[2..]))
    else if |t| < 6 || t[1] != 'u' || t[2] != '0' || t[3] != '0' then None
    else
      var high :- DigitValue(t[4]);
      var low :- DigitValue(t[5]);
      Follow(16 * high + low, Unescaped(t[6..]))
  }

  function Follow(b: int, rest: Option<seq<int>>): Option<seq<int>> {
    var r :- rest;
    Some([b] + r)
  }

  function Codes(s: Str): seq<int> {
    if s == [] then [] else [s[0] as int] + Codes(s[1..])
  }

  lemma {:induction false} DigitIsRead(d: nat)
    requires d < 16
    ensures DigitValue(Digit(d)) == Some(d)
  {
  }

  lemma {:induction false} ByteIsRead(b: byte, rest: string)
    ensures Unescaped(EscapedByte(b) + rest) == Follow(b as int, Unescaped(rest))
  {
    var head := EscapedByte(b);
    var t := head + rest;
    assert t[|head|..] == rest;
    if b == '\\' || b == '\n' || b == '\r' || b == '\t' {
      assert t[0] == head[0] && t[1] == head[1];
    } else if b as int < 0x20 {
      DigitIsRead(b as int / 16);
      DigitIsRead(b as int % 16);
      assert head == ['\\', 'u', '0', '0', Digit(b as int / 16), Digit(b as int % 16)];
      assert forall i :: 0 <= i < 6 ==> t[i] == head[i];
    } else {
      assert t[0] == head[0];
    }
  }

  /** Reading an escaped text gives back the bytes that were escaped. */
  lemma {:induction false} EscapedIsRead(s: Str)
    ensures Unescaped(Escaped(s)) == Some(Codes(s))
  {
    if s != [] {
      assert s == [s[0]] + s[1..];
      EscapedConcat([s[0]], s[1..]);
      OneEscaped(s[0]);
      ByteIsRead(s[0], Escaped(s[1..]));
      EscapedIsRead(s[1..]);
    }
  }

  lemma {:induction false} OneEscaped(b: byte)
    ensures Escaped([b]) == EscapedByte(b)
  {
    assert [b][..0] == [] && Escaped([b]) == Escaped([b][..0]) + EscapedByte(b);
  }

  /** The number that hexadecimal digits spell. */
  function HexNumberOf(t: string): Option<nat> {
    if t == [] then Some(0)
    else
      var high :- HexNumberOf(t[..|t| - 1]);
      var low :- DigitValue(t[|t| - 1]);
      Some(16 * high + low)
  }

  lemma {:induction false} DigitsAreRead(n: nat)
    ensures HexNumberOf(Digits(n, 16)) == Some(n)
  {
    DigitIsRead(n % 16);
    if n >= 16 {
      DigitsAreRead(n / 16);
      var s := Digits(n, 16);
      assert s[..|s| - 1] == Digits(n / 16, 16) && s[|s| - 1] == Digit(n % 16);
    } else {
      assert [Digit(n)][..0] == [];
    }
  }

  /** A mask is printed as 0x and its hexadecimal digits. */
  lemma {:induction false} HexIsRead(n: nat)
    ensures |Hex(n)| > 2 && Hex(n)[..2] == "0x" && HexNumberOf(Hex(n)[2..]) == Some(n)
  {
    DigitsAreRead(n);
    assert Hex(n)[2..] == Digits(n, 16);
  }
}
