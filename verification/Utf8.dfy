/** The octet scheme of section 2 of RFC 2279, as the TOML parser writes and reads
    it. */
module Utf8 {
  import opened Bytes

  const MAX_CODE: int := 0x7FFF_FFFF

  /** The codes that can be written: no surrogate and neither of U+FFFE, U+FFFF. */
  predicate Encodable(code: int) {
    0 <= code <= MAX_CODE && !(0xd800 <= code <= 0xdfff) && !(0xfffe <= code <= 0xffff)
  }

  /** How many octets follow the first one. */
  function Following(code: nat): (k: nat)
    ensures k <= 5
  {
    if code <= 0x7F then 0 else if code <= 0x7FF then 1 else if code <= 0xFFFF then 2
    else if code <= 0x1F_FFFF then 3 else if code <= 0x3FF_FFFF then 4 else 5
  }

  /** The bits of the first octet that say how many octets follow. */
  function Mark(k: nat): nat
    requires k <= 5
  {
    [0, 0xC0, 0xE0, 0xF0, 0xF8, 0xFC][k]
  }

  /** How many octets a first octet announces; None if it cannot come first. */
  function Announced(b: byte): (k: Option<nat>)
    ensures k.Some? ==> k.value <= 5 && Mark(k.value) <= b as nat
  {
    var i := b as nat;
    if i < 0x80 then Some(0) else if i < 0xC0 then None else if i < 0xE0 then Some(1) else if i < 0xF0 then Some(2)
    else if i < 0xF8 then Some(3) else if i < 0xFC then Some(4) else if i < 0xFE then Some(5) else None
  }

  /** code >> 6 * k. */
  function High(code: nat, k: nat): nat {
    if k == 0 then code else High(code / 64, k - 1)
  }

  /** The last k groups of six bits, each in an octet. */
  function Low(code: nat, k: nat): (s: Str)
    ensures |s| == k
  {
    if k == 0 then [] else Low(code / 64, k - 1) + [(0x80 + code % 64) as char]
  }

  lemma {:induction false} FirstOctetFits(code: nat)
    requires code <= MAX_CODE
    ensures Mark(Following(code)) + High(code, Following(code)) < 256
    ensures Announced((Mark(Following(code)) + High(code, Following(code))) as char) == Some(Following(code))
  {
    var c1 := code / 64;
    var c2 := c1 / 64;
    var c3 := c2 / 64;
    var c4 := c3 / 64;
    var k := Following(code);
    if k == 0 {
    } else if k == 1 {
      assert High(code, 1) == High(c1, 0) == c1;
    } else if k == 2 {
      assert High(code, 2) == High(c1, 1) == High(c2, 0) == c2;
    } else if k == 3 {
      assert High(code, 3) == High(c1, 2) == High(c2, 1) == High(c3, 0) == c3;
    } else if k == 4 {
      assert High(code, 4) == High(c1, 3) == High(c2, 2) == High(c3, 1) == High(c4, 0) == c4;
    } else {
      assert High(code, 5) == High(c1, 4) == High(c2, 3) == High(c3, 2) == High(c4, 1) == High(c4 / 64, 0) == c4 / 64;
    }
  }

  /** The octets of a code. */
  function Octets(code: nat): (s: Str)
    requires code <= MAX_CODE
    ensures |s| == Following(code) + 1
  {
    FirstOctetFits(code);
    var k := Following(code);
    [(Mark(k) + High(code, k)) as char] + Low(code, k)
  }

  predicate Continues(b: byte) {
    0x80 <= b as nat < 0xC0
  }

  predicate AllContinue(s: Str) {
    forall i :: 0 <= i < |s| ==> Continues(s[i])
  }

  /** v followed by the six bits of each octet. */
  function Gathered(v: nat, s: Str): nat {
    if s == [] then v else Gathered(v, s[..|s| - 1]) * 64 + s[|s| - 1] as nat % 64
  }

  /** The code at the start of s, of which len octets may be used, and its octet
      count. */
  function Read(s: Str, len: nat): (r: Option<(nat, nat)>)
    requires s != [] && len <= |s|
    ensures r.Some? ==> 1 <= r.value.1 <= 6 && r.value.1 <= len
  {
    var k :- Announced(s[0]);
    if k < len && AllContinue(s[1..k + 1])
    then Some((Gathered(s[0] as nat - Mark(k), s[1..k + 1]), k + 1))
    else None
  }

  lemma {:induction false} GatheredLow(code: nat, k: nat)
    ensures AllContinue(Low(code, k)) && Gathered(High(code, k), Low(code, k)) == code
    decreases k
  {
    if k > 0 {
      GatheredLow(code / 64, k - 1);
      assert Low(code, k)[..k - 1] == Low(code / 64, k - 1);
    }
  }

  /** Reading what was written gives the code and its octet count, whatever
      follows. */
  lemma {:induction false} RoundTrip(code: nat, rest: Str, len: nat)
    requires code <= MAX_CODE && |Octets(code)| <= len <= |Octets(code) + rest|
    ensures Read(Octets(code) + rest, len) == Some((code, |Octets(code)|))
  {
    var k := Following(code);
    FirstOctetFits(code);
    GatheredLow(code, k);
    var s := Octets(code) + rest;
    assert s[0] == Octets(code)[0];
    assert s[1..k + 1] == Low(code, k);
  }

  /** No code's octets start another code's octets. */
  lemma {:induction false} PrefixFree(a: nat, b: nat)
    requires a <= MAX_CODE && b <= MAX_CODE && Octets(a) <= Octets(b)
    ensures a == b
  {
    var rest := Octets(b)[|Octets(a)|..];
    assert Octets(b) == Octets(a) + rest == Octets(b) + [];
    RoundTrip(a, rest, |Octets(b)|);
    RoundTrip(b, [], |Octets(b)|);
  }

  lemma {:induction false} LowGathered(v: nat, s: Str)
    requires AllContinue(s)
    ensures High(Gathered(v, s), |s|) == v && Low(Gathered(v, s), |s|) == s
    decreases |s|
  {
    if s != [] {
      var init, last := s[..|s| - 1], s[|s| - 1];
      LowGathered(v, init);
      var code := Gathered(v, s);
      assert code / 64 == Gathered(v, init) && code % 64 == last as nat - 0x80;
      assert s == init + [last];
    }
  }

  lemma {:induction false} GatheredBounds(v: nat, s: Str, m: nat)
    requires v < m
    ensures |s| == 1 ==> Gathered(v, s) < 64 * m
    ensures |s| == 2 ==> Gathered(v, s) < 4096 * m
    ensures |s| == 3 ==> Gathered(v, s) < 262144 * m
    ensures |s| == 4 ==> Gathered(v, s) < 16777216 * m
    ensures |s| == 5 ==> Gathered(v, s) < 1073741824 * m
    decreases |s|
  {
    if s != [] {
      GatheredBounds(v, s[..|s| - 1], m);
    }
  }

  /** Exactly the shortest spelling of a code is its own; the reader also accepts
      longer spellings. */
  lemma {:induction false} ReadIsCanonicalIff(s: Str, len: nat)
    requires s != [] && len <= |s| && Read(s, len).Some?
    ensures var (code, n) := Read(s, len).value;
      code <= MAX_CODE && (s[..n] == Octets(code) <==> n == Following(code) + 1) && Following(code) + 1 <= n
  {
    var (code, n) := Read(s, len).value;
    var k := n - 1;
    var tail := s[1..n];
    LowGathered(s[0] as nat - Mark(k), tail);
    GatheredBounds(s[0] as nat - Mark(k), tail, s[0] as nat - Mark(k) + 1);
    assert s[..n] == [s[0]] + tail;
    if n == Following(code) + 1 {
      assert Octets(code) == s[..n];
    }
  }

  lemma {:induction false} LongSpellingIsRead()
    ensures var s: Str := [0xC0 as char, 0x80 as char];
      Read(s, 2) == Some((0, 2)) && Octets(0) == ['\0']
  {
    var s: Str := [0xC0 as char, 0x80 as char];
    assert s[1..2][..0] == [];
    assert Gathered(0, s[1..2]) == Gathered(0, []) * 64;
  }

  /** 0x80 | (c & 0x3f). */
  function Six(c: nat): byte {
    (0x80 + c % 64) as char
  }

  lemma {:induction false} OneSix(c: nat)
    ensures Low(c, 1) == [Six(c)]
  {
    assert Low(c, 1) == Low(c / 64, 0) + [Six(c)];
  }

  lemma {:induction false} TwoSixes(c: nat)
    ensures Low(c, 2) == [Six(High(c, 1)), Six(c)]
  {
    OneSix(c / 64);
    assert Low(c, 2) == Low(c / 64, 1) + [Six(c)] && High(c, 1) == High(c / 64, 0);
  }

  lemma {:induction false} ThreeSixes(c: nat)
    ensures Low(c, 3) == [Six(High(c, 2)), Six(High(c, 1)), Six(c)]
  {
    TwoSixes(c / 64);
    assert Low(c, 3) == Low(c / 64, 2) + [Six(c)] && High(c, 2) == High(c / 64, 1) && High(c, 1) == High(c / 64, 0);
  }

  lemma {:induction false} FourSixes(c: nat)
    ensures Low(c, 4) == [Six(High(c, 3)), Six(High(c, 2)), Six(High(c, 1)), Six(c)]
  {
    ThreeSixes(c / 64);
    assert Low(c, 4) == Low(c / 64, 3) + [Six(c)];
    assert High(c, 3) == High(c / 64, 2) && High(c, 2) == High(c / 64, 1) && High(c, 1) == High(c / 64, 0);
  }

  lemma {:induction false} FiveSixes(c: nat)
    ensures Low(c, 5) == [Six(High(c, 4)), Six(High(c, 3)), Six(High(c, 2)), Six(High(c, 1)), Six(c)]
  {
    FourSixes(c / 64);
    assert Low(c, 5) == Low(c / 64, 4) + [Six(c)];
    assert High(c, 4) == High(c / 64, 3) && High(c, 3) == High(c / 64, 2);
    assert High(c, 2) == High(c / 64, 1) && High(c, 1) == High(c / 64, 0);
  }

  /** now is was with s written at off. */
  ghost predicate Written(now: Str, was: Str, off: nat, s: Str) {
    && |now| == |was| && off + |s| <= |was|
    && (forall i :: off <= i < off + |s| ==> now[i] == s[i - off])
    && (forall i :: 0 <= i < off ==> now[i] == was[i])
    && (forall i :: off + |s| <= i < |was| ==> now[i] == was[i])
  }

  /** The forms of four octets and more of toml_ucs_to_utf8. */
  method LongToUtf8(code: nat, buf: array<byte>, off: nat) returns (n: int)
    requires off + 6 <= buf.Length && code > 0xFFFF
    modifies buf
    ensures n == if Encodable(code) then |Octets(code)| else -1
    ensures Written(buf[..], old(buf[..]), off, if Encodable(code) then Octets(code) else [])
  {
    if code <= 0x1F_FFFF {
      ThreeSixes(code);
      FirstOctetFits(code);
      buf[off] := (0xF0 + High(code, 3)) as char;
      buf[off + 1] := Six(High(code, 2));
      buf[off + 2] := Six(High(code, 1));
      buf[off + 3] := Six(code);
      return 4;
    }
    if code <= 0x3FF_FFFF {
      FourSixes(code);
      FirstOctetFits(code);
      buf[off] := (0xF8 + High(code, 4)) as char;
      buf[off + 1] := Six(High(code, 3));
      buf[off + 2] := Six(High(code, 2));
      buf[off + 3] := Six(High(code, 1));
      buf[off + 4] := Six(code);
      return 5;
    }
    if code <= 0x7FFF_FFFF {
      FiveSixes(code);
      FirstOctetFits(code);
      buf[off] := (0xFC + High(code, 5)) as char;
      buf[off + 1] := Six(High(code, 4));
      buf[off + 2] := Six(High(code, 3));
      buf[off + 3] := Six(High(code, 2));
      buf[off + 4] := Six(High(code, 1));
      buf[off + 5] := Six(code);
      return 6;
    }
    return -1;
  }

  /** toml_ucs_to_utf8, writing at buf[off..]; -1 if the code cannot be written. */
  method UcsToUtf8(code: int, buf: array<byte>, off: nat) returns (n: int)
    requires off + 6 <= buf.Length
    modifies buf
    ensures n == if Encodable(code) then |Octets(code)| else -1
    ensures Written(buf[..], old(buf[..]), off, if Encodable(code) then Octets(code) else [])
  {
    if 0xd800 <= code <= 0xdfff || 0xfffe <= code <= 0xffff {
      return -1;
    }
    if code < 0 {
      return -1;
    }
    if code <= 0x7F {
      buf[off] := code as char;
      return 1;
    }
    if code <= 0x7FF {
      OneSix(code);
      FirstOctetFits(code);
      buf[off] := (0xC0 + High(code, 1)) as char;
      buf[off + 1] := Six(code);
      return 2;
    }
    if code <= 0xFFFF {
      TwoSixes(code);
      FirstOctetFits(code);
      buf[off] := (0xE0 + High(code, 2)) as char;
      buf[off + 1] := Six(High(code, 1));
      buf[off + 2] := Six(code);
      return 3;
    }
    n := LongToUtf8(code, buf, off);
  }

  /** The loop that the forms of two octets and more share. */
  method Continue(orig: Str, following: nat, first: nat) returns (v: Option<nat>)
    requires following < |orig|
    ensures v == if AllContinue(orig[1..following + 1]) then Some(Gathered(first, orig[1..following + 1])) else None
  {
    var sum := first;
    for j := 0 to following
      invariant AllContinue(orig[1..j + 1]) && sum == Gathered(first, orig[1..j + 1])
    {
      assert orig[1..j + 2] == orig[1..j + 1] + [orig[j + 1]];
      assert orig[1..j + 2][..j] == orig[1..j + 1];
      if orig[j + 1] as nat / 64 != 2 {
        assert orig[1..following + 1][j] == orig[j + 1];
        return None;
      }
      sum := sum * 64 + orig[j + 1] as nat % 64;
    }
    return Some(sum);
  }

  /** toml_utf8_to_ucs: the code and how many octets it took; None for -1. */
  method Utf8ToUcs(orig: Str, len: nat) returns (r: Option<(nat, nat)>)
    requires orig != [] && len <= |orig|
    ensures r == Read(orig, len)
  {
    var i := orig[0] as nat;
    var v, following: nat;
    if i / 0x80 == 0 {
      v, following := i, 0;
    } else if i / 0x20 == 0x6 {
      v, following := i % 0x20, 1;
    } else if i / 0x10 == 0xE {
      v, following := i % 0x10, 2;
    } else if i / 8 == 0x1E {
      v, following := i % 8, 3;
    } else if i / 4 == 0x3E {
      v, following := i % 4, 4;
    } else if i / 2 == 0x7E {
      v, following := i % 2, 5;
    } else {
      return None;
    }
    assert Announced(orig[0]) == Some(following) && v == i - Mark(following);
    if len < following + 1 {
      return None;
    }
    var gathered := Continue(orig, following, v);
    if gathered.None? {
      return None;
    }
    return Some((gathered.value, following + 1));
  }
}
