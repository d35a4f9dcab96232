/** The escapes of a TOML basic string, and the parser loop that undoes them. */
module BasicString {
  import opened Bytes
  import opened Utf8

  /** The source of one string: the text up to n is inside the quotes and the
      closing quote follows, which stops the scans for white space. */
  predicate Closed(src: Str, n: nat) {
    n < |src| && src[n] == '"'
  }

  predicate Control(b: byte) {
    b as int <= 0x08 || 0x0a <= b as int <= 0x1f || b as int == 0x7f
  }

  /** The first position from i on that holds none of the characters: i plus
      strspn. */
  function SkipOver(src: Str, i: nat, chars: string): (j: nat)
    requires i <= |src|
    ensures i <= j <= |src| && (j == |src| || src[j] !in chars)
    ensures forall k :: i <= k < j ==> src[k] in chars
    decreases |src| - i
  {
    if i < |src| && src[i] in chars then SkipOver(src, i + 1, chars) else i
  }

  /** Only capitals are hexadecimal digits here. */
  function HexValue(b: byte): Option<nat> {
    if '0' <= b <= '9' then Some(b as nat - '0' as nat)
    else if 'A' <= b <= 'F' then Some(b as nat - 'A' as nat + 10)
    else None
  }

  /** The number spelled by count digits at i. */
  function HexNumber(src: Str, n: nat, i: nat, count: nat): Option<nat>
    requires n <= |src|
  {
    if count == 0 then Some(0)
    else
      var high :- HexNumber(src, n, i, count - 1);
      if i + count > n then None
      else
        var digit :- HexValue(src[i + count - 1]);
        Some(high * 16 + digit)
  }

  /** What a prefix of the source stands for, and where the rest starts. */
  datatype Step = Bad | Good(text: Str, next: nat)

  function CodeStep(src: Str, n: nat, i: nat, count: nat): Step
    requires n <= |src|
  {
    var code := HexNumber(src, n, i, count);
    if code.Some? && Encodable(code.value) then Good(Octets(code.value), i + count) else Bad
  }

  function ShortEscape(b: byte): Option<byte> {
    match b
    case 'b' => Some(8 as char)
    case 't' => Some('\t')
    case 'n' => Some('\n')
    case 'f' => Some(12 as char)
    case 'r' => Some('\r')
    case '"' => Some('"')
    case '\\' => Some('\\')
    case _ => None
  }

  /** The escape whose backslash stands before i. */
  function EscapeStep(src: Str, n: nat, multiline: bool, i: nat): Step
    requires Closed(src, n) && i <= n
  {
    if i == n then Bad
    else if multiline && EndsLine(src, i) then Good([], SkipOver(src, i, " \t\r\n"))
    else if src[i] == 'u' then CodeStep(src, n, i + 1, 4)
    else if src[i] == 'U' then CodeStep(src, n, i + 1, 8)
    else if ShortEscape(src[i]).Some? then Good([ShortEscape(src[i]).value], i + 1)
    else Bad
  }

  /** Only blanks before the end of the line. */
  predicate EndsLine(src: Str, i: nat)
    requires i <= |src|
  {
    var j := SkipOver(src, i, " \t\r");
    j < |src| && src[j] == '\n'
  }

  function OneStep(src: Str, n: nat, multiline: bool, i: nat): Step
    requires Closed(src, n) && i < n
  {
    if src[i] == '\\' then EscapeStep(src, n, multiline, i + 1)
    else if Control(src[i]) && !(multiline && src[i] in "\r\n") then Bad
    else Good([src[i]], i + 1)
  }

  lemma {:induction false} HexNumberFits(src: Str, n: nat, i: nat, count: nat)
    requires n <= |src| && HexNumber(src, n, i, count).Some? && count > 0
    ensures i + count <= n
    ensures var v := HexNumber(src, n, i, count).value;
      (count == 1 ==> v < 0x10) && (count == 2 ==> v < 0x100) && (count == 3 ==> v < 0x1000) && (count == 4 ==> v < 0x1_0000)
    decreases count
  {
    if count > 1 {
      HexNumberFits(src, n, i, count - 1);
    }
  }

  /** A step moves on inside the string and writes no more than it reads. */
  lemma {:induction false} StepShrinks(src: Str, n: nat, multiline: bool, i: nat)
    requires Closed(src, n) && i < n && OneStep(src, n, multiline, i).Good?
    ensures var step := OneStep(src, n, multiline, i);
      i < step.next <= n && |step.text| <= step.next - i && |step.text| <= 6
  {
    if src[i] == '\\' && !(multiline && EndsLine(src, i + 1)) && src[i + 1] in "uU" {
      HexNumberFits(src, n, i + 2, if src[i + 1] == 'u' then 4 else 8);
    }
  }

  /** What the string from i on stands for; None if it is malformed. */
  function Decoded(src: Str, n: nat, multiline: bool, i: nat): (r: Option<Str>)
    requires Closed(src, n) && i <= n
    decreases n - i
  {
    if i == n then Some([])
    else
      match OneStep(src, n, multiline, i)
      case Bad => None
      case Good(text, next) =>
        StepShrinks(src, n, multiline, i);
        var rest :- Decoded(src, n, multiline, next);
        Some(text + rest)
  }

  /** Prepended text. */
  function Before(text: Str, rest: Option<Str>): Option<Str> {
    var r :- rest;
    Some(text + r)
  }

  /** A buffer that holds text at its start. */
  predicate Starts(buf: Str, text: Str) {
    |text| <= |buf| && buf[..|text|] == text
  }

  lemma {:induction false} WrittenStarts(now: Str, was: Str, text: Str, more: Str)
    requires Starts(was, text) && Written(now, was, |text|, more)
    ensures Starts(now, text + more)
  {
    assert now[..|text|] == text;
    assert now[|text|..|text| + |more|] == more;
  }

  /** expand: a larger buffer with the same contents. */
  method Expand(dst: array<byte>, max: nat) returns (bigger: array<byte>)
    requires dst.Length <= max
    ensures fresh(bigger) && bigger.Length == max
    ensures bigger[..dst.Length] == dst[..]
  {
    bigger := new byte[max];
    for k := 0 to dst.Length
      invariant forall m :: 0 <= m < k ==> bigger[m] == dst[m]
    {
      bigger[k] := dst[k];
    }
  }

  /** The digit loop of the u and U escapes. */
  method ReadHex(src: Str, n: nat, i: nat, count: nat) returns (ucs: Option<nat>)
    requires n <= |src|
    ensures ucs == HexNumber(src, n, i, count)
  {
    var sum := 0;
    for k := 0 to count
      invariant HexNumber(src, n, i, k) == Some(sum)
    {
      if i + k >= n {
        HexNumberStops(src, n, i, k + 1, count);
        return None;
      }
      var v := HexValue(src[i + k]);
      if v.None? {
        HexNumberStops(src, n, i, k + 1, count);
        return None;
      }
      sum := sum * 16 + v.value;
    }
    return Some(sum);
  }

  lemma {:induction false} HexNumberStops(src: Str, n: nat, i: nat, k: nat, count: nat)
    requires n <= |src| && k <= count && HexNumber(src, n, i, k) == None
    ensures HexNumber(src, n, i, count) == None
    decreases count
  {
    if k < count {
      HexNumberStops(src, n, i, k, count - 1);
    }
  }

  /** One turn of the loop, after room was made: what the step at i writes goes to
      dst[off..]. */
  method Turn(src: Str, n: nat, multiline: bool, i: nat, dst: array<byte>, off: nat) returns (next: nat, wrote: int)
    requires Closed(src, n) && i < n && off + 10 < dst.Length
    modifies dst
    ensures wrote < 0 <==> OneStep(src, n, multiline, i).Bad?
    ensures wrote >= 0 ==> OneStep(src, n, multiline, i).next == next && wrote == |OneStep(src, n, multiline, i).text|
    ensures wrote >= 0 ==> Written(dst[..], old(dst[..]), off, OneStep(src, n, multiline, i).text)
  {
    var ch := src[i];
    if ch != '\\' {
      if Control(ch) {
        if !(multiline && (ch == '\r' || ch == '\n')) {
          return i, -1;
        }
      }
      dst[off] := ch;
      return i + 1, 1;
    }
    if i + 1 >= n {
      return i, -1;
    }
    if multiline {
      var j := SkipOver(src, i + 1, " \t\r");
      if j < |src| && src[j] == '\n' {
        return SkipOver(src, i + 1, " \t\r\n"), 0;
      }
    }
    ch := src[i + 1];
    if ch == 'u' || ch == 'U' {
      var count := if ch == 'u' then 4 else 8;
      var ucs := ReadHex(src, n, i + 2, count);
      if ucs.None? {
        return i, -1;
      }
      wrote := UcsToUtf8(ucs.value, dst, off);
      return i + 2 + count, wrote;
    }
    var plain := ShortEscape(ch);
    if plain.None? {
      return i, -1;
    }
    dst[off] := plain.value;
    return i + 2, 1;
  }

  /** norm_basic_str. The buffer grows by 50 whenever fewer than 10 bytes are free,
      to at most memory bytes; the result is a C string. */
  method NormBasicStr(src: Str, n: nat, multiline: bool, memory: nat) returns (dst: array<byte>, ok: bool)
    requires Closed(src, n)
    ensures ok ==> Decoded(src, n, multiline, 0).Some? && Starts(dst[..], Decoded(src, n, multiline, 0).value + ['\0'])
    ensures memory >= n + 60 ==> ok == Decoded(src, n, multiline, 0).Some?
    ensures fresh(dst)
  {
    dst := new byte[0];
    var max, off, i := 0, 0, 0;
    ghost var text: Str := [];
    assert forall s: Str :: [] + s == s;
    while true
      invariant fresh(dst) && dst.Length == max && off == |text| <= i <= n && off <= max <= off + 60
      invariant max > 0 ==> off + 4 < max
      invariant Starts(dst[..], text)
      invariant Decoded(src, n, multiline, 0) == Before(text, Decoded(src, n, multiline, i))
      decreases n - i
    {
      if off + 10 >= max {
        var newmax := max + 50;
        if newmax > memory {
          return dst, false;
        }
        dst := Expand(dst, newmax);
        max := newmax;
        assert dst[..off] == text;
      }
      if i >= n {
        break;
      }
      ghost var step, was := OneStep(src, n, multiline, i), dst[..];
      var next, wrote := Turn(src, n, multiline, i, dst, off);
      if wrote < 0 {
        return dst, false;
      }
      StepShrinks(src, n, multiline, i);
      WrittenStarts(dst[..], was, text, step.text);
      BeforeStep(src, n, multiline, i, text);
      text := text + step.text;
      off := off + wrote;
      i := next;
    }
    dst[off] := '\0';
    assert dst[..off] == text;
    ok := true;
  }

  lemma {:induction false} BeforeStep(src: Str, n: nat, multiline: bool, i: nat, text: Str)
    requires Closed(src, n) && i < n && OneStep(src, n, multiline, i).Good? && OneStep(src, n, multiline, i).next <= n
    ensures var step := OneStep(src, n, multiline, i);
      Before(text, Decoded(src, n, multiline, i)) == Before(text + step.text, Decoded(src, n, multiline, step.next))
  {
    var step := OneStep(src, n, multiline, i);
    var rest := Decoded(src, n, multiline, step.next);
    if rest.Some? {
      assert text + (step.text + rest.value) == text + step.text + rest.value;
    }
  }
}
