/** The JSON lines of the audit log: how they are written, and a reader for them
    after section 7 of RFC 8259. */
module Json {
  import opened Bytes
  import opened Numerals
  import Utf8

  datatype Value = Null | Text(text: Str) | Number(number: int)

  datatype Field = Field(key: Str, value: Value)

  // ----- writing

  function EscapedByte(b: byte): (s: Str)
    ensures s != []
  {
    match b as int
    case 34 => ['\\', '"']
    case 92 => ['\\', '\\']
    case 8 => ['\\', 'b']
    case 12 => ['\\', 'f']
    case 10 => ['\\', 'n']
    case 13 => ['\\', 'r']
    case 9 => ['\\', 't']
    case _ => if b as int < 0x20 then ['\\', 'u', '0', '0', Digit(b as int / 16), Digit(b as int % 16)] else [b]
  }

  function Escaped(s: Str): Str {
    if s == [] then [] else EscapedByte(s[0]) + Escaped(s[1..])
  }

  lemma {:induction false} EscapedNext(s: Str, i: nat)
    requires i < |s|
    ensures Escaped(s[..i + 1]) == Escaped(s[..i]) + EscapedByte(s[i])
    decreases i
  {
    if i == 0 {
      assert s[..1][1..] == [] && s[..1][0] == s[0];
    } else {
      EscapedNext(s[1..], i - 1);
      assert s[..i + 1][1..] == s[1..][..i] && s[..i][1..] == s[1..][..i - 1];
    }
  }

  function Quoted(s: Str): Str {
    ['"'] + Escaped(s) + ['"']
  }

  function NullText(): Str {
    ['n', 'u', 'l', 'l']
  }

  function ValueText(v: Value): Str {
    match v
    case Null => NullText()
    case Text(text) => Quoted(text)
    case Number(number) => Signed(number)
  }

  function FieldText(f: Field): Str {
    Quoted(f.key) + ([':'] + ValueText(f.value))
  }

  function Members(fs: seq<Field>): Str {
    if fs == [] then []
    else if |fs| == 1 then FieldText(fs[0])
    else FieldText(fs[0]) + ([','] + Members(fs[1..]))
  }

  /** An event before it is ended. */
  function Opened(fs: seq<Field>): Str {
    ['{'] + Members(fs)
  }

  /** The line of an event. */
  function Line(fs: seq<Field>): Str {
    Opened(fs) + ['}', '\n']
  }

  function Separator(first: bool): Str {
    if first then [] else [',']
  }

  lemma {:induction false} Regroup(a: Str, b: Str, c: Str, d: Str)
    ensures a + (b + c) + d == a + (b + (c + d))
  {
  }

  lemma {:induction false} OneMoreMember(fs: seq<Field>, f: Field)
    ensures Members(fs + [f]) == Members(fs) + (Separator(fs == []) + FieldText(f))
  {
    if fs == [] {
      assert fs + [f] == [f] && Members([f]) == FieldText(f);
    } else if |fs| == 1 {
      assert (fs + [f])[1..] == [f] && Members([f]) == FieldText(f);
      assert Members(fs + [f]) == FieldText(fs[0]) + ([','] + FieldText(f));
    } else {
      OneMoreMember(fs[1..], f);
      var more := Separator(false) + FieldText(f);
      assert (fs + [f])[1..] == fs[1..] + [f];
      assert Members(fs + [f]) == FieldText(fs[0]) + ([','] + (Members(fs[1..]) + more));
      Regroup(FieldText(fs[0]), [','], Members(fs[1..]), more);
    }
  }

  lemma {:induction false} OneMoreField(fs: seq<Field>, f: Field)
    ensures Opened(fs + [f]) == Opened(fs) + (Separator(fs == []) + FieldText(f))
  {
    OneMoreMember(fs, f);
  }

  // ----- reading

  function HexDigit(b: byte): Option<nat> {
    if '0' <= b <= '9' then Some(b as nat - '0' as nat)
    else if 'a' <= b <= 'f' then Some(b as nat - 'a' as nat + 10)
    else if 'A' <= b <= 'F' then Some(b as nat - 'A' as nat + 10)
    else None
  }

  function HexQuad(s: Str): (r: Option<nat>)
    requires |s| >= 4
    ensures r.Some? ==> r.value <= 0xFFFF
  {
    var a :- HexDigit(s[0]);
    var b :- HexDigit(s[1]);
    var c :- HexDigit(s[2]);
    var d :- HexDigit(s[3]);
    Some(a * 4096 + b * 256 + c * 16 + d)
  }

  predicate Surrogate(code: nat) {
    0xD800 <= code < 0xE000
  }

  /** What follows "\u": one code, or a pair of surrogates. */
  function ReadUnicode(s: Str): (r: Option<(Str, Str)>)
    ensures r.Some? ==> |r.value.1| < |s|
  {
    if |s| < 4 then None
    else
      var code :- HexQuad(s);
      if !Surrogate(code) then Some((Utf8.Octets(code), s[4..]))
      else if code < 0xDC00 && |s| >= 10 && s[4] == '\\' && s[5] == 'u' then
        var low :- HexQuad(s[6..]);
        if 0xDC00 <= low < 0xE000
        then Some((Utf8.Octets(0x1_0000 + (code - 0xD800) * 0x400 + (low - 0xDC00)), s[10..]))
        else None
      else None
  }

  /** One character of a string, and the rest. */
  function ReadChar(s: Str): (r: Option<(Str, Str)>)
    ensures r.Some? ==> |r.value.1| < |s|
  {
    if s == [] then None
    else if s[0] == '\\' then
      if |s| == 1 then None
      else
        match s[1]
        case '"' => Some((['"'], s[2..]))
        case '\\' => Some((['\\'], s[2..]))
        case '/' => Some((['/'], s[2..]))
        case 'b' => Some(([8 as char], s[2..]))
        case 'f' => Some(([12 as char], s[2..]))
        case 'n' => Some((['\n'], s[2..]))
        case 'r' => Some((['\r'], s[2..]))
        case 't' => Some((['\t'], s[2..]))
        case 'u' => ReadUnicode(s[2..])
        case _ => None
    else if s[0] as int < 0x20 || s[0] == '"' then None
    else Some(([s[0]], s[1..]))
  }

  /** The characters up to the closing quote. */
  function ReadChars(s: Str): (r: Option<(Str, Str)>)
    ensures r.Some? ==> |r.value.1| < |s|
    decreases |s|
  {
    if s != [] && s[0] == '"' then Some(([], s[1..]))
    else
      var first :- ReadChar(s);
      var more :- ReadChars(first.1);
      Some((first.0 + more.0, more.1))
  }

  function ReadString(s: Str): (r: Option<(Str, Str)>)
    ensures r.Some? ==> |r.value.1| < |s|
  {
    if s != [] && s[0] == '"' then ReadChars(s[1..]) else None
  }

  /** How many digits s starts with. */
  function DigitRun(s: Str): (k: nat)
    ensures k <= |s| && forall b :: b in s[..k] ==> IsDigit(b)
  {
    if s == [] || !IsDigit(s[0]) then 0 else
      var k := DigitRun(s[1..]) + 1;
      assert s[..k] == [s[0]] + s[1..][..k - 1];
      k
  }

  function ReadNatural(s: Str): (r: Option<(nat, Str)>)
    ensures r.Some? ==> |r.value.1| < |s|
  {
    var k := DigitRun(s);
    if k == 0 || (s[0] == '0' && k > 1) then None else Some((NumberOf(s[..k]), s[k..]))
  }

  function ReadValue(s: Str): (r: Option<(Value, Str)>)
    ensures r.Some? ==> |r.value.1| < |s|
  {
    if s == [] then None
    else if s[0] == 'n' then if NullText() <= s then Some((Null, s[4..])) else None
    else if s[0] == '"' then
      var text :- ReadString(s);
      Some((Text(text.0), text.1))
    else if s[0] == '-' then
      var n :- ReadNatural(s[1..]);
      Some((Number(0 - n.0 as int), n.1))
    else
      var n :- ReadNatural(s);
      Some((Number(n.0), n.1))
  }

  function ReadField(s: Str): (r: Option<(Field, Str)>)
    ensures r.Some? ==> |r.value.1| < |s|
  {
    var key :- ReadString(s);
    if key.1 == [] || key.1[0] != ':' then None
    else
      var value :- ReadValue(key.1[1..]);
      Some((Field(key.0, value.0), value.1))
  }

  /** One or more fields up to the closing brace. */
  function ReadFields(s: Str): Option<(seq<Field>, Str)>
    decreases |s|
  {
    var first :- ReadField(s);
    if first.1 == [] then None
    else if first.1[0] == '}' then Some(([first.0], first.1[1..]))
    else if first.1[0] == ',' then
      var more :- ReadFields(first.1[1..]);
      Some(([first.0] + more.0, more.1))
    else None
  }

  function ReadObject(s: Str): Option<(seq<Field>, Str)> {
    if s == [] || s[0] != '{' then None
    else if |s| > 1 && s[1] == '}' then Some(([], s[2..]))
    else ReadFields(s[1..])
  }

  /** The fields of a line; None if it is not one object and a newline. */
  function ReadLine(s: Str): Option<seq<Field>> {
    var all :- ReadObject(s);
    if all.1 == ['\n'] then Some(all.0) else None
  }
}
