/** What is written reads back. */
module JsonTheorems {
  import opened Bytes
  import opened Json
  import opened Numerals
  import opened TextLines
  import Utf8

  lemma {:induction false} ControlIsRead(b: byte, rest: Str)
    requires b as int < 0x20
    ensures ReadUnicode(['0', '0', Digit(b as int / 16), Digit(b as int % 16)] + rest) == Some(([b], rest))
  {
    var s: Str := ['0', '0', Digit(b as int / 16), Digit(b as int % 16)] + rest;
    assert s[0] == '0' && s[1] == '0' && s[2] == Digit(b as int / 16) && s[3] == Digit(b as int % 16);
    assert HexDigit(s[2]) == Some(b as nat / 16) && HexDigit(s[3]) == Some(b as nat % 16);
    assert HexQuad(s) == Some(b as nat);
    assert Utf8.Octets(b as nat) == [Utf8.High(b as nat, 0) as char] + Utf8.Low(b as nat, 0) == [b];
    assert s[4..] == rest;
  }

  lemma {:induction false} ByteIsRead(b: byte, rest: Str)
    ensures ReadChar(EscapedByte(b) + rest) == Some(([b], rest))
    ensures (EscapedByte(b) + rest)[0] != '"'
  {
    var e := EscapedByte(b);
    var s := e + rest;
    assert s[0] == e[0];
    if |e| == 1 {
      assert s[1..] == rest;
    } else {
      assert s[1] == e[1] && s[2..] == e[2..] + rest;
      if |e| == 2 {
        assert s[2..] == rest;
      } else {
        assert e[2..] == ['0', '0', Digit(b as int / 16), Digit(b as int % 16)];
        ControlIsRead(b, rest);
      }
    }
  }

  /** Un-escaping inverts the escaper. */
  lemma {:induction false} EscapedIsRead(v: Str, rest: Str)
    ensures ReadChars(Escaped(v) + (['"'] + rest)) == Some((v, rest))
    decreases |v|
  {
    if v == [] {
      assert Escaped(v) + (['"'] + rest) == ['"'] + rest;
    } else {
      var tail := Escaped(v[1..]) + (['"'] + rest);
      var s := EscapedByte(v[0]) + tail;
      assert Escaped(v) + (['"'] + rest) == s;
      ByteIsRead(v[0], tail);
      EscapedIsRead(v[1..], rest);
      assert ReadChars(s) == Some(([v[0]] + v[1..], rest));
      assert v == [v[0]] + v[1..];
    }
  }

  lemma {:induction false} QuotedIsRead(v: Str, rest: Str)
    ensures ReadString(Quoted(v) + rest) == Some((v, rest))
  {
    EscapedIsRead(v, rest);
    assert (Quoted(v) + rest)[1..] == Escaped(v) + (['"'] + rest);
  }

  /** rest does not go on with a digit. */
  predicate Stops(rest: Str) {
    rest != [] && !IsDigit(rest[0])
  }

  lemma {:induction false} DigitsRun(ds: Str, rest: Str)
    requires (forall b :: b in ds ==> IsDigit(b)) && Stops(rest)
    ensures DigitRun(ds + rest) == |ds|
  {
    if ds == [] {
      assert ds + rest == rest;
    } else {
      DigitsRun(ds[1..], rest);
      assert (ds + rest)[1..] == ds[1..] + rest;
    }
  }

  lemma {:induction false} NaturalIsRead(n: nat, rest: Str)
    requires Stops(rest)
    ensures ReadNatural(Decimal(n) + rest) == Some((n, rest)) && IsDigit((Decimal(n) + rest)[0])
  {
    DecimalSpells(n);
    DigitsRun(Decimal(n), rest);
    assert (Decimal(n) + rest)[..|Decimal(n)|] == Decimal(n) && (Decimal(n) + rest)[|Decimal(n)|..] == rest;
  }

  lemma {:induction false} NaturalValueIsRead(n: nat, s: Str, rest: Str)
    requires s != [] && IsDigit(s[0]) && ReadNatural(s) == Some((n, rest))
    ensures ReadValue(s) == Some((Number(n), rest))
    ensures ReadValue(['-'] + s) == Some((Number(0 - n as int), rest))
  {
    assert (['-'] + s)[1..] == s;
  }

  lemma {:induction false} NumberIsRead(number: int, rest: Str)
    requires Stops(rest)
    ensures ReadValue(Signed(number) + rest) == Some((Number(number), rest))
  {
    var n: nat := if number < 0 then -number else number;
    NaturalIsRead(n, rest);
    NaturalValueIsRead(n, Decimal(n) + rest, rest);
    assert ['-'] + Decimal(n) + rest == ['-'] + (Decimal(n) + rest);
  }

  lemma {:induction false} ValueIsRead(v: Value, rest: Str)
    requires Stops(rest)
    ensures ReadValue(ValueText(v) + rest) == Some((v, rest))
  {
    match v
    case Null =>
      assert NullText() <= NullText() + rest;
    case Text(text) =>
      QuotedIsRead(text, rest);
      assert (Quoted(text) + rest)[0] == '"';
    case Number(number) =>
      NumberIsRead(number, rest);
  }

  lemma {:induction false} FieldIsRead(f: Field, rest: Str)
    requires Stops(rest)
    ensures ReadField(FieldText(f) + rest) == Some((f, rest))
  {
    var tail := [':'] + (ValueText(f.value) + rest);
    assert FieldText(f) + rest == Quoted(f.key) + tail;
    QuotedIsRead(f.key, tail);
    ValueIsRead(f.value, rest);
    assert tail[1..] == ValueText(f.value) + rest;
  }

  lemma {:induction false} FieldsAreRead(fs: seq<Field>, rest: Str)
    requires fs != []
    ensures ReadFields(Members(fs) + (['}'] + rest)) == Some((fs, rest))
    decreases |fs|
  {
    var close := ['}'] + rest;
    if |fs| == 1 {
      FieldIsRead(fs[0], close);
      assert fs == [fs[0]] && close[1..] == rest;
    } else {
      var tail := [','] + (Members(fs[1..]) + close);
      Regroup(FieldText(fs[0]), [','], Members(fs[1..]), close);
      FieldIsRead(fs[0], tail);
      assert tail[1..] == Members(fs[1..]) + close;
      FieldsAreRead(fs[1..], rest);
      assert fs == [fs[0]] + fs[1..];
    }
  }

  /** The fields of a line read back in order. */
  lemma {:induction false} LineIsRead(fs: seq<Field>)
    ensures ReadLine(Line(fs)) == Some(fs)
  {
    if fs == [] {
      assert Line(fs)[2..] == ['\n'];
    } else {
      FieldsAreRead(fs, ['\n']);
      assert Line(fs)[1..] == Members(fs) + (['}'] + ['\n']);
      assert Members(fs)[0] == '"' by {
        assert Quoted(fs[0].key)[0] == '"';
      }
    }
  }

  predicate OneLine(s: Str) {
    '\n' !in s
  }

  lemma {:induction false} EscapedHasNoNewline(v: Str)
    ensures OneLine(Escaped(v))
  {
    if v != [] {
      EscapedHasNoNewline(v[1..]);
    }
  }

  lemma {:induction false} FieldHasNoNewline(f: Field)
    ensures OneLine(FieldText(f))
  {
    EscapedHasNoNewline(f.key);
    match f.value
    case Null =>
    case Text(text) => EscapedHasNoNewline(text);
    case Number(number) =>
      DecimalSpells(if number < 0 then -number else number);
  }

  lemma {:induction false} MembersHaveNoNewline(fs: seq<Field>)
    ensures OneLine(Members(fs))
  {
    if fs != [] {
      FieldHasNoNewline(fs[0]);
      MembersHaveNoNewline(fs[1..]);
    }
  }

  /** The only newline of a line is its last byte. */
  lemma {:induction false} LineEndsOnce(fs: seq<Field>)
    ensures EndsOnce(Line(fs))
  {
    MembersHaveNoNewline(fs);
    assert Line(fs) == ['{'] + Members(fs) + ['}'] + ['\n'];
  }

  function Journal(events: seq<seq<Field>>): Str {
    if events == [] then [] else Line(events[0]) + Journal(events[1..])
  }

  /** Different runs of events never give the same log. */
  lemma {:induction false} JournalIsInjective(a: seq<seq<Field>>, b: seq<seq<Field>>)
    requires Journal(a) == Journal(b)
    ensures a == b
    decreases |a|
  {
    if a != [] && b != [] {
      LineEndsOnce(a[0]);
      LineEndsOnce(b[0]);
      LinesSplit(Line(a[0]), Journal(a[1..]), Line(b[0]), Journal(b[1..]));
      LineIsRead(a[0]);
      LineIsRead(b[0]);
      JournalIsInjective(a[1..], b[1..]);
      assert a == [a[0]] + a[1..] && b == [b[0]] + b[1..];
    }
  }
}
