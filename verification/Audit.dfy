/** The audit line buffer: appended to in place, doubled when full, written out
    at the end of an event. */
module Audit {
  import opened Bytes
  import opened Json
  import opened Numerals

  /** The first doubling of cap that holds need bytes. */
  function Doubled(cap: nat, need: nat): (r: nat)
    requires cap > 0
    ensures r >= need && r >= cap && (r == cap || r < 2 * need)
    decreases if need > cap then need - cap else 0
  {
    if need > cap then Doubled(2 * cap, need) else cap
  }

  /** The capacity that a buffer of capacity cap gets when it must hold need bytes
      and does not. */
  function Grown(cap: nat, need: nat): nat {
    Doubled(if cap == 0 then 256 else cap, need)
  }

  /** What write(2) does next: an errno, or how many bytes it takes at most. */
  datatype Answer = Interrupted | Failed | Took(count: nat)

  lemma {:induction false} AppendFour(a: Str, b: Str, c: Str, d: Str)
    ensures a + b + c + d == a + (b + (c + d))
  {
  }

  /** A field up to its value. */
  function KeyText(first: bool, key: Str): Str {
    Separator(first) + (Quoted(key) + [':'])
  }

  lemma {:induction false} FieldGrows(fs: seq<Field>, f: Field)
    ensures Opened(fs + [f]) == Opened(fs) + KeyText(fs == [], f.key) + ValueText(f.value)
  {
    OneMoreField(fs, f);
    AppendFour(Separator(fs == []), Quoted(f.key), [':'], ValueText(f.value));
    AppendFour(Opened(fs), Separator(fs == []), Quoted(f.key) + [':'], ValueText(f.value));
  }

  const TWO_63: int := 0x8000_0000_0000_0000

  const COMPONENT: Str := ['c', 'o', 'm', 'p', 'o', 'n', 'e', 'n', 't']
  const LANDLOCKD: Str := ['l', 'a', 'n', 'd', 'l', 'o', 'c', 'k', 'd']
  const EVENT: Str := ['e', 'v', 'e', 'n', 't']
  const TIMESTAMP: Str := ['t', 'i', 'm', 'e', 's', 't', 'a', 'm', 'p']
  const JOB_ID: Str := ['j', 'o', 'b', '_', 'i', 'd']

  function TextOrNull(value: Option<Str>): Value {
    if value.Some? then Text(value.value) else Null
  }

  /** The fields that every event starts with. */
  function StandardFields(event: Option<Str>, timestamp: Str, jobId: Option<Str>): seq<Field> {
    [Field(COMPONENT, Text(LANDLOCKD)), Field(EVENT, TextOrNull(event)), Field(TIMESTAMP, Text(timestamp))]
    + if jobId.Some? then [Field(JOB_ID, Text(jobId.value))] else []
  }

  function Pow10(k: nat): nat {
    if k == 0 then 1 else 10 * Pow10(k - 1)
  }

  lemma {:induction false} DecimalLength(n: nat, k: nat)
    requires k > 0 && n < Pow10(k)
    ensures |Decimal(n)| <= k
  {
    if n >= 10 {
      assert k > 1 by {
        assert Pow10(1) == 10 * Pow10(0);
      }
      DecimalLength(n / 10, k - 1);
    }
  }

  /** No number is cut off by the 32-byte buffer. */
  lemma {:induction false} NumbersFit(value: int)
    requires -TWO_63 <= value < 2 * TWO_63
    ensures |Signed(value)| < 32
  {
    assert Pow10(5) == 10_0000;
    assert Pow10(20) == 1_0000_0000_0000_0000_0000;
    DecimalLength(if value < 0 then -value else value, 20);
  }

  lemma {:induction false} EscapedAfter(start: Str, v: Str, i: nat)
    requires i < |v|
    ensures start + (['"'] + Escaped(v[..i])) + EscapedByte(v[i]) == start + (['"'] + Escaped(v[..i + 1]))
  {
    EscapedNext(v, i);
    Regroup(start, ['"'], Escaped(v[..i]), EscapedByte(v[i]));
  }

  lemma {:induction false} QuotedAfter(start: Str, v: Str)
    ensures start + (['"'] + Escaped(v)) + ['"'] == start + Quoted(v)
  {
    Regroup(start, ['"'], Escaped(v), ['"']);
    assert Quoted(v) == ['"'] + (Escaped(v) + ['"']);
  }

  class Log {
    var buf: array<byte>
    var len: nat
    var cap: nat
    var first: bool
    var diag: Str
    const memory: nat
    ghost var fields: seq<Field>
    /** Whether an append failed since the event began. */
    ghost var lost: bool

    ghost predicate Valid()
      reads this, buf
    {
      && buf.Length == cap && len <= cap && cap <= 256 + 2 * len
      && (cap > 0 ==> len < cap && buf[len] == '\0')
    }

    ghost function Contents(): Str
      reads this, buf
      requires Valid()
    {
      buf[..len]
    }

    /** Inside an event: the buffer spells the fields so far, unless an append
        failed. */
    ghost predicate Open()
      reads this, buf
    {
      Valid() && first == (fields == []) && (!lost ==> Contents() == Opened(fields))
    }

    constructor (memory: nat)
      ensures Valid() && fresh(buf) && Contents() == [] && diag == [] && this.memory == memory
    {
      buf := new byte[0];
      len, cap, first, diag, lost, fields := 0, 0, true, [], false, [];
      this.memory := memory;
    }

    /** memcpy to the end of the contents, and the terminator. */
    method Copy(bs: Str)
      requires len + |bs| < buf.Length
      modifies buf, this`len
      ensures len == old(len) + |bs| && buf[..len] == old(buf[..len]) + bs && buf[len] == '\0'
    {
      for k := 0 to |bs|
        modifies buf
        invariant buf[..len + k] == old(buf[..len]) + bs[..k]
      {
        buf[len + k] := bs[k];
        assert buf[..len + k] == old(buf[..len]) + bs[..k];
        assert buf[..len + k + 1] == buf[..len + k] + [bs[k]];
        assert bs[..k + 1] == bs[..k] + [bs[k]];
      }
      assert bs[..|bs|] == bs;
      len := len + |bs|;
      buf[len] := '\0';
      assert buf[..len] == old(buf[..len]) + bs;
    }

    /** realloc: a larger buffer with the same contents. */
    method Realloc(newCap: nat)
      requires len <= newCap && len <= buf.Length
      modifies this`buf, this`cap
      ensures fresh(buf) && buf.Length == cap == newCap && buf[..len] == old(buf[..len])
    {
      var bigger := new byte[newCap];
      for k := 0 to len
        invariant forall m :: 0 <= m < k ==> bigger[m] == buf[m]
        modifies bigger
      {
        bigger[k] := buf[k];
      }
      assert bigger[..len] == buf[..len];
      buf, cap := bigger, newCap;
    }

    /** landlockd_audit_append: fails only when the buffer must grow beyond what
        realloc grants. */
    method Append(bs: Str) returns (ok: bool)
      requires Valid()
      modifies this, buf
      ensures Valid() && (buf == old(buf) || fresh(buf))
      ensures first == old(first) && fields == old(fields) && diag == old(diag)
      ensures ok <==> bs == [] || old(len) + |bs| + 1 <= old(cap) || Grown(old(cap), old(len) + |bs| + 1) <= memory
      ensures Contents() == if ok then old(Contents()) + bs else old(Contents())
      ensures lost == (old(lost) || !ok)
    {
      if bs == [] {
        return true;
      }
      if len + |bs| + 1 <= cap {
        Copy(bs);
        return true;
      }
      var newCap := if cap == 0 then 256 else cap;
      while len + |bs| + 1 > newCap
        invariant newCap > 0 && Doubled(newCap, len + |bs| + 1) == Grown(cap, len + |bs| + 1)
        decreases len + |bs| + 1 - newCap
      {
        newCap := newCap * 2;
      }
      if newCap > memory {
        lost := true;
        return false;
      }
      Realloc(newCap);
      Copy(bs);
      return true;
    }

    /** landlockd_audit_emit_escaped; None is a null pointer. */
    method EmitEscaped(value: Option<Str>)
      requires Valid()
      modifies this, buf
      ensures Valid() && (buf == old(buf) || fresh(buf))
      ensures first == old(first) && fields == old(fields) && diag == old(diag)
      ensures !lost ==> !old(lost) && Contents() == old(Contents()) + if value.Some? then Quoted(value.value) else NullText()
    {
      if value.None? {
        var _ := Append(NullText());
        return;
      }
      var v := value.value;
      ghost var start := Contents();
      var _ := Append(['"']);
      for i := 0 to |v|
        invariant Valid() && (buf == old(buf) || fresh(buf))
        invariant first == old(first) && fields == old(fields) && diag == old(diag)
        invariant !lost ==> !old(lost) && Contents() == start + (['"'] + Escaped(v[..i]))
      {
        EscapedAfter(start, v, i);
        var _ := Append(EscapedByte(v[i]));
      }
      assert v[..|v|] == v;
      QuotedAfter(start, v);
      var _ := Append(['"']);
    }

    /** landlockd_audit_field_prefix. */
    method FieldPrefix(key: Str)
      requires Valid()
      modifies this, buf
      ensures Valid() && (buf == old(buf) || fresh(buf))
      ensures !first && fields == old(fields) && diag == old(diag)
      ensures !lost ==> !old(lost) && Contents() == old(Contents()) + KeyText(old(first), key)
    {
      ghost var start := Contents();
      if !first {
        var _ := Append([',']);
      }
      first := false;
      assert !lost ==> Contents() == start + Separator(old(first));
      EmitEscaped(Some(key));
      var _ := Append([':']);
      AppendFour(start, Separator(old(first)), Quoted(key), [':']);
    }

    /** A key and its value have been appended. */
    ghost method FieldAdded(f: Field)
      requires Valid() && !first
      requires !lost ==> Contents() == Opened(fields) + KeyText(fields == [], f.key) + ValueText(f.value)
      modifies this`fields
      ensures Open() && fields == old(fields) + [f]
    {
      FieldGrows(fields, f);
      fields := fields + [f];
    }

    /** landlockd_audit_field_string; a null key adds nothing. */
    method FieldString(key: Option<Str>, value: Option<Str>)
      requires Open()
      modifies this, buf
      ensures Open() && (buf == old(buf) || fresh(buf)) && diag == old(diag) && (old(lost) ==> lost)
      ensures fields == if key.Some? then old(fields) + [Field(key.value, TextOrNull(value))] else old(fields)
    {
      if key.None? {
        return;
      }
      FieldPrefix(key.value);
      EmitEscaped(value);
      FieldAdded(Field(key.value, TextOrNull(value)));
    }

    /** landlockd_audit_field_int and landlockd_audit_field_uint: the number goes
        through a buffer of 32 bytes. */
    method FieldNumber(key: Option<Str>, value: int)
      requires Open() && -TWO_63 <= value < 2 * TWO_63
      modifies this, buf
      ensures Open() && (buf == old(buf) || fresh(buf)) && diag == old(diag) && (old(lost) ==> lost)
      ensures fields == if key.Some? then old(fields) + [Field(key.value, Number(value))] else old(fields)
    {
      if key.None? {
        return;
      }
      FieldPrefix(key.value);
      var text := Signed(value);
      NumbersFit(value);
      var _ := Append(text[..if |text| < 32 then |text| else 31]);
      FieldAdded(Field(key.value, Number(value)));
    }

    /** Three text fields, one after the other. */
    method ThreeFields(a: Str, x: Option<Str>, b: Str, y: Option<Str>, c: Str, z: Option<Str>)
      requires Open()
      modifies this, buf
      ensures Open() && (buf == old(buf) || fresh(buf)) && diag == old(diag)
      ensures fields == old(fields) + [Field(a, TextOrNull(x))] + [Field(b, TextOrNull(y))] + [Field(c, TextOrNull(z))]
    {
      FieldString(Some(a), x);
      FieldString(Some(b), y);
      FieldString(Some(c), z);
    }

    /** landlockd_audit_begin. */
    method Begin(event: Option<Str>, timestamp: Str, jobId: Option<Str>)
      requires Valid()
      modifies this, buf
      ensures Open() && fresh(buf) && diag == old(diag)
      ensures fields == StandardFields(event, timestamp, jobId)
    {
      buf := new byte[0];
      len, cap, first := 0, 0, true;
      lost, fields := false, [];
      var _ := Append(['{']);
      ThreeFields(COMPONENT, Some(LANDLOCKD), EVENT, event, TIMESTAMP, Some(timestamp));
      if jobId.Some? {
        FieldString(Some(JOB_ID), jobId);
      }
    }

    /** The write(2) loop. */
    method WriteOut(answers: seq<Answer>) returns (sent: nat)
      requires Valid()
      modifies this`diag
      ensures sent <= len && diag == old(diag) + buf[..sent]
      ensures Failed !in answers ==> sent == len
    {
      sent := 0;
      var turn := 0;
      while sent < len
        invariant sent <= len && turn <= |answers|
        invariant diag == old(diag) + buf[..sent]
        decreases |answers| - turn, len - sent
      {
        var answer := if turn < |answers| then answers[turn] else Took(len - sent);
        if turn < |answers| {
          turn := turn + 1;
        }
        match answer {
          case Interrupted =>
          case Failed =>
            return;
          case Took(count) =>
            var n := if count < len - sent then count else len - sent;
            assert buf[..sent + n] == buf[..sent] + buf[sent..sent + n];
            diag := diag + buf[sent..sent + n];
            sent := sent + n;
        }
      }
    }

    /** landlockd_audit_end: the line goes out, however write(2) cuts it up. */
    method End(fd: int, answers: seq<Answer>) returns (sent: nat)
      requires Open()
      modifies this, buf
      ensures Valid() && fresh(buf) && Contents() == []
      ensures var fits := old(len) + 3 <= old(cap) || Grown(old(cap), old(len) + 3) <= memory;
        !old(lost) && fits ==>
          && sent <= |Line(old(fields))| && diag == old(diag) + Line(old(fields))[..sent]
          && (fd >= 0 && Failed !in answers ==> sent == |Line(old(fields))|)
    {
      sent := 0;
      var _ := Append(['}', '\n']);
      assert !lost ==> buf[..len] == Line(fields);
      if fd >= 0 {
        sent := WriteOut(answers);
        assert buf[..sent] == buf[..len][..sent];
      }
      buf := new byte[0];
      len, cap := 0, 0;
    }
  }
}
