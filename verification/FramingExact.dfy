/** Exactly which requests the daemon runs, told from the bytes that follow the
    header. */
module FramingExact {
  import opened Bytes
  import opened Framing
  import opened Wire

  /** Arguments as the wire spells them: length word and bytes, one after the other. */
  function Texts(raw: seq<Str>): Str {
    if raw == [] then [] else Le(|raw[0]|, 4) + raw[0] + Texts(raw[1..])
  }

  /** Every argument has 1 to 65535 bytes. */
  predicate InLimits(raw: seq<Str>) {
    forall i :: 0 <= i < |raw| ==> 1 <= |raw[i]| <= 65535
  }

  /** The bytes up to the first NUL of every argument. */
  function Strings(raw: seq<Str>): seq<Str> {
    if raw == [] then [] else [CStr(raw[0])] + Strings(raw[1..])
  }

  /** The bytes at the offset spell the arguments. */
  predicate SpelledAt(body: Str, off: nat, raw: seq<Str>) {
    off + |Texts(raw)| <= |body| && body[off..off + |Texts(raw)|] == Texts(raw)
  }

  lemma {:induction false} ThreeParts(body: Str, off: nat, h: Str, x: Str, r: Str)
    requires off + |h| + |x| + |r| <= |body|
    ensures body[off..off + |h + x + r|] == h + x + r <==>
      && body[off..off + |h|] == h && body[off + |h|..off + |h| + |x|] == x
      && body[off + |h| + |x|..off + |h| + |x| + |r|] == r
  {
    var i, j, k := off + |h|, off + |h| + |x|, off + |h| + |x| + |r|;
    var text := body[off..k];
    assert |h + x + r| == k - off;
    assert text == body[off..i] + body[i..j] + body[j..k];
    assert (h + x + r)[..|h|] == h && (h + x + r)[|h|..|h| + |x|] == x && (h + x + r)[|h| + |x|..] == r;
    assert text[..|h|] == body[off..i] && text[|h|..|h| + |x|] == body[i..j] && text[|h| + |x|..] == body[j..k];
  }

  lemma {:induction false} SpelledFirst(body: Str, off: nat, raw: seq<Str>)
    requires raw != [] && off <= |body|
    ensures SpelledAt(body, off, raw) <==>
      && off + 4 + |raw[0]| <= |body| && body[off..off + 4] == Le(|raw[0]|, 4)
      && body[off + 4..off + 4 + |raw[0]|] == raw[0] && SpelledAt(body, off + 4 + |raw[0]|, raw[1..])
    ensures |Texts(raw)| == 4 + |raw[0]| + |Texts(raw[1..])|
  {
    if off + |Texts(raw)| <= |body| {
      ThreeParts(body, off, Le(|raw[0]|, 4), raw[0], Texts(raw[1..]));
    }
  }

  lemma {:induction false} OneIsRead(body: Str, total: nat, off: nat, arg: Str)
    requires off + 4 + |arg| <= |body| && body[off..off + 4] == Le(|arg|, 4) && body[off + 4..off + 4 + |arg|] == arg
    requires |arg| <= 65535
    ensures OneArg(body, total, off) ==
      if 1 <= |arg| && total + 4 + |arg| <= 1048576 then Ok((CStr(arg), total + 4 + |arg|, off + 4 + |arg|)) else Err(EINVAL)
  {
    Limits();
    ValueOfLe(|arg|, 4);
  }

  lemma {:induction false} ReadArgsNext(body: Str, n: nat, total: nat, off: nat, arg: Str, sum: nat, next: nat)
    requires off <= |body| && next <= |body| && n > 0 && OneArg(body, total, off) == Ok((arg, sum, next))
    ensures ReadArgs(body, n, total, off) == Prepend(arg, ReadArgs(body, n - 1, sum, next))
  {
  }

  lemma {:induction false} FirstIsRead(body: Str, total: nat, off: nat, raw: seq<Str>) returns (sum: nat, next: nat)
    requires off <= |body| && raw != [] && InLimits(raw) && SpelledAt(body, off, raw) && total + |Texts(raw)| <= 1048576
    ensures next == off + 4 + |raw[0]| <= |body| && SpelledAt(body, next, raw[1..]) && InLimits(raw[1..])
    ensures sum == total + 4 + |raw[0]| && sum + |Texts(raw[1..])| <= 1048576
    ensures ReadArgs(body, |raw|, total, off) == Prepend(CStr(raw[0]), ReadArgs(body, |raw| - 1, sum, next))
  {
    sum, next := total + 4 + |raw[0]|, off + 4 + |raw[0]|;
    SpelledFirst(body, off, raw);
    assert 1 <= |raw[0]| <= 65535;
    OneIsRead(body, total, off, raw[0]);
    ReadArgsNext(body, |raw|, total, off, CStr(raw[0]), sum, next);
  }

  /** Arguments within the limits are read. */
  lemma {:induction false} SpelledAreRead(body: Str, total: nat, off: nat, raw: seq<Str>)
    requires off <= |body| && InLimits(raw) && SpelledAt(body, off, raw) && total + |Texts(raw)| <= 1048576
    ensures ReadArgs(body, |raw|, total, off) == Ok(Strings(raw))
    decreases |raw|
  {
    if raw != [] {
      var sum, next := FirstIsRead(body, total, off, raw);
      SpelledAreRead(body, sum, next, raw[1..]);
    }
  }

  lemma {:induction false} OneWasSpelled(body: Str, total: nat, off: nat) returns (arg: Str, next: nat)
    requires off <= |body| && OneArg(body, total, off).Ok?
    ensures next == off + 4 + |arg| <= |body| && 1 <= |arg| <= 65535 && total + 4 + |arg| <= 1048576
    ensures body[off..off + 4] == Le(|arg|, 4) && body[off + 4..next] == arg
    ensures OneArg(body, total, off) == Ok((CStr(arg), total + 4 + |arg|, next))
  {
    var len := Value(body[off..off + 4]);
    arg, next := body[off + 4..off + 4 + len], off + 4 + len;
    LeOfValue(body[off..off + 4]);
  }

  lemma {:induction false} OneMore(body: Str, total: nat, off: nat, arg: Str, rest: seq<Str>)
    requires off + 4 + |arg| <= |body| && 1 <= |arg| <= 65535
    requires body[off..off + 4] == Le(|arg|, 4) && body[off + 4..off + 4 + |arg|] == arg
    requires InLimits(rest) && SpelledAt(body, off + 4 + |arg|, rest) && total + 4 + |arg| + |Texts(rest)| <= 1048576
    ensures InLimits([arg] + rest) && SpelledAt(body, off, [arg] + rest) && total + |Texts([arg] + rest)| <= 1048576
  {
    assert ([arg] + rest)[1..] == rest;
    SpelledFirst(body, off, [arg] + rest);
  }

  lemma {:induction false} StringsOn(all: Result<seq<Str>>, more: Result<seq<Str>>, arg: Str, rest: seq<Str>)
    requires all == Prepend(CStr(arg), more) && more == Ok(Strings(rest))
    ensures all == Ok(Strings([arg] + rest))
  {
    assert ([arg] + rest)[1..] == rest;
  }

  /** The first argument of what is read, and the rest. */
  lemma {:induction false} FirstWasSpelled(body: Str, n: nat, total: nat, off: nat, all: Result<seq<Str>>)
    returns (arg: Str, sum: nat, next: nat, more: Result<seq<Str>>)
    requires off <= |body| && n > 0 && all == ReadArgs(body, n, total, off) && all.Ok?
    ensures next == off + 4 + |arg| <= |body| && 1 <= |arg| <= 65535 && sum == total + 4 + |arg| <= 1048576
    ensures body[off..off + 4] == Le(|arg|, 4) && body[off + 4..next] == arg
    ensures more == ReadArgs(body, n - 1, sum, next) && more.Ok?
    ensures all == Prepend(CStr(arg), more)
  {
    arg, next := OneWasSpelled(body, total, off);
    sum := total + 4 + |arg|;
    more := ReadArgs(body, n - 1, sum, next);
  }

  /** What is read was spelled at the offset, within the limits. */
  predicate ReadFrom(body: Str, n: nat, total: nat, off: nat, all: Result<seq<Str>>, raw: seq<Str>) {
    |raw| == n && InLimits(raw) && SpelledAt(body, off, raw) && total + |Texts(raw)| <= 1048576 && all == Ok(Strings(raw))
  }

  lemma {:induction false} ReadOn(body: Str, n: nat, total: nat, off: nat, all: Result<seq<Str>>, more: Result<seq<Str>>,
                                  arg: Str, sum: nat, next: nat, rest: seq<Str>)
    requires n > 0 && next == off + 4 + |arg| <= |body| && 1 <= |arg| <= 65535 && sum == total + 4 + |arg|
    requires body[off..off + 4] == Le(|arg|, 4) && body[off + 4..next] == arg
    requires all == Prepend(CStr(arg), more) && ReadFrom(body, n - 1, sum, next, more, rest)
    ensures ReadFrom(body, n, total, off, all, [arg] + rest)
  {
    OneMore(body, total, off, arg, rest);
    StringsOn(all, more, arg, rest);
  }

  lemma {:induction false} NoneRead(body: Str, total: nat, off: nat)
    requires off <= |body| && total <= 1048576
    ensures ReadFrom(body, 0, total, off, ReadArgs(body, 0, total, off), [])
  {
  }

  /** And whatever is read was spelled so. */
  lemma {:induction false} ReadAreSpelled(body: Str, n: nat, total: nat, off: nat, all: Result<seq<Str>>) returns (raw: seq<Str>)
    requires off <= |body| && total <= 1048576
    ensures all == ReadArgs(body, n, total, off) && all.Ok? ==> ReadFrom(body, n, total, off, all, raw)
    decreases n
  {
    raw := [];
    if n == 0 {
      NoneRead(body, total, off);
    } else if all == ReadArgs(body, n, total, off) && all.Ok? {
      var arg, sum, next, more := FirstWasSpelled(body, n, total, off, all);
      var rest := ReadAreSpelled(body, n - 1, sum, next, more);
      ReadOn(body, n, total, off, all, more, arg, sum, next, rest);
      raw := [arg] + rest;
    }
  }

  /** These bytes are a request for the policy path and the arguments: 1 to 128
      arguments of 1 to 65535 bytes, a path of 1 to 16384 bytes, and no more than a
      mebibyte with the length words. */
  predicate IsRequest(argc: u32, policyLen: u32, body: Str, raw: seq<Str>) {
    && 1 <= argc <= 128 && 1 <= policyLen <= 16384 && policyLen <= |body|
    && |raw| == argc && InLimits(raw) && SpelledAt(body, policyLen, raw) && policyLen + |Texts(raw)| <= 1048576
  }

  /** The daemon runs a request if and only if it is spelled so within these limits,
      and then runs the strings that it spells. */
  lemma {:induction false} RunsIff(argc: u32, policyLen: u32, body: Str)
    ensures Serve(argc, policyLen, body).Run? <==> exists raw :: IsRequest(argc, policyLen, body, raw)
    ensures forall raw :: IsRequest(argc, policyLen, body, raw) ==>
      Serve(argc, policyLen, body) == Run(CStr(body[..policyLen]), Strings(raw))
  {
    if Serve(argc, policyLen, body).Run? {
      var raw := ReadAreSpelled(body, argc, policyLen, policyLen, ReadArgs(body, argc, policyLen, policyLen));
      assert IsRequest(argc, policyLen, body, raw);
    }
    forall raw | IsRequest(argc, policyLen, body, raw)
      ensures Serve(argc, policyLen, body) == Run(CStr(body[..policyLen]), Strings(raw))
    {
      SpelledAreRead(body, policyLen, policyLen, raw);
    }
  }

  // ----- the client

  predicate AllShort(argv: seq<Str>) {
    forall i :: 0 <= i < |argv| ==> |argv[i]| < 4294967296
  }

  lemma {:induction false} ShortIsWhole(s: Str)
    requires |s| < 4294967296
    ensures Len32(s) == |s| && Cut(s) == s
  {
  }

  lemma {:induction false} ArgsAreTexts(argv: seq<Str>)
    requires AllShort(argv)
    ensures Args(argv) == Texts(argv) && |Texts(argv)| == Cost(argv)
  {
    if argv != [] {
      ShortIsWhole(argv[0]);
      ArgsAreTexts(argv[1..]);
    }
  }

  lemma {:induction false} InRangeIff(argv: seq<Str>)
    requires AllShort(argv)
    ensures ArgsInRange(argv) <==> InLimits(argv)
  {
    forall i | 0 <= i < |argv| ensures Len32(argv[i]) == |argv[i]| {
      ShortIsWhole(argv[i]);
    }
  }

  /** Of strings shorter than 4 GiB the client sends exactly the requests that the
      daemon runs, and no others. */
  lemma {:induction false} ClientSendsIff(argv: seq<Str>, policy: Str)
    requires AllShort(argv) && |argv| < 4294967296 && |policy| < 4294967296
    ensures Accepts(argv, policy) <==> IsRequest(|argv|, |policy|, RequestBody(argv, policy), argv)
  {
    ShortIsWhole(policy);
    ArgsAreTexts(argv);
    InRangeIff(argv);
    assert RequestBody(argv, policy)[|policy|..] == Texts(argv);
  }
}
