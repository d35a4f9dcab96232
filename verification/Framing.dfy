/** Requests between landlockd run --socket and the daemon: what the client's
    encoder sends against what the daemon's decoder accepts, each with its own
    limits. */
module Framing {
  import opened Bytes
  import opened Codec
  import opened Wire

  const FRAME_MAGIC: u32 := 0x4c444344
  const FRAME_VERSION: u32 := 1
  const CMD_RUN: u32 := 1
  const MAX_ARGS: u32 := 128
  const MAX_POLICY_LEN: u32 := 16384
  const MAX_ARG_LEN: u32 := 65535
  const MAX_REQUEST_BYTES: u32 := 0x10_0000
  const EPIPE: int := 32

  /** 32-bit addition. */
  function Add32(a: u32, b: u32): u32 {
    (a + b) % TWO_32
  }

  /** (uint32_t)strlen(s). */
  function Len32(s: Str): u32 {
    |s| % TWO_32
  }

  /** The bytes of a string that a 32-bit length covers. */
  function Cut(s: Str): Str {
    s[..Len32(s)]
  }

  function CutAll(argv: seq<Str>): seq<Str> {
    if argv == [] then [] else [Cut(argv[0])] + CutAll(argv[1..])
  }

  /** The bytes that the arguments take on the wire. */
  function Cost(argv: seq<Str>): nat {
    if argv == [] then 0 else 4 + Len32(argv[0]) + Cost(argv[1..])
  }

  predicate ArgsInRange(argv: seq<Str>) {
    forall i :: 0 <= i < |argv| ==> 1 <= Len32(argv[i]) <= MAX_ARG_LEN
  }

  /** What the client sends. */
  predicate Accepts(argv: seq<Str>, policy: Str) {
    && 1 <= |argv| <= MAX_ARGS && ArgsInRange(argv)
    && 1 <= Len32(policy) <= MAX_POLICY_LEN
    && Cost(argv) + Len32(policy) <= MAX_REQUEST_BYTES
  }

  function RequestHeader(argc: u32, policyLen: u32): Str {
    Le(FRAME_MAGIC, 4) + (Le(FRAME_VERSION, 4) + (Le(CMD_RUN, 4) + (Le(argc, 4) + Le(policyLen, 4))))
  }

  function ArgText(arg: Str): Str {
    Le(Len32(arg), 4) + Cut(arg)
  }

  function Args(argv: seq<Str>): Str {
    if argv == [] then [] else ArgText(argv[0]) + Args(argv[1..])
  }

  /** What follows the header. */
  function RequestBody(argv: seq<Str>, policy: Str): Str {
    Cut(policy) + Args(argv)
  }

  // ----- the client

  lemma {:induction false} CostConcat(a: seq<Str>, b: seq<Str>)
    ensures Cost(a + b) == Cost(a) + Cost(b)
  {
    if a == [] {
      assert a + b == b;
    } else {
      assert (a + b)[1..] == a[1..] + b;
      CostConcat(a[1..], b);
    }
  }

  /** Measuring one more argument. */
  lemma {:induction false} CostNext(argv: seq<Str>, i: nat)
    requires i < |argv|
    ensures Cost(argv[..i + 1]) == Cost(argv[..i]) + 4 + Len32(argv[i]) <= Cost(argv)
  {
    assert argv[..i + 1] == argv[..i] + [argv[i]] && argv == argv[..i + 1] + argv[i + 1..];
    CostConcat(argv[..i], [argv[i]]);
    CostConcat(argv[..i + 1], argv[i + 1..]);
    var one := [argv[i]];
    assert one[1..] == [];
  }

  lemma {:induction false} ArgsSnoc(argv: seq<Str>, arg: Str)
    ensures Args(argv + [arg]) == Args(argv) + ArgText(arg)
  {
    if argv == [] {
      var one := [arg];
      assert argv + one == one && one[1..] == [] && ArgText(arg) + [] == [] + ArgText(arg);
    } else {
      assert (argv + [arg])[1..] == argv[1..] + [arg];
      ArgsSnoc(argv[1..], arg);
      Regroup(ArgText(argv[0]), Args(argv[1..]), ArgText(arg));
    }
  }

  lemma {:induction false} ArgsNext(argv: seq<Str>, i: nat)
    requires i < |argv|
    ensures Args(argv[..i + 1]) == Args(argv[..i]) + ArgText(argv[i])
  {
    assert argv[..i + 1] == argv[..i] + [argv[i]];
    ArgsSnoc(argv[..i], argv[i]);
  }

  lemma {:induction false} Regroup(a: Str, b: Str, c: Str)
    ensures a + b + c == a + (b + c)
  {
  }

  // ----- the daemon

  /** How a request ends before the command runs: no answer, an error answer, or
      the values that it runs with. */
  datatype Served = Dropped(errno: int) | Refused(errno: int) | Run(policy: Str, argv: seq<Str>)

  /** The argument at offset off: its bytes as a C string, the new total, and
      the offset after it. */
  function OneArg(body: Str, total: nat, off: nat): (r: Result<(Str, nat, nat)>)
    requires off <= |body|
    ensures r.Ok? ==> r.value.1 <= MAX_REQUEST_BYTES && r.value.2 <= |body|
  {
    if off + 4 > |body| then Err(EPIPE)
    else
      var len := Value(body[off..off + 4]);
      if len == 0 || len > MAX_ARG_LEN || total + 4 + len > MAX_REQUEST_BYTES then Err(EINVAL)
      else if off + 4 + len > |body| then Err(EPIPE)
      else Ok((CStr(body[off + 4..off + 4 + len]), total + 4 + len, off + 4 + len))
  }

  /** The argument loop of landlockd_daemon_handle_run. */
  function ReadArgs(body: Str, n: nat, total: nat, off: nat): Result<seq<Str>>
    requires off <= |body|
  {
    if n == 0 then Ok([])
    else
      match OneArg(body, total, off)
      case Err(e) => Err(e)
      case Ok((arg, sum, next)) => Prepend(arg, ReadArgs(body, n - 1, sum, next))
  }

  function Prepend(arg: Str, more: Result<seq<Str>>): Result<seq<Str>> {
    if more.Ok? then Ok([arg] + more.value) else more
  }

  /** landlockd_daemon_handle_run up to the policy lookup, for a header with the
      given fields and the bytes that follow it. */
  function Serve(argc: u32, policyLen: u32, body: Str): Served {
    if argc == 0 || argc > MAX_ARGS || policyLen == 0 || policyLen > MAX_POLICY_LEN then Refused(EINVAL)
    else if |body| < policyLen then Dropped(EPIPE)
    else
      match ReadArgs(body, argc, policyLen, policyLen)
      case Err(e) => Refused(e)
      case Ok(argv) => Run(CStr(body[..policyLen]), argv)
  }

  /** The loop's state against the function: the arguments read so far. */
  ghost predicate Continues(start: Result<seq<Str>>, done: seq<Str>, rest: Result<seq<Str>>) {
    match rest
    case Err(e) => start == Err(e)
    case Ok(more) => start == Ok(done + more)
  }

  lemma {:induction false} ContinuesFromStart(start: Result<seq<Str>>)
    ensures Continues(start, [], start)
  {
    assert start.Ok? ==> [] + start.value == start.value;
  }

  lemma {:induction false} ContinuesAfter(start: Result<seq<Str>>, done: seq<Str>, arg: Str, rest: Result<seq<Str>>)
    requires Continues(start, done, Prepend(arg, rest))
    ensures Continues(start, done + [arg], rest)
  {
    if rest.Ok? {
      assert done + ([arg] + rest.value) == done + [arg] + rest.value;
    }
  }

  lemma {:induction false} ContinuesToEnd(start: Result<seq<Str>>, done: seq<Str>)
    requires Continues(start, done, Ok([]))
    ensures start == Ok(done)
  {
    assert done + [] == done;
  }

  lemma {:induction false} NoWrap(a: u32, b: u32)
    requires a + b < TWO_32
    ensures Add32(a, b) == a + b
  {
  }

  lemma {:induction false} WordFits(bs: Str)
    requires |bs| == 4
    ensures Value(bs) < TWO_32
  {
    LeOfValue(bs);
    Limits();
  }

  // ----- agreement

  lemma {:induction false} CutIsNulFree(s: Str)
    requires NulFree(s)
    ensures NulFree(Cut(s))
  {
    forall c | c in Cut(s) ensures c in s {
    }
  }

  lemma {:induction false} ReadOneArg(pre: Str, s: Str, tail: Str, total: nat)
    requires 1 <= Len32(s) <= MAX_ARG_LEN && NulFree(Cut(s))
    requires total + 4 + Len32(s) <= MAX_REQUEST_BYTES
    ensures OneArg(pre + ArgText(s) + tail, total, |pre|) == Ok((Cut(s), total + 4 + Len32(s), |pre + ArgText(s)|))
  {
    var body, len, off := pre + ArgText(s) + tail, Len32(s), |pre|;
    Limits();
    ValueOfLe(len, 4);
    var head, arg := Le(len, 4), Cut(s);
    assert body == pre + head + arg + tail;
    assert body[off..off + 4] == head;
    assert body[off + 4..off + 4 + len] == arg;
  }

  predicate Sendable(s: Str) {
    NulFree(s) && 1 <= Len32(s) <= MAX_ARG_LEN
  }

  predicate AllSendable(argv: seq<Str>) {
    argv == [] || (Sendable(argv[0]) && AllSendable(argv[1..]))
  }

  lemma {:induction false} InRangeIsSendable(argv: seq<Str>)
    requires ArgsInRange(argv) && (forall i :: 0 <= i < |argv| ==> NulFree(argv[i]))
    ensures AllSendable(argv)
  {
    if argv != [] {
      InRangeIsSendable(argv[1..]);
    }
  }

  lemma {:induction false} ReadsWhatWasWritten(body: Str, pre: Str, argv: seq<Str>, total: nat)
    requires AllSendable(argv) && total + Cost(argv) <= MAX_REQUEST_BYTES
    requires body == pre + Args(argv)
    ensures ReadArgs(body, |argv|, total, |pre|) == Ok(CutAll(argv))
    decreases |argv|
  {
    if argv != [] {
      var arg, tail := argv[0], argv[1..];
      CutIsNulFree(arg);
      Regroup(pre, ArgText(arg), Args(tail));
      ReadOneArg(pre, arg, Args(tail), total);
      ReadsWhatWasWritten(body, pre + ArgText(arg), tail, total + 4 + Len32(arg));
    }
  }

  /** The daemon reads back the header fields that the client wrote. */
  lemma {:induction false} HeaderIsRead(argc: u32, policyLen: u32, body: Str)
    ensures ManyParse(WORD, 5, false, RequestHeader(argc, policyLen) + body)
         == Some(([FRAME_MAGIC, FRAME_VERSION, CMD_RUN, argc, policyLen], body))
  {
    var h := [FRAME_MAGIC, FRAME_VERSION, CMD_RUN, argc, policyLen];
    WordLawful();
    ManyLawful(WORD, 5);
    assert RoundTrips(Many(WORD, 5), h, body);
    var text := ShowAll(WORD.show, h) + body;
    assert Lenient(Many(WORD, 5), text);
    assert h[1..][1..] == h[2..] && h[2..][1..] == h[3..] && h[3..][1..] == h[4..] && h[4..][1..] == [];
    assert Le(policyLen, 4) + [] == Le(policyLen, 4);
    assert ShowAll(WORD.show, h[4..]) == Le(policyLen, 4);
    assert ShowAll(WORD.show, h[3..]) == Le(argc, 4) + Le(policyLen, 4);
    assert ShowAll(WORD.show, h[2..]) == Le(CMD_RUN, 4) + (Le(argc, 4) + Le(policyLen, 4));
    assert ShowAll(WORD.show, h) == RequestHeader(argc, policyLen);
  }

  /** Every request that the client sends passes all checks of the daemon. */
  lemma {:induction false} ServedAsSent(argv: seq<Str>, policy: Str)
    requires NulFree(policy) && (forall i :: 0 <= i < |argv| ==> NulFree(argv[i]))
    requires Accepts(argv, policy)
    ensures Serve(|argv|, Len32(policy), RequestBody(argv, policy)) == Run(Cut(policy), CutAll(argv))
  {
    var body := RequestBody(argv, policy);
    assert body[..Len32(policy)] == Cut(policy);
    CutIsNulFree(policy);
    InRangeIsSendable(argv);
    ReadsWhatWasWritten(body, Cut(policy), argv, Len32(policy));
  }

  lemma {:induction false} CutIsWhole(argv: seq<Str>)
    ensures CutAll(argv) == argv <==> forall i :: 0 <= i < |argv| ==> |argv[i]| < TWO_32
    ensures |CutAll(argv)| == |argv|
  {
    if argv != [] {
      CutIsWhole(argv[1..]);
      assert argv == [argv[0]] + argv[1..];
      assert CutAll(argv)[0] == Cut(argv[0]) && CutAll(argv)[1..] == CutAll(argv[1..]);
      assert Cut(argv[0]) == argv[0] <==> |argv[0]| < TWO_32;
      assert forall i :: 1 <= i < |argv| ==> argv[i] == argv[1..][i - 1];
    }
  }

  lemma {:induction false} RunOfCut(policy: Str, argv: seq<Str>)
    ensures Run(Cut(policy), CutAll(argv)) == Run(policy, argv)
       <==> |policy| < TWO_32 && forall i :: 0 <= i < |argv| ==> |argv[i]| < TWO_32
  {
    CutIsWhole(argv);
    assert Cut(policy) == policy <==> |policy| < TWO_32;
  }

  /** The daemon runs with exactly the client's values if and only if no string
      is 4 GiB or longer: lengths are cut to 32 bits before they are checked. */
  lemma {:induction false} FramingAgrees(argv: seq<Str>, policy: Str)
    requires NulFree(policy) && (forall i :: 0 <= i < |argv| ==> NulFree(argv[i]))
    requires Accepts(argv, policy)
    ensures Serve(|argv|, Len32(policy), RequestBody(argv, policy)) == Run(policy, argv)
       <==> |policy| < TWO_32 && forall i :: 0 <= i < |argv| ==> |argv[i]| < TWO_32
  {
    ServedAsSent(argv, policy);
    RunOfCut(policy, argv);
  }

  function Repeat(c: byte, n: nat): (s: Str)
    ensures |s| == n && (c != '\0' ==> NulFree(s))
  {
    seq(n, i => c)
  }

  /** A policy path of 4 GiB and one byte is sent as its first byte. */
  lemma {:induction false} LongPathIsCut()
    ensures exists argv: seq<Str>, policy: Str ::
      NulFree(policy) && (forall i :: 0 <= i < |argv| ==> NulFree(argv[i])) && Accepts(argv, policy)
      && Serve(|argv|, Len32(policy), RequestBody(argv, policy)) != Run(policy, argv)
  {
    var argv: seq<Str>, policy := [Repeat('a', 1)], Repeat('a', TWO_32 + 1);
    assert argv[1..] == [];
    assert Accepts(argv, policy);
    FramingAgrees(argv, policy);
  }
}
