/** The loops of landlockd_daemon_run and landlockd_daemon_handle_run. */
module FramingLoops {
  import opened Bytes
  import opened Framing
  import opened Wire

  /** The measuring loop of landlockd_daemon_run: how many arguments, and how
      many bytes they take. The 32-bit total never wraps. */
  method MeasureArgs(argv: seq<Str>) returns (r: Option<(u32, u32)>)
    ensures r == if ArgsInRange(argv) && Cost(argv) <= MAX_REQUEST_BYTES then Some((|argv|, Cost(argv))) else None
  {
    var argc: u32, total: u32 := 0, 0;
    while argc < |argv|
      invariant argc <= |argv| && 5 * argc <= total == Cost(argv[..argc]) <= MAX_REQUEST_BYTES
      invariant ArgsInRange(argv[..argc])
    {
      CostNext(argv, argc);
      var len := Len32(argv[argc]);
      if len == 0 || len > MAX_ARG_LEN {
        return None;
      }
      NoWrap(4, len);
      NoWrap(total, 4 + len);
      total := Add32(total, Add32(4, len));
      if total > MAX_REQUEST_BYTES {
        return None;
      }
      NoWrap(argc, 1);
      argc := Add32(argc, 1);
    }
    assert argv[..|argv|] == argv;
    return Some((argc, total));
  }

  /** The encoder of landlockd_daemon_run: the bytes of the request, or no
      request at all. */
  method EncodeRun(argv: seq<Str>, policy: Str) returns (r: Option<Str>)
    ensures r.Some? <==> Accepts(argv, policy)
    ensures r.Some? ==> r.value == RequestHeader(|argv|, Len32(policy)) + RequestBody(argv, policy)
  {
    var measured :- MeasureArgs(argv);
    var (argc, total) := measured;
    if argc == 0 || argc > MAX_ARGS {
      return None;
    }
    var len := Len32(policy);
    if len == 0 || len > MAX_POLICY_LEN || len > MAX_REQUEST_BYTES {
      return None;
    }
    NoWrap(total, len);
    if Add32(total, len) > MAX_REQUEST_BYTES {
      return None;
    }
    var args := WriteArgs(argv);
    return Some(RequestHeader(argc, len) + (policy[..len] + args));
  }

  method WriteArgs(argv: seq<Str>) returns (out: Str)
    ensures out == Args(argv)
  {
    out := [];
    for i := 0 to |argv|
      invariant out == Args(argv[..i])
    {
      ArgsNext(argv, i);
      var len := Len32(argv[i]);
      out := out + (Le(len, 4) + argv[i][..len]);
    }
    assert argv[..|argv|] == argv;
  }

  /** One turn of the argument loop, from offset off. */
  method ReadArg(body: Str, total: u32, off: nat) returns (r: Result<(Str, u32, nat)>)
    requires off <= |body| && total <= MAX_REQUEST_BYTES
    ensures r == OneArg(body, total, off)
  {
    if off + 4 > |body| {
      return Err(EPIPE);
    }
    WordFits(body[off..off + 4]);
    var len: u32 := Value(body[off..off + 4]);
    NoWrap(total, 4);
    var sum := Add32(total, 4);
    if len == 0 || len > MAX_ARG_LEN || sum > MAX_REQUEST_BYTES {
      return Err(EINVAL);
    }
    NoWrap(sum, len);
    if Add32(sum, len) > MAX_REQUEST_BYTES {
      return Err(EINVAL);
    }
    var next := off + 4 + len;
    if next > |body| {
      return Err(EPIPE);
    }
    return Ok((CStr(body[off + 4..next]), Add32(sum, len), next));
  }

  /** The argument loop of landlockd_daemon_handle_run. */
  method ReadAllArgs(argc: nat, body: Str, start: nat, policyLen: u32) returns (r: Result<seq<Str>>)
    requires start <= |body| && policyLen <= MAX_REQUEST_BYTES
    ensures r == ReadArgs(body, argc, policyLen, start)
  {
    var argv: seq<Str>, off: nat, total: u32 := [], start, policyLen;
    ghost var whole := ReadArgs(body, argc, policyLen, start);
    ContinuesFromStart(whole);
    var i := 0;
    while i < argc
      invariant i <= argc && off <= |body| && total <= MAX_REQUEST_BYTES
      invariant Continues(whole, argv, ReadArgs(body, argc - i, total, off))
    {
      var arg := ReadArg(body, total, off);
      if arg.Err? {
        return Err(arg.errno);
      }
      ContinuesAfter(whole, argv, arg.value.0, ReadArgs(body, argc - i - 1, arg.value.1, arg.value.2));
      argv := argv + [arg.value.0];
      total, off := arg.value.1, arg.value.2;
      i := i + 1;
    }
    ContinuesToEnd(whole, argv);
    return Ok(argv);
  }

  /** landlockd_daemon_handle_run up to the policy lookup. */
  method HandleRun(argc: u32, policyLen: u32, body: Str) returns (r: Served)
    ensures r == Serve(argc, policyLen, body)
  {
    if argc == 0 || argc > MAX_ARGS || policyLen == 0 || policyLen > MAX_POLICY_LEN {
      return Refused(EINVAL);
    }
    if |body| < policyLen {
      return Dropped(EPIPE);
    }
    var argv := ReadAllArgs(argc, body, policyLen, policyLen);
    if argv.Err? {
      return Refused(argv.errno);
    }
    return Run(CStr(body[..policyLen]), argv.value);
  }
}
