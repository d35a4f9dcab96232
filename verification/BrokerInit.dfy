/** The broker's allowlist: the lists of the policy with every path resolved. */
module BrokerInit {
  import opened BrokerLog
  import opened Bytes
  import opened Paths
  import opened PolicyIr

  /** realpath(3) as the broker's process sees it. */
  type RealPath = Str -> Result<Str>

  predicate Resolved(realpath: RealPath, from: seq<Str>, to: seq<Str>) {
    |to| == |from| && forall i :: 0 <= i < |from| ==> realpath(from[i]) == Ok(to[i])
  }

  predicate BindResolved(realpath: RealPath, from: BindRule, to: BindRule) {
    realpath(from.source) == Ok(to.source) && realpath(from.target) == Ok(to.target) && to.readOnly == from.readOnly
  }

  predicate BindsResolved(realpath: RealPath, from: seq<BindRule>, to: seq<BindRule>) {
    |to| == |from| && forall i :: 0 <= i < |from| ==> BindResolved(realpath, from[i], to[i])
  }

  predicate ObjectResolved(realpath: RealPath, from: ObjectRule, to: ObjectRule) {
    to.name == from.name && to.fsType == from.fsType && to.attrs == from.attrs && Resolved(realpath, from.attach, to.attach)
  }

  predicate ObjectsResolved(realpath: RealPath, from: seq<ObjectRule>, to: seq<ObjectRule>) {
    |to| == |from| && forall i :: 0 <= i < |from| ==> ObjectResolved(realpath, from[i], to[i])
  }

  predicate AddfdResolved(realpath: RealPath, from: AddfdRule, to: AddfdRule) {
    to.action == from.action && realpath(from.target) == Ok(to.target) && to.mode == from.mode
  }

  predicate AddfdsResolved(realpath: RealPath, from: seq<AddfdRule>, to: seq<AddfdRule>) {
    |to| == |from| && forall i :: 0 <= i < |from| ==> AddfdResolved(realpath, from[i], to[i])
  }

  /** The allowlist is the policy's broker section, path by path resolved. */
  predicate BuiltFrom(realpath: RealPath, ir: Ir, al: Allowlist) {
    && Resolved(realpath, ir.openRead, al.read) && Resolved(realpath, ir.openWrite, al.write)
    && Resolved(realpath, ir.scratch, al.scratch) && Resolved(realpath, ir.exports, al.exports)
    && Resolved(realpath, ir.brokerTmpfs, al.tmpfs) && BindsResolved(realpath, ir.brokerBind, al.bind)
    && ObjectsResolved(realpath, ir.brokerObject, al.objects) && AddfdsResolved(realpath, ir.addfd, al.addfd)
  }

  // ----- the first path that does not resolve

  function FirstFailure(realpath: RealPath, paths: seq<Str>): Option<int> {
    if paths == [] then None
    else if realpath(paths[0]).Err? then Some(realpath(paths[0]).errno)
    else FirstFailure(realpath, paths[1..])
  }

  lemma {:induction false} FirstFailureIff(realpath: RealPath, paths: seq<Str>, e: int)
    ensures FirstFailure(realpath, paths) == Some(e) <==>
      exists i :: 0 <= i < |paths| && realpath(paths[i]) == Err(e) && forall j :: 0 <= j < i ==> realpath(paths[j]).Ok?
  {
    if paths != [] && realpath(paths[0]).Ok? {
      FirstFailureIff(realpath, paths[1..], e);
      assert forall i :: 0 < i < |paths| ==> paths[i] == paths[1..][i - 1];
      assert forall i :: 0 <= i < |paths| - 1 ==> paths[1..][i] == paths[i + 1];
    }
  }

  lemma {:induction false} FailureOfSum(realpath: RealPath, a: seq<Str>, b: seq<Str>)
    ensures FirstFailure(realpath, a + b) == if FirstFailure(realpath, a).Some? then FirstFailure(realpath, a) else FirstFailure(realpath, b)
  {
    if a == [] {
      assert a + b == b;
    } else {
      assert (a + b)[1..] == a[1..] + b;
      FailureOfSum(realpath, a[1..], b);
    }
  }

  function BindPaths(rules: seq<BindRule>): seq<Str> {
    if rules == [] then [] else BindPaths(rules[..|rules| - 1]) + [rules[|rules| - 1].source, rules[|rules| - 1].target]
  }

  function AttachPaths(rules: seq<ObjectRule>): seq<Str> {
    if rules == [] then [] else AttachPaths(rules[..|rules| - 1]) + rules[|rules| - 1].attach
  }

  function TargetPaths(rules: seq<AddfdRule>): seq<Str> {
    if rules == [] then [] else TargetPaths(rules[..|rules| - 1]) + [rules[|rules| - 1].target]
  }

  /** Every path of the broker section, in the order in which it is resolved. */
  function InitPaths(ir: Ir): seq<Str> {
    ir.openRead + (ir.openWrite + (ir.scratch + (ir.exports + (ir.brokerTmpfs
    + (BindPaths(ir.brokerBind) + (AttachPaths(ir.brokerObject) + TargetPaths(ir.addfd)))))))
  }

  /** Nothing failed, or the first failure is the result. */
  predicate FailsFirst<T>(realpath: RealPath, paths: seq<Str>, r: Result<T>) {
    FirstFailure(realpath, paths) == if r.Ok? then None else Some(r.errno)
  }

  // ----- the loops

  /** landlockd_broker_canonicalize_rules. */
  method CanonicalizeRules(rules: seq<Str>, realpath: RealPath) returns (r: Result<seq<Str>>)
    ensures r.Ok? ==> Resolved(realpath, rules, r.value)
    ensures FailsFirst(realpath, rules, r)
  {
    var paths := [];
    for i := 0 to |rules|
      invariant Resolved(realpath, rules[..i], paths)
      invariant FirstFailure(realpath, rules[..i]) == None
    {
      assert rules == rules[..i] + ([rules[i]] + rules[i + 1..]);
      FailureOfSum(realpath, rules[..i], [rules[i]] + rules[i + 1..]);
      FailureOfSum(realpath, [rules[i]], rules[i + 1..]);
      assert rules[..i + 1] == rules[..i] + [rules[i]];
      FailureOfSum(realpath, rules[..i], [rules[i]]);
      var resolved := realpath(rules[i]);
      if resolved.Err? {
        return Err(resolved.errno);
      }
      paths := paths + [resolved.value];
    }
    assert rules[..|rules|] == rules;
    return Ok(paths);
  }

  lemma {:induction false} BindFailure(realpath: RealPath, rules: seq<BindRule>, i: nat)
    requires i < |rules| && FirstFailure(realpath, BindPaths(rules[..i])) == None
    ensures FirstFailure(realpath, BindPaths(rules[..i + 1])) == FirstFailure(realpath, [rules[i].source, rules[i].target])
    ensures FirstFailure(realpath, BindPaths(rules[..i + 1])).Some? ==>
      FirstFailure(realpath, BindPaths(rules)) == FirstFailure(realpath, BindPaths(rules[..i + 1]))
    decreases |rules|
  {
    assert rules[..i + 1][..i] == rules[..i];
    FailureOfSum(realpath, BindPaths(rules[..i]), [rules[i].source, rules[i].target]);
    if i + 1 == |rules| {
      assert rules[..i + 1] == rules;
    } else {
      var init := rules[..|rules| - 1];
      assert init[..i] == rules[..i] && init[..i + 1] == rules[..i + 1];
      BindFailure(realpath, init, i);
      FailureOfSum(realpath, BindPaths(init), [rules[|rules| - 1].source, rules[|rules| - 1].target]);
    }
  }

  lemma {:induction false} PairFailure(realpath: RealPath, a: Str, b: Str)
    ensures FirstFailure(realpath, [a, b]) ==
      if realpath(a).Err? then Some(realpath(a).errno) else if realpath(b).Err? then Some(realpath(b).errno) else None
  {
    assert [a, b][1..] == [b];
    assert FirstFailure(realpath, [b]) == if realpath(b).Err? then Some(realpath(b).errno) else FirstFailure(realpath, [b][1..]);
  }

  /** landlockd_broker_canonicalize_bind_rules. */
  method CanonicalizeBinds(rules: seq<BindRule>, realpath: RealPath) returns (r: Result<seq<BindRule>>)
    ensures r.Ok? ==> BindsResolved(realpath, rules, r.value)
    ensures FailsFirst(realpath, BindPaths(rules), r)
  {
    var resolved := [];
    for i := 0 to |rules|
      invariant BindsResolved(realpath, rules[..i], resolved)
      invariant FirstFailure(realpath, BindPaths(rules[..i])) == None
    {
      BindFailure(realpath, rules, i);
      var source := realpath(rules[i].source);
      PairFailure(realpath, rules[i].source, rules[i].target);
      if source.Err? {
        return Err(source.errno);
      }
      var target := realpath(rules[i].target);
      if target.Err? {
        return Err(target.errno);
      }
      resolved := resolved + [BindRule(source.value, target.value, rules[i].readOnly)];
    }
    assert rules[..|rules|] == rules;
    return Ok(resolved);
  }

  lemma {:induction false} AttachFailure(realpath: RealPath, rules: seq<ObjectRule>, i: nat)
    requires i < |rules| && FirstFailure(realpath, AttachPaths(rules[..i])) == None
    ensures FirstFailure(realpath, AttachPaths(rules[..i + 1])) == FirstFailure(realpath, rules[i].attach)
    ensures FirstFailure(realpath, AttachPaths(rules[..i + 1])).Some? ==>
      FirstFailure(realpath, AttachPaths(rules)) == FirstFailure(realpath, AttachPaths(rules[..i + 1]))
    decreases |rules|
  {
    assert rules[..i + 1][..i] == rules[..i];
    FailureOfSum(realpath, AttachPaths(rules[..i]), rules[i].attach);
    if i + 1 == |rules| {
      assert rules[..i + 1] == rules;
    } else {
      var init := rules[..|rules| - 1];
      assert init[..i] == rules[..i] && init[..i + 1] == rules[..i + 1];
      AttachFailure(realpath, init, i);
      FailureOfSum(realpath, AttachPaths(init), rules[|rules| - 1].attach);
    }
  }

  /** landlockd_broker_canonicalize_mount_object_rules. */
  method CanonicalizeObjects(rules: seq<ObjectRule>, realpath: RealPath) returns (r: Result<seq<ObjectRule>>)
    ensures r.Ok? ==> ObjectsResolved(realpath, rules, r.value)
    ensures FailsFirst(realpath, AttachPaths(rules), r)
  {
    var resolved := [];
    for i := 0 to |rules|
      invariant ObjectsResolved(realpath, rules[..i], resolved)
      invariant FirstFailure(realpath, AttachPaths(rules[..i])) == None
    {
      AttachFailure(realpath, rules, i);
      var attach := CanonicalizeRules(rules[i].attach, realpath);
      if attach.Err? {
        return Err(attach.errno);
      }
      resolved := resolved + [ObjectRule(rules[i].name, rules[i].fsType, attach.value, rules[i].attrs)];
    }
    assert rules[..|rules|] == rules;
    return Ok(resolved);
  }

  lemma {:induction false} TargetFailure(realpath: RealPath, rules: seq<AddfdRule>, i: nat)
    requires i < |rules| && FirstFailure(realpath, TargetPaths(rules[..i])) == None
    ensures FirstFailure(realpath, TargetPaths(rules[..i + 1])) == FirstFailure(realpath, [rules[i].target])
    ensures FirstFailure(realpath, TargetPaths(rules[..i + 1])).Some? ==>
      FirstFailure(realpath, TargetPaths(rules)) == FirstFailure(realpath, TargetPaths(rules[..i + 1]))
    decreases |rules|
  {
    assert rules[..i + 1][..i] == rules[..i];
    FailureOfSum(realpath, TargetPaths(rules[..i]), [rules[i].target]);
    if i + 1 == |rules| {
      assert rules[..i + 1] == rules;
    } else {
      var init := rules[..|rules| - 1];
      assert init[..i] == rules[..i] && init[..i + 1] == rules[..i + 1];
      TargetFailure(realpath, init, i);
      FailureOfSum(realpath, TargetPaths(init), [rules[|rules| - 1].target]);
    }
  }

  /** landlockd_broker_canonicalize_addfd_rules. */
  method CanonicalizeAddfds(rules: seq<AddfdRule>, realpath: RealPath) returns (r: Result<seq<AddfdRule>>)
    ensures r.Ok? ==> AddfdsResolved(realpath, rules, r.value)
    ensures FailsFirst(realpath, TargetPaths(rules), r)
  {
    var resolved := [];
    for i := 0 to |rules|
      invariant AddfdsResolved(realpath, rules[..i], resolved)
      invariant FirstFailure(realpath, TargetPaths(rules[..i])) == None
    {
      TargetFailure(realpath, rules, i);
      var target := realpath(rules[i].target);
      if target.Err? {
        return Err(target.errno);
      }
      resolved := resolved + [AddfdRule(rules[i].action, target.value, rules[i].mode)];
    }
    assert rules[..|rules|] == rules;
    return Ok(resolved);
  }

  lemma {:induction false} FailureOfInit(realpath: RealPath, ir: Ir)
    ensures var mounts := BindPaths(ir.brokerBind) + (AttachPaths(ir.brokerObject) + TargetPaths(ir.addfd));
      FirstFailure(realpath, InitPaths(ir)) ==
        if FirstFailure(realpath, ir.openRead).Some? then FirstFailure(realpath, ir.openRead)
        else if FirstFailure(realpath, ir.openWrite).Some? then FirstFailure(realpath, ir.openWrite)
        else if FirstFailure(realpath, ir.scratch).Some? then FirstFailure(realpath, ir.scratch)
        else if FirstFailure(realpath, ir.exports).Some? then FirstFailure(realpath, ir.exports)
        else if FirstFailure(realpath, ir.brokerTmpfs).Some? then FirstFailure(realpath, ir.brokerTmpfs)
        else FirstFailure(realpath, mounts)
  {
    var mounts := BindPaths(ir.brokerBind) + (AttachPaths(ir.brokerObject) + TargetPaths(ir.addfd));
    FailureOfSum(realpath, ir.openRead, ir.openWrite + (ir.scratch + (ir.exports + (ir.brokerTmpfs + mounts))));
    FailureOfSum(realpath, ir.openWrite, ir.scratch + (ir.exports + (ir.brokerTmpfs + mounts)));
    FailureOfSum(realpath, ir.scratch, ir.exports + (ir.brokerTmpfs + mounts));
    FailureOfSum(realpath, ir.exports, ir.brokerTmpfs + mounts);
    FailureOfSum(realpath, ir.brokerTmpfs, mounts);
  }

  /** The mount lists and the addfd rules. */
  method InitRules(ir: Ir, realpath: RealPath, start: Allowlist) returns (r: Result<Allowlist>)
    ensures FailsFirst(realpath, BindPaths(ir.brokerBind) + (AttachPaths(ir.brokerObject) + TargetPaths(ir.addfd)), r)
    ensures r.Ok? ==> r.value == start.(bind := r.value.bind, objects := r.value.objects, addfd := r.value.addfd)
    ensures r.Ok? ==>
      BindsResolved(realpath, ir.brokerBind, r.value.bind)
      && ObjectsResolved(realpath, ir.brokerObject, r.value.objects) && AddfdsResolved(realpath, ir.addfd, r.value.addfd)
  {
    FailureOfSum(realpath, BindPaths(ir.brokerBind), AttachPaths(ir.brokerObject) + TargetPaths(ir.addfd));
    FailureOfSum(realpath, AttachPaths(ir.brokerObject), TargetPaths(ir.addfd));
    var bind := CanonicalizeBinds(ir.brokerBind, realpath);
    if bind.Err? {
      return Err(bind.errno);
    }
    var objects := CanonicalizeObjects(ir.brokerObject, realpath);
    if objects.Err? {
      return Err(objects.errno);
    }
    var addfd := CanonicalizeAddfds(ir.addfd, realpath);
    if addfd.Err? {
      return Err(addfd.errno);
    }
    return Ok(start.(bind := bind.value, objects := objects.value, addfd := addfd.value));
  }

  /** landlockd_broker_allowlist_init: the resolved lists, or the errno of the first
      path that does not resolve. */
  method AllowlistInit(ir: Ir, realpath: RealPath) returns (r: Result<Allowlist>)
    ensures r.Ok? ==> BuiltFrom(realpath, ir, r.value)
    ensures FailsFirst(realpath, InitPaths(ir), r)
  {
    FailureOfInit(realpath, ir);
    var read := CanonicalizeRules(ir.openRead, realpath);
    if read.Err? {
      return Err(read.errno);
    }
    var write := CanonicalizeRules(ir.openWrite, realpath);
    if write.Err? {
      return Err(write.errno);
    }
    var scratch := CanonicalizeRules(ir.scratch, realpath);
    if scratch.Err? {
      return Err(scratch.errno);
    }
    var exports := CanonicalizeRules(ir.exports, realpath);
    if exports.Err? {
      return Err(exports.errno);
    }
    var tmpfs := CanonicalizeRules(ir.brokerTmpfs, realpath);
    if tmpfs.Err? {
      return Err(tmpfs.errno);
    }
    r := InitRules(ir, realpath, Allowlist(read.value, write.value, scratch.value, exports.value, tmpfs.value, [], [], []));
  }

  /** realpath yields canonical paths. */
  ghost predicate YieldsCanonical(realpath: RealPath) {
    forall p :: realpath(p).Ok? ==> Canonical(realpath(p).value)
  }

  /** The allowlist that the broker is given is one that it relies on. */
  lemma {:induction false} BuiltIsCanonical(realpath: RealPath, ir: Ir, al: Allowlist)
    requires YieldsCanonical(realpath) && BuiltFrom(realpath, ir, al)
    ensures CanonicalAllowlist(al)
  {
    forall i: nat ensures CanonicalAttach(al, i) {
      assert i < |al.objects| ==> ObjectResolved(realpath, ir.brokerObject[i], al.objects[i]);
    }
    forall i: nat ensures CanonicalTarget(al, i) {
      assert i < |al.addfd| ==> AddfdResolved(realpath, ir.addfd[i], al.addfd[i]);
    }
  }
}
