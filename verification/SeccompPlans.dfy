/** From a policy to the two plans, and from the plans to what the sandboxed
    process experiences. */
module SeccompPlans {
  import opened Answers
  import opened Bpf
  import opened BrokerLog
  import opened Bytes
  import opened PolicyIr
  import opened Seccomp

  // ----- exception layers (policy_ir.c and policy_compiler.c)

  type CInt = x: int | -0x8000_0000 <= x < 0x8000_0000

  const KIND_FS: int := 1
  const KIND_NET: int := 2
  const KIND_EXCEPTION: int := 3

  /** struct landlockd_ir_layer; None stands for a null pointer. */
  datatype Layer = Layer(kind: int, order: nat, handled: u64, ruleCount: nat,
                         fs: Option<seq<(Option<Str>, u64)>>, net: Option<seq<NetRule>>, exceptions: Option<seq<CInt>>)

  datatype Policy = Policy(name: Option<Str>, layers: seq<Option<Layer>>)

  /** The arrays hold at least as many elements as the layer counts. */
  predicate Backed(policy: Policy) {
    forall i :: 0 <= i < |policy.layers| && policy.layers[i].Some? ==>
      var l := policy.layers[i].value;
      && (l.fs.Some? ==> l.ruleCount <= |l.fs.value|)
      && (l.net.Some? ==> l.ruleCount <= |l.net.value|)
      && (l.exceptions.Some? ==> l.ruleCount <= |l.exceptions.value|)
  }

  predicate ValidFsLayer(l: Layer) {
    && l.net.None? && l.exceptions.None? && l.handled != 0
    && (l.ruleCount > 0 ==> l.fs.Some? && l.ruleCount <= |l.fs.value|)
    && (forall i :: 0 <= i < l.ruleCount ==> l.fs.value[i].0.Some? && l.fs.value[i].1 != 0)
  }

  predicate ValidNetLayer(l: Layer) {
    && l.fs.None? && l.exceptions.None? && l.handled != 0
    && (l.ruleCount > 0 ==> l.net.Some? && l.ruleCount <= |l.net.value|)
    && (forall i :: 0 <= i < l.ruleCount ==> l.net.value[i].access != 0)
  }

  predicate ValidExceptionLayer(l: Layer) {
    && l.fs.None? && l.net.None? && l.handled == 0 && l.ruleCount > 0
    && l.exceptions.Some? && l.ruleCount <= |l.exceptions.value|
    && forall i :: 0 <= i < l.ruleCount ==> l.exceptions.value[i] >= 0
  }

  predicate ValidLayerAt(policy: Policy, i: nat)
    requires i < |policy.layers|
  {
    && policy.layers[i].Some? && policy.layers[i].value.order == i
    && var l := policy.layers[i].value;
       if l.kind == KIND_FS then ValidFsLayer(l)
       else if l.kind == KIND_NET then ValidNetLayer(l)
       else l.kind == KIND_EXCEPTION && ValidExceptionLayer(l)
  }

  /** landlockd_ir_policy_validate. */
  predicate Validates(policy: Policy) {
    && policy.name.Some? && policy.name.value != [] && policy.layers != []
    && forall i :: 0 <= i < |policy.layers| ==> ValidLayerAt(policy, i)
  }

  /** The system calls of one layer, if it is an exception layer. */
  function Excepted(l: Layer): seq<CInt> {
    if l.kind == KIND_EXCEPTION && l.exceptions.Some? && l.ruleCount <= |l.exceptions.value|
    then l.exceptions.value[..l.ruleCount] else []
  }

  /** All excepted system calls of the first n layers, in order. */
  function Exceptions(policy: Policy, n: nat): seq<CInt>
    requires n <= |policy.layers|
  {
    if n == 0 then []
    else Exceptions(policy, n - 1) + if policy.layers[n - 1].Some? then Excepted(policy.layers[n - 1].value) else []
  }

  lemma {:induction false} ExceptionsGrow(policy: Policy, m: nat, n: nat)
    requires m <= n <= |policy.layers|
    ensures |Exceptions(policy, m)| <= |Exceptions(policy, n)|
    decreases n
  {
    if m < n {
      ExceptionsGrow(policy, m, n - 1);
    }
  }

  /** landlockd_policy_compile_exceptions: the calls of all exception layers in
      order, or an emptied plan. */
  method CompileExceptions(policy: Policy, plan: Plan) returns (r: Result<()>)
    requires Backed(policy) && plan.Valid()
    modifies plan, plan.nrs
    ensures plan.Valid()
    ensures var all := Exceptions(policy, |policy.layers|);
      r == if !Validates(policy) then Err(EINVAL) else if |all| > MAX_EXCEPTIONS then Err(ENOSPC) else Ok(())
    ensures r == Err(EINVAL) ==> plan.Contents() == old(plan.Contents())
    ensures r == Err(ENOSPC) ==> plan.Contents() == []
    ensures r.Ok? ==> plan.Contents() == Exceptions(policy, |policy.layers|)
  {
    if !Validates(policy) {
      return Err(EINVAL);
    }
    plan.Reset();
    for i := 0 to |policy.layers|
      invariant plan.Valid() && plan.Contents() == Exceptions(policy, i)
    {
      assert ValidLayerAt(policy, i);
      ExceptionsGrow(policy, i + 1, |policy.layers|);
      var layer := policy.layers[i].value;
      if layer.kind != KIND_EXCEPTION {
        continue;
      }
      r := AddExceptions(plan, layer.exceptions.value, layer.ruleCount);
      if r.Err? {
        plan.Reset();
        return;
      }
    }
    return Ok(());
  }

  /** The inner loop: the rules of one exception layer. */
  method AddExceptions(plan: Plan, rules: seq<CInt>, n: nat) returns (r: Result<()>)
    requires plan.Valid() && n <= |rules| && forall j :: 0 <= j < n ==> rules[j] >= 0
    modifies plan`count, plan.nrs
    ensures plan.Valid()
    ensures r == if old(plan.count) + n <= MAX_EXCEPTIONS then Ok(()) else Err(ENOSPC)
    ensures r.Ok? ==> plan.Contents() == old(plan.Contents()) + rules[..n]
  {
    for j := 0 to n
      invariant plan.Valid() && plan.Contents() == old(plan.Contents()) + rules[..j]
    {
      r := plan.Add(rules[j]);
      if r.Err? {
        return;
      }
      assert rules[..j + 1] == rules[..j] + [rules[j]];
    }
    return Ok(());
  }

  // ----- the plans of landlockd_run_policy_ir

  type SyscallNr = x: int | 0 <= x < 0x8000_0000

  /** The numbers that the build assigns to the calls named in the code. */
  datatype Sys = Sys(mount: SyscallNr, umount2: SyscallNr, openTree: SyscallNr, moveMount: SyscallNr,
                     mountSetattr: SyscallNr, fsopen: SyscallNr, fsconfig: SyscallNr, fsmount: SyscallNr,
                     pivotRoot: SyscallNr, openat: SyscallNr, openat2: SyscallNr, mkdirat: SyscallNr,
                     unlinkat: SyscallNr, renameat2: SyscallNr, symlinkat: SyscallNr, linkat: SyscallNr)

  function MountFamily(sys: Sys): seq<u32> {
    [sys.mount, sys.umount2, sys.openTree, sys.moveMount, sys.mountSetattr, sys.fsopen, sys.fsconfig, sys.fsmount,
     sys.pivotRoot]
  }

  predicate MountNamespace(ir: Ir) {
    || ir.mountTmpfs != [] || ir.mountBind != [] || ir.mountProc != []
    || ir.brokerTmpfs != [] || ir.brokerBind != [] || ir.brokerObject != [] || ir.root.Some?
  }

  predicate MountBroker(al: Allowlist) {
    al.tmpfs != [] || al.bind != [] || al.objects != []
  }

  predicate OpenBroker(al: Allowlist) {
    al.read != [] || al.write != [] || al.scratch != [] || al.exports != [] || MountBroker(al)
  }

  function BrokeredCalls(al: Allowlist, sys: Sys): seq<u32> {
    if !OpenBroker(al) then []
    else
      [sys.openat, sys.openat2]
      + if al.scratch != [] || al.exports != []
        then [sys.mkdirat, sys.unlinkat, sys.renameat2, sys.symlinkat, sys.linkat] else []
  }

  function NotifyNumbers(ir: Ir, al: Allowlist, sys: Sys): seq<u32> {
    (if MountNamespace(ir) && MountBroker(al) then MountFamily(sys) else []) + BrokeredCalls(al, sys)
  }

  function DenyNumbers(ir: Ir, al: Allowlist, sys: Sys): seq<u32> {
    (if MountNamespace(ir) && !MountBroker(al) then MountFamily(sys) else []) + if ir.seccompEnabled then ir.deny else []
  }

  /** Add the numbers in turn; stop at the first failure. */
  method AddAll(plan: Plan, nrs: seq<u32>) returns (r: Result<()>)
    requires plan.Valid() && forall i :: 0 <= i < |nrs| ==> nrs[i] < 0x8000_0000
    modifies plan`count, plan.nrs
    ensures plan.Valid()
    ensures r == if old(plan.count) + |nrs| <= MAX_EXCEPTIONS then Ok(()) else Err(ENOSPC)
    ensures r.Ok? ==> plan.Contents() == old(plan.Contents()) + nrs
  {
    for i := 0 to |nrs|
      invariant plan.Valid() && plan.Contents() == old(plan.Contents()) + nrs[..i]
    {
      r := plan.Add(nrs[i]);
      if r.Err? {
        return;
      }
      assert nrs[..i + 1] == nrs[..i] + [nrs[i]];
    }
    assert nrs[..|nrs|] == nrs;
    r := Ok(());
  }

  /** The mount calls go to the broker if it handles mounts, else they fail. */
  method AddMountCalls(ir: Ir, al: Allowlist, sys: Sys, notify: Plan, deny: Plan)
    requires notify.Valid() && deny.Valid() && notify != deny && notify.nrs != deny.nrs
    requires notify.Contents() == [] && deny.Contents() == []
    modifies notify`count, notify.nrs, deny`count, deny.nrs
    ensures notify.Valid() && deny.Valid()
    ensures notify.Contents() == if MountNamespace(ir) && MountBroker(al) then MountFamily(sys) else []
    ensures deny.Contents() == if MountNamespace(ir) && !MountBroker(al) then MountFamily(sys) else []
  {
    if MountNamespace(ir) {
      var plan := if MountBroker(al) then notify else deny;
      var r := AddAll(plan, MountFamily(sys));
      assert [] + MountFamily(sys) == MountFamily(sys);
    }
  }

  method AddBrokeredCalls(al: Allowlist, sys: Sys, notify: Plan)
    requires notify.Valid() && notify.count <= 9
    modifies notify`count, notify.nrs
    ensures notify.Valid() && notify.Contents() == old(notify.Contents()) + BrokeredCalls(al, sys)
  {
    if OpenBroker(al) {
      var r := AddAll(notify, [sys.openat, sys.openat2]);
      if al.scratch != [] || al.exports != [] {
        r := AddAll(notify, [sys.mkdirat, sys.unlinkat, sys.renameat2, sys.symlinkat, sys.linkat]);
      }
    }
  }

  /** The plan building of landlockd_run_policy_ir, up to the fork of the child. */
  method BuildPlans(ir: Ir, al: Allowlist, sys: Sys, notify: Plan, deny: Plan) returns (r: Result<()>)
    requires notify.Valid() && deny.Valid() && notify != deny && notify.nrs != deny.nrs
    requires notify.Contents() == [] && deny.Contents() == []
    requires forall i :: 0 <= i < |ir.deny| ==> ir.deny[i] < 0x8000_0000
    modifies notify`count, notify.nrs, deny`count, deny.nrs
    ensures notify.Valid() && deny.Valid()
    ensures r == if |DenyNumbers(ir, al, sys)| <= MAX_EXCEPTIONS then Ok(()) else Err(ENOSPC)
    ensures r.Ok? ==> notify.Contents() == NotifyNumbers(ir, al, sys) && deny.Contents() == DenyNumbers(ir, al, sys)
  {
    AddMountCalls(ir, al, sys, notify, deny);
    AddBrokeredCalls(al, sys, notify);
    if ir.seccompEnabled {
      r := AddAll(deny, ir.deny);
      if r.Err? {
        return;
      }
    }
    r := Ok(());
  }

  // ----- the filters of the child

  function DenyErrno(ir: Ir): u16 {
    if ir.seccompEnabled then ir.seccompErrno else EPERM
  }

  function FiltersFor(deny: Numbers, e: u16, notify: Numbers): seq<Program> {
    (if deny != [] then [DenyProgram(deny, e)] else []) + if notify != [] then [NotifyProgram(notify)] else []
  }

  /** How many calls a child makes that gets through: no_new_privs and one per
      filter, then the listener and the Landlock rulesets. */
  function CallsFor(notify: nat, deny: nat, brokered: bool, rulesets: nat): nat {
    (if notify > 0 || deny > 0 then 1 else 0) + (if deny > 0 then 1 else 0) + (if notify > 0 then 1 else 0)
    + (if brokered then 1 else 0) + rulesets
  }

  /** The seccomp part of landlockd_apply_policy_in_child. */
  method InstallFilters(notify: Plan, deny: Plan, e: u16, process: Process) returns (r: Result<()>)
    requires notify.Valid() && deny.Valid()
    modifies process
    ensures notify.Valid() && deny.Valid()
    ensures old(process.calls) <= process.calls
    ensures r.Ok? <==> Quiet(process.failures, old(process.calls), process.calls)
    ensures r.Ok? ==> process.filters == old(process.filters) + FiltersFor(deny.Contents(), e, notify.Contents())
    ensures r.Ok? ==> process.calls == old(process.calls) + CallsFor(notify.count, deny.count, false, 0)
    ensures r.Err? ==> r.errno == LastErrno(process.failures, process.calls)
  {
    r := Ok(());
    if notify.count > 0 || deny.count > 0 {
      var errno := process.Call();
      if errno != 0 {
        return Err(errno);
      }
      if deny.count > 0 {
        r := deny.InstallDenylist(e, process);
        if r.Err? {
          return;
        }
      }
      if notify.count > 0 {
        r := notify.Install(process);
      }
    }
  }

  /** landlockd_apply_policy_in_child; rulesets is the number of Landlock
      rulesets that it enforces last. */
  method ApplyInChild(notify: Plan, deny: Plan, e: u16, brokered: bool, rulesets: nat, process: Process)
    returns (r: Result<()>)
    requires notify.Valid() && deny.Valid()
    modifies process
    ensures notify.Valid() && deny.Valid()
    ensures old(process.calls) <= process.calls
    ensures r.Ok? <==> Quiet(process.failures, old(process.calls), process.calls) && (brokered ==> notify.count > 0)
    ensures r.Ok? ==> process.filters == old(process.filters) + FiltersFor(deny.Contents(), e, notify.Contents())
    ensures r.Ok? ==> process.calls == old(process.calls) + CallsFor(notify.count, deny.count, brokered, rulesets)
    ensures r.Err? ==>
      r.errno == if Quiet(process.failures, old(process.calls), process.calls) then EINVAL
                 else LastErrno(process.failures, process.calls)
  {
    r := InstallFilters(notify, deny, e, process);
    if r.Err? {
      return;
    }
    var errno;
    if brokered {
      if notify.count == 0 {
        return Err(EINVAL);
      }
      errno := process.Call();
      if errno != 0 {
        return Err(errno);
      }
    }
    ghost var installed, start := process.filters, process.calls;
    for i := 0 to rulesets
      invariant process.filters == installed && process.calls == start + i
      invariant Quiet(process.failures, old(process.calls), process.calls)
    {
      errno := process.Call();
      if errno != 0 {
        return Err(errno);
      }
    }
    return Ok(());
  }

  // ----- what the sandboxed process experiences

  lemma {:induction false} DecideFiltersFor(deny: Numbers, e: u16, notify: Numbers, nr: u32)
    ensures Decide(FiltersFor(deny, e, notify), nr)
         == Some(if nr in deny then RET_ERRNO + e else if nr in notify then RET_USER_NOTIF else RET_ALLOW)
  {
    DenyCorrect(deny, e, nr);
    NotifyCorrect(notify, nr);
    if deny != [] && notify != [] {
      TwoFilters(deny, e, notify, nr);
    } else if deny != [] {
      OneFilter(DenyProgram(deny, e), nr);
    } else if notify != [] {
      OneFilter(NotifyProgram(notify), nr);
    }
  }

  /** What BuildPlans and ApplyInChild together give the child: denied calls
      fail with the policy's errno, brokered ones are notified, the rest run. */
  lemma {:induction false} ChildSees(ir: Ir, al: Allowlist, sys: Sys, nr: u32)
    requires |DenyNumbers(ir, al, sys)| <= MAX_EXCEPTIONS
    ensures |NotifyNumbers(ir, al, sys)| <= 16
    ensures var deny, notify := DenyNumbers(ir, al, sys), NotifyNumbers(ir, al, sys);
      Decide(FiltersFor(deny, DenyErrno(ir), notify), nr)
        == Some(if nr in deny then RET_ERRNO + DenyErrno(ir) else if nr in notify then RET_USER_NOTIF else RET_ALLOW)
    ensures ir.seccompEnabled && nr in ir.deny ==> nr in DenyNumbers(ir, al, sys)
    ensures MountNamespace(ir) && nr in MountFamily(sys) ==>
      nr in DenyNumbers(ir, al, sys) || nr in NotifyNumbers(ir, al, sys)
  {
    DecideFiltersFor(DenyNumbers(ir, al, sys), DenyErrno(ir), NotifyNumbers(ir, al, sys), nr);
  }
}
