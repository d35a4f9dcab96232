/** Which calls of the sandboxed process run, fail, or reach the broker, told from
    the policy and the broker's allowlist alone. */
module SeccompMeaning {
  import opened Answers
  import opened Bpf
  import opened BrokerLog
  import opened Bytes
  import opened PolicyIr
  import opened Seccomp
  import opened SeccompPlans

  function AllCalls(sys: Sys): (all: seq<u32>)
    ensures |all| == 16
  {
    [sys.mount, sys.umount2, sys.openTree, sys.moveMount, sys.mountSetattr, sys.fsopen, sys.fsconfig, sys.fsmount,
     sys.pivotRoot, sys.openat, sys.openat2, sys.mkdirat, sys.unlinkat, sys.renameat2, sys.symlinkat, sys.linkat]
  }

  /** The sixteen calls have sixteen numbers. */
  predicate Distinct(sys: Sys) {
    forall i, j :: 0 <= i < j < 16 ==> AllCalls(sys)[i] != AllCalls(sys)[j]
  }

  predicate IsOpen(sys: Sys, nr: u32) {
    nr == sys.openat || nr == sys.openat2
  }

  predicate ChangesDirectory(sys: Sys, nr: u32) {
    nr == sys.mkdirat || nr == sys.unlinkat || nr == sys.renameat2 || nr == sys.symlinkat || nr == sys.linkat
  }

  predicate IsMount(sys: Sys, nr: u32) {
    || nr == sys.mount || nr == sys.umount2 || nr == sys.openTree || nr == sys.moveMount || nr == sys.mountSetattr
    || nr == sys.fsopen || nr == sys.fsconfig || nr == sys.fsmount || nr == sys.pivotRoot
  }

  /** The policy sets up mounts, so the process has a mount namespace of its own. */
  predicate HasNamespace(ir: Ir) {
    || |ir.mountTmpfs| + |ir.mountBind| + |ir.mountProc| > 0
    || |ir.brokerTmpfs| + |ir.brokerBind| + |ir.brokerObject| > 0 || ir.root != None
  }

  predicate GrantsMounts(al: Allowlist) {
    |al.tmpfs| + |al.bind| + |al.objects| > 0
  }

  predicate GrantsPaths(al: Allowlist) {
    |al.read| + |al.write| + |al.scratch| + |al.exports| > 0
  }

  /** What the installed filters must say of a call: the policy's own deny rules come
      first; opens are brokered when the allowlist grants anything, the calls that
      change directories when it has scratch or export roots; and the mount calls,
      in a namespace of their own, are brokered when it grants mounts and fail when
      it grants none. */
  function Verdict(ir: Ir, al: Allowlist, sys: Sys, nr: u32): u32 {
    var errno := RET_ERRNO + if ir.seccompEnabled then ir.seccompErrno else 1;
    if ir.seccompEnabled && nr in ir.deny then errno
    else if IsOpen(sys, nr) then
      if GrantsPaths(al) || GrantsMounts(al) then RET_USER_NOTIF else RET_ALLOW
    else if ChangesDirectory(sys, nr) then
      if |al.scratch| + |al.exports| > 0 then RET_USER_NOTIF else RET_ALLOW
    else if IsMount(sys, nr) && HasNamespace(ir) then
      if GrantsMounts(al) then RET_USER_NOTIF else errno
    else RET_ALLOW
  }

  /** How many calls the process must deny. */
  function DenyCount(ir: Ir, al: Allowlist): nat {
    (if HasNamespace(ir) && !GrantsMounts(al) then 9 else 0) + if ir.seccompEnabled then |ir.deny| else 0
  }

  lemma {:induction false} MountNumbers(sys: Sys, nr: u32)
    ensures nr in MountFamily(sys) <==> IsMount(sys, nr)
  {
  }

  lemma {:induction false} MountAt(sys: Sys, nr: u32) returns (i: nat)
    requires IsMount(sys, nr)
    ensures i < 9 && AllCalls(sys)[i] == nr
  {
    assert AllCalls(sys)[..9] == MountFamily(sys);
    MountNumbers(sys, nr);
    i :| i < 9 && MountFamily(sys)[i] == nr;
  }

  lemma {:induction false} KindsAreApart(sys: Sys, nr: u32)
    requires Distinct(sys)
    ensures IsMount(sys, nr) ==> !IsOpen(sys, nr) && !ChangesDirectory(sys, nr)
    ensures IsOpen(sys, nr) ==> !ChangesDirectory(sys, nr)
  {
    var all := AllCalls(sys);
    assert all[9] == sys.openat && all[10] == sys.openat2;
    assert all[11] == sys.mkdirat && all[12] == sys.unlinkat && all[13] == sys.renameat2;
    assert all[14] == sys.symlinkat && all[15] == sys.linkat;
    if IsMount(sys, nr) {
      var i := MountAt(sys, nr);
      assert forall j :: 9 <= j < 16 ==> all[i] != all[j];
    }
  }

  lemma {:induction false} BrokeredIff(al: Allowlist, sys: Sys, nr: u32)
    ensures nr in BrokeredCalls(al, sys) <==>
      (IsOpen(sys, nr) && (GrantsPaths(al) || GrantsMounts(al)))
      || (ChangesDirectory(sys, nr) && |al.scratch| + |al.exports| > 0)
  {
  }

  lemma {:induction false} DeniedIff(ir: Ir, al: Allowlist, sys: Sys, nr: u32)
    ensures nr in DenyNumbers(ir, al, sys) <==>
      (ir.seccompEnabled && nr in ir.deny) || (IsMount(sys, nr) && HasNamespace(ir) && !GrantsMounts(al))
  {
    MountNumbers(sys, nr);
  }

  lemma {:induction false} NotifiedIff(ir: Ir, al: Allowlist, sys: Sys, nr: u32)
    ensures nr in NotifyNumbers(ir, al, sys) <==>
      (IsMount(sys, nr) && HasNamespace(ir) && GrantsMounts(al))
      || (IsOpen(sys, nr) && (GrantsPaths(al) || GrantsMounts(al)))
      || (ChangesDirectory(sys, nr) && |al.scratch| + |al.exports| > 0)
  {
    MountNumbers(sys, nr);
    BrokeredIff(al, sys, nr);
  }

  lemma {:induction false} DenyCountIs(ir: Ir, al: Allowlist, sys: Sys)
    ensures |DenyNumbers(ir, al, sys)| == DenyCount(ir, al)
  {
  }

  /** The two plans, as filters, decide every call as they must. */
  lemma {:induction false} FiltersDecide(ir: Ir, al: Allowlist, sys: Sys, nr: u32)
    requires Distinct(sys) && DenyCount(ir, al) <= 32
    ensures |DenyNumbers(ir, al, sys)| == DenyCount(ir, al) && |NotifyNumbers(ir, al, sys)| <= 16
    ensures Decide(FiltersFor(DenyNumbers(ir, al, sys), DenyErrno(ir), NotifyNumbers(ir, al, sys)), nr)
         == Some(Verdict(ir, al, sys, nr))
  {
    DenyCountIs(ir, al, sys);
    ChildSees(ir, al, sys, nr);
    KindsAreApart(sys, nr);
    DeniedIff(ir, al, sys, nr);
    NotifiedIff(ir, al, sys, nr);
  }

  ghost predicate AllDecided(ir: Ir, al: Allowlist, sys: Sys, filters: seq<Program>) {
    forall nr: u32 :: Decide(filters, nr) == Some(Verdict(ir, al, sys, nr))
  }

  lemma {:induction false} FiltersDecideAll(ir: Ir, al: Allowlist, sys: Sys, deny: Numbers, notify: Numbers, filters: seq<Program>)
    requires Distinct(sys) && DenyCount(ir, al) <= 32
    requires deny == DenyNumbers(ir, al, sys) && notify == NotifyNumbers(ir, al, sys)
    requires filters == FiltersFor(deny, DenyErrno(ir), notify)
    ensures AllDecided(ir, al, sys, filters)
  {
    forall nr: u32 ensures Decide(filters, nr) == Some(Verdict(ir, al, sys, nr)) {
      FiltersDecide(ir, al, sys, nr);
    }
  }

  /** The seccomp side of landlockd_run_policy_ir: the plans are built, and the child
      installs them. rulesets is the number of Landlock rulesets it enforces. */
  method Confine(ir: Ir, al: Allowlist, sys: Sys, rulesets: nat, process: Process) returns (r: Result<()>)
    requires process.filters == [] && forall i :: 0 <= i < |ir.deny| ==> ir.deny[i] < 0x8000_0000
    modifies process
    ensures DenyCount(ir, al) > 32 ==> r == Err(ENOSPC) && process.filters == []
    ensures DenyCount(ir, al) <= 32 ==> (r.Ok? <==> Quiet(process.failures, old(process.calls), process.calls))
    ensures r.Ok? && Distinct(sys) ==> AllDecided(ir, al, sys, process.filters)
  {
    DenyCountIs(ir, al, sys);
    var notify := new Plan();
    var deny := new Plan();
    r := BuildPlans(ir, al, sys, notify, deny);
    if r.Err? {
      return;
    }
    r := ApplyInChild(notify, deny, DenyErrno(ir), OpenBroker(al), rulesets, process);
    if r.Ok? && Distinct(sys) {
      FiltersDecideAll(ir, al, sys, deny.Contents(), notify.Contents(), process.filters);
    }
  }
}
