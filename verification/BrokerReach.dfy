/** Every request that the broker would serve is one that the filters hand to it. */
module BrokerReach {
  import opened Bpf
  import opened BrokerEnv
  import opened BrokerInit
  import opened BrokerLog
  import opened BrokerMeaning
  import opened BrokerSpec
  import opened Bytes
  import opened Fifo
  import opened PolicyIr
  import opened SeccompMeaning
  import opened SeccompPlans

  /** The number of the call that a request stands for. */
  function NumberOf(sys: Sys, r: Request): u32
    requires !r.OtherCall?
  {
    match r
    case OpenAt(_, _, _, _) => sys.openat
    case OpenAt2(_, _, _) => sys.openat2
    case MkdirAt(_, _, _) => sys.mkdirat
    case UnlinkAt(_, _, _) => sys.unlinkat
    case RenameAt2(_, _, _, _, _) => sys.renameat2
    case SymlinkAt(_, _, _) => sys.symlinkat
    case LinkAt(_, _, _, _, _) => sys.linkat
    case Mount(_, _, _, _, _) => sys.mount
    case Umount2(_, _) => sys.umount2
    case Fsopen(_, _) => sys.fsopen
    case Fsconfig(_, _, _, _, _) => sys.fsconfig
    case Fsmount(_, _, _) => sys.fsmount
    case OpenTree(_, _, _) => sys.openTree
    case MoveMount(_, _, _, _, _) => sys.moveMount
    case MountSetattr(_, _, _, _) => sys.mountSetattr
  }

  /** A create grant needs an fsopen grant, and that a rule. */
  lemma {:induction false} LeasesNeedObjects(al: Allowlist, log: Log, fd: int)
    requires LawfulLog(al, log) && Pending(FsOps(log), fd) != []
    ensures al.objects != []
  {
    LawfulOps(al, log);
    Conservation(FsOps(log), fd);
    var j := SomeAdd(FsOps(log), fd);
    FitsAt(al, log, j);
  }

  lemma {:induction false} SomeAdd(ops: seq<Op<Str>>, fd: int) returns (j: nat)
    requires Added(ops, fd) != []
    ensures j < |ops| && ops[j].Add?
  {
    var n := |ops| - 1;
    if ops[n].Add? {
      j := n;
    } else {
      j := SomeAdd(ops[..n], fd);
    }
  }

  lemma {:induction false} OpensNeedPaths(al: Allowlist, log: Log, k: Kernel, r: Request, e: Event)
    requires Work(al, log, k, r, e) && (r.OpenAt? || r.OpenAt2?)
    ensures GrantsPaths(al)
  {
  }

  lemma {:induction false} ChangesNeedScratch(al: Allowlist, log: Log, k: Kernel, r: Request, e: Event)
    requires Work(al, log, k, r, e)
    requires r.MkdirAt? || r.UnlinkAt? || r.RenameAt2? || r.SymlinkAt? || r.LinkAt?
    ensures al.scratch != []
  {
  }

  predicate IsMountRequest(r: Request) {
    || r.Mount? || r.Umount2? || r.Fsopen? || r.Fsconfig? || r.Fsmount? || r.OpenTree? || r.MoveMount?
    || r.MountSetattr?
  }

  lemma {:induction false} MountsNeedGrants(al: Allowlist, log: Log, k: Kernel, r: Request, e: Event)
    requires LawfulLog(al, log) && Work(al, log, k, r, e) && IsMountRequest(r)
    ensures GrantsMounts(al)
  {
    if r.Fsconfig? {
      LeasesNeedObjects(al, log, r.fd);
    }
  }

  /** The allowlist grants what requests of this kind need. */
  predicate NeedsAreMet(al: Allowlist, r: Request) {
    if r.OpenAt? || r.OpenAt2? then GrantsPaths(al)
    else if IsMountRequest(r) then GrantsMounts(al)
    else !r.OtherCall? && al.scratch != []
  }

  lemma {:induction false} SuccessNeedsGrants(al: Allowlist, log: Log, k: Kernel, r: Request)
    requires LawfulLog(al, log) && !OutcomeOf(al, log, r, k).reply.Errno?
    ensures NeedsAreMet(al, r)
  {
    AnswerIsService(al, log, k, r);
    var e :| Work(al, log, k, r, e);
    if r.OpenAt? || r.OpenAt2? {
      OpensNeedPaths(al, log, k, r, e);
    } else if IsMountRequest(r) {
      MountsNeedGrants(al, log, k, r, e);
    } else {
      ChangesNeedScratch(al, log, k, r, e);
    }
  }

  lemma {:induction false} MetNeedsAreNotified(realpath: RealPath, ir: Ir, al: Allowlist, sys: Sys, r: Request)
    requires BuiltFrom(realpath, ir, al) && Distinct(sys) && NeedsAreMet(al, r) && !r.OtherCall?
    ensures var nr := NumberOf(sys, r);
      !(ir.seccompEnabled && nr in ir.deny) ==> Verdict(ir, al, sys, nr) == RET_USER_NOTIF
  {
    KindsAreApart(sys, NumberOf(sys, r));
  }

  /** Whenever a request would succeed after a lawful history, the filters hand its
      call to the broker, unless the policy denies that call outright. */
  lemma {:induction false} SucceedingCallsAreNotified(realpath: RealPath, ir: Ir, al: Allowlist, sys: Sys,
                                                      log: Log, k: Kernel, r: Request)
    requires BuiltFrom(realpath, ir, al) && Distinct(sys) && LawfulLog(al, log)
    requires !OutcomeOf(al, log, r, k).reply.Errno?
    ensures !r.OtherCall?
    ensures var nr := NumberOf(sys, r);
      !(ir.seccompEnabled && nr in ir.deny) ==> Verdict(ir, al, sys, nr) == RET_USER_NOTIF
  {
    SuccessNeedsGrants(al, log, k, r);
    MetNeedsAreNotified(realpath, ir, al, sys, r);
  }
}
