/** The broker: lease tables updated in place, one handler per syscall, and
    the loop that serves notifications. Every action handed to the kernel and
    every change of a lease table is recorded in a ghost log. */
module Broker {
  import opened Bytes
  import opened BitFacts
  import opened Paths
  import opened PolicyIr
  import opened Fifo
  import opened BrokerLog
  import opened BrokerEnv
  import opened BrokerSpec
  import opened BrokerTables

  // ----- scans that only read

  /** landlockd_broker_addfd_allowed. */
  method ScanAddfd(al: Allowlist, action: Str, target: Str, mode: Option<Str>) returns (r: bool)
    ensures r == AddfdAllowed(al, action, target, mode)
  {
    for i := 0 to |al.addfd|
      invariant forall j :: 0 <= j < i ==>
        !(al.addfd[j].action == action && ModeMatches(al.addfd[j], mode) && IsUnder(al.addfd[j].target, target))
    {
      var rule := al.addfd[i];
      if rule.action != action {
        continue;
      }
      if mode.Some? && rule.mode.Some? && rule.mode != mode {
        continue;
      }
      if IsUnder(rule.target, target) {
        return true;
      }
    }
    return false;
  }

  /** landlockd_broker_mount_object_addfd_covers_action. */
  method ScanCovers(al: Allowlist, action: Str, rule: ObjectRule) returns (r: bool)
    ensures r == AddfdCovers(al, action, rule)
  {
    if |rule.attach| == 0 {
      return false;
    }
    for i := 0 to |rule.attach|
      invariant forall j :: 0 <= j < i ==> AddfdAllowed(al, action, rule.attach[j], None)
    {
      var ok := ScanAddfd(al, action, rule.attach[i], None);
      if !ok {
        return false;
      }
    }
    return true;
  }

  /** landlockd_broker_path_in_list. */
  method ScanList(paths: seq<Str>, path: Str) returns (r: bool)
    ensures r <==> path in paths
  {
    for i := 0 to |paths|
      invariant path !in paths[..i]
    {
      if paths[i] == path {
        return true;
      }
    }
    return false;
  }

  /** landlockd_broker_path_under_list. */
  method ScanUnder(roots: seq<Str>, path: Str) returns (r: bool)
    ensures r == UnderSome(roots, path)
  {
    for i := 0 to |roots|
      invariant forall j :: 0 <= j < i ==> !IsUnder(roots[j], path)
    {
      if IsUnder(roots[i], path) {
        return true;
      }
    }
    return false;
  }

  /** landlockd_broker_find_bind_mount_rule. */
  method ScanBind(rules: seq<BindRule>, source: Str, target: Str) returns (r: Option<BindRule>)
    ensures r == FirstBind(rules, source, target)
  {
    for i := 0 to |rules|
      invariant FirstBind(rules[i..], source, target) == FirstBind(rules, source, target)
    {
      if rules[i].source == source && rules[i].target == target {
        return Some(rules[i]);
      }
      assert rules[i..][1..] == rules[i + 1..];
    }
    return None;
  }

  /** landlockd_broker_find_mount_object_rule. */
  method ScanObject(rules: seq<ObjectRule>, name: Str) returns (r: Option<ObjectRule>)
    ensures r == FirstObject(rules, name)
  {
    for i := 0 to |rules|
      invariant FirstObject(rules[i..], name) == FirstObject(rules, name)
    {
      if rules[i].name == name {
        return Some(rules[i]);
      }
      assert rules[i..][1..] == rules[i + 1..];
    }
    return None;
  }

  /** landlockd_broker_find_mount_object_rule_for_target. */
  method ScanObjectFor(rules: seq<ObjectRule>, target: Str) returns (r: Option<ObjectRule>)
    ensures r == FirstObjectFor(rules, target)
  {
    for i := 0 to |rules|
      invariant FirstObjectFor(rules[i..], target) == FirstObjectFor(rules, target)
    {
      var found := ScanList(rules[i].attach, target);
      if found {
        return Some(rules[i]);
      }
      assert rules[i..][1..] == rules[i + 1..];
    }
    return None;
  }

  /** landlockd_broker_bind_target_in_list. */
  method ScanBindTarget(rules: seq<BindRule>, target: Str) returns (r: bool)
    ensures r <==> exists i :: 0 <= i < |rules| && rules[i].target == target
  {
    for i := 0 to |rules|
      invariant forall j :: 0 <= j < i ==> rules[j].target != target
    {
      if rules[i].target == target {
        return true;
      }
    }
    return false;
  }

  /** landlockd_broker_handle_open_tree_request's scan of bind sources. */
  method ScanBindSource(rules: seq<BindRule>, source: Str) returns (r: bool)
    ensures r <==> exists i :: 0 <= i < |rules| && rules[i].source == source
  {
    for i := 0 to |rules|
      invariant forall j :: 0 <= j < i ==> rules[j].source != source
    {
      if rules[i].source == source {
        return true;
      }
    }
    return false;
  }

  lemma {:induction false} FitsScratchOpened(al: Allowlist, log: Log, parent: Str, base: Str, access: nat,
                                            bits: set<nat>, mode: nat)
    requires O_NOFOLLOW_BIT in bits && O_CLOEXEC_BIT in bits
    requires CanonicalAllowlist(al) && Canonical(parent) && ValidName(base) && Confined(al.scratch, parent)
    requires JoinPath(parent, base, PATH_MAX).Ok?
    requires AddfdAllowed(al, SCRATCH_OPEN, JoinPath(parent, base, PATH_MAX).value, Some(ModeName(access)))
    ensures Fits(al, log, ScratchOpened(parent, base, access, bits, mode))
  {
    ComponentsOfJoin(parent, base, PATH_MAX);
    AddfdAllowedGoverns(al, SCRATCH_OPEN, JoinPath(parent, base, PATH_MAX).value, Some(ModeName(access)));
  }

  lemma {:induction false} FitsOpened(al: Allowlist, log: Log, path: Str, access: nat, bits: set<nat>)
    requires O_CLOEXEC_BIT in bits
    requires CanonicalAllowlist(al) && Canonical(path) && (path in al.write || (access == 0 && path in al.read))
    requires AddfdAllowed(al, OPEN, path, Some(ModeName(access)))
    ensures Fits(al, log, Opened(path, access, bits))
  {
    AddfdAllowedGoverns(al, OPEN, path, Some(ModeName(access)));
  }

  lemma {:induction false} FitsTreeOpened(al: Allowlist, log: Log, source: Str)
    requires CanonicalAllowlist(al) && Canonical(source)
    requires exists i :: 0 <= i < |al.bind| && al.bind[i].source == source
    requires AddfdAllowed(al, OPEN_TREE, source, None)
    ensures Fits(al, log, TreeOpened(source))
  {
    AddfdAllowedGoverns(al, OPEN_TREE, source, None);
  }

  lemma {:induction false} FitsFsopenLease(al: Allowlist, log: Log, fd: int, name: Str)
    requires CanonicalAllowlist(al) && FirstObject(al.objects, name).Some?
    requires AddfdCovers(al, FSOPEN, FirstObject(al.objects, name).value)
    ensures Fits(al, log, FsopenLease(fd, name))
  {
    AddfdCoversGoverns(al, FSOPEN, name);
  }

  lemma {:induction false} FitsFsMounted(al: Allowlist, log: Log, fd: int, name: Str, attrs: nat)
    requires CanonicalAllowlist(al) && FirstObject(al.objects, name).Some?
    requires EndsWith(log, FsTaken(fd, name, true))
    requires Bits(attrs) <= Bits(FirstObject(al.objects, name).value.attrs % 0x1_0000_0000)
    requires AddfdCovers(al, FSMOUNT, FirstObject(al.objects, name).value)
    ensures Fits(al, log, FsMounted(fd, name, FirstObject(al.objects, name).value.fsType, attrs))
  {
    LowBits(FirstObject(al.objects, name).value.attrs);
    AddfdCoversGoverns(al, FSMOUNT, name);
  }

  /** The last event is the grant that a lease of this kind and value needs. */
  ghost predicate LeaseReady(log: Log, kind: Kind, value: Str) {
    match kind
    case SOURCE => EndsWith(log, TreeOpened(value))
    case OBJECT => EndsMounted(log, value)
  }

  lemma {:induction false} CanonicalNonempty(p: Str)
    requires Canonical(p)
    ensures p != []
  {
    RenderStart(Components(p));
  }

  function OldestLease(q: seq<FsLease>): Oldest {
    if q == [] then None else Some((q[0].name, q[0].created))
  }

  function First<T>(q: seq<T>): Option<T> {
    if q == [] then None else Some(q[0])
  }

  /** The tables answer as the history does. */
  lemma {:induction false} TablesAnswer(al: Allowlist, fs: seq<FsLease>, mounts: seq<MountLease>, log: Log, fd: int)
    requires Sound(al, fs, mounts, log)
    ensures OldestLease(FsQueue(fs, fd)) == OldestFs(log, fd) && First(MountQueue(mounts, fd)) == OldestMount(log, fd)
  {
    assert FsAgrees(fs, log, fd) && MountAgrees(mounts, log, fd);
  }

  class Server {
    const al: Allowlist
    var fsLeases: seq<FsLease>
    var mountLeases: seq<MountLease>
    ghost var log: Log
    ghost var delivered: seq<Delivery>

    ghost predicate Valid()
      reads this`fsLeases, this`mountLeases, this`log
    {
      Sound(al, fsLeases, mountLeases, log)
    }

    constructor (al: Allowlist)
      requires CanonicalAllowlist(al)
      ensures Valid() && this.al == al
      ensures fsLeases == [] && mountLeases == [] && log == [] && delivered == []
    {
      this.al := al;
      fsLeases, mountLeases, log, delivered := [], [], [], [];
      new;
      forall fd ensures FsAgrees(fsLeases, log, fd) && MountAgrees(mountLeases, log, fd) {
      }
    }

    // ----- the log

    /** An action that touches no lease table. */
    ghost method Record(e: Event)
      requires Valid() && Fits(al, log, e)
      requires FsOp(e) == Skip && CreateOp(e) == Skip && MountOp(e) == Skip
      modifies this`log
      ensures Valid() && log == old(log) + [e] && EndsWith(log, e)
      ensures e.FsMounted? ==> EndsMounted(log, e.name)
    {
      SoundAfterSkip(al, fsLeases, mountLeases, log, e);
      log := log + [e];
    }

    // ----- lease tables

    /** landlockd_broker_fsopen_lease_add. */
    method AddFsLease(fd: int, name: Str, memory: bool) returns (ok: bool)
      requires Valid() && Fits(al, log, FsopenLease(fd, name)) && name != [] && fd >= 0
      modifies this`fsLeases, this`log
      ensures Valid() && ok == memory
      ensures log == if ok then old(log) + [FsopenLease(fd, name)] else old(log)
      ensures fsLeases == if ok then old(fsLeases) + [FsLease(fd, false, name)] else old(fsLeases)
    {
      if !memory {
        return false;
      }
      SoundAfterAddFs(al, fsLeases, mountLeases, log, fd, name);
      fsLeases := fsLeases + [FsLease(fd, false, name)];
      log := log + [FsopenLease(fd, name)];
      return true;
    }

    /** landlockd_broker_fsopen_lease_find: the index of the first match, or -1. */
    method FindFsLease(fd: int) returns (at: int)
      ensures -1 <= at < |fsLeases|
      ensures at < 0 <==> FsQueue(fsLeases, fd) == []
      ensures at >= 0 ==> fsLeases[at].fd == fd && FirstLease(fsLeases, at)
      ensures at >= 0 ==> fsLeases[at] == FsQueue(fsLeases, fd)[0]
    {
      for i := 0 to |fsLeases|
        invariant forall j :: 0 <= j < i ==> fsLeases[j].fd != fd
      {
        if fsLeases[i].fd == fd {
          QueueAfterTake(fsLeases, i, fd);
          return i;
        }
      }
      NoneForKey(FsEntries(fsLeases), fd);
      return -1;
    }

    /** lease->created = 1 on the lease that fsopen_lease_find returned. */
    method MarkCreated(at: nat)
      requires Valid() && FirstLease(fsLeases, at) && !fsLeases[at].created
      modifies this`fsLeases, this`log
      ensures Valid()
      ensures log == old(log) + [FsconfigCreate(old(fsLeases)[at].fd, old(fsLeases)[at].name)]
      ensures fsLeases == old(fsLeases)[at := old(fsLeases)[at].(created := true)]
    {
      SoundAfterCreate(al, fsLeases, mountLeases, log, at);
      log := log + [FsconfigCreate(fsLeases[at].fd, fsLeases[at].name)];
      fsLeases := fsLeases[at := fsLeases[at].(created := true)];
    }

    /** Shift the entry out of the table. */
    method RemoveFsLease(at: nat)
      requires Valid() && FirstLease(fsLeases, at)
      modifies this`fsLeases, this`log
      ensures Valid() && fsLeases == Without(old(fsLeases), at)
      ensures var lease := old(fsLeases)[at]; log == old(log) + [FsTaken(lease.fd, lease.name, lease.created)]
    {
      var lease := fsLeases[at];
      SoundAfterTakeFs(al, fsLeases, mountLeases, log, at);
      fsLeases, log := Without(fsLeases, at), log + [FsTaken(lease.fd, lease.name, lease.created)];
    }

    /** landlockd_broker_fsopen_lease_take. */
    method TakeFsLease(fd: int) returns (lease: Option<FsLease>)
      requires Valid()
      modifies this`fsLeases, this`log
      ensures Valid()
      ensures lease == First(FsQueue(old(fsLeases), fd))
      ensures lease.None? ==> log == old(log) && fsLeases == old(fsLeases)
      ensures lease.Some? ==> log == old(log) + [FsTaken(fd, lease.value.name, lease.value.created)]
      ensures lease.Some? ==> FsShifted(old(fsLeases), fsLeases, fd)
    {
      var at := FindFsLease(fd);
      if at < 0 {
        return None;
      }
      lease := Some(fsLeases[at]);
      RemoveFsLease(at);
    }

    /** landlockd_broker_mount_fd_lease_add. */
    method AddMountLease(fd: int, kind: Kind, value: Str, memory: bool) returns (ok: bool)
      requires Valid() && Fits(al, log, LeaseAdded(fd, kind, value)) && fd >= 0
      modifies this`mountLeases, this`log
      ensures Valid() && ok == (memory && value != [])
      ensures log == if ok then old(log) + [LeaseAdded(fd, kind, value)] else old(log)
      ensures mountLeases == if ok then old(mountLeases) + [MountLease(fd, kind, value)] else old(mountLeases)
    {
      if value == [] || !memory {
        return false;
      }
      SoundAfterAddMount(al, fsLeases, mountLeases, log, MountLease(fd, kind, value));
      mountLeases := mountLeases + [MountLease(fd, kind, value)];
      log := log + [LeaseAdded(fd, kind, value)];
      return true;
    }

    /** landlockd_broker_mount_fd_lease_take. */
    method TakeMountLease(fd: int) returns (lease: Option<MountLease>)
      requires Valid()
      modifies this`mountLeases, this`log
      ensures Valid()
      ensures lease.None? <==> MountQueue(old(mountLeases), fd) == []
      ensures lease.None? ==> log == old(log) && mountLeases == old(mountLeases)
      ensures lease.Some? ==> (lease.value.kind, lease.value.value) == MountQueue(old(mountLeases), fd)[0]
      ensures lease.Some? ==> log == old(log) + [LeaseTaken(fd, lease.value.kind, lease.value.value)]
      ensures lease.Some? ==> EndsWith(log, LeaseTaken(fd, lease.value.kind, lease.value.value))
      ensures lease.Some? ==> MountShifted(old(mountLeases), mountLeases, fd)
    {
      for i := 0 to |mountLeases|
        invariant mountLeases == old(mountLeases) && log == old(log)
        invariant forall j :: 0 <= j < i ==> mountLeases[j].fd != fd
      {
        if mountLeases[i].fd == fd {
          lease := Some(mountLeases[i]);
          MountQueueAfterTake(mountLeases, i, fd);
          SoundAfterTakeMount(al, fsLeases, mountLeases, log, i);
          log := log + [LeaseTaken(fd, mountLeases[i].kind, mountLeases[i].value)];
          assert FirstMount(mountLeases, i);
          mountLeases := Without(mountLeases, i);
          return;
        }
      }
      NoneForKey(MountEntries(mountLeases), fd);
      return None;
    }

    // ----- replies

    /** One SECCOMP_IOCTL_NOTIF_SEND: a lost notification is not an error. */
    method Deliver(id: int, outcome: Result<()>, reply: Reply) returns (rc: int)
      modifies this`delivered
      ensures OneDelivery(old(delivered), delivered, id, rc)
      ensures rc == 0 && delivered[|old(delivered)|].Answer? ==> delivered[|old(delivered)|].reply == reply
      ensures outcome.Ok? ==> delivered == old(delivered) + [Answer(id, reply)]
      ensures rc == 0 <==> outcome.Ok? || KernelLostIt(outcome.errno)
    {
      match outcome
      case Ok(_) =>
        delivered := delivered + [Answer(id, reply)];
        return 0;
      case Err(e) =>
        if KernelLostIt(e) {
          delivered := delivered + [Gone(id)];
          return 0;
        }
        return -1;
    }

    /** landlockd_broker_send_errno. */
    method SendErrno(id: int, k: Kernel, errno: int) returns (rc: int)
      modifies this`delivered
      ensures OneDelivery(old(delivered), delivered, id, rc) && Told(old(delivered), delivered, Errno(errno))
    {
      rc := Deliver(id, k.send, Errno(errno));
    }

    /** landlockd_broker_send_success. */
    method SendSuccess(id: int, k: Kernel) returns (rc: int)
      modifies this`delivered
      ensures OneDelivery(old(delivered), delivered, id, rc) && Told(old(delivered), delivered, Success)
    {
      rc := Deliver(id, k.send, Success);
    }

    /** landlockd_broker_reply_addfd: one atomic ioctl where the kernel has it,
        otherwise inject the descriptor and then send its number. */
    method ReplyAddfd(id: int, k: Kernel, cloexec: bool) returns (rc: int, remote: int, errno: int)
      modifies this`delivered
      ensures OneDelivery(old(delivered), delivered, id, rc)
      ensures rc == 0 ==> remote == if LeasedFd(k).Some? then LeasedFd(k).value else -1
      ensures rc == 0 && delivered[|old(delivered)|].Answer? ==>
        LeasedFd(k).Some? && delivered[|old(delivered)|].reply == Descriptor(LeasedFd(k).value, cloexec)
      ensures rc < 0 ==> LeasedFd(k).None? && errno == AddfdErrno(k)
    {
      remote, errno := -1, 0;
      match k.addfdSend
      case Ok(fd) =>
        delivered := delivered + [Answer(id, Descriptor(fd, cloexec))];
        return 0, fd, 0;
      case Err(e) =>
        if e != EINVAL {
          if KernelLostIt(e) {
            delivered := delivered + [Gone(id)];
            return 0, -1, e;
          }
          return -1, -1, e;
        }
        match k.addfdPlain
        case Err(e2) =>
          if KernelLostIt(e2) {
            delivered := delivered + [Gone(id)];
            return 0, -1, e2;
          }
          return -1, -1, e2;
        case Ok(fd) =>
          remote := fd;
          rc := Deliver(id, k.sendValue, Descriptor(fd, cloexec));
          if rc < 0 {
            errno := k.sendValue.errno;
          }
    }

    /** The end of a handler whose operation has no result to hand over. */
    method Finish(id: int, k: Kernel) returns (rc: int)
      modifies this`delivered
      ensures OneDelivery(old(delivered), delivered, id, rc) && Told(old(delivered), delivered, StatusReply(k))
    {
      if k.operation.Err? {
        rc := SendErrno(id, k, k.operation.errno);
        return;
      }
      rc := SendSuccess(id, k);
    }

    /** The end of a handler whose operation opened a descriptor. */
    method FinishWithFd(id: int, k: Kernel, cloexec: bool) returns (rc: int)
      modifies this`delivered
      ensures OneDelivery(old(delivered), delivered, id, rc) && Told(old(delivered), delivered, FdReply(k, cloexec))
    {
      if k.operation.Err? {
        rc := SendErrno(id, k, k.operation.errno);
        return;
      }
      var remote, errno;
      rc, remote, errno := ReplyAddfd(id, k, cloexec);
      if rc < 0 {
        rc := SendErrno(id, k, errno);
      }
    }

    /** The end of fsmount and open_tree: inject the descriptor and lease it. */
    method FinishWithLease(id: int, kind: Kind, value: Str, k: Kernel, cloexec: bool) returns (rc: int)
      requires Valid() && LeaseReady(log, kind, value)
      modifies this`mountLeases, this`log, this`delivered
      ensures Valid() && OneDelivery(old(delivered), delivered, id, rc)
      ensures log == old(log) + LeaseEvents(k, kind, value) && Told(old(delivered), delivered, FdReply(k, cloexec))
    {
      if k.operation.Err? {
        rc := SendErrno(id, k, k.operation.errno);
        return;
      }
      var remote, errno;
      rc, remote, errno := ReplyAddfd(id, k, cloexec);
      if rc < 0 {
        rc := SendErrno(id, k, errno);
        return;
      }
      if remote >= 0 {
        assert Fits(al, log, LeaseAdded(remote, kind, value));
        var added := AddMountLease(remote, kind, value, k.memory);
      }
    }

    // ----- file-system handlers

    /** landlockd_broker_handle_scratch_open. */
    method HandleScratchOpen(id: int, dirfd: int, path: Ptr, flags: u64, mode: u64, resolve: u64, k: Kernel)
      returns (rc: int)
      requires Valid() && ValidKernel(k) && ValidPtr(path)
      modifies this`log, this`delivered
      ensures Valid() && OneDelivery(old(delivered), delivered, id, rc)
      ensures Achieved(old(log), log, old(delivered), delivered,
        ScratchOpenOutcome(al, k, dirfd, path, flags, mode, resolve))
    {
      var access := flags % 4;
      if access == 3 || resolve != 0 || !(Bits(flags) <= SCRATCH_OPEN_BITS) {
        rc := SendErrno(id, k, EACCES);
        return;
      }
      if !Bit(flags, O_CREAT_BIT) && mode != 0 {
        rc := SendErrno(id, k, EACCES);
        return;
      }
      var target := ScratchParent(dirfd, path, k);
      if target.Err? {
        rc := SendErrno(id, k, target.errno);
        return;
      }
      var (parent, base) := target.value;
      var canonicalPath := JoinPath(parent, base, PATH_MAX).value;
      var allowed := ScanAddfd(al, SCRATCH_OPEN, canonicalPath, Some(ModeName(access)));
      if !allowed {
        rc := SendErrno(id, k, EACCES);
        return;
      }
      if k.openParent.Err? {
        rc := SendErrno(id, k, k.openParent.errno);
        return;
      }
      ghost var bits := Bits(flags) + {O_CLOEXEC_BIT, O_NOFOLLOW_BIT};
      FitsScratchOpened(al, log, parent, base, access, bits, mode % 0x1_0000_0000);
      Record(ScratchOpened(parent, base, access, bits, mode % 0x1_0000_0000));
      rc := FinishWithFd(id, k, Bit(flags, O_CLOEXEC_BIT));
    }

    /** The opening moves of mkdir, unlink, symlink and scratch opens: read the
        path, resolve its parent, join, and test the scratch roots. */
    method ScratchParent(dirfd: int, path: Ptr, k: Kernel) returns (r: Result<(Str, Str)>)
      requires Valid() && ValidKernel(k) && ValidPtr(path)
      ensures r == ScratchTarget(al, k, dirfd, path)
      ensures r.Ok? ==> Canonical(r.value.0) && ValidName(r.value.1) && Confined(al.scratch, r.value.0)
      ensures r.Ok? ==> JoinPath(r.value.0, r.value.1, PATH_MAX).Ok?
    {
      var requested := ReadString(path, PATH_MAX);
      if requested.Err? {
        return Err(requested.errno);
      }
      var resolved := ResolveParent(k, dirfd, requested.value);
      if resolved.Err? {
        return Err(resolved.errno);
      }
      ResolvedParent(k, dirfd, requested.value);
      var (parent, base) := resolved.value;
      if JoinPath(parent, base, PATH_MAX).Err? {
        return Err(ENAMETOOLONG);
      }
      var under := ScanUnder(al.scratch, parent);
      if !under {
        return Err(EACCES);
      }
      UnderSomeConfined(al.scratch, parent);
      return Ok((parent, base));
    }

    /** landlockd_broker_handle_mkdir_request. */
    method HandleMkdir(id: int, dirfd: int, path: Ptr, mode: u32, k: Kernel) returns (rc: int)
      requires Valid() && ValidKernel(k) && ValidPtr(path)
      modifies this`log, this`delivered
      ensures Valid() && OneDelivery(old(delivered), delivered, id, rc)
      ensures Achieved(old(log), log, old(delivered), delivered,
        MkdirOutcome(al, k, dirfd, path, mode))
    {
      var target := ScratchParent(dirfd, path, k);
      if target.Err? {
        rc := SendErrno(id, k, target.errno);
        return;
      }
      if k.openParent.Err? {
        rc := SendErrno(id, k, k.openParent.errno);
        return;
      }
      Record(MadeDir(target.value.0, target.value.1, mode));
      rc := Finish(id, k);
    }

    /** landlockd_broker_handle_unlink_request. */
    method HandleUnlink(id: int, dirfd: int, path: Ptr, flags: int, k: Kernel) returns (rc: int)
      requires Valid() && ValidKernel(k) && ValidPtr(path)
      modifies this`log, this`delivered
      ensures Valid() && OneDelivery(old(delivered), delivered, id, rc)
      ensures Achieved(old(log), log, old(delivered), delivered,
        UnlinkOutcome(al, k, dirfd, path, flags))
    {
      if flags != 0 && flags != AT_REMOVEDIR {
        rc := SendErrno(id, k, EACCES);
        return;
      }
      var target := ScratchParent(dirfd, path, k);
      if target.Err? {
        rc := SendErrno(id, k, target.errno);
        return;
      }
      if k.openParent.Err? {
        rc := SendErrno(id, k, k.openParent.errno);
        return;
      }
      Record(Removed(target.value.0, target.value.1, flags));
      rc := Finish(id, k);
    }

    /** landlockd_broker_handle_symlink_request. */
    method HandleSymlink(id: int, text: Ptr, dirfd: int, path: Ptr, k: Kernel) returns (rc: int)
      requires Valid() && ValidKernel(k) && ValidPtr(path) && ValidPtr(text)
      modifies this`log, this`delivered
      ensures Valid() && OneDelivery(old(delivered), delivered, id, rc)
      ensures Achieved(old(log), log, old(delivered), delivered,
        SymlinkOutcome(al, k, text, dirfd, path))
    {
      var content := ReadString(text, PATH_MAX);
      if content.Err? {
        rc := SendErrno(id, k, content.errno);
        return;
      }
      var target := ScratchParent(dirfd, path, k);
      if target.Err? {
        rc := SendErrno(id, k, target.errno);
        return;
      }
      if k.openParent.Err? {
        rc := SendErrno(id, k, k.openParent.errno);
        return;
      }
      Record(Symlinked(content.value, target.value.0, target.value.1));
      rc := Finish(id, k);
    }

    /** The shared body of the rename and link handlers up to the syscall. */
    method ScratchToPublic(dirfd: int, path: Ptr, newDirfd: int, newPath: Ptr, k: Kernel)
      returns (r: Result<(Str, Str, Str, Str)>)
      requires Valid() && ValidKernel(k) && ValidPtr(path) && ValidPtr(newPath)
      ensures r == ScratchPair(al, k, dirfd, path, newDirfd, newPath)
      ensures r.Ok? ==>
        var (parent, base, newParent, newBase) := r.value;
        && Canonical(parent) && Canonical(newParent) && ValidName(base) && ValidName(newBase)
        && JoinPath(parent, base, PATH_MAX).Ok? && JoinPath(newParent, newBase, PATH_MAX).Ok?
        && Confined(al.scratch, parent)
        && (Confined(al.scratch, newParent) || Confined(al.exports, newParent))
    {
      var requested := ReadString(path, PATH_MAX);
      if requested.Err? {
        return Err(requested.errno);
      }
      var newRequested := ReadString(newPath, PATH_MAX);
      if newRequested.Err? {
        return Err(newRequested.errno);
      }
      var resolved := ResolveParent(k, dirfd, requested.value);
      if resolved.Err? {
        return Err(resolved.errno);
      }
      var newResolved := ResolveParent(k, newDirfd, newRequested.value);
      if newResolved.Err? {
        return Err(newResolved.errno);
      }
      ResolvedParent(k, dirfd, requested.value);
      ResolvedParent(k, newDirfd, newRequested.value);
      var (parent, base) := resolved.value;
      var (newParent, newBase) := newResolved.value;
      if JoinPath(parent, base, PATH_MAX).Err? || JoinPath(newParent, newBase, PATH_MAX).Err? {
        return Err(ENAMETOOLONG);
      }
      var fromScratch := ScanUnder(al.scratch, parent);
      var toScratch := ScanUnder(al.scratch, newParent);
      var toExport := ScanUnder(al.exports, newParent);
      if !fromScratch || (!toScratch && !toExport) {
        return Err(EACCES);
      }
      UnderSomeConfined(al.scratch, parent);
      if toScratch {
        UnderSomeConfined(al.scratch, newParent);
      } else {
        UnderSomeConfined(al.exports, newParent);
      }
      if k.openParent.Err? {
        return Err(k.openParent.errno);
      }
      if k.openNewParent.Err? {
        return Err(k.openNewParent.errno);
      }
      return Ok((parent, base, newParent, newBase));
    }

    /** landlockd_broker_handle_rename_request. */
    method HandleRename(id: int, dirfd: int, path: Ptr, newDirfd: int, newPath: Ptr, flags: u32, k: Kernel)
      returns (rc: int)
      requires Valid() && ValidKernel(k) && ValidPtr(path) && ValidPtr(newPath)
      modifies this`log, this`delivered
      ensures Valid() && OneDelivery(old(delivered), delivered, id, rc)
      ensures Achieved(old(log), log, old(delivered), delivered,
        RenameOutcome(al, k, dirfd, path, newDirfd, newPath, flags))
    {
      if flags != 0 && flags != RENAME_NOREPLACE {
        rc := SendErrno(id, k, EACCES);
        return;
      }
      var pair := ScratchToPublic(dirfd, path, newDirfd, newPath, k);
      if pair.Err? {
        rc := SendErrno(id, k, pair.errno);
        return;
      }
      var (parent, base, newParent, newBase) := pair.value;
      Record(Renamed(parent, base, newParent, newBase, flags));
      rc := Finish(id, k);
    }

    /** landlockd_broker_handle_link_request. */
    method HandleLink(id: int, dirfd: int, path: Ptr, newDirfd: int, newPath: Ptr, flags: int, k: Kernel)
      returns (rc: int)
      requires Valid() && ValidKernel(k) && ValidPtr(path) && ValidPtr(newPath)
      modifies this`log, this`delivered
      ensures Valid() && OneDelivery(old(delivered), delivered, id, rc)
      ensures Achieved(old(log), log, old(delivered), delivered,
        LinkOutcome(al, k, dirfd, path, newDirfd, newPath, flags))
    {
      if flags != 0 {
        rc := SendErrno(id, k, EACCES);
        return;
      }
      var pair := ScratchToPublic(dirfd, path, newDirfd, newPath, k);
      if pair.Err? {
        rc := SendErrno(id, k, pair.errno);
        return;
      }
      var (parent, base, newParent, newBase) := pair.value;
      Record(Linked(parent, base, newParent, newBase));
      rc := Finish(id, k);
    }

    /** landlockd_broker_handle_open_request, once the registers or the
        open_how structure have been read. */
    method HandleOpen(id: int, dirfd: int, path: Ptr, flags: u64, mode: u64, resolve: u64, k: Kernel)
      returns (rc: int)
      requires Valid() && ValidKernel(k) && ValidPtr(path)
      modifies this`log, this`delivered
      ensures Valid() && OneDelivery(old(delivered), delivered, id, rc)
      ensures Achieved(old(log), log, old(delivered), delivered,
        OpenOutcome(al, k, dirfd, path, flags, mode, resolve))
    {
      var access := flags % 4;
      if access == 3 || mode != 0 || resolve != 0 || !(Bits(flags) <= PLAIN_OPEN_BITS) {
        if |al.scratch| > 0 && Bits(flags) * CREAT_BITS != {} && Bits(flags) <= SCRATCH_OPEN_BITS {
          rc := HandleScratchOpen(id, dirfd, path, flags, mode, resolve, k);
          return;
        }
        rc := SendErrno(id, k, EACCES);
        return;
      }
      if access == 0 && Bits(flags) * WRITE_ONLY_BITS != {} {
        rc := SendErrno(id, k, EACCES);
        return;
      }
      var requested := ReadString(path, PATH_MAX);
      if requested.Err? {
        rc := SendErrno(id, k, requested.errno);
        return;
      }
      var resolved := Resolve(k, dirfd, requested.value);
      if resolved.Err? {
        rc := SendErrno(id, k, resolved.errno);
        return;
      }
      ResolvedPath(k, dirfd, requested.value);
      rc := OpenListed(id, resolved.value, dirfd, path, flags, mode, resolve, k);
    }

    /** The rest of landlockd_broker_handle_open_request: the read and write
        lists decide about the canonical path. */
    method OpenListed(id: int, canonicalPath: Str, dirfd: int, path: Ptr, flags: u64, mode: u64, resolve: u64, k: Kernel)
      returns (rc: int)
      requires Valid() && ValidKernel(k) && ValidPtr(path) && Canonical(canonicalPath) && flags % 4 != 3
      modifies this`log, this`delivered
      ensures Valid() && OneDelivery(old(delivered), delivered, id, rc)
      ensures Achieved(old(log), log, old(delivered), delivered,
        ListedOpenOutcome(al, k, canonicalPath, dirfd, path, flags, mode, resolve))
    {
      var access := flags % 4;
      var inRead := ScanList(al.read, canonicalPath);
      var inWrite := ScanList(al.write, canonicalPath);
      if !(inWrite || (access == 0 && inRead)) {
        if |al.scratch| > 0 {
          rc := HandleScratchOpen(id, dirfd, path, flags, mode, resolve, k);
          return;
        }
        rc := SendErrno(id, k, EACCES);
        return;
      }
      var allowed := ScanAddfd(al, OPEN, canonicalPath, Some(ModeName(access)));
      if !allowed {
        rc := SendErrno(id, k, EACCES);
        return;
      }
      FitsOpened(al, log, canonicalPath, access, Bits(flags) + {O_CLOEXEC_BIT});
      Record(Opened(canonicalPath, access, Bits(flags) + {O_CLOEXEC_BIT}));
      rc := FinishWithFd(id, k, Bit(flags, O_CLOEXEC_BIT));
    }

    // ----- mount handlers

    /** landlockd_broker_handle_fsopen_request. */
    method HandleFsopen(id: int, name: Ptr, flags: u32, k: Kernel) returns (rc: int)
      requires Valid() && ValidKernel(k) && ValidPtr(name)
      modifies this`fsLeases, this`log, this`delivered
      ensures Valid() && OneDelivery(old(delivered), delivered, id, rc)
      ensures Achieved(old(log), log, old(delivered), delivered,
        FsopenOutcome(al, k, name, flags))
    {
      var read := ReadString(name, 128);
      if read.Err? {
        rc := SendErrno(id, k, if name.Null? then Nonzero(k.staleErrno, EINVAL) else Nonzero(read.errno, EINVAL));
        return;
      }
      var objectName := read.value;
      if objectName == [] || !(Bits(flags) <= CLOEXEC_BITS) {
        rc := SendErrno(id, k, EACCES);
        return;
      }
      var rule := ScanObject(al.objects, objectName);
      if rule.None? {
        rc := SendErrno(id, k, EACCES);
        return;
      }
      var covers := ScanCovers(al, FSOPEN, rule.value);
      if !covers {
        rc := SendErrno(id, k, EACCES);
        return;
      }
      if k.operation.Err? {
        rc := SendErrno(id, k, k.operation.errno);
        return;
      }
      var remote, errno;
      rc, remote, errno := ReplyAddfd(id, k, Bit(flags, CLOEXEC_BIT));
      if rc < 0 {
        rc := SendErrno(id, k, errno);
        return;
      }
      if remote >= 0 {
        FitsFsopenLease(al, log, remote, objectName);
        var added := AddFsLease(remote, objectName, k.memory);
      }
    }

    /** landlockd_broker_handle_fsconfig_request. */
    method HandleFsconfig(id: int, fd: int, cmd: u32, key: u64, value: u64, aux: u64, k: Kernel) returns (rc: int)
      requires Valid()
      modifies this`fsLeases, this`log, this`delivered
      ensures Valid() && OneDelivery(old(delivered), delivered, id, rc)
      ensures Achieved(old(log), log, old(delivered), delivered,
        FsconfigOutcome(OldestLease(FsQueue(old(fsLeases), fd)), fd, cmd, key, value, aux))
    {
      var at := FindFsLease(fd);
      if at < 0 || cmd != FSCONFIG_CMD_CREATE || key != 0 || value != 0 || aux != 0 || fsLeases[at].created {
        rc := SendErrno(id, k, EACCES);
        return;
      }
      MarkCreated(at);
      rc := SendSuccess(id, k);
    }

    /** landlockd_broker_handle_fsmount_request. */
    method HandleFsmount(id: int, fd: int, flags: u32, attrs: u32, k: Kernel) returns (rc: int)
      requires Valid()
      modifies this`fsLeases, this`mountLeases, this`log, this`delivered
      ensures Valid() && OneDelivery(old(delivered), delivered, id, rc)
      ensures Achieved(old(log), log, old(delivered), delivered,
        FsmountOutcome(al, k, OldestLease(FsQueue(old(fsLeases), fd)), fd, flags, attrs))
    {
      if !(Bits(flags) <= CLOEXEC_BITS) {
        rc := SendErrno(id, k, EACCES);
        return;
      }
      rc := TakeAndMount(id, fd, attrs, Bit(flags, CLOEXEC_BIT), k);
    }

    /** The same once the flags are checked. */
    method TakeAndMount(id: int, fd: int, attrs: u32, cloexec: bool, k: Kernel) returns (rc: int)
      requires Valid()
      modifies this`fsLeases, this`mountLeases, this`log, this`delivered
      ensures Valid() && OneDelivery(old(delivered), delivered, id, rc)
      ensures Achieved(old(log), log, old(delivered), delivered,
        TakeOutcome(al, k, OldestLease(FsQueue(old(fsLeases), fd)), fd, attrs, cloexec))
    {
      var lease := TakeFsLease(fd);
      if lease.None? {
        rc := SendErrno(id, k, EACCES);
        return;
      }
      var (name, created) := (lease.value.name, lease.value.created);
      rc := MountTaken(id, fd, name, created, attrs, cloexec, k);
      AchievedThen(old(log), FsTaken(fd, name, created), log, old(delivered), delivered,
                   MountTakenOutcome(al, k, fd, name, created, attrs, cloexec));
    }

    /** The rest of landlockd_broker_handle_fsmount_request, with the lease in hand. */
    method MountTaken(id: int, fd: int, objectName: Str, created: bool, attrs: u32, cloexec: bool, k: Kernel)
      returns (rc: int)
      requires Valid() && EndsWith(log, FsTaken(fd, objectName, created))
      modifies this`mountLeases, this`log, this`delivered
      ensures Valid() && OneDelivery(old(delivered), delivered, id, rc)
      ensures Achieved(old(log), log, old(delivered), delivered,
        MountTakenOutcome(al, k, fd, objectName, created, attrs, cloexec))
    {
      if !created {
        rc := SendErrno(id, k, EACCES);
        return;
      }
      var rule := ScanObject(al.objects, objectName);
      if rule.None? || !(Bits(attrs) <= Bits(rule.value.attrs % 0x1_0000_0000)) {
        rc := SendErrno(id, k, EACCES);
        return;
      }
      var covers := ScanCovers(al, FSMOUNT, rule.value);
      if !covers {
        rc := SendErrno(id, k, EACCES);
        return;
      }
      FitsFsMounted(al, log, fd, objectName, attrs);
      Record(FsMounted(fd, objectName, rule.value.fsType, attrs));
      rc := FinishWithLease(id, OBJECT, objectName, k, cloexec);
      AchievedThen(old(log), FsMounted(fd, objectName, rule.value.fsType, attrs), log, old(delivered), delivered,
                   Outcome(LeaseEvents(k, OBJECT, objectName), FdReply(k, cloexec)));
    }

    /** landlockd_broker_handle_open_tree_request. */
    method HandleOpenTree(id: int, dirfd: int, path: Ptr, flags: u32, k: Kernel) returns (rc: int)
      requires Valid() && ValidKernel(k) && ValidPtr(path)
      modifies this`mountLeases, this`log, this`delivered
      ensures Valid() && OneDelivery(old(delivered), delivered, id, rc)
      ensures Achieved(old(log), log, old(delivered), delivered,
        OpenTreeOutcome(al, k, dirfd, path, flags))
    {
      var read := ReadString(path, PATH_MAX);
      if read.Err? {
        rc := SendErrno(id, k, if path.Null? then Nonzero(k.staleErrno, EINVAL) else Nonzero(read.errno, EINVAL));
        return;
      }
      if read.value == [] || !(Bits(flags) <= TREE_BITS) || !Bit(flags, TREE_CLONE_BIT) {
        rc := SendErrno(id, k, EACCES);
        return;
      }
      var resolved := Resolve(k, dirfd, read.value);
      if resolved.Err? {
        rc := SendErrno(id, k, resolved.errno);
        return;
      }
      ResolvedPath(k, dirfd, read.value);
      rc := CloneSource(id, resolved.value, Bit(flags, TREE_CLOEXEC_BIT), k);
    }

    /** The rest of landlockd_broker_handle_open_tree_request, for a resolved source. */
    method CloneSource(id: int, source: Str, cloexec: bool, k: Kernel) returns (rc: int)
      requires Valid() && Canonical(source)
      modifies this`mountLeases, this`log, this`delivered
      ensures Valid() && OneDelivery(old(delivered), delivered, id, rc)
      ensures Achieved(old(log), log, old(delivered), delivered, CloneOutcome(al, k, source, cloexec))
    {
      var listed := ScanBindSource(al.bind, source);
      if !listed {
        rc := SendErrno(id, k, EACCES);
        return;
      }
      var allowed := ScanAddfd(al, OPEN_TREE, source, None);
      if !allowed {
        rc := SendErrno(id, k, EACCES);
        return;
      }
      FitsTreeOpened(al, log, source);
      Record(TreeOpened(source));
      CanonicalNonempty(source);
      rc := FinishWithLease(id, SOURCE, source, k, cloexec);
      AchievedThen(old(log), TreeOpened(source), log, old(delivered), delivered,
                   Outcome(LeaseEvents(k, SOURCE, source), FdReply(k, cloexec)));
    }

    /** The branch of landlockd_broker_handle_move_mount_request that consumes
        a lease. */
    method MoveLease(id: int, fromDfd: int, target: Str, k: Kernel) returns (rc: int)
      requires Valid()
      modifies this`mountLeases, this`log, this`delivered
      ensures Valid() && OneDelivery(old(delivered), delivered, id, rc)
      ensures Achieved(old(log), log, old(delivered), delivered,
        FdMoveOutcome(al, k, First(MountQueue(old(mountLeases), fromDfd)), fromDfd, target))
    {
      var lease := TakeMountLease(fromDfd);
      if lease.None? {
        rc := SendErrno(id, k, EACCES);
        return;
      }
      rc := MoveTaken(id, fromDfd, lease.value.kind, lease.value.value, target, k);
      AchievedThen(old(log), LeaseTaken(fromDfd, lease.value.kind, lease.value.value), log, old(delivered), delivered,
                   TakenMoveOutcome(al, k, lease.value.kind, lease.value.value, fromDfd, target));
    }

    /** The same with the lease in hand. */
    method MoveTaken(id: int, fromDfd: int, kind: Kind, value: Str, target: Str, k: Kernel) returns (rc: int)
      requires Valid() && EndsWith(log, LeaseTaken(fromDfd, kind, value))
      modifies this`log, this`delivered
      ensures Valid() && OneDelivery(old(delivered), delivered, id, rc)
      ensures Achieved(old(log), log, old(delivered), delivered, TakenMoveOutcome(al, k, kind, value, fromDfd, target))
    {
      var readOnly := false;
      if kind == SOURCE {
        var rule := ScanBind(al.bind, value, target);
        if rule.None? {
          rc := SendErrno(id, k, EACCES);
          return;
        }
        readOnly := rule.value.readOnly;
      } else {
        var rule := ScanObject(al.objects, value);
        if rule.None? {
          rc := SendErrno(id, k, EACCES);
          return;
        }
        var listed := ScanList(rule.value.attach, target);
        if !listed {
          rc := SendErrno(id, k, EACCES);
          return;
        }
      }
      if k.dupFd.Err? {
        rc := SendErrno(id, k, k.dupFd.errno);
        return;
      }
      Record(FdMoved(fromDfd, kind, value, target, readOnly));
      rc := Finish(id, k);
    }

    /** landlockd_broker_handle_move_mount_request. */
    method HandleMoveMount(id: int, fromDfd: int, fromPath: Ptr, toDfd: int, toPath: Ptr, flags: u32, k: Kernel)
      returns (rc: int)
      requires Valid() && ValidKernel(k) && ValidPtr(fromPath) && ValidPtr(toPath)
      modifies this`mountLeases, this`log, this`delivered
      ensures Valid() && OneDelivery(old(delivered), delivered, id, rc)
      ensures Achieved(old(log), log, old(delivered), delivered,
        MoveMountOutcome(al, k, First(MountQueue(old(mountLeases), fromDfd)), fromDfd, fromPath, toDfd, toPath, flags))
    {
      var readTarget := ReadString(toPath, PATH_MAX);
      if readTarget.Err? {
        rc := SendErrno(id, k, if toPath.Null? then Nonzero(k.staleErrno, EINVAL) else Nonzero(readTarget.errno, EINVAL));
        return;
      }
      if readTarget.value == [] {
        rc := SendErrno(id, k, EACCES);
        return;
      }
      var resolvedTarget := Resolve(k, toDfd, readTarget.value);
      if resolvedTarget.Err? {
        rc := SendErrno(id, k, resolvedTarget.errno);
        return;
      }
      var target := resolvedTarget.value;
      var readSource := ReadString(fromPath, PATH_MAX);
      if !fromPath.Null? && readSource.Err? {
        rc := SendErrno(id, k, Nonzero(readSource.errno, EINVAL));
        return;
      }
      if fromPath.Null? || readSource.value == [] {
        if flags != MOVE_MOUNT_F_EMPTY_PATH {
          rc := SendErrno(id, k, EACCES);
          return;
        }
        rc := MoveLease(id, fromDfd, target, k);
        return;
      }
      if flags != 0 {
        rc := SendErrno(id, k, Nonzero(k.staleErrno, EACCES));
        return;
      }
      var resolvedSource := Resolve(k, fromDfd, readSource.value);
      if resolvedSource.Err? {
        rc := SendErrno(id, k, Nonzero(resolvedSource.errno, EACCES));
        return;
      }
      var rule := ScanBind(al.bind, resolvedSource.value, target);
      if rule.None? {
        rc := SendErrno(id, k, EACCES);
        return;
      }
      Record(PathMoved(resolvedSource.value, target, rule.value.readOnly));
      rc := Finish(id, k);
    }

    /** landlockd_broker_handle_mount_setattr_request. */
    method HandleSetattr(id: int, dirfd: int, path: Ptr, flags: u32, attr: Option<MountAttr>, k: Kernel)
      returns (rc: int)
      requires Valid() && ValidKernel(k) && ValidPtr(path)
      modifies this`log, this`delivered
      ensures Valid() && OneDelivery(old(delivered), delivered, id, rc)
      ensures Achieved(old(log), log, old(delivered), delivered,
        SetattrOutcome(al, k, dirfd, path, flags, attr))
    {
      var read := ReadString(path, PATH_MAX);
      if read.Err? {
        rc := SendErrno(id, k, if path.Null? then Nonzero(k.staleErrno, EINVAL) else Nonzero(read.errno, EINVAL));
        return;
      }
      if read.value == [] || flags != 0 || attr.None? {
        rc := SendErrno(id, k, EACCES);
        return;
      }
      var resolved := Resolve(k, dirfd, read.value);
      if resolved.Err? {
        rc := SendErrno(id, k, resolved.errno);
        return;
      }
      var rule := ScanObjectFor(al.objects, resolved.value);
      if rule.None? || attr.value.attrClr != 0 || attr.value.propagation != 0 || attr.value.usernsFd != 0
         || !(Bits(attr.value.attrSet) <= Bits(rule.value.attrs))
      {
        rc := SendErrno(id, k, EACCES);
        return;
      }
      Record(AttrSet(resolved.value, attr.value.attrSet));
      rc := Finish(id, k);
    }

    /** landlockd_broker_handle_mount_request. */
    method HandleMount(id: int, source: Ptr, target: Ptr, fsType: Ptr, flags: u64, options: Ptr, k: Kernel)
      returns (rc: int)
      requires Valid() && ValidKernel(k)
      requires ValidPtr(source) && ValidPtr(target) && ValidPtr(fsType) && ValidPtr(options)
      modifies this`log, this`delivered
      ensures Valid() && OneDelivery(old(delivered), delivered, id, rc)
      ensures Achieved(old(log), log, old(delivered), delivered,
        MountOutcome(al, k, source, target, fsType, flags, options))
    {
      var s := ReadString(source, PATH_MAX);
      if !source.Null? && s.Err? {
        rc := SendErrno(id, k, s.errno);
        return;
      }
      var t := ReadString(target, PATH_MAX);
      if t.Err? {
        rc := SendErrno(id, k, Nonzero(t.errno, EINVAL));
        return;
      }
      var f := ReadString(fsType, 32);
      if !fsType.Null? && f.Err? {
        rc := SendErrno(id, k, Nonzero(f.errno, EINVAL));
        return;
      }
      var o := ReadString(options, 128);
      if !options.Null? && o.Err? {
        rc := SendErrno(id, k, o.errno);
        return;
      }
      var sourceText := if source.Null? then [] else s.value;
      var optionText := if options.Null? then [] else o.value;
      if Bit(flags, MS_BIND_BIT) {
        if sourceText == [] || !fsType.Null? || optionText != [] {
          rc := SendErrno(id, k, EACCES);
          return;
        }
        rc := BindMount(id, sourceText, t.value, flags, k);
        return;
      }
      if (sourceText != [] && sourceText != "tmpfs") || fsType.Null? || f.value != "tmpfs" || optionText != [] {
        rc := SendErrno(id, k, EACCES);
        return;
      }
      rc := TmpfsMount(id, t.value, flags, k);
    }

    /** The MS_BIND branch of landlockd_broker_handle_mount_request. */
    method BindMount(id: int, source: Str, target: Str, flags: u64, k: Kernel) returns (rc: int)
      requires Valid()
      modifies this`log, this`delivered
      ensures Valid() && OneDelivery(old(delivered), delivered, id, rc)
      ensures Achieved(old(log), log, old(delivered), delivered,
        BindMountOutcome(al, k, source, target, flags))
    {
      var from := Resolve(k, AT_FDCWD, source);
      if from.Err? {
        rc := SendErrno(id, k, from.errno);
        return;
      }
      var to := Resolve(k, AT_FDCWD, target);
      if to.Err? {
        rc := SendErrno(id, k, to.errno);
        return;
      }
      var rule := ScanBind(al.bind, from.value, to.value);
      if rule.None? || !(Bits(flags) <= BIND_BITS) {
        rc := SendErrno(id, k, EACCES);
        return;
      }
      Record(BindMounted(from.value, to.value, rule.value.readOnly || Bit(flags, MS_RDONLY_BIT)));
      rc := Finish(id, k);
    }

    /** The tmpfs branch of landlockd_broker_handle_mount_request. */
    method TmpfsMount(id: int, target: Str, flags: u64, k: Kernel) returns (rc: int)
      requires Valid()
      modifies this`log, this`delivered
      ensures Valid() && OneDelivery(old(delivered), delivered, id, rc)
      ensures Achieved(old(log), log, old(delivered), delivered,
        TmpfsMountOutcome(al, k, target, flags))
    {
      var to := Resolve(k, AT_FDCWD, target);
      if to.Err? {
        rc := SendErrno(id, k, to.errno);
        return;
      }
      var listed := ScanList(al.tmpfs, to.value);
      if !listed || !(Bits(flags) <= TMPFS_BITS) {
        rc := SendErrno(id, k, EACCES);
        return;
      }
      Record(TmpfsMounted(to.value, Bits(flags) * TMPFS_CHOICE_BITS + TMPFS_FORCED_BITS));
      rc := Finish(id, k);
    }

    /** landlockd_broker_handle_umount_request. */
    method HandleUmount(id: int, target: Ptr, flags: int, k: Kernel) returns (rc: int)
      requires Valid() && ValidKernel(k) && ValidPtr(target)
      modifies this`log, this`delivered
      ensures Valid() && OneDelivery(old(delivered), delivered, id, rc)
      ensures Achieved(old(log), log, old(delivered), delivered,
        UmountOutcome(al, k, target, flags))
    {
      var t := ReadString(target, PATH_MAX);
      if t.Err? {
        rc := SendErrno(id, k, t.errno);
        return;
      }
      var path := Resolve(k, AT_FDCWD, t.value);
      if path.Err? {
        rc := SendErrno(id, k, path.errno);
        return;
      }
      var listed := ScanList(al.tmpfs, path.value);
      var bound := ScanBindTarget(al.bind, path.value);
      if !listed && !bound {
        rc := SendErrno(id, k, EACCES);
        return;
      }
      if flags != 0 && flags != MNT_DETACH {
        rc := SendErrno(id, k, EACCES);
        return;
      }
      Record(Unmounted(path.value, flags));
      rc := Finish(id, k);
    }

    // ----- the loop

    /** One turn of the dispatch: exactly one handler, or the ENOSYS fallback. */
    method Dispatch(n: Notification) returns (rc: int)
      requires Valid() && ValidKernel(n.kernel) && ValidRequest(n.request)
      modifies this
      ensures Valid() && OneDelivery(old(delivered), delivered, n.id, rc)
      ensures Achieved(old(log), log, old(delivered), delivered, OutcomeOf(al, old(log), n.request, n.kernel))
    {
      match n.request {
        case Fsopen(name, flags) =>
          rc := HandleFsopen(n.id, name, flags, n.kernel);
        case Fsconfig(fd, cmd, key, value, aux) =>
          TablesAnswer(al, fsLeases, mountLeases, log, fd);
          rc := HandleFsconfig(n.id, fd, cmd, key, value, aux, n.kernel);
        case Fsmount(fd, flags, attrs) =>
          TablesAnswer(al, fsLeases, mountLeases, log, fd);
          rc := HandleFsmount(n.id, fd, flags, attrs, n.kernel);
        case OpenTree(dirfd, path, flags) =>
          rc := HandleOpenTree(n.id, dirfd, path, flags, n.kernel);
        case MoveMount(fromDfd, fromPath, toDfd, toPath, flags) =>
          TablesAnswer(al, fsLeases, mountLeases, log, fromDfd);
          rc := HandleMoveMount(n.id, fromDfd, fromPath, toDfd, toPath, flags, n.kernel);
        case OtherCall(_) =>
          rc := SendErrno(n.id, n.kernel, ENOSYS);
        case _ =>
          rc := DispatchLeaseless(n);
      }
    }

    /** The part of the dispatch whose handlers touch no lease table. */
    method DispatchLeaseless(n: Notification) returns (rc: int)
      requires Valid() && ValidKernel(n.kernel) && ValidRequest(n.request)
      requires !n.request.Fsopen? && !n.request.Fsconfig? && !n.request.Fsmount? && !n.request.OpenTree?
      requires !n.request.MoveMount? && !n.request.OtherCall?
      modifies this`log, this`delivered
      ensures Valid() && OneDelivery(old(delivered), delivered, n.id, rc)
      ensures Achieved(old(log), log, old(delivered), delivered, OutcomeOf(al, old(log), n.request, n.kernel))
    {
      match n.request {
        case OpenAt(dirfd, path, flags, mode) =>
          rc := HandleOpen(n.id, dirfd, path, flags, mode, 0, n.kernel);
        case OpenAt2(dirfd, path, how) =>
          if how.None? {
            rc := SendErrno(n.id, n.kernel, EFAULT);
          } else {
            rc := HandleOpen(n.id, dirfd, path, how.value.flags, how.value.mode, how.value.resolve, n.kernel);
          }
        case MkdirAt(dirfd, path, mode) =>
          rc := HandleMkdir(n.id, dirfd, path, mode, n.kernel);
        case UnlinkAt(dirfd, path, flags) =>
          rc := HandleUnlink(n.id, dirfd, path, flags, n.kernel);
        case RenameAt2(dirfd, path, newDirfd, newPath, flags) =>
          rc := HandleRename(n.id, dirfd, path, newDirfd, newPath, flags, n.kernel);
        case SymlinkAt(text, dirfd, path) =>
          rc := HandleSymlink(n.id, text, dirfd, path, n.kernel);
        case LinkAt(dirfd, path, newDirfd, newPath, flags) =>
          rc := HandleLink(n.id, dirfd, path, newDirfd, newPath, flags, n.kernel);
        case Mount(source, target, fsType, flags, options) =>
          rc := HandleMount(n.id, source, target, fsType, flags, options, n.kernel);
        case Umount2(target, flags) =>
          rc := HandleUmount(n.id, target, flags, n.kernel);
        case MountSetattr(dirfd, path, flags, attr) =>
          rc := HandleSetattr(n.id, dirfd, path, flags, attr, n.kernel);
      }
    }

    /** One notification of a run: its outcome is the next one of the run. */
    method Turn(input: seq<Received>, i: nat) returns (rc: int)
      requires Valid() && i < |input| && input[i].Received?
      requires ValidKernel(input[i].n.kernel) && ValidRequest(input[i].n.request)
      requires Follows(al, input[..i], log, delivered)
      modifies this
      ensures Valid() && log == RunLog(al, input[..i + 1]) && (rc == 0 || rc == -1)
      ensures rc == 0 ==> Follows(al, input[..i + 1], log, delivered)
      ensures rc < 0 ==> delivered == old(delivered)
    {
      rc := Dispatch(input[i].n);
      OneReceived(al, input, i, old(log), log, old(delivered), delivered, rc);
    }

    /** landlockd_broker_loop over any finite sequence of receive results. Whatever
        the tracee and the kernel do, the effects and the replies of the run are
        those of the history-based specification, and the log is lawful. The last
        request, on which the broker gave up, may have had its effects. */
    method Loop(input: seq<Received>) returns (rc: int, ghost served: nat)
      requires Valid() && log == [] && delivered == []
      requires forall i :: 0 <= i < |input| && input[i].Received? ==>
        ValidKernel(input[i].n.kernel) && ValidRequest(input[i].n.request)
      modifies this
      ensures LawfulLog(al, log) && fsLeases == [] && mountLeases == []
      ensures GoesOn(input, served)
      ensures rc == 0 ==> served == |input| || input[served].NoMore?
      ensures rc != 0 ==> served < |input| && (input[served].Broken? || input[served].Received?)
      ensures Delivers(delivered, RunReplies(al, input[..served]))
      ensures log == RunLog(al, input[..if rc != 0 && input[served].Received? then served + 1 else served])
    {
      for i := 0 to |input|
        invariant Valid() && Follows(al, input[..i], log, delivered)
        invariant GoesOn(input, i)
      {
        match input[i] {
          case Interrupted =>
            GoesOnNext(input, i);
            NothingReceived(al, input, i, log, delivered);
          case NoMore =>
            fsLeases, mountLeases := [], [];
            return 0, i;
          case Broken =>
            fsLeases, mountLeases := [], [];
            return -1, i;
          case Received(_) =>
            GoesOnNext(input, i);
            var status := Turn(input, i);
            if status < 0 {
              fsLeases, mountLeases := [], [];
              return -1, i;
            }
        }
      }
      assert input[..|input|] == input;
      fsLeases, mountLeases := [], [];
      return 0, |input|;
    }
  }
}
