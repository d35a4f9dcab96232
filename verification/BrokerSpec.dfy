/** What the broker should do with each request: the effects it hands to the
    kernel and the reply it gives, as a function of the allowlist, the kernel's
    answers and the history so far. */
module BrokerSpec {
  import opened Bytes
  import opened Paths
  import opened PolicyIr
  import opened Fifo
  import opened BrokerLog
  import opened BrokerEnv

  // ----- replies

  predicate KernelLostIt(errno: int) {
    errno == ENOENT || errno == ESRCH
  }

  /** The descriptor that a successful addfd reply injected. */
  function LeasedFd(k: Kernel): Option<nat> {
    match k.addfdSend
    case Ok(fd) => Some(fd)
    case Err(e) =>
      if e == EINVAL && k.addfdPlain.Ok? && (k.sendValue.Ok? || KernelLostIt(k.sendValue.errno))
      then Some(k.addfdPlain.value)
      else None
  }

  /** Why an addfd reply failed. */
  function AddfdErrno(k: Kernel): int {
    match k.addfdSend
    case Ok(_) => 0
    case Err(e) =>
      if e != EINVAL then e
      else if k.addfdPlain.Err? then k.addfdPlain.errno
      else if k.sendValue.Err? then k.sendValue.errno
      else 0
  }

  function Nonzero(errno: int, fallback: int): int {
    if errno != 0 then errno else fallback
  }

  /** The reply for an operation without a result. */
  function StatusReply(k: Kernel): Reply {
    if k.operation.Err? then Errno(k.operation.errno) else Success
  }

  /** The reply for an operation that opened a descriptor, injected close-on-exec
      or not. */
  function FdReply(k: Kernel, cloexec: bool): Reply {
    if k.operation.Err? then Errno(k.operation.errno)
    else if LeasedFd(k).Some? then Descriptor(LeasedFd(k).value, cloexec)
    else Errno(AddfdErrno(k))
  }

  /** The effects of a request, in order, and the reply that the tracee gets if
      the kernel delivers one. */
  datatype Outcome = Outcome(events: Log, reply: Reply)

  function Deny(errno: int): Outcome {
    Outcome([], Errno(errno))
  }

  function Then(first: Event, rest: Outcome): Outcome {
    Outcome([first] + rest.events, rest.reply)
  }

  /** The errno for a string argument that could not be read, where a null pointer
      sets none. */
  function PointerErrno(k: Kernel, p: Ptr, read: Result<Str>): int
    requires read.Err?
  {
    if p.Null? then Nonzero(k.staleErrno, EINVAL) else Nonzero(read.errno, EINVAL)
  }

  // ----- file-system requests

  /** (parent, name) of a request that acts below a scratch root. */
  function ScratchTarget(al: Allowlist, k: Kernel, dirfd: int, path: Ptr): Result<(Str, Str)> {
    match ReadString(path, PATH_MAX)
    case Err(e) => Err(e)
    case Ok(s) =>
      match ResolveParent(k, dirfd, s)
      case Err(e) => Err(e)
      case Ok((parent, base)) =>
        if JoinPath(parent, base, PATH_MAX).Err? then Err(ENAMETOOLONG)
        else if !UnderSome(al.scratch, parent) then Err(EACCES)
        else Ok((parent, base))
  }

  /** One effect below a scratch root, once the parent directory is open. */
  function ScratchOutcome(target: Result<(Str, Str)>, k: Kernel, effect: (Str, Str) -> Event): Outcome {
    match target
    case Err(e) => Deny(e)
    case Ok((parent, base)) =>
      if k.openParent.Err? then Deny(k.openParent.errno) else Outcome([effect(parent, base)], StatusReply(k))
  }

  /** Source and destination of a rename or link. */
  function ScratchPair(al: Allowlist, k: Kernel, dirfd: int, path: Ptr, newDirfd: int, newPath: Ptr)
    : Result<(Str, Str, Str, Str)>
  {
    var s, t := ReadString(path, PATH_MAX), ReadString(newPath, PATH_MAX);
    if s.Err? then Err(s.errno)
    else if t.Err? then Err(t.errno)
    else
      var r, q := ResolveParent(k, dirfd, s.value), ResolveParent(k, newDirfd, t.value);
      if r.Err? then Err(r.errno)
      else if q.Err? then Err(q.errno)
      else
        var (parent, base) := r.value;
        var (newParent, newBase) := q.value;
        if JoinPath(parent, base, PATH_MAX).Err? || JoinPath(newParent, newBase, PATH_MAX).Err? then Err(ENAMETOOLONG)
        else if !UnderSome(al.scratch, parent) || (!UnderSome(al.scratch, newParent) && !UnderSome(al.exports, newParent))
        then Err(EACCES)
        else if k.openParent.Err? then Err(k.openParent.errno)
        else if k.openNewParent.Err? then Err(k.openNewParent.errno)
        else Ok((parent, base, newParent, newBase))
  }

  ghost function ScratchOpenOutcome(al: Allowlist, k: Kernel, dirfd: int, path: Ptr, flags: nat, mode: nat, resolve: nat): Outcome {
    var access := flags % 4;
    if access == 3 || resolve != 0 || !(Bits(flags) <= SCRATCH_OPEN_BITS) || (!Bit(flags, O_CREAT_BIT) && mode != 0)
    then Deny(EACCES)
    else
      match ScratchTarget(al, k, dirfd, path)
      case Err(e) => Deny(e)
      case Ok((parent, base)) =>
        if !AddfdAllowed(al, SCRATCH_OPEN, JoinPath(parent, base, PATH_MAX).value, Some(ModeName(access))) then Deny(EACCES)
        else if k.openParent.Err? then Deny(k.openParent.errno)
        else
          var bits := Bits(flags) + {O_CLOEXEC_BIT, O_NOFOLLOW_BIT};
          Outcome([ScratchOpened(parent, base, access, bits, mode % 0x1_0000_0000)], FdReply(k, Bit(flags, O_CLOEXEC_BIT)))
  }

  ghost function OpenOutcome(al: Allowlist, k: Kernel, dirfd: int, path: Ptr, flags: nat, mode: nat, resolve: nat): Outcome {
    var access := flags % 4;
    if access == 3 || mode != 0 || resolve != 0 || !(Bits(flags) <= PLAIN_OPEN_BITS) then
      if al.scratch != [] && Bits(flags) * CREAT_BITS != {} && Bits(flags) <= SCRATCH_OPEN_BITS
      then ScratchOpenOutcome(al, k, dirfd, path, flags, mode, resolve)
      else Deny(EACCES)
    else if access == 0 && Bits(flags) * WRITE_ONLY_BITS != {} then Deny(EACCES)
    else
      match ReadString(path, PATH_MAX)
      case Err(e) => Deny(e)
      case Ok(s) =>
        match Resolve(k, dirfd, s)
        case Err(e) => Deny(e)
        case Ok(p) => ListedOpenOutcome(al, k, p, dirfd, path, flags, mode, resolve)
  }

  ghost function ListedOpenOutcome(al: Allowlist, k: Kernel, p: Str, dirfd: int, path: Ptr, flags: nat, mode: nat, resolve: nat): Outcome {
    var access := flags % 4;
    if p in al.write || (access == 0 && p in al.read) then
      if !AddfdAllowed(al, OPEN, p, Some(ModeName(access))) then Deny(EACCES)
      else Outcome([Opened(p, access, Bits(flags) + {O_CLOEXEC_BIT})], FdReply(k, Bit(flags, O_CLOEXEC_BIT)))
    else if al.scratch != [] then ScratchOpenOutcome(al, k, dirfd, path, flags, mode, resolve)
    else Deny(EACCES)
  }

  ghost function MkdirOutcome(al: Allowlist, k: Kernel, dirfd: int, path: Ptr, mode: u32): Outcome {
    ScratchOutcome(ScratchTarget(al, k, dirfd, path), k, (parent, base) => MadeDir(parent, base, mode))
  }

  ghost function UnlinkOutcome(al: Allowlist, k: Kernel, dirfd: int, path: Ptr, flags: int): Outcome {
    if flags != 0 && flags != AT_REMOVEDIR then Deny(EACCES)
    else ScratchOutcome(ScratchTarget(al, k, dirfd, path), k, (parent, base) => Removed(parent, base, flags))
  }

  ghost function SymlinkOutcome(al: Allowlist, k: Kernel, text: Ptr, dirfd: int, path: Ptr): Outcome {
    match ReadString(text, PATH_MAX)
    case Err(e) => Deny(e)
    case Ok(content) =>
      ScratchOutcome(ScratchTarget(al, k, dirfd, path), k, (parent, base) => Symlinked(content, parent, base))
  }

  ghost function RenameOutcome(al: Allowlist, k: Kernel, dirfd: int, path: Ptr, newDirfd: int, newPath: Ptr, flags: u32): Outcome {
    if flags != 0 && flags != RENAME_NOREPLACE then Deny(EACCES)
    else
      match ScratchPair(al, k, dirfd, path, newDirfd, newPath)
      case Err(e) => Deny(e)
      case Ok((parent, base, newParent, newBase)) => Outcome([Renamed(parent, base, newParent, newBase, flags)], StatusReply(k))
  }

  ghost function LinkOutcome(al: Allowlist, k: Kernel, dirfd: int, path: Ptr, newDirfd: int, newPath: Ptr, flags: int): Outcome {
    if flags != 0 then Deny(EACCES)
    else
      match ScratchPair(al, k, dirfd, path, newDirfd, newPath)
      case Err(e) => Deny(e)
      case Ok((parent, base, newParent, newBase)) => Outcome([Linked(parent, base, newParent, newBase)], StatusReply(k))
  }

  // ----- mount requests

  /** The oldest fsopen lease of a descriptor: its name and whether it is created. */
  type Oldest = Option<(Str, bool)>

  ghost function FsopenOutcome(al: Allowlist, k: Kernel, name: Ptr, flags: nat): Outcome {
    match ReadString(name, 128)
    case Err(e) => Deny(PointerErrno(k, name, Err(e)))
    case Ok(s) =>
      var rule := FirstObject(al.objects, s);
      if s == [] || !(Bits(flags) <= CLOEXEC_BITS) || rule.None? || !AddfdCovers(al, FSOPEN, rule.value) then Deny(EACCES)
      else
        Outcome(if k.operation.Err? || LeasedFd(k).None? || !k.memory then [] else [FsopenLease(LeasedFd(k).value, s)],
                FdReply(k, Bit(flags, CLOEXEC_BIT)))
  }

  ghost function FsconfigOutcome(lease: Oldest, fd: int, cmd: u32, key: u64, value: u64, aux: u64): Outcome {
    if lease.None? || cmd != FSCONFIG_CMD_CREATE || key != 0 || value != 0 || aux != 0 || lease.value.1 then Deny(EACCES)
    else Outcome([FsconfigCreate(fd, lease.value.0)], Success)
  }

  ghost function LeaseEvents(k: Kernel, kind: Kind, value: Str): Log {
    if k.operation.Err? || LeasedFd(k).None? || !k.memory || value == [] then []
    else [LeaseAdded(LeasedFd(k).value, kind, value)]
  }

  ghost function FsmountOutcome(al: Allowlist, k: Kernel, lease: Oldest, fd: int, flags: nat, attrs: nat): Outcome {
    if !(Bits(flags) <= CLOEXEC_BITS) then Deny(EACCES) else TakeOutcome(al, k, lease, fd, attrs, Bit(flags, CLOEXEC_BIT))
  }

  ghost function TakeOutcome(al: Allowlist, k: Kernel, lease: Oldest, fd: int, attrs: nat, cloexec: bool): Outcome {
    if lease.None? then Deny(EACCES)
    else
      var (name, created) := lease.value;
      Then(FsTaken(fd, name, created), MountTakenOutcome(al, k, fd, name, created, attrs, cloexec))
  }

  ghost function MountTakenOutcome(al: Allowlist, k: Kernel, fd: int, name: Str, created: bool, attrs: nat, cloexec: bool): Outcome {
    var rule := FirstObject(al.objects, name);
    if !created || rule.None? || !(Bits(attrs) <= Bits(rule.value.attrs % 0x1_0000_0000))
       || !AddfdCovers(al, FSMOUNT, rule.value)
    then Deny(EACCES)
    else Then(FsMounted(fd, name, rule.value.fsType, attrs), Outcome(LeaseEvents(k, OBJECT, name), FdReply(k, cloexec)))
  }

  ghost function OpenTreeOutcome(al: Allowlist, k: Kernel, dirfd: int, path: Ptr, flags: nat): Outcome {
    match ReadString(path, PATH_MAX)
    case Err(e) => Deny(PointerErrno(k, path, Err(e)))
    case Ok(s) =>
      if s == [] || !(Bits(flags) <= TREE_BITS) || !Bit(flags, TREE_CLONE_BIT) then Deny(EACCES)
      else
        match Resolve(k, dirfd, s)
        case Err(e) => Deny(e)
        case Ok(source) => CloneOutcome(al, k, source, Bit(flags, TREE_CLOEXEC_BIT))
  }

  ghost function CloneOutcome(al: Allowlist, k: Kernel, source: Str, cloexec: bool): Outcome {
    if !(exists i :: 0 <= i < |al.bind| && al.bind[i].source == source) || !AddfdAllowed(al, OPEN_TREE, source, None)
    then Deny(EACCES)
    else Then(TreeOpened(source), Outcome(LeaseEvents(k, SOURCE, source), FdReply(k, cloexec)))
  }

  ghost function FdMoveOutcome(al: Allowlist, k: Kernel, held: Option<(Kind, Str)>, fd: int, target: Str): Outcome {
    if held.None? then Deny(EACCES)
    else
      var (kind, value) := held.value;
      Then(LeaseTaken(fd, kind, value), TakenMoveOutcome(al, k, kind, value, fd, target))
  }

  ghost function TakenMoveOutcome(al: Allowlist, k: Kernel, kind: Kind, value: Str, fd: int, target: Str): Outcome {
    var bind, thing := FirstBind(al.bind, value, target), FirstObject(al.objects, value);
    var allowed := if kind == SOURCE then bind.Some? else thing.Some? && target in thing.value.attach;
    if !allowed then Deny(EACCES)
    else if k.dupFd.Err? then Deny(k.dupFd.errno)
    else Outcome([FdMoved(fd, kind, value, target, kind == SOURCE && bind.Some? && bind.value.readOnly)], StatusReply(k))
  }

  ghost function MoveMountOutcome(al: Allowlist, k: Kernel, held: Option<(Kind, Str)>, fromDfd: int, fromPath: Ptr,
                                  toDfd: int, toPath: Ptr, flags: u32): Outcome
  {
    var s, t := ReadString(fromPath, PATH_MAX), ReadString(toPath, PATH_MAX);
    if t.Err? then Deny(PointerErrno(k, toPath, t))
    else if t.value == [] then Deny(EACCES)
    else if Resolve(k, toDfd, t.value).Err? then Deny(Resolve(k, toDfd, t.value).errno)
    else if !fromPath.Null? && s.Err? then Deny(Nonzero(s.errno, EINVAL))
    else
      var target := Resolve(k, toDfd, t.value).value;
      if fromPath.Null? || s.value == [] then
        if flags != MOVE_MOUNT_F_EMPTY_PATH then Deny(EACCES) else FdMoveOutcome(al, k, held, fromDfd, target)
      else if flags != 0 then Deny(Nonzero(k.staleErrno, EACCES))
      else PathMoveOutcome(al, k, Resolve(k, fromDfd, s.value), target)
  }

  ghost function PathMoveOutcome(al: Allowlist, k: Kernel, source: Result<Str>, target: Str): Outcome {
    if source.Err? then Deny(Nonzero(source.errno, EACCES))
    else
      var rule := FirstBind(al.bind, source.value, target);
      if rule.None? then Deny(EACCES)
      else Outcome([PathMoved(source.value, target, rule.value.readOnly)], StatusReply(k))
  }

  ghost function SetattrOutcome(al: Allowlist, k: Kernel, dirfd: int, path: Ptr, flags: u32, attr: Option<MountAttr>): Outcome {
    match ReadString(path, PATH_MAX)
    case Err(e) => Deny(PointerErrno(k, path, Err(e)))
    case Ok(s) =>
      if s == [] || flags != 0 || attr.None? then Deny(EACCES)
      else
        match Resolve(k, dirfd, s)
        case Err(e) => Deny(e)
        case Ok(target) =>
          var rule := FirstObjectFor(al.objects, target);
          if rule.None? || attr.value.attrClr != 0 || attr.value.propagation != 0 || attr.value.usernsFd != 0
             || !(Bits(attr.value.attrSet) <= Bits(rule.value.attrs))
          then Deny(EACCES)
          else Outcome([AttrSet(target, attr.value.attrSet)], StatusReply(k))
  }

  const AT_FDCWD: int := -100

  ghost function BindMountOutcome(al: Allowlist, k: Kernel, source: Str, target: Str, flags: nat): Outcome {
    var from, to := Resolve(k, AT_FDCWD, source), Resolve(k, AT_FDCWD, target);
    if from.Err? then Deny(from.errno)
    else if to.Err? then Deny(to.errno)
    else
      var rule := FirstBind(al.bind, from.value, to.value);
      if rule.None? || !(Bits(flags) <= BIND_BITS) then Deny(EACCES)
      else Outcome([BindMounted(from.value, to.value, rule.value.readOnly || Bit(flags, MS_RDONLY_BIT))], StatusReply(k))
  }

  ghost function TmpfsMountOutcome(al: Allowlist, k: Kernel, target: Str, flags: nat): Outcome {
    var to := Resolve(k, AT_FDCWD, target);
    if to.Err? then Deny(to.errno)
    else if to.value !in al.tmpfs || !(Bits(flags) <= TMPFS_BITS) then Deny(EACCES)
    else Outcome([TmpfsMounted(to.value, Bits(flags) * TMPFS_CHOICE_BITS + TMPFS_FORCED_BITS)], StatusReply(k))
  }

  ghost function MountOutcome(al: Allowlist, k: Kernel, source: Ptr, target: Ptr, fsType: Ptr, flags: nat, options: Ptr): Outcome {
    var s, t := ReadString(source, PATH_MAX), ReadString(target, PATH_MAX);
    var f, o := ReadString(fsType, 32), ReadString(options, 128);
    if !source.Null? && s.Err? then Deny(s.errno)
    else if t.Err? then Deny(Nonzero(t.errno, EINVAL))
    else if !fsType.Null? && f.Err? then Deny(Nonzero(f.errno, EINVAL))
    else if !options.Null? && o.Err? then Deny(o.errno)
    else
      var noOptions := options.Null? || o.value == [];
      var sourceText := if source.Null? then [] else s.value;
      if Bit(flags, MS_BIND_BIT) then
        if sourceText == [] || !fsType.Null? || !noOptions then Deny(EACCES)
        else BindMountOutcome(al, k, sourceText, t.value, flags)
      else if (sourceText != [] && sourceText != "tmpfs") || fsType.Null? || f.value != "tmpfs" || !noOptions then Deny(EACCES)
      else TmpfsMountOutcome(al, k, t.value, flags)
  }

  ghost function UmountOutcome(al: Allowlist, k: Kernel, target: Ptr, flags: int): Outcome {
    match ReadString(target, PATH_MAX)
    case Err(e) => Deny(e)
    case Ok(t) =>
      match Resolve(k, AT_FDCWD, t)
      case Err(e) => Deny(e)
      case Ok(path) =>
        if (path in al.tmpfs || exists i :: 0 <= i < |al.bind| && al.bind[i].target == path)
           && (flags == 0 || flags == MNT_DETACH)
        then Outcome([Unmounted(path, flags)], StatusReply(k))
        else Deny(EACCES)
  }

  // ----- any request, and whole runs

  /** The oldest fsopen lease that a descriptor has after the history. */
  ghost function OldestFs(log: Log, fd: int): Oldest {
    var open := Pending(FsOps(log), fd);
    if open == [] then None else Some((open[0], Pending(CreateOps(log), fd) != []))
  }

  /** The oldest mount lease that a descriptor has after the history. */
  ghost function OldestMount(log: Log, fd: int): Option<(Kind, Str)> {
    var held := Pending(MountOps(log), fd);
    if held == [] then None else Some(held[0])
  }

  ghost function OutcomeOf(al: Allowlist, log: Log, r: Request, k: Kernel): Outcome {
    match r
    case OpenAt(dirfd, path, flags, mode) => OpenOutcome(al, k, dirfd, path, flags, mode, 0)
    case OpenAt2(dirfd, path, how) =>
      if how.None? then Deny(EFAULT) else OpenOutcome(al, k, dirfd, path, how.value.flags, how.value.mode, how.value.resolve)
    case MkdirAt(dirfd, path, mode) => MkdirOutcome(al, k, dirfd, path, mode)
    case UnlinkAt(dirfd, path, flags) => UnlinkOutcome(al, k, dirfd, path, flags)
    case RenameAt2(dirfd, path, newDirfd, newPath, flags) => RenameOutcome(al, k, dirfd, path, newDirfd, newPath, flags)
    case SymlinkAt(text, dirfd, path) => SymlinkOutcome(al, k, text, dirfd, path)
    case LinkAt(dirfd, path, newDirfd, newPath, flags) => LinkOutcome(al, k, dirfd, path, newDirfd, newPath, flags)
    case Mount(source, target, fsType, flags, options) => MountOutcome(al, k, source, target, fsType, flags, options)
    case Umount2(target, flags) => UmountOutcome(al, k, target, flags)
    case Fsopen(name, flags) => FsopenOutcome(al, k, name, flags)
    case Fsconfig(fd, cmd, key, value, aux) => FsconfigOutcome(OldestFs(log, fd), fd, cmd, key, value, aux)
    case Fsmount(fd, flags, attrs) => FsmountOutcome(al, k, OldestFs(log, fd), fd, flags, attrs)
    case OpenTree(dirfd, path, flags) => OpenTreeOutcome(al, k, dirfd, path, flags)
    case MoveMount(fromDfd, fromPath, toDfd, toPath, flags) =>
      MoveMountOutcome(al, k, OldestMount(log, fromDfd), fromDfd, fromPath, toDfd, toPath, flags)
    case MountSetattr(dirfd, path, flags, attr) => SetattrOutcome(al, k, dirfd, path, flags, attr)
    case OtherCall(_) => Deny(ENOSYS)
  }

  /** The effects of a run, each request judged by the history before it. */
  ghost function RunLog(al: Allowlist, input: seq<Received>): Log {
    if input == [] then []
    else
      var log, last := RunLog(al, input[..|input| - 1]), input[|input| - 1];
      if last.Received? then log + OutcomeOf(al, log, last.n.request, last.n.kernel).events else log
  }

  /** The replies of a run, in order. */
  ghost function RunReplies(al: Allowlist, input: seq<Received>): seq<(int, Reply)> {
    if input == [] then []
    else
      var log, last := RunLog(al, input[..|input| - 1]), input[|input| - 1];
      RunReplies(al, input[..|input| - 1])
      + if last.Received? then [(last.n.id, OutcomeOf(al, log, last.n.request, last.n.kernel).reply)] else []
  }

  /** Every reply was delivered once and in order, unless the kernel had lost the
      request. */
  ghost predicate Delivers(delivered: seq<Delivery>, replies: seq<(int, Reply)>) {
    && |delivered| == |replies|
    && forall i :: 0 <= i < |replies| ==>
         delivered[i].id == replies[i].0 && (delivered[i].Answer? ==> delivered[i].reply == replies[i].1)
  }

  /** What a call left behind: the effects, and the reply if one was delivered. */
  ghost predicate Told(before: seq<Delivery>, after: seq<Delivery>, reply: Reply) {
    |before| < |after| && after[|before|].Answer? ==> after[|before|].reply == reply
  }

  ghost predicate Achieved(log: Log, log': Log, sent: seq<Delivery>, sent': seq<Delivery>, o: Outcome) {
    log' == log + o.events && Told(sent, sent', o.reply)
  }

  lemma {:induction false} AchievedThen(log: Log, first: Event, log'': Log, sent: seq<Delivery>, sent': seq<Delivery>, o: Outcome)
    requires Achieved(log + [first], log'', sent, sent', o)
    ensures Achieved(log, log'', sent, sent', Then(first, o))
  {
    assert log + [first] + o.events == log + ([first] + o.events);
  }

  lemma {:induction false} RunNext(al: Allowlist, input: seq<Received>, i: nat)
    requires i < |input|
    ensures var log := RunLog(al, input[..i]);
      if input[i].Received? then
        var o := OutcomeOf(al, log, input[i].n.request, input[i].n.kernel);
        RunLog(al, input[..i + 1]) == log + o.events
        && RunReplies(al, input[..i + 1]) == RunReplies(al, input[..i]) + [(input[i].n.id, o.reply)]
      else RunLog(al, input[..i + 1]) == log && RunReplies(al, input[..i + 1]) == RunReplies(al, input[..i])
  {
    assert input[..i + 1][..i] == input[..i];
    assert RunReplies(al, input[..i]) + [] == RunReplies(al, input[..i]);
  }

  lemma {:induction false} DeliversOne(before: seq<Delivery>, after: seq<Delivery>, replies: seq<(int, Reply)>, id: int, reply: Reply)
    requires Delivers(before, replies) && OneDelivery(before, after, id, 0) && Told(before, after, reply)
    ensures Delivers(after, replies + [(id, reply)])
  {
    assert forall i :: 0 <= i < |before| ==> after[i] == after[..|before|][i];
  }

  /** The effects and deliveries so far are those of the run. */
  ghost predicate Follows(al: Allowlist, input: seq<Received>, log: Log, delivered: seq<Delivery>) {
    log == RunLog(al, input) && Delivers(delivered, RunReplies(al, input))
  }

  /** The broker does not stop before input n. */
  predicate GoesOn(input: seq<Received>, n: nat) {
    n <= |input| && forall j :: 0 <= j < n ==> !input[j].NoMore? && !input[j].Broken?
  }

  lemma {:induction false} GoesOnNext(input: seq<Received>, n: nat)
    requires GoesOn(input, n) && n < |input| && !input[n].NoMore? && !input[n].Broken?
    ensures GoesOn(input, n + 1)
  {
  }

  lemma {:induction false} NothingReceived(al: Allowlist, input: seq<Received>, i: nat, log: Log, delivered: seq<Delivery>)
    requires i < |input| && !input[i].Received? && Follows(al, input[..i], log, delivered)
    ensures Follows(al, input[..i + 1], log, delivered)
  {
    RunNext(al, input, i);
  }

  lemma {:induction false} OneReceived(al: Allowlist, input: seq<Received>, i: nat, log: Log, log': Log,
                                       sent: seq<Delivery>, sent': seq<Delivery>, rc: int)
    requires i < |input| && input[i].Received? && Follows(al, input[..i], log, sent)
    requires OneDelivery(sent, sent', input[i].n.id, rc)
    requires Achieved(log, log', sent, sent', OutcomeOf(al, log, input[i].n.request, input[i].n.kernel))
    ensures log' == RunLog(al, input[..i + 1])
    ensures rc == 0 ==> Follows(al, input[..i + 1], log', sent')
    ensures rc < 0 ==> sent' == sent
  {
    RunNext(al, input, i);
    if rc == 0 {
      var o := OutcomeOf(al, log, input[i].n.request, input[i].n.kernel);
      DeliversOne(sent, sent', RunReplies(al, input[..i]), input[i].n.id, o.reply);
    }
  }
}
