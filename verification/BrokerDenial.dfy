/** Why a request is refused: when every string can be read, every path resolves and
    no kernel call fails, a refusal is the policy's and says so. */
module BrokerDenial {
  import opened Bytes
  import opened Paths
  import opened PolicyIr
  import opened BrokerLog
  import opened BrokerEnv
  import opened BrokerSpec
  import opened BrokerMeaning

  predicate Readable(p: Ptr, room: nat) {
    p.Text? && |p.s| + 2 <= room
  }

  predicate MissingOrReadable(p: Ptr, room: nat) {
    p.Null? || Readable(p, room)
  }

  /** The argument can be read and is the path of a file. */
  predicate Resolves(k: Kernel, dirfd: int, p: Ptr) {
    Readable(p, 4096) && Resolve(k, dirfd, p.s).Ok?
  }

  /** The argument can be read and its directory resolves. */
  predicate ParentResolves(k: Kernel, dirfd: int, p: Ptr) {
    Readable(p, 4096) && ResolveParent(k, dirfd, p.s).Ok?
    && var (parent, base) := ResolveParent(k, dirfd, p.s).value;
       JoinPath(parent, base, 4096).Ok?
  }

  ghost predicate OpeningClear(k: Kernel, o: Opening) {
    ParentResolves(k, o.dirfd, o.path) && (Plain(o) ==> Resolves(k, o.dirfd, o.path))
  }

  /** The arguments can be read and resolved. */
  ghost predicate ArgumentsClear(k: Kernel, r: Request) {
    match r
    case OpenAt(_, _, _, _) => OpeningClear(k, OpeningOf(r).value)
    case OpenAt2(_, _, how) => how.Some? && OpeningClear(k, OpeningOf(r).value)
    case MkdirAt(dirfd, path, _) => ParentResolves(k, dirfd, path)
    case UnlinkAt(dirfd, path, _) => ParentResolves(k, dirfd, path)
    case RenameAt2(dirfd, path, newDirfd, newPath, _) =>
      ParentResolves(k, dirfd, path) && ParentResolves(k, newDirfd, newPath)
    case SymlinkAt(text, dirfd, path) => Readable(text, 4096) && ParentResolves(k, dirfd, path)
    case LinkAt(dirfd, path, newDirfd, newPath, _) =>
      ParentResolves(k, dirfd, path) && ParentResolves(k, newDirfd, newPath)
    case Mount(source, target, fsType, flags, options) =>
      MissingOrReadable(source, 4096) && Resolves(k, -100, target) && MissingOrReadable(fsType, 32)
      && MissingOrReadable(options, 128) && (12 in Bits(flags) && !source.Null? ==> Resolves(k, -100, source))
    case Umount2(target, _) => Resolves(k, -100, target)
    case Fsopen(name, _) => Readable(name, 128)
    case OpenTree(dirfd, path, _) => Resolves(k, dirfd, path)
    case MoveMount(fromDfd, fromPath, toDfd, toPath, _) =>
      Resolves(k, toDfd, toPath) && (Blank(fromPath, 4096) || Resolves(k, fromDfd, fromPath)) && k.staleErrno == 0
    case MountSetattr(dirfd, path, _, _) => Resolves(k, dirfd, path)
    case _ => true
  }

  /** No kernel call fails. */
  predicate KernelClear(k: Kernel) {
    k.openParent.Ok? && k.openNewParent.Ok? && k.dupFd.Ok? && k.operation.Ok? && LeasedFd(k).Some?
  }

  lemma {:induction false} ChangeDenied(al: Allowlist, log: Log, k: Kernel, r: Request)
    requires ArgumentsClear(k, r) && KernelClear(k)
    requires r.MkdirAt? || r.UnlinkAt? || r.SymlinkAt?
    ensures OutcomeOf(al, log, r, k).reply in {Success, Errno(13)}
  {
  }

  lemma {:induction false} PairDenied(al: Allowlist, log: Log, k: Kernel, r: Request)
    requires ArgumentsClear(k, r) && KernelClear(k) && (r.RenameAt2? || r.LinkAt?)
    ensures OutcomeOf(al, log, r, k).reply in {Success, Errno(13)}
  {
  }

  lemma {:induction false} ScratchOpenDenied(al: Allowlist, k: Kernel, o: Opening)
    requires OpeningClear(k, o) && KernelClear(k)
    ensures var reply := ScratchOpenOutcome(al, k, o.dirfd, o.path, o.flags, o.mode, o.resolve).reply;
      reply.Descriptor? || reply == Errno(13)
  {
  }

  lemma {:induction false} OpeningDenied(al: Allowlist, k: Kernel, o: Opening)
    requires OpeningClear(k, o) && KernelClear(k)
    ensures var reply := OpenOutcome(al, k, o.dirfd, o.path, o.flags, o.mode, o.resolve).reply;
      reply.Descriptor? || reply == Errno(13)
  {
    ScratchOpenDenied(al, k, o);
  }

  lemma {:induction false} OpenDenied(al: Allowlist, log: Log, k: Kernel, r: Request)
    requires ArgumentsClear(k, r) && KernelClear(k) && (r.OpenAt? || r.OpenAt2?)
    ensures var reply := OutcomeOf(al, log, r, k).reply;
      reply.Descriptor? || reply == Errno(13)
  {
    OpeningDenied(al, k, OpeningOf(r).value);
  }

  lemma {:induction false} MountDenied(al: Allowlist, log: Log, k: Kernel, r: Request)
    requires ArgumentsClear(k, r) && KernelClear(k) && (r.Mount? || r.Umount2? || r.MountSetattr? || r.MoveMount?)
    ensures OutcomeOf(al, log, r, k).reply in {Success, Errno(13)}
  {
  }

  lemma {:induction false} ObjectDenied(al: Allowlist, log: Log, k: Kernel, r: Request)
    requires ArgumentsClear(k, r) && KernelClear(k) && (r.Fsopen? || r.Fsconfig? || r.Fsmount? || r.OpenTree?)
    ensures var reply := OutcomeOf(al, log, r, k).reply;
      !reply.Errno? || reply == Errno(13)
  {
  }

  /** With arguments that can be read and resolved and a kernel that does its part, a
      request is served or refused with EACCES; a call that the broker does not know is
      refused with ENOSYS. */
  lemma {:induction false} RefusalIsDenial(al: Allowlist, log: Log, k: Kernel, r: Request)
    requires ArgumentsClear(k, r) && KernelClear(k)
    ensures var reply := OutcomeOf(al, log, r, k).reply;
      !Served(al, log, k, r) ==> reply == Errno(if r.OtherCall? then 38 else 13)
  {
    AnswerIsService(al, log, k, r);
    if r.MkdirAt? || r.UnlinkAt? || r.SymlinkAt? {
      ChangeDenied(al, log, k, r);
    } else if r.RenameAt2? || r.LinkAt? {
      PairDenied(al, log, k, r);
    } else if r.OpenAt? || r.OpenAt2? {
      OpenDenied(al, log, k, r);
    } else if r.Mount? || r.Umount2? || r.MountSetattr? || r.MoveMount? {
      MountDenied(al, log, k, r);
    } else if !r.OtherCall? {
      ObjectDenied(al, log, k, r);
    }
  }
}
