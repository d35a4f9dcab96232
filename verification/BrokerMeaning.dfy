/** What a request means: the effects that it is due, read off the request, the
    allowlist and the kernel's answers, and the answer that it gets. Flag words
    are given by bit number, as the kernel's headers number them. */
module BrokerMeaning {
  import opened Bytes
  import opened Paths
  import opened PolicyIr
  import opened Fifo
  import opened BrokerLog
  import opened BrokerEnv
  import opened BrokerSpec

  // ----- arguments

  /** The argument is the string s, read into a buffer of that size. */
  predicate Says(p: Ptr, room: nat, s: Str) {
    p == Text(s) && |s| + 2 <= room
  }

  /** The argument is missing or the empty string. */
  predicate Blank(p: Ptr, room: nat) {
    p.Null? || Says(p, room, [])
  }

  /** The argument is a path that resolves to the file. */
  predicate Leads(k: Kernel, dirfd: int, p: Ptr, file: Str) {
    p.Text? && Says(p, 4096, p.s) && Resolve(k, dirfd, p.s) == Ok(file)
  }

  /** The argument is a path whose directory resolves to the parent. */
  predicate LeadsTo(k: Kernel, dirfd: int, p: Ptr, parent: Str, base: Str) {
    p.Text? && Says(p, 4096, p.s) && ResolveParent(k, dirfd, p.s) == Ok((parent, base))
  }

  predicate Nonempty(p: Ptr) {
    p.Text? && p.s != []
  }

  /** openat and openat2 in one form. */
  datatype Opening = Opening(dirfd: int, path: Ptr, flags: u64, mode: u64, resolve: u64)

  function OpeningOf(r: Request): Option<Opening> {
    match r
    case OpenAt(dirfd, path, flags, mode) => Some(Opening(dirfd, path, flags, mode, 0))
    case OpenAt2(dirfd, path, Some(how)) => Some(Opening(dirfd, path, how.flags, how.mode, how.resolve))
    case _ => None
  }

  /** An open of an existing file: nothing but access, TRUNC, APPEND, NOFOLLOW and
      CLOEXEC is asked for. */
  ghost predicate Plain(o: Opening) {
    o.flags % 4 != 3 && o.mode == 0 && o.resolve == 0 && Bits(o.flags) <= {0, 1, 9, 10, 17, 19}
  }

  /** A read-only open neither truncates nor appends. */
  ghost predicate Honest(o: Opening) {
    o.flags % 4 == 0 ==> 9 !in Bits(o.flags) && 10 !in Bits(o.flags)
  }

  /** An open below a scratch root, which may also create and open directories; a
      mode comes with CREAT only. */
  ghost predicate ScratchLike(o: Opening) {
    && o.flags % 4 != 3 && o.resolve == 0 && Bits(o.flags) <= {0, 1, 6, 7, 9, 10, 16, 17, 19}
    && (6 in Bits(o.flags) || o.mode == 0)
  }

  predicate Listed(al: Allowlist, file: Str, access: nat) {
    file in al.write || (access == 0 && file in al.read)
  }

  /** The open is one for the scratch roots: it creates, or it is plain and its file
      is not on the lists. */
  ghost predicate FallsToScratch(al: Allowlist, k: Kernel, o: Opening) {
    if Plain(o) then Honest(o) && exists file :: Leads(k, o.dirfd, o.path, file) && !Listed(al, file, o.flags % 4)
    else 6 in Bits(o.flags) || 7 in Bits(o.flags)
  }

  /** A move_mount whose source is a descriptor. */
  predicate MovesDescriptor(r: Request, fd: int) {
    && r.MoveMount? && r.fromDfd == fd && r.moveFlags == 4 && Blank(r.fromPath, 4096)
    && Nonempty(r.toPath)
  }

  // ----- leases of the history

  /** The oldest fsopen lease of the descriptor names this object. */
  ghost predicate OldestIs(log: Log, fd: int, name: Str, created: bool) {
    && Pending(FsOps(log), fd) != [] && Pending(FsOps(log), fd)[0] == name
    && created == (Pending(CreateOps(log), fd) != [])
  }

  ghost predicate OldestMountIs(log: Log, fd: int, kind: Kind, value: Str) {
    Pending(MountOps(log), fd) != [] && Pending(MountOps(log), fd)[0] == (kind, value)
  }

  /** An fsmount of the descriptor, whose oldest lease names this object. */
  ghost predicate TakesLease(log: Log, r: Request, fd: int, name: Str, created: bool) {
    r.Fsmount? && r.fd == fd && Bits(r.fsmountFlags) <= {0} && OldestIs(log, fd, name, created)
  }

  /** An open_tree that clones the source. */
  ghost predicate ClonesTree(k: Kernel, r: Request, source: Str) {
    && r.OpenTree? && Nonempty(r.path) && Leads(k, r.dirfd, r.path, source)
    && 0 in Bits(r.treeFlags) && Bits(r.treeFlags) <= {0, 19}
  }

  // ----- effects

  /** The open asks for the effect, with these arguments. */
  ghost predicate OpenWanted(al: Allowlist, k: Kernel, o: Opening, e: Event) {
    || (e.Opened? && Plain(o) && Honest(o) && Leads(k, o.dirfd, o.path, e.path)
        && e.access == o.flags % 4 && e.bits == Bits(o.flags) + {19})
    || (e.ScratchOpened? && ScratchLike(o) && FallsToScratch(al, k, o) && LeadsTo(k, o.dirfd, o.path, e.parent, e.base)
        && e.access == o.flags % 4 && e.bits == Bits(o.flags) + {17, 19} && e.mode == o.mode % 0x1_0000_0000)
  }

  ghost predicate MountWanted(al: Allowlist, k: Kernel, r: Request, e: Event)
    requires r.Mount?
  {
    var bits := Bits(r.mountFlags);
    || (e.BindMounted? && 12 in bits && bits <= {0, 12} && Nonempty(r.source) && Leads(k, -100, r.source, e.source)
        && Leads(k, -100, r.target, e.target) && r.fsType.Null? && Blank(r.options, 128)
        && e.readOnly == (0 in bits || ReadOnlyRule(al, e.source, e.target)))
    || (e.TmpfsMounted? && bits <= {0, 1, 2, 3} && (Blank(r.source, 4096) || Says(r.source, 4096, "tmpfs"))
        && Says(r.fsType, 32, "tmpfs") && Blank(r.options, 128) && Leads(k, -100, r.target, e.target)
        && e.bits == bits + {1, 2})
  }

  ghost predicate MoveWanted(al: Allowlist, log: Log, k: Kernel, r: Request, e: Event)
    requires r.MoveMount?
  {
    || (e.PathMoved? && r.moveFlags == 0 && Nonempty(r.fromPath) && Leads(k, r.fromDfd, r.fromPath, e.source)
        && Nonempty(r.toPath) && Leads(k, r.toDfd, r.toPath, e.target)
        && e.readOnly == ReadOnlyRule(al, e.source, e.target))
    || (e.LeaseTaken? && MovesDescriptor(r, e.fd) && OldestMountIs(log, e.fd, e.kind, e.value)
        && exists target :: Leads(k, r.toDfd, r.toPath, target))
    || (e.FdMoved? && MovesDescriptor(r, e.fd) && OldestMountIs(log, e.fd, e.kind, e.value)
        && Leads(k, r.toDfd, r.toPath, e.target)
        && e.readOnly == (e.kind == SOURCE && ReadOnlyRule(al, e.value, e.target)))
  }

  ghost predicate FsmountWanted(al: Allowlist, log: Log, r: Request, e: Event)
    requires r.Fsmount?
  {
    || (e.FsTaken? && TakesLease(log, r, e.fd, e.name, e.created))
    || (e.FsMounted? && TakesLease(log, r, e.fd, e.name, true) && e.attrs == r.attrs)
    || (e.LeaseAdded? && e.kind == OBJECT && TakesLease(log, r, r.fd, e.value, true) && Mountable(al, e.value, r.attrs))
  }

  /** The request asks for the effect, with these arguments. */
  ghost predicate Wanted(al: Allowlist, log: Log, k: Kernel, r: Request, e: Event) {
    match r
    case OpenAt(_, _, _, _) => OpenWanted(al, k, OpeningOf(r).value, e)
    case OpenAt2(_, _, how) => how.Some? && OpenWanted(al, k, OpeningOf(r).value, e)
    case MkdirAt(dirfd, path, mode) =>
      e.MadeDir? && LeadsTo(k, dirfd, path, e.parent, e.base) && e.mode == mode
    case UnlinkAt(dirfd, path, flags) =>
      e.Removed? && LeadsTo(k, dirfd, path, e.parent, e.base) && e.removal == flags && flags in {0, 512}
    case RenameAt2(dirfd, path, newDirfd, newPath, flags) =>
      e.Renamed? && LeadsTo(k, dirfd, path, e.parent, e.base) && LeadsTo(k, newDirfd, newPath, e.newParent, e.newBase)
      && e.renaming == flags && flags in {0, 1}
    case SymlinkAt(text, dirfd, path) =>
      e.Symlinked? && Says(text, 4096, e.text) && LeadsTo(k, dirfd, path, e.parent, e.base)
    case LinkAt(dirfd, path, newDirfd, newPath, flags) =>
      e.Linked? && LeadsTo(k, dirfd, path, e.parent, e.base) && LeadsTo(k, newDirfd, newPath, e.newParent, e.newBase)
      && flags == 0
    case Mount(_, _, _, _, _) => MountWanted(al, k, r, e)
    case Umount2(target, flags) =>
      e.Unmounted? && Leads(k, -100, target, e.target) && e.detach == flags && flags in {0, 2}
    case Fsopen(name, flags) =>
      e.FsopenLease? && e.name != [] && Says(name, 128, e.name) && Bits(flags) <= {0}
    case Fsconfig(fd, cmd, key, value, aux) =>
      e.FsconfigCreate? && e.fd == fd && cmd == 6 && key == 0 && value == 0 && aux == 0 && OldestIs(log, fd, e.name, false)
    case Fsmount(_, _, _) => FsmountWanted(al, log, r, e)
    case OpenTree(_, _, _) =>
      (e.TreeOpened? && ClonesTree(k, r, e.source)) || (e.LeaseAdded? && e.kind == SOURCE && ClonesTree(k, r, e.value))
    case MoveMount(_, _, _, _, _) => MoveWanted(al, log, k, r, e)
    case MountSetattr(dirfd, path, flags, attr) =>
      e.AttrSet? && Nonempty(path) && Leads(k, dirfd, path, e.target) && flags == 0 && attr.Some?
      && attr.value.attrSet == e.attrs && attr.value.attrClr == 0 && attr.value.propagation == 0 && attr.value.usernsFd == 0
    case OtherCall(_) => false
  }

  predicate ReadOnlyRule(al: Allowlist, source: Str, target: Str) {
    FirstBind(al.bind, source, target).Some? && FirstBind(al.bind, source, target).value.readOnly
  }

  predicate Below(roots: seq<Str>, parent: Str, base: Str) {
    UnderSome(roots, parent) && JoinPath(parent, base, 4096).Ok?
  }

  /** The allowlist grants the effect and nothing that the broker needs first fails. */
  ghost predicate Granted(al: Allowlist, k: Kernel, e: Event) {
    match e
    case Opened(file, access, _) =>
      Listed(al, file, access) && AddfdAllowed(al, "open", file, Some(if access == 0 then "read" else "write"))
    case ScratchOpened(parent, base, access, _, _) =>
      Below(al.scratch, parent, base) && k.openParent.Ok?
      && AddfdAllowed(al, "scratch_open", JoinPath(parent, base, 4096).value,
                      Some(if access == 0 then "read" else "write"))
    case MadeDir(parent, base, _) => Below(al.scratch, parent, base) && k.openParent.Ok?
    case Removed(parent, base, _) => Below(al.scratch, parent, base) && k.openParent.Ok?
    case Symlinked(_, parent, base) => Below(al.scratch, parent, base) && k.openParent.Ok?
    case Renamed(parent, base, newParent, newBase, _) => BothBelow(al, k, parent, base, newParent, newBase)
    case Linked(parent, base, newParent, newBase) => BothBelow(al, k, parent, base, newParent, newBase)
    case BindMounted(source, target, _) => FirstBind(al.bind, source, target).Some?
    case PathMoved(source, target, _) => FirstBind(al.bind, source, target).Some?
    case TmpfsMounted(target, _) => target in al.tmpfs
    case Unmounted(target, _) => target in al.tmpfs || exists i :: 0 <= i < |al.bind| && al.bind[i].target == target
    case AttrSet(target, attrs) =>
      var rule := FirstObjectFor(al.objects, target);
      rule.Some? && Bits(attrs) <= Bits(rule.value.attrs)
    case FdMoved(_, SOURCE, source, target, _) => FirstBind(al.bind, source, target).Some? && k.dupFd.Ok?
    case FdMoved(_, OBJECT, name, target, _) =>
      var rule := FirstObject(al.objects, name);
      rule.Some? && target in rule.value.attach && k.dupFd.Ok?
    case TreeOpened(source) => Clonable(al, source)
    case FsopenLease(fd, name) =>
      var rule := FirstObject(al.objects, name);
      rule.Some? && AddfdCovers(al, "fsopen", rule.value) && k.operation.Ok? && LeasedFd(k) == Some(fd)
    case FsMounted(_, name, fsType, attrs) =>
      Mountable(al, name, attrs) && fsType == FirstObject(al.objects, name).value.fsType
    case LeaseAdded(fd, kind, value) =>
      (kind == SOURCE ==> Clonable(al, value)) && value != [] && k.operation.Ok? && LeasedFd(k) == Some(fd)
    case _ => true
  }

  /** The first rule for the object lists the attributes, and addfd rules cover it. */
  ghost predicate Mountable(al: Allowlist, name: Str, attrs: nat) {
    var rule := FirstObject(al.objects, name);
    rule.Some? && Bits(attrs) <= Bits(rule.value.attrs % 0x1_0000_0000) && AddfdCovers(al, "fsmount", rule.value)
  }

  /** Some bind rule has the source, and an addfd rule covers it. */
  predicate Clonable(al: Allowlist, source: Str) {
    (exists i :: 0 <= i < |al.bind| && al.bind[i].source == source) && AddfdAllowed(al, "open_tree", source, None)
  }

  predicate BothBelow(al: Allowlist, k: Kernel, parent: Str, base: Str, newParent: Str, newBase: Str) {
    && Below(al.scratch, parent, base) && (Below(al.scratch, newParent, newBase) || Below(al.exports, newParent, newBase))
    && k.openParent.Ok? && k.openNewParent.Ok?
  }

  ghost predicate Meant(al: Allowlist, log: Log, k: Kernel, r: Request, e: Event) {
    Wanted(al, log, k, r, e) && Granted(al, k, e)
  }

  /** A lease is kept only when there is memory for it. */
  predicate Kept(k: Kernel, e: Event) {
    e.FsopenLease? || e.LeaseAdded? ==> k.memory
  }

  /** The request is due the effect. */
  ghost predicate Due(al: Allowlist, log: Log, k: Kernel, r: Request, e: Event) {
    Meant(al, log, k, r, e) && Kept(k, e)
  }

  /** A lease is taken before the work, and added after it. */
  function Rank(e: Event): nat {
    if e.FsTaken? || e.LeaseTaken? then 0 else if e.LeaseAdded? then 2 else 1
  }

  predicate Ranked(events: Log) {
    forall i, j :: 0 <= i < j < |events| ==> Rank(events[i]) < Rank(events[j])
  }

  // ----- the effects of a request are those that it is due

  lemma {:induction false} TargetIsEntry(al: Allowlist, k: Kernel, dirfd: int, path: Ptr, parent: Str, base: Str)
    ensures ScratchTarget(al, k, dirfd, path) == Ok((parent, base))
      <==> LeadsTo(k, dirfd, path, parent, base) && Below(al.scratch, parent, base)
  {
    if path.Text? && Says(path, PATH_MAX, path.s) {
      var found := ResolveParent(k, dirfd, path.s);
      assert ReadString(path, PATH_MAX) == Ok(path.s);
    }
  }

  lemma {:induction false} MkdirEffects(al: Allowlist, log: Log, k: Kernel, r: Request, e: Event)
    requires r.MkdirAt?
    ensures e in OutcomeOf(al, log, r, k).events <==> Due(al, log, k, r, e)
  {
  }

  lemma {:induction false} UnlinkEffects(al: Allowlist, log: Log, k: Kernel, r: Request, e: Event)
    requires r.UnlinkAt?
    ensures e in OutcomeOf(al, log, r, k).events <==> Due(al, log, k, r, e)
  {
  }

  lemma {:induction false} SymlinkEffects(al: Allowlist, log: Log, k: Kernel, r: Request, e: Event)
    requires r.SymlinkAt?
    ensures e in OutcomeOf(al, log, r, k).events <==> Due(al, log, k, r, e)
  {
  }

  lemma {:induction false} PairIsEntries(al: Allowlist, k: Kernel, dirfd: int, path: Ptr, newDirfd: int, newPath: Ptr,
                                         parent: Str, base: Str, newParent: Str, newBase: Str)
    ensures ScratchPair(al, k, dirfd, path, newDirfd, newPath) == Ok((parent, base, newParent, newBase))
      <==> LeadsTo(k, dirfd, path, parent, base) && LeadsTo(k, newDirfd, newPath, newParent, newBase)
           && BothBelow(al, k, parent, base, newParent, newBase)
  {
  }

  lemma {:induction false} RenameEffects(al: Allowlist, log: Log, k: Kernel, r: Request, e: Event)
    requires r.RenameAt2?
    ensures e in OutcomeOf(al, log, r, k).events <==> Due(al, log, k, r, e)
  {
    if e.Renamed? {
      PairIsEntries(al, k, r.dirfd, r.path, r.newDirfd, r.newPath, e.parent, e.base, e.newParent, e.newBase);
    }
  }

  lemma {:induction false} LinkEffects(al: Allowlist, log: Log, k: Kernel, r: Request, e: Event)
    requires r.LinkAt?
    ensures e in OutcomeOf(al, log, r, k).events <==> Due(al, log, k, r, e)
  {
    if e.Linked? {
      PairIsEntries(al, k, r.dirfd, r.path, r.newDirfd, r.newPath, e.parent, e.base, e.newParent, e.newBase);
    }
  }

  lemma {:induction false} BitIsIn(x: nat, i: nat)
    requires i < 64
    ensures Bit(x, i) <==> i in Bits(x)
  {
  }

  lemma {:induction false} BindEffects(al: Allowlist, k: Kernel, source: Str, target: Str, flags: nat, e: Event)
    requires 12 in Bits(flags)
    ensures e in BindMountOutcome(al, k, source, target, flags).events
      <==> e.BindMounted? && Resolve(k, -100, source) == Ok(e.source) && Resolve(k, -100, target) == Ok(e.target)
           && Bits(flags) <= {0, 12} && FirstBind(al.bind, e.source, e.target).Some?
           && e.readOnly == (0 in Bits(flags) || ReadOnlyRule(al, e.source, e.target))
  {
    BitIsIn(flags, MS_RDONLY_BIT);
  }

  lemma {:induction false} ForcedBits(bits: set<nat>)
    requires bits <= {0, 1, 2, 3}
    ensures bits * {0, 3} + {1, 2} == bits + {1, 2}
  {
  }

  lemma {:induction false} TmpfsEffects(al: Allowlist, k: Kernel, target: Str, flags: nat, e: Event)
    ensures e in TmpfsMountOutcome(al, k, target, flags).events
      <==> e.TmpfsMounted? && Resolve(k, -100, target) == Ok(e.target) && e.target in al.tmpfs
           && Bits(flags) <= {0, 1, 2, 3} && e.bits == Bits(flags) + {1, 2}
  {
    if Bits(flags) <= {0, 1, 2, 3} {
      ForcedBits(Bits(flags));
    }
  }

  lemma {:induction false} MountEffects(al: Allowlist, log: Log, k: Kernel, r: Request, e: Event)
    requires r.Mount?
    ensures e in OutcomeOf(al, log, r, k).events <==> Due(al, log, k, r, e)
  {
    BitIsIn(r.mountFlags, MS_BIND_BIT);
    if r.target.Text? {
      if r.source.Text? && 12 in Bits(r.mountFlags) {
        BindEffects(al, k, r.source.s, r.target.s, r.mountFlags, e);
      }
      TmpfsEffects(al, k, r.target.s, r.mountFlags, e);
    }
  }

  lemma {:induction false} UmountEffects(al: Allowlist, log: Log, k: Kernel, r: Request, e: Event)
    requires r.Umount2?
    ensures e in OutcomeOf(al, log, r, k).events <==> Due(al, log, k, r, e)
  {
  }

  lemma {:induction false} SetattrEffects(al: Allowlist, log: Log, k: Kernel, r: Request, e: Event)
    requires r.MountSetattr?
    ensures e in OutcomeOf(al, log, r, k).events <==> Due(al, log, k, r, e)
  {
  }

  lemma {:induction false} FsopenEffects(al: Allowlist, log: Log, k: Kernel, r: Request, e: Event)
    requires r.Fsopen?
    ensures e in OutcomeOf(al, log, r, k).events <==> Due(al, log, k, r, e)
  {
  }

  lemma {:induction false} FsconfigEffects(al: Allowlist, log: Log, k: Kernel, r: Request, e: Event)
    requires r.Fsconfig?
    ensures e in OutcomeOf(al, log, r, k).events <==> Due(al, log, k, r, e)
  {
  }

  /** A lease of this value is kept, under the number of the injected descriptor. */
  predicate LeaseKept(k: Kernel, e: Event, kind: Kind, value: Str) {
    e.LeaseAdded? && e.kind == kind && e.value == value && value != [] && k.operation.Ok? && LeasedFd(k) == Some(e.fd) && k.memory
  }

  lemma {:induction false} TakenEffects(al: Allowlist, k: Kernel, fd: int, name: Str, created: bool, attrs: nat,
                                        cloexec: bool, e: Event)
    ensures e in MountTakenOutcome(al, k, fd, name, created, attrs, cloexec).events
      <==> created && Mountable(al, name, attrs)
           && (e == FsMounted(fd, name, FirstObject(al.objects, name).value.fsType, attrs) || LeaseKept(k, e, OBJECT, name))
  {
    if created && Mountable(al, name, attrs) {
      var mounted := FsMounted(fd, name, FirstObject(al.objects, name).value.fsType, attrs);
      assert MountTakenOutcome(al, k, fd, name, created, attrs, cloexec).events == [mounted] + LeaseEvents(k, OBJECT, name);
    }
  }

  lemma {:induction false} TakeEffects(al: Allowlist, k: Kernel, lease: Oldest, fd: int, attrs: nat, cloexec: bool, e: Event)
    ensures e in TakeOutcome(al, k, lease, fd, attrs, cloexec).events
      <==> lease.Some?
           && (e == FsTaken(fd, lease.value.0, lease.value.1)
               || e in MountTakenOutcome(al, k, fd, lease.value.0, lease.value.1, attrs, cloexec).events)
  {
  }

  /** What an fsmount with a lease in hand is due. */
  ghost predicate TakeDue(al: Allowlist, k: Kernel, lease: Oldest, fd: int, attrs: nat, e: Event) {
    lease.Some?
    && (e == FsTaken(fd, lease.value.0, lease.value.1)
        || (lease.value.1 && Mountable(al, lease.value.0, attrs)
            && (e == FsMounted(fd, lease.value.0, FirstObject(al.objects, lease.value.0).value.fsType, attrs)
                || LeaseKept(k, e, OBJECT, lease.value.0))))
  }

  lemma {:induction false} FsmountOutcomeIs(al: Allowlist, k: Kernel, lease: Oldest, fd: int, flags: nat, attrs: nat, e: Event)
    ensures e in FsmountOutcome(al, k, lease, fd, flags, attrs).events
      <==> Bits(flags) <= {0} && TakeDue(al, k, lease, fd, attrs, e)
  {
    var cloexec := Bit(flags, CLOEXEC_BIT);
    TakeEffects(al, k, lease, fd, attrs, cloexec, e);
    if lease.Some? {
      TakenEffects(al, k, fd, lease.value.0, lease.value.1, attrs, cloexec, e);
    }
  }

  lemma {:induction false} OldestIff(log: Log, fd: int, name: Str, created: bool)
    ensures OldestFs(log, fd) == Some((name, created)) <==> OldestIs(log, fd, name, created)
  {
  }

  lemma {:induction false} FsTakenDue(al: Allowlist, log: Log, k: Kernel, r: Request, e: Event)
    requires r.Fsmount? && e.FsTaken?
    ensures Due(al, log, k, r, e)
      <==> Bits(r.fsmountFlags) <= {0} && TakeDue(al, k, OldestFs(log, r.fd), r.fd, r.attrs, e)
  {
    OldestIff(log, e.fd, e.name, e.created);
  }

  lemma {:induction false} FsMountedDue(al: Allowlist, log: Log, k: Kernel, r: Request, e: Event)
    requires r.Fsmount? && e.FsMounted?
    ensures Due(al, log, k, r, e)
      <==> Bits(r.fsmountFlags) <= {0} && TakeDue(al, k, OldestFs(log, r.fd), r.fd, r.attrs, e)
  {
    OldestIff(log, e.fd, e.name, true);
  }

  lemma {:induction false} FsLeaseDue(al: Allowlist, log: Log, k: Kernel, r: Request, e: Event)
    requires r.Fsmount? && e.LeaseAdded?
    ensures Due(al, log, k, r, e)
      <==> Bits(r.fsmountFlags) <= {0} && TakeDue(al, k, OldestFs(log, r.fd), r.fd, r.attrs, e)
  {
    OldestIff(log, r.fd, e.value, true);
  }

  lemma {:induction false} FsmountEffects(al: Allowlist, log: Log, k: Kernel, r: Request, e: Event)
    requires r.Fsmount?
    ensures e in OutcomeOf(al, log, r, k).events <==> Due(al, log, k, r, e)
  {
    FsmountOutcomeIs(al, k, OldestFs(log, r.fd), r.fd, r.fsmountFlags, r.attrs, e);
    if e.FsTaken? {
      FsTakenDue(al, log, k, r, e);
    } else if e.FsMounted? {
      FsMountedDue(al, log, k, r, e);
    } else if e.LeaseAdded? {
      FsLeaseDue(al, log, k, r, e);
    }
  }

  lemma {:induction false} TreeOutcomeIs(al: Allowlist, k: Kernel, dirfd: int, path: Ptr, flags: nat, source: Str, e: Event)
    requires Nonempty(path) && Leads(k, dirfd, path, source)
    ensures e in OpenTreeOutcome(al, k, dirfd, path, flags).events
      <==> 0 in Bits(flags) && Bits(flags) <= {0, 19} && Clonable(al, source)
           && (e == TreeOpened(source) || LeaseKept(k, e, SOURCE, source))
  {
    BitIsIn(flags, TREE_CLONE_BIT);
  }

  lemma {:induction false} NoTree(al: Allowlist, k: Kernel, dirfd: int, path: Ptr, flags: nat)
    requires forall source :: !(Nonempty(path) && Leads(k, dirfd, path, source))
    ensures OpenTreeOutcome(al, k, dirfd, path, flags).events == []
  {
    if path.Text? {
      var source := Resolve(k, dirfd, path.s);
      assert source.Ok? ==> !(Nonempty(path) && Leads(k, dirfd, path, source.value));
    }
  }

  lemma {:induction false} OpenTreeEffects(al: Allowlist, log: Log, k: Kernel, r: Request, e: Event)
    requires r.OpenTree?
    ensures e in OutcomeOf(al, log, r, k).events <==> Due(al, log, k, r, e)
  {
    if source :| Nonempty(r.path) && Leads(k, r.dirfd, r.path, source) {
      TreeOutcomeIs(al, k, r.dirfd, r.path, r.treeFlags, source, e);
    } else {
      NoTree(al, k, r.dirfd, r.path, r.treeFlags);
    }
  }

  lemma {:induction false} TakenMoveEffects(al: Allowlist, k: Kernel, kind: Kind, value: Str, fd: int, target: Str, e: Event)
    ensures e in TakenMoveOutcome(al, k, kind, value, fd, target).events
      <==> e.FdMoved? && e.fd == fd && e.kind == kind && e.value == value && e.target == target && Granted(al, k, e)
           && e.readOnly == (kind == SOURCE && ReadOnlyRule(al, value, target))
  {
  }

  lemma {:induction false} FdMoveEffects(al: Allowlist, log: Log, k: Kernel, r: Request, target: Str, e: Event)
    requires r.MoveMount? && Blank(r.fromPath, 4096) && Nonempty(r.toPath) && Leads(k, r.toDfd, r.toPath, target)
    ensures e in OutcomeOf(al, log, r, k).events <==> Due(al, log, k, r, e)
  {
    var held := OldestMount(log, r.fromDfd);
    if held.Some? {
      TakenMoveEffects(al, k, held.value.0, held.value.1, r.fromDfd, target, e);
    }
  }

  lemma {:induction false} PathMoveEffects(al: Allowlist, log: Log, k: Kernel, r: Request, target: Str, e: Event)
    requires r.MoveMount? && !Blank(r.fromPath, 4096) && Nonempty(r.toPath) && Leads(k, r.toDfd, r.toPath, target)
    ensures e in OutcomeOf(al, log, r, k).events <==> Due(al, log, k, r, e)
  {
  }

  lemma {:induction false} NoMove(al: Allowlist, log: Log, k: Kernel, r: Request, e: Event)
    requires r.MoveMount? && forall target :: !(Nonempty(r.toPath) && Leads(k, r.toDfd, r.toPath, target))
    ensures e !in OutcomeOf(al, log, r, k).events && !Due(al, log, k, r, e)
  {
    if r.toPath.Text? {
      var target := Resolve(k, r.toDfd, r.toPath.s);
      assert target.Ok? ==> !(Nonempty(r.toPath) && Leads(k, r.toDfd, r.toPath, target.value));
    }
  }

  lemma {:induction false} MoveEffects(al: Allowlist, log: Log, k: Kernel, r: Request, e: Event)
    requires r.MoveMount?
    ensures e in OutcomeOf(al, log, r, k).events <==> Due(al, log, k, r, e)
  {
    if target :| Nonempty(r.toPath) && Leads(k, r.toDfd, r.toPath, target) {
      if Blank(r.fromPath, 4096) {
        FdMoveEffects(al, log, k, r, target, e);
      } else {
        PathMoveEffects(al, log, k, r, target, e);
      }
    } else {
      NoMove(al, log, k, r, e);
    }
  }

  ghost function ScratchEvent(o: Opening, entry: (Str, Str)): Event {
    ScratchOpened(entry.0, entry.1, o.flags % 4, Bits(o.flags) + {17, 19}, o.mode % 0x1_0000_0000)
  }

  lemma {:induction false} NotScratchLike(al: Allowlist, k: Kernel, o: Opening)
    requires !ScratchLike(o)
    ensures ScratchOpenOutcome(al, k, o.dirfd, o.path, o.flags, o.mode, o.resolve).events == []
  {
    BitIsIn(o.flags, 6);
  }

  lemma {:induction false} NoScratchTarget(al: Allowlist, k: Kernel, o: Opening)
    requires ScratchTarget(al, k, o.dirfd, o.path).Err?
    ensures ScratchOpenOutcome(al, k, o.dirfd, o.path, o.flags, o.mode, o.resolve).events == []
  {
  }

  lemma {:induction false} ScratchOpenIs(al: Allowlist, k: Kernel, o: Opening, entry: (Str, Str))
    requires ScratchLike(o) && ScratchTarget(al, k, o.dirfd, o.path) == Ok(entry) && Below(al.scratch, entry.0, entry.1)
    ensures ScratchOpenOutcome(al, k, o.dirfd, o.path, o.flags, o.mode, o.resolve).events
         == if Granted(al, k, ScratchEvent(o, entry)) then [ScratchEvent(o, entry)] else []
  {
    BitIsIn(o.flags, 6);
    assert Bits(o.flags) + {19, 17} == Bits(o.flags) + {17, 19};
  }

  lemma {:induction false} ScratchOpenEffects(al: Allowlist, k: Kernel, o: Opening, e: Event)
    ensures e in ScratchOpenOutcome(al, k, o.dirfd, o.path, o.flags, o.mode, o.resolve).events
      <==> ScratchLike(o) && e.ScratchOpened? && LeadsTo(k, o.dirfd, o.path, e.parent, e.base) && Granted(al, k, e)
           && e.access == o.flags % 4 && e.bits == Bits(o.flags) + {17, 19} && e.mode == o.mode % 0x1_0000_0000
  {
    var target := ScratchTarget(al, k, o.dirfd, o.path);
    if !ScratchLike(o) {
      NotScratchLike(al, k, o);
    } else if target.Err? {
      NoScratchTarget(al, k, o);
      if e.ScratchOpened? {
        TargetIsEntry(al, k, o.dirfd, o.path, e.parent, e.base);
      }
    } else {
      TargetIsEntry(al, k, o.dirfd, o.path, target.value.0, target.value.1);
      ScratchOpenIs(al, k, o, target.value);
    }
  }

  lemma {:induction false} NeitherBit(bits: set<nat>)
    ensures bits * {6, 7} == {} <==> 6 !in bits && 7 !in bits
  {
    assert 6 in bits ==> 6 in bits * {6, 7};
    assert 7 in bits ==> 7 in bits * {6, 7};
  }

  lemma {:induction false} OddOpening(al: Allowlist, k: Kernel, o: Opening, e: Event)
    requires !Plain(o)
    ensures e in OpenOutcome(al, k, o.dirfd, o.path, o.flags, o.mode, o.resolve).events
      <==> (6 in Bits(o.flags) || 7 in Bits(o.flags))
           && e in ScratchOpenOutcome(al, k, o.dirfd, o.path, o.flags, o.mode, o.resolve).events
  {
    NeitherBit(Bits(o.flags));
    ScratchOpenEffects(al, k, o, e);
  }

  lemma {:induction false} PlainOpening(al: Allowlist, k: Kernel, o: Opening, file: Str, e: Event)
    requires Plain(o) && Honest(o) && Leads(k, o.dirfd, o.path, file)
    ensures e in OpenOutcome(al, k, o.dirfd, o.path, o.flags, o.mode, o.resolve).events
      <==> if Listed(al, file, o.flags % 4)
           then e == Opened(file, o.flags % 4, Bits(o.flags) + {19}) && Granted(al, k, e)
           else e in ScratchOpenOutcome(al, k, o.dirfd, o.path, o.flags, o.mode, o.resolve).events
  {
    ScratchOpenEffects(al, k, o, e);
  }

  lemma {:induction false} FutileOpening(al: Allowlist, k: Kernel, o: Opening)
    requires Plain(o) && (!Honest(o) || forall file :: !Leads(k, o.dirfd, o.path, file))
    ensures OpenOutcome(al, k, o.dirfd, o.path, o.flags, o.mode, o.resolve).events == []
  {
    if Honest(o) && o.path.Text? {
      var r := Resolve(k, o.dirfd, o.path.s);
      assert r.Ok? ==> !Leads(k, o.dirfd, o.path, r.value);
    }
  }

  lemma {:induction false} OpeningEffects(al: Allowlist, k: Kernel, o: Opening, e: Event)
    ensures e in OpenOutcome(al, k, o.dirfd, o.path, o.flags, o.mode, o.resolve).events
      <==> OpenWanted(al, k, o, e) && Granted(al, k, e)
  {
    ScratchOpenEffects(al, k, o, e);
    if !Plain(o) {
      OddOpening(al, k, o, e);
    } else if Honest(o) && exists file :: Leads(k, o.dirfd, o.path, file) {
      var file :| Leads(k, o.dirfd, o.path, file);
      PlainOpening(al, k, o, file, e);
    } else {
      FutileOpening(al, k, o);
    }
  }

  lemma {:induction false} OpenEffects(al: Allowlist, log: Log, k: Kernel, r: Request, e: Event)
    requires r.OpenAt? || r.OpenAt2?
    ensures e in OutcomeOf(al, log, r, k).events <==> Due(al, log, k, r, e)
  {
    if OpeningOf(r).Some? {
      OpeningEffects(al, k, OpeningOf(r).value, e);
    }
  }

  /** The effects of a request, whatever it is and whatever came before, are exactly
      those that it is due. */
  lemma {:induction false} EffectsAreDue(al: Allowlist, log: Log, k: Kernel, r: Request, e: Event)
    ensures e in OutcomeOf(al, log, r, k).events <==> Due(al, log, k, r, e)
  {
    match r
    case OpenAt(_, _, _, _) => OpenEffects(al, log, k, r, e);
    case OpenAt2(_, _, _) => OpenEffects(al, log, k, r, e);
    case MkdirAt(_, _, _) => MkdirEffects(al, log, k, r, e);
    case UnlinkAt(_, _, _) => UnlinkEffects(al, log, k, r, e);
    case RenameAt2(_, _, _, _, _) => RenameEffects(al, log, k, r, e);
    case SymlinkAt(_, _, _) => SymlinkEffects(al, log, k, r, e);
    case LinkAt(_, _, _, _, _) => LinkEffects(al, log, k, r, e);
    case Mount(_, _, _, _, _) => MountEffects(al, log, k, r, e);
    case Umount2(_, _) => UmountEffects(al, log, k, r, e);
    case Fsopen(_, _) => FsopenEffects(al, log, k, r, e);
    case Fsconfig(_, _, _, _, _) => FsconfigEffects(al, log, k, r, e);
    case Fsmount(_, _, _) => FsmountEffects(al, log, k, r, e);
    case OpenTree(_, _, _) => OpenTreeEffects(al, log, k, r, e);
    case MoveMount(_, _, _, _, _) => MoveEffects(al, log, k, r, e);
    case MountSetattr(_, _, _, _) => SetattrEffects(al, log, k, r, e);
    case OtherCall(_) =>
  }

  predicate UsesLeases(r: Request) {
    r.Fsmount? || r.OpenTree? || r.MoveMount?
  }

  lemma {:induction false} OneEffect(al: Allowlist, log: Log, k: Kernel, r: Request)
    requires !UsesLeases(r)
    ensures |OutcomeOf(al, log, r, k).events| <= 1
  {
  }

  lemma {:induction false} Stepwise(events: Log)
    requires forall i :: 0 <= i < |events| - 1 ==> Rank(events[i]) < Rank(events[i + 1])
    requires |events| <= 3
    ensures Ranked(events)
  {
    assert |events| == 3 ==> Rank(events[0]) < Rank(events[0 + 1]) && Rank(events[1]) < Rank(events[1 + 1]);
    assert |events| == 2 ==> Rank(events[0]) < Rank(events[0 + 1]);
  }

  lemma {:induction false} TakenRanked(al: Allowlist, k: Kernel, fd: int, name: Str, created: bool, attrs: nat, cloexec: bool)
    ensures var events := MountTakenOutcome(al, k, fd, name, created, attrs, cloexec).events;
      |events| <= 2 && (|events| > 0 ==> Rank(events[0]) == 1) && (|events| > 1 ==> Rank(events[1]) == 2)
  {
  }

  lemma {:induction false} TakeRanked(al: Allowlist, k: Kernel, lease: Oldest, fd: int, attrs: nat, cloexec: bool)
    ensures Ranked(TakeOutcome(al, k, lease, fd, attrs, cloexec).events)
  {
    if lease.Some? {
      TakenRanked(al, k, fd, lease.value.0, lease.value.1, attrs, cloexec);
    }
    Stepwise(TakeOutcome(al, k, lease, fd, attrs, cloexec).events);
  }

  lemma {:induction false} FsmountRanked(al: Allowlist, log: Log, k: Kernel, r: Request)
    requires r.Fsmount?
    ensures Ranked(OutcomeOf(al, log, r, k).events)
  {
    TakeRanked(al, k, OldestFs(log, r.fd), r.fd, r.attrs, Bit(r.fsmountFlags, CLOEXEC_BIT));
  }

  lemma {:induction false} TreeRanked(al: Allowlist, log: Log, k: Kernel, r: Request)
    requires r.OpenTree?
    ensures Ranked(OutcomeOf(al, log, r, k).events)
  {
  }

  lemma {:induction false} MoveRanked(al: Allowlist, log: Log, k: Kernel, r: Request)
    requires r.MoveMount?
    ensures Ranked(OutcomeOf(al, log, r, k).events)
  {
  }

  /** They come in order: a lease is taken, the work is done, a lease is added, each at
      most once. */
  lemma {:induction false} EffectsAreRanked(al: Allowlist, log: Log, k: Kernel, r: Request)
    ensures Ranked(OutcomeOf(al, log, r, k).events)
  {
    if r.Fsmount? {
      FsmountRanked(al, log, k, r);
    } else if r.OpenTree? {
      TreeRanked(al, log, k, r);
    } else if r.MoveMount? {
      MoveRanked(al, log, k, r);
    } else {
      OneEffect(al, log, k, r);
    }
  }

  /** Effects in order are fixed by which effects there are. */
  lemma {:induction false} RankedAreEqual(a: Log, b: Log)
    requires Ranked(a) && Ranked(b) && forall e :: e in a <==> e in b
    ensures a == b
  {
    assert b != [] ==> b[0] in a;
    assert a != [] ==> a[0] in b;
    if a != [] {
      assert a[0] == b[0];
      forall e ensures e in a[1..] <==> e in b[1..] {
        assert e in a[1..] ==> e in b && e != b[0];
        assert e in b[1..] ==> e in a && e != a[0];
      }
      RankedAreEqual(a[1..], b[1..]);
      assert a == [a[0]] + a[1..] && b == [b[0]] + b[1..];
    }
  }

  // ----- the answer of a request

  predicate InjectsFd(r: Request) {
    r.OpenAt? || r.OpenAt2? || r.Fsopen? || r.Fsmount? || r.OpenTree?
  }

  /** The tracee asked for a descriptor that closes on exec. */
  ghost predicate AsksCloexec(r: Request) {
    match r
    case OpenAt(_, _, flags, _) => 19 in Bits(flags)
    case OpenAt2(_, _, how) => how.Some? && 19 in Bits(how.value.flags)
    case OpenTree(_, _, flags) => 19 in Bits(flags)
    case Fsopen(_, flags) => 0 in Bits(flags)
    case Fsmount(_, flags, _) => 0 in Bits(flags)
    case _ => false
  }

  /** The work of the request: its effect without the leases around it. */
  ghost predicate Work(al: Allowlist, log: Log, k: Kernel, r: Request, e: Event) {
    Rank(e) == 1 && Meant(al, log, k, r, e)
  }

  /** The work is granted and no kernel call fails. */
  ghost predicate Served(al: Allowlist, log: Log, k: Kernel, r: Request) {
    && (exists e :: Work(al, log, k, r, e))
    && (r.Fsconfig? || k.operation.Ok?) && (InjectsFd(r) ==> LeasedFd(k).Some?)
  }

  /** The effects, with at most one lease taken first, contain the work. */
  predicate HasWork(events: Log) {
    (|events| > 0 && Rank(events[0]) == 1) || (|events| > 1 && Rank(events[1]) == 1)
  }

  /** What a request with and without work is told. */
  ghost predicate Answers(k: Kernel, r: Request, o: Outcome) {
    if !HasWork(o.events) then o.reply.Errno?
    else if r.Fsconfig? then o.reply == Success
    else if InjectsFd(r) then o.reply == FdReply(k, AsksCloexec(r))
    else o.reply == StatusReply(k)
  }

  lemma {:induction false} SimpleAnswer(al: Allowlist, log: Log, k: Kernel, r: Request)
    requires !UsesLeases(r) && !InjectsFd(r)
    ensures Answers(k, r, OutcomeOf(al, log, r, k))
  {
  }

  lemma {:induction false} ScratchOpenAnswer(al: Allowlist, k: Kernel, o: Opening)
    ensures var out := ScratchOpenOutcome(al, k, o.dirfd, o.path, o.flags, o.mode, o.resolve);
      if HasWork(out.events) then out.reply == FdReply(k, 19 in Bits(o.flags)) else out.reply.Errno?
  {
    BitIsIn(o.flags, 19);
  }

  lemma {:induction false} OpeningAnswer(al: Allowlist, k: Kernel, o: Opening)
    ensures var out := OpenOutcome(al, k, o.dirfd, o.path, o.flags, o.mode, o.resolve);
      if HasWork(out.events) then out.reply == FdReply(k, 19 in Bits(o.flags)) else out.reply.Errno?
  {
    BitIsIn(o.flags, 19);
    ScratchOpenAnswer(al, k, o);
  }

  lemma {:induction false} OpenAnswer(al: Allowlist, log: Log, k: Kernel, r: Request)
    requires r.OpenAt? || r.OpenAt2?
    ensures Answers(k, r, OutcomeOf(al, log, r, k))
  {
    if OpeningOf(r).Some? {
      OpeningAnswer(al, k, OpeningOf(r).value);
    }
  }

  lemma {:induction false} MoveAnswer(al: Allowlist, log: Log, k: Kernel, r: Request)
    requires r.MoveMount?
    ensures Answers(k, r, OutcomeOf(al, log, r, k))
  {
  }

  lemma {:induction false} TreeAnswer(al: Allowlist, log: Log, k: Kernel, r: Request)
    requires r.OpenTree?
    ensures Answers(k, r, OutcomeOf(al, log, r, k))
  {
    BitIsIn(r.treeFlags, 19);
  }

  lemma {:induction false} FsmountAnswer(al: Allowlist, log: Log, k: Kernel, r: Request)
    requires r.Fsmount?
    ensures Answers(k, r, OutcomeOf(al, log, r, k))
  {
    BitIsIn(r.fsmountFlags, 0);
  }

  lemma {:induction false} WorkInRanked(events: Log, e: Event)
    requires Ranked(events) && e in events && Rank(e) == 1
    ensures HasWork(events)
  {
    var i :| 0 <= i < |events| && events[i] == e;
  }

  lemma {:induction false} WorkIsDone(al: Allowlist, log: Log, k: Kernel, r: Request, e: Event)
    requires !r.Fsopen? && Work(al, log, k, r, e)
    ensures HasWork(OutcomeOf(al, log, r, k).events)
  {
    assert Kept(k, e) by {
      assert !e.FsopenLease?;
    }
    EffectsAreDue(al, log, k, r, e);
    EffectsAreRanked(al, log, k, r);
    WorkInRanked(OutcomeOf(al, log, r, k).events, e);
  }

  lemma {:induction false} WorkIsDue(al: Allowlist, log: Log, k: Kernel, r: Request, events: Log)
    requires !r.Fsopen? && events == OutcomeOf(al, log, r, k).events
    ensures HasWork(events) <==> exists e :: Work(al, log, k, r, e)
  {
    if HasWork(events) {
      var e := if Rank(events[0]) == 1 then events[0] else events[1];
      assert e in events;
      EffectsAreDue(al, log, k, r, e);
      assert Work(al, log, k, r, e);
    } else if e :| Work(al, log, k, r, e) {
      WorkIsDone(al, log, k, r, e);
    }
  }

  lemma {:induction false} FsopenAnswer(al: Allowlist, log: Log, k: Kernel, r: Request)
    requires r.Fsopen?
    ensures (exists e :: Work(al, log, k, r, e)) ==> OutcomeOf(al, log, r, k).reply == FdReply(k, AsksCloexec(r))
    ensures !OutcomeOf(al, log, r, k).reply.Errno? ==> exists e :: Work(al, log, k, r, e)
  {
    BitIsIn(r.fsopenFlags, 0);
    if !OutcomeOf(al, log, r, k).reply.Errno? {
      assert Work(al, log, k, r, FsopenLease(LeasedFd(k).value, r.name.s));
    }
  }

  /** A request succeeds exactly when it is served: its work is granted, the kernel
      does it, and a descriptor reaches the tracee if it asked for one. What it is
      told is then that descriptor, close-on-exec as asked, or plain success; and a
      failure of the kernel is passed on. */
  lemma {:induction false} AnswerIsService(al: Allowlist, log: Log, k: Kernel, r: Request)
    ensures !OutcomeOf(al, log, r, k).reply.Errno? <==> Served(al, log, k, r)
    ensures Served(al, log, k, r) ==>
      OutcomeOf(al, log, r, k).reply == if InjectsFd(r) then Descriptor(LeasedFd(k).value, AsksCloexec(r)) else Success
    ensures (exists e :: Work(al, log, k, r, e)) && !r.Fsconfig? && k.operation.Err? ==>
      OutcomeOf(al, log, r, k).reply == Errno(k.operation.errno)
  {
    if r.Fsopen? {
      FsopenAnswer(al, log, k, r);
    } else {
      WorkIsDue(al, log, k, r, OutcomeOf(al, log, r, k).events);
      if r.Fsmount? {
        FsmountAnswer(al, log, k, r);
      } else if r.OpenTree? {
        TreeAnswer(al, log, k, r);
      } else if r.MoveMount? {
        MoveAnswer(al, log, k, r);
      } else if InjectsFd(r) {
        OpenAnswer(al, log, k, r);
      } else {
        SimpleAnswer(al, log, k, r);
      }
    }
  }

  // ----- whole runs

  /** In every run, what a request adds to the history is exactly what it is due by the
      history before it, in order, and it succeeds exactly when it is served. */
  lemma {:induction false} RunServes(al: Allowlist, input: seq<Received>, i: nat)
    requires i < |input| && input[i].Received?
    ensures var before, after := RunLog(al, input[..i]), RunLog(al, input[..i + 1]);
      var replies, n := RunReplies(al, input[..i + 1]), input[i].n;
      && before <= after && Ranked(after[|before|..])
      && (forall e :: e in after[|before|..] <==> Due(al, before, n.kernel, n.request, e))
      && replies != [] && replies[..|replies| - 1] == RunReplies(al, input[..i]) && replies[|replies| - 1].0 == n.id
      && (!replies[|replies| - 1].1.Errno? <==> Served(al, before, n.kernel, n.request))
  {
    RunNext(al, input, i);
    var before, after, n := RunLog(al, input[..i]), RunLog(al, input[..i + 1]), input[i].n;
    assert after[|before|..] == OutcomeOf(al, before, n.request, n.kernel).events;
    EffectsAreRanked(al, before, n.kernel, n.request);
    AnswerIsService(al, before, n.kernel, n.request);
    forall e ensures e in after[|before|..] <==> Due(al, before, n.kernel, n.request, e) {
      EffectsAreDue(al, before, n.kernel, n.request, e);
    }
  }

  /** The request at i is the one that the effect at j was done for. */
  ghost predicate DoneFor(al: Allowlist, input: seq<Received>, j: nat, i: nat)
    requires j < |RunLog(al, input)|
  {
    && i < |input| && input[i].Received?
    && |RunLog(al, input[..i])| <= j < |RunLog(al, input[..i + 1])|
    && Due(al, RunLog(al, input[..i]), input[i].n.kernel, input[i].n.request, RunLog(al, input)[j])
  }

  /** In every run, every effect was done for a request that was due it. */
  lemma {:induction false} EveryEffectHasItsRequest(al: Allowlist, input: seq<Received>, j: nat) returns (i: nat)
    requires j < |RunLog(al, input)|
    ensures DoneFor(al, input, j, i)
  {
    var n := |input| - 1;
    assert input[..n + 1] == input;
    RunNext(al, input, n);
    if j < |RunLog(al, input[..n])| {
      i := EveryEffectHasItsRequest(al, input[..n], j);
      assert input[..n][..i] == input[..i] && input[..n][..i + 1] == input[..i + 1];
    } else {
      i := n;
      RunServes(al, input, n);
      var before := RunLog(al, input[..n]);
      assert RunLog(al, input)[j] == RunLog(al, input)[|before|..][j - |before|];
    }
  }
}
