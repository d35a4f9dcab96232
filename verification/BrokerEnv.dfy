/** What reaches the broker from outside: the requests of the tracee and the
    answers of the kernel, and how requested paths are resolved with them. */
module BrokerEnv {
  import opened Bytes
  import opened Paths
  import opened PolicyIr
  import opened BrokerLog

  /** A string argument of the tracee, as process_vm_readv sees it. */
  datatype Ptr = Null | Text(s: Str) | Fault(errno: int)

  datatype OpenHow = OpenHow(flags: u64, mode: u64, resolve: u64)

  datatype MountAttr = MountAttr(attrSet: u64, attrClr: u64, propagation: u64, usernsFd: u64)

  /** A notification's syscall with its registers cast to the C types. */
  datatype Request =
    | OpenAt(dirfd: int, path: Ptr, flags: u64, mode: u64)
    | OpenAt2(dirfd: int, path: Ptr, how: Option<OpenHow>)
    | MkdirAt(dirfd: int, path: Ptr, dirMode: u32)
    | UnlinkAt(dirfd: int, path: Ptr, unlinkFlags: int)
    | RenameAt2(dirfd: int, path: Ptr, newDirfd: int, newPath: Ptr, renameFlags: u32)
    | SymlinkAt(text: Ptr, dirfd: int, path: Ptr)
    | LinkAt(dirfd: int, path: Ptr, newDirfd: int, newPath: Ptr, linkFlags: int)
    | Mount(source: Ptr, target: Ptr, fsType: Ptr, mountFlags: u64, options: Ptr)
    | Umount2(target: Ptr, umountFlags: int)
    | Fsopen(name: Ptr, fsopenFlags: u32)
    | Fsconfig(fd: int, cmd: u32, key: u64, value: u64, aux: u64)
    | Fsmount(fd: int, fsmountFlags: u32, attrs: u32)
    | OpenTree(dirfd: int, path: Ptr, treeFlags: u32)
    | MoveMount(fromDfd: int, fromPath: Ptr, toDfd: int, toPath: Ptr, moveFlags: u32)
    | MountSetattr(dirfd: int, path: Ptr, setattrFlags: u32, attr: Option<MountAttr>)
    | OtherCall(nr: int)

  /** The kernel's answers while one notification is handled. Each field answers
      the call of that kind, which a handler makes at most once. */
  datatype Kernel = Kernel(
    realpath: Str -> Result<Str>,
    procLink: int -> Result<Str>,
    openParent: Result<()>,
    openNewParent: Result<()>,
    operation: Result<()>,
    dupFd: Result<()>,
    addfdSend: Result<nat>,
    addfdPlain: Result<nat>,
    sendValue: Result<()>,
    send: Result<()>,
    memory: bool,
    staleErrno: int
  )

  /** realpath returns canonical paths that fit its buffer; links are C strings. */
  ghost predicate ValidKernel(k: Kernel) {
    && (forall p {:trigger ValidAnswer(k, p)} :: ValidAnswer(k, p))
    && (forall d {:trigger ValidLink(k, d)} :: ValidLink(k, d))
  }

  predicate ValidAnswer(k: Kernel, p: Str) {
    k.realpath(p).Ok? ==> Canonical(k.realpath(p).value) && |k.realpath(p).value| < PATH_MAX
  }

  predicate ValidLink(k: Kernel, dirfd: int) {
    k.procLink(dirfd).Ok? ==> NulFree(k.procLink(dirfd).value)
  }

  predicate ValidPtr(p: Ptr) {
    p.Text? ==> NulFree(p.s)
  }

  predicate ValidRequest(r: Request) {
    match r
    case OpenAt(_, path, _, _) => ValidPtr(path)
    case OpenAt2(_, path, _) => ValidPtr(path)
    case MkdirAt(_, path, _) => ValidPtr(path)
    case UnlinkAt(_, path, _) => ValidPtr(path)
    case RenameAt2(_, path, _, newPath, _) => ValidPtr(path) && ValidPtr(newPath)
    case SymlinkAt(text, _, path) => ValidPtr(text) && ValidPtr(path)
    case LinkAt(_, path, _, newPath, _) => ValidPtr(path) && ValidPtr(newPath)
    case Mount(source, target, fsType, _, options) =>
      ValidPtr(source) && ValidPtr(target) && ValidPtr(fsType) && ValidPtr(options)
    case Umount2(target, _) => ValidPtr(target)
    case Fsopen(name, _) => ValidPtr(name)
    case OpenTree(_, path, _) => ValidPtr(path)
    case MoveMount(_, fromPath, _, toPath, _) => ValidPtr(fromPath) && ValidPtr(toPath)
    case MountSetattr(_, path, _, _) => ValidPtr(path)
    case _ => true
  }

  datatype Reply = Errno(errno: int) | Success | Descriptor(fd: nat, cloexec: bool)

  /** How one notification ended: a reply the kernel accepted, or the kernel's
      word that the notification no longer exists. */
  datatype Delivery = Answer(id: int, reply: Reply) | Gone(id: int)

  /** A call that returned rc added exactly one delivery for the notification
      when rc is 0, and none when the broker is about to stop. */
  ghost predicate OneDelivery(before: seq<Delivery>, after: seq<Delivery>, id: int, rc: int) {
    && (rc == 0 || rc == -1)
    && (rc == 0 ==> |after| == |before| + 1 && after[..|before|] == before && after[|before|].id == id)
    && (rc < 0 ==> after == before)
  }

  datatype Notification = Notification(id: int, request: Request, kernel: Kernel)

  /** One turn of the receive ioctl. */
  datatype Received = Interrupted | NoMore | Broken | Received(n: Notification)

  // flag words, by bit number
  const CLOEXEC_BITS: set<nat> := {0}                       // FSOPEN_CLOEXEC, FSMOUNT_CLOEXEC
  const TREE_BITS: set<nat> := {0, 19}                      // OPEN_TREE_CLONE | OPEN_TREE_CLOEXEC
  const TREE_CLONE_BIT: nat := 0
  const TREE_CLOEXEC_BIT: nat := 19
  const CLOEXEC_BIT: nat := 0                               // FSOPEN_CLOEXEC, FSMOUNT_CLOEXEC
  const PLAIN_OPEN_BITS: set<nat> := {0, 1, 9, 10, 17, 19}  // ACCMODE TRUNC APPEND NOFOLLOW CLOEXEC
  const SCRATCH_OPEN_BITS: set<nat> := {0, 1, 6, 7, 9, 10, 16, 17, 19}  // and CREAT EXCL DIRECTORY
  const CREAT_BITS: set<nat> := {6, 7}                      // CREAT EXCL
  const O_CREAT_BIT: nat := 6
  const WRITE_ONLY_BITS: set<nat> := {9, 10}                // TRUNC APPEND
  const TMPFS_BITS: set<nat> := {0, 1, 2, 3}                // MS_RDONLY MS_NOSUID MS_NODEV MS_NOEXEC
  const TMPFS_CHOICE_BITS: set<nat> := {0, 3}               // MS_RDONLY MS_NOEXEC
  const BIND_BITS: set<nat> := {0, 12}                      // MS_RDONLY MS_BIND
  const MS_RDONLY_BIT: nat := 0
  const MS_BIND_BIT: nat := 12
  const FSCONFIG_CMD_CREATE: u32 := 6
  const MOVE_MOUNT_F_EMPTY_PATH: u32 := 4
  const MNT_DETACH: int := 2
  const AT_REMOVEDIR: int := 512
  const RENAME_NOREPLACE: u32 := 1

  /** landlockd_read_tracee_string into a buffer of the given size: the
      terminator must be among the first size - 1 bytes. */
  function ReadString(p: Ptr, size: nat): Result<Str> {
    match p
    case Null => Err(EFAULT)
    case Fault(e) => Err(e)
    case Text(s) => if |s| + 2 <= size then Ok(s) else Err(ENAMETOOLONG)
  }

  /** landlockd_build_tracee_path. */
  function TraceePath(k: Kernel, dirfd: int, requested: Str): Result<Str> {
    if requested != [] && requested[0] == '/' then
      if |requested| >= PATH_MAX then Err(ENAMETOOLONG) else Ok(requested)
    else
      match k.procLink(dirfd)
      case Err(e) => Err(e)
      case Ok(base) =>
        if |base| + 1 + |requested| >= PATH_MAX then Err(ENAMETOOLONG) else Ok(base + "/" + requested)
  }

  /** landlockd_resolve_tracee_path. */
  function Resolve(k: Kernel, dirfd: int, requested: Str): Result<Str> {
    if requested != [] && requested[0] == '/' then k.realpath(requested)
    else
      match TraceePath(k, dirfd, requested)
      case Err(e) => Err(e)
      case Ok(path) => k.realpath(path)
  }

  /** landlockd_resolve_tracee_parent. */
  function ResolveParent(k: Kernel, dirfd: int, requested: Str): Result<(Str, Str)> {
    match TraceePath(k, dirfd, requested)
    case Err(e) => Err(e)
    case Ok(path) =>
      match SplitParent(path, PATH_MAX, NAME_MAX + 1)
      case Err(e) => Err(e)
      case Ok((parent, base)) =>
        match k.realpath(parent)
        case Err(e) => Err(e)
        case Ok(canonical) => if |canonical| >= PATH_MAX then Err(ENAMETOOLONG) else Ok((canonical, base))
  }

  /** What a resolved parent and name look like, whatever the tracee asked for. */
  lemma {:induction false} ResolvedParent(k: Kernel, dirfd: int, requested: Str)
    requires ValidKernel(k) && NulFree(requested) && ResolveParent(k, dirfd, requested).Ok?
    ensures var (parent, base) := ResolveParent(k, dirfd, requested).value;
      Canonical(parent) && ValidName(base) && |parent| < PATH_MAX && |base| <= NAME_MAX
  {
    var path := TraceePath(k, dirfd, requested).value;
    assert ValidLink(k, dirfd);
    assert NulFree(path);
    assert ValidAnswer(k, SplitParent(path, PATH_MAX, NAME_MAX + 1).value.0);
    SplitBase(path, PATH_MAX, NAME_MAX + 1);
  }

  lemma {:induction false} ResolvedPath(k: Kernel, dirfd: int, requested: Str)
    requires ValidKernel(k) && Resolve(k, dirfd, requested).Ok?
    ensures Canonical(Resolve(k, dirfd, requested).value)
  {
    assert ValidAnswer(k, requested);
    if TraceePath(k, dirfd, requested).Ok? {
      assert ValidAnswer(k, TraceePath(k, dirfd, requested).value);
    }
  }

  // ----- the allowlist scans as predicates on strings

  predicate AddfdAllowed(al: Allowlist, action: Str, target: Str, mode: Option<Str>) {
    exists i :: 0 <= i < |al.addfd| && al.addfd[i].action == action
      && ModeMatches(al.addfd[i], mode) && IsUnder(al.addfd[i].target, target)
  }

  predicate AddfdCovers(al: Allowlist, action: Str, rule: ObjectRule) {
    rule.attach != [] && forall i :: 0 <= i < |rule.attach| ==> AddfdAllowed(al, action, rule.attach[i], None)
  }

  predicate UnderSome(roots: seq<Str>, path: Str) {
    exists i :: 0 <= i < |roots| && IsUnder(roots[i], path)
  }

  lemma {:induction false} AddfdAllowedGoverns(al: Allowlist, action: Str, target: Str, mode: Option<Str>)
    requires CanonicalAllowlist(al) && Canonical(target)
    requires AddfdAllowed(al, action, target, mode)
    ensures AddfdGoverns(al, action, target, mode)
  {
    var i :| 0 <= i < |al.addfd| && al.addfd[i].action == action
      && ModeMatches(al.addfd[i], mode) && IsUnder(al.addfd[i].target, target);
    assert CanonicalTarget(al, i);
    UnderMeansBeneath(al.addfd[i].target, target);
  }

  lemma {:induction false} AddfdCoversGoverns(al: Allowlist, action: Str, name: Str)
    requires CanonicalAllowlist(al) && FirstObject(al.objects, name).Some?
    requires AddfdCovers(al, action, FirstObject(al.objects, name).value)
    ensures AddfdGovernsAll(al, action, FirstObject(al.objects, name).value)
  {
    var rule := FirstObject(al.objects, name).value;
    FirstObjectIsRule(al.objects, name);
    var n :| 0 <= n < |al.objects| && al.objects[n] == rule;
    assert CanonicalAttach(al, n);
    forall i | 0 <= i < |rule.attach| ensures AddfdGoverns(al, action, rule.attach[i], None) {
      assert CanonicalAt(rule.attach, i);
      AddfdAllowedGoverns(al, action, rule.attach[i], None);
    }
  }

  lemma {:induction false} FirstObjectIsRule(rules: seq<ObjectRule>, name: Str)
    requires FirstObject(rules, name).Some?
    ensures FirstObject(rules, name).value in rules && FirstObject(rules, name).value.name == name
  {
    if rules[0].name != name {
      FirstObjectIsRule(rules[1..], name);
    }
  }

  lemma {:induction false} UnderSomeConfined(roots: seq<Str>, path: Str)
    requires AllCanonical(roots) && Canonical(path) && UnderSome(roots, path)
    ensures Confined(roots, path)
  {
    var i :| 0 <= i < |roots| && IsUnder(roots[i], path);
    assert CanonicalAt(roots, i);
    UnderMeansBeneath(roots[i], path);
  }
}
