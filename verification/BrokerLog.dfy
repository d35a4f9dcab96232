/** What the broker may do, as a law on the history of its actions, and what
    the law means for whole runs. */
module BrokerLog {
  import opened Bytes
  import opened Paths
  import opened PolicyIr
  import opened Fifo

  /** struct landlockd_broker_allowlist: paths already passed through realpath. */
  datatype Allowlist = Allowlist(
    read: seq<Str>,
    write: seq<Str>,
    scratch: seq<Str>,
    exports: seq<Str>,
    tmpfs: seq<Str>,
    bind: seq<BindRule>,
    objects: seq<ObjectRule>,
    addfd: seq<AddfdRule>
  )

  predicate CanonicalAt(paths: seq<Str>, i: nat) {
    i < |paths| ==> Canonical(paths[i])
  }

  ghost predicate AllCanonical(paths: seq<Str>) {
    forall i: nat {:trigger CanonicalAt(paths, i)} :: CanonicalAt(paths, i)
  }

  predicate CanonicalTarget(al: Allowlist, i: nat) {
    i < |al.addfd| ==> Canonical(al.addfd[i].target)
  }

  ghost predicate CanonicalAttach(al: Allowlist, i: nat) {
    i < |al.objects| ==> AllCanonical(al.objects[i].attach)
  }

  /** landlockd_broker_allowlist_init resolves every path with realpath. */
  ghost predicate CanonicalAllowlist(al: Allowlist) {
    && AllCanonical(al.scratch) && AllCanonical(al.exports)
    && (forall i: nat {:trigger CanonicalAttach(al, i)} :: CanonicalAttach(al, i))
    && (forall i: nat {:trigger CanonicalTarget(al, i)} :: CanonicalTarget(al, i))
  }

  datatype Kind = SOURCE | OBJECT

  datatype Event =
    // the lease tables
    | FsopenLease(fd: int, name: Str)
    | FsconfigCreate(fd: int, name: Str)
    | FsTaken(fd: int, name: Str, created: bool)
    | LeaseAdded(fd: int, kind: Kind, value: Str)
    | LeaseTaken(fd: int, kind: Kind, value: Str)
    // mount work handed to the kernel
    | FsMounted(fd: int, name: Str, fsType: Str, attrs: nat)
    | TreeOpened(source: Str)
    | FdMoved(fd: int, kind: Kind, value: Str, target: Str, readOnly: bool)
    | PathMoved(source: Str, target: Str, readOnly: bool)
    | BindMounted(source: Str, target: Str, readOnly: bool)
    | TmpfsMounted(target: Str, bits: set<nat>)
    | Unmounted(target: Str, detach: int)
    | AttrSet(target: Str, attrs: nat)
    // file-system work handed to the kernel
    | Opened(path: Str, access: nat, bits: set<nat>)
    | ScratchOpened(parent: Str, base: Str, access: nat, bits: set<nat>, mode: nat)
    | MadeDir(parent: Str, base: Str, mode: nat)
    | Removed(parent: Str, base: Str, removal: int)
    | Symlinked(text: Str, parent: Str, base: Str)
    | Renamed(parent: Str, base: Str, newParent: Str, newBase: Str, renaming: nat)
    | Linked(parent: Str, base: Str, newParent: Str, newBase: Str)

  type Log = seq<Event>

  // flag bits that the broker sets itself
  const O_NOFOLLOW_BIT: nat := 17
  const O_CLOEXEC_BIT: nat := 19
  const TMPFS_FORCED_BITS: set<nat> := {1, 2}  // MS_NOSUID MS_NODEV

  // ----- what the allowlist grants

  /** The first rule for the name, as landlockd_broker_find_mount_object_rule picks it. */
  function FirstObject(rules: seq<ObjectRule>, name: Str): Option<ObjectRule> {
    if rules == [] then None
    else if rules[0].name == name then Some(rules[0])
    else FirstObject(rules[1..], name)
  }

  function FirstObjectFor(rules: seq<ObjectRule>, target: Str): Option<ObjectRule> {
    if rules == [] then None
    else if target in rules[0].attach then Some(rules[0])
    else FirstObjectFor(rules[1..], target)
  }

  function FirstBind(rules: seq<BindRule>, source: Str, target: Str): Option<BindRule> {
    if rules == [] then None
    else if rules[0].source == source && rules[0].target == target then Some(rules[0])
    else FirstBind(rules[1..], source, target)
  }

  predicate ModeMatches(rule: AddfdRule, mode: Option<Str>) {
    mode.None? || rule.mode.None? || rule.mode == mode
  }

  /** Some addfd rule names the action, accepts the mode and governs the target. */
  ghost predicate AddfdGoverns(al: Allowlist, action: Str, target: Str, mode: Option<Str>) {
    exists i :: 0 <= i < |al.addfd| && al.addfd[i].action == action
      && ModeMatches(al.addfd[i], mode) && Beneath(al.addfd[i].target, target)
  }

  ghost predicate AddfdGovernsAll(al: Allowlist, action: Str, rule: ObjectRule) {
    rule.attach != [] && forall i :: 0 <= i < |rule.attach| ==> AddfdGoverns(al, action, rule.attach[i], None)
  }

  ghost predicate Confined(roots: seq<Str>, path: Str) {
    exists i :: 0 <= i < |roots| && Beneath(roots[i], path)
  }

  /** A name in a canonical directory at or below one of the roots, where the path
      of the two fits PATH_MAX. */
  ghost predicate Entry(roots: seq<Str>, parent: Str, base: Str) {
    Canonical(parent) && ValidName(base) && JoinPath(parent, base, PATH_MAX).Ok? && Confined(roots, parent)
  }

  function ModeName(access: nat): Str {
    if access == 0 then "read" else "write"
  }

  // ----- the law

  function FsOp(e: Event): Op<Str> {
    match e
    case FsopenLease(fd, name) => Add(fd, name)
    case FsTaken(fd, name, _) => Take(fd, name)
    case _ => Skip
  }

  function CreateOp(e: Event): Op<Str> {
    match e
    case FsconfigCreate(fd, name) => Add(fd, name)
    case FsTaken(fd, name, true) => Take(fd, name)
    case _ => Skip
  }

  function MountOp(e: Event): Op<(Kind, Str)> {
    match e
    case LeaseAdded(fd, kind, value) => Add(fd, (kind, value))
    case LeaseTaken(fd, kind, value) => Take(fd, (kind, value))
    case _ => Skip
  }

  function FsOps(log: Log): seq<Op<Str>> {
    seq(|log|, i requires 0 <= i < |log| => FsOp(log[i]))
  }

  function CreateOps(log: Log): seq<Op<Str>> {
    seq(|log|, i requires 0 <= i < |log| => CreateOp(log[i]))
  }

  function MountOps(log: Log): seq<Op<(Kind, Str)>> {
    seq(|log|, i requires 0 <= i < |log| => MountOp(log[i]))
  }

  ghost predicate EndsWith(log: Log, e: Event) {
    log != [] && log[|log| - 1] == e
  }

  ghost predicate EndsMounted(log: Log, name: Str) {
    log != [] && log[|log| - 1].FsMounted? && log[|log| - 1].name == name
  }

  /** The event e is justified by the allowlist and the history pre. */
  ghost predicate Fits(al: Allowlist, pre: Log, e: Event) {
    match e
    case FsopenLease(fd, name) =>
      var rule := FirstObject(al.objects, name);
      rule.Some? && AddfdGovernsAll(al, FSOPEN, rule.value)
    case FsconfigCreate(fd, name) =>
      var open := Pending(FsOps(pre), fd);
      open != [] && open[0] == name && Pending(CreateOps(pre), fd) == []
    case FsTaken(fd, name, created) =>
      var open, made := Pending(FsOps(pre), fd), Pending(CreateOps(pre), fd);
      open != [] && open[0] == name && created == (made != []) && (created ==> made[0] == name)
    case FsMounted(fd, name, fsType, attrs) =>
      var rule := FirstObject(al.objects, name);
      EndsWith(pre, FsTaken(fd, name, true)) && rule.Some? && fsType == rule.value.fsType
      && Bits(attrs) <= Bits(rule.value.attrs) && AddfdGovernsAll(al, FSMOUNT, rule.value)
    case TreeOpened(source) =>
      (exists i :: 0 <= i < |al.bind| && al.bind[i].source == source)
      && AddfdGoverns(al, OPEN_TREE, source, None)
    case LeaseAdded(fd, OBJECT, name) =>
      EndsMounted(pre, name)
    case LeaseAdded(fd, SOURCE, source) =>
      EndsWith(pre, TreeOpened(source))
    case LeaseTaken(fd, kind, value) =>
      var held := Pending(MountOps(pre), fd);
      held != [] && held[0] == (kind, value)
    case FdMoved(fd, OBJECT, name, target, readOnly) =>
      var rule := FirstObject(al.objects, name);
      EndsWith(pre, LeaseTaken(fd, OBJECT, name)) && rule.Some? && target in rule.value.attach && !readOnly
    case FdMoved(fd, SOURCE, source, target, readOnly) =>
      var rule := FirstBind(al.bind, source, target);
      EndsWith(pre, LeaseTaken(fd, SOURCE, source)) && rule.Some? && readOnly == rule.value.readOnly
    case PathMoved(source, target, readOnly) =>
      var rule := FirstBind(al.bind, source, target);
      rule.Some? && readOnly == rule.value.readOnly
    case BindMounted(source, target, readOnly) =>
      var rule := FirstBind(al.bind, source, target);
      rule.Some? && (rule.value.readOnly ==> readOnly)
    case TmpfsMounted(target, bits) => target in al.tmpfs && TMPFS_FORCED_BITS <= bits
    case Unmounted(target, _) =>
      target in al.tmpfs || exists i :: 0 <= i < |al.bind| && al.bind[i].target == target
    case AttrSet(target, attrs) =>
      var rule := FirstObjectFor(al.objects, target);
      rule.Some? && Bits(attrs) <= Bits(rule.value.attrs)
    case Opened(path, access, bits) =>
      O_CLOEXEC_BIT in bits && (path in al.write || (access == 0 && path in al.read))
      && AddfdGoverns(al, OPEN, path, Some(ModeName(access)))
    case ScratchOpened(parent, base, access, bits, _) =>
      O_NOFOLLOW_BIT in bits && O_CLOEXEC_BIT in bits && Entry(al.scratch, parent, base)
      && AddfdGoverns(al, SCRATCH_OPEN, JoinPath(parent, base, PATH_MAX).value, Some(ModeName(access)))
    case MadeDir(parent, base, _) => Entry(al.scratch, parent, base)
    case Removed(parent, base, _) => Entry(al.scratch, parent, base)
    case Symlinked(_, parent, base) => Entry(al.scratch, parent, base)
    case Renamed(parent, base, newParent, newBase, _) =>
      Entry(al.scratch, parent, base) && (Entry(al.scratch, newParent, newBase) || Entry(al.exports, newParent, newBase))
    case Linked(parent, base, newParent, newBase) =>
      Entry(al.scratch, parent, base) && (Entry(al.scratch, newParent, newBase) || Entry(al.exports, newParent, newBase))
  }

  ghost predicate FitsIn(al: Allowlist, log: Log, i: nat)
    requires i < |log|
  {
    Fits(al, log[..i], log[i])
  }

  /** Every event of the run is justified by what came before it. */
  ghost predicate LawfulLog(al: Allowlist, log: Log) {
    forall i {:trigger FitsIn(al, log, i)} :: 0 <= i < |log| ==> FitsIn(al, log, i)
  }

  // ----- extending a lawful log

  lemma {:induction false} OpsOfPrefix(log: Log, i: nat)
    requires i <= |log|
    ensures FsOps(log)[..i] == FsOps(log[..i])
    ensures CreateOps(log)[..i] == CreateOps(log[..i])
    ensures MountOps(log)[..i] == MountOps(log[..i])
  {
  }

  lemma {:induction false} OpsOfSnoc(log: Log, e: Event)
    ensures FsOps(log + [e]) == FsOps(log) + [FsOp(e)]
    ensures CreateOps(log + [e]) == CreateOps(log) + [CreateOp(e)]
    ensures MountOps(log + [e]) == MountOps(log) + [MountOp(e)]
  {
  }

  lemma {:induction false} LawfulOps(al: Allowlist, log: Log)
    requires LawfulLog(al, log)
    ensures Lawful(FsOps(log)) && Lawful(CreateOps(log)) && Lawful(MountOps(log))
  {
    forall i | 0 <= i < |log|
      ensures TakesOldest(FsOps(log), i) && TakesOldest(CreateOps(log), i) && TakesOldest(MountOps(log), i)
    {
      assert FitsIn(al, log, i);
      OpsOfPrefix(log, i);
    }
  }

  lemma {:induction false} LawfulLogSnoc(al: Allowlist, log: Log, e: Event)
    requires LawfulLog(al, log) && Fits(al, log, e)
    ensures LawfulLog(al, log + [e])
  {
    forall i | 0 <= i < |log + [e]| ensures FitsIn(al, log + [e], i) {
      if i < |log| {
        assert FitsIn(al, log, i);
        assert (log + [e])[..i] == log[..i];
      } else {
        assert (log + [e])[..i] == log;
      }
    }
  }

  lemma {:induction false} FitsAt(al: Allowlist, log: Log, i: nat)
    requires LawfulLog(al, log) && i < |log|
    ensures Fits(al, log[..i], log[i])
  {
    assert FitsIn(al, log, i);
  }

  // ----- whole runs

  /** The grants behind one successful fsmount, and behind one move of an object lease. */
  datatype Chain = Chain(fsopen: nat, create: nat, take: nat, mount: nat, lease: nat, release: nat)

  /** The create grant consumed by the take at t was made on the very lease
      that t takes: the fsopen grant precedes it. */
  lemma {:induction false} CreatedAfterOpened(al: Allowlist, log: Log, t: nat)
    requires LawfulLog(al, log) && t < |log| && log[t].FsTaken? && log[t].created
    requires Lawful(FsOps(log)) && Lawful(CreateOps(log))
    ensures Source(FsOps(log), t) < Source(CreateOps(log), t)
  {
    var fs, cr, fd := FsOps(log), CreateOps(log), log[t].fd;
    var a, c := Source(fs, t), Source(cr, t);
    assert log[c].FsconfigCreate? && log[c].fd == fd;
    FitsAt(al, log, c);
    OpsOfPrefix(log, c);
    LawfulPrefix(cr, c);
    Conservation(cr[..c], fd);
    NoTakeBetween(al, log, c, t, t);
    LawfulPrefix(fs, c);
    Conservation(fs[..c], fd);
    assert |Taken(fs[..t], fd)| < |Added(fs[..c], fd)|;
    AddIndexBefore(fs, a, c, fd);
    assert log[a] != log[c];
  }

  /** Between the create grant at c and the take at t that consumes it, the lease is
      not taken. */
  lemma {:induction false} NotTakenAt(al: Allowlist, log: Log, c: nat, j: nat, t: nat)
    requires LawfulLog(al, log) && c < j < t < |log|
    requires log[t].FsTaken? && log[t].created
    requires Lawful(CreateOps(log)) && c == Source(CreateOps(log), t)
    requires Pending(CreateOps(log)[..c], log[t].fd) == []
    ensures !(log[j].FsTaken? && log[j].fd == log[t].fd)
  {
    FitsAt(al, log, j);
    OpsOfPrefix(log, j);
    StaysPending(CreateOps(log), j, t);
  }

  lemma {:induction false} NoTakeBetween(al: Allowlist, log: Log, c: nat, j: nat, t: nat)
    requires LawfulLog(al, log) && c < j <= t < |log|
    requires log[t].FsTaken? && log[t].created
    requires Lawful(FsOps(log)) && Lawful(CreateOps(log))
    requires c == Source(CreateOps(log), t)
    requires Pending(CreateOps(log)[..c], log[t].fd) == []
    ensures |Taken(FsOps(log)[..j], log[t].fd)| == |Taken(FsOps(log)[..c], log[t].fd)|
  {
    var fs, fd := FsOps(log), log[t].fd;
    CountsStep(fs, j - 1, fd);
    if j == c + 1 {
      assert fs[c] == Skip;
    } else {
      NoTakeBetween(al, log, c, j - 1, t);
      NotTakenAt(al, log, c, j - 1, t);
    }
  }

  /** Every successful fsmount consumes one create grant made on one fsopen
      grant of the same object, and the object's rule allows its attributes. */
  lemma {:induction false} FsmountHistory(al: Allowlist, log: Log, m: nat) returns (a: nat, c: nat)
    requires LawfulLog(al, log) && m < |log| && log[m].FsMounted?
    ensures 0 < m && log[m - 1] == FsTaken(log[m].fd, log[m].name, true)
    ensures Lawful(FsOps(log)) && Lawful(CreateOps(log))
    ensures a == Source(FsOps(log), m - 1) && c == Source(CreateOps(log), m - 1)
    ensures a < c < m
    ensures log[a] == FsopenLease(log[m].fd, log[m].name)
    ensures log[c] == FsconfigCreate(log[m].fd, log[m].name)
    ensures var rule := FirstObject(al.objects, log[m].name);
      rule.Some? && Bits(log[m].attrs) <= Bits(rule.value.attrs)
      && AddfdGovernsAll(al, FSOPEN, rule.value) && AddfdGovernsAll(al, FSMOUNT, rule.value)
  {
    FitsAt(al, log, m);
    LawfulOps(al, log);
    a, c := Source(FsOps(log), m - 1), Source(CreateOps(log), m - 1);
    CreatedAfterOpened(al, log, m - 1);
    FitsAt(al, log, a);
  }

  /** h names the grants that the move at i consumed, by matching every
      removal with its own addition. */
  ghost predicate IsChain(log: Log, i: nat, h: Chain)
    requires i < |log|
    requires Lawful(FsOps(log)) && Lawful(CreateOps(log)) && Lawful(MountOps(log))
  {
    && 0 < i && log[i - 1].LeaseTaken? && h.release == i - 1
    && h.lease == Source(MountOps(log), i - 1) && h.lease == h.mount + 1 == h.take + 2
    && h.take < |log| && log[h.take].FsTaken? && log[h.take].created
    && h.fsopen == Source(FsOps(log), h.take) && h.create == Source(CreateOps(log), h.take)
  }

  /** A move through an object lease that reaches the kernel has the whole
      history behind it: fsopen, then create, then fsmount, all for one object
      name, and a target and attributes that the object's rule lists. */
  lemma {:induction false} ObjectMoveHistory(al: Allowlist, log: Log, i: nat) returns (h: Chain)
    requires LawfulLog(al, log) && i < |log| && log[i].FdMoved? && log[i].kind == OBJECT
    ensures Lawful(FsOps(log)) && Lawful(CreateOps(log)) && Lawful(MountOps(log))
    ensures IsChain(log, i, h)
    ensures h.fsopen < h.create < h.take < h.mount < h.lease < h.release < i
    ensures log[h.release] == LeaseTaken(log[i].fd, OBJECT, log[i].value)
    ensures log[h.lease] == LeaseAdded(log[i].fd, OBJECT, log[i].value)
    ensures log[h.mount].FsMounted? && log[h.mount].name == log[i].value
    ensures log[h.take] == FsTaken(log[h.mount].fd, log[i].value, true)
    ensures log[h.create] == FsconfigCreate(log[h.mount].fd, log[i].value)
    ensures log[h.fsopen] == FsopenLease(log[h.mount].fd, log[i].value)
    ensures var rule := FirstObject(al.objects, log[i].value);
      rule.Some? && log[i].target in rule.value.attach && Bits(log[h.mount].attrs) <= Bits(rule.value.attrs)
  {
    FitsAt(al, log, i);
    LawfulOps(al, log);
    var g := Source(MountOps(log), i - 1);
    FitsAt(al, log, g);
    var a, c := FsmountHistory(al, log, g - 1);
    h := Chain(a, c, g - 2, g - 1, g, i - 1);
  }

  lemma {:induction false} SourcesOfDifferentTakes(log: Log, t: nat, u: nat)
    requires Lawful(FsOps(log)) && Lawful(CreateOps(log))
    requires t < |log| && u < |log| && t != u
    requires log[t].FsTaken? && log[t].created && log[u].FsTaken? && log[u].created
    ensures Source(FsOps(log), t) != Source(FsOps(log), u)
    ensures Source(CreateOps(log), t) != Source(CreateOps(log), u)
  {
    if t < u {
      SourcesDiffer(FsOps(log), t, u);
      SourcesDiffer(CreateOps(log), t, u);
    } else {
      SourcesDiffer(FsOps(log), u, t);
      SourcesDiffer(CreateOps(log), u, t);
    }
  }

  /** No grant serves two moves: the histories of different moves share nothing. */
  lemma {:induction false} ObjectMovesShareNothing(log: Log, i: nat, j: nat, h: Chain, k: Chain)
    requires i < j < |log|
    requires Lawful(FsOps(log)) && Lawful(CreateOps(log)) && Lawful(MountOps(log))
    requires IsChain(log, i, h) && IsChain(log, j, k)
    ensures h.fsopen != k.fsopen && h.create != k.create && h.take != k.take
    ensures h.mount != k.mount && h.lease != k.lease && h.release != k.release
  {
    SourcesDiffer(MountOps(log), i - 1, j - 1);
    SourcesOfDifferentTakes(log, h.take, k.take);
  }

  /** Different successful fsmounts consume different grants, whatever
      descriptor numbers the tracee reuses. */
  lemma {:induction false} FsmountsShareNothing(al: Allowlist, log: Log, m: nat, n: nat)
    requires LawfulLog(al, log) && m < n < |log| && log[m].FsMounted? && log[n].FsMounted?
    ensures m > 0 && n > 0 && Lawful(FsOps(log)) && Lawful(CreateOps(log))
    ensures log[m - 1].FsTaken? && log[m - 1].created && log[n - 1].FsTaken? && log[n - 1].created
    ensures Source(FsOps(log), m - 1) != Source(FsOps(log), n - 1)
    ensures Source(CreateOps(log), m - 1) != Source(CreateOps(log), n - 1)
  {
    var _, _ := FsmountHistory(al, log, m);
    var _, _ := FsmountHistory(al, log, n);
    SourcesOfDifferentTakes(log, m - 1, n - 1);
  }

  /** A move through a source lease has its own earlier open_tree for the
      leased source, and a bind rule for (source, target) that fixes read-only. */
  lemma {:induction false} SourceMoveHistory(al: Allowlist, log: Log, i: nat) returns (g: nat)
    requires LawfulLog(al, log) && i < |log| && log[i].FdMoved? && log[i].kind == SOURCE
    ensures 0 < i && log[i - 1] == LeaseTaken(log[i].fd, SOURCE, log[i].value)
    ensures Lawful(MountOps(log)) && g == Source(MountOps(log), i - 1)
    ensures 0 < g < i - 1 && log[g] == LeaseAdded(log[i].fd, SOURCE, log[i].value)
    ensures log[g - 1] == TreeOpened(log[i].value)
    ensures AddfdGoverns(al, OPEN_TREE, log[i].value, None)
    ensures FirstBind(al.bind, log[i].value, log[i].target)
         == Some(BindRule(log[i].value, log[i].target, log[i].readOnly))
  {
    FitsAt(al, log, i);
    LawfulOps(al, log);
    g := Source(MountOps(log), i - 1);
    FitsAt(al, log, g);
    FitsAt(al, log, g - 1);
    FirstBindIsMatch(al.bind, log[i].value, log[i].target);
  }

  lemma {:induction false} FirstBindIsMatch(rules: seq<BindRule>, source: Str, target: Str)
    ensures FirstBind(rules, source, target).Some? ==>
      var rule := FirstBind(rules, source, target).value;
      rule in rules && rule.source == source && rule.target == target
  {
    if rules != [] {
      FirstBindIsMatch(rules[1..], source, target);
    }
  }

  /** No open_tree grant serves two moves. */
  lemma {:induction false} SourceMovesShareNothing(al: Allowlist, log: Log, i: nat, j: nat)
    requires LawfulLog(al, log) && i < j < |log|
    requires log[i].FdMoved? && log[i].kind == SOURCE && log[j].FdMoved? && log[j].kind == SOURCE
    ensures Lawful(MountOps(log)) && i > 0 && j > 0 && log[i - 1].LeaseTaken? && log[j - 1].LeaseTaken?
    ensures Source(MountOps(log), i - 1) != Source(MountOps(log), j - 1)
  {
    var _ := SourceMoveHistory(al, log, i);
    var _ := SourceMoveHistory(al, log, j);
    SourcesDiffer(MountOps(log), i - 1, j - 1);
  }

  /** The (parent, name) pairs that an event changes below the scratch roots. */
  function ScratchSides(e: Event): seq<(Str, Str)> {
    match e
    case ScratchOpened(parent, base, _, _, _) => [(parent, base)]
    case MadeDir(parent, base, _) => [(parent, base)]
    case Removed(parent, base, _) => [(parent, base)]
    case Symlinked(_, parent, base) => [(parent, base)]
    case Renamed(parent, base, _, _, _) => [(parent, base)]
    case Linked(parent, base, _, _) => [(parent, base)]
    case _ => []
  }

  function DestinationSides(e: Event): seq<(Str, Str)> {
    match e
    case Renamed(_, _, newParent, newBase, _) => [(newParent, newBase)]
    case Linked(_, _, newParent, newBase) => [(newParent, newBase)]
    case _ => []
  }

  /** The path of the two names one more component than the directory, which is at
      or below one of the roots. */
  ghost predicate StrictlyBelow(roots: seq<Str>, parent: Str, base: Str) {
    JoinPath(parent, base, PATH_MAX).Ok?
    && exists i :: 0 <= i < |roots| && Components(roots[i]) <= Components(parent)
         && Components(JoinPath(parent, base, PATH_MAX).value) == Components(parent) + [base]
  }

  lemma {:induction false} EntryIsBelow(roots: seq<Str>, parent: Str, base: Str)
    requires Entry(roots, parent, base)
    ensures StrictlyBelow(roots, parent, base)
  {
    ComponentsOfJoin(parent, base, PATH_MAX);
    var n :| 0 <= n < |roots| && Beneath(roots[n], parent);
    assert Components(roots[n]) <= Components(parent);
  }

  /** Confinement over a whole run: every name created, removed or opened for
      scratch use is a plain name in a canonical directory, and the path the two
      spell is strictly below a scratch root, component by component; destinations
      of renames and links may also lie below an export root. */
  lemma {:induction false} ScratchConfinement(al: Allowlist, log: Log, i: nat, side: (Str, Str))
    requires LawfulLog(al, log) && i < |log|
    requires side in ScratchSides(log[i]) || side in DestinationSides(log[i])
    ensures ValidName(side.1) && Canonical(side.0)
    ensures side in ScratchSides(log[i]) ==> StrictlyBelow(al.scratch, side.0, side.1)
    ensures StrictlyBelow(al.scratch, side.0, side.1) || StrictlyBelow(al.exports, side.0, side.1)
  {
    FitsAt(al, log, i);
    if Entry(al.scratch, side.0, side.1) {
      EntryIsBelow(al.scratch, side.0, side.1);
    } else {
      EntryIsBelow(al.exports, side.0, side.1);
    }
  }
}
