/** The two lease tables and how they follow the log of a run. */
module BrokerTables {
  import opened Bytes
  import opened Fifo
  import opened BrokerLog

  datatype FsLease = FsLease(fd: int, created: bool, name: Str)
  datatype MountLease = MountLease(fd: int, kind: Kind, value: Str)

  function FsEntries(table: seq<FsLease>): seq<(int, FsLease)> {
    seq(|table|, i requires 0 <= i < |table| => (table[i].fd, table[i]))
  }

  function MountEntries(table: seq<MountLease>): seq<(int, (Kind, Str))> {
    seq(|table|, i requires 0 <= i < |table| => (table[i].fd, (table[i].kind, table[i].value)))
  }

  /** The fsopen leases of one descriptor, oldest first. */
  function FsQueue(table: seq<FsLease>, fd: int): seq<FsLease> {
    ForKey(FsEntries(table), fd)
  }

  function MountQueue(table: seq<MountLease>, fd: int): seq<(Kind, Str)> {
    ForKey(MountEntries(table), fd)
  }

  /** One descriptor's leases q against the pending fsopen and create grants:
      the leases carry the open grants in order; only the oldest can be
      created, and it is exactly when a create grant is outstanding. */
  ghost predicate QueueAgrees(q: seq<FsLease>, open: seq<Str>, made: seq<Str>, fd: int) {
    && |q| == |open|
    && (forall i :: 0 <= i < |q| ==> q[i].name == open[i] && q[i].fd == fd && (q[i].created ==> i == 0))
    && made == if q != [] && q[0].created then [q[0].name] else []
  }

  ghost predicate FsAgrees(table: seq<FsLease>, log: Log, fd: int) {
    QueueAgrees(FsQueue(table, fd), Pending(FsOps(log), fd), Pending(CreateOps(log), fd), fd)
  }

  ghost predicate MountAgrees(table: seq<MountLease>, log: Log, fd: int) {
    MountQueue(table, fd) == Pending(MountOps(log), fd)
  }

  ghost predicate TablesAgree(fs: seq<FsLease>, mounts: seq<MountLease>, log: Log) {
    && (forall fd {:trigger FsAgrees(fs, log, fd)} :: FsAgrees(fs, log, fd))
    && (forall fd {:trigger MountAgrees(mounts, log, fd)} :: MountAgrees(mounts, log, fd))
  }

  // ----- the tables follow the log

  ghost function After<T>(pending: seq<T>, op: Op<T>, fd: int): seq<T>
    requires op.Take? && op.key == fd ==> pending != []
  {
    if op.Skip? || op.key != fd then pending
    else if op.Add? then pending + [op.item]
    else pending[1..]
  }

  lemma {:induction false} PendingAfter(al: Allowlist, log: Log, e: Event, fd: int)
    requires LawfulLog(al, log) && Fits(al, log, e)
    ensures FsOp(e).Take? ==> Pending(FsOps(log), FsOp(e).key) != []
    ensures CreateOp(e).Take? ==> Pending(CreateOps(log), CreateOp(e).key) != []
    ensures MountOp(e).Take? ==> Pending(MountOps(log), MountOp(e).key) != []
    ensures Pending(FsOps(log + [e]), fd) == After(Pending(FsOps(log), fd), FsOp(e), fd)
    ensures Pending(CreateOps(log + [e]), fd) == After(Pending(CreateOps(log), fd), CreateOp(e), fd)
    ensures Pending(MountOps(log + [e]), fd) == After(Pending(MountOps(log), fd), MountOp(e), fd)
  {
    LawfulLogSnoc(al, log, e);
    LawfulOps(al, log);
    LawfulOps(al, log + [e]);
    OpsOfSnoc(log, e);
    PendingSnoc(FsOps(log), FsOp(e), fd);
    PendingSnoc(CreateOps(log), CreateOp(e), fd);
    PendingSnoc(MountOps(log), MountOp(e), fd);
  }

  /** The broker's invariant: the log is lawful and the tables follow it. */
  ghost predicate Sound(al: Allowlist, fs: seq<FsLease>, mounts: seq<MountLease>, log: Log) {
    CanonicalAllowlist(al) && LawfulLog(al, log) && TablesAgree(fs, mounts, log)
  }

  lemma {:induction false} SoundAfterSkip(al: Allowlist, fs: seq<FsLease>, mounts: seq<MountLease>, log: Log, e: Event)
    requires Sound(al, fs, mounts, log) && Fits(al, log, e)
    requires FsOp(e) == Skip && CreateOp(e) == Skip && MountOp(e) == Skip
    ensures Sound(al, fs, mounts, log + [e])
  {
    LawfulLogSnoc(al, log, e);
    forall fd ensures FsAgrees(fs, log + [e], fd) && MountAgrees(mounts, log + [e], fd) {
      assert FsAgrees(fs, log, fd) && MountAgrees(mounts, log, fd);
      PendingAfter(al, log, e, fd);
    }
  }

  lemma {:induction false} SoundAfterFsEvent(al: Allowlist, fs: seq<FsLease>, mounts: seq<MountLease>, log: Log, e: Event, fs': seq<FsLease>)
    requires Sound(al, fs, mounts, log) && Fits(al, log, e) && MountOp(e) == Skip
    requires forall fd {:trigger FsAgrees(fs', log + [e], fd)} :: FsAgrees(fs', log + [e], fd)
    ensures Sound(al, fs', mounts, log + [e])
  {
    LawfulLogSnoc(al, log, e);
    forall fd ensures MountAgrees(mounts, log + [e], fd) {
      assert MountAgrees(mounts, log, fd);
      PendingAfter(al, log, e, fd);
    }
  }

  lemma {:induction false} FsAgreesLater(al: Allowlist, log: Log, e: Event, fs: seq<FsLease>, fs': seq<FsLease>, key: int)
    requires LawfulLog(al, log) && Fits(al, log, e) && FsAgrees(fs, log, key)
    requires FsOp(e).Take? && FsOp(e).key == key ==> Pending(FsOps(log), key) != []
    requires CreateOp(e).Take? && CreateOp(e).key == key ==> Pending(CreateOps(log), key) != []
    requires QueueAgrees(FsQueue(fs', key), After(Pending(FsOps(log), key), FsOp(e), key),
                         After(Pending(CreateOps(log), key), CreateOp(e), key), key)
    ensures FsAgrees(fs', log + [e], key)
  {
    PendingAfter(al, log, e, key);
  }

  lemma {:induction false} QueueAfterAdd(fs: seq<FsLease>, lease: FsLease, key: int)
    ensures FsQueue(fs + [lease], key) == FsQueue(fs, key) + if lease.fd == key then [lease] else []
  {
    assert FsEntries(fs + [lease]) == FsEntries(fs) + [(lease.fd, lease)];
    AppendEntry(FsEntries(fs), (lease.fd, lease), key);
  }

  ghost predicate FirstLease(fs: seq<FsLease>, i: nat) {
    i < |fs| && forall j :: 0 <= j < i ==> fs[j].fd != fs[i].fd
  }

  lemma {:induction false} QueueAfterTake(fs: seq<FsLease>, i: nat, key: int)
    requires FirstLease(fs, i)
    ensures FsQueue(fs, fs[i].fd) != [] && FsQueue(fs, fs[i].fd)[0] == fs[i]
    ensures FsQueue(fs[..i] + fs[i + 1..], key)
         == if key == fs[i].fd then FsQueue(fs, key)[1..] else FsQueue(fs, key)
  {
    assert FsEntries(fs[..i] + fs[i + 1..]) == FsEntries(fs)[..i] + FsEntries(fs)[i + 1..];
    RemoveFirst(FsEntries(fs), i, key);
  }

  lemma {:induction false} QueueAfterMark(fs: seq<FsLease>, i: nat, key: int)
    requires FirstLease(fs, i)
    ensures FsQueue(fs, fs[i].fd) != [] && FsQueue(fs, fs[i].fd)[0] == fs[i]
    ensures FsQueue(fs[i := fs[i].(created := true)], key)
         == if key == fs[i].fd then [fs[i].(created := true)] + FsQueue(fs, key)[1..] else FsQueue(fs, key)
  {
    var lease := fs[i].(created := true);
    assert FsEntries(fs[i := lease]) == FsEntries(fs)[i := (fs[i].fd, lease)];
    ReplaceFirst(FsEntries(fs), i, lease, key);
  }

  lemma {:induction false} KeyAfterAdd(al: Allowlist, log: Log, fs: seq<FsLease>, fd: int, name: Str, key: int)
    requires LawfulLog(al, log) && Fits(al, log, FsopenLease(fd, name)) && FsAgrees(fs, log, key)
    ensures FsAgrees(fs + [FsLease(fd, false, name)], log + [FsopenLease(fd, name)], key)
  {
    QueueAfterAdd(fs, FsLease(fd, false, name), key);
    FsAgreesLater(al, log, FsopenLease(fd, name), fs, fs + [FsLease(fd, false, name)], key);
  }

  lemma {:induction false} SoundAfterAddFs(al: Allowlist, fs: seq<FsLease>, mounts: seq<MountLease>, log: Log, fd: int, name: Str)
    requires Sound(al, fs, mounts, log) && Fits(al, log, FsopenLease(fd, name))
    ensures Sound(al, fs + [FsLease(fd, false, name)], mounts, log + [FsopenLease(fd, name)])
  {
    var e, more := FsopenLease(fd, name), fs + [FsLease(fd, false, name)];
    forall key ensures FsAgrees(more, log + [e], key) {
      assert FsAgrees(fs, log, key);
      KeyAfterAdd(al, log, fs, fd, name, key);
    }
    SoundAfterFsEvent(al, fs, mounts, log, e, more);
  }

  lemma {:induction false} FitsLease(al: Allowlist, log: Log, fs: seq<FsLease>, mounts: seq<MountLease>, i: nat)
    requires FirstLease(fs, i) && TablesAgree(fs, mounts, log)
    ensures !fs[i].created ==> Fits(al, log, FsconfigCreate(fs[i].fd, fs[i].name))
    ensures Fits(al, log, FsTaken(fs[i].fd, fs[i].name, fs[i].created))
  {
    QueueAfterTake(fs, i, fs[i].fd);
    assert FsAgrees(fs, log, fs[i].fd);
  }

  lemma {:induction false} KeyAfterCreate(al: Allowlist, log: Log, fs: seq<FsLease>, lease: FsLease, fs': seq<FsLease>, key: int)
    requires FsAgrees(fs, log, key) && !lease.created
    requires FsQueue(fs, lease.fd) != [] && FsQueue(fs, lease.fd)[0] == lease
    requires FsQueue(fs', key)
          == if key == lease.fd then [lease.(created := true)] + FsQueue(fs, key)[1..] else FsQueue(fs, key)
    requires LawfulLog(al, log) && Fits(al, log, FsconfigCreate(lease.fd, lease.name))
    ensures FsAgrees(fs', log + [FsconfigCreate(lease.fd, lease.name)], key)
  {
    FsAgreesLater(al, log, FsconfigCreate(lease.fd, lease.name), fs, fs', key);
  }

  lemma {:induction false} SoundAfterCreate(al: Allowlist, fs: seq<FsLease>, mounts: seq<MountLease>, log: Log, i: nat)
    requires Sound(al, fs, mounts, log) && FirstLease(fs, i) && !fs[i].created
    ensures Sound(al, fs[i := fs[i].(created := true)], mounts, log + [FsconfigCreate(fs[i].fd, fs[i].name)])
  {
    var e, changed := FsconfigCreate(fs[i].fd, fs[i].name), fs[i := fs[i].(created := true)];
    FitsLease(al, log, fs, mounts, i);
    forall key ensures FsAgrees(changed, log + [e], key) {
      assert FsAgrees(fs, log, key);
      QueueAfterMark(fs, i, key);
      KeyAfterCreate(al, log, fs, fs[i], changed, key);
    }
    SoundAfterFsEvent(al, fs, mounts, log, e, changed);
  }

  lemma {:induction false} KeyAfterTake(al: Allowlist, log: Log, fs: seq<FsLease>, lease: FsLease, fs': seq<FsLease>, key: int)
    requires FsAgrees(fs, log, key)
    requires FsQueue(fs, lease.fd) != [] && FsQueue(fs, lease.fd)[0] == lease
    requires FsQueue(fs', key) == if key == lease.fd then FsQueue(fs, key)[1..] else FsQueue(fs, key)
    requires LawfulLog(al, log) && Fits(al, log, FsTaken(lease.fd, lease.name, lease.created))
    ensures FsAgrees(fs', log + [FsTaken(lease.fd, lease.name, lease.created)], key)
  {
    FsAgreesLater(al, log, FsTaken(lease.fd, lease.name, lease.created), fs, fs', key);
  }

  /** The table after its i-th entry has been shifted out. */
  function Without<T>(table: seq<T>, i: nat): (rest: seq<T>)
    requires i < |table|
    ensures |rest| == |table| - 1
  {
    table[..i] + table[i + 1..]
  }

  /** The first lease of the descriptor, and only that one, is gone. */
  ghost predicate FsShifted(before: seq<FsLease>, after: seq<FsLease>, fd: int) {
    exists at: nat :: FirstLease(before, at) && before[at].fd == fd && after == Without(before, at)
  }

  lemma {:induction false} SoundAfterTakeFs(al: Allowlist, fs: seq<FsLease>, mounts: seq<MountLease>, log: Log, i: nat)
    requires Sound(al, fs, mounts, log) && FirstLease(fs, i)
    ensures Sound(al, Without(fs, i), mounts, log + [FsTaken(fs[i].fd, fs[i].name, fs[i].created)])
  {
    var e, rest := FsTaken(fs[i].fd, fs[i].name, fs[i].created), fs[..i] + fs[i + 1..];
    FitsLease(al, log, fs, mounts, i);
    forall key ensures FsAgrees(rest, log + [e], key) {
      assert FsAgrees(fs, log, key);
      QueueAfterTake(fs, i, key);
      KeyAfterTake(al, log, fs, fs[i], rest, key);
    }
    SoundAfterFsEvent(al, fs, mounts, log, e, rest);
  }

  lemma {:induction false} SoundAfterMountEvent(al: Allowlist, fs: seq<FsLease>, mounts: seq<MountLease>, log: Log, e: Event,
                             mounts': seq<MountLease>)
    requires Sound(al, fs, mounts, log) && Fits(al, log, e) && FsOp(e) == Skip && CreateOp(e) == Skip
    requires forall fd {:trigger MountAgrees(mounts', log + [e], fd)} :: MountAgrees(mounts', log + [e], fd)
    ensures Sound(al, fs, mounts', log + [e])
  {
    LawfulLogSnoc(al, log, e);
    forall fd ensures FsAgrees(fs, log + [e], fd) {
      assert FsAgrees(fs, log, fd);
      PendingAfter(al, log, e, fd);
    }
  }

  ghost predicate MountShifted(before: seq<MountLease>, after: seq<MountLease>, fd: int) {
    exists at: nat :: FirstMount(before, at) && before[at].fd == fd && after == Without(before, at)
  }

  ghost predicate FirstMount(mounts: seq<MountLease>, i: nat) {
    i < |mounts| && forall j :: 0 <= j < i ==> mounts[j].fd != mounts[i].fd
  }

  lemma {:induction false} MountQueueAfterAdd(mounts: seq<MountLease>, lease: MountLease, key: int)
    ensures MountQueue(mounts + [lease], key)
         == MountQueue(mounts, key) + if lease.fd == key then [(lease.kind, lease.value)] else []
  {
    assert MountEntries(mounts + [lease]) == MountEntries(mounts) + [(lease.fd, (lease.kind, lease.value))];
    AppendEntry(MountEntries(mounts), (lease.fd, (lease.kind, lease.value)), key);
  }

  lemma {:induction false} MountQueueAfterTake(mounts: seq<MountLease>, i: nat, key: int)
    requires FirstMount(mounts, i)
    ensures var q := MountQueue(mounts, mounts[i].fd);
      q != [] && q[0] == (mounts[i].kind, mounts[i].value)
    ensures MountQueue(mounts[..i] + mounts[i + 1..], key)
         == if key == mounts[i].fd then MountQueue(mounts, key)[1..] else MountQueue(mounts, key)
  {
    assert MountEntries(mounts[..i] + mounts[i + 1..]) == MountEntries(mounts)[..i] + MountEntries(mounts)[i + 1..];
    RemoveFirst(MountEntries(mounts), i, key);
  }

  lemma {:induction false} SoundAfterAddMount(al: Allowlist, fs: seq<FsLease>, mounts: seq<MountLease>, log: Log, lease: MountLease)
    requires Sound(al, fs, mounts, log) && Fits(al, log, LeaseAdded(lease.fd, lease.kind, lease.value))
    ensures Sound(al, fs, mounts + [lease], log + [LeaseAdded(lease.fd, lease.kind, lease.value)])
  {
    var e := LeaseAdded(lease.fd, lease.kind, lease.value);
    forall key ensures MountAgrees(mounts + [lease], log + [e], key) {
      assert MountAgrees(mounts, log, key);
      PendingAfter(al, log, e, key);
      MountQueueAfterAdd(mounts, lease, key);
    }
    SoundAfterMountEvent(al, fs, mounts, log, e, mounts + [lease]);
  }

  lemma {:induction false} SoundAfterTakeMount(al: Allowlist, fs: seq<FsLease>, mounts: seq<MountLease>, log: Log, i: nat)
    requires Sound(al, fs, mounts, log) && FirstMount(mounts, i)
    ensures Sound(al, fs, mounts[..i] + mounts[i + 1..], log + [LeaseTaken(mounts[i].fd, mounts[i].kind, mounts[i].value)])
  {
    var e, rest := LeaseTaken(mounts[i].fd, mounts[i].kind, mounts[i].value), mounts[..i] + mounts[i + 1..];
    MountQueueAfterTake(mounts, i, mounts[i].fd);
    assert MountAgrees(mounts, log, mounts[i].fd);
    forall key ensures MountAgrees(rest, log + [e], key) {
      assert MountAgrees(mounts, log, key);
      PendingAfter(al, log, e, key);
      MountQueueAfterTake(mounts, i, key);
    }
    SoundAfterMountEvent(al, fs, mounts, log, e, rest);
  }

  function Names(q: seq<FsLease>): seq<Str> {
    seq(|q|, i requires 0 <= i < |q| => q[i].name)
  }

  /** Conservation of leases, descriptor by descriptor: the names granted are
      the names taken followed by the names still leased, in order. So live
      leases are additions minus removals, even when descriptors repeat. */
  lemma {:induction false} LeaseConservation(al: Allowlist, fs: seq<FsLease>, mounts: seq<MountLease>, log: Log, fd: int)
    requires Sound(al, fs, mounts, log)
    ensures Added(FsOps(log), fd) == Taken(FsOps(log), fd) + Names(FsQueue(fs, fd))
    ensures Added(MountOps(log), fd) == Taken(MountOps(log), fd) + MountQueue(mounts, fd)
    ensures |Added(CreateOps(log), fd)| - |Taken(CreateOps(log), fd)|
         == if FsQueue(fs, fd) != [] && FsQueue(fs, fd)[0].created then 1 else 0
    ensures forall i :: 0 < i < |FsQueue(fs, fd)| ==> !FsQueue(fs, fd)[i].created
  {
    LawfulOps(al, log);
    Conservation(FsOps(log), fd);
    Conservation(MountOps(log), fd);
    Conservation(CreateOps(log), fd);
    assert FsAgrees(fs, log, fd) && MountAgrees(mounts, log, fd);
    assert Names(FsQueue(fs, fd)) == Pending(FsOps(log), fd);
  }
}
