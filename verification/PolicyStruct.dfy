/** landlockd_policy_ir_reset and landlockd_policy_ir_copy. */
module PolicyStruct {
  import opened Answers
  import opened Bytes
  import opened CHeap
  import opened CMemory
  import opened CShapes
  import opened PolicyCopy
  import opened PolicyCopyRules
  import opened PolicyFields
  import opened PolicyMembers
  import opened PolicyRelease

  class Policy {
    var cells: seq<Cell>

    constructor ()
      ensures cells == Idle(0)
    {
      cells := Idle(0);
    }
  }

  // ----- landlockd_policy_ir_reset

  /** Member i is released next. */
  lemma {:induction false} NextMember(start: Blocks, now: Blocks, members: seq<Node>, i: nat)
    requires Freeing(start, now, members, i) && i < |members| && PolicyShaped(members)
    ensures MemberShaped(i, members[i]) && NodeStored(now, members[i]) && NodeSeparate(members[i])
  {
    FreeingHas(start, now, members, i);
  }

  lemma {:induction false} WordFreed(start: Blocks, now: Blocks, members: seq<Node>, i: nat)
    requires Freeing(start, now, members, i) && i < |members| && members[i].Number?
    ensures Freeing(start, now, members, i + 1)
  {
    FreeingNext(start, now, now, members, i);
  }

  predicate IsPaths(i: nat) {
    OPEN_READ <= i <= BROKER_TMPFS || i == MOUNT_TMPFS || i == MOUNT_PROC
  }

  predicate IsBinds(i: nat) {
    i == BROKER_BIND || i == MOUNT_BIND
  }

  /** The paths of section i. */
  method ReleasePaths(heap: Heap, cells: seq<Cell>, i: nat, ghost start: Blocks, ghost members: seq<Node>)
    requires IsPaths(i) && cells == CellsOf(members) && PolicyShaped(members) && Freeing(start, heap.blocks, members, i)
    modifies heap`blocks
    ensures Freeing(start, heap.blocks, members, i + 1)
  {
    ghost var was := heap.blocks;
    NextMember(start, was, members, i);
    FreePaths(heap, cells[i], members[i]);
    FreeingNext(start, was, heap.blocks, members, i);
  }

  /** The bind rules of section i. */
  method ReleaseBinds(heap: Heap, cells: seq<Cell>, i: nat, ghost start: Blocks, ghost members: seq<Node>)
    requires IsBinds(i) && cells == CellsOf(members) && PolicyShaped(members) && Freeing(start, heap.blocks, members, i)
    modifies heap`blocks
    ensures Freeing(start, heap.blocks, members, i + 1)
  {
    ghost var was := heap.blocks;
    NextMember(start, was, members, i);
    FreeBinds(heap, cells[i], members[i]);
    FreeingNext(start, was, heap.blocks, members, i);
  }

  /** The path that member i points to. */
  method ReleaseText(heap: Heap, cells: seq<Cell>, i: nat, ghost start: Blocks, ghost members: seq<Node>)
    requires IsPointer(i) && cells == CellsOf(members) && PolicyShaped(members) && Freeing(start, heap.blocks, members, i)
    modifies heap`blocks
    ensures Freeing(start, heap.blocks, members, i + 1)
  {
    ghost var was := heap.blocks;
    NextMember(start, was, members, i);
    FreeText(heap, cells[i], members[i]);
    FreeingNext(start, was, heap.blocks, members, i);
  }

  method ReleaseRules(heap: Heap, cells: seq<Cell>, ghost start: Blocks, ghost members: seq<Node>)
    requires cells == CellsOf(members) && PolicyShaped(members) && Freeing(start, heap.blocks, members, LAYERS)
    modifies heap`blocks
    ensures Freeing(start, heap.blocks, members, OPEN_READ)
  {
    ghost var was := heap.blocks;
    NextMember(start, was, members, LAYERS);
    FreeLayers(heap, cells[LAYERS], members[LAYERS]);
    FreeingNext(start, was, heap.blocks, members, LAYERS);
    assert MemberShaped(NET_ENABLED, members[NET_ENABLED]) && MemberShaped(NET_HANDLED, members[NET_HANDLED]);
    WordFreed(start, heap.blocks, members, NET_ENABLED);
    WordFreed(start, heap.blocks, members, NET_HANDLED);
    was := heap.blocks;
    NextMember(start, was, members, NET_RULES);
    NumbersOwnNothing(NodesOf(TreeOf(members[NET_RULES])));
    FreeNumbers(heap, cells[NET_RULES], IsNetRule, members[NET_RULES]);
    FreeingNext(start, was, heap.blocks, members, NET_RULES);
  }

  method ReleaseObjects(heap: Heap, cells: seq<Cell>, ghost start: Blocks, ghost members: seq<Node>)
    requires cells == CellsOf(members) && PolicyShaped(members) && Freeing(start, heap.blocks, members, BROKER_OBJECT)
    modifies heap`blocks
    ensures Freeing(start, heap.blocks, members, MOUNT_TMPFS)
  {
    ghost var was := heap.blocks;
    NextMember(start, was, members, BROKER_OBJECT);
    FreeObjects(heap, cells[BROKER_OBJECT], members[BROKER_OBJECT]);
    FreeingNext(start, was, heap.blocks, members, BROKER_OBJECT);
    was := heap.blocks;
    NextMember(start, was, members, ADDFD);
    FreeAddfds(heap, cells[ADDFD], members[ADDFD]);
    FreeingNext(start, was, heap.blocks, members, ADDFD);
  }

  method ReleaseDenies(heap: Heap, cells: seq<Cell>, ghost start: Blocks, ghost members: seq<Node>)
    requires cells == CellsOf(members) && PolicyShaped(members) && Freeing(start, heap.blocks, members, SECCOMP_ENABLED)
    modifies heap`blocks
    ensures Freeing(start, heap.blocks, members, MEMBERS)
  {
    assert MemberShaped(SECCOMP_ENABLED, members[SECCOMP_ENABLED]) && MemberShaped(SECCOMP_ERRNO, members[SECCOMP_ERRNO]);
    WordFreed(start, heap.blocks, members, SECCOMP_ENABLED);
    WordFreed(start, heap.blocks, members, SECCOMP_ERRNO);
    ghost var was := heap.blocks;
    NextMember(start, was, members, DENY);
    NumbersOwnNothing(NodesOf(TreeOf(members[DENY])));
    FreeNumbers(heap, cells[DENY], IsDeny, members[DENY]);
    FreeingNext(start, was, heap.blocks, members, DENY);
  }

  method ReleaseBroker(heap: Heap, cells: seq<Cell>, ghost start: Blocks, ghost members: seq<Node>)
    requires cells == CellsOf(members) && PolicyShaped(members) && Freeing(start, heap.blocks, members, OPEN_READ)
    modifies heap`blocks
    ensures Freeing(start, heap.blocks, members, MOUNT_TMPFS)
  {
    ReleasePaths(heap, cells, OPEN_READ, start, members);
    ReleasePaths(heap, cells, OPEN_WRITE, start, members);
    ReleasePaths(heap, cells, SCRATCH, start, members);
    ReleasePaths(heap, cells, EXPORT, start, members);
    ReleasePaths(heap, cells, BROKER_TMPFS, start, members);
    ReleaseBinds(heap, cells, BROKER_BIND, start, members);
    ReleaseObjects(heap, cells, start, members);
  }

  method ReleaseMounts(heap: Heap, cells: seq<Cell>, ghost start: Blocks, ghost members: seq<Node>)
    requires cells == CellsOf(members) && PolicyShaped(members) && Freeing(start, heap.blocks, members, MOUNT_TMPFS)
    modifies heap`blocks
    ensures Freeing(start, heap.blocks, members, SECCOMP_ENABLED)
  {
    ReleasePaths(heap, cells, MOUNT_TMPFS, start, members);
    ReleaseBinds(heap, cells, MOUNT_BIND, start, members);
    ReleasePaths(heap, cells, MOUNT_PROC, start, members);
    ReleaseText(heap, cells, ROOT, start, members);
    ReleaseText(heap, cells, CWD, start, members);
  }

  /** landlockd_policy_ir_reset: everything that the structure owns is released,
      once, and the structure is cleared. */
  method Reset(ir: Policy, heap: Heap, ghost members: seq<Node>)
    requires ir.cells == CellsOf(members) && PolicyShaped(members) && StoredAll(heap.blocks, members) && SeparateAll(members)
    modifies ir, heap`blocks
    ensures heap.blocks == old(heap.blocks) - KeysAll(members)
    ensures ir.cells == Idle(0)
  {
    ghost var start := heap.blocks;
    FreeingStart(start, members);
    ReleaseRules(heap, ir.cells, start, members);
    ReleaseBroker(heap, ir.cells, start, members);
    ReleaseMounts(heap, ir.cells, start, members);
    ReleaseDenies(heap, ir.cells, start, members);
    FreeingEnd(start, heap.blocks, members);
    ir.cells := Idle(0);
  }

  // ----- landlockd_policy_ir_copy, member by member

  method CopyOptional(heap: Heap, cell: Cell, ghost from: Node) returns (made: Cell, ok: bool, ghost n: Node)
    requires IsText(from) && cell == CellOf(from) && NodeStored(heap.blocks, from)
    modifies heap
    ensures made == CellOf(n) && IsText(n) && Grown(old(heap.blocks), heap.blocks, [n])
    ensures ok ==> FieldOf(n) == FieldOf(from)
    ensures Ran(heap.failures, old(heap.calls), heap.calls, ok)
  {
    if cell.address == 0 {
      made, ok, n := Ref(0), true, NULL;
      NullMade(heap.blocks);
      RanNone(heap.failures, heap.calls);
      return;
    }
    made, ok, n := Duplicate(heap, cell, from);
  }

  /** Nothing refuses the copy of these members but memory. */
  lemma {:induction false} Plain(fields: seq<Field>, stale: int, i: nat)
    requires i < |fields| && !IsWord(i) && i != NET_RULES && i != DENY
    ensures Copied(fields, stale, i) == fields[i]
  {
  }

  /** The paths of section i. */
  method CopyPathSection(src: seq<Cell>, ghost from: seq<Node>, i: nat, dst: Policy, heap: Heap,
                ghost start: Blocks, ghost members: seq<Node>, ghost stale: int)
    returns (ok: bool, ghost after: seq<Node>)
    requires IsPaths(i) && src == CellsOf(from) && StoredAll(start, from) && PolicyGiven(from)
    requires Copying(start, heap.blocks, dst.cells, members, from, stale, i)
    modifies dst, heap
    ensures Whole(start, heap.blocks, dst.cells, after)
    ensures ok ==> Copying(start, heap.blocks, dst.cells, after, from, stale, i + 1)
    ensures Ran(heap.failures, old(heap.calls), heap.calls, ok)
  {
    SourceMember(start, heap.blocks, dst.cells, members, from, stale, i);
    var cell;
    ghost var n;
    cell, ok, n := CopyPaths(heap, src[i], from[i]);
    MemberSet(start, old(heap.blocks), heap.blocks, dst.cells, members, from, stale, i, n);
    Plain(FieldsOf(from), stale, i);
    dst.cells := dst.cells[i := cell];
    after := members[i := n];
  }

  /** The bind rules of section i. */
  method CopyBindSection(src: seq<Cell>, ghost from: seq<Node>, i: nat, dst: Policy, heap: Heap,
                ghost start: Blocks, ghost members: seq<Node>, ghost stale: int)
    returns (ok: bool, ghost after: seq<Node>)
    requires IsBinds(i) && src == CellsOf(from) && StoredAll(start, from) && PolicyGiven(from)
    requires Copying(start, heap.blocks, dst.cells, members, from, stale, i)
    modifies dst, heap
    ensures Whole(start, heap.blocks, dst.cells, after)
    ensures ok ==> Copying(start, heap.blocks, dst.cells, after, from, stale, i + 1)
    ensures Ran(heap.failures, old(heap.calls), heap.calls, ok)
  {
    SourceMember(start, heap.blocks, dst.cells, members, from, stale, i);
    var cell;
    ghost var n;
    cell, ok, n := CopyBinds(heap, src[i], from[i]);
    MemberSet(start, old(heap.blocks), heap.blocks, dst.cells, members, from, stale, i, n);
    Plain(FieldsOf(from), stale, i);
    dst.cells := dst.cells[i := cell];
    after := members[i := n];
  }

  /** The mount objects. */
  method CopyObjectSection(src: seq<Cell>, ghost from: seq<Node>, i: nat, dst: Policy, heap: Heap,
                ghost start: Blocks, ghost members: seq<Node>, ghost stale: int)
    returns (ok: bool, ghost after: seq<Node>)
    requires i == BROKER_OBJECT && src == CellsOf(from) && StoredAll(start, from) && PolicyGiven(from)
    requires Copying(start, heap.blocks, dst.cells, members, from, stale, i)
    modifies dst, heap
    ensures Whole(start, heap.blocks, dst.cells, after)
    ensures ok ==> Copying(start, heap.blocks, dst.cells, after, from, stale, i + 1)
    ensures Ran(heap.failures, old(heap.calls), heap.calls, ok)
  {
    SourceMember(start, heap.blocks, dst.cells, members, from, stale, i);
    var cell;
    ghost var n;
    cell, ok, n := CopyObjects(heap, src[i], from[i]);
    MemberSet(start, old(heap.blocks), heap.blocks, dst.cells, members, from, stale, i, n);
    Plain(FieldsOf(from), stale, i);
    dst.cells := dst.cells[i := cell];
    after := members[i := n];
  }

  /** The addfd rules. */
  method CopyAddfdSection(src: seq<Cell>, ghost from: seq<Node>, i: nat, dst: Policy, heap: Heap,
                ghost start: Blocks, ghost members: seq<Node>, ghost stale: int)
    returns (ok: bool, ghost after: seq<Node>)
    requires i == ADDFD && src == CellsOf(from) && StoredAll(start, from) && PolicyGiven(from)
    requires Copying(start, heap.blocks, dst.cells, members, from, stale, i)
    modifies dst, heap
    ensures Whole(start, heap.blocks, dst.cells, after)
    ensures ok ==> Copying(start, heap.blocks, dst.cells, after, from, stale, i + 1)
    ensures Ran(heap.failures, old(heap.calls), heap.calls, ok)
  {
    SourceMember(start, heap.blocks, dst.cells, members, from, stale, i);
    var cell;
    ghost var n;
    cell, ok, n := CopyAddfds(heap, src[i], from[i]);
    MemberSet(start, old(heap.blocks), heap.blocks, dst.cells, members, from, stale, i, n);
    Plain(FieldsOf(from), stale, i);
    dst.cells := dst.cells[i := cell];
    after := members[i := n];
  }

  /** The path that member i points to, if there is one. */
  method CopyRuntimePath(src: seq<Cell>, ghost from: seq<Node>, i: nat, dst: Policy, heap: Heap,
                ghost start: Blocks, ghost members: seq<Node>, ghost stale: int)
    returns (ok: bool, ghost after: seq<Node>)
    requires IsPointer(i) && src == CellsOf(from) && StoredAll(start, from) && PolicyGiven(from)
    requires Copying(start, heap.blocks, dst.cells, members, from, stale, i)
    modifies dst, heap
    ensures Whole(start, heap.blocks, dst.cells, after)
    ensures ok ==> Copying(start, heap.blocks, dst.cells, after, from, stale, i + 1)
    ensures Ran(heap.failures, old(heap.calls), heap.calls, ok)
  {
    SourceMember(start, heap.blocks, dst.cells, members, from, stale, i);
    var cell;
    ghost var n;
    cell, ok, n := CopyOptional(heap, src[i], from[i]);
    MemberSet(start, old(heap.blocks), heap.blocks, dst.cells, members, from, stale, i, n);
    Plain(FieldsOf(from), stale, i);
    dst.cells := dst.cells[i := cell];
    after := members[i := n];
  }

  lemma {:induction false} Switches(from: seq<Node>)
    requires PolicyGiven(from)
    ensures from[NET_ENABLED].Number? && from[NET_HANDLED].Number? && from[SECCOMP_ENABLED].Number? && from[SECCOMP_ERRNO].Number?
    ensures On(FieldsOf(from), NET_ENABLED) == (CellsOf(from)[NET_ENABLED] != Word(0))
    ensures On(FieldsOf(from), SECCOMP_ENABLED) == (CellsOf(from)[SECCOMP_ENABLED] != Word(0))
  {
    assert MemberGiven(NET_ENABLED, from[NET_ENABLED]) && MemberGiven(NET_HANDLED, from[NET_HANDLED]);
    assert MemberGiven(SECCOMP_ENABLED, from[SECCOMP_ENABLED]) && MemberGiven(SECCOMP_ERRNO, from[SECCOMP_ERRNO]);
  }

  /** A number is assigned. */
  method SetWord(i: nat, value: int, dst: Policy, ghost start: Blocks, ghost now: Blocks, ghost members: seq<Node>,
                 ghost from: seq<Node>, ghost stale: int)
    returns (ghost after: seq<Node>)
    requires IsWord(i) && Copying(start, now, dst.cells, members, from, stale, i)
    requires Copied(FieldsOf(from), stale, i) == Scalar(value)
    modifies dst
    ensures Copying(start, now, dst.cells, after, from, stale, i + 1)
  {
    One(now, Number(value));
    MemberSet(start, now, now, dst.cells, members, from, stale, i, Number(value));
    dst.cells := dst.cells[i := Word(value)];
    after := members[i := Number(value)];
  }

  lemma {:induction false} SkippedAreIdle(from: seq<Node>, stale: int, i: nat)
    requires PolicyGiven(from) && i < MEMBERS
    requires (!On(FieldsOf(from), NET_ENABLED) && NET_ENABLED <= i <= NET_RULES)
          || (!On(FieldsOf(from), SECCOMP_ENABLED) && SECCOMP_ENABLED <= i)
    ensures FieldOf(IdleMember(stale, i)) == Copied(FieldsOf(from), stale, i)
  {
    assert FieldsOf([Number(0), NULL]) == [Scalar(0), Part(Absent)];
  }

  /** An array that is copied only with its section. */
  lemma {:induction false} SectionOn(from: seq<Node>, stale: int)
    requires PolicyGiven(from)
    ensures forall i :: 0 <= i < MEMBERS && !Skipped(On(FieldsOf(from), NET_ENABLED), On(FieldsOf(from), SECCOMP_ENABLED), i) ==>
      Copied(FieldsOf(from), stale, i)
      == if i == NET_ENABLED || i == SECCOMP_ENABLED then Flag(On(FieldsOf(from), i)) else FieldsOf(from)[i]
  {
  }

  /** The net section, when it is switched on. */
  method CopyNet(src: seq<Cell>, ghost from: seq<Node>, dst: Policy, heap: Heap,
                  ghost start: Blocks, ghost members: seq<Node>, ghost stale: int)
    returns (ok: bool, ghost after: seq<Node>)
    requires src == CellsOf(from) && StoredAll(start, from) && PolicyGiven(from)
    requires Copying(start, heap.blocks, dst.cells, members, from, stale, NET_ENABLED)
    modifies dst, heap
    ensures Whole(start, heap.blocks, dst.cells, after)
    ensures ok ==> Copying(start, heap.blocks, dst.cells, after, from, stale, OPEN_READ)
    ensures Ran(heap.failures, old(heap.calls), heap.calls, ok)
  {
    Switches(from);
    after := members;
    if src[NET_ENABLED].value == 0 {
      SkipNet(start, heap.blocks, dst.cells, members, from, stale);
      RanNone(heap.failures, heap.calls);
      ok := true;
      return;
    }
    SectionOn(from, stale);
    after := SetWord(NET_ENABLED, 1, dst, start, heap.blocks, after, from, stale);
    after := SetWord(NET_HANDLED, src[NET_HANDLED].value, dst, start, heap.blocks, after, from, stale);
    SourceMember(start, heap.blocks, dst.cells, after, from, stale, NET_RULES);
    var cell;
    ghost var n;
    cell, ok, n := CopyNetRules(heap, src[NET_RULES], from[NET_RULES]);
    MemberSet(start, old(heap.blocks), heap.blocks, dst.cells, after, from, stale, NET_RULES, n);
    dst.cells := dst.cells[NET_RULES := cell];
    after := after[NET_RULES := n];
  }

  lemma {:induction false} SkipNet(start: Blocks, now: Blocks, cells: seq<Cell>, members: seq<Node>, from: seq<Node>, stale: int)
    requires Copying(start, now, cells, members, from, stale, NET_ENABLED) && PolicyGiven(from) && !On(FieldsOf(from), NET_ENABLED)
    ensures Copying(start, now, cells, members, from, stale, OPEN_READ)
  {
    SkippedAreIdle(from, stale, NET_ENABLED);
    SkippedAreIdle(from, stale, NET_HANDLED);
    SkippedAreIdle(from, stale, NET_RULES);
    MemberLeft(start, now, cells, members, from, stale, NET_ENABLED);
    MemberLeft(start, now, cells, members, from, stale, NET_HANDLED);
    MemberLeft(start, now, cells, members, from, stale, NET_RULES);
  }

  lemma {:induction false} SkipSeccomp(start: Blocks, now: Blocks, cells: seq<Cell>, members: seq<Node>, from: seq<Node>, stale: int)
    requires Copying(start, now, cells, members, from, stale, SECCOMP_ENABLED) && PolicyGiven(from)
    requires !On(FieldsOf(from), SECCOMP_ENABLED)
    ensures Copying(start, now, cells, members, from, stale, MEMBERS)
  {
    SkippedAreIdle(from, stale, SECCOMP_ENABLED);
    SkippedAreIdle(from, stale, SECCOMP_ERRNO);
    SkippedAreIdle(from, stale, DENY);
    MemberLeft(start, now, cells, members, from, stale, SECCOMP_ENABLED);
    MemberLeft(start, now, cells, members, from, stale, SECCOMP_ERRNO);
    MemberLeft(start, now, cells, members, from, stale, DENY);
  }

  /** The sections of the broker. */
  method CopyBrokered(src: seq<Cell>, ghost from: seq<Node>, dst: Policy, heap: Heap,
                  ghost start: Blocks, ghost members: seq<Node>, ghost stale: int)
    returns (ok: bool, ghost after: seq<Node>)
    requires src == CellsOf(from) && StoredAll(start, from) && PolicyGiven(from)
    requires Copying(start, heap.blocks, dst.cells, members, from, stale, OPEN_READ)
    modifies dst, heap
    ensures Whole(start, heap.blocks, dst.cells, after)
    ensures ok ==> Copying(start, heap.blocks, dst.cells, after, from, stale, MOUNT_TMPFS)
    ensures Ran(heap.failures, old(heap.calls), heap.calls, ok)
  {
    after := members;
    RanNone(heap.failures, heap.calls);
    ghost var calls := heap.calls;
    ok, after := CopyPathSection(src, from, OPEN_READ, dst, heap, start, after, stale);
    RanThen(heap.failures, old(heap.calls), calls, heap.calls, ok);
    if !ok {
      return;
    }
    calls := heap.calls;
    ok, after := CopyPathSection(src, from, OPEN_WRITE, dst, heap, start, after, stale);
    RanThen(heap.failures, old(heap.calls), calls, heap.calls, ok);
    if !ok {
      return;
    }
    calls := heap.calls;
    ok, after := CopyPathSection(src, from, SCRATCH, dst, heap, start, after, stale);
    RanThen(heap.failures, old(heap.calls), calls, heap.calls, ok);
    if !ok {
      return;
    }
    calls := heap.calls;
    ok, after := CopyPathSection(src, from, EXPORT, dst, heap, start, after, stale);
    RanThen(heap.failures, old(heap.calls), calls, heap.calls, ok);
    if !ok {
      return;
    }
    calls := heap.calls;
    ok, after := CopyPathSection(src, from, BROKER_TMPFS, dst, heap, start, after, stale);
    RanThen(heap.failures, old(heap.calls), calls, heap.calls, ok);
    if !ok {
      return;
    }
    calls := heap.calls;
    ok, after := CopyBindSection(src, from, BROKER_BIND, dst, heap, start, after, stale);
    RanThen(heap.failures, old(heap.calls), calls, heap.calls, ok);
    if !ok {
      return;
    }
    calls := heap.calls;
    ok, after := CopyObjectSection(src, from, BROKER_OBJECT, dst, heap, start, after, stale);
    RanThen(heap.failures, old(heap.calls), calls, heap.calls, ok);
    if !ok {
      return;
    }
    calls := heap.calls;
    ok, after := CopyAddfdSection(src, from, ADDFD, dst, heap, start, after, stale);
    RanThen(heap.failures, old(heap.calls), calls, heap.calls, ok);
  }

  /** The sections of the mount namespace, and the runtime paths. */
  method CopyMounted(src: seq<Cell>, ghost from: seq<Node>, dst: Policy, heap: Heap,
                  ghost start: Blocks, ghost members: seq<Node>, ghost stale: int)
    returns (ok: bool, ghost after: seq<Node>)
    requires src == CellsOf(from) && StoredAll(start, from) && PolicyGiven(from)
    requires Copying(start, heap.blocks, dst.cells, members, from, stale, MOUNT_TMPFS)
    modifies dst, heap
    ensures Whole(start, heap.blocks, dst.cells, after)
    ensures ok ==> Copying(start, heap.blocks, dst.cells, after, from, stale, SECCOMP_ENABLED)
    ensures Ran(heap.failures, old(heap.calls), heap.calls, ok)
  {
    after := members;
    RanNone(heap.failures, heap.calls);
    ghost var calls := heap.calls;
    ok, after := CopyPathSection(src, from, MOUNT_TMPFS, dst, heap, start, after, stale);
    RanThen(heap.failures, old(heap.calls), calls, heap.calls, ok);
    if !ok {
      return;
    }
    calls := heap.calls;
    ok, after := CopyBindSection(src, from, MOUNT_BIND, dst, heap, start, after, stale);
    RanThen(heap.failures, old(heap.calls), calls, heap.calls, ok);
    if !ok {
      return;
    }
    calls := heap.calls;
    ok, after := CopyPathSection(src, from, MOUNT_PROC, dst, heap, start, after, stale);
    RanThen(heap.failures, old(heap.calls), calls, heap.calls, ok);
    if !ok {
      return;
    }
    calls := heap.calls;
    ok, after := CopyRuntimePath(src, from, ROOT, dst, heap, start, after, stale);
    RanThen(heap.failures, old(heap.calls), calls, heap.calls, ok);
    if !ok {
      return;
    }
    calls := heap.calls;
    ok, after := CopyRuntimePath(src, from, CWD, dst, heap, start, after, stale);
    RanThen(heap.failures, old(heap.calls), calls, heap.calls, ok);
  }

  /** enable_seccomp takes no errno 0. */
  predicate Refused(src: seq<Cell>)
    requires Shaped(src)
  {
    src[SECCOMP_ENABLED].value != 0 && src[SECCOMP_ERRNO].value == 0
  }

  lemma {:induction false} GivenIsShaped(from: seq<Node>)
    requires PolicyGiven(from)
    ensures Shaped(CellsOf(from))
  {
    forall i | 0 <= i < MEMBERS ensures CellShaped(i, CellsOf(from)[i]) {
      assert MemberGiven(i, from[i]) && CellsOf(from)[i] == CellOf(from[i]);
    }
  }

  /** The seccomp section, when it is switched on. */
  method CopySeccomp(src: seq<Cell>, ghost from: seq<Node>, dst: Policy, heap: Heap,
                  ghost start: Blocks, ghost members: seq<Node>, ghost stale: int)
    returns (errno: int, ghost after: seq<Node>)
    requires src == CellsOf(from) && Shaped(src) && StoredAll(start, from) && PolicyGiven(from)
    requires Copying(start, heap.blocks, dst.cells, members, from, stale, SECCOMP_ENABLED)
    modifies dst, heap
    ensures Whole(start, heap.blocks, dst.cells, after)
    ensures errno == 0 ==> Copying(start, heap.blocks, dst.cells, after, from, stale, MEMBERS)
    ensures errno == 0 || errno == ENOMEM || errno == EINVAL
    ensures Ran(heap.failures, old(heap.calls), heap.calls, errno != ENOMEM) && (errno != ENOMEM ==> (errno == EINVAL <==> Refused(src)))
    ensures errno == ENOMEM ==> !Refused(src)
  {
    Switches(from);
    after, errno := members, 0;
    RanNone(heap.failures, heap.calls);
    if src[SECCOMP_ENABLED].value == 0 {
      SkipSeccomp(start, heap.blocks, dst.cells, members, from, stale);
      return;
    }
    if src[SECCOMP_ERRNO].value == 0 {
      errno := EINVAL;
      return;
    }
    SectionOn(from, stale);
    after := SetWord(SECCOMP_ENABLED, 1, dst, start, heap.blocks, after, from, stale);
    after := SetWord(SECCOMP_ERRNO, src[SECCOMP_ERRNO].value, dst, start, heap.blocks, after, from, stale);
    SourceMember(start, heap.blocks, dst.cells, after, from, stale, DENY);
    var cell, ok;
    ghost var n;
    cell, ok, n := CopyDenies(heap, src[DENY], from[DENY]);
    MemberSet(start, old(heap.blocks), heap.blocks, dst.cells, after, from, stale, DENY, n);
    dst.cells := dst.cells[DENY := cell];
    after := after[DENY := n];
    errno := if ok then 0 else ENOMEM;
  }

  /** Everything after the layers. */
  method CopyOthers(src: seq<Cell>, ghost from: seq<Node>, dst: Policy, heap: Heap,
                  ghost start: Blocks, ghost members: seq<Node>, ghost stale: int)
    returns (errno: int, ghost after: seq<Node>)
    requires src == CellsOf(from) && Shaped(src) && StoredAll(start, from) && PolicyGiven(from)
    requires Copying(start, heap.blocks, dst.cells, members, from, stale, NET_ENABLED)
    modifies dst, heap
    ensures Whole(start, heap.blocks, dst.cells, after)
    ensures errno == 0 ==> Copying(start, heap.blocks, dst.cells, after, from, stale, MEMBERS)
    ensures errno == 0 || errno == ENOMEM || errno == EINVAL
    ensures Ran(heap.failures, old(heap.calls), heap.calls, errno != ENOMEM) && (errno != ENOMEM ==> (errno == EINVAL <==> Refused(src)))
  {
    var ok;
    errno := ENOMEM;
    ok, after := CopyNet(src, from, dst, heap, start, members, stale);
    ghost var calls := heap.calls;
    if !ok {
      return;
    }
    ok, after := CopyBrokered(src, from, dst, heap, start, after, stale);
    RanThen(heap.failures, old(heap.calls), calls, heap.calls, ok);
    calls := heap.calls;
    if !ok {
      return;
    }
    ok, after := CopyMounted(src, from, dst, heap, start, after, stale);
    RanThen(heap.failures, old(heap.calls), calls, heap.calls, ok);
    calls := heap.calls;
    if !ok {
      return;
    }
    errno, after := CopySeccomp(src, from, dst, heap, start, after, stale);
    RanThen(heap.failures, old(heap.calls), calls, heap.calls, errno != ENOMEM);
  }

  /** All sections in turn, up to the first that fails; begun is false when there
      was no memory even for the array of layers. */
  method CopyAll(src: seq<Cell>, ghost from: seq<Node>, dst: Policy, heap: Heap,
                 ghost start: Blocks, ghost members: seq<Node>, ghost stale: int)
    returns (errno: int, begun: bool, ghost after: seq<Node>)
    requires src == CellsOf(from) && Shaped(src) && StoredAll(start, from) && PolicyGiven(from)
    requires Copying(start, heap.blocks, dst.cells, members, from, stale, LAYERS)
    modifies dst, heap
    ensures begun ==> Whole(start, heap.blocks, dst.cells, after)
    ensures !begun ==> errno == ENOMEM && heap.blocks == old(heap.blocks) && dst.cells == old(dst.cells)
    ensures errno == 0 ==> Copying(start, heap.blocks, dst.cells, after, from, stale, MEMBERS)
    ensures errno == 0 || errno == ENOMEM || errno == EINVAL
    ensures Ran(heap.failures, old(heap.calls), heap.calls, errno != ENOMEM) && (errno != ENOMEM ==> (errno == EINVAL <==> Refused(src)))
  {
    SourceMember(start, heap.blocks, dst.cells, members, from, stale, LAYERS);
    var cell, ok;
    ghost var n;
    cell, ok, n := CopyLayers(heap, src[LAYERS], from[LAYERS]);
    ghost var calls := heap.calls;
    errno, begun, after := ENOMEM, ok || cell.cells[1] != Ref(0), members;
    if !begun {
      return;
    }
    MemberSet(start, old(heap.blocks), heap.blocks, dst.cells, members, from, stale, LAYERS, n);
    Plain(FieldsOf(from), stale, LAYERS);
    dst.cells := dst.cells[LAYERS := cell];
    after := members[LAYERS := n];
    if ok {
      errno, after := CopyOthers(src, from, dst, heap, start, after, stale);
      RanThen(heap.failures, old(heap.calls), calls, heap.calls, errno != ENOMEM);
    }
  }

  /** The failing path: whatever was copied is released again. */
  method Fail(dst: Policy, heap: Heap, begun: bool, ghost start: Blocks, ghost members: seq<Node>)
    requires if begun then Whole(start, heap.blocks, dst.cells, members) else heap.blocks == start
    modifies dst, heap`blocks
    ensures heap.blocks == start && dst.cells == if begun then Idle(0) else old(dst.cells)
  {
    if begun {
      WholeUndone(start, heap.blocks, dst.cells, members);
      Reset(dst, heap, members);
    }
  }

  /** All or nothing, into an idle destination. */
  method CopyOrFail(src: seq<Cell>, ghost from: seq<Node>, dst: Policy, heap: Heap,
                    ghost start: Blocks, ghost members: seq<Node>, ghost stale: int)
    returns (errno: int, ghost after: seq<Node>)
    requires src == CellsOf(from) && Shaped(src) && StoredAll(start, from) && PolicyGiven(from)
    requires Copying(start, heap.blocks, dst.cells, members, from, stale, LAYERS) && heap.blocks == start
    modifies dst, heap
    ensures errno == 0 ==> Copying(start, heap.blocks, dst.cells, after, from, stale, MEMBERS)
    ensures errno != 0 ==> heap.blocks == start && (dst.cells == old(dst.cells) || dst.cells == Idle(0))
    ensures Ran(heap.failures, old(heap.calls), heap.calls, errno != ENOMEM)
    ensures errno == ENOMEM || errno == if Refused(src) then EINVAL else 0
  {
    var begun;
    errno, begun, after := CopyAll(src, from, dst, heap, start, members, stale);
    if errno != 0 {
      Fail(dst, heap, begun, start, after);
    }
  }

  /** landlockd_policy_ir_copy: a copy in storage of its own, or nothing. */
  method Copy(src: seq<Cell>, ghost from: seq<Node>, dst: Policy, heap: Heap) returns (r: Result<()>, ghost members: seq<Node>)
    requires src == CellsOf(from) && PolicyGiven(from) && StoredAll(heap.blocks, from) && Shaped(src) && Shaped(dst.cells)
    modifies dst, heap
    ensures Occupied(old(dst.cells)) ==>
      r == Err(EINVAL) && dst.cells == old(dst.cells) && heap.blocks == old(heap.blocks) && heap.calls == old(heap.calls)
    ensures r.Err? ==> heap.blocks == old(heap.blocks) && (dst.cells == old(dst.cells) || dst.cells == Idle(0))
    ensures r.Ok? ==> Whole(old(heap.blocks), heap.blocks, dst.cells, members)
    ensures r.Ok? ==> IsCopy(FieldsOf(members), FieldsOf(from), old(dst.cells)[NET_HANDLED].value)
    ensures !Occupied(old(dst.cells)) ==>
      && Ran(heap.failures, old(heap.calls), heap.calls, r != Err(ENOMEM))
      && (r == Err(ENOMEM) || r == if Refused(src) then Err(EINVAL) else Ok(()))
  {
    members := [];
    if Occupied(dst.cells) {
      return Err(EINVAL), members;
    }
    ghost var start, stale := heap.blocks, dst.cells[NET_HANDLED].value;
    CopyingStarts(start, dst.cells, from);
    var errno;
    errno, members := CopyOrFail(src, from, dst, heap, start, IdleFrom(stale, 0), stale);
    if errno != 0 {
      return Err(errno), members;
    }
    CopyingEnds(start, heap.blocks, dst.cells, members, from, stale);
    return Ok(()), members;
  }
}
