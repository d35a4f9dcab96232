/** A policy structure in memory, member by member. */
module PolicyMembers {
  import opened Bytes
  import opened CMemory
  import opened CShapes
  import opened PolicyFields

  // ----- shapes

  /** What member i owns. */
  predicate MemberShaped(i: nat, n: Node) {
    if i == LAYERS then IsArray(IsLayer, n)
    else if IsWord(i) then n.Number?
    else if i == NET_RULES then IsArray(IsNetRule, n)
    else if i == BROKER_BIND || i == MOUNT_BIND then IsArray(IsBind, n)
    else if i == BROKER_OBJECT then IsArray(IsObject, n)
    else if i == ADDFD then IsArray(IsAddfd, n)
    else if IsPointer(i) then IsText(n)
    else if i == DENY then IsArray(IsDeny, n)
    else IsArray(IsPath, n)
  }

  predicate PolicyShaped(members: seq<Node>) {
    |members| == MEMBERS && forall i :: 0 <= i < MEMBERS ==> MemberShaped(i, members[i])
  }

  /** The same for a policy that the builder operations made: no string missing. */
  predicate MemberGiven(i: nat, n: Node) {
    if i == LAYERS then IsArray(LayerGiven, n)
    else if IsWord(i) then n.Number?
    else if i == NET_RULES then IsArray(IsNetRule, n)
    else if i == BROKER_BIND || i == MOUNT_BIND then IsArray(BindGiven, n)
    else if i == BROKER_OBJECT then IsArray(ObjectGiven, n)
    else if i == ADDFD then IsArray(AddfdGiven, n)
    else if IsPointer(i) then IsText(n)
    else if i == DENY then IsArray(IsDeny, n)
    else IsArray(PathGiven, n)
  }

  predicate PolicyGiven(members: seq<Node>) {
    |members| == MEMBERS && forall i :: 0 <= i < MEMBERS ==> MemberGiven(i, members[i])
  }

  /** The members of a destination, whatever they hold. */
  predicate CellShaped(i: nat, c: Cell) {
    if IsWord(i) then c.Word?
    else if IsPointer(i) then c.Ref?
    else c.Fields? && |c.cells| == 2 && c.cells[0].Word? && c.cells[1].Ref?
  }

  predicate Shaped(cells: seq<Cell>) {
    |cells| == MEMBERS && forall i :: 0 <= i < MEMBERS ==> CellShaped(i, cells[i])
  }

  predicate InUse(c: Cell) {
    c.Fields? && |c.cells| == 2 && c.cells[0].Word? && c.cells[1].Ref? && (c.cells[0].value != 0 || c.cells[1].address != 0)
  }

  /** What landlockd_policy_ir_copy takes for a destination in use: a count or a
      pointer of a section, or one of three numbers. */
  predicate Occupied(cells: seq<Cell>)
    requires Shaped(cells)
  {
    || InUse(cells[LAYERS]) || cells[NET_ENABLED].value != 0 || InUse(cells[NET_RULES])
    || InUse(cells[OPEN_READ]) || InUse(cells[OPEN_WRITE]) || InUse(cells[SCRATCH]) || InUse(cells[EXPORT])
    || InUse(cells[BROKER_TMPFS]) || InUse(cells[BROKER_BIND]) || InUse(cells[BROKER_OBJECT]) || InUse(cells[ADDFD])
    || InUse(cells[MOUNT_TMPFS]) || InUse(cells[MOUNT_BIND]) || InUse(cells[MOUNT_PROC])
    || cells[ROOT].address != 0 || cells[CWD].address != 0
    || cells[SECCOMP_ENABLED].value != 0 || cells[SECCOMP_ERRNO].value != 0 || InUse(cells[DENY])
  }

  // ----- a structure that memset cleared

  function IdleMember(stale: int, i: nat): Node {
    if i == NET_HANDLED then Number(stale) else if IsWord(i) then Number(0) else if IsPointer(i) then NULL else NO_ARRAY
  }

  function IdleCell(stale: int, i: nat): Cell {
    if i == NET_HANDLED then Word(stale) else if IsWord(i) then Word(0) else if IsPointer(i) then Ref(0)
    else Fields([Word(0), Ref(0)])
  }

  /** All zero but net_handled_access. */
  function Idle(stale: int): (cells: seq<Cell>)
    ensures Shaped(cells)
  {
    seq(MEMBERS, i requires 0 <= i < MEMBERS => IdleCell(stale, i))
  }

  function IdleFrom(stale: int, i: nat): (members: seq<Node>)
    requires i <= MEMBERS
    ensures |members| == MEMBERS - i && forall k :: 0 <= k < |members| ==> members[k] == IdleMember(stale, i + k)
    decreases MEMBERS - i
  {
    if i == MEMBERS then [] else [IdleMember(stale, i)] + IdleFrom(stale, i + 1)
  }

  lemma {:induction false} IdleMemberOwnsNothing(stale: int, i: nat)
    ensures Bare(IdleMember(stale, i)) && MemberShaped(i, IdleMember(stale, i)) && CellOf(IdleMember(stale, i)) == IdleCell(stale, i)
  {
    ZerosAreBare();
    assert CellOf(NO_ARRAY) == Fields([Word(0), Ref(0)]) by {
      assert CellsOf([Number(0), NULL]) == [Word(0), Ref(0)];
    }
  }

  lemma {:induction false} IdleOwnsNothing(blocks: Blocks, stale: int, i: nat)
    requires i <= MEMBERS
    ensures KeysAll(IdleFrom(stale, i)) == {} && SeparateAll(IdleFrom(stale, i)) && StoredAll(blocks, IdleFrom(stale, i))
    decreases MEMBERS - i
  {
    if i < MEMBERS {
      IdleOwnsNothing(blocks, stale, i + 1);
      IdleMemberOwnsNothing(stale, i);
      assert IdleFrom(stale, i)[1..] == IdleFrom(stale, i + 1);
      assert NodeStored(blocks, IdleMember(stale, i));
    }
  }

  /** A destination that passes the emptiness check is idle. */
  lemma {:induction false} NotOccupied(cells: seq<Cell>)
    requires Shaped(cells) && !Occupied(cells)
    ensures cells == Idle(cells[NET_HANDLED].value)
  {
    var idle := Idle(cells[NET_HANDLED].value);
    forall i | 0 <= i < MEMBERS ensures cells[i] == idle[i] {
      assert CellShaped(i, cells[i]);
      if !IsWord(i) && !IsPointer(i) {
        assert !InUse(cells[i]);
        assert cells[i].cells == [cells[i].cells[0], cells[i].cells[1]];
      }
    }
  }

  // ----- a structure that is being copied into

  /** The structure and what it owns, complete or not. */
  ghost predicate Whole(start: Blocks, now: Blocks, cells: seq<Cell>, members: seq<Node>) {
    cells == CellsOf(members) && Grown(start, now, members) && PolicyShaped(members)
  }

  /** The members before i are copied, the others idle. */
  ghost predicate Copying(start: Blocks, now: Blocks, cells: seq<Cell>, members: seq<Node>, from: seq<Node>, stale: int, i: nat) {
    && Whole(start, now, cells, members) && |from| == MEMBERS
    && (forall k :: 0 <= k < MEMBERS && k < i ==> FieldOf(members[k]) == Copied(FieldsOf(from), stale, k))
    && (forall k :: i <= k < MEMBERS ==> members[k] == IdleMember(stale, k))
  }

  lemma {:induction false} CopyingStarts(blocks: Blocks, cells: seq<Cell>, from: seq<Node>)
    requires Shaped(cells) && !Occupied(cells) && |from| == MEMBERS
    ensures var stale := cells[NET_HANDLED].value;
      Copying(blocks, blocks, cells, IdleFrom(stale, 0), from, stale, 0)
  {
    var stale := cells[NET_HANDLED].value;
    NotOccupied(cells);
    IdleOwnsNothing(blocks, stale, 0);
    forall i | 0 <= i < MEMBERS ensures MemberShaped(i, IdleFrom(stale, 0)[i]) && CellsOf(IdleFrom(stale, 0))[i] == cells[i] {
      IdleMemberOwnsNothing(stale, i);
    }
  }

  lemma {:induction false} ShapeSet(members: seq<Node>, i: nat, n: Node)
    requires PolicyShaped(members) && i < MEMBERS && MemberShaped(i, n)
    ensures PolicyShaped(members[i := n])
  {
  }

  /** Member i was copied, completely or not. */
  lemma {:induction false} MemberSet(start: Blocks, before: Blocks, now: Blocks, cells: seq<Cell>, members: seq<Node>,
                                     from: seq<Node>, stale: int, i: nat, n: Node)
    requires Copying(start, before, cells, members, from, stale, i) && i < MEMBERS
    requires Grown(before, now, [n]) && MemberShaped(i, n)
    ensures Whole(start, now, cells[i := CellOf(n)], members[i := n])
    ensures FieldOf(n) == Copied(FieldsOf(from), stale, i) ==>
      Copying(start, now, cells[i := CellOf(n)], members[i := n], from, stale, i + 1)
  {
    IdleMemberOwnsNothing(stale, i);
    GrownSet(start, before, now, members, i, n);
    SetCells(members, i, n);
    ShapeSet(members, i, n);
  }

  /** Members that the copy leaves idle. */
  lemma {:induction false} MemberLeft(start: Blocks, now: Blocks, cells: seq<Cell>, members: seq<Node>,
                                      from: seq<Node>, stale: int, i: nat)
    requires Copying(start, now, cells, members, from, stale, i) && i < MEMBERS
    requires FieldOf(IdleMember(stale, i)) == Copied(FieldsOf(from), stale, i)
    ensures Copying(start, now, cells, members, from, stale, i + 1)
  {
  }

  lemma {:induction false} CopyingEnds(start: Blocks, now: Blocks, cells: seq<Cell>, members: seq<Node>, from: seq<Node>, stale: int)
    requires Copying(start, now, cells, members, from, stale, MEMBERS)
    ensures Whole(start, now, cells, members) && IsCopy(FieldsOf(members), FieldsOf(from), stale)
  {
  }

  /** Member i of the source, where it was. */
  lemma {:induction false} SourceMember(start: Blocks, now: Blocks, cells: seq<Cell>, members: seq<Node>, from: seq<Node>,
                                        stale: int, i: nat)
    requires Copying(start, now, cells, members, from, stale, i) && StoredAll(start, from) && PolicyGiven(from) && i < MEMBERS
    ensures MemberGiven(i, from[i]) && NodeStored(now, from[i]) && CellsOf(from)[i] == CellOf(from[i])
  {
    AllKeysAreStored(start, from);
    StayStored(start, now, from);
    At(now, from, i);
  }

  lemma {:induction false} WholeUndone(start: Blocks, now: Blocks, cells: seq<Cell>, members: seq<Node>)
    requires Whole(start, now, cells, members)
    ensures now - KeysAll(members) == start && StoredAll(now, members) && SeparateAll(members)
  {
  }
}
