/** struct landlockd_policy_ir: its members, and which of them a copy repeats. */
module PolicyFields {
  import opened Bytes
  import opened CMemory
  import opened PolicyIr

  /** The members, in the order in which they are copied and released. */
  const LAYERS: nat := 0
  const NET_ENABLED: nat := 1
  const NET_HANDLED: nat := 2
  const NET_RULES: nat := 3
  const OPEN_READ: nat := 4
  const OPEN_WRITE: nat := 5
  const SCRATCH: nat := 6
  const EXPORT: nat := 7
  const BROKER_TMPFS: nat := 8
  const BROKER_BIND: nat := 9
  const BROKER_OBJECT: nat := 10
  const ADDFD: nat := 11
  const MOUNT_TMPFS: nat := 12
  const MOUNT_BIND: nat := 13
  const MOUNT_PROC: nat := 14
  const ROOT: nat := 15
  const CWD: nat := 16
  const SECCOMP_ENABLED: nat := 17
  const SECCOMP_ERRNO: nat := 18
  const DENY: nat := 19
  const MEMBERS: nat := 20

  predicate IsWord(i: nat) {
    i == NET_ENABLED || i == NET_HANDLED || i == SECCOMP_ENABLED || i == SECCOMP_ERRNO
  }

  predicate IsPointer(i: nat) {
    i == ROOT || i == CWD
  }

  // ----- a policy as a structure

  function MapFields<T>(f: T -> Field, xs: seq<T>): (fields: seq<Field>)
    ensures |fields| == |xs| && forall i :: 0 <= i < |xs| ==> fields[i] == f(xs[i])
  {
    seq(|xs|, i requires 0 <= i < |xs| => f(xs[i]))
  }

  /** A count, and an array that is null when it is empty. */
  function List<T>(f: T -> Field, xs: seq<T>): Field {
    Inner([Scalar(|xs|), Part(if xs == [] then Absent else Record(MapFields(f, xs)))])
  }

  const NO_LIST: Field := Inner([Scalar(0), Part(Absent)])

  function Flag(b: bool): Field {
    Scalar(if b then 1 else 0)
  }

  function TextField(s: Str): Field { Part(Letters(s)) }
  function OptionalField(s: Option<Str>): Field { Part(if s.Some? then Letters(s.value) else Absent) }
  function PathField(s: Str): Field { Inner([TextField(s)]) }
  function RuleField(r: FsRule): Field { Inner([Scalar(r.access), TextField(r.path)]) }
  function LayerField(l: FsLayer): Field { Inner([Scalar(l.handled), List(RuleField, l.rules)]) }
  function NetRuleField(r: NetRule): Field { Inner([Scalar(r.port), Scalar(r.access)]) }
  function BindField(r: BindRule): Field { Inner([TextField(r.source), TextField(r.target), Flag(r.readOnly)]) }
  function ObjectField(r: ObjectRule): Field {
    Inner([TextField(r.name), TextField(r.fsType), List(TextField, r.attach), Scalar(r.attrs)])
  }
  function AddfdField(r: AddfdRule): Field { Inner([TextField(r.action), TextField(r.target), OptionalField(r.mode)]) }
  function DenyField(nr: u32): Field { Inner([Scalar(nr)]) }

  function IrFields(ir: Ir): (fields: seq<Field>)
    ensures |fields| == MEMBERS
  {
    [List(LayerField, ir.fsLayers), Flag(ir.netEnabled), Scalar(ir.netHandled), List(NetRuleField, ir.netRules),
     List(PathField, ir.openRead), List(PathField, ir.openWrite), List(PathField, ir.scratch),
     List(PathField, ir.exports), List(PathField, ir.brokerTmpfs), List(BindField, ir.brokerBind),
     List(ObjectField, ir.brokerObject), List(AddfdField, ir.addfd), List(PathField, ir.mountTmpfs),
     List(BindField, ir.mountBind), List(PathField, ir.mountProc), OptionalField(ir.root), OptionalField(ir.cwd),
     Flag(ir.seccompEnabled), Scalar(ir.seccompErrno), List(DenyField, ir.deny)]
  }

  // ----- what a copy holds

  /** Sections that are copied only when they are switched on. */
  predicate Skipped(net: bool, seccomp: bool, i: nat) {
    (!net && (i == NET_HANDLED || i == NET_RULES)) || (!seccomp && (i == SECCOMP_ERRNO || i == DENY))
  }

  predicate On(fields: seq<Field>, i: nat) {
    i < |fields| && fields[i].Scalar? && fields[i].value != 0
  }

  /** Member i of the copy. stale is the net_handled_access that the destination
      had: the emptiness check does not look at it. */
  function Copied(fields: seq<Field>, stale: int, i: nat): Field
    requires i < |fields|
  {
    if Skipped(On(fields, NET_ENABLED), On(fields, SECCOMP_ENABLED), i)
    then if i == NET_HANDLED then Scalar(stale) else if IsWord(i) then Scalar(0) else NO_LIST
    else if i == NET_ENABLED || i == SECCOMP_ENABLED then Flag(On(fields, i))
    else fields[i]
  }

  predicate IsCopy(copy: seq<Field>, fields: seq<Field>, stale: int) {
    |copy| == |fields| && forall i :: 0 <= i < |copy| ==> copy[i] == Copied(fields, stale, i)
  }

  lemma {:induction false} FlagsAndLists(ir: Ir)
    ensures On(IrFields(ir), NET_ENABLED) == ir.netEnabled && On(IrFields(ir), SECCOMP_ENABLED) == ir.seccompEnabled
    ensures IrFields(ir)[NET_ENABLED] == Flag(ir.netEnabled) && IrFields(ir)[SECCOMP_ENABLED] == Flag(ir.seccompEnabled)
    ensures IrFields(ir)[NET_HANDLED] == Scalar(ir.netHandled) && IrFields(ir)[SECCOMP_ERRNO] == Scalar(ir.seccompErrno)
    ensures IrFields(ir)[NET_RULES] == NO_LIST <==> ir.netRules == []
    ensures IrFields(ir)[DENY] == NO_LIST <==> ir.deny == []
  {
    EmptyList(NetRuleField, ir.netRules);
    EmptyList(DenyField, ir.deny);
  }

  lemma {:induction false} EmptyList<T>(f: T -> Field, xs: seq<T>)
    ensures List(f, xs) == NO_LIST <==> xs == []
  {
    assert List(f, xs) == NO_LIST ==> [Scalar(|xs|), Part(if xs == [] then Absent else Record(MapFields(f, xs)))][0] == Scalar(0);
  }

  /** Only four members can differ. */
  lemma {:induction false} FourMembers(fields: seq<Field>, copy: seq<Field>, stale: int)
    requires |fields| == MEMBERS && IsCopy(copy, fields, stale)
    requires fields[NET_ENABLED] == Flag(On(fields, NET_ENABLED)) && fields[SECCOMP_ENABLED] == Flag(On(fields, SECCOMP_ENABLED))
    ensures copy == fields <==>
      && copy[NET_HANDLED] == fields[NET_HANDLED] && copy[NET_RULES] == fields[NET_RULES]
      && copy[SECCOMP_ERRNO] == fields[SECCOMP_ERRNO] && copy[DENY] == fields[DENY]
  {
    forall i | 0 <= i < MEMBERS && i != NET_HANDLED && i != NET_RULES && i != SECCOMP_ERRNO && i != DENY
      ensures copy[i] == fields[i]
    {
      assert copy[i] == Copied(fields, stale, i);
    }
  }

  /** The copy of a policy is that policy exactly when nothing stale shows and
      nothing hides in a section that is switched off. */
  lemma {:induction false} CopyIsExactIff(ir: Ir, copy: seq<Field>, stale: int)
    requires IsCopy(copy, IrFields(ir), stale)
    ensures copy == IrFields(ir) <==>
      && (ir.netEnabled || (ir.netHandled == stale && ir.netRules == []))
      && (ir.seccompEnabled || (ir.seccompErrno == 0 && ir.deny == []))
  {
    var fields := IrFields(ir);
    FlagsAndLists(ir);
    FourMembers(fields, copy, stale);
    assert copy[NET_HANDLED] == Copied(fields, stale, NET_HANDLED) && copy[NET_RULES] == Copied(fields, stale, NET_RULES);
    assert copy[SECCOMP_ERRNO] == Copied(fields, stale, SECCOMP_ERRNO) && copy[DENY] == Copied(fields, stale, DENY);
  }
}
