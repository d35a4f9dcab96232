/** Built policies and landlockd_policy_ir_copy. */
module PolicyBuilt {
  import opened Bytes
  import opened CMemory
  import opened CShapes
  import opened PolicyBuild
  import opened PolicyFields
  import opened PolicyIr
  import opened PolicyMembers
  import opened PolicyStruct

  // ----- a built policy in memory is one that can be copied

  /** Field i of a structure that is separate. */
  lemma {:induction false} FieldAt(n: Node, fields: seq<Field>, i: nat)
    requires FieldOf(n) == Inner(fields) && i < |fields| && NodeSeparate(n)
    ensures n.Struct? && |n.nodes| == |fields| && FieldOf(n.nodes[i]) == fields[i] && NodeSeparate(n.nodes[i])
  {
    assert FieldsOf(n.nodes) == fields;
    At(map[], n.nodes, i);
  }

  lemma {:induction false} NumberAt(n: Node, fields: seq<Field>, i: nat)
    requires FieldOf(n) == Inner(fields) && i < |fields| && NodeSeparate(n) && fields[i].Scalar?
    ensures n.Struct? && |n.nodes| == |fields| && n.nodes[i] == Number(fields[i].value)
  {
    FieldAt(n, fields, i);
  }

  lemma {:induction false} TextAt(n: Node, fields: seq<Field>, i: nat, s: Str)
    requires FieldOf(n) == Inner(fields) && i < |fields| && NodeSeparate(n) && fields[i] == TextField(s)
    ensures n.Struct? && |n.nodes| == |fields| && HasText(n.nodes[i]) && IsText(n.nodes[i])
  {
    FieldAt(n, fields, i);
    TextSpells(s);
  }

  /** Field and addresses of an element fix its shape. */
  ghost predicate Spells<T(!new)>(given: Node -> bool, f: T -> Field, x: T) {
    forall m :: FieldOf(m) == f(x) && NodeSeparate(m) ==> given(m)
  }

  lemma {:induction false} ArrayIsGiven<T(!new)>(given: Node -> bool, f: T -> Field, xs: seq<T>, n: Node)
    requires FieldOf(n) == List(f, xs) && NodeSeparate(n)
    requires forall i :: 0 <= i < |xs| ==> Spells(given, f, xs[i])
    ensures IsArray(given, n) && (TreeOf(n).Table? <==> xs != [])
  {
    var fields := [Scalar(|xs|), Part(if xs == [] then Absent else Record(MapFields(f, xs)))];
    NumberAt(n, fields, 0);
    FieldAt(n, fields, 1);
    var t := TreeOf(n);
    if xs != [] {
      assert FieldsOf(t.nodes) == MapFields(f, xs);
      forall i | 0 <= i < |t.nodes| ensures given(t.nodes[i]) {
        At(map[], t.nodes, i);
        assert FieldOf(t.nodes[i]) == FieldsOf(t.nodes)[i] == f(xs[i]) && Spells(given, f, xs[i]);
      }
    }
  }

  lemma {:induction false} TextSpells(s: Str)
    ensures Spells(HasText, TextField, s) && Spells(IsText, TextField, s)
  {
  }

  lemma {:induction false} PathSpells(s: Str)
    ensures Spells(PathGiven, PathField, s)
  {
    forall m | FieldOf(m) == PathField(s) && NodeSeparate(m) ensures PathGiven(m) {
      TextAt(m, [TextField(s)], 0, s);
    }
  }

  lemma {:induction false} RuleSpells(r: FsRule)
    ensures Spells(RuleGiven, RuleField, r)
  {
    forall m | FieldOf(m) == RuleField(r) && NodeSeparate(m) ensures RuleGiven(m) {
      var fields := [Scalar(r.access), TextField(r.path)];
      NumberAt(m, fields, 0);
      TextAt(m, fields, 1, r.path);
    }
  }

  lemma {:induction false} LayerSpells(l: FsLayer)
    ensures Spells(LayerGiven, LayerField, l)
  {
    forall m | FieldOf(m) == LayerField(l) && NodeSeparate(m) ensures LayerGiven(m) {
      var fields := [Scalar(l.handled), List(RuleField, l.rules)];
      NumberAt(m, fields, 0);
      FieldAt(m, fields, 1);
      forall i | 0 <= i < |l.rules| ensures Spells(RuleGiven, RuleField, l.rules[i]) {
        RuleSpells(l.rules[i]);
      }
      ArrayIsGiven(RuleGiven, RuleField, l.rules, m.nodes[1]);
    }
  }

  lemma {:induction false} NumbersSpell(r: NetRule, nr: u32)
    ensures Spells(IsNetRule, NetRuleField, r) && Spells(IsDeny, DenyField, nr)
  {
    forall m | FieldOf(m) == NetRuleField(r) && NodeSeparate(m) ensures IsNetRule(m) {
      NumberAt(m, [Scalar(r.port), Scalar(r.access)], 0);
      NumberAt(m, [Scalar(r.port), Scalar(r.access)], 1);
    }
    forall m | FieldOf(m) == DenyField(nr) && NodeSeparate(m) ensures IsDeny(m) {
      NumberAt(m, [Scalar(nr)], 0);
    }
  }

  lemma {:induction false} BindSpells(r: BindRule)
    ensures Spells(BindGiven, BindField, r)
  {
    forall m | FieldOf(m) == BindField(r) && NodeSeparate(m) ensures BindGiven(m) {
      var fields := [TextField(r.source), TextField(r.target), Flag(r.readOnly)];
      TextAt(m, fields, 0, r.source);
      TextAt(m, fields, 1, r.target);
      NumberAt(m, fields, 2);
    }
  }

  lemma {:induction false} ObjectSpells(r: ObjectRule)
    requires r.attach != []
    ensures Spells(ObjectGiven, ObjectField, r)
  {
    forall m | FieldOf(m) == ObjectField(r) && NodeSeparate(m) ensures ObjectGiven(m) {
      var fields := [TextField(r.name), TextField(r.fsType), List(TextField, r.attach), Scalar(r.attrs)];
      TextAt(m, fields, 0, r.name);
      TextAt(m, fields, 1, r.fsType);
      FieldAt(m, fields, 2);
      NumberAt(m, fields, 3);
      forall i | 0 <= i < |r.attach| ensures Spells(HasText, TextField, r.attach[i]) {
        TextSpells(r.attach[i]);
      }
      ArrayIsGiven(HasText, TextField, r.attach, m.nodes[2]);
    }
  }

  lemma {:induction false} AddfdSpells(r: AddfdRule)
    ensures Spells(AddfdGiven, AddfdField, r)
  {
    forall m | FieldOf(m) == AddfdField(r) && NodeSeparate(m) ensures AddfdGiven(m) {
      var fields := [TextField(r.action), TextField(r.target), OptionalField(r.mode)];
      TextAt(m, fields, 0, r.action);
      TextAt(m, fields, 1, r.target);
      FieldAt(m, fields, 2);
    }
  }

  lemma {:induction false} PathsAreGiven(paths: seq<Str>, n: Node)
    requires FieldOf(n) == List(PathField, paths) && NodeSeparate(n)
    ensures IsArray(PathGiven, n)
  {
    forall i | 0 <= i < |paths| ensures Spells(PathGiven, PathField, paths[i]) {
      PathSpells(paths[i]);
    }
    ArrayIsGiven(PathGiven, PathField, paths, n);
  }

  lemma {:induction false} BindsAreGiven(rules: seq<BindRule>, n: Node)
    requires FieldOf(n) == List(BindField, rules) && NodeSeparate(n)
    ensures IsArray(BindGiven, n)
  {
    forall i | 0 <= i < |rules| ensures Spells(BindGiven, BindField, rules[i]) {
      BindSpells(rules[i]);
    }
    ArrayIsGiven(BindGiven, BindField, rules, n);
  }

  /** The members whose elements are structures of their own. */
  lemma {:induction false} RulesAreGiven(ir: Ir, i: nat, n: Node)
    requires BuiltObjects(ir.brokerObject) && i < MEMBERS && FieldOf(n) == IrFields(ir)[i] && NodeSeparate(n)
    requires i == LAYERS || i == NET_RULES || i == BROKER_OBJECT || i == ADDFD || i == DENY
    ensures MemberGiven(i, n)
  {
    forall k | 0 <= k < |ir.fsLayers| ensures Spells(LayerGiven, LayerField, ir.fsLayers[k]) {
      LayerSpells(ir.fsLayers[k]);
    }
    forall k | 0 <= k < |ir.netRules| ensures Spells(IsNetRule, NetRuleField, ir.netRules[k]) {
      NumbersSpell(ir.netRules[k], 0);
    }
    forall k | 0 <= k < |ir.brokerObject| ensures Spells(ObjectGiven, ObjectField, ir.brokerObject[k]) {
      ObjectSpells(ir.brokerObject[k]);
    }
    forall k | 0 <= k < |ir.addfd| ensures Spells(AddfdGiven, AddfdField, ir.addfd[k]) {
      AddfdSpells(ir.addfd[k]);
    }
    forall k | 0 <= k < |ir.deny| ensures Spells(IsDeny, DenyField, ir.deny[k]) {
      NumbersSpell(NetRule(0, 0), ir.deny[k]);
    }
    if i == LAYERS {
      ArrayIsGiven(LayerGiven, LayerField, ir.fsLayers, n);
    } else if i == NET_RULES {
      ArrayIsGiven(IsNetRule, NetRuleField, ir.netRules, n);
    } else if i == BROKER_OBJECT {
      ArrayIsGiven(ObjectGiven, ObjectField, ir.brokerObject, n);
    } else if i == ADDFD {
      ArrayIsGiven(AddfdGiven, AddfdField, ir.addfd, n);
    } else {
      ArrayIsGiven(IsDeny, DenyField, ir.deny, n);
    }
  }

  function PathsAt(ir: Ir, i: nat): seq<Str> {
    if i == OPEN_READ then ir.openRead else if i == OPEN_WRITE then ir.openWrite else if i == SCRATCH then ir.scratch
    else if i == EXPORT then ir.exports else if i == BROKER_TMPFS then ir.brokerTmpfs
    else if i == MOUNT_TMPFS then ir.mountTmpfs else ir.mountProc
  }

  lemma {:induction false} WordsAndPointers(ir: Ir, i: nat, n: Node)
    requires (IsWord(i) || IsPointer(i)) && FieldOf(n) == IrFields(ir)[i] && NodeSeparate(n)
    ensures MemberGiven(i, n)
  {
  }

  lemma {:induction false} PathFields(ir: Ir, i: nat)
    requires IsPaths(i)
    ensures IrFields(ir)[i] == List(PathField, PathsAt(ir, i))
  {
  }

  lemma {:induction false} PathSectionIsGiven(ir: Ir, i: nat, n: Node)
    requires IsPaths(i) && FieldOf(n) == IrFields(ir)[i] && NodeSeparate(n)
    ensures IsArray(PathGiven, n)
  {
    PathFields(ir, i);
    PathsAreGiven(PathsAt(ir, i), n);
  }

  lemma {:induction false} BindSectionIsGiven(ir: Ir, i: nat, n: Node)
    requires IsBinds(i) && FieldOf(n) == IrFields(ir)[i] && NodeSeparate(n)
    ensures IsArray(BindGiven, n)
  {
    BindsAreGiven(if i == BROKER_BIND then ir.brokerBind else ir.mountBind, n);
  }

  /** Whatever memory holds a built policy is a source that can be copied. */
  lemma {:induction false} BuiltIsGiven(steps: seq<Step>, from: seq<Node>)
    requires FieldsOf(from) == IrFields(Built(steps)) && SeparateAll(from)
    ensures PolicyGiven(from)
  {
    BuiltIsWellBuilt(steps);
    forall i | 0 <= i < MEMBERS ensures MemberGiven(i, from[i]) {
      At(map[], from, i);
      MemberIsGiven(Built(steps), i, from[i]);
    }
  }

  lemma {:induction false} MemberIsGiven(ir: Ir, i: nat, n: Node)
    requires WellBuilt(ir) && i < MEMBERS && FieldOf(n) == IrFields(ir)[i] && NodeSeparate(n)
    ensures MemberGiven(i, n)
  {
    if IsPaths(i) {
      PathSectionIsGiven(ir, i, n);
    } else if IsBinds(i) {
      BindSectionIsGiven(ir, i, n);
    } else if IsWord(i) || IsPointer(i) {
      WordsAndPointers(ir, i, n);
    } else {
      RulesAreGiven(ir, i, n);
    }
  }

  // ----- copies of built policies

  /** Every policy that the operations build is copied exactly into a cleared
      destination. */
  lemma {:induction false} BuiltPoliciesAreCopied(steps: seq<Step>, copy: seq<Field>)
    requires IsCopy(copy, IrFields(Built(steps)), 0)
    ensures copy == IrFields(Built(steps))
  {
    BuiltIsWellBuilt(steps);
    CopyIsExactIff(Built(steps), copy, 0);
  }

  /** And its copy can fail for nothing but memory. */
  lemma {:induction false} BuiltPoliciesAreNotRefused(steps: seq<Step>, from: seq<Node>)
    requires FieldsOf(from) == IrFields(Built(steps)) && SeparateAll(from)
    ensures Shaped(CellsOf(from)) && !Refused(CellsOf(from))
  {
    BuiltIsWellBuilt(steps);
    BuiltIsGiven(steps, from);
    GivenIsShaped(from);
    assert FieldsOf(from)[SECCOMP_ENABLED] == FieldOf(from[SECCOMP_ENABLED]);
    assert FieldsOf(from)[SECCOMP_ERRNO] == FieldOf(from[SECCOMP_ERRNO]);
    Switches(from);
  }

  // ----- what the emptiness check does not see

  /** A destination that holds nothing but a net_handled_access passes the check,
      and a copy of the empty policy into it is not the empty policy. */
  lemma {:induction false} StaleAccessShows(copy: seq<Field>)
    requires IsCopy(copy, IrFields(EMPTY), 1)
    ensures Shaped(Idle(1)) && !Occupied(Idle(1)) && Idle(1)[NET_HANDLED] == Word(1)
    ensures copy != IrFields(EMPTY) && copy[NET_HANDLED] == Scalar(1)
  {
    CopyIsExactIff(EMPTY, copy, 1);
    assert copy[NET_HANDLED] == Copied(IrFields(EMPTY), 1, NET_HANDLED);
    FlagsAndLists(EMPTY);
  }

  /** The operations never make such a destination: whatever they build and the
      check lets pass has no access bits left over. */
  lemma {:induction false} BuiltDestinationsAreNotStale(steps: seq<Step>, members: seq<Node>)
    requires FieldsOf(members) == IrFields(Built(steps)) && SeparateAll(members)
    ensures Shaped(CellsOf(members)) && (!Occupied(CellsOf(members)) ==> CellsOf(members)[NET_HANDLED] == Word(0))
  {
    BuiltIsWellBuilt(steps);
    BuiltIsGiven(steps, members);
    GivenIsShaped(members);
    Switches(members);
    FlagsAndLists(Built(steps));
    assert FieldsOf(members)[NET_ENABLED] == FieldOf(members[NET_ENABLED]);
    assert FieldsOf(members)[NET_HANDLED] == FieldOf(members[NET_HANDLED]);
  }
}
