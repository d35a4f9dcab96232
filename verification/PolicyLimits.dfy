/** What every policy that a document can give is limited to. */
module PolicyLimits {
  import opened Bytes
  import opened PolicyDoc
  import opened PolicyIr
  import opened Toml

  predicate FromRoot(s: Str) {
    s != [] && s[0] == '/'
  }

  predicate AllFromRoot(paths: seq<Str>) {
    forall i :: 0 <= i < |paths| ==> FromRoot(paths[i])
  }

  predicate BindLimited(rule: BindRule) {
    FromRoot(rule.source) && FromRoot(rule.target)
  }

  predicate BindsLimited(rules: seq<BindRule>) {
    forall i :: 0 <= i < |rules| ==> BindLimited(rules[i])
  }

  /** A named tmpfs or proc with absolute attach points and no attribute beyond
      readonly, nosuid, nodev and noexec. */
  predicate ObjectLimited(rule: ObjectRule) {
    && rule.name != [] && '/' !in rule.name && (rule.fsType == "tmpfs" || rule.fsType == "proc")
    && rule.attach != [] && AllFromRoot(rule.attach) && rule.attrs < 0x1_0000
  }

  predicate AddfdLimited(rule: AddfdRule) {
    && (rule.action == "open" || rule.action == "open_tree" || rule.action == "scratch_open" || rule.action == "fsopen"
        || rule.action == "fsmount")
    && FromRoot(rule.target) && (rule.mode == None || rule.mode == Some("read") || rule.mode == Some("write"))
  }

  predicate BrokerLimited(ir: Ir) {
    && BindsLimited(ir.brokerBind)
    && (forall i :: 0 <= i < |ir.brokerObject| ==> ObjectLimited(ir.brokerObject[i]))
    && (forall i :: 0 <= i < |ir.addfd| ==> AddfdLimited(ir.addfd[i]))
  }

  predicate MountLimited(ir: Ir) {
    AllFromRoot(ir.mountTmpfs) && BindsLimited(ir.mountBind) && AllFromRoot(ir.mountProc)
  }

  predicate RuntimeLimited(ir: Ir) {
    (ir.root.Some? ==> FromRoot(ir.root.value)) && (ir.cwd.Some? ==> FromRoot(ir.cwd.value))
  }

  predicate SeccompLimited(ir: Ir) {
    if ir.seccompEnabled then 1 <= ir.seccompErrno <= 4095 && ir.deny != [] else ir.deny == []
  }

  predicate Limited(ir: Ir) {
    BrokerLimited(ir) && MountLimited(ir) && RuntimeLimited(ir) && SeccompLimited(ir)
  }

  lemma {:induction false} AllAre<T(!new)>(f: Value -> Option<T>, p: T -> bool, items: seq<Value>)
    requires forall v :: f(v).Some? ==> p(f(v).value)
    requires MapAll(f, items).Some?
    ensures |MapAll(f, items).value| == |items|
    ensures forall i :: 0 <= i < |MapAll(f, items).value| ==> p(MapAll(f, items).value[i])
  {
    MapAllAt(f, items);
  }

  lemma {:induction false} SomeAre<T(!new)>(t: Entries, key: string, f: Value -> Option<T>, p: T -> bool)
    requires forall v :: f(v).Some? ==> p(f(v).value)
    requires SomeIn(t, key, f).Some?
    ensures forall i :: 0 <= i < |SomeIn(t, key, f).value| ==> p(SomeIn(t, key, f).value[i])
  {
    if ArrayIn(t, key).Some? {
      AllAre(f, p, ArrayIn(t, key).value);
    }
  }

  lemma {:induction false} AttrsAreSmall(items: seq<Value>)
    requires AccessOf(items, MOUNT_ATTRS).Some?
    ensures AccessOf(items, MOUNT_ATTRS).value < 0x1_0000
  {
    BitsInRange(items, MOUNT_ATTRS);
    OrAllBits(MapAll(v => NamedBit(MOUNT_ATTRS, v), items).value);
  }

  lemma {:induction false} ObjectIsLimited(v: Value)
    requires ObjectOf(v).Some?
    ensures ObjectLimited(ObjectOf(v).value)
  {
    AllAre(p => PathOf(true, p), FromRoot, ArrayIn(v.entries, "attach").value);
    if ArrayIn(v.entries, "attrs").Some? {
      AttrsAreSmall(ArrayIn(v.entries, "attrs").value);
    }
  }

  lemma {:induction false} AddfdIsLimited(v: Value)
    requires AddfdOf(v).Some?
    ensures AddfdLimited(AddfdOf(v).value)
  {
  }

  lemma {:induction false} ObjectsAreLimited(t: Entries)
    requires SomeIn(t, "mount_object", ObjectOf).Some?
    ensures forall i :: 0 <= i < |SomeIn(t, "mount_object", ObjectOf).value| ==>
      ObjectLimited(SomeIn(t, "mount_object", ObjectOf).value[i])
  {
    forall v | ObjectOf(v).Some? ensures ObjectLimited(ObjectOf(v).value) {
      ObjectIsLimited(v);
    }
    SomeAre(t, "mount_object", ObjectOf, ObjectLimited);
  }

  lemma {:induction false} AddfdsAreLimited(t: Entries)
    requires SomeIn(t, "addfd", AddfdOf).Some?
    ensures forall i :: 0 <= i < |SomeIn(t, "addfd", AddfdOf).value| ==> AddfdLimited(SomeIn(t, "addfd", AddfdOf).value[i])
  {
    forall v | AddfdOf(v).Some? ensures AddfdLimited(AddfdOf(v).value) {
      AddfdIsLimited(v);
    }
    SomeAre(t, "addfd", AddfdOf, AddfdLimited);
  }

  // ----- sections keep a policy limited

  /** Where the three lists of rules come from. */
  lemma {:induction false} BrokerParts(ir: Ir, t: Entries)
    requires BrokerIn(ir, t).Some?
    ensures Some(BrokerIn(ir, t).value.brokerBind) == SomeIn(t, "mount_bind", BindOf)
    ensures Some(BrokerIn(ir, t).value.brokerObject) == SomeIn(t, "mount_object", ObjectOf)
    ensures Some(BrokerIn(ir, t).value.addfd) == SomeIn(t, "addfd", AddfdOf)
    ensures var r := BrokerIn(ir, t).value;
      r.mountTmpfs == ir.mountTmpfs && r.mountBind == ir.mountBind && r.mountProc == ir.mountProc && r.root == ir.root
      && r.cwd == ir.cwd && r.seccompEnabled == ir.seccompEnabled && r.seccompErrno == ir.seccompErrno && r.deny == ir.deny
  {
  }

  lemma {:induction false} RulesAreLimited(t: Entries, ir: Ir)
    requires Some(ir.brokerBind) == SomeIn(t, "mount_bind", BindOf)
    requires Some(ir.brokerObject) == SomeIn(t, "mount_object", ObjectOf) && Some(ir.addfd) == SomeIn(t, "addfd", AddfdOf)
    ensures BrokerLimited(ir)
  {
    SomeAre(t, "mount_bind", BindOf, BindLimited);
    ObjectsAreLimited(t);
    AddfdsAreLimited(t);
  }

  lemma {:induction false} BrokerKeepsLimits(ir: Ir, t: Entries)
    requires Limited(ir) && BrokerIn(ir, t).Some?
    ensures Limited(BrokerIn(ir, t).value)
  {
    BrokerParts(ir, t);
    RulesAreLimited(t, BrokerIn(ir, t).value);
  }

  lemma {:induction false} MountKeepsLimits(ir: Ir, t: Entries)
    requires Limited(ir) && MountIn(ir, t).Some?
    ensures Limited(MountIn(ir, t).value)
  {
    SomeAre(t, "tmpfs", p => PathOf(true, p), FromRoot);
    SomeAre(t, "bind", BindOf, BindLimited);
    SomeAre(t, "proc", p => PathOf(true, p), FromRoot);
  }

  lemma {:induction false} SeccompKeepsLimits(ir: Ir, t: Entries, sys: Syscalls)
    requires Limited(ir) && SeccompIn(ir, t, sys).Some?
    ensures Limited(SeccompIn(ir, t, sys).value)
  {
    MapAllAt(v => DenyOf(sys, v), ArrayIn(t, "deny").value);
  }

  lemma {:induction false} SectionKeepsLimits(ir: Ir, doc: Entries, key: string, f: (Ir, Entries) -> Option<Ir>)
    requires Limited(ir) && Section(ir, doc, key, f).Some?
    requires forall t :: f(ir, t).Some? ==> Limited(f(ir, t).value)
    ensures Limited(Section(ir, doc, key, f).value)
  {
  }

  lemma {:induction false} AccessKeepsLimits(ir: Ir, doc: Entries)
    requires Limited(ir) && AccessSections(ir, doc).Some?
    ensures Limited(AccessSections(ir, doc).value)
  {
    SectionKeepsLimits(ir, doc, "net", NetIn);
    var withNet := Section(ir, doc, "net", NetIn).value;
    forall t | BrokerIn(withNet, t).Some? ensures Limited(BrokerIn(withNet, t).value) {
      BrokerKeepsLimits(withNet, t);
    }
    SectionKeepsLimits(withNet, doc, "broker", BrokerIn);
  }

  lemma {:induction false} RunKeepsLimits(ir: Ir, doc: Entries, sys: Syscalls)
    requires Limited(ir) && RunSections(ir, doc, sys).Some?
    ensures Limited(RunSections(ir, doc, sys).value)
  {
    forall t | MountIn(ir, t).Some? ensures Limited(MountIn(ir, t).value) {
      MountKeepsLimits(ir, t);
    }
    SectionKeepsLimits(ir, doc, "mount", MountIn);
    var withMount := Section(ir, doc, "mount", MountIn).value;
    SectionKeepsLimits(withMount, doc, "runtime", RuntimeIn);
    var withRuntime := Section(withMount, doc, "runtime", RuntimeIn).value;
    forall t | SeccompIn(withRuntime, t, sys).Some? ensures Limited(SeccompIn(withRuntime, t, sys).value) {
      SeccompKeepsLimits(withRuntime, t, sys);
    }
    SectionKeepsLimits(withRuntime, doc, "seccomp", (ir, t) => SeccompIn(ir, t, sys));
  }

  /** Whatever document is loaded, every path that the policy mounts, attaches or runs
      in is absolute, and names, kinds, actions, modes and errnos are from the closed
      sets of the format. */
  lemma {:induction false} LoadedIsLimited(doc: Entries, sys: Syscalls)
    requires Load(doc, sys).Some?
    ensures Limited(Load(doc, sys).value)
  {
    var ir := EMPTY.(fsLayers := LayersIn(doc).value);
    AccessKeepsLimits(ir, doc);
    RunKeepsLimits(AccessSections(ir, doc).value, doc, sys);
  }
}
