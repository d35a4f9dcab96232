/** The policy intermediate representation (struct landlockd_policy_ir). */
module PolicyIr {
  import opened Bytes

  datatype FsRule = FsRule(path: Str, access: u64)
  datatype FsLayer = FsLayer(handled: u64, rules: seq<FsRule>)
  datatype NetRule = NetRule(port: u16, access: u64)
  datatype BindRule = BindRule(source: Str, target: Str, readOnly: bool)
  datatype ObjectRule = ObjectRule(name: Str, fsType: Str, attach: seq<Str>, attrs: u64)
  datatype AddfdRule = AddfdRule(action: Str, target: Str, mode: Option<Str>)

  datatype Ir = Ir(
    fsLayers: seq<FsLayer>,
    netEnabled: bool,
    netHandled: u64,
    netRules: seq<NetRule>,
    openRead: seq<Str>,
    openWrite: seq<Str>,
    scratch: seq<Str>,
    exports: seq<Str>,
    brokerTmpfs: seq<Str>,
    brokerBind: seq<BindRule>,
    brokerObject: seq<ObjectRule>,
    addfd: seq<AddfdRule>,
    mountTmpfs: seq<Str>,
    mountBind: seq<BindRule>,
    mountProc: seq<Str>,
    root: Option<Str>,
    cwd: Option<Str>,
    seccompEnabled: bool,
    seccompErrno: u16,
    deny: seq<u32>
  )

  /** The closed set of actions that an addfd rule may name. */
  const OPEN: Str := "open"
  const OPEN_TREE: Str := "open_tree"
  const SCRATCH_OPEN: Str := "scratch_open"
  const FSOPEN: Str := "fsopen"
  const FSMOUNT: Str := "fsmount"

  // ----- what the builder operations accept

  /** A C string whose length fits the 32 bits it has on the wire. */
  predicate Text(s: Str) {
    NulFree(s) && |s| < TWO_32
  }

  predicate Name(s: Str) {
    Text(s) && s != []
  }

  predicate Names(paths: seq<Str>) {
    |paths| < TWO_32 && forall i :: 0 <= i < |paths| ==> Name(paths[i])
  }

  predicate ValidFsRule(r: FsRule) {
    r.access != 0 && Text(r.path)
  }

  predicate ValidLayer(l: FsLayer) {
    l.handled != 0 && |l.rules| < TWO_32 && forall i :: 0 <= i < |l.rules| ==> ValidFsRule(l.rules[i])
  }

  predicate ValidBind(r: BindRule) {
    Name(r.source) && Name(r.target)
  }

  predicate ValidBinds(rules: seq<BindRule>) {
    |rules| < TWO_32 && forall i :: 0 <= i < |rules| ==> ValidBind(rules[i])
  }

  predicate ValidObject(r: ObjectRule) {
    Name(r.name) && Name(r.fsType) && r.attach != [] && Names(r.attach)
  }

  predicate ActionKnown(action: Str) {
    action == OPEN || action == OPEN_TREE || action == SCRATCH_OPEN || action == FSOPEN || action == FSMOUNT
  }

  predicate ValidAddfd(r: AddfdRule) {
    ActionKnown(r.action) && Name(r.target) && (r.mode.Some? ==> Name(r.mode.value))
  }

  predicate ValidNet(ir: Ir) {
    && |ir.netRules| < TWO_32
    && (forall i :: 0 <= i < |ir.netRules| ==> ir.netRules[i].access != 0)
    && (if ir.netEnabled then ir.netHandled != 0 else ir.netHandled == 0 && ir.netRules == [])
  }

  predicate ValidSeccomp(ir: Ir) {
    && |ir.deny| < TWO_32
    && (forall i :: 0 <= i < |ir.deny| ==> ir.deny[i] <= 0x7fff_ffff)
    && (if ir.seccompEnabled then 1 <= ir.seccompErrno <= 4095 else ir.seccompErrno == 0 && ir.deny == [])
  }

  /** What a policy built by the builder operations satisfies, with counts and
      lengths that fit 32 bits. */
  predicate WellFormed(ir: Ir) {
    && |ir.fsLayers| < TWO_32 && (forall i :: 0 <= i < |ir.fsLayers| ==> ValidLayer(ir.fsLayers[i]))
    && ValidNet(ir)
    && Names(ir.openRead) && Names(ir.openWrite) && Names(ir.scratch) && Names(ir.exports)
    && Names(ir.brokerTmpfs) && ValidBinds(ir.brokerBind)
    && |ir.brokerObject| < TWO_32 && (forall i :: 0 <= i < |ir.brokerObject| ==> ValidObject(ir.brokerObject[i]))
    && |ir.addfd| < TWO_32 && (forall i :: 0 <= i < |ir.addfd| ==> ValidAddfd(ir.addfd[i]))
    && Names(ir.mountTmpfs) && ValidBinds(ir.mountBind) && Names(ir.mountProc)
    && (ir.root.Some? ==> Name(ir.root.value)) && (ir.cwd.Some? ==> Name(ir.cwd.value))
    && ValidSeccomp(ir)
  }

  /** Every nested count fits the 32-bit counters of the writer's loops. */
  predicate NestedCountable(ir: Ir) {
    && (forall i :: 0 <= i < |ir.fsLayers| ==> |ir.fsLayers[i].rules| < TWO_32)
    && (forall i :: 0 <= i < |ir.brokerObject| ==> |ir.brokerObject[i].attach| < TWO_32)
  }

  predicate Countable(ir: Ir) {
    && |ir.fsLayers| < TWO_32 && |ir.netRules| < TWO_32 && |ir.deny| < TWO_32
    && |ir.openRead| < TWO_32 && |ir.openWrite| < TWO_32 && |ir.scratch| < TWO_32 && |ir.exports| < TWO_32
    && |ir.brokerTmpfs| < TWO_32 && |ir.brokerBind| < TWO_32 && |ir.brokerObject| < TWO_32 && |ir.addfd| < TWO_32
    && |ir.mountTmpfs| < TWO_32 && |ir.mountBind| < TWO_32 && |ir.mountProc| < TWO_32
    && NestedCountable(ir)
  }

  /** landlockd_policy_ir_init. */
  const EMPTY: Ir := Ir([], false, 0, [], [], [], [], [], [], [], [], [], [], [], [], None, None, false, 0, [])
}
