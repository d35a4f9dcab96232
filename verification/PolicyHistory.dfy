/** What a built policy holds, list by list: the arguments of the operations that
    succeeded, in their order. */
module PolicyHistory {
  import opened Bytes
  import opened PolicyBuild
  import opened PolicyIr

  /** The operations that succeeded. */
  function Succeeded(steps: seq<Step>): seq<Op> {
    if steps == [] then []
    else
      var n := |steps| - 1;
      Succeeded(steps[..n])
      + if Errno(Built(steps[..n]), steps[n].op, steps[n].memory) == 0 then [steps[n].op] else []
  }

  function PathsOf(ops: seq<Op>, list: PathList): seq<Str> {
    if ops == [] then []
    else
      var last := ops[|ops| - 1];
      PathsOf(ops[..|ops| - 1], list) + if last.AddPath? && last.pathList == list then [last.path] else []
  }

  function BindsOf(ops: seq<Op>, list: BindList): seq<BindRule> {
    if ops == [] then []
    else
      var last := ops[|ops| - 1];
      BindsOf(ops[..|ops| - 1], list)
      + if last.AddBind? && last.bindList == list then [BindRule(last.source, last.target, last.readOnly)] else []
  }

  function ObjectsOf(ops: seq<Op>): seq<ObjectRule> {
    if ops == [] then []
    else
      var last := ops[|ops| - 1];
      ObjectsOf(ops[..|ops| - 1])
      + if last.AddObject? then [ObjectRule(last.name, last.fsType, last.attach, last.attrs)] else []
  }

  function AddfdsOf(ops: seq<Op>): seq<AddfdRule> {
    if ops == [] then []
    else
      var last := ops[|ops| - 1];
      AddfdsOf(ops[..|ops| - 1])
      + if last.AddAddfd? then [AddfdRule(last.action, last.target, if last.mode == Some([]) then None else last.mode)] else []
  }

  function NetRulesOf(ops: seq<Op>): seq<NetRule> {
    if ops == [] then []
    else
      var last := ops[|ops| - 1];
      NetRulesOf(ops[..|ops| - 1]) + if last.AddNetRule? then [NetRule(last.port, last.netAccess)] else []
  }

  function DeniesOf(ops: seq<Op>): seq<int> {
    if ops == [] then []
    else
      var last := ops[|ops| - 1];
      DeniesOf(ops[..|ops| - 1]) + if last.AddDeny? then [last.nr] else []
  }

  /** The access bits of the layers, in order of their creation. */
  function HandledOf(ops: seq<Op>): seq<u64> {
    if ops == [] then []
    else
      var last := ops[|ops| - 1];
      HandledOf(ops[..|ops| - 1]) + if last.AddFsLayer? then [last.handled] else []
  }

  /** The rules that were added to layer i. */
  function RulesOf(ops: seq<Op>, i: nat): seq<FsRule> {
    if ops == [] then []
    else
      var last := ops[|ops| - 1];
      RulesOf(ops[..|ops| - 1], i) + if last.AddFsRule? && last.layer == i then [FsRule(last.path, last.access)] else []
  }

  /** The last network switch, the last error number, the root and the directory. */
  function NetOf(ops: seq<Op>): Option<u64> {
    if ops == [] then None
    else if ops[|ops| - 1].EnableNet? then Some(ops[|ops| - 1].netHandled)
    else NetOf(ops[..|ops| - 1])
  }

  function ErrnoOf(ops: seq<Op>): Option<u16> {
    if ops == [] then None
    else if ops[|ops| - 1].EnableSeccomp? then Some(ops[|ops| - 1].errno)
    else ErrnoOf(ops[..|ops| - 1])
  }

  function RootOf(ops: seq<Op>): Option<Str> {
    if ops == [] then None
    else if ops[|ops| - 1].SetRoot? then Some(ops[|ops| - 1].path)
    else RootOf(ops[..|ops| - 1])
  }

  function CwdOf(ops: seq<Op>): Option<Str> {
    if ops == [] then None
    else if ops[|ops| - 1].SetCwd? then Some(ops[|ops| - 1].path)
    else CwdOf(ops[..|ops| - 1])
  }

  /** The list of plain paths by its name, and the list of bind rules. */
  function ListOf(ir: Ir, list: PathList): seq<Str> {
    match list
    case OpenRead => ir.openRead
    case OpenWrite => ir.openWrite
    case Scratch => ir.scratch
    case Export => ir.exports
    case BrokerTmpfs => ir.brokerTmpfs
    case MountTmpfs => ir.mountTmpfs
    case MountProc => ir.mountProc
  }

  function BindListOf(ir: Ir, list: BindList): seq<BindRule> {
    match list
    case BrokerBind => ir.brokerBind
    case MountBind => ir.mountBind
  }

  predicate HoldsPaths(ir: Ir, ops: seq<Op>) {
    forall list: PathList :: ListOf(ir, list) == PathsOf(ops, list)
  }

  predicate HoldsPlaces(ir: Ir, ops: seq<Op>) {
    ir.root == RootOf(ops) && ir.cwd == CwdOf(ops)
  }

  predicate HoldsBinds(ir: Ir, ops: seq<Op>) {
    forall list: BindList :: BindListOf(ir, list) == BindsOf(ops, list)
  }

  predicate HoldsObjects(ir: Ir, ops: seq<Op>) {
    ir.brokerObject == ObjectsOf(ops) && ir.addfd == AddfdsOf(ops)
  }

  predicate HoldsNumbers(ir: Ir, ops: seq<Op>) {
    ir.netRules == NetRulesOf(ops) && ir.deny == DeniesOf(ops)
  }

  predicate HoldsNet(ir: Ir, ops: seq<Op>) {
    ir.netEnabled == NetOf(ops).Some? && ir.netHandled == if NetOf(ops).Some? then NetOf(ops).value else 0
  }

  predicate HoldsSeccomp(ir: Ir, ops: seq<Op>) {
    ir.seccompEnabled == ErrnoOf(ops).Some? && ir.seccompErrno == if ErrnoOf(ops).Some? then ErrnoOf(ops).value else 0
  }

  predicate HoldsLayers(ir: Ir, ops: seq<Op>) {
    && |ir.fsLayers| == |HandledOf(ops)|
    && forall i :: 0 <= i < |ir.fsLayers| ==> ir.fsLayers[i] == FsLayer(HandledOf(ops)[i], RulesOf(ops, i))
  }

  lemma {:induction false} PathsOfNext(ops: seq<Op>, op: Op, list: PathList)
    ensures PathsOf(ops + [op], list) ==
      if op.AddPath? && op.pathList == list then PathsOf(ops, list) + [op.path] else PathsOf(ops, list)
  {
    assert (ops + [op])[..|ops|] == ops;
  }

  lemma {:induction false} RootNext(ops: seq<Op>, op: Op)
    ensures RootOf(ops + [op]) == if op.SetRoot? then Some(op.path) else RootOf(ops)
    ensures CwdOf(ops + [op]) == if op.SetCwd? then Some(op.path) else CwdOf(ops)
  {
    assert (ops + [op])[..|ops|] == ops;
  }

  lemma {:induction false} ListAfter(ir: Ir, op: Op, list: PathList)
    requires Accepts(ir, op)
    ensures ListOf(Applied(ir, op), list) ==
      if op.AddPath? && op.pathList == list then ListOf(ir, list) + [op.path] else ListOf(ir, list)
  {
  }

  lemma {:induction false} PathsNext(ir: Ir, ops: seq<Op>, op: Op)
    requires HoldsPaths(ir, ops) && Accepts(ir, op)
    ensures HoldsPaths(Applied(ir, op), ops + [op])
  {
    forall list: PathList ensures ListOf(Applied(ir, op), list) == PathsOf(ops + [op], list) {
      PathsOfNext(ops, op, list);
      ListAfter(ir, op, list);
    }
  }

  lemma {:induction false} RootAfter(ir: Ir, op: Op)
    requires Accepts(ir, op)
    ensures Applied(ir, op).root == if op.SetRoot? then Some(op.path) else ir.root
    ensures Applied(ir, op).cwd == if op.SetCwd? then Some(op.path) else ir.cwd
  {
  }

  lemma {:induction false} PlacesNext(ir: Ir, ops: seq<Op>, op: Op)
    requires HoldsPlaces(ir, ops) && Accepts(ir, op)
    ensures HoldsPlaces(Applied(ir, op), ops + [op])
  {
    RootNext(ops, op);
    RootAfter(ir, op);
  }

  lemma {:induction false} BindsOfNext(ops: seq<Op>, op: Op, list: BindList)
    ensures BindsOf(ops + [op], list) ==
      if op.AddBind? && op.bindList == list then BindsOf(ops, list) + [BindRule(op.source, op.target, op.readOnly)]
      else BindsOf(ops, list)
  {
    assert (ops + [op])[..|ops|] == ops;
  }

  lemma {:induction false} ObjectsOfNext(ops: seq<Op>, op: Op)
    ensures ObjectsOf(ops + [op]) ==
      if op.AddObject? then ObjectsOf(ops) + [ObjectRule(op.name, op.fsType, op.attach, op.attrs)] else ObjectsOf(ops)
    ensures AddfdsOf(ops + [op]) ==
      if op.AddAddfd? then AddfdsOf(ops) + [AddfdRule(op.action, op.target, if op.mode == Some([]) then None else op.mode)]
      else AddfdsOf(ops)
  {
    assert (ops + [op])[..|ops|] == ops;
  }

  lemma {:induction false} NumbersNext(ops: seq<Op>, op: Op)
    ensures NetRulesOf(ops + [op]) ==
      if op.AddNetRule? then NetRulesOf(ops) + [NetRule(op.port, op.netAccess)] else NetRulesOf(ops)
    ensures DeniesOf(ops + [op]) == if op.AddDeny? then DeniesOf(ops) + [op.nr] else DeniesOf(ops)
  {
    assert (ops + [op])[..|ops|] == ops;
  }

  lemma {:induction false} BindListAfter(ir: Ir, op: Op, list: BindList)
    requires Accepts(ir, op)
    ensures BindListOf(Applied(ir, op), list) ==
      if op.AddBind? && op.bindList == list then BindListOf(ir, list) + [BindRule(op.source, op.target, op.readOnly)]
      else BindListOf(ir, list)
  {
  }

  lemma {:induction false} BindsNext(ir: Ir, ops: seq<Op>, op: Op)
    requires HoldsBinds(ir, ops) && Accepts(ir, op)
    ensures HoldsBinds(Applied(ir, op), ops + [op])
  {
    forall list: BindList ensures BindListOf(Applied(ir, op), list) == BindsOf(ops + [op], list) {
      BindsOfNext(ops, op, list);
      BindListAfter(ir, op, list);
    }
  }

  lemma {:induction false} ObjectsNext(ir: Ir, ops: seq<Op>, op: Op)
    requires HoldsObjects(ir, ops) && Accepts(ir, op)
    ensures HoldsObjects(Applied(ir, op), ops + [op])
  {
    ObjectsOfNext(ops, op);
  }

  lemma {:induction false} RulesNext(ir: Ir, ops: seq<Op>, op: Op)
    requires HoldsNumbers(ir, ops) && Accepts(ir, op)
    ensures HoldsNumbers(Applied(ir, op), ops + [op])
  {
    NumbersNext(ops, op);
  }

  lemma {:induction false} SwitchOfNext(ops: seq<Op>, op: Op)
    ensures NetOf(ops + [op]) == if op.EnableNet? then Some(op.netHandled) else NetOf(ops)
    ensures ErrnoOf(ops + [op]) == if op.EnableSeccomp? then Some(op.errno) else ErrnoOf(ops)
  {
    assert (ops + [op])[..|ops|] == ops;
  }

  lemma {:induction false} NetAfter(ir: Ir, op: Op)
    requires Accepts(ir, op)
    ensures Applied(ir, op).netEnabled == (op.EnableNet? || ir.netEnabled)
    ensures Applied(ir, op).netHandled == if op.EnableNet? then op.netHandled else ir.netHandled
  {
  }

  lemma {:induction false} NetNext(ir: Ir, ops: seq<Op>, op: Op)
    requires HoldsNet(ir, ops) && Accepts(ir, op)
    ensures HoldsNet(Applied(ir, op), ops + [op])
  {
    SwitchOfNext(ops, op);
    NetAfter(ir, op);
  }

  lemma {:induction false} SeccompAfter(ir: Ir, op: Op)
    requires Accepts(ir, op)
    ensures Applied(ir, op).seccompEnabled == (op.EnableSeccomp? || ir.seccompEnabled)
    ensures Applied(ir, op).seccompErrno == if op.EnableSeccomp? then op.errno else ir.seccompErrno
  {
  }

  lemma {:induction false} SeccompNext(ir: Ir, ops: seq<Op>, op: Op)
    requires HoldsSeccomp(ir, ops) && Accepts(ir, op)
    ensures HoldsSeccomp(Applied(ir, op), ops + [op])
  {
    SwitchOfNext(ops, op);
    SeccompAfter(ir, op);
  }

  /** No rule was added to a layer that does not exist yet. */
  ghost predicate NoneBeyond(ops: seq<Op>, n: nat) {
    forall i: nat :: i >= n ==> RulesOf(ops, i) == []
  }

  lemma {:induction false} LayersNext(ir: Ir, ops: seq<Op>, op: Op)
    requires HoldsLayers(ir, ops) && NoneBeyond(ops, |ir.fsLayers|) && Accepts(ir, op)
    ensures HoldsLayers(Applied(ir, op), ops + [op]) && NoneBeyond(ops + [op], |Applied(ir, op).fsLayers|)
  {
    assert (ops + [op])[..|ops|] == ops;
  }

  /** After any sequence of operations, failed ones included, every list of the policy
      holds exactly the arguments of the operations of its kind that succeeded, in
      order; every layer the rules that were added to it; and the switches, root and
      working directory what was set. */
  lemma {:induction false} BuiltIsHistory(steps: seq<Step>)
    ensures var ir, ops := Built(steps), Succeeded(steps);
      && HoldsPaths(ir, ops) && HoldsPlaces(ir, ops) && HoldsBinds(ir, ops) && HoldsObjects(ir, ops)
      && HoldsNumbers(ir, ops) && HoldsNet(ir, ops) && HoldsSeccomp(ir, ops) && HoldsLayers(ir, ops) && NoneBeyond(ops, |ir.fsLayers|)
  {
    if steps != [] {
      var n := |steps| - 1;
      BuiltIsHistory(steps[..n]);
      var ir, ops, op := Built(steps[..n]), Succeeded(steps[..n]), steps[n].op;
      if Errno(ir, op, steps[n].memory) == 0 {
        PathsNext(ir, ops, op);
        PlacesNext(ir, ops, op);
        BindsNext(ir, ops, op);
        ObjectsNext(ir, ops, op);
        RulesNext(ir, ops, op);
        NetNext(ir, ops, op);
        SeccompNext(ir, ops, op);
        LayersNext(ir, ops, op);
      } else {
        assert ops + [] == ops;
      }
    }
  }
}
