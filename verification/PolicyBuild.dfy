/** The operations that build a policy (landlockd_policy_ir_add_*, set_* and
    enable_*), and what every sequence of them makes. */
module PolicyBuild {
  import opened Answers
  import opened Bytes
  import opened PolicyIr

  type i32 = x: int | -0x8000_0000 <= x < 0x8000_0000

  /** The sections that hold plain paths, and those that hold bind rules. */
  datatype PathList = OpenRead | OpenWrite | Scratch | Export | BrokerTmpfs | MountTmpfs | MountProc
  datatype BindList = BrokerBind | MountBind

  datatype Op =
    | AddFsLayer(handled: u64)
    | AddFsRule(layer: nat, path: Str, access: u64)
    | EnableNet(netHandled: u64)
    | AddNetRule(port: u16, netAccess: u64)
    | AddPath(pathList: PathList, path: Str)
    | AddBind(bindList: BindList, source: Str, target: Str, readOnly: bool)
    | AddObject(name: Str, fsType: Str, attach: seq<Str>, attrs: u64)
    | AddAddfd(action: Str, target: Str, mode: Option<Str>)
    | SetRoot(path: Str)
    | SetCwd(path: Str)
    | EnableSeccomp(errno: u16)
    | AddDeny(nr: i32)

  // ----- what an operation does

  predicate AllNonempty(paths: seq<Str>) {
    forall i :: 0 <= i < |paths| ==> paths[i] != []
  }

  /** The checks that an operation makes of its arguments. */
  predicate Accepts(ir: Ir, op: Op) {
    match op
    case AddFsLayer(handled) => handled != 0
    case AddFsRule(layer, _, access) => access != 0 && layer < |ir.fsLayers|
    case EnableNet(handled) => handled != 0
    case AddNetRule(_, access) => access != 0 && ir.netEnabled
    case AddPath(_, path) => path != []
    case AddBind(_, source, target, _) => source != [] && target != []
    case AddObject(name, fsType, attach, _) => name != [] && fsType != [] && attach != [] && AllNonempty(attach)
    case AddAddfd(action, target, _) => action != [] && target != []
    case SetRoot(path) => path != [] && ir.root.None?
    case SetCwd(path) => path != [] && ir.cwd.None?
    case EnableSeccomp(errno) => errno != 0
    case AddDeny(nr) => ir.seccompEnabled && nr >= 0
  }

  function PathAdded(ir: Ir, list: PathList, path: Str): Ir {
    match list
    case OpenRead => ir.(openRead := ir.openRead + [path])
    case OpenWrite => ir.(openWrite := ir.openWrite + [path])
    case Scratch => ir.(scratch := ir.scratch + [path])
    case Export => ir.(exports := ir.exports + [path])
    case BrokerTmpfs => ir.(brokerTmpfs := ir.brokerTmpfs + [path])
    case MountTmpfs => ir.(mountTmpfs := ir.mountTmpfs + [path])
    case MountProc => ir.(mountProc := ir.mountProc + [path])
  }

  function BindAdded(ir: Ir, list: BindList, rule: BindRule): Ir {
    match list
    case BrokerBind => ir.(brokerBind := ir.brokerBind + [rule])
    case MountBind => ir.(mountBind := ir.mountBind + [rule])
  }

  function RuleAdded(layers: seq<FsLayer>, i: nat, rule: FsRule): seq<FsLayer>
    requires i < |layers|
  {
    layers[i := layers[i].(rules := layers[i].rules + [rule])]
  }

  /** An empty mode is none. */
  function ModeGiven(mode: Option<Str>): Option<Str> {
    if mode == Some([]) then None else mode
  }

  function Applied(ir: Ir, op: Op): Ir
    requires Accepts(ir, op)
  {
    match op
    case AddFsLayer(handled) => ir.(fsLayers := ir.fsLayers + [FsLayer(handled, [])])
    case AddFsRule(layer, path, access) => ir.(fsLayers := RuleAdded(ir.fsLayers, layer, FsRule(path, access)))
    case EnableNet(handled) => ir.(netEnabled := true, netHandled := handled)
    case AddNetRule(port, access) => ir.(netRules := ir.netRules + [NetRule(port, access)])
    case AddPath(list, path) => PathAdded(ir, list, path)
    case AddBind(list, source, target, readOnly) => BindAdded(ir, list, BindRule(source, target, readOnly))
    case AddObject(name, fsType, attach, attrs) =>
      ir.(brokerObject := ir.brokerObject + [ObjectRule(name, fsType, attach, attrs)])
    case AddAddfd(action, target, mode) => ir.(addfd := ir.addfd + [AddfdRule(action, target, ModeGiven(mode))])
    case SetRoot(path) => ir.(root := Some(path))
    case SetCwd(path) => ir.(cwd := Some(path))
    case EnableSeccomp(errno) => ir.(seccompEnabled := true, seccompErrno := errno)
    case AddDeny(nr) => ir.(deny := ir.deny + [nr])
  }

  /** With too little memory an operation that allocates changes nothing. */
  predicate Allocates(op: Op) {
    !op.EnableNet? && !op.EnableSeccomp?
  }

  function Errno(ir: Ir, op: Op, memory: bool): int {
    if !Accepts(ir, op) then EINVAL else if Allocates(op) && !memory then ENOMEM else 0
  }

  function After(ir: Ir, op: Op, memory: bool): Ir {
    if Errno(ir, op, memory) == 0 then Applied(ir, op) else ir
  }

  // ----- the operations

  class Builder {
    var ir: Ir

    /** landlockd_policy_ir_init. */
    constructor ()
      ensures ir == EMPTY
    {
      ir := EMPTY;
    }

    method AddFsLayer(handled: u64, memory: bool) returns (errno: int)
      modifies this
      ensures errno == Errno(old(ir), Op.AddFsLayer(handled), memory) && ir == After(old(ir), Op.AddFsLayer(handled), memory)
    {
      if handled == 0 {
        return EINVAL;
      }
      if !memory {
        return ENOMEM;
      }
      ir := ir.(fsLayers := ir.fsLayers + [FsLayer(handled, [])]);
      errno := 0;
    }

    method AddFsRule(layer: nat, path: Str, access: u64, memory: bool) returns (errno: int)
      modifies this
      ensures errno == Errno(old(ir), Op.AddFsRule(layer, path, access), memory) && ir == After(old(ir), Op.AddFsRule(layer, path, access), memory)
    {
      if access == 0 || layer >= |ir.fsLayers| {
        return EINVAL;
      }
      if !memory {
        return ENOMEM;
      }
      var grown := ir.fsLayers[layer].(rules := ir.fsLayers[layer].rules + [FsRule(path, access)]);
      ir := ir.(fsLayers := ir.fsLayers[layer := grown]);
      errno := 0;
    }

    method EnableNet(handled: u64) returns (errno: int)
      modifies this
      ensures errno == Errno(old(ir), Op.EnableNet(handled), true) && ir == After(old(ir), Op.EnableNet(handled), true)
    {
      if handled == 0 {
        return EINVAL;
      }
      ir := ir.(netEnabled := true);
      ir := ir.(netHandled := handled);
      errno := 0;
    }

    method AddNetRule(port: u16, access: u64, memory: bool) returns (errno: int)
      modifies this
      ensures errno == Errno(old(ir), Op.AddNetRule(port, access), memory) && ir == After(old(ir), Op.AddNetRule(port, access), memory)
    {
      if access == 0 || !ir.netEnabled {
        return EINVAL;
      }
      if !memory {
        return ENOMEM;
      }
      ir := ir.(netRules := ir.netRules + [NetRule(port, access)]);
      errno := 0;
    }

    method AddOpenRead(path: Str, memory: bool) returns (errno: int)
      modifies this
      ensures errno == Errno(old(ir), AddPath(OpenRead, path), memory) && ir == After(old(ir), AddPath(OpenRead, path), memory)
    {
      if path == [] {
        return EINVAL;
      }
      if !memory {
        return ENOMEM;
      }
      ir := ir.(openRead := ir.openRead + [path]);
      errno := 0;
    }

    method AddOpenWrite(path: Str, memory: bool) returns (errno: int)
      modifies this
      ensures errno == Errno(old(ir), AddPath(OpenWrite, path), memory) && ir == After(old(ir), AddPath(OpenWrite, path), memory)
    {
      if path == [] {
        return EINVAL;
      }
      if !memory {
        return ENOMEM;
      }
      ir := ir.(openWrite := ir.openWrite + [path]);
      errno := 0;
    }

    method AddScratch(path: Str, memory: bool) returns (errno: int)
      modifies this
      ensures errno == Errno(old(ir), AddPath(Scratch, path), memory) && ir == After(old(ir), AddPath(Scratch, path), memory)
    {
      if path == [] {
        return EINVAL;
      }
      if !memory {
        return ENOMEM;
      }
      ir := ir.(scratch := ir.scratch + [path]);
      errno := 0;
    }

    method AddExport(path: Str, memory: bool) returns (errno: int)
      modifies this
      ensures errno == Errno(old(ir), AddPath(Export, path), memory) && ir == After(old(ir), AddPath(Export, path), memory)
    {
      if path == [] {
        return EINVAL;
      }
      if !memory {
        return ENOMEM;
      }
      ir := ir.(exports := ir.exports + [path]);
      errno := 0;
    }

    method AddBrokerTmpfs(path: Str, memory: bool) returns (errno: int)
      modifies this
      ensures errno == Errno(old(ir), AddPath(BrokerTmpfs, path), memory) && ir == After(old(ir), AddPath(BrokerTmpfs, path), memory)
    {
      if path == [] {
        return EINVAL;
      }
      if !memory {
        return ENOMEM;
      }
      ir := ir.(brokerTmpfs := ir.brokerTmpfs + [path]);
      errno := 0;
    }

    method AddMountTmpfs(path: Str, memory: bool) returns (errno: int)
      modifies this
      ensures errno == Errno(old(ir), AddPath(MountTmpfs, path), memory) && ir == After(old(ir), AddPath(MountTmpfs, path), memory)
    {
      if path == [] {
        return EINVAL;
      }
      if !memory {
        return ENOMEM;
      }
      ir := ir.(mountTmpfs := ir.mountTmpfs + [path]);
      errno := 0;
    }

    method AddMountProc(path: Str, memory: bool) returns (errno: int)
      modifies this
      ensures errno == Errno(old(ir), AddPath(MountProc, path), memory) && ir == After(old(ir), AddPath(MountProc, path), memory)
    {
      if path == [] {
        return EINVAL;
      }
      if !memory {
        return ENOMEM;
      }
      ir := ir.(mountProc := ir.mountProc + [path]);
      errno := 0;
    }

    method AddBrokerBind(source: Str, target: Str, readOnly: int, memory: bool) returns (errno: int)
      modifies this
      ensures errno == Errno(old(ir), AddBind(BrokerBind, source, target, readOnly != 0), memory) && ir == After(old(ir), AddBind(BrokerBind, source, target, readOnly != 0), memory)
    {
      if source == [] || target == [] {
        return EINVAL;
      }
      if !memory {
        return ENOMEM;
      }
      ir := ir.(brokerBind := ir.brokerBind + [BindRule(source, target, readOnly != 0)]);
      errno := 0;
    }

    method AddMountBind(source: Str, target: Str, readOnly: int, memory: bool) returns (errno: int)
      modifies this
      ensures errno == Errno(old(ir), AddBind(MountBind, source, target, readOnly != 0), memory) && ir == After(old(ir), AddBind(MountBind, source, target, readOnly != 0), memory)
    {
      if source == [] || target == [] {
        return EINVAL;
      }
      if !memory {
        return ENOMEM;
      }
      ir := ir.(mountBind := ir.mountBind + [BindRule(source, target, readOnly != 0)]);
      errno := 0;
    }

    /** The loop copies the attach paths and stops at an empty one. */
    method AddObject(name: Str, fsType: Str, attach: seq<Str>, attrs: u64, memory: bool) returns (errno: int)
      modifies this
      ensures errno == if memory || name == [] || fsType == [] || attach == []
                       then Errno(old(ir), Op.AddObject(name, fsType, attach, attrs), memory) else ENOMEM
      ensures ir == After(old(ir), Op.AddObject(name, fsType, attach, attrs), memory)
    {
      if name == [] || fsType == [] || attach == [] {
        return EINVAL;
      }
      if !memory {
        return ENOMEM;
      }
      var copies := [];
      for i := 0 to |attach|
        invariant copies == attach[..i] && AllNonempty(copies) && ir == old(ir)
      {
        if attach[i] == [] {
          return EINVAL;
        }
        copies := copies + [attach[i]];
      }
      assert copies == attach;
      ir := ir.(brokerObject := ir.brokerObject + [ObjectRule(name, fsType, copies, attrs)]);
      errno := 0;
    }

    method AddAddfd(action: Str, target: Str, mode: Option<Str>, memory: bool) returns (errno: int)
      modifies this
      ensures errno == Errno(old(ir), Op.AddAddfd(action, target, mode), memory) && ir == After(old(ir), Op.AddAddfd(action, target, mode), memory)
    {
      if action == [] || target == [] {
        return EINVAL;
      }
      if !memory {
        return ENOMEM;
      }
      var modeCopy := None;
      if mode.Some? && mode.value != [] {
        modeCopy := mode;
      }
      ir := ir.(addfd := ir.addfd + [AddfdRule(action, target, modeCopy)]);
      errno := 0;
    }

    method SetRoot(path: Str, memory: bool) returns (errno: int)
      modifies this
      ensures errno == Errno(old(ir), Op.SetRoot(path), memory) && ir == After(old(ir), Op.SetRoot(path), memory)
    {
      if path == [] || ir.root.Some? {
        return EINVAL;
      }
      if !memory {
        return ENOMEM;
      }
      ir := ir.(root := Some(path));
      errno := 0;
    }

    method SetCwd(path: Str, memory: bool) returns (errno: int)
      modifies this
      ensures errno == Errno(old(ir), Op.SetCwd(path), memory) && ir == After(old(ir), Op.SetCwd(path), memory)
    {
      if path == [] || ir.cwd.Some? {
        return EINVAL;
      }
      if !memory {
        return ENOMEM;
      }
      ir := ir.(cwd := Some(path));
      errno := 0;
    }

    method EnableSeccomp(value: u16) returns (errno: int)
      modifies this
      ensures errno == Errno(old(ir), Op.EnableSeccomp(value), true) && ir == After(old(ir), Op.EnableSeccomp(value), true)
    {
      if value == 0 {
        return EINVAL;
      }
      ir := ir.(seccompEnabled := true);
      ir := ir.(seccompErrno := value);
      errno := 0;
    }

    method AddDeny(nr: i32, memory: bool) returns (errno: int)
      modifies this
      ensures errno == Errno(old(ir), Op.AddDeny(nr), memory) && ir == After(old(ir), Op.AddDeny(nr), memory)
    {
      if !ir.seccompEnabled || nr < 0 {
        return EINVAL;
      }
      if !memory {
        return ENOMEM;
      }
      ir := ir.(deny := ir.deny + [nr]);
      errno := 0;
    }
  }

  // ----- what every sequence of operations makes

  datatype Step = Step(op: Op, memory: bool)

  /** The policy after some operations on an empty one, failed ones included. */
  function Built(steps: seq<Step>): Ir {
    if steps == [] then EMPTY
    else
      var last := steps[|steps| - 1];
      After(Built(steps[..|steps| - 1]), last.op, last.memory)
  }

  predicate BuiltLayers(layers: seq<FsLayer>) {
    forall i :: 0 <= i < |layers| ==> layers[i].handled != 0 && GrantingRules(layers[i].rules)
  }

  predicate GrantingRules(rules: seq<FsRule>) {
    forall i :: 0 <= i < |rules| ==> rules[i].access != 0
  }

  predicate BuiltNet(ir: Ir) {
    && (forall i :: 0 <= i < |ir.netRules| ==> ir.netRules[i].access != 0)
    && if ir.netEnabled then ir.netHandled != 0 else ir.netHandled == 0 && ir.netRules == []
  }

  predicate BuiltBinds(rules: seq<BindRule>) {
    forall i :: 0 <= i < |rules| ==> rules[i].source != [] && rules[i].target != []
  }

  predicate BuiltObjects(rules: seq<ObjectRule>) {
    forall i :: 0 <= i < |rules| ==>
      rules[i].name != [] && rules[i].fsType != [] && rules[i].attach != [] && AllNonempty(rules[i].attach)
  }

  predicate BuiltAddfds(rules: seq<AddfdRule>) {
    forall i :: 0 <= i < |rules| ==> rules[i].action != [] && rules[i].target != [] && rules[i].mode != Some([])
  }

  predicate BuiltSeccomp(ir: Ir) {
    && (forall i :: 0 <= i < |ir.deny| ==> ir.deny[i] <= 0x7fff_ffff)
    && if ir.seccompEnabled then ir.seccompErrno != 0 else ir.seccompErrno == 0 && ir.deny == []
  }

  predicate BuiltPaths(ir: Ir) {
    && AllNonempty(ir.openRead) && AllNonempty(ir.openWrite) && AllNonempty(ir.scratch) && AllNonempty(ir.exports)
    && AllNonempty(ir.brokerTmpfs) && AllNonempty(ir.mountTmpfs) && AllNonempty(ir.mountProc)
    && ir.root != Some([]) && ir.cwd != Some([])
  }

  /** What holds of every policy that was built. */
  predicate WellBuilt(ir: Ir) {
    && BuiltLayers(ir.fsLayers) && BuiltNet(ir) && BuiltPaths(ir)
    && BuiltBinds(ir.brokerBind) && BuiltBinds(ir.mountBind) && BuiltObjects(ir.brokerObject) && BuiltAddfds(ir.addfd)
    && BuiltSeccomp(ir)
  }

  lemma {:induction false} LayersKeep(ir: Ir, op: Op)
    requires BuiltLayers(ir.fsLayers) && Accepts(ir, op) && (op.AddFsLayer? || op.AddFsRule?)
    ensures BuiltLayers(Applied(ir, op).fsLayers)
  {
  }

  lemma {:induction false} PathKeeps(ir: Ir, list: PathList, path: Str)
    requires WellBuilt(ir) && path != []
    ensures WellBuilt(PathAdded(ir, list, path))
  {
  }

  lemma {:induction false} BindKeeps(ir: Ir, list: BindList, rule: BindRule)
    requires WellBuilt(ir) && rule.source != [] && rule.target != []
    ensures WellBuilt(BindAdded(ir, list, rule))
  {
  }

  lemma {:induction false} SwitchKeeps(ir: Ir, op: Op)
    requires WellBuilt(ir) && Accepts(ir, op)
    requires op.EnableNet? || op.AddNetRule? || op.EnableSeccomp? || op.AddDeny? || op.SetRoot? || op.SetCwd?
    ensures WellBuilt(Applied(ir, op))
  {
  }

  lemma {:induction false} StepKeeps(ir: Ir, op: Op)
    requires WellBuilt(ir) && Accepts(ir, op)
    ensures WellBuilt(Applied(ir, op))
  {
    match op
    case AddFsLayer(_) => LayersKeep(ir, op);
    case AddFsRule(_, _, _) => LayersKeep(ir, op);
    case AddPath(list, path) => PathKeeps(ir, list, path);
    case AddBind(list, source, target, readOnly) => BindKeeps(ir, list, BindRule(source, target, readOnly));
    case AddObject(_, _, _, _) =>
    case AddAddfd(_, _, _) =>
    case _ => SwitchKeeps(ir, op);
  }

  lemma {:induction false} BuiltIsWellBuilt(steps: seq<Step>)
    ensures WellBuilt(Built(steps))
  {
    if steps != [] {
      var n := |steps| - 1;
      BuiltIsWellBuilt(steps[..n]);
      if Errno(Built(steps[..n]), steps[n].op, steps[n].memory) == 0 {
        StepKeeps(Built(steps[..n]), steps[n].op);
      }
    }
  }
}
