/** Compiling a policy into Landlock rulesets, and the descriptors it leaves
    open. */
module Compile {
  import opened Answers
  import opened Bytes
  import opened Descriptors
  import opened PolicyIr
  import SeccompPlans

  /** The process under the compiler. failures says which of its next calls fail,
      and with which errno; 0 stands for success. A new descriptor is any number
      that is not in use. */
  class Kernel {
    const failures: seq<int>
    var calls: nat
    var table: Table

    constructor (failures: seq<int>, table: Table)
      ensures this.failures == failures && this.table == table
    {
      this.failures := failures;
      calls := 0;
      this.table := table;
    }

    method Answer() returns (errno: int)
      modifies this`calls
      ensures calls == old(calls) + 1 && errno == ErrnoAt(failures, old(calls))
    {
      errno := ErrnoAt(failures, calls);
      calls := calls + 1;
    }

    /** open(2) and landlock_create_ruleset(2). */
    method Open(file: File) returns (r: Result<nat>)
      modifies this
      ensures calls == old(calls) + 1
      ensures if r.Ok? then ErrnoAt(failures, old(calls)) == 0 else r.errno == ErrnoAt(failures, old(calls))
      ensures r.Ok? ==> r.value !in old(table) && table == old(table)[r.value := file]
      ensures r.Err? ==> table == old(table) && r.errno != 0
    {
      var errno := Answer();
      if errno != 0 {
        return Err(errno);
      }
      ghost var free := Unused(table.Keys);
      var fd: nat :| fd !in table;
      table := table[fd := file];
      return Ok(fd);
    }

    method Close(fd: nat)
      modifies this`table
      ensures table == old(table) - {fd}
    {
      table := table - {fd};
    }

    /** landlock_add_rule(2) for a path. */
    method AddFsRule(fd: nat, rule: FsRule) returns (errno: int)
      requires fd in table && table[fd].FsRuleset?
      modifies this
      ensures calls == old(calls) + 1 && errno == ErrnoAt(failures, old(calls))
      ensures table == if errno == 0
        then old(table)[fd := FsRuleset(old(table)[fd].handled, old(table)[fd].fsRules + [rule])] else old(table)
    {
      errno := Answer();
      if errno == 0 {
        table := table[fd := FsRuleset(table[fd].handled, table[fd].fsRules + [rule])];
      }
    }

    /** landlock_add_rule(2) for a port. */
    method AddNetRule(fd: nat, rule: NetRule) returns (errno: int)
      requires fd in table && table[fd].NetRuleset?
      modifies this
      ensures calls == old(calls) + 1 && errno == ErrnoAt(failures, old(calls))
      ensures table == if errno == 0
        then old(table)[fd := NetRuleset(old(table)[fd].allowed, old(table)[fd].netRules + [rule])] else old(table)
    {
      errno := Answer();
      if errno == 0 {
        table := table[fd := NetRuleset(table[fd].allowed, table[fd].netRules + [rule])];
      }
    }
  }

  /** landlockd_exec_cleanup_fs and landlockd_compiled_rulesets_cleanup. */
  method CleanUp(kernel: Kernel, ghost start: Table, slots: seq<int>, ghost fds: seq<nat>, ghost files: seq<File>)
    requires Slots(slots, fds) && Holds(start, kernel.table, fds, files)
    modifies kernel`table
    ensures kernel.table == start
  {
    ghost var done := 0;
    for i := 0 to |slots|
      invariant done == if i <= |fds| then i else |fds|
      invariant |files| == |fds| && Holds(start, kernel.table, fds[done..], files[done..])
    {
      if slots[i] >= 0 {
        HoldsOneLess(start, kernel.table, fds[done..], files[done..]);
        kernel.Close(slots[i]);
        assert fds[done..][1..] == fds[done + 1..] && files[done..][1..] == files[done + 1..];
        done := done + 1;
      }
    }
  }

  /** The rule loop of one file-system layer: every path is opened, added and
      closed again. */
  method AddFsRules(kernel: Kernel, ghost before: Table, fd: nat, handled: u64, rules: seq<FsRule>) returns (errno: int)
    requires fd !in before && kernel.table == before[fd := FsRuleset(handled, [])]
    modifies kernel
    ensures old(kernel.calls) <= kernel.calls
    ensures errno == 0 <==> Quiet(kernel.failures, old(kernel.calls), kernel.calls)
    ensures errno != 0 ==> errno == LastErrno(kernel.failures, kernel.calls)
    ensures errno == 0 ==> kernel.table == before[fd := FsRuleset(handled, rules)]
    ensures fd in kernel.table && kernel.table == before[fd := kernel.table[fd]]
  {
    for j := 0 to |rules|
      invariant kernel.table == before[fd := FsRuleset(handled, rules[..j])]
      invariant old(kernel.calls) <= kernel.calls && Quiet(kernel.failures, old(kernel.calls), kernel.calls)
    {
      ghost var now := kernel.table;
      var parent := kernel.Open(Path(rules[j].path));
      if parent.Err? {
        return parent.errno;
      }
      errno := kernel.AddFsRule(fd, rules[j]);
      kernel.Close(parent.value);
      assert rules[..j + 1] == rules[..j] + [rules[j]];
      if errno != 0 {
        assert kernel.table == now;
        return;
      }
      assert kernel.table == before[fd := FsRuleset(handled, rules[..j + 1])];
    }
    assert rules[..|rules|] == rules;
    errno := 0;
  }

  /** The rule loop of one network layer. */
  method AddNetRules(kernel: Kernel, ghost before: Table, fd: nat, allowed: u64, rules: seq<NetRule>) returns (errno: int)
    requires fd !in before && kernel.table == before[fd := NetRuleset(allowed, [])]
    modifies kernel
    ensures old(kernel.calls) <= kernel.calls
    ensures errno == 0 <==> Quiet(kernel.failures, old(kernel.calls), kernel.calls)
    ensures errno != 0 ==> errno == LastErrno(kernel.failures, kernel.calls)
    ensures errno == 0 ==> kernel.table == before[fd := NetRuleset(allowed, rules)]
    ensures fd in kernel.table && kernel.table == before[fd := kernel.table[fd]]
  {
    for j := 0 to |rules|
      invariant kernel.table == before[fd := NetRuleset(allowed, rules[..j])]
      invariant old(kernel.calls) <= kernel.calls && Quiet(kernel.failures, old(kernel.calls), kernel.calls)
    {
      errno := kernel.AddNetRule(fd, rules[j]);
      if errno != 0 {
        return;
      }
      assert rules[..j + 1] == rules[..j] + [rules[j]];
    }
    assert rules[..|rules|] == rules;
    errno := 0;
  }

  function Compiled(layer: FsLayer): File {
    FsRuleset(layer.handled, layer.rules)
  }

  function CompiledAll(layers: seq<FsLayer>): (files: seq<File>)
    ensures |files| == |layers| && forall i :: 0 <= i < |layers| ==> files[i] == Compiled(layers[i])
  {
    if layers == [] then [] else CompiledAll(layers[..|layers| - 1]) + [Compiled(layers[|layers| - 1])]
  }

  lemma {:induction false} CompiledNext(layers: seq<FsLayer>, i: nat)
    requires i < |layers|
    ensures CompiledAll(layers[..i + 1]) == CompiledAll(layers[..i]) + [Compiled(layers[i])]
  {
    assert layers[..i + 1][..i] == layers[..i];
  }

  /** The body of the layer loop: one ruleset with its rules. */
  method CompileFsLayer(kernel: Kernel, ghost start: Table, ghost fds: seq<nat>, ghost files: seq<File>, layer: FsLayer)
    returns (fd: int, errno: int)
    requires Holds(start, kernel.table, fds, files)
    modifies kernel
    ensures old(kernel.calls) <= kernel.calls
    ensures errno == 0 <==> Quiet(kernel.failures, old(kernel.calls), kernel.calls)
    ensures errno != 0 ==> errno == LastErrno(kernel.failures, kernel.calls)
    ensures fd < 0 ==> errno != 0 && Holds(start, kernel.table, fds, files)
    ensures fd >= 0 ==> fd in kernel.table && Holds(start, kernel.table, fds + [fd], files + [kernel.table[fd]])
    ensures fd >= 0 && errno == 0 ==> kernel.table[fd] == Compiled(layer)
  {
    ghost var before := kernel.table;
    var ruleset := kernel.Open(FsRuleset(layer.handled, []));
    if ruleset.Err? {
      return -1, ruleset.errno;
    }
    fd := ruleset.value;
    errno := AddFsRules(kernel, before, fd, layer.handled, layer.rules);
    HoldsOneMore(start, before, fds, files, fd, kernel.table[fd]);
  }

  /** One turn of the layer loop: the next slot holds the ruleset of the layer, or
      everything is closed again. */
  method FillSlot(kernel: Kernel, ghost start: Table, slots: seq<int>, fds: seq<nat>, ghost files: seq<File>, layer: FsLayer)
    returns (filled: seq<int>, held: seq<nat>, errno: int)
    requires |fds| < |slots| && Slots(slots, fds) && Holds(start, kernel.table, fds, files)
    modifies kernel
    ensures old(kernel.calls) <= kernel.calls
    ensures errno == 0 <==> Quiet(kernel.failures, old(kernel.calls), kernel.calls)
    ensures errno != 0 ==> errno == LastErrno(kernel.failures, kernel.calls) && kernel.table == start
    ensures errno == 0 ==> |filled| == |slots| && |held| == |fds| + 1 && Slots(filled, held)
    ensures errno == 0 ==> Holds(start, kernel.table, held, files + [Compiled(layer)])
  {
    filled, held := slots, fds;
    var fd;
    fd, errno := CompileFsLayer(kernel, start, fds, files, layer);
    if fd < 0 {
      CleanUp(kernel, start, slots, fds, files);
      return;
    }
    SlotFilled(slots, fds, fd);
    filled, held := slots[|fds| := fd], fds + [fd];
    if errno != 0 {
      CleanUp(kernel, start, filled, held, files + [kernel.table[fd]]);
    }
  }

  /** landlockd_exec_compile_fs: one descriptor for every layer, in layer order,
      or the descriptors as they were. */
  method ExecCompileFs(ir: Ir, kernel: Kernel, memory: bool) returns (r: Result<seq<nat>>)
    modifies kernel
    ensures r.Ok? ==> Holds(old(kernel.table), kernel.table, r.value, CompiledAll(ir.fsLayers))
    ensures old(kernel.calls) <= kernel.calls
    ensures r.Ok? <==> (ir.fsLayers == [] || memory) && Quiet(kernel.failures, old(kernel.calls), kernel.calls)
    ensures r.Err? && !memory ==> r == Err(ENOMEM) && kernel.calls == old(kernel.calls)
    ensures r.Err? && memory ==> r.errno == LastErrno(kernel.failures, kernel.calls)
    ensures r.Err? ==> kernel.table == old(kernel.table)
  {
    var n := |ir.fsLayers|;
    if n == 0 {
      return Ok([]);
    }
    if !memory {
      return Err(ENOMEM);
    }
    ghost var start := kernel.table;
    var slots: seq<int> := seq(n, _ => -1);
    var fds: seq<nat> := [];
    for i := 0 to n
      invariant |slots| == n && |fds| == i && Slots(slots, fds)
      invariant Holds(start, kernel.table, fds, CompiledAll(ir.fsLayers[..i]))
      invariant old(kernel.calls) <= kernel.calls && Quiet(kernel.failures, old(kernel.calls), kernel.calls)
    {
      CompiledNext(ir.fsLayers, i);
      var errno;
      slots, fds, errno := FillSlot(kernel, start, slots, fds, CompiledAll(ir.fsLayers[..i]), ir.fsLayers[i]);
      if errno != 0 {
        return Err(errno);
      }
    }
    assert ir.fsLayers[..n] == ir.fsLayers;
    return Ok(fds);
  }

  /** landlockd_exec_compile_net: at most one descriptor. */
  method ExecCompileNet(ir: Ir, kernel: Kernel) returns (r: Result<Option<nat>>)
    modifies kernel
    ensures old(kernel.calls) <= kernel.calls
    ensures r.Ok? <==> !ir.netEnabled || Quiet(kernel.failures, old(kernel.calls), kernel.calls)
    ensures r.Ok? && !ir.netEnabled ==> r.value == None && kernel.table == old(kernel.table)
    ensures r.Ok? && ir.netEnabled ==> r.value.Some? && r.value.value !in old(kernel.table)
    ensures r.Ok? && ir.netEnabled ==>
      kernel.table == old(kernel.table)[r.value.value := NetRuleset(ir.netHandled, ir.netRules)]
    ensures r.Err? ==> kernel.table == old(kernel.table)
  {
    if !ir.netEnabled {
      return Ok(None);
    }
    ghost var before := kernel.table;
    var ruleset := kernel.Open(NetRuleset(ir.netHandled, []));
    if ruleset.Err? {
      return Err(ruleset.errno);
    }
    var errno := AddNetRules(kernel, before, ruleset.value, ir.netHandled, ir.netRules);
    if errno != 0 {
      kernel.Close(ruleset.value);
      assert kernel.table == before;
      return Err(errno);
    }
    return Ok(Some(ruleset.value));
  }

  // ----- policy_compiler.c

  /** A validated layer as rules with paths. */
  function RulesOf(l: SeccompPlans.Layer): seq<FsRule> {
    if l.fs.Some? && l.ruleCount <= |l.fs.value| then RulesFrom(l.fs.value[..l.ruleCount]) else []
  }

  function RulesFrom(pairs: seq<(Option<Str>, u64)>): seq<FsRule> {
    if pairs == [] then []
    else
      var (path, access) := pairs[|pairs| - 1];
      RulesFrom(pairs[..|pairs| - 1]) + [FsRule(if path.Some? then path.value else [], access)]
  }

  /** The layers of one kind, in order; null entries do not pass validation. */
  function OfKind(layers: seq<Option<SeccompPlans.Layer>>, kind: int): seq<SeccompPlans.Layer> {
    if layers == [] then []
    else
      var last := layers[|layers| - 1];
      OfKind(layers[..|layers| - 1], kind) + if last.Some? && last.value.kind == kind then [last.value] else []
  }

  /** The ruleset that a layer describes. */
  function FileOf(l: SeccompPlans.Layer): File {
    if l.kind == SeccompPlans.KIND_FS then FsRuleset(l.handled, RulesOf(l))
    else NetRuleset(l.handled, if l.net.Some? && l.ruleCount <= |l.net.value| then l.net.value[..l.ruleCount] else [])
  }

  function FilesOf(layers: seq<SeccompPlans.Layer>): (files: seq<File>)
    ensures |files| == |layers|
  {
    if layers == [] then [] else FilesOf(layers[..|layers| - 1]) + [FileOf(layers[|layers| - 1])]
  }

  lemma {:induction false} OfKindGrows(layers: seq<Option<SeccompPlans.Layer>>, kind: int, i: nat)
    requires i <= |layers|
    ensures |OfKind(layers[..i], kind)| <= |OfKind(layers, kind)|
    decreases |layers|
  {
    if i == |layers| {
      assert layers[..i] == layers;
    } else {
      assert layers[..|layers| - 1][..i] == layers[..i];
      OfKindGrows(layers[..|layers| - 1], kind, i);
    }
  }

  lemma {:induction false} OfKindNext(layers: seq<Option<SeccompPlans.Layer>>, kind: int, i: nat)
    requires i < |layers| && layers[i].Some?
    ensures layers[i].value.kind != kind ==> OfKind(layers[..i + 1], kind) == OfKind(layers[..i], kind)
    ensures layers[i].value.kind == kind ==>
      && |OfKind(layers[..i + 1], kind)| == |OfKind(layers[..i], kind)| + 1
      && FilesOf(OfKind(layers[..i + 1], kind)) == FilesOf(OfKind(layers[..i], kind)) + [FileOf(layers[i].value)]
    ensures |OfKind(layers[..i + 1], kind)| <= |OfKind(layers, kind)|
  {
    assert layers[..i + 1][..i] == layers[..i];
    OfKindGrows(layers, kind, i + 1);
    var before, now := OfKind(layers[..i], kind), OfKind(layers[..i + 1], kind);
    if layers[i].value.kind == kind {
      assert now == before + [layers[i].value] && now[..|now| - 1] == before;
    } else {
      assert now == before + [];
    }
  }

  /** One ruleset of either kind with its rules. */
  method CompileLayer(kernel: Kernel, ghost start: Table, ghost fds: seq<nat>, ghost files: seq<File>, layer: SeccompPlans.Layer)
    returns (fd: int, errno: int)
    requires Holds(start, kernel.table, fds, files)
    modifies kernel
    ensures old(kernel.calls) <= kernel.calls
    ensures errno == 0 <==> Quiet(kernel.failures, old(kernel.calls), kernel.calls)
    ensures errno != 0 ==> errno == LastErrno(kernel.failures, kernel.calls)
    ensures fd < 0 ==> errno != 0 && Holds(start, kernel.table, fds, files)
    ensures fd >= 0 ==> fd in kernel.table && Holds(start, kernel.table, fds + [fd], files + [kernel.table[fd]])
    ensures fd >= 0 && errno == 0 ==> kernel.table[fd] == FileOf(layer)
  {
    if layer.kind == SeccompPlans.KIND_FS {
      fd, errno := CompileFsLayer(kernel, start, fds, files, FsLayer(layer.handled, RulesOf(layer)));
      return;
    }
    ghost var before := kernel.table;
    var ruleset := kernel.Open(NetRuleset(layer.handled, []));
    if ruleset.Err? {
      return -1, ruleset.errno;
    }
    fd := ruleset.value;
    errno := AddNetRules(kernel, before, fd, layer.handled, FileOf(layer).netRules);
    HoldsOneMore(start, before, fds, files, fd, kernel.table[fd]);
  }

  /** The loop that landlockd_policy_compile_fs and landlockd_policy_compile_net
      share: the layers of one kind, in order. */
  method CompileKind(layers: seq<Option<SeccompPlans.Layer>>, kind: int, kernel: Kernel, memory: bool)
    returns (r: Result<seq<nat>>)
    requires forall i :: 0 <= i < |layers| ==> layers[i].Some?
    modifies kernel
    ensures r.Ok? ==> Holds(old(kernel.table), kernel.table, r.value, FilesOf(OfKind(layers, kind)))
    ensures old(kernel.calls) <= kernel.calls
    ensures r.Ok? <==> (OfKind(layers, kind) == [] || memory) && Quiet(kernel.failures, old(kernel.calls), kernel.calls)
    ensures r.Err? && !memory ==> r == Err(ENOMEM) && kernel.calls == old(kernel.calls)
    ensures r.Err? && memory ==> r.errno == LastErrno(kernel.failures, kernel.calls)
    ensures r.Err? ==> kernel.table == old(kernel.table)
  {
    ghost var start := kernel.table;
    var n := |OfKind(layers, kind)|;
    if n == 0 {
      return Ok([]);
    }
    if !memory {
      return Err(ENOMEM);
    }
    var slots: seq<int> := seq(n, _ => -1);
    var fds: seq<nat> := [];
    for i := 0 to |layers|
      invariant |slots| == n && |fds| == |OfKind(layers[..i], kind)| && Slots(slots, fds)
      invariant Holds(start, kernel.table, fds, FilesOf(OfKind(layers[..i], kind)))
      invariant old(kernel.calls) <= kernel.calls && Quiet(kernel.failures, old(kernel.calls), kernel.calls)
    {
      OfKindNext(layers, kind, i);
      if layers[i].value.kind != kind {
        continue;
      }
      ghost var files := FilesOf(OfKind(layers[..i], kind));
      var fd, errno := CompileLayer(kernel, start, fds, files, layers[i].value);
      if fd < 0 {
        CleanUp(kernel, start, slots, fds, files);
        return Err(errno);
      }
      SlotFilled(slots, fds, fd);
      slots := slots[|fds| := fd];
      fds := fds + [fd];
      if errno != 0 {
        CleanUp(kernel, start, slots, fds, files + [kernel.table[fd]]);
        return Err(errno);
      }
    }
    assert layers[..|layers|] == layers;
    return Ok(fds);
  }

  /** landlockd_policy_compile_fs. */
  method PolicyCompileFs(policy: SeccompPlans.Policy, kernel: Kernel, memory: bool) returns (r: Result<seq<nat>>)
    requires SeccompPlans.Backed(policy)
    modifies kernel
    ensures r.Ok? ==> Holds(old(kernel.table), kernel.table, r.value, FilesOf(OfKind(policy.layers, SeccompPlans.KIND_FS)))
    ensures SeccompPlans.Validates(policy) ==>
      (r.Ok? <==> && (OfKind(policy.layers, SeccompPlans.KIND_FS) == [] || memory)
                  && old(kernel.calls) <= kernel.calls && Quiet(kernel.failures, old(kernel.calls), kernel.calls))
    ensures r.Err? ==> kernel.table == old(kernel.table)
    ensures !SeccompPlans.Validates(policy) ==> r == Err(EINVAL)
  {
    if !SeccompPlans.Validates(policy) {
      return Err(EINVAL);
    }
    forall i | 0 <= i < |policy.layers| ensures policy.layers[i].Some? {
      assert SeccompPlans.ValidLayerAt(policy, i);
    }
    r := CompileKind(policy.layers, SeccompPlans.KIND_FS, kernel, memory);
  }

  /** landlockd_policy_compile_net. */
  method PolicyCompileNet(policy: SeccompPlans.Policy, kernel: Kernel, memory: bool) returns (r: Result<seq<nat>>)
    requires SeccompPlans.Backed(policy)
    modifies kernel
    ensures r.Ok? ==> Holds(old(kernel.table), kernel.table, r.value, FilesOf(OfKind(policy.layers, SeccompPlans.KIND_NET)))
    ensures SeccompPlans.Validates(policy) ==>
      (r.Ok? <==> && (OfKind(policy.layers, SeccompPlans.KIND_NET) == [] || memory)
                  && old(kernel.calls) <= kernel.calls && Quiet(kernel.failures, old(kernel.calls), kernel.calls))
    ensures r.Err? ==> kernel.table == old(kernel.table)
    ensures !SeccompPlans.Validates(policy) ==> r == Err(EINVAL)
  {
    if !SeccompPlans.Validates(policy) {
      return Err(EINVAL);
    }
    forall i | 0 <= i < |policy.layers| ensures policy.layers[i].Some? {
      assert SeccompPlans.ValidLayerAt(policy, i);
    }
    r := CompileKind(policy.layers, SeccompPlans.KIND_NET, kernel, memory);
  }
}
