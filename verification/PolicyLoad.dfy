/** landlock_policy_loader_in_process.c: the loops that turn a document into a
    policy, proved to give what the document says. */
module PolicyLoad {
  import opened BitFacts
  import opened Bytes
  import opened PolicyDoc
  import opened PolicyIr
  import opened Toml

  /** load_access_array: OR the bit of every name into the mask. */
  method LoadAccess(items: seq<Value>, table: Names16) returns (r: Option<u64>)
    ensures r == AccessOf(items, table)
  {
    var n := |items|;
    if n <= 0 {
      return None;
    }
    var mask: nat := 0;
    ghost var bits := [];
    for i := 0 to n
      invariant MapAll(v => NamedBit(table, v), items[..i]) == Some(bits) && mask == OrAll(bits)
    {
      MapAllStep(v => NamedBit(table, v), items, i);
      var bit := NamedBit(table, items[i]);
      if bit.None? {
        MapAllFails(v => NamedBit(table, v), items, i);
        return None;
      }
      mask := OrBit(mask, bit.value);
      bits := bits + [bit.value];
    }
    assert items[..n] == items;
    BitsInRange(items, table);
    OrAllBits(bits);
    return Some(mask);
  }

  /** load_broker_path_array, and the path loops of load_mount. */
  method LoadPaths(items: seq<Value>, absolute: bool) returns (r: Option<seq<Str>>)
    ensures r == MapAll(v => PathOf(absolute, v), items)
  {
    var out := [];
    for i := 0 to |items|
      invariant MapAll(v => PathOf(absolute, v), items[..i]) == Some(out)
    {
      MapAllStep(v => PathOf(absolute, v), items, i);
      var path := StringOf(items[i]);
      if path.None? || path.value == [] || (absolute && path.value[0] != '/') {
        MapAllFails(v => PathOf(absolute, v), items, i);
        return None;
      }
      out := out + [path.value];
    }
    assert items[..|items|] == items;
    return Some(out);
  }

  /** load_fs_rule. */
  method LoadFsRule(v: Value) returns (r: Option<FsRule>)
    ensures r == PolicyDoc.FsRuleOf(v)
  {
    if !v.Table? || !OnlyKeys(v.entries, {"path", "allowed_access"}) {
      return None;
    }
    var path :- NonemptyIn(v.entries, "path");
    var items :- ArrayIn(v.entries, "allowed_access");
    var access :- LoadAccess(items, FS_ACCESS);
    return Some(FsRule(path, access));
  }

  /** The rules of one file-system layer. */
  method LoadFsRules(items: seq<Value>) returns (r: Option<seq<FsRule>>)
    ensures r == MapAll(FsRuleOf, items)
  {
    var out := [];
    for i := 0 to |items|
      invariant MapAll(FsRuleOf, items[..i]) == Some(out)
    {
      MapAllStep(FsRuleOf, items, i);
      var item := LoadFsRule(items[i]);
      if item.None? {
        MapAllFails(FsRuleOf, items, i);
        return None;
      }
      out := out + [item.value];
    }
    assert items[..|items|] == items;
    return Some(out);
  }

  /** load_fs_layer. */
  method LoadFsLayer(v: Value) returns (r: Option<FsLayer>)
    ensures r == LayerOf(v)
  {
    if !v.Table? || !OnlyKeys(v.entries, {"handled_access_fs", "rule"}) {
      return None;
    }
    var items :- ArrayIn(v.entries, "handled_access_fs");
    var handled :- LoadAccess(items, FS_ACCESS);
    var rules := ArrayIn(v.entries, "rule");
    if rules.None? {
      return Some(FsLayer(handled, []));
    }
    var loaded :- LoadFsRules(rules.value);
    return Some(FsLayer(handled, loaded));
  }

  /** The layers of the document. */
  method LoadFsLayers(items: seq<Value>) returns (r: Option<seq<FsLayer>>)
    ensures r == MapAll(LayerOf, items)
  {
    var out := [];
    for i := 0 to |items|
      invariant MapAll(LayerOf, items[..i]) == Some(out)
    {
      MapAllStep(LayerOf, items, i);
      var item := LoadFsLayer(items[i]);
      if item.None? {
        MapAllFails(LayerOf, items, i);
        return None;
      }
      out := out + [item.value];
    }
    assert items[..|items|] == items;
    return Some(out);
  }

  /** load_net_rule. */
  method LoadNetRule(v: Value) returns (r: Option<NetRule>)
    ensures r == NetRuleOf(v)
  {
    if !v.Table? || !OnlyKeys(v.entries, {"port", "allowed_access"}) {
      return None;
    }
    var port :- IntIn(v.entries, "port");
    if port < 0 || port > 65535 {
      return None;
    }
    var items :- ArrayIn(v.entries, "allowed_access");
    var access :- LoadAccess(items, NET_ACCESS);
    return Some(NetRule(port, access));
  }

  /** The rules of load_net. */
  method LoadNetRules(items: seq<Value>) returns (r: Option<seq<NetRule>>)
    ensures r == MapAll(NetRuleOf, items)
  {
    var out := [];
    for i := 0 to |items|
      invariant MapAll(NetRuleOf, items[..i]) == Some(out)
    {
      MapAllStep(NetRuleOf, items, i);
      var item := LoadNetRule(items[i]);
      if item.None? {
        MapAllFails(NetRuleOf, items, i);
        return None;
      }
      out := out + [item.value];
    }
    assert items[..|items|] == items;
    return Some(out);
  }

  /** One entry of load_bind_rule_array. */
  method LoadBind(v: Value) returns (r: Option<BindRule>)
    ensures r == BindOf(v)
  {
    if !v.Table? || !OnlyKeys(v.entries, {"source", "target", "read_only"}) {
      return None;
    }
    var source := StringIn(v.entries, "source");
    if source.None? || source.value == [] || source.value[0] != '/' {
      return None;
    }
    var target := StringIn(v.entries, "target");
    if target.None? || target.value == [] || target.value[0] != '/' {
      return None;
    }
    var flag := BoolIn(v.entries, "read_only");
    if "read_only" in v.entries && flag.None? {
      return None;
    }
    return Some(BindRule(source.value, target.value, if flag.Some? then flag.value else true));
  }

  /** load_bind_rule_array. */
  method LoadBinds(items: seq<Value>) returns (r: Option<seq<BindRule>>)
    ensures r == MapAll(BindOf, items)
  {
    var out := [];
    for i := 0 to |items|
      invariant MapAll(BindOf, items[..i]) == Some(out)
    {
      MapAllStep(BindOf, items, i);
      var item := LoadBind(items[i]);
      if item.None? {
        MapAllFails(BindOf, items, i);
        return None;
      }
      out := out + [item.value];
    }
    assert items[..|items|] == items;
    return Some(out);
  }

  /** One entry of load_mount_object_rule_array. */
  method LoadObject(v: Value) returns (r: Option<ObjectRule>)
    ensures r == ObjectOf(v)
  {
    if !v.Table? || !OnlyKeys(v.entries, {"name", "fs_type", "attach", "attrs"}) {
      return None;
    }
    var name :- NonemptyIn(v.entries, "name");
    if '/' in name {
      return None;
    }
    var fsType :- StringIn(v.entries, "fs_type");
    if fsType != "tmpfs" && fsType != "proc" {
      return None;
    }
    var paths :- ArrayIn(v.entries, "attach");
    if paths == [] {
      return None;
    }
    var attach :- LoadPaths(paths, true);
    var attrs := ArrayIn(v.entries, "attrs");
    if attrs.None? {
      return Some(ObjectRule(name, fsType, attach, 0));
    }
    var mask :- LoadAccess(attrs.value, MOUNT_ATTRS);
    return Some(ObjectRule(name, fsType, attach, mask));
  }

  /** load_mount_object_rule_array. */
  method LoadObjects(items: seq<Value>) returns (r: Option<seq<ObjectRule>>)
    ensures r == MapAll(ObjectOf, items)
  {
    var out := [];
    for i := 0 to |items|
      invariant MapAll(ObjectOf, items[..i]) == Some(out)
    {
      MapAllStep(ObjectOf, items, i);
      var item := LoadObject(items[i]);
      if item.None? {
        MapAllFails(ObjectOf, items, i);
        return None;
      }
      out := out + [item.value];
    }
    assert items[..|items|] == items;
    return Some(out);
  }

  const ACTIONS: seq<Str> := [OPEN, OPEN_TREE, SCRATCH_OPEN, FSOPEN, FSMOUNT]

  /** is_broker_addfd_action. */
  method FindAction(name: Str) returns (found: bool)
    ensures found == ActionKnown(name)
  {
    for i := 0 to |ACTIONS|
      invariant name !in ACTIONS[..i]
    {
      if ACTIONS[i] == name {
        return true;
      }
    }
    assert ACTIONS[..|ACTIONS|] == ACTIONS;
    assert OPEN in ACTIONS && OPEN_TREE in ACTIONS && SCRATCH_OPEN in ACTIONS && FSOPEN in ACTIONS && FSMOUNT in ACTIONS;
    return false;
  }

  /** One entry of load_broker_addfd_array. */
  method LoadAddfd(v: Value) returns (r: Option<AddfdRule>)
    ensures r == AddfdOf(v)
  {
    if !v.Table? || !OnlyKeys(v.entries, {"action", "target", "mode"}) {
      return None;
    }
    var action := StringIn(v.entries, "action");
    if action.None? || action.value == [] {
      return None;
    }
    var known := FindAction(action.value);
    if !known {
      return None;
    }
    var target := StringIn(v.entries, "target");
    if target.None? || target.value == [] || target.value[0] != '/' {
      return None;
    }
    var mode := StringIn(v.entries, "mode");
    if "mode" in v.entries && (mode.None? || mode.value == []) {
      return None;
    }
    if mode.Some? && mode.value != "read" && mode.value != "write" {
      return None;
    }
    return Some(AddfdRule(action.value, target.value, mode));
  }

  /** load_broker_addfd_array. */
  method LoadAddfds(items: seq<Value>) returns (r: Option<seq<AddfdRule>>)
    ensures r == MapAll(AddfdOf, items)
  {
    var out := [];
    for i := 0 to |items|
      invariant MapAll(AddfdOf, items[..i]) == Some(out)
    {
      MapAllStep(AddfdOf, items, i);
      var item := LoadAddfd(items[i]);
      if item.None? {
        MapAllFails(AddfdOf, items, i);
        return None;
      }
      out := out + [item.value];
    }
    assert items[..|items|] == items;
    return Some(out);
  }

  /** The names of load_seccomp. */
  method LoadDenies(items: seq<Value>, sys: Syscalls) returns (r: Option<seq<u32>>)
    ensures r == MapAll(v => DenyOf(sys, v), items)
  {
    var out := [];
    for i := 0 to |items|
      invariant MapAll(v => DenyOf(sys, v), items[..i]) == Some(out)
    {
      MapAllStep(v => DenyOf(sys, v), items, i);
      var name := StringOf(items[i]);
      if name.None? || name.value == [] || name.value !in sys {
        MapAllFails(v => DenyOf(sys, v), items, i);
        return None;
      }
      out := out + [sys[name.value]];
    }
    assert items[..|items|] == items;
    return Some(out);
  }

  /** The policy under construction, and the sections that add to it. */
  class Loader {
    var ir: Ir

    constructor ()
      ensures ir == EMPTY
    {
      ir := EMPTY;
    }

    /** load_net. */
    method LoadNet(t: Entries) returns (ok: bool)
      modifies this
      ensures ok <==> NetIn(old(ir), t).Some?
      ensures ok ==> ir == NetIn(old(ir), t).value
    {
      if !OnlyKeys(t, {"handled_access_net", "rule"}) {
        return false;
      }
      var items := ArrayIn(t, "handled_access_net");
      if items.None? {
        return false;
      }
      var handled := LoadAccess(items.value, NET_ACCESS);
      if handled.None? {
        return false;
      }
      ir := ir.(netEnabled := true, netHandled := handled.value);
      var rules := Some([]);
      if ArrayIn(t, "rule").Some? {
        rules := LoadNetRules(ArrayIn(t, "rule").value);
      }
      if rules.None? {
        return false;
      }
      ir := ir.(netRules := rules.value);
      return true;
    }

    /** load_broker. */
    method LoadBroker(t: Entries) returns (ok: bool)
      modifies this
      ensures ok <==> BrokerIn(old(ir), t).Some?
      ensures ok ==> ir == BrokerIn(old(ir), t).value
    {
      if !OnlyKeys(t, BROKER_KEYS) {
        return false;
      }
      var openRead := LoadPathsIn(t, "allow_read");
      var openWrite := LoadPathsIn(t, "allow_write");
      var scratch := LoadPathsIn(t, "scratch");
      var exports := LoadPathsIn(t, "export");
      var tmpfs := LoadPathsIn(t, "mount_tmpfs");
      var addfd, binds, objects := Some([]), Some([]), Some([]);
      if ArrayIn(t, "addfd").Some? {
        if ArrayIn(t, "addfd").value == [] {
          return false;
        }
        addfd := LoadAddfds(ArrayIn(t, "addfd").value);
      }
      binds := LoadBindsIn(t, "mount_bind");
      if ArrayIn(t, "mount_object").Some? {
        if ArrayIn(t, "mount_object").value == [] {
          return false;
        }
        objects := LoadObjects(ArrayIn(t, "mount_object").value);
      }
      if openRead.None? || openWrite.None? || scratch.None? || exports.None? || tmpfs.None? || addfd.None? || binds.None?
         || objects.None? {
        return false;
      }
      ir := ir.(openRead := openRead.value, openWrite := openWrite.value, scratch := scratch.value, exports := exports.value,
                brokerTmpfs := tmpfs.value, brokerBind := binds.value, brokerObject := objects.value, addfd := addfd.value);
      return true;
    }

    static method LoadPathsIn(t: Entries, key: string) returns (r: Option<seq<Str>>)
      ensures r == PathsIn(t, key)
    {
      var items := ArrayIn(t, key);
      if items.None? {
        return Some([]);
      }
      r := LoadPaths(items.value, false);
    }

    static method LoadBindsIn(t: Entries, key: string) returns (r: Option<seq<BindRule>>)
      ensures r == SomeIn(t, key, BindOf)
    {
      var items := ArrayIn(t, key);
      if items.None? {
        return Some([]);
      }
      if items.value == [] {
        return None;
      }
      r := LoadBinds(items.value);
    }

    static method LoadAbsolutesIn(t: Entries, key: string) returns (r: Option<seq<Str>>)
      ensures r == SomeIn(t, key, p => PathOf(true, p))
    {
      var items := ArrayIn(t, key);
      if items.None? {
        return Some([]);
      }
      if items.value == [] {
        return None;
      }
      r := LoadPaths(items.value, true);
    }

    /** load_mount. */
    method LoadMount(t: Entries) returns (ok: bool)
      modifies this
      ensures ok <==> MountIn(old(ir), t).Some?
      ensures ok ==> ir == MountIn(old(ir), t).value
    {
      if !OnlyKeys(t, {"tmpfs", "bind", "proc"}) {
        return false;
      }
      var tmpfs := LoadAbsolutesIn(t, "tmpfs");
      var binds := LoadBindsIn(t, "bind");
      var procs := LoadAbsolutesIn(t, "proc");
      if tmpfs.None? || binds.None? || procs.None? {
        return false;
      }
      ListsAreNonempty(t);
      var loadedAny := ArrayIn(t, "tmpfs").Some? || ArrayIn(t, "bind").Some? || ArrayIn(t, "proc").Some?;
      if !loadedAny {
        return false;
      }
      ir := ir.(mountTmpfs := tmpfs.value, mountBind := binds.value, mountProc := procs.value);
      return true;
    }

    /** load_runtime. */
    method LoadRuntime(t: Entries) returns (ok: bool)
      modifies this
      ensures ok <==> RuntimeIn(old(ir), t).Some?
      ensures ok ==> ir == RuntimeIn(old(ir), t).value
    {
      if !OnlyKeys(t, {"root", "cwd"}) {
        return false;
      }
      var root, cwd := StringIn(t, "root"), StringIn(t, "cwd");
      if (root.Some? && !Absolute(root.value)) || (cwd.Some? && !Absolute(cwd.value)) || (root.None? && cwd.None?) {
        return false;
      }
      ir := ir.(root := root, cwd := cwd);
      return true;
    }

    /** load_seccomp. */
    method LoadSeccomp(t: Entries, sys: Syscalls) returns (ok: bool)
      modifies this
      ensures ok <==> SeccompIn(old(ir), t, sys).Some?
      ensures ok ==> ir == SeccompIn(old(ir), t, sys).value
    {
      if !OnlyKeys(t, {"deny", "errno"}) {
        return false;
      }
      var errno := ErrnoIn(t);
      if errno.None? {
        return false;
      }
      ir := ir.(seccompEnabled := true, seccompErrno := errno.value);
      var items := ArrayIn(t, "deny");
      if items.None? || items.value == [] {
        return false;
      }
      var deny := LoadDenies(items.value, sys);
      if deny.None? {
        return false;
      }
      ir := ir.(deny := deny.value);
      return true;
    }

    /** load_root, on a policy that landlockd_policy_ir_init has emptied. */
    method LoadRoot(doc: Entries, sys: Syscalls) returns (ok: bool)
      requires ir == EMPTY
      modifies this
      ensures ok <==> Load(doc, sys).Some?
      ensures ok ==> ir == Load(doc, sys).value
    {
      if !OnlyKeys(doc, ROOT_KEYS) || IntIn(doc, "version") != Some(1) {
        return false;
      }
      var layers := Some([]);
      if ArrayIn(doc, "fs_layer").Some? {
        layers := LoadFsLayers(ArrayIn(doc, "fs_layer").value);
      }
      if layers.None? {
        return false;
      }
      ir := ir.(fsLayers := layers.value);
      ok := LoadAccessSections(doc);
      if ok {
        ok := LoadRunSections(doc, sys);
      }
    }

    method LoadAccessSections(doc: Entries) returns (ok: bool)
      modifies this
      ensures ok <==> AccessSections(old(ir), doc).Some?
      ensures ok ==> ir == AccessSections(old(ir), doc).value
    {
      if TableIn(doc, "net").Some? {
        ok := LoadNet(TableIn(doc, "net").value);
        if !ok {
          return;
        }
      }
      ok := true;
      if TableIn(doc, "broker").Some? {
        ok := LoadBroker(TableIn(doc, "broker").value);
      }
    }

    method LoadRunSections(doc: Entries, sys: Syscalls) returns (ok: bool)
      modifies this
      ensures ok <==> RunSections(old(ir), doc, sys).Some?
      ensures ok ==> ir == RunSections(old(ir), doc, sys).value
    {
      if TableIn(doc, "mount").Some? {
        ok := LoadMount(TableIn(doc, "mount").value);
        if !ok {
          return;
        }
      }
      if TableIn(doc, "runtime").Some? {
        ok := LoadRuntime(TableIn(doc, "runtime").value);
        if !ok {
          return;
        }
      }
      ok := true;
      if TableIn(doc, "seccomp").Some? {
        ok := LoadSeccomp(TableIn(doc, "seccomp").value, sys);
      }
    }

    /** landlockd_policy_load_file_in_process after parsing: all or nothing. */
    method LoadDocument(doc: Entries, sys: Syscalls) returns (ok: bool)
      requires ir == EMPTY
      modifies this
      ensures ok <==> Load(doc, sys).Some?
      ensures ir == if ok then Load(doc, sys).value else EMPTY
    {
      ok := LoadRoot(doc, sys);
      if !ok {
        ir := EMPTY;
      }
    }
  }

  lemma {:induction false} ListsAreNonempty(t: Entries)
    ensures var r := SomeIn(t, "tmpfs", p => PathOf(true, p));
      r.Some? ==> (r.value != [] <==> ArrayIn(t, "tmpfs").Some?)
    ensures var r := SomeIn(t, "bind", BindOf);
      r.Some? ==> (r.value != [] <==> ArrayIn(t, "bind").Some?)
    ensures var r := SomeIn(t, "proc", p => PathOf(true, p));
      r.Some? ==> (r.value != [] <==> ArrayIn(t, "proc").Some?)
  {
  }
}
