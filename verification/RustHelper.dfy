/** tools/landlockd-policy-helper-rs: the typed document, the builder and the
    writer. Strings keep every byte; a value of the wrong kind is an error. */
module RustHelper {
  import opened BitFacts
  import opened Bytes
  import PolicyDoc
  import opened PolicyIr
  import opened Toml

  type Names16 = PolicyDoc.Names16

  // the helper's own tables
  const FS_TABLE: Names16 := [
    ("execute", 0), ("write_file", 1), ("read_file", 2), ("read_dir", 3), ("remove_dir", 4), ("remove_file", 5),
    ("make_char", 6), ("make_dir", 7), ("make_reg", 8), ("make_sock", 9), ("make_fifo", 10), ("make_block", 11),
    ("make_sym", 12), ("refer", 13), ("truncate", 14), ("ioctl_dev", 15)]
  const NET_TABLE: Names16 := [("bind_tcp", 0), ("connect_tcp", 1)]
  const ATTR_TABLE: Names16 := [("readonly", 0), ("nosuid", 1), ("nodev", 2), ("noexec", 3)]
  const ACTIONS: seq<string> := ["open", "open_tree", "scratch_open", "fsopen", "fsmount"]
  const BROKER_FIELDS: set<string> :=
    {"allow_read", "allow_write", "scratch", "export", "mount_tmpfs", "mount_bind", "mount_object", "addfd"}
  const DOC_FIELDS: set<string> := {"version", "fs_layer", "net", "broker", "mount", "runtime", "seccomp"}

  type Syscalls = PolicyDoc.Syscalls

  datatype FsRuleDoc = FsRuleDoc(path: Str, access: seq<Str>)
  datatype FsLayerDoc = FsLayerDoc(handled: seq<Str>, rules: seq<FsRuleDoc>)
  datatype NetRuleDoc = NetRuleDoc(port: int, access: seq<Str>)
  datatype NetDoc = NetDoc(handled: seq<Str>, rules: seq<NetRuleDoc>)
  datatype AddfdDoc = AddfdDoc(action: Str, target: Str, mode: Option<Str>)
  datatype BindDoc = BindDoc(source: Str, target: Str, readOnly: Option<bool>)
  datatype ObjectDoc = ObjectDoc(name: Str, fsType: Str, attach: seq<Str>, attrs: Option<seq<Str>>)
  datatype BrokerDoc = BrokerDoc(
    allowRead: Option<seq<Str>>, allowWrite: Option<seq<Str>>, scratch: Option<seq<Str>>, exports: Option<seq<Str>>,
    mountTmpfs: Option<seq<Str>>, mountBind: Option<seq<BindDoc>>, mountObject: Option<seq<ObjectDoc>>,
    addfd: Option<seq<AddfdDoc>>)
  datatype MountDoc = MountDoc(tmpfs: Option<seq<Str>>, bind: Option<seq<BindDoc>>, procs: Option<seq<Str>>)
  datatype RuntimeDoc = RuntimeDoc(root: Option<Str>, cwd: Option<Str>)
  datatype SeccompDoc = SeccompDoc(deny: seq<Str>, errno: Option<int>)
  datatype Doc = Doc(version: int, fsLayers: seq<FsLayerDoc>, net: Option<NetDoc>, broker: Option<BrokerDoc>,
                     mount: Option<MountDoc>, runtime: Option<RuntimeDoc>, seccomp: Option<SeccompDoc>)

  // ----- deserialization with deny_unknown_fields

  function TextOf(v: Value): Option<Str> {
    if v.String? then Some(v.s) else None
  }

  function IntOf(v: Value): Option<int> {
    if v.Int? then Some(v.i) else None
  }

  function BoolOf(v: Value): Option<bool> {
    if v.Bool? then Some(v.b) else None
  }

  function ListOf<T>(f: Value -> Option<T>, v: Value): Option<seq<T>> {
    if v.Array? then MapAll(f, v.items) else None
  }

  function TextsOf(v: Value): Option<seq<Str>> {
    ListOf(TextOf, v)
  }

  function Required<T>(t: Entries, key: string, f: Value -> Option<T>): Option<T> {
    if key in t then f(t[key]) else None
  }

  function Optional<T>(t: Entries, key: string, f: Value -> Option<T>): Option<Option<T>> {
    if key !in t then Some(None)
    else
      var x :- f(t[key]);
      Some(Some(x))
  }

  function Defaulted<T>(t: Entries, key: string, f: Value -> Option<T>): Option<seq<T>> {
    if key in t then ListOf(f, t[key]) else Some([])
  }

  function FsRuleDocOf(v: Value): Option<FsRuleDoc> {
    if !v.Table? || !OnlyKeys(v.entries, {"path", "allowed_access"}) then None
    else
      var path :- Required(v.entries, "path", TextOf);
      var access :- Required(v.entries, "allowed_access", TextsOf);
      Some(FsRuleDoc(path, access))
  }

  function FsLayerDocOf(v: Value): Option<FsLayerDoc> {
    if !v.Table? || !OnlyKeys(v.entries, {"handled_access_fs", "rule"}) then None
    else
      var handled :- Required(v.entries, "handled_access_fs", TextsOf);
      var rules :- Defaulted(v.entries, "rule", FsRuleDocOf);
      Some(FsLayerDoc(handled, rules))
  }

  function NetRuleDocOf(v: Value): Option<NetRuleDoc> {
    if !v.Table? || !OnlyKeys(v.entries, {"port", "allowed_access"}) then None
    else
      var port :- Required(v.entries, "port", IntOf);
      var access :- Required(v.entries, "allowed_access", TextsOf);
      Some(NetRuleDoc(port, access))
  }

  function NetDocOf(v: Value): Option<NetDoc> {
    if !v.Table? || !OnlyKeys(v.entries, {"handled_access_net", "rule"}) then None
    else
      var handled :- Required(v.entries, "handled_access_net", TextsOf);
      var rules :- Defaulted(v.entries, "rule", NetRuleDocOf);
      Some(NetDoc(handled, rules))
  }

  function AddfdDocOf(v: Value): Option<AddfdDoc> {
    if !v.Table? || !OnlyKeys(v.entries, {"action", "target", "mode"}) then None
    else
      var action :- Required(v.entries, "action", TextOf);
      var target :- Required(v.entries, "target", TextOf);
      var mode :- Optional(v.entries, "mode", TextOf);
      Some(AddfdDoc(action, target, mode))
  }

  function BindDocOf(v: Value): Option<BindDoc> {
    if !v.Table? || !OnlyKeys(v.entries, {"source", "target", "read_only"}) then None
    else
      var source :- Required(v.entries, "source", TextOf);
      var target :- Required(v.entries, "target", TextOf);
      var readOnly :- Optional(v.entries, "read_only", BoolOf);
      Some(BindDoc(source, target, readOnly))
  }

  function ObjectDocOf(v: Value): Option<ObjectDoc> {
    if !v.Table? || !OnlyKeys(v.entries, {"name", "fs_type", "attach", "attrs"}) then None
    else
      var name :- Required(v.entries, "name", TextOf);
      var fsType :- Required(v.entries, "fs_type", TextOf);
      var attach :- Required(v.entries, "attach", TextsOf);
      var attrs :- Optional(v.entries, "attrs", TextsOf);
      Some(ObjectDoc(name, fsType, attach, attrs))
  }

  function BrokerDocOf(v: Value): Option<BrokerDoc> {
    if !v.Table? || !OnlyKeys(v.entries, BROKER_FIELDS) then None
    else
      var t := v.entries;
      var allowRead :- Optional(t, "allow_read", TextsOf);
      var allowWrite :- Optional(t, "allow_write", TextsOf);
      var scratch :- Optional(t, "scratch", TextsOf);
      var exports :- Optional(t, "export", TextsOf);
      var mountTmpfs :- Optional(t, "mount_tmpfs", TextsOf);
      var mountBind :- Optional(t, "mount_bind", b => ListOf(BindDocOf, b));
      var mountObject :- Optional(t, "mount_object", o => ListOf(ObjectDocOf, o));
      var addfd :- Optional(t, "addfd", a => ListOf(AddfdDocOf, a));
      Some(BrokerDoc(allowRead, allowWrite, scratch, exports, mountTmpfs, mountBind, mountObject, addfd))
  }

  function MountDocOf(v: Value): Option<MountDoc> {
    if !v.Table? || !OnlyKeys(v.entries, {"tmpfs", "bind", "proc"}) then None
    else
      var tmpfs :- Optional(v.entries, "tmpfs", TextsOf);
      var bind :- Optional(v.entries, "bind", b => ListOf(BindDocOf, b));
      var procs :- Optional(v.entries, "proc", TextsOf);
      Some(MountDoc(tmpfs, bind, procs))
  }

  function RuntimeDocOf(v: Value): Option<RuntimeDoc> {
    if !v.Table? || !OnlyKeys(v.entries, {"root", "cwd"}) then None
    else
      var root :- Optional(v.entries, "root", TextOf);
      var cwd :- Optional(v.entries, "cwd", TextOf);
      Some(RuntimeDoc(root, cwd))
  }

  function SeccompDocOf(v: Value): Option<SeccompDoc> {
    if !v.Table? || !OnlyKeys(v.entries, {"deny", "errno"}) then None
    else
      var deny :- Required(v.entries, "deny", TextsOf);
      var errno :- Optional(v.entries, "errno", IntOf);
      Some(SeccompDoc(deny, errno))
  }

  function DocOf(t: Entries): Option<Doc> {
    if !OnlyKeys(t, DOC_FIELDS) then None
    else
      var version :- Required(t, "version", IntOf);
      var fsLayers :- Defaulted(t, "fs_layer", FsLayerDocOf);
      var net :- Optional(t, "net", NetDocOf);
      var broker :- Optional(t, "broker", BrokerDocOf);
      var mount :- Optional(t, "mount", MountDocOf);
      var runtime :- Optional(t, "runtime", RuntimeDocOf);
      var seccomp :- Optional(t, "seccomp", SeccompDocOf);
      Some(Doc(version, fsLayers, net, broker, mount, runtime, seccomp))
  }

  // ----- build_ir

  /** parse_access_list, one name. */
  function BitOf(table: Names16, item: Str): Option<nat> {
    if item == [] then None else PolicyDoc.FindBit(table, item)
  }

  function AccessList(items: seq<Str>, table: Names16): Option<u64> {
    if items == [] then None
    else
      var bits :- MapAll(item => BitOf(table, item), items);
      BitsInRange(items, table);
      PolicyDoc.OrAllBits(bits);
      Some(PolicyDoc.OrAll(bits))
  }

  lemma {:induction false} BitsInRange(items: seq<Str>, table: Names16)
    ensures var bits := MapAll(item => BitOf(table, item), items);
      bits.Some? ==> forall i :: 0 <= i < |bits.value| ==> bits.value[i] < 16
  {
    MapAllAt(item => BitOf(table, item), items);
    forall i | 0 <= i < |items| && BitOf(table, items[i]).Some? ensures BitOf(table, items[i]).value < 16 {
      PolicyDoc.FoundBit(table, items[i]);
    }
  }

  /** require_absolute. */
  predicate Rooted(s: Str) {
    s != [] && s[0] == '/'
  }

  predicate Acceptable(absolute: bool, s: Str) {
    s != [] && (absolute ==> Rooted(s))
  }

  /** parse_path_list. */
  function PathList(items: Option<seq<Str>>, absolute: bool): Option<seq<Str>> {
    if items.None? then Some([])
    else if items.value == [] || exists i :: 0 <= i < |items.value| && !Acceptable(absolute, items.value[i]) then None
    else items
  }

  function BindIrOf(d: BindDoc): Option<BindRule> {
    if !Rooted(d.source) || !Rooted(d.target) then None
    else Some(BindRule(d.source, d.target, if d.readOnly.Some? then d.readOnly.value else true))
  }

  /** A list that may be absent but not empty. */
  function NonemptyList<A, B>(items: Option<seq<A>>, f: A -> Option<B>): Option<seq<B>> {
    if items.None? then Some([]) else if items.value == [] then None else MapAll(f, items.value)
  }

  function AddfdIrOf(d: AddfdDoc): Option<AddfdRule> {
    if d.action !in ACTIONS || !Rooted(d.target) then None
    else if d.mode.Some? && d.mode.value != "read" && d.mode.value != "write" then None
    else Some(AddfdRule(d.action, d.target, d.mode))
  }

  function AttrsOf(attrs: Option<seq<Str>>): Option<u64> {
    if attrs.None? then Some(0) else AccessList(attrs.value, ATTR_TABLE)
  }

  function ObjectIrOf(d: ObjectDoc): Option<ObjectRule> {
    if d.name == [] || '/' in d.name || (d.fsType != "tmpfs" && d.fsType != "proc") then None
    else if d.attach == [] || exists i :: 0 <= i < |d.attach| && !Rooted(d.attach[i]) then None
    else
      var attrs :- AttrsOf(d.attrs);
      Some(ObjectRule(d.name, d.fsType, d.attach, attrs))
  }

  function FsRuleIrOf(d: FsRuleDoc): Option<FsRule> {
    if d.path == [] then None
    else
      var access :- AccessList(d.access, FS_TABLE);
      Some(FsRule(d.path, access))
  }

  function FsLayerIrOf(d: FsLayerDoc): Option<FsLayer> {
    var handled :- AccessList(d.handled, FS_TABLE);
    var rules :- MapAll(FsRuleIrOf, d.rules);
    Some(FsLayer(handled, rules))
  }

  function NetRuleIrOf(d: NetRuleDoc): Option<NetRule> {
    if !(0 <= d.port <= 65535) then None
    else
      var access :- AccessList(d.access, NET_TABLE);
      Some(NetRule(d.port, access))
  }

  function NetIr(ir: Ir, d: NetDoc): Option<Ir> {
    var handled :- AccessList(d.handled, NET_TABLE);
    var rules :- MapAll(NetRuleIrOf, d.rules);
    Some(ir.(netEnabled := true, netHandled := handled, netRules := rules))
  }

  function BrokerIr(ir: Ir, d: BrokerDoc): Option<Ir> {
    var openRead :- PathList(d.allowRead, false);
    var openWrite :- PathList(d.allowWrite, false);
    var scratch :- PathList(d.scratch, false);
    var exports :- PathList(d.exports, false);
    var tmpfs :- PathList(d.mountTmpfs, false);
    var binds :- NonemptyList(d.mountBind, BindIrOf);
    var objects :- NonemptyList(d.mountObject, ObjectIrOf);
    var addfd :- NonemptyList(d.addfd, AddfdIrOf);
    Some(ir.(openRead := openRead, openWrite := openWrite, scratch := scratch, exports := exports,
             brokerTmpfs := tmpfs, brokerBind := binds, brokerObject := objects, addfd := addfd))
  }

  function MountIr(ir: Ir, d: MountDoc): Option<Ir> {
    var tmpfs :- PathList(d.tmpfs, true);
    var binds :- NonemptyList(d.bind, BindIrOf);
    var procs :- PathList(d.procs, true);
    if tmpfs == [] && binds == [] && procs == [] then None
    else Some(ir.(mountTmpfs := tmpfs, mountBind := binds, mountProc := procs))
  }

  function RuntimeIr(ir: Ir, d: RuntimeDoc): Option<Ir> {
    if (d.root.Some? && !Rooted(d.root.value)) || (d.cwd.Some? && !Rooted(d.cwd.value))
       || (d.root.None? && d.cwd.None?)
    then None
    else Some(ir.(root := d.root, cwd := d.cwd))
  }

  function DenyOf(sys: Syscalls, name: Str): Option<u32> {
    if name != [] && name in sys then Some(sys[name]) else None
  }

  function SeccompIr(ir: Ir, d: SeccompDoc, sys: Syscalls): Option<Ir> {
    if (d.errno.Some? && !(1 <= d.errno.value <= 4095)) || d.deny == [] then None
    else
      var deny :- MapAll(name => DenyOf(sys, name), d.deny);
      Some(ir.(seccompEnabled := true, seccompErrno := if d.errno.Some? then d.errno.value else ir.seccompErrno,
               deny := deny))
  }

  function OptionalSection<D>(ir: Ir, d: Option<D>, f: (Ir, D) -> Option<Ir>): Option<Ir> {
    if d.None? then Some(ir) else f(ir, d.value)
  }

  /** PolicyIr::default() with DEFAULT_SECCOMP_ERRNO. */
  const START: Ir := EMPTY.(seccompErrno := 1)

  function AccessSections(ir: Ir, d: Doc): Option<Ir> {
    var withNet :- OptionalSection(ir, d.net, NetIr);
    OptionalSection(withNet, d.broker, BrokerIr)
  }

  function RunSections(ir: Ir, d: Doc, sys: Syscalls): Option<Ir> {
    var withMount :- OptionalSection(ir, d.mount, MountIr);
    var withRuntime :- OptionalSection(withMount, d.runtime, RuntimeIr);
    OptionalSection(withRuntime, d.seccomp, (ir, s) => SeccompIr(ir, s, sys))
  }

  function BuildIr(d: Doc, sys: Syscalls): Option<Ir> {
    if d.version != 1 then None
    else
      var layers :- MapAll(FsLayerIrOf, d.fsLayers);
      var withAccess :- AccessSections(START.(fsLayers := layers), d);
      RunSections(withAccess, d, sys)
  }

  /** The helper's policy for a document. */
  function Load(t: Entries, sys: Syscalls): Option<Ir> {
    var d :- DocOf(t);
    BuildIr(d, sys)
  }
}
