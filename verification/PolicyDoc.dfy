/** What a policy document says: the meaning of every section, as
    landlock_policy_loader_in_process.c gives it. */
module PolicyDoc {
  import opened BitFacts
  import opened Bytes
  import opened LandlockBits
  import opened PolicyIr
  import opened Toml

  // ----- access names

  /** A name and the number of the bit that it stands for. */
  type Names16 = seq<(string, nat)>

  const FS_ACCESS: Names16 := [
    ("execute", FS_EXECUTE), ("write_file", FS_WRITE_FILE), ("read_file", FS_READ_FILE), ("read_dir", FS_READ_DIR),
    ("remove_dir", FS_REMOVE_DIR), ("remove_file", FS_REMOVE_FILE), ("make_char", FS_MAKE_CHAR),
    ("make_dir", FS_MAKE_DIR), ("make_reg", FS_MAKE_REG), ("make_sock", FS_MAKE_SOCK), ("make_fifo", FS_MAKE_FIFO),
    ("make_block", FS_MAKE_BLOCK), ("make_sym", FS_MAKE_SYM), ("refer", FS_REFER), ("truncate", FS_TRUNCATE),
    ("ioctl_dev", FS_IOCTL_DEV)]
  const NET_ACCESS: Names16 := [("bind_tcp", NET_BIND_TCP), ("connect_tcp", NET_CONNECT_TCP)]
  const MOUNT_ATTRS: Names16 :=
    [("readonly", ATTR_RDONLY), ("nosuid", ATTR_NOSUID), ("nodev", ATTR_NODEV), ("noexec", ATTR_NOEXEC)]

  /** resolve_access: the first entry with the name. */
  function FindBit(table: Names16, name: Str): (r: Option<nat>) {
    if table == [] then None
    else if table[0].0 == name then if table[0].1 < 16 then Some(table[0].1) else None
    else FindBit(table[1..], name)
  }

  lemma {:induction false} FoundBit(table: Names16, name: Str)
    ensures FindBit(table, name).Some? ==> FindBit(table, name).value < 16
  {
    if table != [] && table[0].0 != name {
      FoundBit(table[1..], name);
    }
  }

  function NamedBit(table: Names16, v: Value): Option<nat> {
    var name :- StringOf(v);
    FindBit(table, name)
  }

  function OrAll(bits: seq<nat>): nat {
    if bits == [] then 0 else OrBit(OrAll(bits[..|bits| - 1]), bits[|bits| - 1])
  }

  lemma {:induction false} OrAllBits(bits: seq<nat>)
    requires forall i :: 0 <= i < |bits| ==> bits[i] < 16
    ensures OrAll(bits) < 0x1_0000 && Bits(OrAll(bits)) == set b | b in bits
    ensures bits != [] ==> OrAll(bits) != 0
  {
    Pow2Of16();
    if bits == [] {
      forall i: nat ensures !Bit(0, i) {
        BitOfZero(i);
      }
    } else {
      var init, k := bits[..|bits| - 1], bits[|bits| - 1];
      OrAllBits(init);
      BitsOfOr(OrAll(init), k);
      if !Bit(OrAll(init), k) {
        AddBitFits(OrAll(init), k, 16);
      }
      assert bits == init + [k];
      assert k in Bits(OrAll(bits));
      BitOfZero(k);
    }
  }

  /** load_access_array: the union of the named rights, at least one name. */
  function AccessIn(t: Entries, key: string, table: Names16): Option<u64> {
    var items :- ArrayIn(t, key);
    AccessOf(items, table)
  }

  function AccessOf(items: seq<Value>, table: Names16): (r: Option<u64>)
    ensures r.Some? ==> r.value != 0
  {
    if items == [] then None
    else
      var bits :- MapAll(v => NamedBit(table, v), items);
      BitsInRange(items, table);
      OrAllBits(bits);
      Some(OrAll(bits))
  }

  lemma {:induction false} BitsInRange(items: seq<Value>, table: Names16)
    ensures var bits := MapAll(v => NamedBit(table, v), items);
      bits.Some? ==> |bits.value| == |items| && forall i :: 0 <= i < |items| ==> bits.value[i] < 16
  {
    MapAllAt(v => NamedBit(table, v), items);
    forall i | 0 <= i < |items| && NamedBit(table, items[i]).Some? ensures NamedBit(table, items[i]).value < 16 {
      FoundBit(table, StringOf(items[i]).value);
    }
  }

  /** The mask of an access list has exactly the bits that its names stand for. */
  lemma {:induction false} AccessBits(items: seq<Value>, table: Names16)
    requires AccessOf(items, table).Some?
    ensures forall k :: k in Bits(AccessOf(items, table).value) <==>
      exists i :: 0 <= i < |items| && NamedBit(table, items[i]) == Some(k)
  {
    var bits := MapAll(v => NamedBit(table, v), items).value;
    BitsInRange(items, table);
    MapAllAt(v => NamedBit(table, v), items);
    OrAllBits(bits);
    forall i | 0 <= i < |items| ensures NamedBit(table, items[i]) == Some(bits[i]) {
    }
    forall k ensures k in bits <==> exists i :: 0 <= i < |items| && NamedBit(table, items[i]) == Some(k) {
      if k in bits {
        var i :| 0 <= i < |bits| && bits[i] == k;
        assert NamedBit(table, items[i]) == Some(k);
      }
    }
  }

  // ----- strings

  predicate Absolute(s: Str) {
    s != [] && s[0] == '/'
  }

  function NonemptyIn(t: Entries, key: string): (r: Option<Str>)
    ensures r.Some? ==> NulFree(r.value) && r.value != []
  {
    var s :- StringIn(t, key);
    if s == [] then None else Some(s)
  }

  function AbsoluteIn(t: Entries, key: string): (r: Option<Str>)
    ensures r.Some? ==> NulFree(r.value) && r.value != []
  {
    var s :- StringIn(t, key);
    if Absolute(s) then Some(s) else None
  }

  function PathOf(absolute: bool, v: Value): (r: Option<Str>)
    ensures r.Some? ==> NulFree(r.value) && r.value != []
  {
    var s :- StringOf(v);
    if s == [] || (absolute && !Absolute(s)) then None else Some(s)
  }

  // ----- the elements of each list

  function FsRuleOf(v: Value): Option<FsRule> {
    if !v.Table? || !OnlyKeys(v.entries, {"path", "allowed_access"}) then None
    else
      var path :- NonemptyIn(v.entries, "path");
      var access :- AccessIn(v.entries, "allowed_access", FS_ACCESS);
      Some(FsRule(path, access))
  }

  function RulesIn<T>(t: Entries, f: Value -> Option<T>): Option<seq<T>> {
    match ArrayIn(t, "rule")
    case None => Some([])
    case Some(items) => MapAll(f, items)
  }

  function LayerOf(v: Value): Option<FsLayer> {
    if !v.Table? || !OnlyKeys(v.entries, {"handled_access_fs", "rule"}) then None
    else
      var handled :- AccessIn(v.entries, "handled_access_fs", FS_ACCESS);
      var rules :- RulesIn(v.entries, FsRuleOf);
      Some(FsLayer(handled, rules))
  }

  function NetRuleOf(v: Value): Option<NetRule> {
    if !v.Table? || !OnlyKeys(v.entries, {"port", "allowed_access"}) then None
    else
      var port :- IntIn(v.entries, "port");
      if port < 0 || port > 65535 then None
      else
        var access :- AccessIn(v.entries, "allowed_access", NET_ACCESS);
        Some(NetRule(port, access))
  }

  function ReadOnlyIn(t: Entries): Option<bool> {
    if "read_only" in t then BoolIn(t, "read_only") else Some(true)
  }

  function BindOf(v: Value): Option<BindRule> {
    if !v.Table? || !OnlyKeys(v.entries, {"source", "target", "read_only"}) then None
    else
      var source :- AbsoluteIn(v.entries, "source");
      var target :- AbsoluteIn(v.entries, "target");
      var readOnly :- ReadOnlyIn(v.entries);
      Some(BindRule(source, target, readOnly))
  }

  function AttrsIn(t: Entries): Option<u64> {
    match ArrayIn(t, "attrs")
    case None => Some(0)
    case Some(items) => AccessOf(items, MOUNT_ATTRS)
  }

  function ObjectOf(v: Value): Option<ObjectRule> {
    if !v.Table? || !OnlyKeys(v.entries, {"name", "fs_type", "attach", "attrs"}) then None
    else
      var name :- NonemptyIn(v.entries, "name");
      var fsType :- StringIn(v.entries, "fs_type");
      var paths :- ArrayIn(v.entries, "attach");
      if '/' in name || (fsType != "tmpfs" && fsType != "proc") || paths == [] then None
      else
        var attach :- MapAll(p => PathOf(true, p), paths);
        var attrs :- AttrsIn(v.entries);
        Some(ObjectRule(name, fsType, attach, attrs))
  }

  function ModeIn(t: Entries): Option<Option<Str>> {
    if "mode" !in t then Some(None)
    else
      var mode :- StringIn(t, "mode");
      if mode == "read" || mode == "write" then Some(Some(mode)) else None
  }

  function AddfdOf(v: Value): Option<AddfdRule> {
    if !v.Table? || !OnlyKeys(v.entries, {"action", "target", "mode"}) then None
    else
      var action :- StringIn(v.entries, "action");
      var target :- AbsoluteIn(v.entries, "target");
      var mode :- ModeIn(v.entries);
      if ActionKnown(action) then Some(AddfdRule(action, target, mode)) else None
  }

  /** The numbers that landlockd_seccomp_syscall_by_name knows. */
  type Syscalls = m: map<Str, int> | forall name :: name in m ==> 0 <= m[name] < 0x8000_0000 witness map[]

  function DenyOf(sys: Syscalls, v: Value): Option<u32> {
    var name :- StringOf(v);
    if name != [] && name in sys then Some(sys[name]) else None
  }

  // ----- the sections

  function PathsIn(t: Entries, key: string): Option<seq<Str>> {
    match ArrayIn(t, key)
    case None => Some([])
    case Some(items) => MapAll(p => PathOf(false, p), items)
  }

  /** A list that may be absent but not empty. */
  function SomeIn<T>(t: Entries, key: string, f: Value -> Option<T>): Option<seq<T>> {
    match ArrayIn(t, key)
    case None => Some([])
    case Some(items) => if items == [] then None else MapAll(f, items)
  }

  function NetIn(ir: Ir, t: Entries): Option<Ir> {
    if !OnlyKeys(t, {"handled_access_net", "rule"}) then None
    else
      var handled :- AccessIn(t, "handled_access_net", NET_ACCESS);
      var rules :- RulesIn(t, NetRuleOf);
      Some(ir.(netEnabled := true, netHandled := handled, netRules := rules))
  }

  const BROKER_KEYS: set<string> :=
    {"allow_read", "allow_write", "scratch", "export", "mount_tmpfs", "mount_bind", "mount_object", "addfd"}

  function BrokerIn(ir: Ir, t: Entries): Option<Ir> {
    if !OnlyKeys(t, BROKER_KEYS) then None
    else
      var openRead :- PathsIn(t, "allow_read");
      var openWrite :- PathsIn(t, "allow_write");
      var scratch :- PathsIn(t, "scratch");
      var exports :- PathsIn(t, "export");
      var tmpfs :- PathsIn(t, "mount_tmpfs");
      var addfd :- SomeIn(t, "addfd", AddfdOf);
      var binds :- SomeIn(t, "mount_bind", BindOf);
      var objects :- SomeIn(t, "mount_object", ObjectOf);
      Some(ir.(openRead := openRead, openWrite := openWrite, scratch := scratch, exports := exports,
               brokerTmpfs := tmpfs, brokerBind := binds, brokerObject := objects, addfd := addfd))
  }

  function MountIn(ir: Ir, t: Entries): Option<Ir> {
    if !OnlyKeys(t, {"tmpfs", "bind", "proc"}) then None
    else
      var tmpfs :- SomeIn(t, "tmpfs", p => PathOf(true, p));
      var binds :- SomeIn(t, "bind", BindOf);
      var procs :- SomeIn(t, "proc", p => PathOf(true, p));
      if tmpfs == [] && binds == [] && procs == [] then None
      else Some(ir.(mountTmpfs := tmpfs, mountBind := binds, mountProc := procs))
  }

  /** A string that is absent or absolute; a value of another kind is ignored. */
  function RuntimePathIn(t: Entries, key: string): Option<Option<Str>> {
    match StringIn(t, key)
    case None => Some(None)
    case Some(s) => if Absolute(s) then Some(Some(s)) else None
  }

  function RuntimeIn(ir: Ir, t: Entries): Option<Ir> {
    if !OnlyKeys(t, {"root", "cwd"}) then None
    else
      var root :- RuntimePathIn(t, "root");
      var cwd :- RuntimePathIn(t, "cwd");
      if root.None? && cwd.None? then None else Some(ir.(root := root, cwd := cwd))
  }

  function ErrnoIn(t: Entries): Option<u16> {
    match IntIn(t, "errno")
    case None => Some(1)
    case Some(e) => if e <= 0 || e > 4095 then None else Some(e)
  }

  function SeccompIn(ir: Ir, t: Entries, sys: Syscalls): Option<Ir> {
    if !OnlyKeys(t, {"deny", "errno"}) then None
    else
      var errno :- ErrnoIn(t);
      var items :- ArrayIn(t, "deny");
      if items == [] then None
      else
        var deny :- MapAll(v => DenyOf(sys, v), items);
        Some(ir.(seccompEnabled := true, seccompErrno := errno, deny := deny))
  }

  /** A section that is absent, or not a table, leaves the policy as it is. */
  function Section(ir: Ir, t: Entries, key: string, f: (Ir, Entries) -> Option<Ir>): Option<Ir> {
    match TableIn(t, key)
    case None => Some(ir)
    case Some(section) => f(ir, section)
  }

  const ROOT_KEYS: set<string> := {"version", "fs_layer", "net", "broker", "mount", "runtime", "seccomp"}

  function LayersIn(t: Entries): Option<seq<FsLayer>> {
    match ArrayIn(t, "fs_layer")
    case None => Some([])
    case Some(items) => MapAll(LayerOf, items)
  }

  function AccessSections(ir: Ir, doc: Entries): Option<Ir> {
    var withNet :- Section(ir, doc, "net", NetIn);
    Section(withNet, doc, "broker", BrokerIn)
  }

  function RunSections(ir: Ir, doc: Entries, sys: Syscalls): Option<Ir> {
    var withMount :- Section(ir, doc, "mount", MountIn);
    var withRuntime :- Section(withMount, doc, "runtime", RuntimeIn);
    Section(withRuntime, doc, "seccomp", (ir, t) => SeccompIn(ir, t, sys))
  }

  /** load_root on an empty policy. */
  function Load(doc: Entries, sys: Syscalls): Option<Ir> {
    if !OnlyKeys(doc, ROOT_KEYS) || IntIn(doc, "version") != Some(1) then None
    else
      var layers :- LayersIn(doc);
      var withAccess :- AccessSections(EMPTY.(fsLayers := layers), doc);
      RunSections(withAccess, doc, sys)
  }
}
