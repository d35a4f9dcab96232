/** The Rust helper against in-process loading: whatever the helper accepts,
    the C loader accepts too, with the same policy. */
module RustTheorems {
  import opened Bytes
  import opened PolicyIr
  import opened Toml
  import P = PolicyDoc
  import PolicyDocTheorems
  import R = RustHelper
  import RustWire
  import RustWrite
  import Wire
  import WireTheorems

  // ----- values

  lemma {:induction false} TextAgrees(v: Value)
    requires NulFreeValue(v) && R.TextOf(v).Some?
    ensures StringOf(v) == R.TextOf(v)
  {
  }

  lemma {:induction false} TextsAgree(v: Value)
    requires NulFreeValue(v) && R.TextsOf(v).Some?
    ensures v.Array? && |R.TextsOf(v).value| == |v.items|
    ensures forall i :: 0 <= i < |v.items| ==> StringOf(v.items[i]) == Some(R.TextsOf(v).value[i])
  {
    MapAllAt(R.TextOf, v.items);
    forall i | 0 <= i < |v.items| ensures StringOf(v.items[i]) == Some(R.TextsOf(v).value[i]) {
      TextAgrees(v.items[i]);
    }
  }

  /** The loader's table and the helper's give every name the same bit. */
  ghost predicate SameBits(table: P.Names16, other: P.Names16) {
    forall name :: P.FindBit(table, name) == P.FindBit(other, name)
  }

  lemma {:induction false} AccessAgrees(v: Value, table: P.Names16, other: P.Names16)
    requires SameBits(table, other)
    requires NulFreeValue(v) && R.TextsOf(v).Some? && R.AccessList(R.TextsOf(v).value, other).Some?
    ensures v.Array? && P.AccessOf(v.items, table) == R.AccessList(R.TextsOf(v).value, other)
  {
    var texts := R.TextsOf(v).value;
    TextsAgree(v);
    var bits := MapAll(item => R.BitOf(other, item), texts).value;
    MapAllAt(item => R.BitOf(other, item), texts);
    forall i | 0 <= i < |texts| ensures P.NamedBit(table, v.items[i]) == Some(bits[i]) {
      assert R.BitOf(other, texts[i]) == Some(bits[i]);
    }
    MapAllIs(w => P.NamedBit(table, w), v.items, bits);
  }

  lemma {:induction false} ListAgrees<D, B>(read: Value -> Option<D>, build: D -> Option<B>, load: Value -> Option<B>,
                                            items: seq<Value>)
    requires forall v :: NulFreeValue(v) && read(v).Some? && build(read(v).value).Some? ==> load(v) == build(read(v).value)
    requires NulFreeValue(Array(items)) && MapAll(read, items).Some? && MapAll(build, MapAll(read, items).value).Some?
    ensures MapAll(load, items) == MapAll(build, MapAll(read, items).value)
    ensures |MapAll(read, items).value| == |items|
  {
    var docs := MapAll(read, items).value;
    MapAllAt(read, items);
    MapAllAt(build, docs);
    var built := MapAll(build, docs).value;
    forall i | 0 <= i < |items| ensures load(items[i]) == Some(built[i]) {
      assert NulFreeValue(items[i]) && read(items[i]) == Some(docs[i]) && build(docs[i]) == Some(built[i]);
    }
    MapAllIs(load, items, built);
  }

  lemma {:induction false} PathsAgree(v: Value, absolute: bool)
    requires NulFreeValue(v) && R.TextsOf(v).Some? && R.PathList(R.TextsOf(v), absolute).Some?
    ensures v.Array? && v.items != [] && MapAll(p => P.PathOf(absolute, p), v.items) == R.PathList(R.TextsOf(v), absolute)
  {
    var texts := R.TextsOf(v).value;
    TextsAgree(v);
    forall i | 0 <= i < |texts| ensures P.PathOf(absolute, v.items[i]) == Some(texts[i]) {
      assert R.Acceptable(absolute, texts[i]);
    }
    MapAllIs(p => P.PathOf(absolute, p), v.items, texts);
  }

  // ----- elements

  lemma {:induction false} FsRuleAgrees(v: Value)
    requires NulFreeValue(v) && R.FsRuleDocOf(v).Some? && R.FsRuleIrOf(R.FsRuleDocOf(v).value).Some?
    ensures P.FsRuleOf(v) == R.FsRuleIrOf(R.FsRuleDocOf(v).value)
  {
    TextAgrees(v.entries["path"]);
    AccessAgrees(v.entries["allowed_access"], P.FS_ACCESS, R.FS_TABLE);
  }

  lemma {:induction false} LayerAgrees(v: Value)
    requires NulFreeValue(v) && R.FsLayerDocOf(v).Some? && R.FsLayerIrOf(R.FsLayerDocOf(v).value).Some?
    ensures P.LayerOf(v) == R.FsLayerIrOf(R.FsLayerDocOf(v).value)
  {
    AccessAgrees(v.entries["handled_access_fs"], P.FS_ACCESS, R.FS_TABLE);
    if "rule" in v.entries {
      forall r | NulFreeValue(r) && R.FsRuleDocOf(r).Some? && R.FsRuleIrOf(R.FsRuleDocOf(r).value).Some?
        ensures P.FsRuleOf(r) == R.FsRuleIrOf(R.FsRuleDocOf(r).value)
      {
        FsRuleAgrees(r);
      }
      assert NulFreeValue(v.entries["rule"]);
      ListAgrees(R.FsRuleDocOf, R.FsRuleIrOf, P.FsRuleOf, v.entries["rule"].items);
    }
  }

  lemma {:induction false} NetRuleAgrees(v: Value)
    requires NulFreeValue(v) && R.NetRuleDocOf(v).Some? && R.NetRuleIrOf(R.NetRuleDocOf(v).value).Some?
    ensures P.NetRuleOf(v) == R.NetRuleIrOf(R.NetRuleDocOf(v).value)
  {
    AccessAgrees(v.entries["allowed_access"], P.NET_ACCESS, R.NET_TABLE);
  }

  lemma {:induction false} BindAgrees(v: Value)
    requires NulFreeValue(v) && R.BindDocOf(v).Some? && R.BindIrOf(R.BindDocOf(v).value).Some?
    ensures P.BindOf(v) == R.BindIrOf(R.BindDocOf(v).value)
  {
    TextAgrees(v.entries["source"]);
    TextAgrees(v.entries["target"]);
  }

  lemma {:induction false} AddfdAgrees(v: Value)
    requires NulFreeValue(v) && R.AddfdDocOf(v).Some? && R.AddfdIrOf(R.AddfdDocOf(v).value).Some?
    ensures P.AddfdOf(v) == R.AddfdIrOf(R.AddfdDocOf(v).value)
  {
    TextAgrees(v.entries["action"]);
    TextAgrees(v.entries["target"]);
    if "mode" in v.entries {
      TextAgrees(v.entries["mode"]);
    }
  }

  lemma {:induction false} ObjectAgrees(v: Value)
    requires NulFreeValue(v) && R.ObjectDocOf(v).Some? && R.ObjectIrOf(R.ObjectDocOf(v).value).Some?
    ensures P.ObjectOf(v) == R.ObjectIrOf(R.ObjectDocOf(v).value)
  {
    TextAgrees(v.entries["name"]);
    TextAgrees(v.entries["fs_type"]);
    var attach := v.entries["attach"];
    forall i | 0 <= i < |R.TextsOf(attach).value| ensures R.Acceptable(true, R.TextsOf(attach).value[i]) {
      assert P.Absolute(R.TextsOf(attach).value[i]);
    }
    PathsAgree(attach, true);
    if "attrs" in v.entries {
      AccessAgrees(v.entries["attrs"], P.MOUNT_ATTRS, R.ATTR_TABLE);
    }
  }

  // ----- lists of a section

  lemma {:induction false} PathsInAgree(t: Entries, key: string)
    requires NulFreeEntries(t) && R.Optional(t, key, R.TextsOf).Some?
    requires R.PathList(R.Optional(t, key, R.TextsOf).value, false).Some?
    ensures P.PathsIn(t, key) == R.PathList(R.Optional(t, key, R.TextsOf).value, false)
  {
    if key in t {
      PathsAgree(t[key], false);
    }
  }

  lemma {:induction false} AbsolutesAgree(t: Entries, key: string)
    requires NulFreeEntries(t) && R.Optional(t, key, R.TextsOf).Some?
    requires R.PathList(R.Optional(t, key, R.TextsOf).value, true).Some?
    ensures P.SomeIn(t, key, p => P.PathOf(true, p)) == R.PathList(R.Optional(t, key, R.TextsOf).value, true)
  {
    if key in t {
      PathsAgree(t[key], true);
    }
  }

  lemma {:induction false} SomeInAgrees<D, B>(t: Entries, key: string, read: Value -> Option<D>, build: D -> Option<B>,
                                              load: Value -> Option<B>)
    requires forall v :: NulFreeValue(v) && read(v).Some? && build(read(v).value).Some? ==> load(v) == build(read(v).value)
    requires NulFreeEntries(t) && R.Optional(t, key, w => R.ListOf(read, w)).Some?
    requires R.NonemptyList(R.Optional(t, key, w => R.ListOf(read, w)).value, build).Some?
    ensures P.SomeIn(t, key, load) == R.NonemptyList(R.Optional(t, key, w => R.ListOf(read, w)).value, build)
  {
    if key in t {
      assert NulFreeValue(t[key]);
      ListAgrees(read, build, load, t[key].items);
    }
  }

  lemma {:induction false} BindsInAgree(t: Entries, key: string)
    requires NulFreeEntries(t) && R.Optional(t, key, b => R.ListOf(R.BindDocOf, b)).Some?
    requires R.NonemptyList(R.Optional(t, key, b => R.ListOf(R.BindDocOf, b)).value, R.BindIrOf).Some?
    ensures P.SomeIn(t, key, P.BindOf) == R.NonemptyList(R.Optional(t, key, b => R.ListOf(R.BindDocOf, b)).value, R.BindIrOf)
  {
    forall v | NulFreeValue(v) && R.BindDocOf(v).Some? && R.BindIrOf(R.BindDocOf(v).value).Some?
      ensures P.BindOf(v) == R.BindIrOf(R.BindDocOf(v).value)
    {
      BindAgrees(v);
    }
    SomeInAgrees(t, key, R.BindDocOf, R.BindIrOf, P.BindOf);
  }

  lemma {:induction false} ObjectsInAgree(t: Entries, key: string)
    requires NulFreeEntries(t) && R.Optional(t, key, o => R.ListOf(R.ObjectDocOf, o)).Some?
    requires R.NonemptyList(R.Optional(t, key, o => R.ListOf(R.ObjectDocOf, o)).value, R.ObjectIrOf).Some?
    ensures P.SomeIn(t, key, P.ObjectOf)
         == R.NonemptyList(R.Optional(t, key, o => R.ListOf(R.ObjectDocOf, o)).value, R.ObjectIrOf)
  {
    forall v | NulFreeValue(v) && R.ObjectDocOf(v).Some? && R.ObjectIrOf(R.ObjectDocOf(v).value).Some?
      ensures P.ObjectOf(v) == R.ObjectIrOf(R.ObjectDocOf(v).value)
    {
      ObjectAgrees(v);
    }
    SomeInAgrees(t, key, R.ObjectDocOf, R.ObjectIrOf, P.ObjectOf);
  }

  lemma {:induction false} AddfdsInAgree(t: Entries, key: string)
    requires NulFreeEntries(t) && R.Optional(t, key, a => R.ListOf(R.AddfdDocOf, a)).Some?
    requires R.NonemptyList(R.Optional(t, key, a => R.ListOf(R.AddfdDocOf, a)).value, R.AddfdIrOf).Some?
    ensures P.SomeIn(t, key, P.AddfdOf)
         == R.NonemptyList(R.Optional(t, key, a => R.ListOf(R.AddfdDocOf, a)).value, R.AddfdIrOf)
  {
    forall v | NulFreeValue(v) && R.AddfdDocOf(v).Some? && R.AddfdIrOf(R.AddfdDocOf(v).value).Some?
      ensures P.AddfdOf(v) == R.AddfdIrOf(R.AddfdDocOf(v).value)
    {
      AddfdAgrees(v);
    }
    SomeInAgrees(t, key, R.AddfdDocOf, R.AddfdIrOf, P.AddfdOf);
  }

  // ----- sections

  /** The same policy up to the error number, which only counts with seccomp. */
  predicate Same(c: Ir, r: Ir) {
    c == r.(seccompErrno := c.seccompErrno)
  }

  predicate Carries(c: Ir, c': Ir, r: Ir, r': Ir) {
    Same(c', r') && c'.seccompErrno == c.seccompErrno && r'.seccompErrno == r.seccompErrno
    && c'.seccompEnabled == c.seccompEnabled
  }

  lemma {:induction false} NetAgrees(c: Ir, r: Ir, v: Value)
    requires Same(c, r) && NulFreeValue(v) && R.NetDocOf(v).Some? && R.NetIr(r, R.NetDocOf(v).value).Some?
    ensures P.NetIn(c, v.entries).Some?
    ensures Carries(c, P.NetIn(c, v.entries).value, r, R.NetIr(r, R.NetDocOf(v).value).value)
  {
    AccessAgrees(v.entries["handled_access_net"], P.NET_ACCESS, R.NET_TABLE);
    if "rule" in v.entries {
      forall n | NulFreeValue(n) && R.NetRuleDocOf(n).Some? && R.NetRuleIrOf(R.NetRuleDocOf(n).value).Some?
        ensures P.NetRuleOf(n) == R.NetRuleIrOf(R.NetRuleDocOf(n).value)
      {
        NetRuleAgrees(n);
      }
      assert NulFreeValue(v.entries["rule"]);
      ListAgrees(R.NetRuleDocOf, R.NetRuleIrOf, P.NetRuleOf, v.entries["rule"].items);
    }
  }

  lemma {:induction false} BrokerAgrees(c: Ir, r: Ir, v: Value)
    requires Same(c, r) && NulFreeValue(v) && R.BrokerDocOf(v).Some? && R.BrokerIr(r, R.BrokerDocOf(v).value).Some?
    ensures P.BrokerIn(c, v.entries).Some?
    ensures Carries(c, P.BrokerIn(c, v.entries).value, r, R.BrokerIr(r, R.BrokerDocOf(v).value).value)
  {
    var t := v.entries;
    PathsInAgree(t, "allow_read");
    PathsInAgree(t, "allow_write");
    PathsInAgree(t, "scratch");
    PathsInAgree(t, "export");
    PathsInAgree(t, "mount_tmpfs");
    BindsInAgree(t, "mount_bind");
    ObjectsInAgree(t, "mount_object");
    AddfdsInAgree(t, "addfd");
  }

  lemma {:induction false} MountAgrees(c: Ir, r: Ir, v: Value)
    requires Same(c, r) && NulFreeValue(v) && R.MountDocOf(v).Some? && R.MountIr(r, R.MountDocOf(v).value).Some?
    ensures P.MountIn(c, v.entries).Some?
    ensures Carries(c, P.MountIn(c, v.entries).value, r, R.MountIr(r, R.MountDocOf(v).value).value)
  {
    AbsolutesAgree(v.entries, "tmpfs");
    BindsInAgree(v.entries, "bind");
    AbsolutesAgree(v.entries, "proc");
  }

  lemma {:induction false} RuntimeAgrees(c: Ir, r: Ir, v: Value)
    requires Same(c, r) && NulFreeValue(v) && R.RuntimeDocOf(v).Some? && R.RuntimeIr(r, R.RuntimeDocOf(v).value).Some?
    ensures P.RuntimeIn(c, v.entries).Some?
    ensures Carries(c, P.RuntimeIn(c, v.entries).value, r, R.RuntimeIr(r, R.RuntimeDocOf(v).value).value)
  {
    if "root" in v.entries {
      TextAgrees(v.entries["root"]);
    }
    if "cwd" in v.entries {
      TextAgrees(v.entries["cwd"]);
    }
  }

  lemma {:induction false} DeniesAgree(deny: Value, sys: P.Syscalls)
    requires NulFreeValue(deny) && R.TextsOf(deny).Some?
    requires MapAll(name => R.DenyOf(sys, name), R.TextsOf(deny).value).Some?
    ensures deny.Array?
    ensures MapAll(w => P.DenyOf(sys, w), deny.items) == MapAll(name => R.DenyOf(sys, name), R.TextsOf(deny).value)
  {
    TextsAgree(deny);
    var names := R.TextsOf(deny).value;
    MapAllAt(name => R.DenyOf(sys, name), names);
    var numbers := MapAll(name => R.DenyOf(sys, name), names).value;
    forall i | 0 <= i < |names| ensures P.DenyOf(sys, deny.items[i]) == Some(numbers[i]) {
      assert R.DenyOf(sys, names[i]) == Some(numbers[i]);
    }
    MapAllIs(w => P.DenyOf(sys, w), deny.items, numbers);
  }

  /** The default error number is 1 on both sides. */
  lemma {:induction false} SeccompAgrees(c: Ir, r: Ir, v: Value, sys: P.Syscalls)
    requires Same(c, r) && r.seccompErrno == 1 && NulFreeValue(v) && R.SeccompDocOf(v).Some?
    requires R.SeccompIr(r, R.SeccompDocOf(v).value, sys).Some?
    ensures P.SeccompIn(c, v.entries, sys) == R.SeccompIr(r, R.SeccompDocOf(v).value, sys)
  {
    DeniesAgree(v.entries["deny"], sys);
  }

  lemma {:induction false} SectionAgrees<D>(c: Ir, r: Ir, doc: Entries, key: string, read: Value -> Option<D>,
                                            build: (Ir, D) -> Option<Ir>, load: (Ir, Entries) -> Option<Ir>)
    requires Same(c, r) && NulFreeEntries(doc) && R.Optional(doc, key, read).Some?
    requires R.OptionalSection(r, R.Optional(doc, key, read).value, build).Some?
    requires forall v :: read(v).Some? ==> v.Table?
    requires forall v :: NulFreeValue(v) && read(v).Some? && build(r, read(v).value).Some? ==>
      load(c, v.entries).Some? && Carries(c, load(c, v.entries).value, r, build(r, read(v).value).value)
    ensures P.Section(c, doc, key, load).Some?
    ensures Carries(c, P.Section(c, doc, key, load).value, r,
                    R.OptionalSection(r, R.Optional(doc, key, read).value, build).value)
  {
    if key in doc {
      assert NulFreeValue(doc[key]);
    }
  }

  lemma {:induction false} LayersAgree(doc: Entries)
    requires NulFreeEntries(doc) && R.Defaulted(doc, "fs_layer", R.FsLayerDocOf).Some?
    requires MapAll(R.FsLayerIrOf, R.Defaulted(doc, "fs_layer", R.FsLayerDocOf).value).Some?
    ensures P.LayersIn(doc) == MapAll(R.FsLayerIrOf, R.Defaulted(doc, "fs_layer", R.FsLayerDocOf).value)
  {
    if "fs_layer" in doc {
      forall v | NulFreeValue(v) && R.FsLayerDocOf(v).Some? && R.FsLayerIrOf(R.FsLayerDocOf(v).value).Some?
        ensures P.LayerOf(v) == R.FsLayerIrOf(R.FsLayerDocOf(v).value)
      {
        LayerAgrees(v);
      }
      assert NulFreeValue(doc["fs_layer"]);
      ListAgrees(R.FsLayerDocOf, R.FsLayerIrOf, P.LayerOf, doc["fs_layer"].items);
    }
  }

  lemma {:induction false} AccessSectionsAgree(c: Ir, r: Ir, doc: Entries, d: R.Doc)
    requires Same(c, r) && NulFreeEntries(doc)
    requires R.Optional(doc, "net", R.NetDocOf) == Some(d.net) && R.Optional(doc, "broker", R.BrokerDocOf) == Some(d.broker)
    requires R.AccessSections(r, d).Some?
    ensures P.AccessSections(c, doc).Some?
    ensures Carries(c, P.AccessSections(c, doc).value, r, R.AccessSections(r, d).value)
  {
    forall v | NulFreeValue(v) && R.NetDocOf(v).Some? && R.NetIr(r, R.NetDocOf(v).value).Some?
      ensures P.NetIn(c, v.entries).Some?
        && Carries(c, P.NetIn(c, v.entries).value, r, R.NetIr(r, R.NetDocOf(v).value).value)
    {
      NetAgrees(c, r, v);
    }
    SectionAgrees(c, r, doc, "net", R.NetDocOf, R.NetIr, P.NetIn);
    var c1, r1 := P.Section(c, doc, "net", P.NetIn).value, R.OptionalSection(r, d.net, R.NetIr).value;
    forall v | NulFreeValue(v) && R.BrokerDocOf(v).Some? && R.BrokerIr(r1, R.BrokerDocOf(v).value).Some?
      ensures P.BrokerIn(c1, v.entries).Some?
        && Carries(c1, P.BrokerIn(c1, v.entries).value, r1, R.BrokerIr(r1, R.BrokerDocOf(v).value).value)
    {
      BrokerAgrees(c1, r1, v);
    }
    SectionAgrees(c1, r1, doc, "broker", R.BrokerDocOf, R.BrokerIr, P.BrokerIn);
  }

  predicate Agree(c: Ir, r: Ir) {
    Same(c, r) && (c.seccompEnabled ==> c == r)
  }

  lemma {:induction false} RunSectionsAgree(c: Ir, r: Ir, doc: Entries, d: R.Doc, sys: P.Syscalls)
    requires Same(c, r) && r.seccompErrno == 1 && !c.seccompEnabled && NulFreeEntries(doc)
    requires R.Optional(doc, "mount", R.MountDocOf) == Some(d.mount)
    requires R.Optional(doc, "runtime", R.RuntimeDocOf) == Some(d.runtime)
    requires R.Optional(doc, "seccomp", R.SeccompDocOf) == Some(d.seccomp)
    requires R.RunSections(r, d, sys).Some?
    ensures P.RunSections(c, doc, sys).Some? && Agree(P.RunSections(c, doc, sys).value, R.RunSections(r, d, sys).value)
  {
    forall v | NulFreeValue(v) && R.MountDocOf(v).Some? && R.MountIr(r, R.MountDocOf(v).value).Some?
      ensures P.MountIn(c, v.entries).Some?
        && Carries(c, P.MountIn(c, v.entries).value, r, R.MountIr(r, R.MountDocOf(v).value).value)
    {
      MountAgrees(c, r, v);
    }
    SectionAgrees(c, r, doc, "mount", R.MountDocOf, R.MountIr, P.MountIn);
    var c1, r1 := P.Section(c, doc, "mount", P.MountIn).value, R.OptionalSection(r, d.mount, R.MountIr).value;
    forall v | NulFreeValue(v) && R.RuntimeDocOf(v).Some? && R.RuntimeIr(r1, R.RuntimeDocOf(v).value).Some?
      ensures P.RuntimeIn(c1, v.entries).Some?
        && Carries(c1, P.RuntimeIn(c1, v.entries).value, r1, R.RuntimeIr(r1, R.RuntimeDocOf(v).value).value)
    {
      RuntimeAgrees(c1, r1, v);
    }
    SectionAgrees(c1, r1, doc, "runtime", R.RuntimeDocOf, R.RuntimeIr, P.RuntimeIn);
    var c2, r2 := P.Section(c1, doc, "runtime", P.RuntimeIn).value, R.OptionalSection(r1, d.runtime, R.RuntimeIr).value;
    if "seccomp" in doc {
      assert NulFreeValue(doc["seccomp"]);
      SeccompAgrees(c2, r2, doc["seccomp"], sys);
    }
  }

  lemma {:induction false} DocParts(doc: Entries, d: R.Doc)
    requires R.DocOf(doc) == Some(d)
    ensures OnlyKeys(doc, P.ROOT_KEYS) && (d.version == 1 <==> IntIn(doc, "version") == Some(1))
    ensures R.Defaulted(doc, "fs_layer", R.FsLayerDocOf) == Some(d.fsLayers)
    ensures R.Optional(doc, "net", R.NetDocOf) == Some(d.net) && R.Optional(doc, "broker", R.BrokerDocOf) == Some(d.broker)
    ensures R.Optional(doc, "mount", R.MountDocOf) == Some(d.mount)
    ensures R.Optional(doc, "runtime", R.RuntimeDocOf) == Some(d.runtime)
    ensures R.Optional(doc, "seccomp", R.SeccompDocOf) == Some(d.seccomp)
  {
  }

  /** The helper accepts no NUL-free document that the C loader rejects, and the
      two policies differ at most in an error number that nothing uses. */
  lemma {:induction false} HelperAgrees(doc: Entries, sys: P.Syscalls)
    requires NulFreeEntries(doc) && R.Load(doc, sys).Some?
    ensures P.Load(doc, sys).Some? && Agree(P.Load(doc, sys).value, R.Load(doc, sys).value)
  {
    var d := R.DocOf(doc).value;
    DocParts(doc, d);
    LayersAgree(doc);
    var layers := MapAll(R.FsLayerIrOf, d.fsLayers).value;
    var c, r := EMPTY.(fsLayers := layers), R.START.(fsLayers := layers);
    AccessSectionsAgree(c, r, doc, d);
    RunSectionsAgree(P.AccessSections(c, doc).value, R.AccessSections(r, d).value, doc, d, sys);
  }

  /** The helper route refines in-process loading: what landlockd decodes from
      the helper's bytes is the policy that it would have loaded itself. */
  lemma {:induction false} RustRouteRefinesLoading(doc: Entries, sys: P.Syscalls)
    requires NulFreeEntries(doc) && SmallEntries(doc) && R.Load(doc, sys).Some?
    ensures P.Load(doc, sys).Some?
    ensures var written := RustWrite.Written(R.Load(doc, sys).value);
      written.Some? && Wire.Decode(false, written.value) == P.Load(doc, sys)
  {
    HelperAgrees(doc, sys);
    PolicyDocTheorems.LoadedIsWellFormed(doc, sys);
    WrittenDecodes(P.Load(doc, sys).value, R.Load(doc, sys).value);
  }

  /** Nor does the helper's writer refuse or change what the loader reads, whatever
      error number it sends while seccomp is off. */
  lemma {:induction false} WrittenDecodes(c: Ir, r: Ir)
    requires WellFormed(c) && Agree(c, r)
    ensures RustWrite.Written(r).Some? && Wire.Decode(false, RustWrite.Written(r).value) == Some(c)
  {
    WritesWellFormed(c, r);
    SentDecodes(c, r);
  }

  lemma {:induction false} WritesWellFormed(c: Ir, r: Ir)
    requires WellFormed(c) && Same(c, r)
    ensures RustWrite.Written(r) == Some(Wire.Encode(r))
  {
    RustWire.WellFormedFits(c);
    SameStrings(c, r);
    RustWire.WrittenIsEncoded(r);
  }

  lemma {:induction false} SameStrings(c: Ir, r: Ir)
    requires Same(c, r) && RustWrite.StringsFit(c)
    ensures RustWrite.StringsFit(r)
  {
  }

  lemma {:induction false} SentDecodes(c: Ir, r: Ir)
    requires WellFormed(c) && Agree(c, r)
    ensures Wire.Decode(false, Wire.Encode(r)) == Some(c)
  {
    SentHeader(c, r);
    SentText(c, r);
    WireTheorems.EncodedDecodes(Wire.HeaderFor(r), c, false);
  }

  lemma {:induction false} SentHeader(c: Ir, r: Ir)
    requires Agree(c, r)
    ensures WireTheorems.HeaderFits(Wire.HeaderFor(r), c)
  {
  }

  lemma {:induction false} SentText(c: Ir, r: Ir)
    requires Same(c, r)
    ensures Wire.Encode(r) == Wire.EncodeWith(Wire.HeaderFor(r), c)
  {
    assert Wire.BodyOf(r) == Wire.BodyOf(c);
  }

  lemma {:induction false} BareDocument(doc: Entries)
    requires doc.Keys == {"version", "net"} && doc["version"] == Int(1) && doc["net"] == Int(0)
    ensures P.AccessSections(EMPTY, doc) == Some(EMPTY) && P.RunSections(EMPTY, doc, map[]) == Some(EMPTY)
    ensures P.LayersIn(doc) == Some([]) && R.Optional(doc, "net", R.NetDocOf).None?
  {
    assert TableIn(doc, "broker").None? && TableIn(doc, "mount").None?;
    assert TableIn(doc, "runtime").None? && TableIn(doc, "seccomp").None?;
  }

  /** The converse fails: the C loader ignores a section that is not a table,
      the helper refuses it. */
  lemma {:induction false} MistypedSection()
    ensures var doc: Entries := map["version" := Int(1), "net" := Int(0)];
      NulFreeEntries(doc) && P.Load(doc, map[]) == Some(EMPTY) && R.Load(doc, map[]).None?
  {
    var doc: Entries := map["version" := Int(1), "net" := Int(0)];
    assert doc.Keys == {"version", "net"};
    BareDocument(doc);
    assert EMPTY.(fsLayers := []) == EMPTY;
  }
}
