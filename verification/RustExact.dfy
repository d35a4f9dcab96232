/** Exactly which documents the Rust helper accepts, in terms of in-process
    loading. */
module RustExact {
  import opened Bytes
  import opened PolicyIr
  import opened RustTheorems
  import opened Toml
  import P = PolicyDoc
  import R = RustHelper

  // ----- values

  predicate Named(table: P.Names16) {
    forall i :: 0 <= i < |table| ==> table[i].0 != ""
  }

  lemma {:induction false} FoundIsNamed(table: P.Names16, name: Str)
    requires Named(table) && P.FindBit(table, name).Some?
    ensures name != []
  {
    if table[0].0 != name {
      FoundIsNamed(table[1..], name);
    }
  }

  lemma {:induction false} AccessBack(v: Value, table: P.Names16, other: P.Names16)
    requires SameBits(table, other) && Named(table) && NulFreeValue(v) && R.TextsOf(v).Some? && P.AccessOf(v.items, table).Some?
    ensures R.AccessList(R.TextsOf(v).value, other).Some?
  {
    var texts := R.TextsOf(v).value;
    TextsAgree(v);
    MapAllAt(w => P.NamedBit(table, w), v.items);
    forall i | 0 <= i < |texts| ensures R.BitOf(other, texts[i]).Some? {
      assert P.NamedBit(table, v.items[i]).Some? && StringOf(v.items[i]) == Some(texts[i]);
      FoundIsNamed(table, texts[i]);
    }
    MapAllAt(item => R.BitOf(other, item), texts);
  }

  lemma {:induction false} FsAccessBack(t: Entries, key: string)
    requires NulFreeEntries(t) && R.Required(t, key, R.TextsOf).Some? && P.AccessIn(t, key, P.FS_ACCESS).Some?
    ensures R.AccessList(R.Required(t, key, R.TextsOf).value, R.FS_TABLE).Some?
  {
    assert NulFreeValue(t[key]);
    AccessBack(t[key], P.FS_ACCESS, R.FS_TABLE);
  }

  lemma {:induction false} ListBack<D, B>(read: Value -> Option<D>, build: D -> Option<B>, load: Value -> Option<B>,
                                          items: seq<Value>)
    requires forall v :: NulFreeValue(v) && read(v).Some? && load(v).Some? ==> build(read(v).value).Some?
    requires NulFreeValue(Array(items)) && MapAll(read, items).Some? && MapAll(load, items).Some?
    ensures MapAll(build, MapAll(read, items).value).Some?
    ensures |MapAll(read, items).value| == |items|
  {
    var docs := MapAll(read, items).value;
    MapAllAt(read, items);
    MapAllAt(load, items);
    forall i | 0 <= i < |docs| ensures build(docs[i]).Some? {
      assert NulFreeValue(items[i]) && read(items[i]) == Some(docs[i]) && load(items[i]).Some?;
    }
    MapAllAt(build, docs);
  }

  lemma {:induction false} PathsBack(v: Value, absolute: bool)
    requires NulFreeValue(v) && R.TextsOf(v).Some? && v.items != []
    requires MapAll(p => P.PathOf(absolute, p), v.items).Some?
    ensures R.PathList(R.TextsOf(v), absolute).Some?
  {
    var texts := R.TextsOf(v).value;
    TextsAgree(v);
    MapAllAt(p => P.PathOf(absolute, p), v.items);
    forall i | 0 <= i < |texts| ensures R.Acceptable(absolute, texts[i]) {
      assert P.PathOf(absolute, v.items[i]).Some? && StringOf(v.items[i]) == Some(texts[i]);
    }
  }

  // ----- elements

  lemma {:induction false} FsRuleBack(v: Value)
    requires NulFreeValue(v) && R.FsRuleDocOf(v).Some? && P.FsRuleOf(v).Some?
    ensures R.FsRuleIrOf(R.FsRuleDocOf(v).value).Some?
  {
    TextAgrees(v.entries["path"]);
    FsAccessBack(v.entries, "allowed_access");
  }

  lemma {:induction false} FsRulesBack(t: Entries)
    requires NulFreeEntries(t) && R.Defaulted(t, "rule", R.FsRuleDocOf).Some? && P.RulesIn(t, P.FsRuleOf).Some?
    ensures MapAll(R.FsRuleIrOf, R.Defaulted(t, "rule", R.FsRuleDocOf).value).Some?
  {
    if "rule" in t {
      forall r | NulFreeValue(r) && R.FsRuleDocOf(r).Some? && P.FsRuleOf(r).Some?
        ensures R.FsRuleIrOf(R.FsRuleDocOf(r).value).Some?
      {
        FsRuleBack(r);
      }
      assert NulFreeValue(t["rule"]);
      ListBack(R.FsRuleDocOf, R.FsRuleIrOf, P.FsRuleOf, t["rule"].items);
    }
  }

  lemma {:induction false} LayerBack(v: Value)
    requires NulFreeValue(v) && R.FsLayerDocOf(v).Some? && P.LayerOf(v).Some?
    ensures R.FsLayerIrOf(R.FsLayerDocOf(v).value).Some?
  {
    assert NulFreeEntries(v.entries);
    FsAccessBack(v.entries, "handled_access_fs");
    FsRulesBack(v.entries);
  }

  lemma {:induction false} NetRuleBack(v: Value)
    requires NulFreeValue(v) && R.NetRuleDocOf(v).Some? && P.NetRuleOf(v).Some?
    ensures R.NetRuleIrOf(R.NetRuleDocOf(v).value).Some?
  {
    AccessBack(v.entries["allowed_access"], P.NET_ACCESS, R.NET_TABLE);
  }

  lemma {:induction false} BindBack(v: Value)
    requires NulFreeValue(v) && R.BindDocOf(v).Some? && P.BindOf(v).Some?
    ensures R.BindIrOf(R.BindDocOf(v).value).Some?
  {
    TextAgrees(v.entries["source"]);
    TextAgrees(v.entries["target"]);
  }

  lemma {:induction false} AddfdBack(v: Value)
    requires NulFreeValue(v) && R.AddfdDocOf(v).Some? && P.AddfdOf(v).Some?
    ensures R.AddfdIrOf(R.AddfdDocOf(v).value).Some?
  {
    TextAgrees(v.entries["action"]);
    TextAgrees(v.entries["target"]);
    if "mode" in v.entries {
      TextAgrees(v.entries["mode"]);
    }
  }

  lemma {:induction false} ObjectBack(v: Value)
    requires NulFreeValue(v) && R.ObjectDocOf(v).Some? && P.ObjectOf(v).Some?
    ensures R.ObjectIrOf(R.ObjectDocOf(v).value).Some?
  {
    TextAgrees(v.entries["name"]);
    TextAgrees(v.entries["fs_type"]);
    var attach := v.entries["attach"];
    TextsAgree(attach);
    PathsBack(attach, true);
    forall i | 0 <= i < |R.TextsOf(attach).value| ensures P.Absolute(R.TextsOf(attach).value[i]) {
      assert R.Acceptable(true, R.TextsOf(attach).value[i]);
    }
    if "attrs" in v.entries {
      AccessBack(v.entries["attrs"], P.MOUNT_ATTRS, R.ATTR_TABLE);
    }
  }

  // ----- lists of a section

  /** A list that is there has an element. */
  predicate Filled(t: Entries, key: string) {
    ArrayIn(t, key) != Some([])
  }

  lemma {:induction false} PathsInBack(t: Entries, key: string)
    requires NulFreeEntries(t) && R.Optional(t, key, R.TextsOf).Some? && P.PathsIn(t, key).Some?
    ensures R.PathList(R.Optional(t, key, R.TextsOf).value, false).Some? <==> Filled(t, key)
  {
    if key in t {
      TextsAgree(t[key]);
      if Filled(t, key) {
        PathsBack(t[key], false);
      }
    }
  }

  lemma {:induction false} AbsolutesBack(t: Entries, key: string)
    requires NulFreeEntries(t) && R.Optional(t, key, R.TextsOf).Some? && P.SomeIn(t, key, p => P.PathOf(true, p)).Some?
    ensures R.PathList(R.Optional(t, key, R.TextsOf).value, true).Some?
  {
    if key in t {
      PathsBack(t[key], true);
    }
  }

  lemma {:induction false} SomeInBack<D, B>(t: Entries, key: string, read: Value -> Option<D>, build: D -> Option<B>,
                                            load: Value -> Option<B>)
    requires forall v :: NulFreeValue(v) && read(v).Some? && load(v).Some? ==> build(read(v).value).Some?
    requires NulFreeEntries(t) && R.Optional(t, key, w => R.ListOf(read, w)).Some? && P.SomeIn(t, key, load).Some?
    ensures R.NonemptyList(R.Optional(t, key, w => R.ListOf(read, w)).value, build).Some?
  {
    if key in t {
      assert NulFreeValue(t[key]);
      ListBack(read, build, load, t[key].items);
    }
  }

  lemma {:induction false} BindsInBack(t: Entries, key: string)
    requires NulFreeEntries(t) && R.Optional(t, key, b => R.ListOf(R.BindDocOf, b)).Some? && P.SomeIn(t, key, P.BindOf).Some?
    ensures R.NonemptyList(R.Optional(t, key, b => R.ListOf(R.BindDocOf, b)).value, R.BindIrOf).Some?
  {
    forall v | NulFreeValue(v) && R.BindDocOf(v).Some? && P.BindOf(v).Some? ensures R.BindIrOf(R.BindDocOf(v).value).Some? {
      BindBack(v);
    }
    SomeInBack(t, key, R.BindDocOf, R.BindIrOf, P.BindOf);
  }

  lemma {:induction false} ObjectsInBack(t: Entries, key: string)
    requires NulFreeEntries(t) && R.Optional(t, key, o => R.ListOf(R.ObjectDocOf, o)).Some?
    requires P.SomeIn(t, key, P.ObjectOf).Some?
    ensures R.NonemptyList(R.Optional(t, key, o => R.ListOf(R.ObjectDocOf, o)).value, R.ObjectIrOf).Some?
  {
    forall v | NulFreeValue(v) && R.ObjectDocOf(v).Some? && P.ObjectOf(v).Some?
      ensures R.ObjectIrOf(R.ObjectDocOf(v).value).Some?
    {
      ObjectBack(v);
    }
    SomeInBack(t, key, R.ObjectDocOf, R.ObjectIrOf, P.ObjectOf);
  }

  lemma {:induction false} AddfdsInBack(t: Entries, key: string)
    requires NulFreeEntries(t) && R.Optional(t, key, a => R.ListOf(R.AddfdDocOf, a)).Some?
    requires P.SomeIn(t, key, P.AddfdOf).Some?
    ensures R.NonemptyList(R.Optional(t, key, a => R.ListOf(R.AddfdDocOf, a)).value, R.AddfdIrOf).Some?
  {
    forall v | NulFreeValue(v) && R.AddfdDocOf(v).Some? && P.AddfdOf(v).Some?
      ensures R.AddfdIrOf(R.AddfdDocOf(v).value).Some?
    {
      AddfdBack(v);
    }
    SomeInBack(t, key, R.AddfdDocOf, R.AddfdIrOf, P.AddfdOf);
  }

  // ----- sections

  /** The five path lists of the broker section: the C loader takes an empty one
      for none, the helper refuses it. */
  predicate ListsFilled(t: Entries) {
    Filled(t, "allow_read") && Filled(t, "allow_write") && Filled(t, "scratch") && Filled(t, "export")
    && Filled(t, "mount_tmpfs")
  }

  lemma {:induction false} NetBack(c: Ir, r: Ir, v: Value)
    requires NulFreeValue(v) && R.NetDocOf(v).Some? && P.NetIn(c, v.entries).Some?
    ensures R.NetIr(r, R.NetDocOf(v).value).Some?
  {
    AccessBack(v.entries["handled_access_net"], P.NET_ACCESS, R.NET_TABLE);
    if "rule" in v.entries {
      forall n | NulFreeValue(n) && R.NetRuleDocOf(n).Some? && P.NetRuleOf(n).Some?
        ensures R.NetRuleIrOf(R.NetRuleDocOf(n).value).Some?
      {
        NetRuleBack(n);
      }
      assert NulFreeValue(v.entries["rule"]);
      ListBack(R.NetRuleDocOf, R.NetRuleIrOf, P.NetRuleOf, v.entries["rule"].items);
    }
  }

  lemma {:induction false} BrokerBack(c: Ir, r: Ir, v: Value)
    requires NulFreeValue(v) && R.BrokerDocOf(v).Some? && P.BrokerIn(c, v.entries).Some?
    ensures R.BrokerIr(r, R.BrokerDocOf(v).value).Some? <==> ListsFilled(v.entries)
  {
    var t := v.entries;
    PathsInBack(t, "allow_read");
    PathsInBack(t, "allow_write");
    PathsInBack(t, "scratch");
    PathsInBack(t, "export");
    PathsInBack(t, "mount_tmpfs");
    BindsInBack(t, "mount_bind");
    ObjectsInBack(t, "mount_object");
    AddfdsInBack(t, "addfd");
  }

  lemma {:induction false} MountBack(c: Ir, r: Ir, v: Value)
    requires NulFreeValue(v) && R.MountDocOf(v).Some? && P.MountIn(c, v.entries).Some?
    ensures R.MountIr(r, R.MountDocOf(v).value).Some?
  {
    AbsolutesBack(v.entries, "tmpfs");
    BindsInBack(v.entries, "bind");
    AbsolutesBack(v.entries, "proc");
    AbsolutesAgree(v.entries, "tmpfs");
    BindsInAgree(v.entries, "bind");
    AbsolutesAgree(v.entries, "proc");
  }

  lemma {:induction false} RuntimeBack(c: Ir, r: Ir, v: Value)
    requires NulFreeValue(v) && R.RuntimeDocOf(v).Some? && P.RuntimeIn(c, v.entries).Some?
    ensures R.RuntimeIr(r, R.RuntimeDocOf(v).value).Some?
  {
    if "root" in v.entries {
      TextAgrees(v.entries["root"]);
    }
    if "cwd" in v.entries {
      TextAgrees(v.entries["cwd"]);
    }
  }

  lemma {:induction false} DeniesBack(deny: Value, sys: P.Syscalls)
    requires NulFreeValue(deny) && R.TextsOf(deny).Some? && MapAll(w => P.DenyOf(sys, w), deny.items).Some?
    ensures MapAll(name => R.DenyOf(sys, name), R.TextsOf(deny).value).Some?
  {
    TextsAgree(deny);
    var names := R.TextsOf(deny).value;
    MapAllAt(w => P.DenyOf(sys, w), deny.items);
    forall i | 0 <= i < |names| ensures R.DenyOf(sys, names[i]).Some? {
      assert P.DenyOf(sys, deny.items[i]).Some? && StringOf(deny.items[i]) == Some(names[i]);
    }
    MapAllAt(name => R.DenyOf(sys, name), names);
  }

  lemma {:induction false} SeccompBack(c: Ir, r: Ir, v: Value, sys: P.Syscalls)
    requires NulFreeValue(v) && R.SeccompDocOf(v).Some? && P.SeccompIn(c, v.entries, sys).Some?
    ensures R.SeccompIr(r, R.SeccompDocOf(v).value, sys).Some?
  {
    var deny := v.entries["deny"];
    TextsAgree(deny);
    DeniesBack(deny, sys);
  }

  lemma {:induction false} LayersBack(doc: Entries)
    requires NulFreeEntries(doc) && R.Defaulted(doc, "fs_layer", R.FsLayerDocOf).Some? && P.LayersIn(doc).Some?
    ensures MapAll(R.FsLayerIrOf, R.Defaulted(doc, "fs_layer", R.FsLayerDocOf).value).Some?
  {
    if "fs_layer" in doc {
      forall v | NulFreeValue(v) && R.FsLayerDocOf(v).Some? && P.LayerOf(v).Some?
        ensures R.FsLayerIrOf(R.FsLayerDocOf(v).value).Some?
      {
        LayerBack(v);
      }
      assert NulFreeValue(doc["fs_layer"]);
      ListBack(R.FsLayerDocOf, R.FsLayerIrOf, P.LayerOf, doc["fs_layer"].items);
    }
  }

  // ----- documents

  /** No path list of the broker section is empty. */
  predicate NoEmptyList(doc: Entries) {
    var broker := TableIn(doc, "broker");
    broker.Some? ==> ListsFilled(broker.value)
  }

  lemma {:induction false} AccessSectionsBack(c: Ir, r: Ir, doc: Entries, d: R.Doc)
    requires NulFreeEntries(doc)
    requires R.Optional(doc, "net", R.NetDocOf) == Some(d.net) && R.Optional(doc, "broker", R.BrokerDocOf) == Some(d.broker)
    requires P.AccessSections(c, doc).Some?
    ensures R.AccessSections(r, d).Some? <==> NoEmptyList(doc)
  {
    if "net" in doc {
      NetBack(c, r, doc["net"]);
    }
    if "broker" in doc {
      assert NulFreeValue(doc["broker"]);
      BrokerBack(P.Section(c, doc, "net", P.NetIn).value, R.OptionalSection(r, d.net, R.NetIr).value, doc["broker"]);
    }
  }

  lemma {:induction false} RunSectionsBack(c: Ir, r: Ir, doc: Entries, d: R.Doc, sys: P.Syscalls)
    requires NulFreeEntries(doc)
    requires R.Optional(doc, "mount", R.MountDocOf) == Some(d.mount)
    requires R.Optional(doc, "runtime", R.RuntimeDocOf) == Some(d.runtime)
    requires R.Optional(doc, "seccomp", R.SeccompDocOf) == Some(d.seccomp)
    requires P.RunSections(c, doc, sys).Some?
    ensures R.RunSections(r, d, sys).Some?
  {
    if "mount" in doc {
      MountBack(c, r, doc["mount"]);
    }
    var c1, r1 := P.Section(c, doc, "mount", P.MountIn).value, R.OptionalSection(r, d.mount, R.MountIr).value;
    if "runtime" in doc {
      RuntimeBack(c1, r1, doc["runtime"]);
    }
    var c2, r2 := P.Section(c1, doc, "runtime", P.RuntimeIn).value, R.OptionalSection(r1, d.runtime, R.RuntimeIr).value;
    if "seccomp" in doc {
      SeccompBack(c2, r2, doc["seccomp"], sys);
    }
  }

  lemma {:induction false} BuildBack(doc: Entries, d: R.Doc, sys: P.Syscalls)
    requires NulFreeEntries(doc) && R.DocOf(doc) == Some(d) && d.version == 1 && P.Load(doc, sys).Some?
    ensures R.BuildIr(d, sys).Some? <==> NoEmptyList(doc)
  {
    DocParts(doc, d);
    LayersBack(doc);
    LayersAgree(doc);
    var layers := P.LayersIn(doc).value;
    AccessSectionsBack(EMPTY.(fsLayers := layers), R.START.(fsLayers := layers), doc, d);
    if NoEmptyList(doc) {
      RunSectionsBack(P.AccessSections(EMPTY.(fsLayers := layers), doc).value,
                      R.AccessSections(R.START.(fsLayers := layers), d).value, doc, d, sys);
    }
  }

  lemma {:induction false} LoadedVersion(doc: Entries, sys: P.Syscalls)
    requires P.Load(doc, sys).Some?
    ensures IntIn(doc, "version") == Some(1)
  {
  }

  /** The helper accepts exactly the documents that the C loader accepts, that
      give every value the declared type, and in which no path list of the broker
      section is empty. */
  lemma {:induction false} HelperAcceptsIff(doc: Entries, sys: P.Syscalls)
    requires NulFreeEntries(doc)
    ensures R.Load(doc, sys).Some? <==> P.Load(doc, sys).Some? && R.DocOf(doc).Some? && NoEmptyList(doc)
  {
    if R.Load(doc, sys).Some? {
      HelperAgrees(doc, sys);
    }
    if P.Load(doc, sys).Some? && R.DocOf(doc).Some? {
      LoadedVersion(doc, sys);
      DocParts(doc, R.DocOf(doc).value);
      BuildBack(doc, R.DocOf(doc).value, sys);
    }
  }

  /** An empty list that only the C loader accepts. */
  lemma {:induction false} EmptyList()
    ensures var doc: Entries := map["version" := Int(1), "broker" := Table(map["allow_read" := Array([])])];
      P.Load(doc, map[]).Some? && R.DocOf(doc).Some? && R.Load(doc, map[]).None?
  {
  }
}
