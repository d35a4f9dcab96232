/** Every policy that the in-process loader accepts can travel over the wire. */
module PolicyDocTheorems {
  import opened Bytes
  import opened PolicyDoc
  import opened PolicyIr
  import opened Toml
  import Wire
  import WireTheorems

  lemma {:induction false} ListIsValid<T(!new)>(f: Value -> Option<T>, p: T -> bool, items: seq<Value>)
    requires forall v :: Small(v) && f(v).Some? ==> p(f(v).value)
    requires Small(Array(items)) && MapAll(f, items).Some?
    ensures |MapAll(f, items).value| == |items| < TWO_32
    ensures forall i :: 0 <= i < |MapAll(f, items).value| ==> p(MapAll(f, items).value[i])
  {
    MapAllAt(f, items);
  }

  lemma {:induction false} PathsAreNames(absolute: bool, items: seq<Value>)
    requires Small(Array(items)) && MapAll(p => PathOf(absolute, p), items).Some?
    ensures Names(MapAll(p => PathOf(absolute, p), items).value)
    ensures |MapAll(p => PathOf(absolute, p), items).value| == |items|
  {
    ListIsValid(p => PathOf(absolute, p), Name, items);
  }

  lemma {:induction false} FsRuleIsValid(v: Value)
    requires Small(v) && FsRuleOf(v).Some?
    ensures ValidFsRule(FsRuleOf(v).value)
  {
  }

  lemma {:induction false} LayerIsValid(v: Value)
    requires Small(v) && PolicyDoc.LayerOf(v).Some?
    ensures ValidLayer(PolicyDoc.LayerOf(v).value)
  {
    forall r | Small(r) && FsRuleOf(r).Some? ensures ValidFsRule(FsRuleOf(r).value) {
      FsRuleIsValid(r);
    }
    if ArrayIn(v.entries, "rule").Some? {
      ListIsValid(FsRuleOf, ValidFsRule, ArrayIn(v.entries, "rule").value);
    }
  }

  lemma {:induction false} ObjectIsValid(v: Value)
    requires Small(v) && PolicyDoc.ObjectOf(v).Some?
    ensures ValidObject(PolicyDoc.ObjectOf(v).value)
  {
    PathsAreNames(true, ArrayIn(v.entries, "attach").value);
  }

  lemma {:induction false} BindIsValid(v: Value)
    requires Small(v) && PolicyDoc.BindOf(v).Some?
    ensures ValidBind(PolicyDoc.BindOf(v).value)
  {
  }

  lemma {:induction false} AddfdIsValid(v: Value)
    requires Small(v) && PolicyDoc.AddfdOf(v).Some?
    ensures ValidAddfd(PolicyDoc.AddfdOf(v).value)
  {
  }

  // ----- sections keep a well-formed policy well formed

  lemma {:induction false} PathsInAreNames(t: Entries, key: string)
    requires SmallEntries(t) && PathsIn(t, key).Some?
    ensures Names(PathsIn(t, key).value)
  {
    if ArrayIn(t, key).Some? {
      assert Small(t[key]);
      PathsAreNames(false, t[key].items);
    }
  }

  lemma {:induction false} AbsolutesAreNames(t: Entries, key: string)
    requires SmallEntries(t) && SomeIn(t, key, p => PathOf(true, p)).Some?
    ensures Names(SomeIn(t, key, p => PathOf(true, p)).value)
  {
    if ArrayIn(t, key).Some? {
      assert Small(t[key]);
      PathsAreNames(true, t[key].items);
    }
  }

  lemma {:induction false} SomeInIsValid<T(!new)>(t: Entries, key: string, f: Value -> Option<T>, p: T -> bool)
    requires forall v :: Small(v) && f(v).Some? ==> p(f(v).value)
    requires SmallEntries(t) && SomeIn(t, key, f).Some?
    ensures |SomeIn(t, key, f).value| < TWO_32
    ensures forall i :: 0 <= i < |SomeIn(t, key, f).value| ==> p(SomeIn(t, key, f).value[i])
  {
    if ArrayIn(t, key).Some? {
      assert Small(t[key]);
      ListIsValid(f, p, t[key].items);
    }
  }

  lemma {:induction false} BindsInAreValid(t: Entries, key: string)
    requires SmallEntries(t) && SomeIn(t, key, PolicyDoc.BindOf).Some?
    ensures ValidBinds(SomeIn(t, key, PolicyDoc.BindOf).value)
  {
    forall v | Small(v) && PolicyDoc.BindOf(v).Some? ensures ValidBind(PolicyDoc.BindOf(v).value) {
      BindIsValid(v);
    }
    SomeInIsValid(t, key, PolicyDoc.BindOf, ValidBind);
  }

  lemma {:induction false} NetKeepsValid(ir: Ir, t: Entries)
    requires WellFormed(ir) && SmallEntries(t) && NetIn(ir, t).Some?
    ensures WellFormed(NetIn(ir, t).value)
  {
    if ArrayIn(t, "rule").Some? {
      assert Small(t["rule"]);
      ListIsValid(PolicyDoc.NetRuleOf, (r: NetRule) => r.access != 0, t["rule"].items);
    }
  }

  lemma {:induction false} BrokerKeepsValid(ir: Ir, t: Entries)
    requires WellFormed(ir) && SmallEntries(t) && BrokerIn(ir, t).Some?
    ensures WellFormed(BrokerIn(ir, t).value)
  {
    PathsInAreNames(t, "allow_read");
    PathsInAreNames(t, "allow_write");
    PathsInAreNames(t, "scratch");
    PathsInAreNames(t, "export");
    PathsInAreNames(t, "mount_tmpfs");
    BindsInAreValid(t, "mount_bind");
    forall v | Small(v) && PolicyDoc.ObjectOf(v).Some? ensures ValidObject(PolicyDoc.ObjectOf(v).value) {
      ObjectIsValid(v);
    }
    SomeInIsValid(t, "mount_object", PolicyDoc.ObjectOf, ValidObject);
    forall v | Small(v) && PolicyDoc.AddfdOf(v).Some? ensures ValidAddfd(PolicyDoc.AddfdOf(v).value) {
      AddfdIsValid(v);
    }
    SomeInIsValid(t, "addfd", PolicyDoc.AddfdOf, ValidAddfd);
  }

  lemma {:induction false} MountKeepsValid(ir: Ir, t: Entries)
    requires WellFormed(ir) && SmallEntries(t) && MountIn(ir, t).Some?
    ensures WellFormed(MountIn(ir, t).value)
  {
    AbsolutesAreNames(t, "tmpfs");
    BindsInAreValid(t, "bind");
    AbsolutesAreNames(t, "proc");
  }

  lemma {:induction false} RuntimeKeepsValid(ir: Ir, t: Entries)
    requires WellFormed(ir) && SmallEntries(t) && RuntimeIn(ir, t).Some?
    ensures WellFormed(RuntimeIn(ir, t).value)
  {
    assert "root" in t ==> Small(t["root"]);
    assert "cwd" in t ==> Small(t["cwd"]);
  }

  lemma {:induction false} SeccompKeepsValid(ir: Ir, t: Entries, sys: Syscalls)
    requires WellFormed(ir) && SmallEntries(t) && SeccompIn(ir, t, sys).Some?
    ensures WellFormed(SeccompIn(ir, t, sys).value)
  {
    assert Small(t["deny"]);
    ListIsValid(v => DenyOf(sys, v), (n: u32) => n <= 0x7fff_ffff, t["deny"].items);
  }

  lemma {:induction false} LayersAreValid(t: Entries)
    requires SmallEntries(t) && LayersIn(t).Some?
    ensures WellFormed(EMPTY.(fsLayers := LayersIn(t).value))
  {
    if ArrayIn(t, "fs_layer").Some? {
      assert Small(t["fs_layer"]);
      forall v | Small(v) && PolicyDoc.LayerOf(v).Some? ensures ValidLayer(PolicyDoc.LayerOf(v).value) {
        LayerIsValid(v);
      }
      ListIsValid(PolicyDoc.LayerOf, ValidLayer, t["fs_layer"].items);
    }
  }

  lemma {:induction false} SectionKeepsValid(ir: Ir, doc: Entries, key: string, f: (Ir, Entries) -> Option<Ir>)
    requires WellFormed(ir) && SmallEntries(doc) && Section(ir, doc, key, f).Some?
    requires forall t :: SmallEntries(t) && f(ir, t).Some? ==> WellFormed(f(ir, t).value)
    ensures WellFormed(Section(ir, doc, key, f).value)
  {
    if TableIn(doc, key).Some? {
      assert Small(doc[key]);
    }
  }

  /** Every policy that load_root accepts is well formed for the wire: no
      assumption about NUL bytes is needed, because the loader reads C strings. */
  lemma {:induction false} LoadedIsWellFormed(doc: Entries, sys: Syscalls)
    requires SmallEntries(doc) && Load(doc, sys).Some?
    ensures WellFormed(Load(doc, sys).value)
  {
    LayersAreValid(doc);
    var ir0 := EMPTY.(fsLayers := LayersIn(doc).value);
    forall t | SmallEntries(t) && NetIn(ir0, t).Some? ensures WellFormed(NetIn(ir0, t).value) {
      NetKeepsValid(ir0, t);
    }
    SectionKeepsValid(ir0, doc, "net", NetIn);
    var ir1 := Section(ir0, doc, "net", NetIn).value;
    forall t | SmallEntries(t) && BrokerIn(ir1, t).Some? ensures WellFormed(BrokerIn(ir1, t).value) {
      BrokerKeepsValid(ir1, t);
    }
    SectionKeepsValid(ir1, doc, "broker", BrokerIn);
    var ir2 := Section(ir1, doc, "broker", BrokerIn).value;
    forall t | SmallEntries(t) && MountIn(ir2, t).Some? ensures WellFormed(MountIn(ir2, t).value) {
      MountKeepsValid(ir2, t);
    }
    SectionKeepsValid(ir2, doc, "mount", MountIn);
    var ir3 := Section(ir2, doc, "mount", MountIn).value;
    forall t | SmallEntries(t) && RuntimeIn(ir3, t).Some? ensures WellFormed(RuntimeIn(ir3, t).value) {
      RuntimeKeepsValid(ir3, t);
    }
    SectionKeepsValid(ir3, doc, "runtime", RuntimeIn);
    var ir4 := Section(ir3, doc, "runtime", RuntimeIn).value;
    forall t | SmallEntries(t) && SeccompIn(ir4, t, sys).Some? ensures WellFormed(SeccompIn(ir4, t, sys).value) {
      SeccompKeepsValid(ir4, t, sys);
    }
    SectionKeepsValid(ir4, doc, "seccomp", (ir, t) => SeccompIn(ir, t, sys));
  }

  /** The C helper route: what the helper loads and writes is what landlockd
      reads back. */
  lemma {:induction false} HelperRefinesLoading(doc: Entries, sys: Syscalls)
    requires SmallEntries(doc) && Load(doc, sys).Some?
    ensures Wire.Decode(false, Wire.Encode(Load(doc, sys).value)) == Load(doc, sys)
  {
    LoadedIsWellFormed(doc, sys);
    WireTheorems.RoundTrip(Load(doc, sys).value);
  }
}
