/** The order of the lines of the dry-run text, told by the fields themselves. */
module DryRunOrder {
  import opened Bytes
  import opened DryRun
  import opened Order
  import opened PolicyIr

  /** The byte order of strcmp: the first difference decides, and a proper prefix
      comes first. */
  predicate Before(a: Str, b: Str) {
    b != [] && (a == [] || a[0] as int < b[0] as int || (a[0] == b[0] && Before(a[1..], b[1..])))
  }

  predicate ListBefore(a: seq<Str>, b: seq<Str>) {
    b != [] && (a == [] || Before(a[0], b[0]) || (a[0] == b[0] && ListBefore(a[1..], b[1..])))
  }

  predicate FsBefore(a: FsRule, b: FsRule) {
    Before(a.path, b.path) || (a.path == b.path && a.access < b.access)
  }

  predicate NetBefore(a: NetRule, b: NetRule) {
    a.port < b.port || (a.port == b.port && a.access < b.access)
  }

  /** Of two rules for one pair of paths the writable one comes first. */
  predicate BindBefore(a: BindRule, b: BindRule) {
    || Before(a.source, b.source)
    || (a.source == b.source && Before(a.target, b.target))
    || (a.source == b.source && a.target == b.target && !a.readOnly && b.readOnly)
  }

  predicate ObjectBefore(a: ObjectRule, b: ObjectRule) {
    || Before(a.name, b.name)
    || (a.name == b.name && Before(a.fsType, b.fsType))
    || (a.name == b.name && a.fsType == b.fsType && a.attrs < b.attrs)
    || (a.name == b.name && a.fsType == b.fsType && a.attrs == b.attrs && ListBefore(a.attach, b.attach))
  }

  lemma {:induction false} StrIff(a: Str, b: Str)
    ensures STR(a, b) < 0 <==> Before(a, b)
    ensures STR(a, b) == 0 <==> a == b
  {
    if a != [] && b != [] {
      StrIff(a[1..], b[1..]);
      assert STR(a[1..], b[1..]) == SeqCmp(On(Code, IntCmp), a[1..], b[1..]);
      assert a == [a[0]] + a[1..] && b == [b[0]] + b[1..];
    }
  }

  lemma {:induction false} ListIff(a: seq<Str>, b: seq<Str>)
    ensures Seqs(STR)(a, b) < 0 <==> ListBefore(a, b)
    ensures Seqs(STR)(a, b) == 0 <==> a == b
  {
    if a != [] && b != [] {
      StrIff(a[0], b[0]);
      ListIff(a[1..], b[1..]);
      assert Seqs(STR)(a[1..], b[1..]) == SeqCmp(STR, a[1..], b[1..]);
      assert a == [a[0]] + a[1..] && b == [b[0]] + b[1..];
    }
  }

  lemma {:induction false} FsIff(a: FsRule, b: FsRule)
    ensures FS_RULE(a, b) < 0 <==> FsBefore(a, b)
  {
    StrIff(a.path, b.path);
    assert FS_RULE(a, b) == LexAt(On(FsPath, STR), On(FsAccess, IntCmp), a, b);
  }

  lemma {:induction false} NetIff(a: NetRule, b: NetRule)
    ensures NET_RULE(a, b) < 0 <==> NetBefore(a, b)
  {
    assert On(NetPort, IntCmp)(a, b) == IntCmp(a.port, b.port);
    assert NET_RULE(a, b) == LexAt(On(NetPort, IntCmp), On(NetAccess, IntCmp), a, b);
  }

  lemma {:induction false} BindIff(a: BindRule, b: BindRule)
    ensures BIND(a, b) < 0 <==> BindBefore(a, b)
  {
    StrIff(a.source, b.source);
    StrIff(a.target, b.target);
    assert BIND(a, b) == LexAt(On(BindSource, STR), Lex(On(BindTarget, STR), On(BindFlag, IntCmp)), a, b);
  }

  lemma {:induction false} ObjectIff(a: ObjectRule, b: ObjectRule)
    ensures OBJECT(a, b) < 0 <==> ObjectBefore(a, b)
  {
    StrIff(a.name, b.name);
    StrIff(a.fsType, b.fsType);
    ListIff(a.attach, b.attach);
    assert On(ObjectAttach, Seqs(STR))(a, b) == Seqs(STR)(a.attach, b.attach);
    assert On(ObjectAttrs, IntCmp)(a, b) == IntCmp(a.attrs, b.attrs);
    assert On(ObjectName, STR)(a, b) == STR(a.name, b.name) && On(ObjectType, STR)(a, b) == STR(a.fsType, b.fsType);
    var last := Lex(On(ObjectAttrs, IntCmp), On(ObjectAttach, Seqs(STR)));
    assert last(a, b) == LexAt(On(ObjectAttrs, IntCmp), On(ObjectAttach, Seqs(STR)), a, b);
    assert Lex(On(ObjectType, STR), last)(a, b) == LexAt(On(ObjectType, STR), last, a, b);
    assert OBJECT(a, b) == LexAt(On(ObjectName, STR), Lex(On(ObjectType, STR), last), a, b);
  }

  /** No element stands behind one that it comes before. */
  ghost predicate Ascending<T>(before: (T, T) -> bool, xs: seq<T>) {
    forall i, j :: 0 <= i < j < |xs| ==> !before(xs[j], xs[i])
  }

  lemma {:induction false} SortAscends<T(!new)>(c: Cmp<T>, before: (T, T) -> bool, xs: seq<T>)
    requires Weak(c) && forall a, b :: before(a, b) ==> c(a, b) < 0
    ensures Ascending(before, Sort(c, xs)) && multiset(Sort(c, xs)) == multiset(xs)
  {
    SortSorts(c, xs);
    var ys := Sort(c, xs);
    forall i, j | 0 <= i < j < |ys| ensures !before(ys[j], ys[i]) {
      assert WeakAt(c, ys[j], ys[i], ys[j]);
    }
  }

  /** The same elements in ascending order. */
  ghost predicate Rearranged<T>(before: (T, T) -> bool, xs: seq<T>, ys: seq<T>) {
    Ascending(before, ys) && multiset(xs) == multiset(ys)
  }

  lemma {:induction false} PathsRearranged(xs: seq<Str>)
    ensures Rearranged(Before, xs, Sort(STR, xs))
  {
    StrTotal();
    forall a, b | Before(a, b) ensures STR(a, b) < 0 {
      StrIff(a, b);
    }
    SortAscends(STR, Before, xs);
  }

  lemma {:induction false} BindsRearranged(xs: seq<BindRule>)
    ensures Rearranged(BindBefore, xs, Sort(BIND, xs))
  {
    BindOrderTotal();
    forall a, b | BindBefore(a, b) ensures BIND(a, b) < 0 {
      BindIff(a, b);
    }
    SortAscends(BIND, BindBefore, xs);
  }

  lemma {:induction false} NetRearranged(xs: seq<NetRule>)
    ensures Rearranged(NetBefore, xs, Sort(NET_RULE, xs))
  {
    NetRuleOrderTotal();
    forall a, b | NetBefore(a, b) ensures NET_RULE(a, b) < 0 {
      NetIff(a, b);
    }
    SortAscends(NET_RULE, NetBefore, xs);
  }

  predicate Less(a: u32, b: u32) {
    a < b
  }

  lemma {:induction false} DeniesRearranged(xs: seq<u32>)
    ensures Rearranged(Less, xs, Sort(DENY, xs))
  {
    DenyOrderTotal();
    forall a, b | Less(a, b) ensures DENY(a, b) < 0 {
      assert DENY(a, b) == IntCmp(Number(a), Number(b));
    }
    SortAscends(DENY, Less, xs);
  }

  lemma {:induction false} LayerRearranged(l: FsLayer)
    ensures Rearranged(FsBefore, l.rules, SortLayer(l).rules) && SortLayer(l).handled == l.handled
  {
    FsRuleOrderTotal();
    forall a, b | FsBefore(a, b) ensures FS_RULE(a, b) < 0 {
      FsIff(a, b);
    }
    SortAscends(FS_RULE, FsBefore, l.rules);
  }

  /** The objects ascend once the paths of each stand in ascending order. */
  ghost predicate ObjectsRearranged(xs: seq<ObjectRule>, ys: seq<ObjectRule>) {
    exists mid :: ObjectsBetween(xs, mid, ys)
  }

  ghost predicate ObjectsBetween(xs: seq<ObjectRule>, mid: seq<ObjectRule>, ys: seq<ObjectRule>) {
    && Rearranged(ObjectBefore, mid, ys) && |mid| == |xs|
    && forall i :: 0 <= i < |xs| ==> mid[i].(attach := xs[i].attach) == xs[i] && Rearranged(Before, xs[i].attach, mid[i].attach)
  }

  lemma {:induction false} ObjectsAscend(xs: seq<ObjectRule>)
    ensures ObjectsRearranged(xs, SortObjects(xs))
  {
    var mid := Map(SortObject, xs);
    forall i | 0 <= i < |xs| ensures Rearranged(Before, xs[i].attach, mid[i].attach) {
      PathsRearranged(xs[i].attach);
    }
    ObjectOrderTotal();
    forall a, b | ObjectBefore(a, b) ensures OBJECT(a, b) < 0 {
      ObjectIff(a, b);
    }
    SortAscends(OBJECT, ObjectBefore, mid);
    assert ObjectsBetween(xs, mid, SortObjects(xs));
  }

  ghost predicate LayersRearranged(xs: seq<FsLayer>, ys: seq<FsLayer>) {
    && |ys| == |xs|
    && forall i :: 0 <= i < |xs| ==> ys[i].handled == xs[i].handled && Rearranged(FsBefore, xs[i].rules, ys[i].rules)
  }

  ghost predicate PathListsRearranged(a: Ir, b: Ir) {
    && Rearranged(Before, a.openRead, b.openRead) && Rearranged(Before, a.openWrite, b.openWrite)
    && Rearranged(Before, a.scratch, b.scratch) && Rearranged(Before, a.exports, b.exports)
    && Rearranged(Before, a.brokerTmpfs, b.brokerTmpfs) && Rearranged(Before, a.mountTmpfs, b.mountTmpfs)
    && Rearranged(Before, a.mountProc, b.mountProc)
  }

  ghost predicate RulesRearranged(a: Ir, b: Ir) {
    && LayersRearranged(a.fsLayers, b.fsLayers) && Rearranged(NetBefore, a.netRules, b.netRules)
    && Rearranged(BindBefore, a.brokerBind, b.brokerBind) && Rearranged(BindBefore, a.mountBind, b.mountBind)
    && ObjectsRearranged(a.brokerObject, b.brokerObject) && Rearranged(Less, a.deny, b.deny)
  }

  /** The printed policy is the given one with every list in ascending order. */
  lemma {:induction false} CanonicalAscends(ir: Ir)
    ensures PathListsRearranged(ir, Canonical(ir)) && RulesRearranged(ir, Canonical(ir))
  {
    PathsRearranged(ir.openRead);
    PathsRearranged(ir.openWrite);
    PathsRearranged(ir.scratch);
    PathsRearranged(ir.exports);
    PathsRearranged(ir.brokerTmpfs);
    PathsRearranged(ir.mountTmpfs);
    PathsRearranged(ir.mountProc);
    forall i | 0 <= i < |ir.fsLayers| ensures Rearranged(FsBefore, ir.fsLayers[i].rules, SortLayer(ir.fsLayers[i]).rules) {
      LayerRearranged(ir.fsLayers[i]);
    }
    NetRearranged(ir.netRules);
    BindsRearranged(ir.brokerBind);
    BindsRearranged(ir.mountBind);
    ObjectsAscend(ir.brokerObject);
    DeniesRearranged(ir.deny);
  }
}
