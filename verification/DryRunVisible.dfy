/** What the whole dry-run text says about a policy: exactly which policies print
    the same text. */
module DryRunVisible {
  import opened Bytes
  import opened DryRun
  import opened DryRunGroups
  import opened DryRunReport
  import opened DryRunText
  import opened Order
  import opened PolicyIr
  import opened TextLines

  /** The part of a policy that its text shows. */
  datatype Visible = Visible(
    fsLayers: seq<FsLayer>,
    netHandled: u64,
    netRules: seq<NetRule>,
    openRead: seq<Str>,
    openWrite: seq<Str>,
    scratch: seq<Str>,
    exports: seq<Str>,
    brokerTmpfs: seq<Str>,
    brokerBind: seq<(Str, bool)>,
    brokerObject: seq<(Str, u64)>,
    mountTmpfs: seq<Str>,
    mountBind: seq<(Str, bool)>,
    mountProc: seq<Str>,
    root: Str,
    cwd: Str,
    seccompEnabled: bool,
    seccompErrno: u16,
    deny: seq<u32>
  )

  /** Source, delimiter and target run together. */
  function BindShown(r: BindRule): (Str, bool) {
    (Joined(r), r.readOnly)
  }

  /** Name, type and attach path run together, without the other attach paths. */
  function ObjectShown(pair: (ObjectRule, Str)): (Str, u64) {
    (JoinedObject(pair.0.name, pair.0.fsType, pair.1), pair.0.attrs)
  }

  /** What is printed: neither netEnabled nor the addfd rules, binds and objects
      only with their delimiters run together, and which object a pair belongs to
      only by what the object has in common with it. */
  function VisibleOf(ir: Ir): Visible {
    Visible(ir.fsLayers, ir.netHandled, ir.netRules, ir.openRead, ir.openWrite, ir.scratch, ir.exports, ir.brokerTmpfs,
            Map(BindShown, ir.brokerBind), Map(ObjectShown, Pairs(ir.brokerObject)),
            ir.mountTmpfs, Map(BindShown, ir.mountBind), ir.mountProc, RuntimeShown(ir.root), RuntimeShown(ir.cwd),
            ir.seccompEnabled, ir.seccompErrno, ir.deny)
  }

  // ----- lists

  predicate Alike<A, B(==), C(==)>(f: A -> B, g: A -> C, x: A, y: A) {
    f(x) == f(y) <==> g(x) == g(y)
  }

  /** Functions that tell the same elements apart tell the same lists apart. */
  lemma {:induction false} MapsAlike<A(!new), B, C>(f: A -> B, g: A -> C, xs: seq<A>, ys: seq<A>)
    requires forall x, y :: x in xs && y in ys ==> Alike(f, g, x, y)
    ensures Map(f, xs) == Map(f, ys) <==> Map(g, xs) == Map(g, ys)
  {
    assert |Map(f, xs)| == |xs| == |Map(g, xs)| && |Map(f, ys)| == |ys| == |Map(g, ys)|;
    if |xs| == |ys| {
      forall i | 0 <= i < |xs| ensures Map(f, xs)[i] == Map(f, ys)[i] <==> Map(g, xs)[i] == Map(g, ys)[i] {
        assert xs[i] in xs && ys[i] in ys && Alike(f, g, xs[i], ys[i]);
      }
    }
  }

  function Same<A>(x: A): A {
    x
  }

  lemma {:induction false} MapSame<A>(xs: seq<A>)
    ensures Map(Same<A>, xs) == xs
  {
    forall i | 0 <= i < |xs| ensures Map(Same<A>, xs)[i] == xs[i] {
      assert Map(Same<A>, xs)[i] == Same(xs[i]);
    }
  }

  lemma {:induction false} MapInjective<A(!new), B>(f: A -> B, xs: seq<A>, ys: seq<A>)
    requires forall x, y :: x in xs && y in ys ==> Alike(f, Same<A>, x, y)
    ensures Map(f, xs) == Map(f, ys) <==> xs == ys
  {
    MapsAlike(f, Same<A>, xs, ys);
    MapSame(xs);
    MapSame(ys);
  }

  lemma {:induction false} SamePaths(prefix: string, xs: seq<Str>, ys: seq<Str>)
    ensures Paths(prefix, xs) == Paths(prefix, ys) <==> xs == ys
  {
    var f := (p: Str) => PathLine(prefix, p);
    forall x, y ensures Alike(f, Same<Str>, x, y) {
      SamePathLine(prefix, x, y);
    }
    MapInjective(f, xs, ys);
    assert Paths(prefix, xs) == Map(f, xs) && Paths(prefix, ys) == Map(f, ys);
  }

  lemma {:induction false} SameBinds(prefix: string, xs: seq<BindRule>, ys: seq<BindRule>)
    ensures Binds(prefix, xs) == Binds(prefix, ys) <==> Map(BindShown, xs) == Map(BindShown, ys)
  {
    var f := (r: BindRule) => BindLine(prefix, r);
    forall x, y ensures Alike(f, BindShown, x, y) {
      SameBindLine(prefix, x, y);
    }
    MapsAlike(f, BindShown, xs, ys);
    assert Binds(prefix, xs) == Map(f, xs) && Binds(prefix, ys) == Map(f, ys);
  }

  lemma {:induction false} SamePairs(xs: seq<(ObjectRule, Str)>, ys: seq<(ObjectRule, Str)>)
    ensures Map(PairLine, xs) == Map(PairLine, ys) <==> Map(ObjectShown, xs) == Map(ObjectShown, ys)
  {
    forall x, y ensures Alike(PairLine, ObjectShown, x, y) {
      SameObjectLine(x.0, x.1, y.0, y.1);
    }
    MapsAlike(PairLine, ObjectShown, xs, ys);
  }

  lemma {:induction false} SameFsRules(xs: seq<FsRule>, ys: seq<FsRule>)
    ensures Map(FsRuleLine, xs) == Map(FsRuleLine, ys) <==> xs == ys
  {
    forall x, y ensures Alike(FsRuleLine, Same<FsRule>, x, y) {
      SameFsRuleLine(x, y);
    }
    MapInjective(FsRuleLine, xs, ys);
  }

  lemma {:induction false} SameNetRules(xs: seq<NetRule>, ys: seq<NetRule>)
    ensures Map(NetRuleLine, xs) == Map(NetRuleLine, ys) <==> xs == ys
  {
    forall x, y ensures Alike(NetRuleLine, Same<NetRule>, x, y) {
      SameNetRuleLine(x, y);
    }
    MapInjective(NetRuleLine, xs, ys);
  }

  lemma {:induction false} SameDenies(xs: seq<u32>, ys: seq<u32>)
    ensures Map(DenyLine, xs) == Map(DenyLine, ys) <==> xs == ys
  {
    forall x, y ensures Alike(DenyLine, Same<u32>, x, y) {
      SameDenyLine(x, y);
    }
    MapInjective(DenyLine, xs, ys);
  }

  // ----- layers

  /** Whether a line starts a layer. */
  predicate Starts(line: string) {
    Word(line) == "fs.layer"
  }

  /** The last line that starts a layer splits the lines in one way. */
  lemma {:induction false} LastStart(x: seq<string>, h: string, u: seq<string>, y: seq<string>, k: string, v: seq<string>)
    requires Starts(h) && Starts(k) && x + [h] + u == y + [k] + v
    requires (forall line :: line in u ==> !Starts(line)) && (forall line :: line in v ==> !Starts(line))
    ensures x == y && h == k && u == v
  {
    var s := x + [h] + u;
    assert s[|x|] == h && s[|y|] == k;
    assert forall i :: |x| < i < |s| ==> s[i] in u;
    assert forall i :: |y| < i < |s| ==> s[i] in v;
    assert x == s[..|x|] && u == s[|x| + 1..] && y == s[..|y|] && v == s[|y| + 1..];
  }

  lemma {:induction false} RulesStartNothing(rules: seq<FsRule>)
    ensures forall line :: line in Map(FsRuleLine, rules) ==> !Starts(line)
  {
    forall i | 0 <= i < |rules| ensures !Starts(Map(FsRuleLine, rules)[i]) {
      FsRuleLineIsFine(rules[i]);
    }
  }

  lemma {:induction false} SplitLayers(layers: seq<FsLayer>)
    requires layers != []
    ensures var n := |layers| - 1;
      LayersLines(layers) == LayersLines(layers[..n]) + [LayerLine(n, layers[n])] + Map(FsRuleLine, layers[n].rules)
  {
    var n := |layers| - 1;
    var x, h, u := LayersLines(layers[..n]), [LayerLine(n, layers[n])], Map(FsRuleLine, layers[n].rules);
    assert x + (h + u) == x + h + u;
  }

  /** The lines of the layers determine the layers: their number, their order, and
      which rule belongs to which. */
  lemma {:induction false} SameLayers(a: seq<FsLayer>, b: seq<FsLayer>)
    ensures LayersLines(a) == LayersLines(b) <==> a == b
    decreases |a|
  {
    if LayersLines(a) == LayersLines(b) {
      if a != [] {
        SplitLayers(a);
      }
      if b != [] {
        SplitLayers(b);
      }
      if a != [] && b != [] {
        var m, n := |a| - 1, |b| - 1;
        SameLastLayer(LayersLines(a[..m]), m, a[m], LayersLines(b[..n]), n, b[n]);
        SameLayers(a[..m], b[..n]);
        assert a == a[..m] + [a[m]] && b == b[..n] + [b[n]];
      }
    }
  }

  lemma {:induction false} SameLastLayer(x: seq<string>, i: nat, l: FsLayer, y: seq<string>, j: nat, m: FsLayer)
    requires x + [LayerLine(i, l)] + Map(FsRuleLine, l.rules) == y + [LayerLine(j, m)] + Map(FsRuleLine, m.rules)
    ensures x == y && i == j && l == m
  {
    LayerLineIsFine(i, l);
    LayerLineIsFine(j, m);
    RulesStartNothing(l.rules);
    RulesStartNothing(m.rules);
    LastStart(x, LayerLine(i, l), Map(FsRuleLine, l.rules), y, LayerLine(j, m), Map(FsRuleLine, m.rules));
    SameLayerLine(i, l, j, m);
    SameFsRules(l.rules, m.rules);
  }

  // ----- the whole text

  lemma {:induction false} SameFour<T>(a: T, b: T, c: T, d: T, a': T, b': T, c': T, d': T)
    ensures [a] + [b] + [c] + [d] == [a'] + [b'] + [c'] + [d'] <==> a == a' && b == b' && c == c' && d == d'
  {
    var s, t := [a] + [b] + [c] + [d], [a'] + [b'] + [c'] + [d'];
    assert s == [a, b, c, d] && t == [a', b', c', d'];
    if s == t {
      assert s[0] == t[0] && s[1] == t[1] && s[2] == t[2] && s[3] == t[3];
    }
  }

  lemma {:induction false} SameFive<T>(a: T, b: T, c: T, d: T, e: T, a': T, b': T, c': T, d': T, e': T)
    ensures [a] + [b] + [c] + [d] + [e] == [a'] + [b'] + [c'] + [d'] + [e']
       <==> a == a' && b == b' && c == c' && d == d' && e == e'
  {
    var s, t := [a] + [b] + [c] + [d] + [e], [a'] + [b'] + [c'] + [d'] + [e'];
    assert s == [a, b, c, d, e] && t == [a', b', c', d', e'];
    if s == t {
      assert s[0] == t[0] && s[1] == t[1] && s[2] == t[2] && s[3] == t[3] && s[4] == t[4];
    }
  }

  lemma {:induction false} SameNets(a: Ir, b: Ir)
    ensures RulesPart(a) == RulesPart(b) <==>
      a.fsLayers == b.fsLayers && a.netHandled == b.netHandled && a.netRules == b.netRules
  {
    SameLayers(a.fsLayers, b.fsLayers);
    SameNetLine(a.netHandled, b.netHandled);
    SameNetRules(a.netRules, b.netRules);
    var head := ["landlockd dry-run v1\n"];
    SameFour(head, LayersLines(a.fsLayers), [NetLine(a.netHandled)], Map(NetRuleLine, a.netRules),
             head, LayersLines(b.fsLayers), [NetLine(b.netHandled)], Map(NetRuleLine, b.netRules));
  }

  lemma {:induction false} SameBroker(a: Ir, b: Ir)
    ensures BrokerPart(a) == BrokerPart(b) <==>
      && a.openRead == b.openRead && a.openWrite == b.openWrite && a.scratch == b.scratch
      && a.exports == b.exports && a.brokerTmpfs == b.brokerTmpfs
  {
    SamePaths("broker.open_read", a.openRead, b.openRead);
    SamePaths("broker.open_write", a.openWrite, b.openWrite);
    SamePaths("broker.scratch", a.scratch, b.scratch);
    SamePaths("broker.export", a.exports, b.exports);
    SamePaths("broker.mount_tmpfs", a.brokerTmpfs, b.brokerTmpfs);
    SameFive(Paths("broker.open_read", a.openRead), Paths("broker.open_write", a.openWrite), Paths("broker.scratch", a.scratch),
             Paths("broker.export", a.exports), Paths("broker.mount_tmpfs", a.brokerTmpfs),
             Paths("broker.open_read", b.openRead), Paths("broker.open_write", b.openWrite), Paths("broker.scratch", b.scratch),
             Paths("broker.export", b.exports), Paths("broker.mount_tmpfs", b.brokerTmpfs));
  }

  lemma {:induction false} SameMounts(a: Ir, b: Ir)
    ensures MountPart(a) == MountPart(b) <==>
      && Map(BindShown, a.brokerBind) == Map(BindShown, b.brokerBind)
      && Map(ObjectShown, Pairs(a.brokerObject)) == Map(ObjectShown, Pairs(b.brokerObject))
      && a.mountTmpfs == b.mountTmpfs && Map(BindShown, a.mountBind) == Map(BindShown, b.mountBind)
      && a.mountProc == b.mountProc
  {
    SameBinds("broker.mount_bind", a.brokerBind, b.brokerBind);
    SamePairs(Pairs(a.brokerObject), Pairs(b.brokerObject));
    SamePaths("mount.tmpfs", a.mountTmpfs, b.mountTmpfs);
    SameBinds("mount.bind", a.mountBind, b.mountBind);
    SamePaths("mount.proc", a.mountProc, b.mountProc);
    SameFive(Binds("broker.mount_bind", a.brokerBind), Map(PairLine, Pairs(a.brokerObject)), Paths("mount.tmpfs", a.mountTmpfs),
             Binds("mount.bind", a.mountBind), Paths("mount.proc", a.mountProc),
             Binds("broker.mount_bind", b.brokerBind), Map(PairLine, Pairs(b.brokerObject)), Paths("mount.tmpfs", b.mountTmpfs),
             Binds("mount.bind", b.mountBind), Paths("mount.proc", b.mountProc));
  }

  lemma {:induction false} SameProcess(a: Ir, b: Ir)
    ensures ProcessPart(a) == ProcessPart(b) <==>
      && RuntimeShown(a.root) == RuntimeShown(b.root) && RuntimeShown(a.cwd) == RuntimeShown(b.cwd)
      && a.seccompEnabled == b.seccompEnabled && a.seccompErrno == b.seccompErrno && a.deny == b.deny
  {
    SameRuntimeLine("root", a.root, b.root);
    SameRuntimeLine("cwd", a.cwd, b.cwd);
    SameSeccompLine(a.seccompEnabled, a.seccompErrno, b.seccompEnabled, b.seccompErrno);
    SameDenies(a.deny, b.deny);
    SameFour([RuntimeLine("root", a.root)], [RuntimeLine("cwd", a.cwd)], [SeccompLine(a.seccompEnabled, a.seccompErrno)],
             Map(DenyLine, a.deny),
             [RuntimeLine("root", b.root)], [RuntimeLine("cwd", b.cwd)], [SeccompLine(b.seccompEnabled, b.seccompErrno)],
             Map(DenyLine, b.deny));
  }

  lemma {:induction false} SameGroups<T>(g: seq<T>, h: seq<T>, m: seq<T>, p: seq<T>, g': seq<T>, h': seq<T>, m': seq<T>, p': seq<T>)
    requires |g| == |g'| == 4 && |h| == |h'| == 5 && |m| == |m'| == 5 && |p| == |p'| == 4
    ensures g + h + m + p == g' + h' + m' + p' <==> g == g' && h == h' && m == m' && p == p'
  {
    var s, t := g + h + m + p, g' + h' + m' + p';
    assert g == s[..4] && h == s[4..9] && m == s[9..14] && p == s[14..];
    assert g' == t[..4] && h' == t[4..9] && m' == t[9..14] && p' == t[14..];
  }

  /** Two policies print the same text exactly when their visible parts are the
      same. */
  lemma {:induction false} ReportDeterminesIff(a: Ir, b: Ir)
    ensures Report(a) == Report(b) <==> VisibleOf(a) == VisibleOf(b)
  {
    SameReport(a, b);
    SameGroups(RulesPart(a), BrokerPart(a), MountPart(a), ProcessPart(a),
               RulesPart(b), BrokerPart(b), MountPart(b), ProcessPart(b));
    SameNets(a, b);
    SameBroker(a, b);
    SameMounts(a, b);
    SameProcess(a, b);
  }

  // ----- policies whose text can be read back

  /** The delimiter of the bind line occurs only between source and target. */
  ghost predicate OneJoin(r: BindRule) {
    forall i: nat :: OccursAt(TARGET, Joined(r), i) ==> i == |r.source|
  }

  ghost predicate AllOneJoin(rules: seq<BindRule>) {
    forall r :: r in rules ==> OneJoin(r)
  }

  predicate Absolute(path: Option<Str>) {
    path.Some? ==> path.value != [] && path.value[0] == '/'
  }

  /** What every loaded policy satisfies, and no delimiter inside a bind path. */
  ghost predicate Legible(ir: Ir) {
    && AllOneJoin(ir.brokerBind) && AllOneJoin(ir.mountBind)
    && (forall pair :: pair in Pairs(ir.brokerObject) ==> Loadable(pair.0, pair.1))
    && Absolute(ir.root) && Absolute(ir.cwd)
  }

  function PairValue(pair: (ObjectRule, Str)): (Str, Str, Str, u64) {
    (pair.0.name, pair.0.fsType, pair.1, pair.0.attrs)
  }

  lemma {:induction false} LegibleBinds(xs: seq<BindRule>, ys: seq<BindRule>)
    requires AllOneJoin(xs) && AllOneJoin(ys)
    ensures Map(BindShown, xs) == Map(BindShown, ys) <==> xs == ys
  {
    forall x, y | x in xs && y in ys ensures Alike(BindShown, Same<BindRule>, x, y) {
      JoinSplits(x);
      JoinSplits(y);
    }
    MapInjective(BindShown, xs, ys);
  }

  lemma {:induction false} LegiblePairs(xs: seq<(ObjectRule, Str)>, ys: seq<(ObjectRule, Str)>)
    requires (forall x :: x in xs ==> Loadable(x.0, x.1)) && (forall y :: y in ys ==> Loadable(y.0, y.1))
    ensures Map(ObjectShown, xs) == Map(ObjectShown, ys) <==> Map(PairValue, xs) == Map(PairValue, ys)
  {
    forall x, y | x in xs && y in ys ensures Alike(ObjectShown, PairValue, x, y) {
      SameObjectLine(x.0, x.1, y.0, y.1);
      if ObjectShown(x) == ObjectShown(y) {
        LoadedObjectsAreDetermined(x.0, x.1, y.0, y.1);
      }
    }
    MapsAlike(ObjectShown, PairValue, xs, ys);
  }

  lemma {:induction false} AbsoluteShown(p: Option<Str>, q: Option<Str>)
    requires Absolute(p) && Absolute(q)
    ensures RuntimeShown(p) == RuntimeShown(q) <==> p == q
  {
    assert "<unset>"[0] != '/';
  }

  /** Among legible policies the text determines everything but the two fields that
      are never printed, the addfd rules and the network switch, and which of the
      equal mount objects an attach path stands in. */
  lemma {:induction false} LegibleReportDetermines(a: Ir, b: Ir)
    requires Legible(a) && Legible(b)
    ensures Report(a) == Report(b) <==>
      && a.(netEnabled := false, addfd := [], brokerObject := []) == b.(netEnabled := false, addfd := [], brokerObject := [])
      && Map(PairValue, Pairs(a.brokerObject)) == Map(PairValue, Pairs(b.brokerObject))
  {
    ReportDeterminesIff(a, b);
    LegibleBinds(a.brokerBind, b.brokerBind);
    LegibleBinds(a.mountBind, b.mountBind);
    LegiblePairs(Pairs(a.brokerObject), Pairs(b.brokerObject));
    AbsoluteShown(a.root, b.root);
    AbsoluteShown(a.cwd, b.cwd);
  }
}
