/** The dry-run text as groups of lines, one group a section. */
module DryRunGroups {
  import opened Bytes
  import opened DryRun
  import opened DryRunReport
  import opened DryRunText
  import opened Numerals
  import opened Order
  import opened PolicyIr
  import opened TextLines

  // ----- the lines of a policy

  function LayerLines(i: nat, l: FsLayer): seq<string> {
    [LayerLine(i, l)] + Map(FsRuleLine, l.rules)
  }

  function LayersLines(layers: seq<FsLayer>): seq<string> {
    if layers == [] then []
    else LayersLines(layers[..|layers| - 1]) + LayerLines(|layers| - 1, layers[|layers| - 1])
  }

  /** Every object with every one of its attach paths. */
  function Pairs(objects: seq<ObjectRule>): seq<(ObjectRule, Str)> {
    if objects == [] then []
    else
      var last := objects[|objects| - 1];
      Pairs(objects[..|objects| - 1]) + Map((path: Str) => (last, path), last.attach)
  }

  function PairLine(pair: (ObjectRule, Str)): string {
    ObjectLine(pair.0, pair.1)
  }

  function Paths(prefix: string, paths: seq<Str>): seq<string> {
    Map(p => PathLine(prefix, p), paths)
  }

  function Binds(prefix: string, rules: seq<BindRule>): seq<string> {
    Map(r => BindLine(prefix, r), rules)
  }

  lemma {:induction false} LinesAreFlat<T>(line: T -> string, xs: seq<T>)
    ensures Lines(line, xs) == Flat(Map(line, xs))
  {
    if xs != [] {
      var n := |xs| - 1;
      LinesAreFlat(line, xs[..n]);
      assert Map(line, xs) == Map(line, xs[..n]) + [line(xs[n])];
      FlatConcat(Map(line, xs[..n]), [line(xs[n])]);
      FlatOne(line(xs[n]));
    }
  }

  lemma {:induction false} FlatOne(line: string)
    ensures Flat([line]) == line
  {
    assert [line][1..] == [] && line + [] == line;
  }

  lemma {:induction false} LayersAreFlat(layers: seq<FsLayer>)
    ensures LayersText(layers) == Flat(LayersLines(layers))
  {
    if layers != [] {
      var n := |layers| - 1;
      LayersAreFlat(layers[..n]);
      FlatConcat(LayersLines(layers[..n]), LayerLines(n, layers[n]));
      FlatConcat([LayerLine(n, layers[n])], Map(FsRuleLine, layers[n].rules));
      FlatOne(LayerLine(n, layers[n]));
      LinesAreFlat(FsRuleLine, layers[n].rules);
    }
  }

  lemma {:induction false} OneObjectIsFlat(r: ObjectRule)
    ensures Flat(Map(PairLine, Map((path: Str) => (r, path), r.attach))) == ObjectText(r)
  {
    LinesAreFlat(path => ObjectLine(r, path), r.attach);
    assert Map(PairLine, Map((path: Str) => (r, path), r.attach)) == Map(path => ObjectLine(r, path), r.attach);
  }

  lemma {:induction false} MapConcat<A, B>(f: A -> B, xs: seq<A>, ys: seq<A>)
    ensures Map(f, xs + ys) == Map(f, xs) + Map(f, ys)
  {
  }

  lemma {:induction false} ObjectsAreFlat(objects: seq<ObjectRule>)
    ensures Lines(ObjectText, objects) == Flat(Map(PairLine, Pairs(objects)))
  {
    if objects != [] {
      var n := |objects| - 1;
      var last := objects[n];
      var here := Map((path: Str) => (last, path), last.attach);
      ObjectsAreFlat(objects[..n]);
      MapConcat(PairLine, Pairs(objects[..n]), here);
      FlatConcat(Map(PairLine, Pairs(objects[..n])), Map(PairLine, here));
      OneObjectIsFlat(last);
    }
  }

  lemma {:induction false} PathsAreFlat(prefix: string, paths: seq<Str>)
    ensures Flat(Paths(prefix, paths)) == PathLines(prefix, paths)
  {
    LinesAreFlat(p => PathLine(prefix, p), paths);
  }

  lemma {:induction false} BindsAreFlat(prefix: string, rules: seq<BindRule>)
    ensures Flat(Binds(prefix, rules)) == BindLines(prefix, rules)
  {
    LinesAreFlat(r => BindLine(prefix, r), rules);
  }

  // ----- every group of lines belongs to its own section

  ghost predicate InSection(lines: seq<string>, k: nat) {
    forall line :: line in lines ==> Section(line) == k && EndsOnce(line)
  }

  /** These lines make up this text, and section k knows them as its own. */
  ghost predicate Prints(lines: seq<string>, text: string, k: nat) {
    Flat(lines) == text && InSection(lines, k)
  }

  lemma {:induction false} OnePrints(line: string, k: nat)
    requires Section(line) == k && EndsOnce(line)
    ensures Prints([line], line, k)
  {
    FlatOne(line);
  }

  lemma {:induction false} PathsPrint(prefix: string, paths: seq<Str>, k: nat)
    requires Heads(prefix, k)
    ensures Prints(Paths(prefix, paths), PathLines(prefix, paths), k)
  {
    PathsAreFlat(prefix, paths);
    forall i | 0 <= i < |paths| ensures Section(Paths(prefix, paths)[i]) == k && EndsOnce(Paths(prefix, paths)[i]) {
      PathLineIsFine(prefix, paths[i]);
    }
  }

  lemma {:induction false} BindsPrint(prefix: string, rules: seq<BindRule>, k: nat)
    requires Heads(prefix, k)
    ensures Prints(Binds(prefix, rules), BindLines(prefix, rules), k)
  {
    BindsAreFlat(prefix, rules);
    forall i | 0 <= i < |rules| ensures Section(Binds(prefix, rules)[i]) == k && EndsOnce(Binds(prefix, rules)[i]) {
      BindLineIsFine(prefix, rules[i]);
    }
  }

  lemma {:induction false} HeadPrints()
    ensures Prints(["landlockd dry-run v1\n"], "landlockd dry-run v1\n", 0)
  {
    var body := " dry-run v1";
    assert "landlockd dry-run v1\n" == "landlockd" + body + "\n";
    LineOf("landlockd", body);
    OnePrints("landlockd dry-run v1\n", 0);
  }

  lemma {:induction false} LayerWords()
    ensures SectionOf("fs.layer") == 1 && SectionOf("fs.rule") == 1
  {
  }

  lemma {:induction false} LayersPrint(layers: seq<FsLayer>)
    ensures Prints(LayersLines(layers), LayersText(layers), 1)
  {
    LayersAreFlat(layers);
    LayersInSection(layers);
  }

  lemma {:induction false} LayersInSection(layers: seq<FsLayer>)
    ensures InSection(LayersLines(layers), 1)
  {
    if layers != [] {
      var n := |layers| - 1;
      LayersInSection(layers[..n]);
      LayerWords();
      LayerLineIsFine(n, layers[n]);
      var rules := layers[n].rules;
      forall i | 0 <= i < |rules| ensures Section(Map(FsRuleLine, rules)[i]) == 1 && EndsOnce(Map(FsRuleLine, rules)[i]) {
        FsRuleLineIsFine(rules[i]);
      }
    }
  }

  lemma {:induction false} NetPrints(handled: u64, rules: seq<NetRule>)
    ensures Prints([NetLine(handled)], NetLine(handled), 2) && Prints(Map(NetRuleLine, rules), Lines(NetRuleLine, rules), 3)
  {
    NetLineIsFine(handled);
    OnePrints(NetLine(handled), 2);
    LinesAreFlat(NetRuleLine, rules);
    forall i | 0 <= i < |rules| ensures Section(Map(NetRuleLine, rules)[i]) == 3 && EndsOnce(Map(NetRuleLine, rules)[i]) {
      NetRuleLineIsFine(rules[i]);
    }
  }

  lemma {:induction false} PairIsFine(pair: (ObjectRule, Str))
    ensures Section(PairLine(pair)) == 10 && EndsOnce(PairLine(pair))
  {
    ObjectHeads();
    ObjectLineIsFine(pair.0, pair.1);
  }

  lemma {:induction false} PairsInSection(pairs: seq<(ObjectRule, Str)>)
    ensures InSection(Map(PairLine, pairs), 10)
  {
    if pairs != [] {
      var n := |pairs| - 1;
      PairsInSection(pairs[..n]);
      PairIsFine(pairs[n]);
      assert Map(PairLine, pairs) == Map(PairLine, pairs[..n]) + [PairLine(pairs[n])];
    }
  }

  lemma {:induction false} ObjectsPrint(objects: seq<ObjectRule>)
    ensures Prints(Map(PairLine, Pairs(objects)), Lines(ObjectText, objects), 10)
  {
    ObjectsAreFlat(objects);
    PairsInSection(Pairs(objects));
  }

  lemma {:induction false} RuntimePrints(root: Option<Str>, cwd: Option<Str>)
    ensures Prints([RuntimeLine("root", root)], RuntimeLine("root", root), 14)
    ensures Prints([RuntimeLine("cwd", cwd)], RuntimeLine("cwd", cwd), 15)
  {
    assert "runtime." + "root" == "runtime.root" && "runtime." + "cwd" == "runtime.cwd";
    RuntimeLineIsFine("root", root);
    RuntimeLineIsFine("cwd", cwd);
    OnePrints(RuntimeLine("root", root), 14);
    OnePrints(RuntimeLine("cwd", cwd), 15);
  }

  lemma {:induction false} SeccompPrints(enabled: bool, errno: u16, deny: seq<u32>)
    ensures Prints([SeccompLine(enabled, errno)], SeccompLine(enabled, errno), 16)
    ensures Prints(Map(DenyLine, deny), Lines(DenyLine, deny), 17)
  {
    SeccompLineIsFine(enabled, errno);
    OnePrints(SeccompLine(enabled, errno), 16);
    LinesAreFlat(DenyLine, deny);
    forall i | 0 <= i < |deny| ensures Section(Map(DenyLine, deny)[i]) == 17 && EndsOnce(Map(DenyLine, deny)[i]) {
      DenyLineIsFine(deny[i]);
    }
  }

  lemma {:induction false} BrokerPathsPrint(ir: Ir)
    ensures Prints(Paths("broker.open_read", ir.openRead), PathLines("broker.open_read", ir.openRead), 4)
    ensures Prints(Paths("broker.open_write", ir.openWrite), PathLines("broker.open_write", ir.openWrite), 5)
    ensures Prints(Paths("broker.scratch", ir.scratch), PathLines("broker.scratch", ir.scratch), 6)
    ensures Prints(Paths("broker.export", ir.exports), PathLines("broker.export", ir.exports), 7)
    ensures Prints(Paths("broker.mount_tmpfs", ir.brokerTmpfs), PathLines("broker.mount_tmpfs", ir.brokerTmpfs), 8)
  {
    OpenHeads();
    ScratchHeads();
    BrokerMountHeads();
    PathsPrint("broker.open_read", ir.openRead, 4);
    PathsPrint("broker.open_write", ir.openWrite, 5);
    PathsPrint("broker.scratch", ir.scratch, 6);
    PathsPrint("broker.export", ir.exports, 7);
    PathsPrint("broker.mount_tmpfs", ir.brokerTmpfs, 8);
  }

  lemma {:induction false} MountsPrint(ir: Ir)
    ensures Prints(Binds("broker.mount_bind", ir.brokerBind), BindLines("broker.mount_bind", ir.brokerBind), 9)
    ensures Prints(Paths("mount.tmpfs", ir.mountTmpfs), PathLines("mount.tmpfs", ir.mountTmpfs), 11)
    ensures Prints(Binds("mount.bind", ir.mountBind), BindLines("mount.bind", ir.mountBind), 12)
    ensures Prints(Paths("mount.proc", ir.mountProc), PathLines("mount.proc", ir.mountProc), 13)
  {
    BrokerMountHeads();
    ObjectHeads();
    MountHeads();
    BindsPrint("broker.mount_bind", ir.brokerBind, 9);
    PathsPrint("mount.tmpfs", ir.mountTmpfs, 11);
    BindsPrint("mount.bind", ir.mountBind, 12);
    PathsPrint("mount.proc", ir.mountProc, 13);
  }

  // ----- all groups

  /** Groups of lines that make up a text, one group a section. */
  ghost predicate PartPrints(groups: seq<seq<string>>, text: string, first: nat) {
    Flat(All(groups)) == text && InOrder(Section, groups, first) && AllEndOnce(All(groups))
  }

  lemma {:induction false} OnePart(lines: seq<string>, text: string, k: nat)
    requires Prints(lines, text, k)
    ensures PartPrints([lines], text, k)
  {
    assert [lines][1..] == [] && All([lines]) == lines + All([]) == lines;
  }

  lemma {:induction false} AllConcat(g: seq<seq<string>>, h: seq<seq<string>>)
    ensures All(g + h) == All(g) + All(h)
  {
    if g == [] {
      assert g + h == h;
    } else {
      AllConcat(g[1..], h);
      assert (g + h)[1..] == g[1..] + h;
    }
  }

  lemma {:induction false} TwoParts(g: seq<seq<string>>, t: string, h: seq<seq<string>>, u: string, k: nat)
    requires PartPrints(g, t, k) && PartPrints(h, u, k + |g|)
    ensures PartPrints(g + h, t + u, k)
  {
    AllConcat(g, h);
    FlatConcat(All(g), All(h));
    forall i, line | 0 <= i < |g + h| && line in (g + h)[i] ensures Section(line) == k + i {
      if i >= |g| {
        assert line in h[i - |g|];
      }
    }
  }

  lemma {:induction false} Add(g: seq<seq<string>>, t: string, lines: seq<string>, u: string, first: nat, k: nat)
    requires PartPrints(g, t, first) && Prints(lines, u, k) && k == first + |g|
    ensures PartPrints(g + [lines], t + u, first)
  {
    OnePart(lines, u, k);
    TwoParts(g, t, [lines], u, first);
  }

  function RulesPart(ir: Ir): seq<seq<string>> {
    [["landlockd dry-run v1\n"]] + [LayersLines(ir.fsLayers)] + [[NetLine(ir.netHandled)]] + [Map(NetRuleLine, ir.netRules)]
  }

  lemma {:induction false} RulesPartPrints(ir: Ir)
    ensures PartPrints(RulesPart(ir), RulesText(ir), 0)
  {
    var head := "landlockd dry-run v1\n";
    HeadPrints();
    LayersPrint(ir.fsLayers);
    NetPrints(ir.netHandled, ir.netRules);
    OnePart([head], head, 0);
    FourParts([head], head, LayersLines(ir.fsLayers), LayersText(ir.fsLayers), [NetLine(ir.netHandled)], NetLine(ir.netHandled),
              Map(NetRuleLine, ir.netRules), Lines(NetRuleLine, ir.netRules), 0);
  }

  lemma {:induction false} FourParts(a: seq<string>, s: string, b: seq<string>, t: string,
                                     c: seq<string>, u: string, d: seq<string>, v: string, k: nat)
    requires Prints(a, s, k) && Prints(b, t, k + 1) && Prints(c, u, k + 2) && Prints(d, v, k + 3)
    ensures PartPrints([a] + [b] + [c] + [d], s + t + u + v, k)
  {
    OnePart(a, s, k);
    Add([a], s, b, t, k, k + 1);
    Add([a] + [b], s + t, c, u, k, k + 2);
    Add([a] + [b] + [c], s + t + u, d, v, k, k + 3);
  }

  lemma {:induction false} FiveParts(a: seq<string>, s: string, b: seq<string>, t: string, c: seq<string>, u: string,
                                     d: seq<string>, v: string, e: seq<string>, w: string, k: nat)
    requires Prints(a, s, k) && Prints(b, t, k + 1) && Prints(c, u, k + 2) && Prints(d, v, k + 3) && Prints(e, w, k + 4)
    ensures PartPrints([a] + [b] + [c] + [d] + [e], s + t + u + v + w, k)
  {
    FourParts(a, s, b, t, c, u, d, v, k);
    Add([a] + [b] + [c] + [d], s + t + u + v, e, w, k, k + 4);
  }

  function BrokerPart(ir: Ir): seq<seq<string>> {
    [Paths("broker.open_read", ir.openRead)] + [Paths("broker.open_write", ir.openWrite)]
    + [Paths("broker.scratch", ir.scratch)] + [Paths("broker.export", ir.exports)]
    + [Paths("broker.mount_tmpfs", ir.brokerTmpfs)]
  }

  lemma {:induction false} BrokerPartPrints(ir: Ir)
    ensures PartPrints(BrokerPart(ir), BrokerText(ir), 4)
  {
    BrokerPathsPrint(ir);
    FiveParts(Paths("broker.open_read", ir.openRead), PathLines("broker.open_read", ir.openRead),
              Paths("broker.open_write", ir.openWrite), PathLines("broker.open_write", ir.openWrite),
              Paths("broker.scratch", ir.scratch), PathLines("broker.scratch", ir.scratch),
              Paths("broker.export", ir.exports), PathLines("broker.export", ir.exports),
              Paths("broker.mount_tmpfs", ir.brokerTmpfs), PathLines("broker.mount_tmpfs", ir.brokerTmpfs), 4);
  }

  function MountPart(ir: Ir): seq<seq<string>> {
    [Binds("broker.mount_bind", ir.brokerBind)] + [Map(PairLine, Pairs(ir.brokerObject))]
    + [Paths("mount.tmpfs", ir.mountTmpfs)] + [Binds("mount.bind", ir.mountBind)] + [Paths("mount.proc", ir.mountProc)]
  }

  lemma {:induction false} MountPartPrints(ir: Ir)
    ensures PartPrints(MountPart(ir), MountText(ir), 9)
  {
    MountsPrint(ir);
    ObjectsPrint(ir.brokerObject);
    FiveParts(Binds("broker.mount_bind", ir.brokerBind), BindLines("broker.mount_bind", ir.brokerBind),
              Map(PairLine, Pairs(ir.brokerObject)), Lines(ObjectText, ir.brokerObject),
              Paths("mount.tmpfs", ir.mountTmpfs), PathLines("mount.tmpfs", ir.mountTmpfs),
              Binds("mount.bind", ir.mountBind), BindLines("mount.bind", ir.mountBind),
              Paths("mount.proc", ir.mountProc), PathLines("mount.proc", ir.mountProc), 9);
  }

  function ProcessPart(ir: Ir): seq<seq<string>> {
    [[RuntimeLine("root", ir.root)]] + [[RuntimeLine("cwd", ir.cwd)]]
    + [[SeccompLine(ir.seccompEnabled, ir.seccompErrno)]] + [Map(DenyLine, ir.deny)]
  }

  lemma {:induction false} ProcessPartPrints(ir: Ir)
    ensures PartPrints(ProcessPart(ir), ProcessText(ir), 14)
  {
    RuntimePrints(ir.root, ir.cwd);
    SeccompPrints(ir.seccompEnabled, ir.seccompErrno, ir.deny);
    FourParts([RuntimeLine("root", ir.root)], RuntimeLine("root", ir.root), [RuntimeLine("cwd", ir.cwd)], RuntimeLine("cwd", ir.cwd),
              [SeccompLine(ir.seccompEnabled, ir.seccompErrno)], SeccompLine(ir.seccompEnabled, ir.seccompErrno),
              Map(DenyLine, ir.deny), Lines(DenyLine, ir.deny), 14);
  }

  function Groups(ir: Ir): seq<seq<string>> {
    RulesPart(ir) + BrokerPart(ir) + MountPart(ir) + ProcessPart(ir)
  }

  lemma {:induction false} ReportPrints(ir: Ir)
    ensures PartPrints(Groups(ir), Report(ir), 0)
  {
    RulesPartPrints(ir);
    BrokerPartPrints(ir);
    MountPartPrints(ir);
    ProcessPartPrints(ir);
    AllParts(RulesPart(ir), RulesText(ir), BrokerPart(ir), BrokerText(ir), MountPart(ir), MountText(ir),
             ProcessPart(ir), ProcessText(ir));
  }

  lemma {:induction false} AllParts(g: seq<seq<string>>, s: string, h: seq<seq<string>>, t: string,
                                    m: seq<seq<string>>, u: string, p: seq<seq<string>>, v: string)
    requires PartPrints(g, s, 0) && |g| == 4 && PartPrints(h, t, 4) && |h| == 5
    requires PartPrints(m, u, 9) && |m| == 5 && PartPrints(p, v, 14)
    ensures PartPrints(g + h + m + p, s + t + u + v, 0)
  {
    TwoParts(g, s, h, t, 0);
    TwoParts(g + h, s + t, m, u, 0);
    TwoParts(g + h + m, s + t + u, p, v, 0);
  }

  lemma {:induction false} SameParts(g: seq<seq<string>>, s: string, h: seq<seq<string>>, t: string)
    requires PartPrints(g, s, 0) && PartPrints(h, t, 0) && |g| == |h|
    ensures s == t <==> g == h
  {
    if s == t {
      FlatInjective(All(g), All(h));
      SectionsDetermined(Section, g, h, 0);
    }
  }

  /** Two policies print the same text exactly when every section has the same
      lines. */
  lemma {:induction false} SameReport(a: Ir, b: Ir)
    ensures Report(a) == Report(b) <==> Groups(a) == Groups(b)
  {
    ReportPrints(a);
    ReportPrints(b);
    SameParts(Groups(a), Report(a), Groups(b), Report(b));
  }
}
