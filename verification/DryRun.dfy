/** landlockd run --dry-run: sort every rule list, then print. */
module DryRun {
  import opened Bytes
  import opened Numerals
  import opened Order
  import opened PolicyIr

  // ----- comparison functions

  function Code(b: byte): int {
    b as int
  }

  /** strcmp: bytes as unsigned numbers. */
  const STR: Cmp<Str> := Seqs(On(Code, IntCmp))

  function FsPath(r: FsRule): Str { r.path }
  function FsAccess(r: FsRule): int { r.access }
  const FS_RULE: Cmp<FsRule> := Lex(On(FsPath, STR), On(FsAccess, IntCmp))

  function NetPort(r: NetRule): int { r.port }
  function NetAccess(r: NetRule): int { r.access }
  const NET_RULE: Cmp<NetRule> := Lex(On(NetPort, IntCmp), On(NetAccess, IntCmp))

  function BindSource(r: BindRule): Str { r.source }
  function BindTarget(r: BindRule): Str { r.target }
  function BindFlag(r: BindRule): int { if r.readOnly then 1 else 0 }
  const BIND: Cmp<BindRule> := Lex(On(BindSource, STR), Lex(On(BindTarget, STR), On(BindFlag, IntCmp)))

  function ObjectName(r: ObjectRule): Str { r.name }
  function ObjectType(r: ObjectRule): Str { r.fsType }
  function ObjectAttrs(r: ObjectRule): int { r.attrs }
  function ObjectAttach(r: ObjectRule): seq<Str> { r.attach }
  const OBJECT: Cmp<ObjectRule> :=
    Lex(On(ObjectName, STR), Lex(On(ObjectType, STR), Lex(On(ObjectAttrs, IntCmp), On(ObjectAttach, Seqs(STR)))))

  function Number(n: u32): int { n }
  const DENY: Cmp<u32> := On(Number, IntCmp)

  /** The attach loop of landlockd_cli_dry_run_mount_object_cmp. */
  method CompareAttach(a: seq<Str>, b: seq<Str>) returns (cmp: int)
    ensures cmp == SeqCmp(STR, a, b)
  {
    var n := if |a| < |b| then |a| else |b|;
    for i := 0 to n
      invariant SeqCmp(STR, a, b) == SeqCmp(STR, a[i..], b[i..])
    {
      cmp := STR(a[i], b[i]);
      if cmp != 0 {
        return;
      }
      assert a[i..][1..] == a[i + 1..] && b[i..][1..] == b[i + 1..];
    }
    cmp := (if |a| > |b| then 1 else 0) - (if |a| < |b| then 1 else 0);
  }

  lemma {:induction false} StrTotal()
    ensures Total(STR)
  {
    IntTotal();
    OnWeak(Code, IntCmp);
    forall x, y ensures Separates(On(Code, IntCmp), x, y) {
      assert Separates(IntCmp, Code(x), Code(y));
    }
    SeqTotal(On(Code, IntCmp));
  }

  /** Every comparison function is a total order in which zero means equal. */
  lemma {:induction false} FsRuleOrderTotal()
    ensures Total(FS_RULE)
  {
    StrTotal();
    IntTotal();
    OnWeak(FsPath, STR);
    OnWeak(FsAccess, IntCmp);
    LexWeak(On(FsPath, STR), On(FsAccess, IntCmp));
    forall x, y ensures Separates(FS_RULE, x, y) {
      assert Separates(STR, x.path, y.path);
      assert FS_RULE(x, y) == LexAt(On(FsPath, STR), On(FsAccess, IntCmp), x, y);
    }
  }

  lemma {:induction false} NetRuleOrderTotal()
    ensures Total(NET_RULE)
  {
    IntTotal();
    OnWeak(NetPort, IntCmp);
    OnWeak(NetAccess, IntCmp);
    LexWeak(On(NetPort, IntCmp), On(NetAccess, IntCmp));
    forall x, y ensures Separates(NET_RULE, x, y) {
      assert NET_RULE(x, y) == LexAt(On(NetPort, IntCmp), On(NetAccess, IntCmp), x, y);
    }
  }

  lemma {:induction false} DenyOrderTotal()
    ensures Total(DENY)
  {
    IntTotal();
    OnWeak(Number, IntCmp);
    forall x, y ensures Separates(DENY, x, y) {
      assert Separates(IntCmp, Number(x), Number(y));
    }
  }

  lemma {:induction false} BindOrderTotal()
    ensures Total(BIND)
  {
    StrTotal();
    IntTotal();
    OnWeak(BindSource, STR);
    OnWeak(BindTarget, STR);
    OnWeak(BindFlag, IntCmp);
    LexWeak(On(BindTarget, STR), On(BindFlag, IntCmp));
    LexWeak(On(BindSource, STR), Lex(On(BindTarget, STR), On(BindFlag, IntCmp)));
    forall x, y ensures Separates(BIND, x, y) {
      assert Separates(STR, x.source, y.source) && Separates(STR, x.target, y.target);
    }
  }

  lemma {:induction false} ObjectOrderTotal()
    ensures Total(OBJECT)
  {
    StrTotal();
    IntTotal();
    SeqTotal(STR);
    OnWeak(ObjectName, STR);
    OnWeak(ObjectType, STR);
    OnWeak(ObjectAttrs, IntCmp);
    OnWeak(ObjectAttach, Seqs(STR));
    LexWeak(On(ObjectAttrs, IntCmp), On(ObjectAttach, Seqs(STR)));
    LexWeak(On(ObjectType, STR), Lex(On(ObjectAttrs, IntCmp), On(ObjectAttach, Seqs(STR))));
    LexWeak(On(ObjectName, STR), Lex(On(ObjectType, STR), Lex(On(ObjectAttrs, IntCmp), On(ObjectAttach, Seqs(STR)))));
    forall x, y ensures Separates(OBJECT, x, y) {
      assert Separates(STR, x.name, y.name) && Separates(STR, x.fsType, y.fsType);
      assert Separates(Seqs(STR), x.attach, y.attach);
    }
  }

  lemma {:induction false} OrdersTotal()
    ensures Total(STR) && Total(FS_RULE) && Total(NET_RULE) && Total(DENY) && Total(BIND) && Total(OBJECT)
  {
    StrTotal();
    FsRuleOrderTotal();
    NetRuleOrderTotal();
    DenyOrderTotal();
    BindOrderTotal();
    ObjectOrderTotal();
  }

  // ----- the canonical policy

  function SortLayer(l: FsLayer): FsLayer {
    l.(rules := Sort(FS_RULE, l.rules))
  }

  function SortObject(o: ObjectRule): ObjectRule {
    o.(attach := Sort(STR, o.attach))
  }

  function SortObjects(objects: seq<ObjectRule>): seq<ObjectRule> {
    Sort(OBJECT, Map(SortObject, objects))
  }

  /** The policy after the qsort calls of landlockd_cli_dry_run. */
  function Canonical(ir: Ir): Ir {
    ir.(fsLayers := Map(SortLayer, ir.fsLayers),
        netRules := Sort(NET_RULE, ir.netRules),
        openRead := Sort(STR, ir.openRead), openWrite := Sort(STR, ir.openWrite),
        scratch := Sort(STR, ir.scratch), exports := Sort(STR, ir.exports),
        brokerTmpfs := Sort(STR, ir.brokerTmpfs), brokerBind := Sort(BIND, ir.brokerBind),
        brokerObject := SortObjects(ir.brokerObject),
        mountTmpfs := Sort(STR, ir.mountTmpfs), mountBind := Sort(BIND, ir.mountBind),
        mountProc := Sort(STR, ir.mountProc), deny := Sort(DENY, ir.deny))
  }

  // ----- printing

  function EscapedByte(b: byte): string {
    if b == '\\' then "\\\\"
    else if b == '\n' then "\\n"
    else if b == '\r' then "\\r"
    else if b == '\t' then "\\t"
    else if b as int < 0x20 then "\\u00" + [Digit(b as int / 16), Digit(b as int % 16)]
    else [b]
  }

  /** landlockd_cli_dry_run_string. */
  function Escaped(s: Str): string {
    if s == [] then [] else Escaped(s[..|s| - 1]) + EscapedByte(s[|s| - 1])
  }

  function Lines<T>(line: T -> string, xs: seq<T>): string {
    if xs == [] then [] else Lines(line, xs[..|xs| - 1]) + line(xs[|xs| - 1])
  }

  function FsRuleLine(r: FsRule): string {
    "fs.rule path=" + Escaped(r.path) + " allowed=" + Hex(r.access) + "\n"
  }

  function LayerText(i: nat, l: FsLayer): string {
    "fs.layer[" + Decimal(i) + "] handled=" + Hex(l.handled) + "\n" + Lines(FsRuleLine, l.rules)
  }

  function LayersText(layers: seq<FsLayer>): string {
    if layers == [] then []
    else LayersText(layers[..|layers| - 1]) + LayerText(|layers| - 1, layers[|layers| - 1])
  }

  function NetRuleLine(r: NetRule): string {
    "net.rule port=" + Decimal(r.port) + " allowed=" + Hex(r.access) + "\n"
  }

  function PathLine(prefix: string, path: Str): string {
    prefix + " path=" + Escaped(path) + "\n"
  }

  const TARGET: Str := " target="

  function BindLine(prefix: string, r: BindRule): string {
    prefix + " source=" + (Escaped(r.source) + TARGET + Escaped(r.target)) + " ro=" + Decimal(BindFlag(r)) + "\n"
  }

  function ObjectLine(r: ObjectRule, attach: Str): string {
    "broker.mount_object name=" + Escaped(r.name) + " fs_type=" + Escaped(r.fsType) + " attach=" + Escaped(attach)
      + " attrs=" + Hex(r.attrs) + "\n"
  }

  function ObjectText(r: ObjectRule): string {
    Lines(path => ObjectLine(r, path), r.attach)
  }

  function RuntimeLine(key: string, path: Option<Str>): string {
    "runtime." + key + "=" + (if path.Some? then Escaped(path.value) else "<unset>") + "\n"
  }

  function DenyLine(n: u32): string {
    "seccomp.deny syscall=" + Decimal(n) + "\n"
  }

  function PathLines(prefix: string, paths: seq<Str>): string {
    Lines(p => PathLine(prefix, p), paths)
  }

  function BindLines(prefix: string, rules: seq<BindRule>): string {
    Lines(r => BindLine(prefix, r), rules)
  }

  function RulesText(ir: Ir): string {
    "landlockd dry-run v1\n" + LayersText(ir.fsLayers) + ("net.handled=" + Hex(ir.netHandled) + "\n")
    + Lines(NetRuleLine, ir.netRules)
  }

  function BrokerText(ir: Ir): string {
    PathLines("broker.open_read", ir.openRead) + PathLines("broker.open_write", ir.openWrite)
    + PathLines("broker.scratch", ir.scratch) + PathLines("broker.export", ir.exports)
    + PathLines("broker.mount_tmpfs", ir.brokerTmpfs)
  }

  function MountText(ir: Ir): string {
    BindLines("broker.mount_bind", ir.brokerBind) + Lines(ObjectText, ir.brokerObject)
    + PathLines("mount.tmpfs", ir.mountTmpfs) + BindLines("mount.bind", ir.mountBind)
    + PathLines("mount.proc", ir.mountProc)
  }

  function ProcessText(ir: Ir): string {
    RuntimeLine("root", ir.root) + RuntimeLine("cwd", ir.cwd)
    + ("seccomp.enabled=" + Decimal(if ir.seccompEnabled then 1 else 0) + " errno=" + Decimal(ir.seccompErrno) + "\n")
    + Lines(DenyLine, ir.deny)
  }

  /** The printed text of a policy, in its list order. */
  function Report(ir: Ir): string {
    RulesText(ir) + BrokerText(ir) + MountText(ir) + ProcessText(ir)
  }

  // ----- the text does not depend on the order of the rules

  function ObjectKey(o: ObjectRule): (Str, Str, multiset<Str>, u64) {
    (o.name, o.fsType, multiset(o.attach), o.attrs)
  }

  /** The same rules in any order, and in every mount object the same attach
      paths in any order. Nothing is said about addfd rules or about whether
      networking is restricted: neither is printed. */
  ghost predicate SameRules(a: Ir, b: Ir) {
    && |a.fsLayers| == |b.fsLayers|
    && (forall i :: 0 <= i < |a.fsLayers| ==>
          a.fsLayers[i].handled == b.fsLayers[i].handled && multiset(a.fsLayers[i].rules) == multiset(b.fsLayers[i].rules))
    && a.netHandled == b.netHandled && multiset(a.netRules) == multiset(b.netRules)
    && multiset(a.openRead) == multiset(b.openRead) && multiset(a.openWrite) == multiset(b.openWrite)
    && multiset(a.scratch) == multiset(b.scratch) && multiset(a.exports) == multiset(b.exports)
    && multiset(a.brokerTmpfs) == multiset(b.brokerTmpfs) && multiset(a.brokerBind) == multiset(b.brokerBind)
    && multiset(Map(ObjectKey, a.brokerObject)) == multiset(Map(ObjectKey, b.brokerObject))
    && multiset(a.mountTmpfs) == multiset(b.mountTmpfs) && multiset(a.mountBind) == multiset(b.mountBind)
    && multiset(a.mountProc) == multiset(b.mountProc)
    && a.root == b.root && a.cwd == b.cwd
    && a.seccompEnabled == b.seccompEnabled && a.seccompErrno == b.seccompErrno && multiset(a.deny) == multiset(b.deny)
  }

  lemma {:induction false} LayersCanonical(a: seq<FsLayer>, b: seq<FsLayer>)
    requires |a| == |b|
    requires forall i :: 0 <= i < |a| ==> a[i].handled == b[i].handled && multiset(a[i].rules) == multiset(b[i].rules)
    ensures Map(SortLayer, a) == Map(SortLayer, b)
  {
    FsRuleOrderTotal();
    forall i | 0 <= i < |a| ensures SortLayer(a[i]) == SortLayer(b[i]) {
      SortIsCanonical(FS_RULE, a[i].rules, b[i].rules);
    }
  }

  lemma {:induction false} ObjectsCanonical(a: seq<ObjectRule>, b: seq<ObjectRule>)
    requires multiset(Map(ObjectKey, a)) == multiset(Map(ObjectKey, b))
    ensures SortObjects(a) == SortObjects(b)
  {
    StrTotal();
    ObjectOrderTotal();
    forall x, y | x in a && y in b && ObjectKey(x) == ObjectKey(y) ensures SortObject(x) == SortObject(y) {
      SortIsCanonical(STR, x.attach, y.attach);
    }
    MapThroughKey(ObjectKey, SortObject, a, b);
    SortIsCanonical(OBJECT, Map(SortObject, a), Map(SortObject, b));
  }

  /** Policies with the same rules print the same text. */
  lemma {:induction false} ReportIsCanonical(a: Ir, b: Ir)
    requires SameRules(a, b)
    ensures Report(Canonical(a)) == Report(Canonical(b))
  {
    StrTotal();
    NetRuleOrderTotal();
    DenyOrderTotal();
    BindOrderTotal();
    LayersCanonical(a.fsLayers, b.fsLayers);
    ObjectsCanonical(a.brokerObject, b.brokerObject);
    SortIsCanonical(NET_RULE, a.netRules, b.netRules);
    SortIsCanonical(STR, a.openRead, b.openRead);
    SortIsCanonical(STR, a.openWrite, b.openWrite);
    SortIsCanonical(STR, a.scratch, b.scratch);
    SortIsCanonical(STR, a.exports, b.exports);
    SortIsCanonical(STR, a.brokerTmpfs, b.brokerTmpfs);
    SortIsCanonical(BIND, a.brokerBind, b.brokerBind);
    SortIsCanonical(STR, a.mountTmpfs, b.mountTmpfs);
    SortIsCanonical(BIND, a.mountBind, b.mountBind);
    SortIsCanonical(STR, a.mountProc, b.mountProc);
    SortIsCanonical(DENY, a.deny, b.deny);
    assert Canonical(b) == Canonical(a).(netEnabled := b.netEnabled, addfd := b.addfd);
  }

  lemma {:induction false} EscapedConcat(a: Str, b: Str)
    ensures Escaped(a + b) == Escaped(a) + Escaped(b)
  {
    if b == [] {
      assert a + b == a;
    } else {
      var init, last := b[..|b| - 1], b[|b| - 1];
      assert (a + b)[..|a + b| - 1] == a + init;
      EscapedConcat(a, init);
      Regroup(Escaped(a), Escaped(init), EscapedByte(last));
    }
  }

  lemma {:induction false} Regroup(a: string, b: string, c: string)
    ensures a + b + c == a + (b + c)
  {
  }

  predicate PlainByte(b: byte) {
    b as int >= 0x20 && b != '\\'
  }

  lemma {:induction false} EscapedPlain(s: Str)
    requires forall i :: 0 <= i < |s| ==> PlainByte(s[i])
    ensures Escaped(s) == s
  {
    if s != [] {
      var init, last := s[..|s| - 1], s[|s| - 1];
      EscapedPlain(init);
      assert PlainByte(last) && EscapedByte(last) == [last];
      assert s == init + [last];
    }
  }

  /** The text does not determine the policy: nothing delimits source and
      target, so different bind rules can print the same line. */
  lemma {:induction false} BindLinesCollide(prefix: string, x: Str, y: Str, z: Str, readOnly: bool)
    ensures BindLine(prefix, BindRule(x, y + TARGET + z, readOnly)) == BindLine(prefix, BindRule(x + TARGET + y, z, readOnly))
  {
    EscapedPlain(TARGET);
    EscapedConcat(y + TARGET, z);
    EscapedConcat(y, TARGET);
    EscapedConcat(x + TARGET, y);
    EscapedConcat(x, TARGET);
    Regroup(Escaped(x) + TARGET, Escaped(y) + TARGET, Escaped(z));
    Regroup(Escaped(x) + TARGET, Escaped(y), TARGET);
    assert Escaped(x) + TARGET + Escaped(y + TARGET + z) == Escaped(x + TARGET + y) + TARGET + Escaped(z);
  }

  // ----- landlockd_cli_dry_run

  /** qsort(3), which promises a sorted permutation and nothing about how it gets
      there. */
  method QSort<T(!new)>(c: Cmp<T>, xs: seq<T>) returns (ys: seq<T>)
    requires Weak(c)
    ensures Sorted(c, ys) && multiset(ys) == multiset(xs)
  {
    ys := [];
    for i := 0 to |xs|
      invariant Sorted(c, ys) && multiset(ys) == multiset(xs[..i])
    {
      assert xs[..i + 1] == xs[..i] + [xs[i]];
      InsertSorts(c, xs[i], ys);
      ys := Insert(c, xs[i], ys);
    }
    assert xs[..|xs|] == xs;
  }

  /** Under a total order there is only one sorted permutation, whichever qsort(3)
      finds it. */
  method SortList<T(!new)>(c: Cmp<T>, xs: seq<T>) returns (ys: seq<T>)
    requires Total(c)
    ensures ys == Sort(c, xs)
  {
    ys := QSort(c, xs);
    SortSorts(c, xs);
    SortedIsUnique(c, ys, Sort(c, xs));
  }

  lemma {:induction false} LinesNext<T>(line: T -> string, xs: seq<T>, i: nat, before: string)
    requires i < |xs|
    ensures before + Lines(line, xs[..i + 1]) == before + Lines(line, xs[..i]) + line(xs[i])
  {
    assert xs[..i + 1][..i] == xs[..i];
  }

  lemma {:induction false} LinesEnd<T>(line: T -> string, xs: seq<T>)
    ensures Lines(line, xs[..|xs|]) == Lines(line, xs)
  {
    assert xs[..|xs|] == xs;
  }

  lemma {:induction false} MapNext<A, B>(f: A -> B, xs: seq<A>, i: nat)
    requires i < |xs|
    ensures Map(f, xs[..i + 1]) == Map(f, xs[..i]) + [f(xs[i])]
  {
  }

  class Printer {
    var ir: Ir
    var out: string

    constructor (ir: Ir)
      ensures this.ir == ir && out == ""
    {
      this.ir := ir;
      out := "";
    }

    /** The qsort calls: every list is sorted in place. */
    method SortAll()
      modifies this`ir
      ensures ir == Canonical(old(ir))
    {
      OrdersTotal();
      var layers := [];
      for i := 0 to |ir.fsLayers|
        invariant ir == old(ir) && layers == Map(SortLayer, ir.fsLayers[..i])
      {
        var rules := SortList(FS_RULE, ir.fsLayers[i].rules);
        MapNext(SortLayer, ir.fsLayers, i);
        layers := layers + [ir.fsLayers[i].(rules := rules)];
      }
      assert ir.fsLayers[..|ir.fsLayers|] == ir.fsLayers;
      var netRules := SortList(NET_RULE, ir.netRules);
      var openRead := SortList(STR, ir.openRead);
      var openWrite := SortList(STR, ir.openWrite);
      var scratch := SortList(STR, ir.scratch);
      var exports := SortList(STR, ir.exports);
      var brokerTmpfs := SortList(STR, ir.brokerTmpfs);
      var brokerBind := SortList(BIND, ir.brokerBind);
      var objects := [];
      for i := 0 to |ir.brokerObject|
        invariant ir == old(ir) && objects == Map(SortObject, ir.brokerObject[..i])
      {
        var attach := SortList(STR, ir.brokerObject[i].attach);
        MapNext(SortObject, ir.brokerObject, i);
        objects := objects + [ir.brokerObject[i].(attach := attach)];
      }
      assert ir.brokerObject[..|ir.brokerObject|] == ir.brokerObject;
      objects := SortList(OBJECT, objects);
      var mountTmpfs := SortList(STR, ir.mountTmpfs);
      var mountBind := SortList(BIND, ir.mountBind);
      var mountProc := SortList(STR, ir.mountProc);
      var deny := SortList(DENY, ir.deny);
      ir := ir.(fsLayers := layers, netRules := netRules, openRead := openRead, openWrite := openWrite,
                scratch := scratch, exports := exports, brokerTmpfs := brokerTmpfs, brokerBind := brokerBind,
                brokerObject := objects, mountTmpfs := mountTmpfs, mountBind := mountBind, mountProc := mountProc,
                deny := deny);
    }

    /** The loops over plain paths. */
    method EmitPaths(prefix: string, paths: seq<Str>)
      modifies this`out
      ensures out == old(out) + PathLines(prefix, paths)
    {
      for i := 0 to |paths|
        invariant out == old(out) + Lines(p => PathLine(prefix, p), paths[..i])
      {
        out := out + PathLine(prefix, paths[i]);
        LinesNext(p => PathLine(prefix, p), paths, i, old(out));
      }
      LinesEnd(p => PathLine(prefix, p), paths);
    }

    method EmitBinds(prefix: string, rules: seq<BindRule>)
      modifies this`out
      ensures out == old(out) + BindLines(prefix, rules)
    {
      for i := 0 to |rules|
        invariant out == old(out) + Lines(r => BindLine(prefix, r), rules[..i])
      {
        out := out + BindLine(prefix, rules[i]);
        LinesNext(r => BindLine(prefix, r), rules, i, old(out));
      }
      LinesEnd(r => BindLine(prefix, r), rules);
    }

    method EmitFsRules(rules: seq<FsRule>)
      modifies this`out
      ensures out == old(out) + Lines(FsRuleLine, rules)
    {
      for i := 0 to |rules|
        invariant out == old(out) + Lines(FsRuleLine, rules[..i])
      {
        out := out + FsRuleLine(rules[i]);
        LinesNext(FsRuleLine, rules, i, old(out));
      }
      LinesEnd(FsRuleLine, rules);
    }

    method EmitLayers(layers: seq<FsLayer>)
      modifies this`out
      ensures out == old(out) + LayersText(layers)
    {
      for i := 0 to |layers|
        invariant out == old(out) + LayersText(layers[..i])
      {
        ghost var before := out;
        out := out + ("fs.layer[" + Decimal(i) + "] handled=" + Hex(layers[i].handled) + "\n");
        EmitFsRules(layers[i].rules);
        LayersNext(layers, i, old(out), before, out);
      }
      assert layers[..|layers|] == layers;
    }

    method EmitNetRules(rules: seq<NetRule>)
      modifies this`out
      ensures out == old(out) + Lines(NetRuleLine, rules)
    {
      for i := 0 to |rules|
        invariant out == old(out) + Lines(NetRuleLine, rules[..i])
      {
        out := out + NetRuleLine(rules[i]);
        LinesNext(NetRuleLine, rules, i, old(out));
      }
      LinesEnd(NetRuleLine, rules);
    }

    /** One line for every attach path of every object. */
    method EmitObjects(rules: seq<ObjectRule>)
      modifies this`out
      ensures out == old(out) + Lines(ObjectText, rules)
    {
      for i := 0 to |rules|
        invariant out == old(out) + Lines(ObjectText, rules[..i])
      {
        var rule := rules[i];
        ghost var before := out;
        for j := 0 to |rule.attach|
          invariant out == before + Lines(p => ObjectLine(rule, p), rule.attach[..j])
        {
          out := out + ObjectLine(rule, rule.attach[j]);
          LinesNext(p => ObjectLine(rule, p), rule.attach, j, before);
        }
        LinesEnd(p => ObjectLine(rule, p), rule.attach);
        assert ObjectText(rule) == Lines(p => ObjectLine(rule, p), rule.attach);
        LinesNext(ObjectText, rules, i, old(out));
      }
      LinesEnd(ObjectText, rules);
    }

    method EmitDenies(numbers: seq<u32>)
      modifies this`out
      ensures out == old(out) + Lines(DenyLine, numbers)
    {
      for i := 0 to |numbers|
        invariant out == old(out) + Lines(DenyLine, numbers[..i])
      {
        out := out + DenyLine(numbers[i]);
        LinesNext(DenyLine, numbers, i, old(out));
      }
      LinesEnd(DenyLine, numbers);
    }

    /** landlockd_cli_dry_run. */
    method Run()
      requires out == ""
      modifies this
      ensures ir == Canonical(old(ir)) && out == Report(Canonical(old(ir)))
    {
      SortAll();
      out := "landlockd dry-run v1\n";
      EmitLayers(ir.fsLayers);
      out := out + ("net.handled=" + Hex(ir.netHandled) + "\n");
      EmitNetRules(ir.netRules);
      ghost var rules := out;
      EmitPaths("broker.open_read", ir.openRead);
      EmitPaths("broker.open_write", ir.openWrite);
      EmitPaths("broker.scratch", ir.scratch);
      EmitPaths("broker.export", ir.exports);
      EmitPaths("broker.mount_tmpfs", ir.brokerTmpfs);
      FiveAfter(rules, PathLines("broker.open_read", ir.openRead), PathLines("broker.open_write", ir.openWrite),
                PathLines("broker.scratch", ir.scratch), PathLines("broker.export", ir.exports),
                PathLines("broker.mount_tmpfs", ir.brokerTmpfs));
      ghost var broker := out;
      EmitBinds("broker.mount_bind", ir.brokerBind);
      EmitObjects(ir.brokerObject);
      EmitPaths("mount.tmpfs", ir.mountTmpfs);
      EmitBinds("mount.bind", ir.mountBind);
      EmitPaths("mount.proc", ir.mountProc);
      FiveAfter(broker, BindLines("broker.mount_bind", ir.brokerBind), Lines(ObjectText, ir.brokerObject),
                PathLines("mount.tmpfs", ir.mountTmpfs), BindLines("mount.bind", ir.mountBind),
                PathLines("mount.proc", ir.mountProc));
      ghost var mounts := out;
      out := out + RuntimeLine("root", ir.root);
      out := out + RuntimeLine("cwd", ir.cwd);
      out := out + ("seccomp.enabled=" + Decimal(if ir.seccompEnabled then 1 else 0) + " errno=" + Decimal(ir.seccompErrno) + "\n");
      EmitDenies(ir.deny);
      FourAfter(mounts, RuntimeLine("root", ir.root), RuntimeLine("cwd", ir.cwd),
                "seccomp.enabled=" + Decimal(if ir.seccompEnabled then 1 else 0) + " errno=" + Decimal(ir.seccompErrno) + "\n",
                Lines(DenyLine, ir.deny));
    }
  }

  lemma {:induction false} FourAfter(s: string, a: string, b: string, c: string, d: string)
    ensures s + a + b + c + d == s + (a + b + c + d)
  {
    Regroup(s, a, b);
    Regroup(s, a + b, c);
    Regroup(s, a + b + c, d);
  }

  lemma {:induction false} FiveAfter(s: string, a: string, b: string, c: string, d: string, e: string)
    ensures s + a + b + c + d + e == s + (a + b + c + d + e)
  {
    FourAfter(s, a, b, c, d);
    Regroup(s, a + b + c + d, e);
  }

  lemma {:induction false} LayersNext(layers: seq<FsLayer>, i: nat, start: string, before: string, after: string)
    requires i < |layers| && before == start + LayersText(layers[..i])
    requires after == before + ("fs.layer[" + Decimal(i) + "] handled=" + Hex(layers[i].handled) + "\n")
                            + Lines(FsRuleLine, layers[i].rules)
    ensures after == start + LayersText(layers[..i + 1])
  {
    assert layers[..i + 1][..i] == layers[..i];
    Regroup(before, "fs.layer[" + Decimal(i) + "] handled=" + Hex(layers[i].handled) + "\n", Lines(FsRuleLine, layers[i].rules));
    Regroup(start, LayersText(layers[..i]), LayerText(i, layers[i]));
  }
}
