/** What the wire format guarantees: encoding and decoding are inverse, and the
    decoder is strict. */
module WireTheorems {
  import opened Bytes
  import opened Codec
  import opened PolicyIr
  import opened Wire

  // ----- well-formed policies are what the section codecs carry

  lemma {:induction false} ManyOk<A(!new)>(c: Codec<A>, p: A -> bool, n: nat, xs: seq<A>)
    requires forall x :: c.ok(x) <==> p(x)
    ensures Many(c, n).ok(xs) <==> |xs| == n && forall i :: 0 <= i < |xs| ==> p(xs[i])
  {
  }

  lemma {:induction false} PathOk(s: Str)
    ensures PATH.ok(s) <==> Name(s)
  {
    GuardOk(TEXT, Nonempty, s);
  }

  lemma {:induction false} PathsOk(n: nat, paths: seq<Str>)
    requires n < TWO_32
    ensures Many(PATH, n).ok(paths) <==> |paths| == n && Names(paths)
  {
    forall s ensures PATH.ok(s) <==> Name(s) {
      PathOk(s);
    }
    ManyOk(PATH, Name, n, paths);
  }

  lemma {:induction false} FsRuleOk(r: FsRule)
    ensures FS_RULE.ok(r) <==> ValidFsRule(r)
  {
    var c := Guard(Pair(LONG, TEXT), FsRuleGrants);
    MapOk(c, FsRuleOf, FsRuleParts, r);
    assert FsRuleOf(FsRuleParts(r)) == r;
    GuardOk(Pair(LONG, TEXT), FsRuleGrants, FsRuleParts(r));
    PairOk(LONG, TEXT, r.access, r.path);
  }

  lemma {:induction false} LayerHeadOk(p: (u64, u32))
    ensures Guard(Pair(LONG, WORD), LayerHandles).ok(p) <==> p.0 != 0
  {
    GuardOk(Pair(LONG, WORD), LayerHandles, p);
    PairOk(LONG, WORD, p.0, p.1);
  }

  lemma {:induction false} LayerRulesOk(p: (u64, u32), rules: seq<FsRule>)
    ensures LayerRules(p).ok(rules) <==> |rules| == p.1 && forall i :: 0 <= i < |rules| ==> ValidFsRule(rules[i])
  {
    forall r ensures FS_RULE.ok(r) <==> ValidFsRule(r) {
      FsRuleOk(r);
    }
    ManyOk(FS_RULE, ValidFsRule, p.1, rules);
  }

  lemma {:induction false} LayerOk(l: FsLayer)
    ensures LAYER.ok(l) <==> ValidLayer(l)
  {
    var head := Guard(Pair(LONG, WORD), LayerHandles);
    var counts := (l.handled, Count(l.rules));
    MapOk(Then(head, LayerRules), LayerOf, LayerParts, l);
    assert LayerParts(l) == (counts, l.rules) && LayerOf((counts, l.rules)) == l;
    ThenOk(head, LayerRules, (counts, l.rules));
    LayerHeadOk(counts);
    LayerRulesOk(counts, l.rules);
  }

  lemma {:induction false} LayersOk(n: nat, layers: seq<FsLayer>)
    ensures Many(LAYER, n).ok(layers) <==> |layers| == n && forall i :: 0 <= i < |layers| ==> ValidLayer(layers[i])
  {
    forall l ensures LAYER.ok(l) <==> ValidLayer(l) {
      LayerOk(l);
    }
    ManyOk(LAYER, ValidLayer, n, layers);
  }

  lemma {:induction false} BindOk(r: BindRule)
    ensures BIND.ok(r) <==> ValidBind(r)
  {
    var flag: u32 := if r.readOnly then 1 else 0;
    var c := Pair(PATH, Pair(PATH, WORD));
    MapOk(Guard(c, FlagIsBit), BindOf, BindParts, r);
    assert BindOf(BindParts(r)) == r;
    GuardOk(c, FlagIsBit, BindParts(r));
    PairOk(PATH, Pair(PATH, WORD), r.source, (r.target, flag));
    PairOk(PATH, WORD, r.target, flag);
    PathOk(r.source);
    PathOk(r.target);
  }

  lemma {:induction false} BindsOk(n: nat, rules: seq<BindRule>)
    requires n < TWO_32
    ensures Many(BIND, n).ok(rules) <==> |rules| == n && ValidBinds(rules)
  {
    forall r ensures BIND.ok(r) <==> ValidBind(r) {
      BindOk(r);
    }
    ManyOk(BIND, ValidBind, n, rules);
  }

  lemma {:induction false} ObjectHeadOk(h: ObjectHead)
    ensures OBJECT_HEAD.ok(h) <==> Name(h.0.0) && Name(h.0.1) && h.1.0 != 0
  {
    GuardOk(Pair(Pair(PATH, PATH), Pair(WORD, LONG)), Attaches, h);
    PairOk(Pair(PATH, PATH), Pair(WORD, LONG), h.0, h.1);
    PairOk(PATH, PATH, h.0.0, h.0.1);
    PairOk(WORD, LONG, h.1.0, h.1.1);
    PathOk(h.0.0);
    PathOk(h.0.1);
  }

  lemma {:induction false} AttachPathsOk(h: ObjectHead, paths: seq<Str>)
    ensures AttachPaths(h).ok(paths) <==> |paths| == h.1.0 && Names(paths)
  {
    PathsOk(h.1.0, paths);
  }

  lemma {:induction false} ObjectPartsOk(p: (ObjectHead, seq<Str>))
    ensures Then(OBJECT_HEAD, AttachPaths).ok(p)
       <==> Name(p.0.0.0) && Name(p.0.0.1) && p.0.1.0 != 0 && |p.1| == p.0.1.0 && Names(p.1)
  {
    ThenOk(OBJECT_HEAD, AttachPaths, p);
    ObjectHeadOk(p.0);
    AttachPathsOk(p.0, p.1);
  }

  lemma {:induction false} ObjectOk(r: ObjectRule)
    ensures OBJECT.ok(r) <==> ValidObject(r)
  {
    assert ObjectOf(ObjectParts(r)) == r;
    MapOk(Then(OBJECT_HEAD, AttachPaths), ObjectOf, ObjectParts, r);
    assert OBJECT.ok(r) <==> Then(OBJECT_HEAD, AttachPaths).ok(ObjectParts(r));
    ObjectPartsOk(ObjectParts(r));
  }

  lemma {:induction false} ObjectsOk(n: nat, rules: seq<ObjectRule>)
    ensures Many(OBJECT, n).ok(rules) <==> |rules| == n && forall i :: 0 <= i < |rules| ==> ValidObject(rules[i])
  {
    forall r ensures OBJECT.ok(r) <==> ValidObject(r) {
      ObjectOk(r);
    }
    ManyOk(OBJECT, ValidObject, n, rules);
  }

  lemma {:induction false} ModeOk(m: Option<Str>)
    ensures MODE.ok(m) <==> (m.Some? ==> Name(m.value))
  {
    MapOk(TEXT, ModeOf, ModeText, m);
    assert ModeOf(ModeText(m)) == m <==> (m.Some? ==> m.value != []);
  }

  lemma {:induction false} AddfdOk(r: AddfdRule)
    ensures ADDFD.ok(r) <==> ValidAddfd(r)
  {
    MapOk(Pair(ACTION, Pair(PATH, MODE)), AddfdOf, AddfdParts, r);
    assert AddfdParts(r) == (r.action, (r.target, r.mode)) && AddfdOf(AddfdParts(r)) == r;
    PairOk(ACTION, Pair(PATH, MODE), r.action, (r.target, r.mode));
    PairOk(PATH, MODE, r.target, r.mode);
    ActionOk(r.action);
    PathOk(r.target);
    ModeOk(r.mode);
  }

  lemma {:induction false} ActionOk(action: Str)
    ensures ACTION.ok(action) <==> ActionKnown(action)
  {
    GuardOk(TEXT, ActionKnown, action);
  }

  lemma {:induction false} AddfdsOk(n: nat, rules: seq<AddfdRule>)
    ensures Many(ADDFD, n).ok(rules) <==> |rules| == n && forall i :: 0 <= i < |rules| ==> ValidAddfd(rules[i])
  {
    forall r ensures ADDFD.ok(r) <==> ValidAddfd(r) {
      AddfdOk(r);
    }
    ManyOk(ADDFD, ValidAddfd, n, rules);
  }

  lemma {:induction false} NetRuleOk(r: NetRule)
    ensures NET_RULE.ok(r) <==> r.access != 0
  {
    MapOk(Guard(Pair(PORT, LONG), NetRuleGrants), NetRuleOf, NetRuleParts, r);
    assert NetRuleOf(NetRuleParts(r)) == r;
    GuardOk(Pair(PORT, LONG), NetRuleGrants, NetRuleParts(r));
    PairOk(PORT, LONG, r.port, r.access);
  }

  lemma {:induction false} NetRulesOk(n: nat, rules: seq<NetRule>)
    ensures Many(NET_RULE, n).ok(rules) <==> |rules| == n && forall i :: 0 <= i < |rules| ==> rules[i].access != 0
  {
    forall r ensures NET_RULE.ok(r) <==> r.access != 0 {
      NetRuleOk(r);
    }
    ManyOk(NET_RULE, (r: NetRule) => r.access != 0, n, rules);
  }

  // ----- the sections of a policy under a header

  predicate ListsFit(h: Header, ir: Ir) {
    && |ir.fsLayers| == h.layers && (forall i :: 0 <= i < |ir.fsLayers| ==> ValidLayer(ir.fsLayers[i]))
    && |ir.netRules| == (if h.netEnabled != 0 then h.netRules else 0)
    && (forall i :: 0 <= i < |ir.netRules| ==> ir.netRules[i].access != 0)
  }

  predicate OpensFit(h: Header, ir: Ir) {
    && |ir.openRead| == h.openRead && Names(ir.openRead) && |ir.openWrite| == h.openWrite && Names(ir.openWrite)
    && |ir.scratch| == h.scratch && Names(ir.scratch) && |ir.exports| == h.exports && Names(ir.exports)
  }

  predicate BrokeredFits(h: Header, ir: Ir) {
    && |ir.brokerTmpfs| == h.brokerTmpfs && Names(ir.brokerTmpfs)
    && |ir.brokerBind| == h.brokerBind && ValidBinds(ir.brokerBind)
    && |ir.brokerObject| == h.brokerObject
    && (forall i :: 0 <= i < |ir.brokerObject| ==> ValidObject(ir.brokerObject[i]))
    && |ir.addfd| == h.addfd && (forall i :: 0 <= i < |ir.addfd| ==> ValidAddfd(ir.addfd[i]))
  }

  predicate MountedFits(h: Header, ir: Ir) {
    && |ir.mountTmpfs| == h.mountTmpfs && Names(ir.mountTmpfs)
    && |ir.mountBind| == h.mountBind && ValidBinds(ir.mountBind)
    && |ir.mountProc| == h.mountProc && Names(ir.mountProc)
  }

  lemma {:induction false} ListsOk(h: Header, ir: Ir)
    ensures LISTS(h).ok((ir.fsLayers, ir.netRules)) <==> ListsFit(h, ir)
  {
    var n: nat := if h.netEnabled != 0 then h.netRules else 0;
    LayersOk(h.layers, ir.fsLayers);
    NetRulesOk(n, ir.netRules);
    PairOk(Many(LAYER, h.layers), Many(NET_RULE, n), ir.fsLayers, ir.netRules);
  }

  lemma {:induction false} OpensOk(h: Header, ir: Ir)
    ensures OPENS(h).ok(((ir.openRead, ir.openWrite), (ir.scratch, ir.exports))) <==> OpensFit(h, ir)
  {
    PathsOk(h.openRead, ir.openRead);
    PathsOk(h.openWrite, ir.openWrite);
    PathsOk(h.scratch, ir.scratch);
    PathsOk(h.exports, ir.exports);
    var c, d := Pair(Many(PATH, h.openRead), Many(PATH, h.openWrite)), Pair(Many(PATH, h.scratch), Many(PATH, h.exports));
    PairOk(c, d, (ir.openRead, ir.openWrite), (ir.scratch, ir.exports));
    PairOk(Many(PATH, h.openRead), Many(PATH, h.openWrite), ir.openRead, ir.openWrite);
    PairOk(Many(PATH, h.scratch), Many(PATH, h.exports), ir.scratch, ir.exports);
  }

  lemma {:induction false} BrokeredOk(h: Header, ir: Ir)
    ensures BROKERED(h).ok(((ir.brokerTmpfs, ir.brokerBind), (ir.brokerObject, ir.addfd))) <==> BrokeredFits(h, ir)
  {
    PathsOk(h.brokerTmpfs, ir.brokerTmpfs);
    BindsOk(h.brokerBind, ir.brokerBind);
    ObjectsOk(h.brokerObject, ir.brokerObject);
    AddfdsOk(h.addfd, ir.addfd);
    var c, d := Pair(Many(PATH, h.brokerTmpfs), Many(BIND, h.brokerBind)), Pair(Many(OBJECT, h.brokerObject), Many(ADDFD, h.addfd));
    PairOk(c, d, (ir.brokerTmpfs, ir.brokerBind), (ir.brokerObject, ir.addfd));
    PairOk(Many(PATH, h.brokerTmpfs), Many(BIND, h.brokerBind), ir.brokerTmpfs, ir.brokerBind);
    PairOk(Many(OBJECT, h.brokerObject), Many(ADDFD, h.addfd), ir.brokerObject, ir.addfd);
  }

  lemma {:induction false} MountedOk(h: Header, ir: Ir)
    ensures MOUNTED(h).ok((ir.mountTmpfs, (ir.mountBind, ir.mountProc))) <==> MountedFits(h, ir)
  {
    PathsOk(h.mountTmpfs, ir.mountTmpfs);
    BindsOk(h.mountBind, ir.mountBind);
    PathsOk(h.mountProc, ir.mountProc);
    var d := Pair(Many(BIND, h.mountBind), Many(PATH, h.mountProc));
    PairOk(Many(PATH, h.mountTmpfs), d, ir.mountTmpfs, (ir.mountBind, ir.mountProc));
    PairOk(Many(BIND, h.mountBind), Many(PATH, h.mountProc), ir.mountBind, ir.mountProc);
  }

  lemma {:induction false} SectionsOk(h: Header, ir: Ir)
    ensures SECTIONS(h).ok(SectionsOf(ir)) <==> ListsFit(h, ir) && OpensFit(h, ir) && BrokeredFits(h, ir) && MountedFits(h, ir)
  {
    var s := SectionsOf(ir);
    PairOk(Pair(LISTS(h), OPENS(h)), Pair(BROKERED(h), MOUNTED(h)), s.0, s.1);
    PairOk(LISTS(h), OPENS(h), s.0.0, s.0.1);
    PairOk(BROKERED(h), MOUNTED(h), s.1.0, s.1.1);
    ListsOk(h, ir);
    OpensOk(h, ir);
    BrokeredOk(h, ir);
    MountedOk(h, ir);
  }

  // ----- the runtime strings

  predicate TailOk(s: Option<Str>) {
    s.Some? ==> Name(s.value)
  }

  lemma {:induction false} TailRoundTrips(s: Option<Str>, strict: bool, rest: Str)
    requires TailOk(s)
    ensures TailParse(TextLen(s), strict, TailText(s) + rest) == Some((s, rest))
  {
    if s.Some? {
      var text := s.value;
      assert TailText(s) == text;
      assert (text + rest)[..|text|] == text && (text + rest)[|text|..] == rest;
    } else {
      assert [] + rest == rest;
    }
  }

  lemma {:induction false} TailStable(n: nat, strict: bool, bs: Str, ext: Str)
    requires TailParse(n, strict, bs).Some?
    ensures TailParse(n, strict, bs + ext)
         == Some((TailParse(n, strict, bs).value.0, TailParse(n, strict, bs).value.1 + ext))
  {
    if n > 0 {
      RawStable(n, strict, bs, ext);
    }
  }

  lemma {:induction false} TailExact(n: u32, bs: Str)
    requires TailParse(n, true, bs).Some?
    ensures var (s, rest) := TailParse(n, true, bs).value;
      TailOk(s) && n == TextLen(s) && bs == TailText(s) + rest
      && TailParse(n, false, bs) == TailParse(n, true, bs)
  {
    if n > 0 {
      assert bs[..n][..n] == bs[..n];
    }
  }

  lemma {:induction false} TailSound(n: u32, strict: bool, bs: Str)
    requires TailParse(n, strict, bs).Some?
    ensures TailOk(TailParse(n, strict, bs).value.0) && |TailParse(n, strict, bs).value.1| <= |bs|
  {
  }

  // ----- the body

  lemma {:induction false} BodyRoundTrips(c: Codec<Sections>, d: Codec<seq<u32>>, b: Body, strict: bool, rest: Str)
    requires Lawful(c) && Lawful(d) && c.ok(b.0.0) && d.ok(b.1) && TailOk(b.0.1.0) && TailOk(b.0.1.1)
    ensures BodyParse(c, TextLen(b.0.1.0), TextLen(b.0.1.1), d, strict, BodyShow(c, d, b) + rest) == Some((b, rest))
  {
    var ((s, (root, cwd)), deny) := b;
    var r3 := d.show(deny) + rest;
    var r2 := TailText(cwd) + r3;
    var r1 := TailText(root) + r2;
    var all := c.show(s) + r1;
    assert BodyShow(c, d, b) + rest == all;
    assert RoundTrips(c, s, r1) && Lenient(c, all);
    TailRoundTrips(root, strict, r2);
    TailRoundTrips(cwd, strict, r3);
    assert RoundTrips(d, deny, rest) && Lenient(d, r3);
  }

  lemma {:induction false} BodyStable(c: Codec<Sections>, m: nat, n: nat, d: Codec<seq<u32>>, strict: bool, bs: Str, ext: Str)
    requires Lawful(c) && Lawful(d) && BodyParse(c, m, n, d, strict, bs).Some?
    ensures BodyParse(c, m, n, d, strict, bs + ext)
         == Some((BodyParse(c, m, n, d, strict, bs).value.0, BodyParse(c, m, n, d, strict, bs).value.1 + ext))
  {
    assert Stable(c, strict, bs, ext);
    var (s, r1) := c.parse(strict, bs).value;
    TailStable(m, strict, r1, ext);
    var (root, r2) := TailParse(m, strict, r1).value;
    TailStable(n, strict, r2, ext);
    var (cwd, r3) := TailParse(n, strict, r2).value;
    assert Stable(d, strict, r3, ext);
  }

  lemma {:induction false} BodySound(c: Codec<Sections>, m: u32, n: u32, d: Codec<seq<u32>>, strict: bool, bs: Str)
    requires Lawful(c) && Lawful(d) && BodyParse(c, m, n, d, strict, bs).Some?
    ensures var b := BodyParse(c, m, n, d, strict, bs).value.0;
      c.ok(b.0.0) && d.ok(b.1) && TailOk(b.0.1.0) && TailOk(b.0.1.1)
  {
    assert Sound(c, strict, bs);
    var (s, r1) := c.parse(strict, bs).value;
    TailSound(m, strict, r1);
    var (root, r2) := TailParse(m, strict, r1).value;
    TailSound(n, strict, r2);
    var (cwd, r3) := TailParse(n, strict, r2).value;
    assert Sound(d, strict, r3);
  }

  lemma {:induction false} BodyLenient(c: Codec<Sections>, m: u32, n: u32, d: Codec<seq<u32>>, bs: Str)
    requires Lawful(c) && Lawful(d) && BodyParse(c, m, n, d, true, bs).Some?
    ensures BodyParse(c, m, n, d, false, bs) == BodyParse(c, m, n, d, true, bs)
  {
    assert Lenient(c, bs);
    var (s, r1) := c.parse(true, bs).value;
    TailExact(m, r1);
    var (root, r2) := TailParse(m, true, r1).value;
    TailExact(n, r2);
    var (cwd, r3) := TailParse(n, true, r2).value;
    assert Lenient(d, r3);
  }

  lemma {:induction false} BodyExact(c: Codec<Sections>, m: u32, n: u32, d: Codec<seq<u32>>, bs: Str)
    requires Lawful(c) && Lawful(d) && BodyParse(c, m, n, d, true, bs).Some?
    ensures var (b, rest) := BodyParse(c, m, n, d, true, bs).value;
      m == TextLen(b.0.1.0) && n == TextLen(b.0.1.1) && bs == BodyShow(c, d, b) + rest
  {
    assert Exact(c, bs);
    var (s, r1) := c.parse(true, bs).value;
    TailExact(m, r1);
    var (root, r2) := TailParse(m, true, r1).value;
    TailExact(n, r2);
    var (cwd, r3) := TailParse(n, true, r2).value;
    assert Exact(d, r3);
    var (deny, rest) := d.parse(true, r3).value;
    Regroup(c.show(s), TailText(root), TailText(cwd), d.show(deny), rest);
  }

  lemma {:induction false} Regroup(a: Str, b: Str, c: Str, d: Str, rest: Str)
    ensures a + (b + (c + (d + rest))) == (a + (b + (c + d))) + rest
  {
  }

  // ----- whole policies, for any lawful format

  ghost predicate LawfulFormat(f: Format) {
    Lawful(f.header) && (forall h :: f.header.ok(h)) && forall h :: Lawful(f.sections(h)) && Lawful(f.denies(h))
  }

  /** The headers that both writers produce for a policy: the error number is
      free while seccomp is off. */
  predicate HeaderFits(h: Header, ir: Ir) {
    h == HeaderFor(ir).(seccompErrno := h.seccompErrno) && (ir.seccompEnabled ==> h.seccompErrno == ir.seccompErrno)
  }

  /** The sections and denials are of the kind and number that the header announces. */
  predicate BodyFits(f: Format, h: Header, ir: Ir) {
    f.sections(h).ok(SectionsOf(ir)) && f.denies(h).ok(ir.deny) && TailOk(ir.root) && TailOk(ir.cwd)
  }

  lemma {:induction false} DecodeEncoded(f: Format, h: Header, ir: Ir, strict: bool)
    requires LawfulFormat(f) && BodyFits(f, h, ir)
    requires Supported(h) && (strict ==> PlainHeader(h)) && Assemble(h, BodyOf(ir)) == ir
    requires h.rootLen == TextLen(ir.root) && h.cwdLen == TextLen(ir.cwd)
    ensures DecodeAs(f, strict, EncodeAs(f, h, ir)) == Some(ir)
  {
    var body := BodyShow(f.sections(h), f.denies(h), BodyOf(ir));
    assert RoundTrips(f.header, h, body) && Lenient(f.header, f.header.show(h) + body);
    BodyRoundTrips(f.sections(h), f.denies(h), BodyOf(ir), strict, []);
    assert body + [] == body;
  }

  lemma {:induction false} DecodedBody(f: Format, strict: bool, bs: Str) returns (h: Header, ir: Ir)
    requires LawfulFormat(f) && DecodeAs(f, strict, bs).Some?
    ensures DecodeAs(f, strict, bs) == Some(ir)
    ensures BodyFits(f, h, ir) && Supported(h) && Assemble(h, BodyOf(ir)) == ir
    ensures strict ==> PlainHeader(h) && bs == EncodeAs(f, h, ir) && DecodeAs(f, false, bs) == Some(ir)
    ensures strict ==> h.rootLen == TextLen(ir.root) && h.cwdLen == TextLen(ir.cwd)
  {
    var afterHeader;
    h, afterHeader := f.header.parse(strict, bs).value.0, f.header.parse(strict, bs).value.1;
    var c, d := f.sections(h), f.denies(h);
    var (body, rest) := BodyParse(c, h.rootLen, h.cwdLen, d, strict, afterHeader).value;
    ir := Assemble(h, body);
    assert BodyOf(ir) == body;
    BodySound(c, h.rootLen, h.cwdLen, d, strict, afterHeader);
    if strict {
      assert Exact(f.header, bs) && Lenient(f.header, bs);
      BodyExact(c, h.rootLen, h.cwdLen, d, afterHeader);
      BodyLenient(c, h.rootLen, h.cwdLen, d, afterHeader);
      assert BodyShow(c, d, body) + [] == BodyShow(c, d, body);
    }
  }

  lemma {:induction false} DecodeIsPrefixFree(f: Format, a: Str, b: Str)
    requires LawfulFormat(f) && DecodeAs(f, false, a).Some? && DecodeAs(f, false, b).Some? && a <= b
    ensures a == b
  {
    var ext := b[|a|..];
    assert b == a + ext;
    assert Stable(f.header, false, a, ext);
    var (h, afterHeader) := f.header.parse(false, a).value;
    BodyStable(f.sections(h), h.rootLen, h.cwdLen, f.denies(h), false, afterHeader, ext);
    assert [] + ext == ext;
  }

  // ----- the format of landlockd

  lemma {:induction false} FormatLawful()
    ensures LawfulFormat(FORMAT)
  {
    HeaderLawful();
    forall h ensures Lawful(FORMAT.sections(h)) && Lawful(FORMAT.denies(h)) {
      SectionsLawful(h);
      DenyLawful();
      ManyLawful(DENY, if h.seccompEnabled != 0 then h.deny else 0);
    }
  }

  lemma {:induction false} DeniesOk(h: Header, deny: seq<u32>)
    ensures DENIES(h).ok(deny) <==>
      |deny| == (if h.seccompEnabled != 0 then h.deny else 0) && forall i :: 0 <= i < |deny| ==> deny[i] <= 0x7fff_ffff
  {
    forall d ensures DENY.ok(d) <==> d <= 0x7fff_ffff {
      GuardOk(WORD, IsSyscall, d);
    }
    ManyOk(DENY, IsSyscall, if h.seccompEnabled != 0 then h.deny else 0, deny);
  }

  predicate DeniesFit(h: Header, ir: Ir) {
    && |ir.deny| == (if h.seccompEnabled != 0 then h.deny else 0)
    && (forall i :: 0 <= i < |ir.deny| ==> ir.deny[i] <= 0x7fff_ffff)
  }

  predicate Fits(h: Header, ir: Ir) {
    && ListsFit(h, ir) && OpensFit(h, ir) && BrokeredFits(h, ir) && MountedFits(h, ir) && DeniesFit(h, ir)
    && TailOk(ir.root) && TailOk(ir.cwd)
  }

  lemma {:induction false} BodyFitsMeans(h: Header, ir: Ir)
    ensures BodyFits(FORMAT, h, ir) <==> Fits(h, ir)
  {
    SectionsOk(h, ir);
    DeniesOk(h, ir.deny);
  }

  lemma {:induction false} WellFormedFits(ir: Ir, h: Header)
    requires WellFormed(ir) && HeaderFits(h, ir)
    ensures Fits(h, ir) && Supported(h) && Assemble(h, BodyOf(ir)) == ir
    ensures h.rootLen == TextLen(ir.root) && h.cwdLen == TextLen(ir.cwd)
    ensures h == HeaderFor(ir) ==> PlainHeader(h)
  {
  }

  lemma {:induction false} FitsWellFormed(h: Header, ir: Ir)
    requires Fits(h, ir) && Supported(h) && Assemble(h, BodyOf(ir)) == ir
    ensures WellFormed(ir)
  {
  }

  predicate CountsFit(h: Header, ir: Ir) {
    && h.layers == |ir.fsLayers| && h.netRules == |ir.netRules|
    && h.openRead == |ir.openRead| && h.openWrite == |ir.openWrite|
    && h.scratch == |ir.scratch| && h.exports == |ir.exports|
    && h.brokerTmpfs == |ir.brokerTmpfs| && h.brokerBind == |ir.brokerBind|
    && h.brokerObject == |ir.brokerObject| && h.addfd == |ir.addfd|
    && h.mountTmpfs == |ir.mountTmpfs| && h.mountBind == |ir.mountBind| && h.mountProc == |ir.mountProc|
    && h.deny == |ir.deny|
  }

  lemma {:induction false} FitsCounts(h: Header, ir: Ir)
    requires Fits(h, ir) && PlainHeader(h)
    ensures CountsFit(h, ir)
  {
  }

  lemma {:induction false} FitsHeader(h: Header, ir: Ir)
    requires CountsFit(h, ir) && Supported(h) && Assemble(h, BodyOf(ir)) == ir
    requires PlainHeader(h) && h.rootLen == TextLen(ir.root) && h.cwdLen == TextLen(ir.cwd)
    ensures h == HeaderFor(ir)
  {
  }

  /** The encoding of a well-formed policy, with any header that a writer may
      choose, decodes to that policy. */
  lemma {:induction false} EncodedDecodes(h: Header, ir: Ir, strict: bool)
    requires WellFormed(ir) && HeaderFits(h, ir) && (strict ==> h == HeaderFor(ir))
    ensures Decode(strict, EncodeWith(h, ir)) == Some(ir)
  {
    FormatLawful();
    WellFormedFits(ir, h);
    BodyFitsMeans(h, ir);
    DecodeEncoded(FORMAT, h, ir, strict);
  }

  /** Decoding what was encoded gives the policy back. */
  lemma {:induction false} RoundTrip(ir: Ir)
    requires WellFormed(ir)
    ensures Decode(false, Encode(ir)) == Some(ir) && Decode(true, Encode(ir)) == Some(ir)
  {
    EncodedDecodes(HeaderFor(ir), ir, false);
    EncodedDecodes(HeaderFor(ir), ir, true);
  }

  /** Every accepted blob yields a well-formed policy, and the strict decoder
      accepts only the encoding of what it returns. */
  lemma {:induction false} DecodedIsWellFormed(strict: bool, bs: Str)
    requires Decode(strict, bs).Some?
    ensures WellFormed(Decode(strict, bs).value)
    ensures strict ==> Encode(Decode(true, bs).value) == bs && Decode(false, bs) == Decode(true, bs)
  {
    FormatLawful();
    var h, ir := DecodedBody(FORMAT, strict, bs);
    BodyFitsMeans(h, ir);
    FitsWellFormed(h, ir);
    if strict {
      FitsCounts(h, ir);
      FitsHeader(h, ir);
    }
  }

  /** A blob that the program accepts re-encodes to itself exactly when the strict
      decoder accepts it too; WireItems says when that is. */
  lemma {:induction false} CanonicalBlobs(bs: Str)
    requires Decode(false, bs).Some?
    ensures Encode(Decode(false, bs).value) == bs <==> Decode(true, bs).Some?
  {
    DecodedIsWellFormed(false, bs);
    RoundTrip(Decode(false, bs).value);
    if Decode(true, bs).Some? {
      DecodedIsWellFormed(true, bs);
    }
  }

  /** No proper prefix and no proper extension of an accepted blob is accepted. */
  lemma {:induction false} PrefixFree(a: Str, b: Str)
    requires Decode(false, a).Some? && Decode(false, b).Some? && a <= b
    ensures a == b
  {
    FormatLawful();
    DecodeIsPrefixFree(FORMAT, a, b);
  }

  /** Different well-formed policies have different encodings. */
  lemma {:induction false} EncodeIsInjective(ir: Ir, other: Ir)
    requires WellFormed(ir) && WellFormed(other) && Encode(ir) == Encode(other)
    ensures ir == other
  {
    RoundTrip(ir);
    RoundTrip(other);
  }
}
