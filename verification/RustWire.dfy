/** What the Rust helper writes is the wire format. */
module RustWire {
  import opened Bytes
  import opened Codec
  import opened PolicyIr
  import W = RustWrite
  import opened Wire
  import opened WireWrite

  lemma {:induction false} ShowSame<A>(f: A -> Str, g: A -> Str, xs: seq<A>)
    requires forall i :: 0 <= i < |xs| ==> f(xs[i]) == g(xs[i])
    ensures ShowAll(f, xs) == ShowAll(g, xs)
  {
    if xs != [] {
      ShowSame(f, g, xs[1..]);
    }
  }

  // ----- one element

  lemma {:induction false} StringIs(s: Str)
    requires W.Fits(s)
    ensures W.StringText(s) == TEXT.show(s) == PATH.show(s)
  {
    assert s[..|s|] == s;
  }

  lemma {:induction false} StringsAre(strings: seq<Str>)
    requires W.AllFit(W.Fits, strings)
    ensures ShowAll(W.StringText, strings) == ShowAll(PATH.show, strings)
  {
    forall i | 0 <= i < |strings| ensures W.StringText(strings[i]) == PATH.show(strings[i]) {
      StringIs(strings[i]);
    }
    ShowSame(W.StringText, PATH.show, strings);
  }

  lemma {:induction false} FsRuleIs(r: FsRule)
    requires W.FsRuleFits(r)
    ensures W.FsRuleText(r) == FS_RULE.show(r)
  {
    StringIs(r.path);
    PairOk(LONG, TEXT, r.access, r.path);
    assert FsRuleParts(r) == (r.access, r.path);
  }

  lemma {:induction false} LayerIs(l: FsLayer)
    requires W.LayerFits(l)
    ensures W.LayerText(l) == LAYER.show(l)
  {
    forall i | 0 <= i < |l.rules| ensures W.FsRuleText(l.rules[i]) == FS_RULE.show(l.rules[i]) {
      FsRuleIs(l.rules[i]);
    }
    ShowSame(W.FsRuleText, FS_RULE.show, l.rules);
    PairOk(LONG, WORD, l.handled, Count(l.rules));
    ShowLayer(l, []);
    DropEmpty(Pair(LONG, WORD).show((l.handled, Count(l.rules))), LAYER.show(l));
  }

  lemma {:induction false} DropEmpty(a: Str, b: Str)
    ensures [] + a == a && [] + b == b
  {
  }

  lemma {:induction false} NetRuleIs(r: NetRule)
    ensures W.NetRuleText(r) == NET_RULE.show(r)
  {
    PairOk(PORT, LONG, r.port, r.access);
    assert NetRuleParts(r) == (r.port, r.access);
  }

  lemma {:induction false} BindIs(r: BindRule)
    requires W.BindFits(r)
    ensures W.BindText(r) == BIND.show(r)
  {
    StringIs(r.source);
    StringIs(r.target);
    ShowBind(r, []);
    DropEmpty(TEXT.show(r.source), BIND.show(r));
  }

  lemma {:induction false} ObjectIs(r: ObjectRule)
    requires W.ObjectFits(r)
    ensures W.ObjectText(r) == OBJECT.show(r)
  {
    StringIs(r.name);
    StringIs(r.fsType);
    StringsAre(r.attach);
    ShowObject(r, []);
    DropEmpty(TEXT.show(r.name), OBJECT.show(r));
  }

  lemma {:induction false} AddfdIs(r: AddfdRule)
    requires W.AddfdFits(r)
    ensures W.AddfdText(r) == ADDFD.show(r)
  {
    StringIs(r.action);
    StringIs(r.target);
    StringIs(ModeText(r.mode));
    assert r.mode.None? ==> Le(0, 4) + [] == Le(0, 4);
    ShowAddfdParts(r);
    Join(TEXT.show(r.action), TEXT.show(r.target), TEXT.show(ModeText(r.mode)));
  }

  // ----- the header

  lemma {:induction false} FourIs(start: Str, done: seq<u32>, a: u32, b: u32, c: u32, d: u32)
    ensures start + ShowAll(WORD.show, done) + W.FourText(a, b, c, d) == start + ShowAll(WORD.show, done + [a, b, c, d])
  {
    ShowFour(start, done, a, b, c, d);
    W.Join4(start + ShowAll(WORD.show, done), Le(a, 4), Le(b, 4), Le(c, 4), Le(d, 4));
  }

  lemma {:induction false} PreambleIs(h: Header)
    ensures W.FourText(h.magic, h.version, h.layers, h.netEnabled) + Le(h.netHandled, 8) + Le(h.netRules, 4)
         == ShowAll(WORD.show, HeaderWords(h)[..7])
  {
    var done := [h.magic, h.version, h.layers, h.netEnabled];
    FourIs([], [], h.magic, h.version, h.layers, h.netEnabled);
    assert [] + done == done;
    var four := W.FourText(h.magic, h.version, h.layers, h.netEnabled);
    DropEmpty(four, ShowAll(WORD.show, done));
    DropEmpty(ShowAll(WORD.show, []), ShowAll(WORD.show, done + HeaderWords(h)[4..7]));
    ShowPreamble(h, [], done);
    assert HeaderWords(h)[..7] == done + HeaderWords(h)[4..7];
  }

  lemma {:induction false} HeaderIs(ir: Ir)
    ensures W.HeaderText(ir) == HEADER.show(HeaderFor(ir))
  {
    var h := HeaderFor(ir);
    PreambleIs(h);
    WordsAre(h);
  }

  lemma {:induction false} WordsAre(h: Header)
    ensures ShowAll(WORD.show, HeaderWords(h)[..7]) + W.FourText(h.openRead, h.openWrite, h.scratch, h.exports)
              + W.FourText(h.brokerTmpfs, h.brokerBind, h.brokerObject, h.addfd)
              + W.FourText(h.mountTmpfs, h.mountBind, h.mountProc, h.rootLen)
              + W.FourText(h.cwdLen, h.seccompEnabled, h.seccompErrno, h.deny)
         == HEADER.show(h)
  {
    var done := HeaderWords(h)[..7];
    FourAfter(done, h.openRead, h.openWrite, h.scratch, h.exports);
    done := done + [h.openRead, h.openWrite, h.scratch, h.exports];
    FourAfter(done, h.brokerTmpfs, h.brokerBind, h.brokerObject, h.addfd);
    done := done + [h.brokerTmpfs, h.brokerBind, h.brokerObject, h.addfd];
    FourAfter(done, h.mountTmpfs, h.mountBind, h.mountProc, h.rootLen);
    done := done + [h.mountTmpfs, h.mountBind, h.mountProc, h.rootLen];
    FourAfter(done, h.cwdLen, h.seccompEnabled, h.seccompErrno, h.deny);
    assert HeaderWords(h) == done + [h.cwdLen, h.seccompEnabled, h.seccompErrno, h.deny];
  }

  lemma {:induction false} FourAfter(done: seq<u32>, a: u32, b: u32, c: u32, d: u32)
    ensures ShowAll(WORD.show, done) + W.FourText(a, b, c, d) == ShowAll(WORD.show, done + [a, b, c, d])
  {
    FourIs([], done, a, b, c, d);
    DropEmpty(ShowAll(WORD.show, done), ShowAll(WORD.show, done + [a, b, c, d]));
  }

  // ----- the sections

  lemma {:induction false} ListsAre(ir: Ir)
    requires W.AllFit(W.LayerFits, ir.fsLayers)
    ensures W.ListsText(ir) == LISTS(HeaderFor(ir)).show((ir.fsLayers, ir.netRules))
  {
    var h := HeaderFor(ir);
    forall i | 0 <= i < |ir.fsLayers| ensures W.LayerText(ir.fsLayers[i]) == LAYER.show(ir.fsLayers[i]) {
      LayerIs(ir.fsLayers[i]);
    }
    ShowSame(W.LayerText, LAYER.show, ir.fsLayers);
    forall i | 0 <= i < |ir.netRules| ensures W.NetRuleText(ir.netRules[i]) == NET_RULE.show(ir.netRules[i]) {
      NetRuleIs(ir.netRules[i]);
    }
    ShowSame(W.NetRuleText, NET_RULE.show, ir.netRules);
    PairOk(Many(LAYER, h.layers), Many(NET_RULE, if h.netEnabled != 0 then h.netRules else 0), ir.fsLayers, ir.netRules);
  }

  lemma {:induction false} OpensAre(ir: Ir)
    requires W.OpensFit(ir)
    ensures W.OpensText(ir) == OPENS(HeaderFor(ir)).show(((ir.openRead, ir.openWrite), (ir.scratch, ir.exports)))
  {
    var h := HeaderFor(ir);
    StringsAre(ir.openRead);
    StringsAre(ir.openWrite);
    StringsAre(ir.scratch);
    StringsAre(ir.exports);
    FourShown(Many(PATH, h.openRead), Many(PATH, h.openWrite), Many(PATH, h.scratch), Many(PATH, h.exports),
              ((ir.openRead, ir.openWrite), (ir.scratch, ir.exports)));
  }

  lemma {:induction false} FourShown<A, B, C, D>(a: Codec<A>, b: Codec<B>, c: Codec<C>, d: Codec<D>, s: ((A, B), (C, D)))
    ensures a.show(s.0.0) + b.show(s.0.1) + c.show(s.1.0) + d.show(s.1.1) == Pair(Pair(a, b), Pair(c, d)).show(s)
  {
    ShowQuad(a, b, c, d, s, []);
    DropEmpty(a.show(s.0.0), Pair(Pair(a, b), Pair(c, d)).show(s));
  }

  lemma {:induction false} BindsAre(rules: seq<BindRule>)
    requires W.AllFit(W.BindFits, rules)
    ensures ShowAll(W.BindText, rules) == ShowAll(BIND.show, rules)
  {
    forall i | 0 <= i < |rules| ensures W.BindText(rules[i]) == BIND.show(rules[i]) {
      BindIs(rules[i]);
    }
    ShowSame(W.BindText, BIND.show, rules);
  }

  lemma {:induction false} ObjectsAre(rules: seq<ObjectRule>)
    requires W.AllFit(W.ObjectFits, rules)
    ensures ShowAll(W.ObjectText, rules) == ShowAll(OBJECT.show, rules)
  {
    forall i | 0 <= i < |rules| ensures W.ObjectText(rules[i]) == OBJECT.show(rules[i]) {
      ObjectIs(rules[i]);
    }
    ShowSame(W.ObjectText, OBJECT.show, rules);
  }

  lemma {:induction false} AddfdsAre(rules: seq<AddfdRule>)
    requires W.AllFit(W.AddfdFits, rules)
    ensures ShowAll(W.AddfdText, rules) == ShowAll(ADDFD.show, rules)
  {
    forall i | 0 <= i < |rules| ensures W.AddfdText(rules[i]) == ADDFD.show(rules[i]) {
      AddfdIs(rules[i]);
    }
    ShowSame(W.AddfdText, ADDFD.show, rules);
  }

  lemma {:induction false} BrokeredAre(ir: Ir)
    requires W.BrokeredFit(ir)
    ensures W.BrokeredText(ir) == BROKERED(HeaderFor(ir)).show(((ir.brokerTmpfs, ir.brokerBind), (ir.brokerObject, ir.addfd)))
  {
    var h := HeaderFor(ir);
    StringsAre(ir.brokerTmpfs);
    BindsAre(ir.brokerBind);
    ObjectsAre(ir.brokerObject);
    AddfdsAre(ir.addfd);
    FourShown(Many(PATH, h.brokerTmpfs), Many(BIND, h.brokerBind), Many(OBJECT, h.brokerObject), Many(ADDFD, h.addfd),
              ((ir.brokerTmpfs, ir.brokerBind), (ir.brokerObject, ir.addfd)));
  }

  lemma {:induction false} MountedAre(ir: Ir)
    requires W.MountedFit(ir)
    ensures W.MountedText(ir) == MOUNTED(HeaderFor(ir)).show((ir.mountTmpfs, (ir.mountBind, ir.mountProc)))
  {
    var h := HeaderFor(ir);
    StringsAre(ir.mountTmpfs);
    BindsAre(ir.mountBind);
    StringsAre(ir.mountProc);
    PairOk(Many(BIND, h.mountBind), Many(PATH, h.mountProc), ir.mountBind, ir.mountProc);
    PairOk(Many(PATH, h.mountTmpfs), Pair(Many(BIND, h.mountBind), Many(PATH, h.mountProc)),
           ir.mountTmpfs, (ir.mountBind, ir.mountProc));
    Join(ShowAll(PATH.show, ir.mountTmpfs), ShowAll(BIND.show, ir.mountBind), ShowAll(PATH.show, ir.mountProc));
  }

  // ----- the whole policy

  lemma {:induction false} DeniesAre(deny: seq<u32>)
    ensures ShowAll(W.DenyText, deny) == ShowAll(DENY.show, deny)
  {
    ShowSame(W.DenyText, DENY.show, deny);
  }

  lemma {:induction false} CountedIs(ir: Ir)
    requires W.StringsFit(ir)
    ensures W.HeaderText(ir) + W.ListsText(ir) + W.OpensText(ir) + W.BrokeredText(ir) + W.MountedText(ir) == CountedText(ir)
  {
    HeaderIs(ir);
    ListsAre(ir);
    OpensAre(ir);
    BrokeredAre(ir);
    MountedAre(ir);
    ShowSections(HeaderFor(ir), SectionsOf(ir), W.HeaderText(ir));
  }

  predicate PathFits(path: Option<Str>) {
    path.Some? ==> W.Fits(path.value)
  }

  lemma {:induction false} TailIs(s: Option<Str>)
    ensures |TailText(s)| <= |W.RuntimeText(s)|
    ensures if PathFits(s) then TailText(s) == W.RuntimeText(s) else |TailText(s)| < |W.RuntimeText(s)|
  {
  }

  lemma {:induction false} IrTextSplits(ir: Ir, rest: Str)
    requires W.StringsFit(ir) && rest == W.RuntimeText(ir.root) + W.RuntimeText(ir.cwd) + ShowAll(DENY.show, ir.deny)
    ensures W.IrText(ir) == CountedText(ir) + rest
  {
    CountedIs(ir);
    DeniesAre(ir.deny);
  }

  /** What the helper writes is the wire encoding under the header that the C writer
      computes too, when the two runtime paths, whose lengths alone it does not
      check, are shorter than 4 GiB. */
  lemma {:induction false} WrittenIsEncoded(ir: Ir)
    requires W.StringsFit(ir) && PathFits(ir.root) && PathFits(ir.cwd)
    ensures W.IrText(ir) == Encode(ir)
  {
    var rest := RestText(ir);
    RestIs(ir);
    IrTextSplits(ir, rest);
    EncodeSplit(ir);
  }

  lemma {:induction false} RestIs(ir: Ir)
    requires PathFits(ir.root) && PathFits(ir.cwd)
    ensures RestText(ir) == W.RuntimeText(ir.root) + W.RuntimeText(ir.cwd) + ShowAll(DENY.show, ir.deny)
  {
    TailIs(ir.root);
    TailIs(ir.cwd);
    Join(W.RuntimeText(ir.root), W.RuntimeText(ir.cwd), ShowAll(DENY.show, ir.deny));
  }

  lemma {:induction false} LongerDiffers(front: Str, rest: Str, other: Str)
    ensures |rest| > |other| ==> front + rest != front + other
  {
    assert |front + rest| == |front| + |rest| && |front + other| == |front| + |other|;
  }

  /** And not otherwise: the helper writes the path whole, under its length modulo
      2^32. */
  lemma {:induction false} LongRuntimePath(ir: Ir)
    requires W.StringsFit(ir) && !(PathFits(ir.root) && PathFits(ir.cwd))
    ensures W.IrText(ir) != Encode(ir)
  {
    var rest := W.RuntimeText(ir.root) + W.RuntimeText(ir.cwd) + ShowAll(DENY.show, ir.deny);
    RestIsLonger(ir, rest);
    IrTextSplits(ir, rest);
    EncodeSplit(ir);
    LongerDiffers(CountedText(ir), rest, RestText(ir));
  }

  /** Such a policy: nothing but a root of 4 GiB, which the helper announces with a
      length of zero. */
  lemma {:induction false} LongRootIsWritten()
    ensures var ir := EMPTY.(root := Some(seq(TWO_32, i => '/')));
      W.StringsFit(ir) && !PathFits(ir.root) && HeaderFor(ir).rootLen == 0
  {
    var root: Str := seq(TWO_32, i => '/');
    assert |root| == TWO_32;
  }

  lemma {:induction false} RestIsLonger(ir: Ir, rest: Str)
    requires rest == W.RuntimeText(ir.root) + W.RuntimeText(ir.cwd) + ShowAll(DENY.show, ir.deny)
    requires !(PathFits(ir.root) && PathFits(ir.cwd))
    ensures |rest| > |RestText(ir)|
  {
    TailIs(ir.root);
    TailIs(ir.cwd);
  }

  /** A well-formed policy has no string that the helper refuses or cuts. */
  lemma {:induction false} WellFormedFits(ir: Ir)
    requires WellFormed(ir)
    ensures W.StringsFit(ir) && PathFits(ir.root) && PathFits(ir.cwd)
  {
    forall i | 0 <= i < |ir.fsLayers| ensures W.LayerFits(ir.fsLayers[i]) {
      assert ValidLayer(ir.fsLayers[i]);
    }
    forall i | 0 <= i < |ir.brokerObject| ensures W.ObjectFits(ir.brokerObject[i]) {
      assert ValidObject(ir.brokerObject[i]);
    }
    forall i | 0 <= i < |ir.addfd| ensures W.AddfdFits(ir.addfd[i]) {
      assert ValidAddfd(ir.addfd[i]);
    }
  }
}
