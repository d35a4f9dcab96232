/** An accepted blob announces no more elements than it has room for. */
module WireBounds {
  import opened Bytes
  import opened Codec
  import opened PolicyIr
  import opened Wire
  import opened WireTheorems

  function One<T>(x: T): nat {
    1
  }

  lemma {:induction false} TotalOne<T>(xs: seq<T>)
    ensures Total(One<T>, xs) == |xs|
  {
    if xs != [] {
      TotalOne(xs[1..]);
    }
  }

  function LayerWeight(l: FsLayer): nat {
    1 + |l.rules|
  }

  function ObjectWeight(r: ObjectRule): nat {
    1 + |r.attach|
  }

  /** Every element of every counted list, nested ones included. */
  function Elements(ir: Ir): nat {
    Total(LayerWeight, ir.fsLayers) + |ir.netRules|
    + |ir.openRead| + |ir.openWrite| + |ir.scratch| + |ir.exports|
    + |ir.brokerTmpfs| + |ir.brokerBind| + Total(ObjectWeight, ir.brokerObject) + |ir.addfd|
    + |ir.mountTmpfs| + |ir.mountBind| + |ir.mountProc| + |ir.deny|
  }

  lemma {:induction false} NumbersHeavy()
    ensures Heavy(WORD, One) && Heavy(LONG, One) && Heavy(PORT, One) && Heavy(TEXT, One)
  {
  }

  lemma {:induction false} PathHeavy()
    ensures Heavy(PATH, One)
  {
    NumbersHeavy();
    GuardHeavy(TEXT, One, Nonempty);
  }

  lemma {:induction false} FsRuleHeavy()
    ensures Heavy(FS_RULE, One)
  {
    NumbersHeavy();
    PairHeavy(LONG, One, TEXT, One);
    GuardHeavy(Pair(LONG, TEXT), AddWeights(One, One), FsRuleGrants);
    MapHeavy(Guard(Pair(LONG, TEXT), FsRuleGrants), AddWeights(One, One), FsRuleOf, FsRuleParts, One);
  }

  lemma {:induction false} LayerHeavy()
    ensures Heavy(LAYER, LayerWeight)
  {
    NumbersHeavy();
    PairHeavy(LONG, One, WORD, One);
    var head, w, v := Guard(Pair(LONG, WORD), LayerHandles), AddWeights(One<u64>, One<u32>), TotalWeight(One<FsRule>);
    GuardHeavy(Pair(LONG, WORD), w, LayerHandles);
    FsRuleHeavy();
    forall p ensures Heavy(LayerRules(p), v) {
      ManyHeavy(FS_RULE, One, p.1);
    }
    ThenHeavy(head, w, LayerRules, v);
    forall a ensures LayerWeight(LayerOf(a)) <= AddWeights(w, v)(a) {
      TotalOne(a.1);
    }
    MapHeavy(Then(head, LayerRules), AddWeights(w, v), LayerOf, LayerParts, LayerWeight);
  }

  lemma {:induction false} NetRuleHeavy()
    ensures Heavy(NET_RULE, One)
  {
    NumbersHeavy();
    PairHeavy(PORT, One, LONG, One);
    GuardHeavy(Pair(PORT, LONG), AddWeights(One, One), NetRuleGrants);
    MapHeavy(Guard(Pair(PORT, LONG), NetRuleGrants), AddWeights(One, One), NetRuleOf, NetRuleParts, One);
  }

  lemma {:induction false} BindHeavy()
    ensures Heavy(BIND, One)
  {
    NumbersHeavy();
    PathHeavy();
    PairHeavy(PATH, One, WORD, One);
    var c, w := Pair(PATH, Pair(PATH, WORD)), AddWeights(One<Str>, AddWeights(One<Str>, One<u32>));
    PairHeavy(PATH, One, Pair(PATH, WORD), AddWeights(One, One));
    GuardHeavy(c, w, FlagIsBit);
    MapHeavy(Guard(c, FlagIsBit), w, BindOf, BindParts, One);
  }

  lemma {:induction false} ObjectHeadHeavy()
    ensures Heavy(OBJECT_HEAD, One)
  {
    NumbersHeavy();
    PathHeavy();
    PairHeavy(PATH, One, PATH, One);
    PairHeavy(WORD, One, LONG, One);
    var w, v := AddWeights(One<Str>, One<Str>), AddWeights(One<u32>, One<u64>);
    PairHeavy(Pair(PATH, PATH), w, Pair(WORD, LONG), v);
    forall s, bs ensures Weighs(OBJECT_HEAD, One, s, bs) {
      assert Weighs(Pair(Pair(PATH, PATH), Pair(WORD, LONG)), AddWeights(w, v), s, bs);
    }
  }

  lemma {:induction false} ObjectHeavy()
    ensures Heavy(OBJECT, ObjectWeight)
  {
    ObjectHeadHeavy();
    PathHeavy();
    var v := TotalWeight(One<Str>);
    forall h ensures Heavy(AttachPaths(h), v) {
      ManyHeavy(PATH, One, h.1.0);
    }
    ThenHeavy(OBJECT_HEAD, One, AttachPaths, v);
    forall a ensures ObjectWeight(ObjectOf(a)) <= AddWeights(One<ObjectHead>, v)(a) {
      TotalOne(a.1);
    }
    MapHeavy(Then(OBJECT_HEAD, AttachPaths), AddWeights(One, v), ObjectOf, ObjectParts, ObjectWeight);
  }

  lemma {:induction false} AddfdHeavy()
    ensures Heavy(ADDFD, One)
  {
    NumbersHeavy();
    PathHeavy();
    GuardHeavy(TEXT, One, ActionKnown);
    MapHeavy(TEXT, One, ModeOf, ModeText, One);
    PairHeavy(PATH, One, MODE, One);
    var c, w := Pair(ACTION, Pair(PATH, MODE)), AddWeights(One<Str>, AddWeights(One<Str>, One<Option<Str>>));
    PairHeavy(ACTION, One, Pair(PATH, MODE), AddWeights(One, One));
    MapHeavy(c, w, AddfdOf, AddfdParts, One);
  }

  // ----- the whole blob

  lemma {:induction false} ListBytes<A(!new)>(c: Codec<A>, w: A -> nat, n: nat, bs: Str)
    requires Heavy(c, w) && Many(c, n).parse(false, bs).Some?
    ensures |Many(c, n).parse(false, bs).value.1| + 4 * Total(w, Many(c, n).parse(false, bs).value.0) <= |bs|
  {
    ManyHeavy(c, w, n);
    assert Weighs(Many(c, n), TotalWeight(w), false, bs);
  }

  const LISTS_WEIGHT: (Lists) -> nat := AddWeights(TotalWeight(LayerWeight), TotalWeight(One<NetRule>))
  const PATHS_WEIGHT: ((seq<Str>, seq<Str>)) -> nat := AddWeights(TotalWeight(One<Str>), TotalWeight(One<Str>))
  const BROKERED_WEIGHT: (Brokered) -> nat :=
    AddWeights(AddWeights(TotalWeight(One<Str>), TotalWeight(One<BindRule>)),
               AddWeights(TotalWeight(ObjectWeight), TotalWeight(One<AddfdRule>)))
  const MOUNTED_WEIGHT: (Mounted) -> nat :=
    AddWeights(TotalWeight(One<Str>), AddWeights(TotalWeight(One<BindRule>), TotalWeight(One<Str>)))

  lemma {:induction false} FrontHeavy(h: Header)
    ensures Heavy(LISTS(h), LISTS_WEIGHT) && Heavy(OPENS(h), AddWeights(PATHS_WEIGHT, PATHS_WEIGHT))
  {
    var n: nat := if h.netEnabled != 0 then h.netRules else 0;
    LayerHeavy();
    NetRuleHeavy();
    PathHeavy();
    ManyHeavy(LAYER, LayerWeight, h.layers);
    ManyHeavy(NET_RULE, One, n);
    PairHeavy(Many(LAYER, h.layers), TotalWeight(LayerWeight), Many(NET_RULE, n), TotalWeight(One<NetRule>));
    var w := TotalWeight(One<Str>);
    ManyHeavy(PATH, One, h.openRead);
    ManyHeavy(PATH, One, h.openWrite);
    ManyHeavy(PATH, One, h.scratch);
    ManyHeavy(PATH, One, h.exports);
    PairHeavy(Many(PATH, h.openRead), w, Many(PATH, h.openWrite), w);
    PairHeavy(Many(PATH, h.scratch), w, Many(PATH, h.exports), w);
    PairHeavy(Pair(Many(PATH, h.openRead), Many(PATH, h.openWrite)), PATHS_WEIGHT,
              Pair(Many(PATH, h.scratch), Many(PATH, h.exports)), PATHS_WEIGHT);
  }

  lemma {:induction false} BackHeavy(h: Header)
    ensures Heavy(BROKERED(h), BROKERED_WEIGHT) && Heavy(MOUNTED(h), MOUNTED_WEIGHT)
  {
    PathHeavy();
    BindHeavy();
    ObjectHeavy();
    AddfdHeavy();
    var w, b := TotalWeight(One<Str>), TotalWeight(One<BindRule>);
    ManyHeavy(PATH, One, h.brokerTmpfs);
    ManyHeavy(BIND, One, h.brokerBind);
    ManyHeavy(OBJECT, ObjectWeight, h.brokerObject);
    ManyHeavy(ADDFD, One, h.addfd);
    PairHeavy(Many(PATH, h.brokerTmpfs), w, Many(BIND, h.brokerBind), b);
    PairHeavy(Many(OBJECT, h.brokerObject), TotalWeight(ObjectWeight), Many(ADDFD, h.addfd), TotalWeight(One<AddfdRule>));
    PairHeavy(Pair(Many(PATH, h.brokerTmpfs), Many(BIND, h.brokerBind)), AddWeights(w, b),
              Pair(Many(OBJECT, h.brokerObject), Many(ADDFD, h.addfd)),
              AddWeights(TotalWeight(ObjectWeight), TotalWeight(One<AddfdRule>)));
    ManyHeavy(PATH, One, h.mountTmpfs);
    ManyHeavy(BIND, One, h.mountBind);
    ManyHeavy(PATH, One, h.mountProc);
    PairHeavy(Many(BIND, h.mountBind), b, Many(PATH, h.mountProc), w);
    PairHeavy(Many(PATH, h.mountTmpfs), w, Pair(Many(BIND, h.mountBind), Many(PATH, h.mountProc)), AddWeights(b, w));
  }

  const SECTIONS_WEIGHT: (Sections) -> nat :=
    AddWeights(AddWeights(LISTS_WEIGHT, AddWeights(PATHS_WEIGHT, PATHS_WEIGHT)), AddWeights(BROKERED_WEIGHT, MOUNTED_WEIGHT))

  lemma {:induction false} SectionsHeavy(h: Header)
    ensures Heavy(SECTIONS(h), SECTIONS_WEIGHT)
  {
    FrontHeavy(h);
    BackHeavy(h);
    PairHeavy(LISTS(h), LISTS_WEIGHT, OPENS(h), AddWeights(PATHS_WEIGHT, PATHS_WEIGHT));
    PairHeavy(BROKERED(h), BROKERED_WEIGHT, MOUNTED(h), MOUNTED_WEIGHT);
    PairHeavy(Pair(LISTS(h), OPENS(h)), AddWeights(LISTS_WEIGHT, AddWeights(PATHS_WEIGHT, PATHS_WEIGHT)),
              Pair(BROKERED(h), MOUNTED(h)), AddWeights(BROKERED_WEIGHT, MOUNTED_WEIGHT));
  }

  lemma {:induction false} WeightOfSections(ir: Ir)
    ensures Elements(ir) == SECTIONS_WEIGHT(SectionsOf(ir)) + |ir.deny|
  {
    TotalOne(ir.netRules);
    TotalOne(ir.openRead);
    TotalOne(ir.openWrite);
    TotalOne(ir.scratch);
    TotalOne(ir.exports);
    TotalOne(ir.brokerTmpfs);
    TotalOne(ir.brokerBind);
    TotalOne(ir.addfd);
    TotalOne(ir.mountTmpfs);
    TotalOne(ir.mountBind);
    TotalOne(ir.mountProc);
  }

  lemma {:induction false} BodyBytes(c: Codec<Sections>, w: Sections -> nat, m: u32, n: u32, d: Codec<seq<u32>>, bs: Str)
    requires Heavy(c, w) && Heavy(d, TotalWeight(One<u32>)) && BodyParse(c, m, n, d, false, bs).Some?
    ensures var b := BodyParse(c, m, n, d, false, bs).value.0; 4 * (w(b.0.0) + |b.1|) <= |bs|
  {
    assert Weighs(c, w, false, bs);
    var (s, r1) := c.parse(false, bs).value;
    TailSound(m, false, r1);
    var (root, r2) := TailParse(m, false, r1).value;
    TailSound(n, false, r2);
    var (cwd, r3) := TailParse(n, false, r2).value;
    assert Weighs(d, TotalWeight(One<u32>), false, r3);
    TotalOne(d.parse(false, r3).value.0);
  }

  lemma {:induction false} HeaderBytes(bs: Str)
    requires HEADER.parse(false, bs).Some?
    ensures |HEADER.parse(false, bs).value.1| + 4 * HEADER_WORDS <= |bs|
  {
    NumbersHeavy();
    WordLawful();
    ManyLawful(WORD, HEADER_WORDS);
    var words := Many(WORD, HEADER_WORDS);
    assert Sound(words, false, bs);
    ListBytes(WORD, One, HEADER_WORDS, bs);
    TotalOne(words.parse(false, bs).value.0);
  }

  lemma {:induction false} FormatBytes(f: Format, w: Sections -> nat, bs: Str)
    requires forall h :: Heavy(f.sections(h), w) && Heavy(f.denies(h), TotalWeight(One<u32>))
    requires DecodeAs(f, false, bs).Some?
    ensures f.header.parse(false, bs).Some?
    ensures var ir := DecodeAs(f, false, bs).value;
      4 * (w(SectionsOf(ir)) + |ir.deny|) <= |f.header.parse(false, bs).value.1|
  {
    var (h, afterHeader) := f.header.parse(false, bs).value;
    BodyBytes(f.sections(h), w, h.rootLen, h.cwdLen, f.denies(h), afterHeader);
    var (b, rest) := BodyParse(f.sections(h), h.rootLen, h.cwdLen, f.denies(h), false, afterHeader).value;
    assert BodyOf(Assemble(h, b)) == b;
  }

  lemma {:induction false} FormatHeavy(h: Header)
    ensures Heavy(FORMAT.sections(h), SECTIONS_WEIGHT) && Heavy(FORMAT.denies(h), TotalWeight(One<u32>))
  {
    SectionsHeavy(h);
    NumbersHeavy();
    GuardHeavy(WORD, One, IsSyscall);
    ManyHeavy(DENY, One, if h.seccompEnabled != 0 then h.deny else 0);
  }

  /** The 92 header bytes apart, every element that an accepted blob announces
      takes at least four of its bytes. */
  lemma {:induction false} CountsAreBounded(bs: Str)
    requires Decode(false, bs).Some?
    ensures 92 + 4 * Elements(Decode(false, bs).value) <= |bs|
  {
    forall h ensures Heavy(FORMAT.sections(h), SECTIONS_WEIGHT) && Heavy(FORMAT.denies(h), TotalWeight(One<u32>)) {
      FormatHeavy(h);
    }
    FormatBytes(FORMAT, SECTIONS_WEIGHT, bs);
    HeaderBytes(bs);
    WeightOfSections(Decode(false, bs).value);
  }
}
