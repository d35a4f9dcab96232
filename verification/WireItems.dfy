/** Which blobs are canonical, told from the words and strings that are read. */
module WireItems {
  import opened Bytes
  import opened Codec
  import opened PolicyIr
  import opened Wire
  import opened WireSteps
  import opened WireTheorems

  /** What a reader takes from a blob and may cut: the bytes of a string as they
      stand there, and the 32-bit word of a port. */
  datatype Item = RawString(bytes: Str) | PortWord(n: u32)

  /** Nothing is cut: no byte after a NUL, no port of more than 16 bits. */
  predicate Plain(item: Item) {
    match item
    case RawString(bytes) => NulFree(bytes)
    case PortWord(n) => n < 0x1_0000
  }

  predicate AllPlain(items: seq<Item>) {
    forall i :: 0 <= i < |items| ==> Plain(items[i])
  }

  lemma {:induction false} PlainConcat(a: seq<Item>, b: seq<Item>)
    ensures AllPlain(a + b) <==> AllPlain(a) && AllPlain(b)
  {
    if AllPlain(a + b) {
      assert forall i :: 0 <= i < |a| ==> a[i] == (a + b)[i];
      assert forall i :: 0 <= i < |b| ==> b[i] == (a + b)[|a| + i];
    }
  }

  /** The items that a reader takes from the front of some bytes. */
  type Trace = Str -> seq<Item>

  // ----- tracing a codec

  predicate TracedAt<T>(c: Codec<T>, t: Trace, bs: Str) {
    c.parse(true, bs).Some? <==> c.parse(false, bs).Some? && AllPlain(t(bs))
  }

  /** The strict reader accepts exactly what the reader accepts with plain items. */
  ghost predicate Traced<T(!new)>(c: Codec<T>, t: Trace) {
    forall bs {:trigger TracedAt(c, t, bs)} :: TracedAt(c, t, bs)
  }

  function Nothing(bs: Str): seq<Item> {
    []
  }

  function StringItem(bs: Str): seq<Item> {
    if |bs| < 4 || |bs| - 4 < Value(bs[..4]) then [] else [RawString(bs[4..][..Value(bs[..4])])]
  }

  function PortItem(bs: Str): seq<Item> {
    if |bs| < 4 then []
    else
      LeOfValue(bs[..4]);
      Limits();
      [PortWord(Value(bs[..4]))]
  }

  function ThenItems<A>(c: Codec<A>, t: Trace, u: A -> Trace, bs: Str): seq<Item> {
    t(bs) + match c.parse(false, bs)
            case None => []
            case Some((a, rest)) => u(a)(rest)
  }

  function ThenTrace<A>(c: Codec<A>, t: Trace, u: A -> Trace): Trace {
    (bs: Str) => ThenItems(c, t, u, bs)
  }

  function PairTrace<A>(c: Codec<A>, t: Trace, u: Trace): Trace {
    ThenTrace(c, t, (a: A) => u)
  }

  function ManyItems<A>(c: Codec<A>, t: Trace, n: nat, bs: Str): seq<Item> {
    if n == 0 then []
    else t(bs) + match c.parse(false, bs)
                 case None => []
                 case Some((a, rest)) => ManyItems(c, t, n - 1, rest)
  }

  function ManyTrace<A>(c: Codec<A>, t: Trace, n: nat): Trace {
    (bs: Str) => ManyItems(c, t, n, bs)
  }

  lemma {:induction false} ThenTraced<A(!new), B(!new)>(c: Codec<A>, t: Trace, f: A -> Codec<B>, u: A -> Trace)
    requires Lawful(c) && Traced(c, t) && forall a {:trigger f(a)} :: Traced(f(a), u(a))
    ensures Traced(Then(c, f), ThenTrace(c, t, u))
  {
    forall bs ensures TracedAt(Then(c, f), ThenTrace(c, t, u), bs) {
      assert TracedAt(c, t, bs) && Lenient(c, bs);
      if c.parse(false, bs).Some? {
        var (a, rest) := c.parse(false, bs).value;
        assert TracedAt(f(a), u(a), rest);
        PlainConcat(t(bs), u(a)(rest));
      }
    }
  }

  lemma {:induction false} PairTraced<A(!new), B(!new)>(c: Codec<A>, t: Trace, d: Codec<B>, u: Trace)
    requires Lawful(c) && Traced(c, t) && Traced(d, u)
    ensures Traced(Pair(c, d), PairTrace(c, t, u))
  {
    ThenTraced(c, t, (a: A) => d, (a: A) => u);
  }

  lemma {:induction false} GuardTraced<A(!new)>(c: Codec<A>, t: Trace, p: A -> bool)
    requires Lawful(c) && Traced(c, t)
    ensures Traced(Guard(c, p), t)
  {
    forall bs ensures TracedAt(Guard(c, p), t, bs) {
      assert TracedAt(c, t, bs) && Lenient(c, bs);
    }
  }

  lemma {:induction false} MapTraced<A(!new), B(!new)>(c: Codec<A>, t: Trace, f: A -> B, g: B -> A)
    requires Traced(c, t)
    ensures Traced(Map(c, f, g), t)
  {
    forall bs ensures TracedAt(Map(c, f, g), t, bs) {
      assert TracedAt(c, t, bs);
    }
  }

  lemma {:induction false} ManyTracedAt<A(!new)>(c: Codec<A>, t: Trace, n: nat, bs: Str)
    requires Lawful(c) && Traced(c, t)
    ensures ManyParse(c, n, true, bs).Some? <==> ManyParse(c, n, false, bs).Some? && AllPlain(ManyItems(c, t, n, bs))
    decreases n
  {
    if n > 0 {
      assert TracedAt(c, t, bs) && Lenient(c, bs);
      if c.parse(false, bs).Some? {
        var (a, rest) := c.parse(false, bs).value;
        ManyTracedAt(c, t, n - 1, rest);
        PlainConcat(t(bs), ManyItems(c, t, n - 1, rest));
      }
    }
  }

  lemma {:induction false} ManyTraced<A(!new)>(c: Codec<A>, t: Trace, n: nat)
    requires Lawful(c) && Traced(c, t)
    ensures Traced(Many(c, n), ManyTrace(c, t, n))
  {
    forall bs ensures TracedAt(Many(c, n), ManyTrace(c, t, n), bs) {
      ManyTracedAt(c, t, n, bs);
    }
  }

  // ----- numbers and strings

  lemma {:induction false} OneItem(item: Item)
    ensures AllPlain([item]) <==> Plain(item)
  {
    assert [item][0] == item;
  }

  lemma {:induction false} NumbersTraced()
    ensures Traced(WORD, Nothing) && Traced(LONG, Nothing) && Traced(PORT, PortItem)
  {
    forall bs ensures TracedAt(PORT, PortItem, bs) {
      if |bs| >= 4 {
        OneItem(PortItem(bs)[0]);
      }
    }
  }

  lemma {:induction false} StringTraced()
    ensures Traced(TEXT, StringItem) && Traced(PATH, StringItem)
  {
    forall bs ensures TracedAt(TEXT, StringItem, bs) {
      if StringItem(bs) != [] {
        OneItem(StringItem(bs)[0]);
      }
    }
    TextLawful();
    GuardTraced(TEXT, StringItem, Nonempty);
  }

  // ----- records

  const FS_RULE_TRACE: Trace := PairTrace(LONG, Nothing, StringItem)

  lemma {:induction false} FsRuleTraced()
    ensures Traced(FS_RULE, FS_RULE_TRACE)
  {
    NumbersTraced();
    StringTraced();
    LongLawful();
    TextLawful();
    PairTraced(LONG, Nothing, TEXT, StringItem);
    PairLawful(LONG, TEXT);
    GuardTraced(Pair(LONG, TEXT), FS_RULE_TRACE, FsRuleGrants);
    MapTraced(Guard(Pair(LONG, TEXT), FsRuleGrants), FS_RULE_TRACE, FsRuleOf, FsRuleParts);
  }

  const LAYER_HEAD: Codec<(u64, u32)> := Guard(Pair(LONG, WORD), LayerHandles)

  function LayerRulesTrace(p: (u64, u32)): Trace {
    ManyTrace(FS_RULE, FS_RULE_TRACE, p.1)
  }

  const LAYER_TRACE: Trace := ThenTrace(LAYER_HEAD, Nothing, LayerRulesTrace)

  lemma {:induction false} NoItems<A(!new), B(!new)>(c: Codec<A>, d: Codec<B>)
    requires Lawful(c) && Traced(c, Nothing) && Traced(d, Nothing)
    ensures Traced(Pair(c, d), Nothing)
  {
    PairTraced(c, Nothing, d, Nothing);
    forall bs ensures TracedAt(Pair(c, d), Nothing, bs) {
      assert TracedAt(Pair(c, d), PairTrace(c, Nothing, Nothing), bs);
      assert PairTrace(c, Nothing, Nothing)(bs) == [];
    }
  }

  lemma {:induction false} LayerTraced()
    ensures Traced(LAYER, LAYER_TRACE)
  {
    NumbersTraced();
    LongLawful();
    WordLawful();
    PairLawful(LONG, WORD);
    NoItems(LONG, WORD);
    GuardTraced(Pair(LONG, WORD), Nothing, LayerHandles);
    GuardLawful(Pair(LONG, WORD), LayerHandles);
    forall p ensures Traced(LayerRules(p), LayerRulesTrace(p)) {
      FsRuleLawful();
      FsRuleTraced();
      ManyTraced(FS_RULE, FS_RULE_TRACE, p.1);
    }
    ThenTraced(LAYER_HEAD, Nothing, LayerRules, LayerRulesTrace);
    MapTraced(Then(LAYER_HEAD, LayerRules), LAYER_TRACE, LayerOf, LayerParts);
  }

  const NET_RULE_TRACE: Trace := PairTrace(PORT, PortItem, Nothing)

  lemma {:induction false} NetRuleTraced()
    ensures Traced(NET_RULE, NET_RULE_TRACE)
  {
    NumbersTraced();
    PortLawful();
    LongLawful();
    PairTraced(PORT, PortItem, LONG, Nothing);
    PairLawful(PORT, LONG);
    GuardTraced(Pair(PORT, LONG), NET_RULE_TRACE, NetRuleGrants);
    MapTraced(Guard(Pair(PORT, LONG), NetRuleGrants), NET_RULE_TRACE, NetRuleOf, NetRuleParts);
  }

  const BIND_TRACE: Trace := PairTrace(PATH, StringItem, PairTrace(PATH, StringItem, Nothing))

  lemma {:induction false} BindTraced()
    ensures Traced(BIND, BIND_TRACE)
  {
    NumbersTraced();
    StringTraced();
    PathLawful();
    WordLawful();
    PairLawful(PATH, WORD);
    PairTraced(PATH, StringItem, WORD, Nothing);
    var c := Pair(PATH, Pair(PATH, WORD));
    PairLawful(PATH, Pair(PATH, WORD));
    PairTraced(PATH, StringItem, Pair(PATH, WORD), PairTrace(PATH, StringItem, Nothing));
    GuardTraced(c, BIND_TRACE, FlagIsBit);
    MapTraced(Guard(c, FlagIsBit), BIND_TRACE, BindOf, BindParts);
  }

  const NAMES: Codec<(Str, Str)> := Pair(PATH, PATH)
  const NAMES_TRACE: Trace := PairTrace(PATH, StringItem, StringItem)
  const OBJECT_HEAD_TRACE: Trace := PairTrace(NAMES, NAMES_TRACE, Nothing)

  function AttachTrace(h: ObjectHead): Trace {
    ManyTrace(PATH, StringItem, h.1.0)
  }

  const OBJECT_TRACE: Trace := ThenTrace(OBJECT_HEAD, OBJECT_HEAD_TRACE, AttachTrace)

  lemma {:induction false} ObjectHeadTraced()
    ensures Traced(OBJECT_HEAD, OBJECT_HEAD_TRACE)
  {
    NumbersTraced();
    StringTraced();
    PathLawful();
    WordLawful();
    LongLawful();
    PairLawful(PATH, PATH);
    PairLawful(WORD, LONG);
    PairTraced(PATH, StringItem, PATH, StringItem);
    NoItems(WORD, LONG);
    PairTraced(NAMES, NAMES_TRACE, Pair(WORD, LONG), Nothing);
    PairLawful(NAMES, Pair(WORD, LONG));
    GuardTraced(Pair(NAMES, Pair(WORD, LONG)), OBJECT_HEAD_TRACE, Attaches);
  }

  lemma {:induction false} ObjectTraced()
    ensures Traced(OBJECT, OBJECT_TRACE)
  {
    ObjectHeadTraced();
    ObjectHeadLawful();
    forall h ensures Traced(AttachPaths(h), AttachTrace(h)) {
      StringTraced();
      PathLawful();
      ManyTraced(PATH, StringItem, h.1.0);
    }
    ThenTraced(OBJECT_HEAD, OBJECT_HEAD_TRACE, AttachPaths, AttachTrace);
    MapTraced(Then(OBJECT_HEAD, AttachPaths), OBJECT_TRACE, ObjectOf, ObjectParts);
  }

  const TARGET_MODE_TRACE: Trace := PairTrace(PATH, StringItem, StringItem)
  const ADDFD_TRACE: Trace := PairTrace(ACTION, StringItem, TARGET_MODE_TRACE)

  lemma {:induction false} AddfdTraced()
    ensures Traced(ADDFD, ADDFD_TRACE)
  {
    StringTraced();
    TextLawful();
    PathLawful();
    GuardTraced(TEXT, StringItem, ActionKnown);
    GuardLawful(TEXT, ActionKnown);
    MapTraced(TEXT, StringItem, ModeOf, ModeText);
    PairTraced(PATH, StringItem, MODE, StringItem);
    PairTraced(ACTION, StringItem, Pair(PATH, MODE), TARGET_MODE_TRACE);
    MapTraced(Pair(ACTION, Pair(PATH, MODE)), ADDFD_TRACE, AddfdOf, AddfdParts);
  }

  // ----- the sections

  const PATHS_TRACE: nat -> Trace := n => ManyTrace(PATH, StringItem, n)

  function ListsTrace(h: Header): Trace {
    PairTrace(Many(LAYER, h.layers), ManyTrace(LAYER, LAYER_TRACE, h.layers),
              ManyTrace(NET_RULE, NET_RULE_TRACE, if h.netEnabled != 0 then h.netRules else 0))
  }

  function TwoPathsTrace(m: nat, n: nat): Trace {
    PairTrace(Many(PATH, m), PATHS_TRACE(m), PATHS_TRACE(n))
  }

  function OpensTrace(h: Header): Trace {
    PairTrace(Pair(Many(PATH, h.openRead), Many(PATH, h.openWrite)),
              TwoPathsTrace(h.openRead, h.openWrite), TwoPathsTrace(h.scratch, h.exports))
  }

  function BrokeredTrace(h: Header): Trace {
    PairTrace(Pair(Many(PATH, h.brokerTmpfs), Many(BIND, h.brokerBind)),
              PairTrace(Many(PATH, h.brokerTmpfs), PATHS_TRACE(h.brokerTmpfs), ManyTrace(BIND, BIND_TRACE, h.brokerBind)),
              PairTrace(Many(OBJECT, h.brokerObject), ManyTrace(OBJECT, OBJECT_TRACE, h.brokerObject),
                        ManyTrace(ADDFD, ADDFD_TRACE, h.addfd)))
  }

  function MountedTrace(h: Header): Trace {
    PairTrace(Many(PATH, h.mountTmpfs), PATHS_TRACE(h.mountTmpfs),
              PairTrace(Many(BIND, h.mountBind), ManyTrace(BIND, BIND_TRACE, h.mountBind), PATHS_TRACE(h.mountProc)))
  }

  function SectionsTrace(h: Header): Trace {
    PairTrace(Pair(LISTS(h), OPENS(h)), PairTrace(LISTS(h), ListsTrace(h), OpensTrace(h)),
              PairTrace(BROKERED(h), BrokeredTrace(h), MountedTrace(h)))
  }

  lemma {:induction false} ManyTracedLawful<A(!new)>(c: Codec<A>, t: Trace, n: nat)
    requires Lawful(c) && Traced(c, t)
    ensures Traced(Many(c, n), ManyTrace(c, t, n)) && Lawful(Many(c, n))
  {
    ManyTraced(c, t, n);
    ManyLawful(c, n);
  }

  lemma {:induction false} PathsTraced(n: nat)
    ensures Traced(Many(PATH, n), PATHS_TRACE(n)) && Lawful(Many(PATH, n))
  {
    StringTraced();
    PathLawful();
    ManyTracedLawful(PATH, StringItem, n);
  }

  lemma {:induction false} PairTracedLawful<A(!new), B(!new)>(c: Codec<A>, t: Trace, d: Codec<B>, u: Trace)
    requires Lawful(c) && Traced(c, t) && Lawful(d) && Traced(d, u)
    ensures Traced(Pair(c, d), PairTrace(c, t, u)) && Lawful(Pair(c, d))
  {
    PairTraced(c, t, d, u);
    PairLawful(c, d);
  }

  lemma {:induction false} ListsTraced(h: Header)
    ensures Traced(LISTS(h), ListsTrace(h)) && Lawful(LISTS(h))
  {
    var n: nat := if h.netEnabled != 0 then h.netRules else 0;
    LayerTraced();
    LayerLawful();
    NetRuleTraced();
    NetRuleLawful();
    ManyTracedLawful(LAYER, LAYER_TRACE, h.layers);
    ManyTracedLawful(NET_RULE, NET_RULE_TRACE, n);
    PairTracedLawful(Many(LAYER, h.layers), ManyTrace(LAYER, LAYER_TRACE, h.layers),
                     Many(NET_RULE, n), ManyTrace(NET_RULE, NET_RULE_TRACE, n));
  }

  lemma {:induction false} TwoPathsTraced(m: nat, n: nat)
    ensures Traced(Pair(Many(PATH, m), Many(PATH, n)), TwoPathsTrace(m, n)) && Lawful(Pair(Many(PATH, m), Many(PATH, n)))
  {
    PathsTraced(m);
    PathsTraced(n);
    PairTracedLawful(Many(PATH, m), PATHS_TRACE(m), Many(PATH, n), PATHS_TRACE(n));
  }

  lemma {:induction false} OpensTraced(h: Header)
    ensures Traced(OPENS(h), OpensTrace(h)) && Lawful(OPENS(h))
  {
    TwoPathsTraced(h.openRead, h.openWrite);
    TwoPathsTraced(h.scratch, h.exports);
    PairTracedLawful(Pair(Many(PATH, h.openRead), Many(PATH, h.openWrite)), TwoPathsTrace(h.openRead, h.openWrite),
                     Pair(Many(PATH, h.scratch), Many(PATH, h.exports)), TwoPathsTrace(h.scratch, h.exports));
  }

  lemma {:induction false} BindsTraced(n: nat)
    ensures Traced(Many(BIND, n), ManyTrace(BIND, BIND_TRACE, n)) && Lawful(Many(BIND, n))
  {
    BindTraced();
    BindLawful();
    ManyTracedLawful(BIND, BIND_TRACE, n);
  }

  lemma {:induction false} RulesTraced(m: nat, n: nat)
    ensures Traced(Many(OBJECT, m), ManyTrace(OBJECT, OBJECT_TRACE, m)) && Lawful(Many(OBJECT, m))
    ensures Traced(Many(ADDFD, n), ManyTrace(ADDFD, ADDFD_TRACE, n)) && Lawful(Many(ADDFD, n))
  {
    ObjectTraced();
    ObjectLawful();
    ManyTracedLawful(OBJECT, OBJECT_TRACE, m);
    AddfdTraced();
    AddfdLawful();
    ManyTracedLawful(ADDFD, ADDFD_TRACE, n);
  }

  lemma {:induction false} BrokeredTraced(h: Header)
    ensures Traced(BROKERED(h), BrokeredTrace(h)) && Lawful(BROKERED(h))
  {
    var a, b, c, d := Many(PATH, h.brokerTmpfs), Many(BIND, h.brokerBind), Many(OBJECT, h.brokerObject), Many(ADDFD, h.addfd);
    PathsTraced(h.brokerTmpfs);
    BindsTraced(h.brokerBind);
    RulesTraced(h.brokerObject, h.addfd);
    PairTracedLawful(a, PATHS_TRACE(h.brokerTmpfs), b, ManyTrace(BIND, BIND_TRACE, h.brokerBind));
    PairTracedLawful(c, ManyTrace(OBJECT, OBJECT_TRACE, h.brokerObject), d, ManyTrace(ADDFD, ADDFD_TRACE, h.addfd));
    PairTracedLawful(Pair(a, b), PairTrace(a, PATHS_TRACE(h.brokerTmpfs), ManyTrace(BIND, BIND_TRACE, h.brokerBind)),
                     Pair(c, d), PairTrace(c, ManyTrace(OBJECT, OBJECT_TRACE, h.brokerObject), ManyTrace(ADDFD, ADDFD_TRACE, h.addfd)));
  }

  lemma {:induction false} MountedTraced(h: Header)
    ensures Traced(MOUNTED(h), MountedTrace(h)) && Lawful(MOUNTED(h))
  {
    var a, b, c := Many(PATH, h.mountTmpfs), Many(BIND, h.mountBind), Many(PATH, h.mountProc);
    PathsTraced(h.mountTmpfs);
    BindsTraced(h.mountBind);
    PathsTraced(h.mountProc);
    PairTracedLawful(b, ManyTrace(BIND, BIND_TRACE, h.mountBind), c, PATHS_TRACE(h.mountProc));
    PairTracedLawful(a, PATHS_TRACE(h.mountTmpfs), Pair(b, c),
                     PairTrace(b, ManyTrace(BIND, BIND_TRACE, h.mountBind), PATHS_TRACE(h.mountProc)));
  }

  lemma {:induction false} SectionsTraced(h: Header)
    ensures Traced(SECTIONS(h), SectionsTrace(h))
  {
    ListsTraced(h);
    OpensTraced(h);
    BrokeredTraced(h);
    MountedTraced(h);
    PairTracedLawful(LISTS(h), ListsTrace(h), OPENS(h), OpensTrace(h));
    PairTracedLawful(BROKERED(h), BrokeredTrace(h), MOUNTED(h), MountedTrace(h));
    PairTraced(Pair(LISTS(h), OPENS(h)), PairTrace(LISTS(h), ListsTrace(h), OpensTrace(h)),
               Pair(BROKERED(h), MOUNTED(h)), PairTrace(BROKERED(h), BrokeredTrace(h), MountedTrace(h)));
  }

  lemma {:induction false} DeniesTraced(h: Header)
    ensures forall bs :: DENIES(h).parse(true, bs).Some? <==> DENIES(h).parse(false, bs).Some?
  {
    var n: nat := if h.seccompEnabled != 0 then h.deny else 0;
    NumbersTraced();
    WordLawful();
    GuardTraced(WORD, Nothing, IsSyscall);
    GuardLawful(WORD, IsSyscall);
    forall bs ensures DENIES(h).parse(true, bs).Some? <==> DENIES(h).parse(false, bs).Some? {
      ManyTracedAt(DENY, Nothing, n, bs);
      NoItemsAtAll(DENY, n, bs);
    }
  }

  lemma {:induction false} NoItemsAtAll<A>(c: Codec<A>, n: nat, bs: Str)
    ensures ManyItems(c, Nothing, n, bs) == []
    decreases n
  {
    if n > 0 && c.parse(false, bs).Some? {
      NoItemsAtAll(c, n - 1, c.parse(false, bs).value.1);
    }
  }

  // ----- the whole blob

  /** The runtime root or working directory, as it stands there. */
  function TailItem(n: nat, bs: Str): seq<Item> {
    if n == 0 || |bs| < n then [] else [RawString(bs[..n])]
  }

  lemma {:induction false} TailTraced(n: nat, bs: Str)
    ensures TailParse(n, true, bs).Some? <==> TailParse(n, false, bs).Some? && AllPlain(TailItem(n, bs))
    ensures TailParse(n, true, bs).Some? ==> TailParse(n, true, bs) == TailParse(n, false, bs)
  {
    if TailItem(n, bs) != [] {
      OneItem(RawString(bs[..n]));
    }
  }

  function TailItems(rootLen: nat, cwdLen: nat, bs: Str): seq<Item> {
    TailItem(rootLen, bs) + match TailParse(rootLen, false, bs)
                            case None => []
                            case Some((root, rest)) => TailItem(cwdLen, rest)
  }

  /** The items of the sections, and then those of the runtime paths. */
  function BodyItems(c: Codec<Sections>, t: Trace, rootLen: nat, cwdLen: nat, bs: Str): seq<Item> {
    t(bs) + match c.parse(false, bs)
            case None => []
            case Some((sections, rest)) => TailItems(rootLen, cwdLen, rest)
  }

  lemma {:induction false} BodyTraced(c: Codec<Sections>, t: Trace, m: nat, n: nat, d: Codec<seq<u32>>, bs: Str)
    requires Lawful(c) && Traced(c, t) && Lawful(d)
    requires forall bs :: d.parse(true, bs).Some? <==> d.parse(false, bs).Some?
    ensures BodyParse(c, m, n, d, true, bs).Some?
       <==> BodyParse(c, m, n, d, false, bs).Some? && AllPlain(BodyItems(c, t, m, n, bs))
    ensures BodyParse(c, m, n, d, true, bs).Some? ==> BodyParse(c, m, n, d, true, bs) == BodyParse(c, m, n, d, false, bs)
  {
    assert TracedAt(c, t, bs) && Lenient(c, bs);
    if c.parse(false, bs).Some? {
      var rest := c.parse(false, bs).value.1;
      PlainConcat(t(bs), TailItems(m, n, rest));
      TailTraced(m, rest);
      if TailParse(m, false, rest).Some? {
        var afterRoot := TailParse(m, false, rest).value.1;
        PlainConcat(TailItem(m, rest), TailItem(n, afterRoot));
        TailTraced(n, afterRoot);
        if TailParse(n, false, afterRoot).Some? {
          var afterCwd := TailParse(n, false, afterRoot).value.1;
          assert Lenient(d, afterCwd);
        }
      }
    }
  }

  function ItemsAs(f: Format, t: Header -> Trace, bs: Str): seq<Item> {
    match f.header.parse(false, bs)
    case None => []
    case Some((h, rest)) => BodyItems(f.sections(h), t(h), h.rootLen, h.cwdLen, rest)
  }

  /** The strings and ports that landlockd reads from a blob, one after the other. */
  function ItemsRead(bs: Str): seq<Item> {
    ItemsAs(FORMAT, SectionsTrace, bs)
  }

  ghost predicate TracedFormat(f: Format, t: Header -> Trace) {
    && (forall h :: Traced(f.sections(h), t(h)))
    && (forall h, bs :: f.denies(h).parse(true, bs).Some? <==> f.denies(h).parse(false, bs).Some?)
  }

  lemma {:induction false} StrictIff(f: Format, t: Header -> Trace, bs: Str, h: Header, rest: Str)
    requires LawfulFormat(f) && TracedFormat(f, t)
    requires f.header.parse(false, bs) == f.header.parse(true, bs) == Some((h, rest))
    requires DecodeAs(f, false, bs).Some?
    ensures DecodeAs(f, true, bs).Some? <==> PlainHeader(h) && AllPlain(ItemsAs(f, t, bs))
  {
    BodyTraced(f.sections(h), t(h), h.rootLen, h.cwdLen, f.denies(h), rest);
  }

  lemma {:induction false} FormatTraced()
    ensures TracedFormat(FORMAT, SectionsTrace)
  {
    forall h ensures Traced(FORMAT.sections(h), SectionsTrace(h)) {
      SectionsTraced(h);
    }
    forall h, bs ensures FORMAT.denies(h).parse(true, bs).Some? <==> FORMAT.denies(h).parse(false, bs).Some? {
      DeniesTraced(h);
    }
  }

  lemma {:induction false} WordsTraced(n: nat, bs: Str)
    ensures ManyParse(WORD, n, true, bs) == ManyParse(WORD, n, false, bs)
    decreases n
  {
    if n > 0 && |bs| >= 4 {
      WordsTraced(n - 1, bs[4..]);
    }
  }

  lemma {:induction false} HeaderRead(bs: Str)
    ensures HEADER.parse(true, bs) == HEADER.parse(false, bs)
         == if 92 <= |bs| then Some((HeaderAtStart(bs), bs[92..])) else None
  {
    HeaderAt(bs);
    WordsTraced(HEADER_WORDS, bs);
  }

  /** A blob that landlockd accepts re-encodes to itself exactly when nothing hides
      behind a switch that is off, both switches are 0 or 1, no string holds a NUL,
      and no port word exceeds 65535. */
  lemma {:induction false} CanonicalIff(bs: Str)
    requires Decode(false, bs).Some?
    ensures 92 <= |bs|
    ensures Encode(Decode(false, bs).value) == bs <==> PlainHeader(HeaderAtStart(bs)) && AllPlain(ItemsRead(bs))
  {
    StrictIffPlain(bs);
    CanonicalBlobs(bs);
  }

  lemma {:induction false} StrictIffPlain(bs: Str)
    requires Decode(false, bs).Some?
    ensures 92 <= |bs|
    ensures Decode(true, bs).Some? <==> PlainHeader(HeaderAtStart(bs)) && AllPlain(ItemsRead(bs))
  {
    HeaderRead(bs);
    FormatLawful();
    FormatTraced();
    StrictIff(FORMAT, SectionsTrace, bs, HeaderAtStart(bs), bs[92..]);
  }

  // ----- blobs that are accepted and not canonical

  /** A header with networking off and access bits nevertheless. */
  const IDLE_NET: Header := HeaderFor(EMPTY).(netHandled := 1)

  lemma {:induction false} IdleNetFits()
    ensures Fits(IDLE_NET, EMPTY) && Supported(IDLE_NET) && Assemble(IDLE_NET, BodyOf(EMPTY)) == EMPTY
    ensures IDLE_NET.rootLen == TextLen(EMPTY.root) && IDLE_NET.cwdLen == TextLen(EMPTY.cwd)
  {
  }

  /** landlockd accepts that blob as the empty policy. */
  lemma {:induction false} IdleNetIsAccepted()
    ensures Decode(false, EncodeWith(IDLE_NET, EMPTY)) == Some(EMPTY)
  {
    FormatLawful();
    IdleNetFits();
    BodyFitsMeans(IDLE_NET, EMPTY);
    DecodeEncoded(FORMAT, IDLE_NET, EMPTY, false);
  }

  /** And would write the empty policy otherwise. */
  lemma {:induction false} IdleNetIsNotCanonical()
    ensures Encode(EMPTY) != EncodeWith(IDLE_NET, EMPTY)
  {
    FormatLawful();
    HeaderLawful();
    HeaderFirst(FORMAT, IDLE_NET, EMPTY);
    HeaderFirst(FORMAT, HeaderFor(EMPTY), EMPTY);
  }

  lemma {:induction false} HeaderFirst(f: Format, h: Header, ir: Ir)
    requires LawfulFormat(f)
    ensures f.header.ok(h) ==> f.header.parse(true, EncodeAs(f, h, ir)).Some? && f.header.parse(true, EncodeAs(f, h, ir)).value.0 == h
  {
    assert RoundTrips(f.header, h, BodyShow(f.sections(h), f.denies(h), BodyOf(ir)));
  }
}
