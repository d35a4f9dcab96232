/** The policy wire format (write_ir and load_ir_from_wire), as one codec whose
    parse and print sides are each other's inverse. Numbers are in the byte
    order of a little-endian machine, which both sides use unconverted. */
module Wire {
  import opened Bytes
  import opened Codec
  import opened PolicyIr

  const MAGIC: u32 := 0x4c504c44
  const VERSION: u32 := 16

  // ----- numbers

  function Le(n: nat, width: nat): (bs: Str)
    ensures |bs| == width
  {
    if width == 0 then [] else [(n % 256) as char] + Le(n / 256, width - 1)
  }

  function Value(bs: Str): nat {
    if bs == [] then 0 else bs[0] as int + 256 * Value(bs[1..])
  }

  function Limit(width: nat): nat {
    if width == 0 then 1 else 256 * Limit(width - 1)
  }

  lemma {:induction false} ValueOfLe(n: nat, width: nat)
    requires n < Limit(width)
    ensures Value(Le(n, width)) == n
  {
    if width > 0 {
      assert Le(n, width)[1..] == Le(n / 256, width - 1);
      ValueOfLe(n / 256, width - 1);
    }
  }

  lemma {:induction false} LeOfValue(bs: Str)
    ensures Value(bs) < Limit(|bs|) && Le(Value(bs), |bs|) == bs
  {
    if bs != [] {
      LeOfValue(bs[1..]);
      assert Value(bs) / 256 == Value(bs[1..]);
    }
  }

  lemma {:induction false} Limits()
    ensures Limit(4) == 0x1_0000_0000 && Limit(8) == 0x1_0000_0000_0000_0000
  {
    assert Limit(2) == 0x1_0000 && Limit(4) == 0x1_0000_0000;
    assert Limit(6) == 0x1_0000_0000_0000;
  }

  /** read_u32_buf and read_u64_buf. */
  function NumberParse(width: nat, bs: Str): Option<(nat, Str)> {
    if |bs| < width then None else Some((Value(bs[..width]), bs[width..]))
  }

  lemma {:induction false} NumberRoundTrips(width: nat, n: nat, rest: Str)
    requires n < Limit(width)
    ensures NumberParse(width, Le(n, width) + rest) == Some((n, rest))
  {
    ValueOfLe(n, width);
    assert (Le(n, width) + rest)[..width] == Le(n, width);
  }

  lemma {:induction false} NumberExact(width: nat, bs: Str, ext: Str)
    requires |bs| >= width
    ensures bs == Le(Value(bs[..width]), width) + bs[width..]
    ensures Value(bs[..width]) < Limit(width)
    ensures NumberParse(width, bs + ext) == Some((Value(bs[..width]), bs[width..] + ext))
  {
    LeOfValue(bs[..width]);
    assert (bs + ext)[..width] == bs[..width] && (bs + ext)[width..] == bs[width..] + ext;
  }

  function WordParse(strict: bool, bs: Str): (r: Option<(u32, Str)>) {
    if |bs| < 4 then None
    else
      LeOfValue(bs[..4]);
      Limits();
      Some((Value(bs[..4]), bs[4..]))
  }

  const WORD: Codec<u32> := Codec(WordParse, (n: u32) => Le(n, 4), (n: u32) => true)

  function LongParse(strict: bool, bs: Str): Option<(u64, Str)> {
    if |bs| < 8 then None
    else
      LeOfValue(bs[..8]);
      Limits();
      Some((Value(bs[..8]), bs[8..]))
  }

  const LONG: Codec<u64> := Codec(LongParse, (n: u64) => Le(n, 8), (n: u64) => true)

  lemma {:induction false} WordLawful()
    ensures Lawful(WORD)
  {
    Limits();
    forall n: u32, rest ensures RoundTrips(WORD, n, rest) {
      NumberRoundTrips(4, n, rest);
    }
    forall s, bs, ext ensures Stable(WORD, s, bs, ext) {
      if |bs| >= 4 {
        NumberExact(4, bs, ext);
      }
    }
    forall bs ensures Exact(WORD, bs) && Lenient(WORD, bs) {
      if |bs| >= 4 {
        NumberExact(4, bs, []);
      }
    }
  }

  lemma {:induction false} LongLawful()
    ensures Lawful(LONG)
  {
    Limits();
    forall n: u64, rest ensures RoundTrips(LONG, n, rest) {
      NumberRoundTrips(8, n, rest);
    }
    forall s, bs, ext ensures Stable(LONG, s, bs, ext) {
      if |bs| >= 8 {
        NumberExact(8, bs, ext);
      }
    }
    forall bs ensures Exact(LONG, bs) && Lenient(LONG, bs) {
      if |bs| >= 8 {
        NumberExact(8, bs, []);
      }
    }
  }

  /** A port is sent as 32 bits and cut to 16 by the reader. */
  function PortParse(strict: bool, bs: Str): Option<(u16, Str)> {
    var (n, rest) :- WordParse(strict, bs);
    if strict && n >= 0x1_0000 then None else Some((n % 0x1_0000, rest))
  }

  const PORT: Codec<u16> := Codec(PortParse, (n: u16) => Le(n, 4), (n: u16) => true)

  lemma {:induction false} PortLawful()
    ensures Lawful(PORT)
  {
    WordLawful();
    forall n: u16, rest ensures RoundTrips(PORT, n, rest) {
      assert RoundTrips(WORD, n, rest);
    }
    forall s, bs, ext ensures Stable(PORT, s, bs, ext) {
      assert Stable(WORD, s, bs, ext);
    }
    forall bs ensures Exact(PORT, bs) && Lenient(PORT, bs) {
      assert Exact(WORD, bs);
    }
  }

  // ----- strings

  /** Copy n bytes, end them with '\0' and keep the C string. */
  function RawParse(n: nat, strict: bool, bs: Str): Option<(Str, Str)> {
    if |bs| < n || (strict && !NulFree(bs[..n])) then None else Some((CStr(bs[..n]), bs[n..]))
  }

  function TextParse(strict: bool, bs: Str): Option<(Str, Str)> {
    var (n, rest) :- WordParse(strict, bs);
    RawParse(n, strict, rest)
  }

  /** The writer cuts lengths to 32 bits. */
  const TEXT: Codec<Str> := Codec(TextParse,
    (s: Str) => Le(|s|, 4) + s[..|s| % TWO_32],
    (s: Str) => NulFree(s) && |s| < TWO_32)

  lemma {:induction false} TextRoundTrips(s: Str, rest: Str)
    ensures RoundTrips(TEXT, s, rest)
  {
    if TEXT.ok(s) {
      WordLawful();
      assert RoundTrips(WORD, |s|, s + rest);
      ShowText(s, rest);
      assert (s + rest)[..|s|] == s && (s + rest)[|s|..] == rest;
    }
  }

  lemma {:induction false} RawStable(n: nat, strict: bool, bs: Str, ext: Str)
    requires RawParse(n, strict, bs).Some?
    ensures RawParse(n, strict, bs + ext)
         == Some((RawParse(n, strict, bs).value.0, RawParse(n, strict, bs).value.1 + ext))
  {
    assert (bs + ext)[..n] == bs[..n] && (bs + ext)[n..] == bs[n..] + ext;
  }

  lemma {:induction false} TextStable(strict: bool, bs: Str, ext: Str)
    ensures Stable(TEXT, strict, bs, ext)
  {
    WordLawful();
    assert Stable(WORD, strict, bs, ext);
    if TextParse(strict, bs).Some? {
      var (n, rest) := WordParse(strict, bs).value;
      RawStable(n, strict, rest, ext);
    }
  }

  lemma {:induction false} TextExact(bs: Str)
    ensures Exact(TEXT, bs) && Lenient(TEXT, bs)
  {
    WordLawful();
    assert Exact(WORD, bs);
    if TextParse(true, bs).Some? {
      var (n, rest) := WordParse(true, bs).value;
      ShowText(rest[..n], rest[n..]);
      assert rest == rest[..n] + rest[n..];
    }
  }

  lemma {:induction false} ShowText(text: Str, rest: Str)
    requires |text| < TWO_32
    ensures Le(|text|, 4) + (text + rest) == TEXT.show(text) + rest
  {
    assert text[..|text|] == text;
    assert Le(|text|, 4) + (text + rest) == Le(|text|, 4) + text + rest;
  }

  lemma {:induction false} TextLawful()
    ensures Lawful(TEXT)
  {
    forall s: Str, rest ensures RoundTrips(TEXT, s, rest) {
      TextRoundTrips(s, rest);
    }
    forall s, bs, ext ensures Stable(TEXT, s, bs, ext) {
      TextStable(s, bs, ext);
    }
    forall bs ensures Exact(TEXT, bs) && Lenient(TEXT, bs) {
      TextExact(bs);
    }
  }

  // ----- records

  predicate Nonempty(s: Str) {
    s != []
  }

  const PATH: Codec<Str> := Guard(TEXT, Nonempty)

  predicate FsRuleGrants(p: (u64, Str)) {
    p.0 != 0
  }

  function FsRuleOf(p: (u64, Str)): FsRule {
    FsRule(p.1, p.0)
  }

  function FsRuleParts(r: FsRule): (u64, Str) {
    (r.access, r.path)
  }

  const FS_RULE: Codec<FsRule> := Map(Guard(Pair(LONG, TEXT), FsRuleGrants), FsRuleOf, FsRuleParts)

  function Count<T>(xs: seq<T>): u32 {
    |xs| % TWO_32
  }

  predicate LayerHandles(p: (u64, u32)) {
    p.0 != 0
  }

  function LayerRules(p: (u64, u32)): Codec<seq<FsRule>> {
    Many(FS_RULE, p.1)
  }

  function LayerOf(p: ((u64, u32), seq<FsRule>)): FsLayer {
    FsLayer(p.0.0, p.1)
  }

  function LayerParts(l: FsLayer): ((u64, u32), seq<FsRule>) {
    ((l.handled, Count(l.rules)), l.rules)
  }

  const LAYER: Codec<FsLayer> := Map(Then(Guard(Pair(LONG, WORD), LayerHandles), LayerRules), LayerOf, LayerParts)

  predicate NetRuleGrants(p: (u16, u64)) {
    p.1 != 0
  }

  function NetRuleOf(p: (u16, u64)): NetRule {
    NetRule(p.0, p.1)
  }

  function NetRuleParts(r: NetRule): (u16, u64) {
    (r.port, r.access)
  }

  const NET_RULE: Codec<NetRule> := Map(Guard(Pair(PORT, LONG), NetRuleGrants), NetRuleOf, NetRuleParts)

  predicate FlagIsBit(p: (Str, (Str, u32))) {
    p.1.1 <= 1
  }

  function BindOf(p: (Str, (Str, u32))): BindRule {
    BindRule(p.0, p.1.0, p.1.1 != 0)
  }

  function BindParts(r: BindRule): (Str, (Str, u32)) {
    (r.source, (r.target, if r.readOnly then 1 else 0))
  }

  const BIND: Codec<BindRule> := Map(Guard(Pair(PATH, Pair(PATH, WORD)), FlagIsBit), BindOf, BindParts)

  /** Name and type, then the number of attach paths and the attributes, whose
      low and high words are sent in that order. */
  type ObjectHead = ((Str, Str), (u32, u64))

  predicate Attaches(h: ObjectHead) {
    h.1.0 != 0
  }

  function AttachPaths(h: ObjectHead): Codec<seq<Str>> {
    Many(PATH, h.1.0)
  }

  function ObjectOf(p: (ObjectHead, seq<Str>)): ObjectRule {
    ObjectRule(p.0.0.0, p.0.0.1, p.1, p.0.1.1)
  }

  function ObjectParts(r: ObjectRule): (ObjectHead, seq<Str>) {
    (((r.name, r.fsType), (Count(r.attach), r.attrs)), r.attach)
  }

  const OBJECT_HEAD: Codec<ObjectHead> := Guard(Pair(Pair(PATH, PATH), Pair(WORD, LONG)), Attaches)
  const OBJECT: Codec<ObjectRule> := Map(Then(OBJECT_HEAD, AttachPaths), ObjectOf, ObjectParts)

  /** A missing mode is sent as an empty string. */
  function ModeOf(s: Str): Option<Str> {
    if s == [] then None else Some(s)
  }

  function ModeText(m: Option<Str>): Str {
    if m.None? then [] else m.value
  }

  function AddfdOf(p: (Str, (Str, Option<Str>))): AddfdRule {
    AddfdRule(p.0, p.1.0, p.1.1)
  }

  function AddfdParts(r: AddfdRule): (Str, (Str, Option<Str>)) {
    (r.action, (r.target, r.mode))
  }

  const ACTION: Codec<Str> := Guard(TEXT, ActionKnown)
  const MODE: Codec<Option<Str>> := Map(TEXT, ModeOf, ModeText)
  const ADDFD: Codec<AddfdRule> := Map(Pair(ACTION, Pair(PATH, MODE)), AddfdOf, AddfdParts)

  predicate IsSyscall(n: u32) {
    n <= 0x7fff_ffff
  }

  const DENY: Codec<u32> := Guard(WORD, IsSyscall)

  lemma {:induction false} PathLawful()
    ensures Lawful(PATH)
  {
    TextLawful();
    GuardLawful(TEXT, Nonempty);
  }

  lemma {:induction false} FsRuleLawful()
    ensures Lawful(FS_RULE)
  {
    LongLawful();
    TextLawful();
    PairLawful(LONG, TEXT);
    GuardLawful(Pair(LONG, TEXT), FsRuleGrants);
    MapLawful(Guard(Pair(LONG, TEXT), FsRuleGrants), FsRuleOf, FsRuleParts);
  }

  lemma {:induction false} LayerLawful()
    ensures Lawful(LAYER)
  {
    LongLawful();
    WordLawful();
    PairLawful(LONG, WORD);
    var head := Guard(Pair(LONG, WORD), LayerHandles);
    GuardLawful(Pair(LONG, WORD), LayerHandles);
    forall p ensures Lawful(LayerRules(p)) {
      FsRuleLawful();
      ManyLawful(FS_RULE, p.1);
    }
    ThenLawful(head, LayerRules);
    MapLawful(Then(head, LayerRules), LayerOf, LayerParts);
  }

  lemma {:induction false} NetRuleLawful()
    ensures Lawful(NET_RULE)
  {
    PortLawful();
    LongLawful();
    PairLawful(PORT, LONG);
    GuardLawful(Pair(PORT, LONG), NetRuleGrants);
    MapLawful(Guard(Pair(PORT, LONG), NetRuleGrants), NetRuleOf, NetRuleParts);
  }

  lemma {:induction false} BindLawful()
    ensures Lawful(BIND)
  {
    PathLawful();
    WordLawful();
    PairLawful(PATH, WORD);
    PairLawful(PATH, Pair(PATH, WORD));
    GuardLawful(Pair(PATH, Pair(PATH, WORD)), FlagIsBit);
    MapLawful(Guard(Pair(PATH, Pair(PATH, WORD)), FlagIsBit), BindOf, BindParts);
  }

  lemma {:induction false} ObjectHeadLawful()
    ensures Lawful(OBJECT_HEAD)
  {
    PathLawful();
    WordLawful();
    LongLawful();
    PairLawful(PATH, PATH);
    PairLawful(WORD, LONG);
    PairLawful(Pair(PATH, PATH), Pair(WORD, LONG));
    GuardLawful(Pair(Pair(PATH, PATH), Pair(WORD, LONG)), Attaches);
  }

  lemma {:induction false} ObjectCount(p: (ObjectHead, seq<Str>))
    ensures Then(OBJECT_HEAD, AttachPaths).ok(p) ==> |p.1| == p.0.1.0
  {
    ThenOk(OBJECT_HEAD, AttachPaths, p);
  }

  lemma {:induction false} ObjectViews(p: (ObjectHead, seq<Str>))
    requires |p.1| == p.0.1.0
    ensures ObjectParts(ObjectOf(p)) == p
  {
  }

  lemma {:induction false} ObjectBodyLawful()
    ensures Lawful(Then(OBJECT_HEAD, AttachPaths))
  {
    ObjectHeadLawful();
    PathLawful();
    forall h ensures Lawful(AttachPaths(h)) {
      ManyLawful(PATH, h.1.0);
    }
    ThenLawful(OBJECT_HEAD, AttachPaths);
  }

  lemma {:induction false} ObjectLawful()
    ensures Lawful(OBJECT)
  {
    ObjectBodyLawful();
    forall p | Then(OBJECT_HEAD, AttachPaths).ok(p) ensures ObjectParts(ObjectOf(p)) == p {
      ObjectCount(p);
      ObjectViews(p);
    }
    MapLawful(Then(OBJECT_HEAD, AttachPaths), ObjectOf, ObjectParts);
  }

  lemma {:induction false} AddfdLawful()
    ensures Lawful(ADDFD)
  {
    TextLawful();
    PathLawful();
    GuardLawful(TEXT, ActionKnown);
    MapLawful(TEXT, ModeOf, ModeText);
    PairLawful(PATH, MODE);
    PairLawful(ACTION, Pair(PATH, MODE));
    MapLawful(Pair(ACTION, Pair(PATH, MODE)), AddfdOf, AddfdParts);
  }

  lemma {:induction false} DenyLawful()
    ensures Lawful(DENY)
  {
    WordLawful();
    GuardLawful(WORD, IsSyscall);
  }

  // ----- the header

  /** The fields of the header, in wire order. */
  datatype Header = Header(
    magic: u32, version: u32,
    layers: u32,
    netEnabled: u32, netHandled: u64, netRules: u32,
    openRead: u32, openWrite: u32, scratch: u32, exports: u32,
    brokerTmpfs: u32, brokerBind: u32, brokerObject: u32, addfd: u32,
    mountTmpfs: u32, mountBind: u32, mountProc: u32,
    rootLen: u32, cwdLen: u32,
    seccompEnabled: u32, seccompErrno: u32, deny: u32
  )

  /** 21 numbers of four bytes and one of eight, as 23 words. */
  const HEADER_WORDS: nat := 23

  function HeaderOf(w: seq<u32>): Header {
    if |w| != HEADER_WORDS then Header(0, 0, 0, 0, 0, 0, 0, 0, 0, 0, 0, 0, 0, 0, 0, 0, 0, 0, 0, 0, 0, 0)
    else Header(w[0], w[1], w[2], w[3], w[5] * TWO_32 + w[4], w[6], w[7], w[8], w[9], w[10], w[11], w[12], w[13],
                w[14], w[15], w[16], w[17], w[18], w[19], w[20], w[21], w[22])
  }

  function HeaderWords(h: Header): seq<u32> {
    [h.magic, h.version, h.layers, h.netEnabled, h.netHandled % TWO_32, h.netHandled / TWO_32, h.netRules,
     h.openRead, h.openWrite, h.scratch, h.exports, h.brokerTmpfs, h.brokerBind, h.brokerObject, h.addfd,
     h.mountTmpfs, h.mountBind, h.mountProc, h.rootLen, h.cwdLen, h.seccompEnabled, h.seccompErrno, h.deny]
  }

  const HEADER: Codec<Header> := Map(Many(WORD, HEADER_WORDS), HeaderOf, HeaderWords)

  lemma {:induction false} HeaderViews(w: seq<u32>)
    requires |w| == HEADER_WORDS
    ensures HeaderWords(HeaderOf(w)) == w
  {
  }

  lemma {:induction false} HeaderViewsBack(h: Header)
    ensures HeaderOf(HeaderWords(h)) == h
  {
  }

  lemma {:induction false} HeaderLawful()
    ensures Lawful(HEADER)
    ensures forall h :: HEADER.ok(h)
  {
    WordLawful();
    ManyLawful(WORD, HEADER_WORDS);
    forall w | |w| == HEADER_WORDS ensures HeaderWords(HeaderOf(w)) == w {
      HeaderViews(w);
    }
    forall h ensures HeaderOf(HeaderWords(h)) == h {
      HeaderViewsBack(h);
    }
    MapLawful(Many(WORD, HEADER_WORDS), HeaderOf, HeaderWords);
  }

  /** The reader's checks on header fields. */
  predicate Supported(h: Header) {
    && h.magic == MAGIC && h.version == VERSION
    && (h.netEnabled != 0 ==> h.netHandled != 0)
    && (h.seccompEnabled != 0 ==> 1 <= h.seccompErrno <= 4095)
  }

  /** Header fields that the C writer can produce for an IR built by the
      builder operations. */
  predicate PlainHeader(h: Header) {
    && h.netEnabled <= 1 && (h.netEnabled == 0 ==> h.netHandled == 0 && h.netRules == 0)
    && h.seccompEnabled <= 1 && (h.seccompEnabled == 0 ==> h.seccompErrno == 0 && h.deny == 0)
  }

  // ----- the body

  type Lists = (seq<FsLayer>, seq<NetRule>)
  type Opens = ((seq<Str>, seq<Str>), (seq<Str>, seq<Str>))
  type Brokered = ((seq<Str>, seq<BindRule>), (seq<ObjectRule>, seq<AddfdRule>))
  type Mounted = (seq<Str>, (seq<BindRule>, seq<Str>))
  type Sections = ((Lists, Opens), (Brokered, Mounted))

  function LISTS(h: Header): Codec<Lists> {
    Pair(Many(LAYER, h.layers), Many(NET_RULE, if h.netEnabled != 0 then h.netRules else 0))
  }

  function OPENS(h: Header): Codec<Opens> {
    Pair(Pair(Many(PATH, h.openRead), Many(PATH, h.openWrite)), Pair(Many(PATH, h.scratch), Many(PATH, h.exports)))
  }

  function BROKERED(h: Header): Codec<Brokered> {
    Pair(Pair(Many(PATH, h.brokerTmpfs), Many(BIND, h.brokerBind)),
         Pair(Many(OBJECT, h.brokerObject), Many(ADDFD, h.addfd)))
  }

  function MOUNTED(h: Header): Codec<Mounted> {
    Pair(Many(PATH, h.mountTmpfs), Pair(Many(BIND, h.mountBind), Many(PATH, h.mountProc)))
  }

  function SECTIONS(h: Header): Codec<Sections> {
    Pair(Pair(LISTS(h), OPENS(h)), Pair(BROKERED(h), MOUNTED(h)))
  }

  lemma {:induction false} FrontLawful(h: Header)
    ensures Lawful(Pair(LISTS(h), OPENS(h)))
  {
    LayerLawful();
    NetRuleLawful();
    PathLawful();
    ManyLawful(LAYER, h.layers);
    ManyLawful(NET_RULE, if h.netEnabled != 0 then h.netRules else 0);
    ManyLawful(PATH, h.openRead);
    ManyLawful(PATH, h.openWrite);
    ManyLawful(PATH, h.scratch);
    ManyLawful(PATH, h.exports);
    PairLawful(Many(LAYER, h.layers), Many(NET_RULE, if h.netEnabled != 0 then h.netRules else 0));
    PairLawful(Many(PATH, h.openRead), Many(PATH, h.openWrite));
    PairLawful(Many(PATH, h.scratch), Many(PATH, h.exports));
    PairLawful(Pair(Many(PATH, h.openRead), Many(PATH, h.openWrite)), Pair(Many(PATH, h.scratch), Many(PATH, h.exports)));
    PairLawful(LISTS(h), OPENS(h));
  }

  lemma {:induction false} BrokeredLawful(h: Header)
    ensures Lawful(BROKERED(h))
  {
    PathLawful();
    BindLawful();
    ObjectLawful();
    AddfdLawful();
    ManyLawful(PATH, h.brokerTmpfs);
    ManyLawful(BIND, h.brokerBind);
    ManyLawful(OBJECT, h.brokerObject);
    ManyLawful(ADDFD, h.addfd);
    PairLawful(Many(PATH, h.brokerTmpfs), Many(BIND, h.brokerBind));
    PairLawful(Many(OBJECT, h.brokerObject), Many(ADDFD, h.addfd));
    PairLawful(Pair(Many(PATH, h.brokerTmpfs), Many(BIND, h.brokerBind)),
               Pair(Many(OBJECT, h.brokerObject), Many(ADDFD, h.addfd)));
  }

  lemma {:induction false} MountedLawful(h: Header)
    ensures Lawful(MOUNTED(h))
  {
    PathLawful();
    BindLawful();
    ManyLawful(PATH, h.mountTmpfs);
    ManyLawful(BIND, h.mountBind);
    ManyLawful(PATH, h.mountProc);
    PairLawful(Many(BIND, h.mountBind), Many(PATH, h.mountProc));
    PairLawful(Many(PATH, h.mountTmpfs), Pair(Many(BIND, h.mountBind), Many(PATH, h.mountProc)));
  }

  lemma {:induction false} SectionsLawful(h: Header)
    ensures Lawful(SECTIONS(h))
  {
    FrontLawful(h);
    BrokeredLawful(h);
    MountedLawful(h);
    PairLawful(BROKERED(h), MOUNTED(h));
    PairLawful(Pair(LISTS(h), OPENS(h)), Pair(BROKERED(h), MOUNTED(h)));
  }

  function TextLen(s: Option<Str>): u32 {
    if s.None? then 0 else |s.value| % TWO_32
  }

  function TailText(s: Option<Str>): Str {
    if s.None? then [] else s.value[..|s.value| % TWO_32]
  }

  /** The runtime root or working directory, whose length is in the header. */
  function TailParse(n: nat, strict: bool, bs: Str): Option<(Option<Str>, Str)> {
    if n == 0 then Some((None, bs))
    else
      var (s, rest) :- RawParse(n, strict, bs);
      if s == [] then None else Some((Some(s), rest))
  }

  /** What follows the header: the sections, the root and working directory,
      and the denied system calls. */
  type Body = ((Sections, (Option<Str>, Option<Str>)), seq<u32>)

  function BodyParse(c: Codec<Sections>, rootLen: nat, cwdLen: nat, d: Codec<seq<u32>>, strict: bool, bs: Str):
    Option<(Body, Str)>
  {
    var (s, afterSections) :- c.parse(strict, bs);
    var (root, afterRoot) :- TailParse(rootLen, strict, afterSections);
    var (cwd, afterCwd) :- TailParse(cwdLen, strict, afterRoot);
    var (deny, rest) :- d.parse(strict, afterCwd);
    Some((((s, (root, cwd)), deny), rest))
  }

  function BodyShow(c: Codec<Sections>, d: Codec<seq<u32>>, b: Body): Str {
    c.show(b.0.0) + (TailText(b.0.1.0) + (TailText(b.0.1.1) + d.show(b.1)))
  }

  function DENIES(h: Header): Codec<seq<u32>> {
    Many(DENY, if h.seccompEnabled != 0 then h.deny else 0)
  }

  function Assemble(h: Header, b: Body): Ir {
    var ((s, (root, cwd)), deny) := b;
    var net, on := h.netEnabled != 0, h.seccompEnabled != 0;
    Ir(s.0.0.0, net, if net then h.netHandled else 0, s.0.0.1,
       s.0.1.0.0, s.0.1.0.1, s.0.1.1.0, s.0.1.1.1,
       s.1.0.0.0, s.1.0.0.1, s.1.0.1.0, s.1.0.1.1,
       s.1.1.0, s.1.1.1.0, s.1.1.1.1,
       root, cwd, on, if on then h.seccompErrno % 0x1_0000 else 0, deny)
  }

  /** Header first; the header then says how to read the rest. */
  datatype Format = Format(header: Codec<Header>, sections: Header -> Codec<Sections>, denies: Header -> Codec<seq<u32>>)

  const FORMAT: Format := Format(HEADER, SECTIONS, DENIES)

  function DecodeAs(f: Format, strict: bool, bs: Str): Option<Ir> {
    var (h, afterHeader) :- f.header.parse(strict, bs);
    if !Supported(h) || (strict && !PlainHeader(h)) then None
    else
      var (body, rest) :- BodyParse(f.sections(h), h.rootLen, h.cwdLen, f.denies(h), strict, afterHeader);
      if rest == [] then Some(Assemble(h, body)) else None
  }

  /** load_ir_from_wire; the strict form accepts only what write_ir produces. */
  function Decode(strict: bool, bs: Str): Option<Ir> {
    DecodeAs(FORMAT, strict, bs)
  }

  // ----- the writer

  /** The header that write_ir computes. */
  function HeaderFor(ir: Ir): Header {
    Header(MAGIC, VERSION, Count(ir.fsLayers),
           if ir.netEnabled then 1 else 0, ir.netHandled, Count(ir.netRules),
           Count(ir.openRead), Count(ir.openWrite), Count(ir.scratch), Count(ir.exports),
           Count(ir.brokerTmpfs), Count(ir.brokerBind), Count(ir.brokerObject), Count(ir.addfd),
           Count(ir.mountTmpfs), Count(ir.mountBind), Count(ir.mountProc),
           TextLen(ir.root), TextLen(ir.cwd),
           if ir.seccompEnabled then 1 else 0, ir.seccompErrno, Count(ir.deny))
  }

  function SectionsOf(ir: Ir): Sections {
    (((ir.fsLayers, ir.netRules), ((ir.openRead, ir.openWrite), (ir.scratch, ir.exports))),
     (((ir.brokerTmpfs, ir.brokerBind), (ir.brokerObject, ir.addfd)),
      (ir.mountTmpfs, (ir.mountBind, ir.mountProc))))
  }

  function BodyOf(ir: Ir): Body {
    ((SectionsOf(ir), (ir.root, ir.cwd)), ir.deny)
  }

  function EncodeAs(f: Format, h: Header, ir: Ir): Str {
    f.header.show(h) + BodyShow(f.sections(h), f.denies(h), BodyOf(ir))
  }

  /** What a writer sends that has chosen the header h. */
  function EncodeWith(h: Header, ir: Ir): Str {
    EncodeAs(FORMAT, h, ir)
  }

  /** write_ir. */
  function Encode(ir: Ir): Str {
    EncodeWith(HeaderFor(ir), ir)
  }
}
