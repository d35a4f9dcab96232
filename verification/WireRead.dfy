/** load_ir_from_wire: the wire reader as the loops that landlockd runs, proved
    equal to the codec. */
module WireRead {
  import opened Bytes
  import opened Codec
  import opened PolicyIr
  import opened Wire
  import opened WireSteps

  class Reader {
    const buf: Str
    var off: nat

    ghost predicate Valid()
      reads this
    {
      off <= |buf|
    }

    ghost function Rest(): Str
      requires Valid()
      reads this
    {
      buf[off..]
    }

    constructor (buf: Str)
      ensures Valid() && this.buf == buf && off == 0
    {
      this.buf := buf;
      off := 0;
    }

    /** read_u32_buf. */
    method ReadWord() returns (r: Option<u32>)
      requires Valid()
      modifies this`off
      ensures Valid() && Took(WORD, old(Rest()), r, Rest())
      ensures off == if r.Some? then old(off) + 4 else old(off)
    {
      if off + 4 > |buf| {
        return None;
      }
      assert buf[off..][..4] == buf[off..off + 4];
      LeOfValue(buf[off..off + 4]);
      Limits();
      r := Some(Value(buf[off..off + 4]));
      off := off + 4;
    }

    /** read_u64_buf. */
    method ReadLong() returns (r: Option<u64>)
      requires Valid()
      modifies this`off
      ensures Valid() && Took(LONG, old(Rest()), r, Rest())
      ensures off == if r.Some? then old(off) + 8 else old(off)
    {
      if off + 8 > |buf| {
        return None;
      }
      assert buf[off..][..8] == buf[off..off + 8];
      LeOfValue(buf[off..off + 8]);
      Limits();
      r := Some(Value(buf[off..off + 8]));
      off := off + 8;
    }

    /** A 64-bit number sent as a low and a high word. */
    method ReadWords() returns (r: Option<u64>)
      requires Valid()
      modifies this`off
      ensures Valid() && Took(LONG, old(Rest()), r, Rest())
    {
      LongIsTwoWords(Rest());
      var low :- ReadWord();
      var high :- ReadWord();
      return Some(high * TWO_32 + low);
    }

    /** Copy n bytes out of the buffer, as a C string. */
    method ReadRaw(n: nat) returns (r: Option<Str>)
      requires Valid()
      modifies this`off
      ensures Valid()
      ensures r.None? ==> RawParse(n, false, old(Rest())).None?
      ensures r.Some? ==> RawParse(n, false, old(Rest())) == Some((r.value, Rest()))
    {
      if off + n > |buf| {
        return None;
      }
      assert buf[off..][..n] == buf[off..off + n] && buf[off..][n..] == buf[off + n..];
      r := Some(CStr(buf[off..off + n]));
      off := off + n;
    }

    method ReadText() returns (r: Option<Str>)
      requires Valid()
      modifies this`off
      ensures Valid() && Took(TEXT, old(Rest()), r, Rest())
    {
      var n :- ReadWord();
      r := ReadRaw(n);
    }

    method ReadPath() returns (r: Option<Str>)
      requires Valid()
      modifies this`off
      ensures Valid() && Took(PATH, old(Rest()), r, Rest())
    {
      var s :- ReadText();
      if s == [] {
        return None;
      }
      return Some(s);
    }

    /** The loop of every section that holds plain paths. */
    method ReadPaths(n: nat) returns (r: Option<seq<Str>>)
      requires Valid()
      modifies this`off
      ensures Valid() && Took(Many(PATH, n), old(Rest()), r, Rest())
    {
      var paths := [];
      ghost var start := Rest();
      ResumeStart(PATH, n, start);
      for i := 0 to n
        invariant Valid() && Resumes(PATH, n, start, paths, n - i, Rest())
      {
        ResumeNext(PATH, n, start, paths, n - i, Rest());
        var path :- ReadPath();
        paths := paths + [path];
      }
      ResumeEnd(PATH, n, start, paths, Rest());
      return Some(paths);
    }

    method ReadFsRule() returns (r: Option<FsRule>)
      requires Valid()
      modifies this`off
      ensures Valid() && Took(FS_RULE, old(Rest()), r, Rest())
    {
      var access :- ReadLong();
      var path :- ReadText();
      if access == 0 {
        return None;
      }
      return Some(FsRule(path, access));
    }

    method ReadFsRules(n: nat) returns (r: Option<seq<FsRule>>)
      requires Valid()
      modifies this`off
      ensures Valid() && Took(Many(FS_RULE, n), old(Rest()), r, Rest())
    {
      var rules := [];
      ghost var start := Rest();
      ResumeStart(FS_RULE, n, start);
      for i := 0 to n
        invariant Valid() && Resumes(FS_RULE, n, start, rules, n - i, Rest())
      {
        ResumeNext(FS_RULE, n, start, rules, n - i, Rest());
        var rule :- ReadFsRule();
        rules := rules + [rule];
      }
      ResumeEnd(FS_RULE, n, start, rules, Rest());
      return Some(rules);
    }

    method ReadLayer() returns (r: Option<FsLayer>)
      requires Valid()
      modifies this`off
      ensures Valid() && Took(LAYER, old(Rest()), r, Rest())
    {
      var handled :- ReadLong();
      var count :- ReadWord();
      if handled == 0 {
        return None;
      }
      var rules :- ReadFsRules(count);
      return Some(FsLayer(handled, rules));
    }

    method ReadLayers(n: nat) returns (r: Option<seq<FsLayer>>)
      requires Valid()
      modifies this`off
      ensures Valid() && Took(Many(LAYER, n), old(Rest()), r, Rest())
    {
      var layers := [];
      ghost var start := Rest();
      ResumeStart(LAYER, n, start);
      for i := 0 to n
        invariant Valid() && Resumes(LAYER, n, start, layers, n - i, Rest())
      {
        ResumeNext(LAYER, n, start, layers, n - i, Rest());
        var layer :- ReadLayer();
        layers := layers + [layer];
      }
      ResumeEnd(LAYER, n, start, layers, Rest());
      return Some(layers);
    }

    method ReadNetRule() returns (r: Option<NetRule>)
      requires Valid()
      modifies this`off
      ensures Valid() && Took(NET_RULE, old(Rest()), r, Rest())
    {
      var port :- ReadWord();
      var access :- ReadLong();
      if access == 0 {
        return None;
      }
      return Some(NetRule(port % 0x1_0000, access));
    }

    method ReadNetRules(n: nat) returns (r: Option<seq<NetRule>>)
      requires Valid()
      modifies this`off
      ensures Valid() && Took(Many(NET_RULE, n), old(Rest()), r, Rest())
    {
      var rules := [];
      ghost var start := Rest();
      ResumeStart(NET_RULE, n, start);
      for i := 0 to n
        invariant Valid() && Resumes(NET_RULE, n, start, rules, n - i, Rest())
      {
        ResumeNext(NET_RULE, n, start, rules, n - i, Rest());
        var rule :- ReadNetRule();
        rules := rules + [rule];
      }
      ResumeEnd(NET_RULE, n, start, rules, Rest());
      return Some(rules);
    }

    method ReadBind() returns (r: Option<BindRule>)
      requires Valid()
      modifies this`off
      ensures Valid() && Took(BIND, old(Rest()), r, Rest())
    {
      var source :- ReadText();
      var target :- ReadText();
      var readOnly :- ReadWord();
      if readOnly > 1 || source == [] || target == [] {
        return None;
      }
      return Some(BindRule(source, target, readOnly != 0));
    }

    method ReadBinds(n: nat) returns (r: Option<seq<BindRule>>)
      requires Valid()
      modifies this`off
      ensures Valid() && Took(Many(BIND, n), old(Rest()), r, Rest())
    {
      var rules := [];
      ghost var start := Rest();
      ResumeStart(BIND, n, start);
      for i := 0 to n
        invariant Valid() && Resumes(BIND, n, start, rules, n - i, Rest())
      {
        ResumeNext(BIND, n, start, rules, n - i, Rest());
        var rule :- ReadBind();
        rules := rules + [rule];
      }
      ResumeEnd(BIND, n, start, rules, Rest());
      return Some(rules);
    }

    method ReadObject() returns (r: Option<ObjectRule>)
      requires Valid()
      modifies this`off
      ensures Valid() && Took(OBJECT, old(Rest()), r, Rest())
    {
      ghost var start := Rest();
      var head := ReadObjectHead();
      if head.None? {
        TookNoObject(start, Rest());
        return None;
      }
      ghost var middle := Rest();
      var ((name, fsType), (count, attrs)) := head.value;
      var attach := ReadPaths(count);
      TookObject(start, head.value, middle, attach, Rest());
      if attach.None? {
        return None;
      }
      return Some(ObjectRule(name, fsType, attach.value, attrs));
    }

    /** The part of a mount object before its attach paths. */
    method ReadObjectHead() returns (r: Option<ObjectHead>)
      requires Valid()
      modifies this`off
      ensures Valid() && Took(OBJECT_HEAD, old(Rest()), r, Rest())
    {
      var name :- ReadText();
      var fsType :- ReadText();
      var count :- ReadWord();
      var attrs :- ReadWords();
      if count == 0 || name == [] || fsType == [] {
        return None;
      }
      return Some(((name, fsType), (count, attrs)));
    }

    method ReadObjects(n: nat) returns (r: Option<seq<ObjectRule>>)
      requires Valid()
      modifies this`off
      ensures Valid() && Took(Many(OBJECT, n), old(Rest()), r, Rest())
    {
      var rules := [];
      ghost var start := Rest();
      ResumeStart(OBJECT, n, start);
      for i := 0 to n
        invariant Valid() && Resumes(OBJECT, n, start, rules, n - i, Rest())
      {
        ResumeNext(OBJECT, n, start, rules, n - i, Rest());
        var rule :- ReadObject();
        rules := rules + [rule];
      }
      ResumeEnd(OBJECT, n, start, rules, Rest());
      return Some(rules);
    }

    method ReadAddfd() returns (r: Option<AddfdRule>)
      requires Valid()
      modifies this`off
      ensures Valid() && Took(ADDFD, old(Rest()), r, Rest())
    {
      var action :- ReadText();
      if !ActionKnown(action) {
        return None;
      }
      var target :- ReadText();
      var mode :- ReadText();
      if target == [] {
        return None;
      }
      return Some(AddfdRule(action, target, ModeOf(mode)));
    }

    method ReadAddfds(n: nat) returns (r: Option<seq<AddfdRule>>)
      requires Valid()
      modifies this`off
      ensures Valid() && Took(Many(ADDFD, n), old(Rest()), r, Rest())
    {
      var rules := [];
      ghost var start := Rest();
      ResumeStart(ADDFD, n, start);
      for i := 0 to n
        invariant Valid() && Resumes(ADDFD, n, start, rules, n - i, Rest())
      {
        ResumeNext(ADDFD, n, start, rules, n - i, Rest());
        var rule :- ReadAddfd();
        rules := rules + [rule];
      }
      ResumeEnd(ADDFD, n, start, rules, Rest());
      return Some(rules);
    }

    method ReadDenies(n: nat) returns (r: Option<seq<u32>>)
      requires Valid()
      modifies this`off
      ensures Valid() && Took(Many(DENY, n), old(Rest()), r, Rest())
    {
      var numbers := [];
      ghost var start := Rest();
      ResumeStart(DENY, n, start);
      for i := 0 to n
        invariant Valid() && Resumes(DENY, n, start, numbers, n - i, Rest())
      {
        ResumeNext(DENY, n, start, numbers, n - i, Rest());
        var number :- ReadWord();
        if number > 0x7fff_ffff {
          return None;
        }
        numbers := numbers + [number];
      }
      ResumeEnd(DENY, n, start, numbers, Rest());
      return Some(numbers);
    }

    // ----- the whole blob

    method ReadHeader() returns (r: Option<Header>)
      requires Valid() && off == 0
      modifies this`off
      ensures Valid() && Took(HEADER, buf, r, Rest())
    {
      HeaderAt(buf);
      r := ReadHeaderNumbers();
    }

    method ReadHeaderNumbers() returns (r: Option<Header>)
      requires Valid() && off == 0
      modifies this`off
      ensures Valid()
      ensures |buf| < 92 ==> r.None?
      ensures 92 <= |buf| ==> r == Some(HeaderAtStart(buf)) && off == 92
    {
      var magic :- ReadWordAt();
      var version :- ReadWordAt();
      var layers :- ReadWordAt();
      var netEnabled :- ReadWordAt();
      var netHandled :- ReadLongAt();
      var netRules :- ReadWordAt();
      var counts :- ReadCounts();
      var last :- ReadLastWords();
      return Some(Header(magic, version, layers, netEnabled, netHandled, netRules,
                         counts[0], counts[1], counts[2], counts[3], counts[4], counts[5], counts[6], counts[7],
                         counts[8], counts[9], counts[10], last[0], last[1], last[2], last[3], last[4]));
    }

    /** The two string lengths, then the three seccomp fields. */
    method ReadLastWords() returns (r: Option<seq<u32>>)
      requires Valid()
      modifies this`off
      ensures Valid()
      ensures old(off) + 20 > |buf| ==> r.None?
      ensures old(off) + 20 <= |buf| ==> r == Some(WordsFrom(buf, old(off), 5)) && off == old(off) + 20
    {
      if off + 20 <= |buf| {
        FiveWords(buf, off);
      }
      var rootLen :- ReadWordAt();
      var cwdLen :- ReadWordAt();
      var seccompEnabled :- ReadWordAt();
      var seccompErrno :- ReadWordAt();
      var deny :- ReadWordAt();
      return Some([rootLen, cwdLen, seccompEnabled, seccompErrno, deny]);
    }

    /** The eleven element counts in the middle of the header. */
    method ReadCounts() returns (r: Option<seq<u32>>)
      requires Valid()
      modifies this`off
      ensures Valid()
      ensures old(off) + 44 > |buf| ==> r.None?
      ensures old(off) + 44 <= |buf| ==> r == Some(WordsFrom(buf, old(off), 11)) && off == old(off) + 44
    {
      if off + 44 <= |buf| {
        ElevenWords(buf, off);
      }
      var openRead :- ReadWordAt();
      var openWrite :- ReadWordAt();
      var scratch :- ReadWordAt();
      var exports :- ReadWordAt();
      var brokerTmpfs :- ReadWordAt();
      var brokerBind :- ReadWordAt();
      var brokerObject :- ReadWordAt();
      var addfd :- ReadWordAt();
      var mountTmpfs :- ReadWordAt();
      var mountBind :- ReadWordAt();
      var mountProc :- ReadWordAt();
      return Some([openRead, openWrite, scratch, exports, brokerTmpfs, brokerBind, brokerObject, addfd,
                   mountTmpfs, mountBind, mountProc]);
    }

    method ReadLongAt() returns (r: Option<u64>)
      requires Valid()
      modifies this`off
      ensures Valid()
      ensures old(off) + 8 > |buf| ==> r.None?
      ensures old(off) + 8 <= |buf| ==>
        r == Some(WordAt(buf, old(off) + 4) * TWO_32 + WordAt(buf, old(off))) && off == old(off) + 8
    {
      if off + 8 <= |buf| {
        LongAt(buf, off);
      }
      r := ReadLong();
    }

    method ReadWordAt() returns (r: Option<u32>)
      requires Valid()
      modifies this`off
      ensures Valid()
      ensures old(off) + 4 > |buf| ==> r.None?
      ensures old(off) + 4 <= |buf| ==> r == Some(WordAt(buf, old(off))) && off == old(off) + 4
    {
      assert old(off) + 4 <= |buf| ==> buf[old(off)..][..4] == buf[old(off)..old(off) + 4];
      r := ReadWord();
    }

    method ReadLists(h: Header) returns (r: Option<Lists>)
      requires Valid()
      modifies this`off
      ensures Valid() && Took(LISTS(h), old(Rest()), r, Rest())
    {
      ghost var net: nat := if h.netEnabled != 0 then h.netRules else 0;
      ghost var start := Rest();
      var layers := ReadLayers(h.layers);
      ghost var middle := Rest();
      if layers.None? {
        TookNeither(Many(LAYER, h.layers), Many(NET_RULE, net), start, middle);
        return None;
      }
      var rules := ReadNetRules(if h.netEnabled != 0 then h.netRules else 0);
      TookBoth(Many(LAYER, h.layers), Many(NET_RULE, net), start, layers.value, middle, rules, Rest());
      if rules.None? {
        return None;
      }
      return Some((layers.value, rules.value));
    }

    method ReadTwoPaths(m: nat, n: nat) returns (r: Option<(seq<Str>, seq<Str>)>)
      requires Valid()
      modifies this`off
      ensures Valid() && Took(Pair(Many(PATH, m), Many(PATH, n)), old(Rest()), r, Rest())
    {
      ghost var start := Rest();
      var first := ReadPaths(m);
      ghost var middle := Rest();
      if first.None? {
        TookNeither(Many(PATH, m), Many(PATH, n), start, middle);
        return None;
      }
      var second := ReadPaths(n);
      TookBoth(Many(PATH, m), Many(PATH, n), start, first.value, middle, second, Rest());
      if second.None? {
        return None;
      }
      return Some((first.value, second.value));
    }

    method ReadOpens(h: Header) returns (r: Option<Opens>)
      requires Valid()
      modifies this`off
      ensures Valid() && Took(OPENS(h), old(Rest()), r, Rest())
    {
      ghost var c, d := Pair(Many(PATH, h.openRead), Many(PATH, h.openWrite)), Pair(Many(PATH, h.scratch), Many(PATH, h.exports));
      ghost var start := Rest();
      var opens := ReadTwoPaths(h.openRead, h.openWrite);
      ghost var middle := Rest();
      if opens.None? {
        TookNeither(c, d, start, middle);
        return None;
      }
      var areas := ReadTwoPaths(h.scratch, h.exports);
      TookBoth(c, d, start, opens.value, middle, areas, Rest());
      if areas.None? {
        return None;
      }
      return Some((opens.value, areas.value));
    }

    method ReadPathsAndBinds(m: nat, n: nat) returns (r: Option<(seq<Str>, seq<BindRule>)>)
      requires Valid()
      modifies this`off
      ensures Valid() && Took(Pair(Many(PATH, m), Many(BIND, n)), old(Rest()), r, Rest())
    {
      ghost var start := Rest();
      var paths := ReadPaths(m);
      ghost var middle := Rest();
      if paths.None? {
        TookNeither(Many(PATH, m), Many(BIND, n), start, middle);
        return None;
      }
      var binds := ReadBinds(n);
      TookBoth(Many(PATH, m), Many(BIND, n), start, paths.value, middle, binds, Rest());
      if binds.None? {
        return None;
      }
      return Some((paths.value, binds.value));
    }

    method ReadObjectsAndAddfds(m: nat, n: nat) returns (r: Option<(seq<ObjectRule>, seq<AddfdRule>)>)
      requires Valid()
      modifies this`off
      ensures Valid() && Took(Pair(Many(OBJECT, m), Many(ADDFD, n)), old(Rest()), r, Rest())
    {
      ghost var start := Rest();
      var objects := ReadObjects(m);
      ghost var middle := Rest();
      if objects.None? {
        TookNeither(Many(OBJECT, m), Many(ADDFD, n), start, middle);
        return None;
      }
      var addfds := ReadAddfds(n);
      TookBoth(Many(OBJECT, m), Many(ADDFD, n), start, objects.value, middle, addfds, Rest());
      if addfds.None? {
        return None;
      }
      return Some((objects.value, addfds.value));
    }

    method ReadBrokered(h: Header) returns (r: Option<Brokered>)
      requires Valid()
      modifies this`off
      ensures Valid() && Took(BROKERED(h), old(Rest()), r, Rest())
    {
      ghost var c, d := Pair(Many(PATH, h.brokerTmpfs), Many(BIND, h.brokerBind)), Pair(Many(OBJECT, h.brokerObject), Many(ADDFD, h.addfd));
      ghost var start := Rest();
      var mounts := ReadPathsAndBinds(h.brokerTmpfs, h.brokerBind);
      ghost var middle := Rest();
      if mounts.None? {
        TookNeither(c, d, start, middle);
        return None;
      }
      var objects := ReadObjectsAndAddfds(h.brokerObject, h.addfd);
      TookBoth(c, d, start, mounts.value, middle, objects, Rest());
      if objects.None? {
        return None;
      }
      return Some((mounts.value, objects.value));
    }

    method ReadMounted(h: Header) returns (r: Option<Mounted>)
      requires Valid()
      modifies this`off
      ensures Valid() && Took(MOUNTED(h), old(Rest()), r, Rest())
    {
      ghost var d := Pair(Many(BIND, h.mountBind), Many(PATH, h.mountProc));
      ghost var start := Rest();
      var tmpfs := ReadPaths(h.mountTmpfs);
      ghost var middle := Rest();
      if tmpfs.None? {
        TookNeither(Many(PATH, h.mountTmpfs), d, start, middle);
        return None;
      }
      var others := ReadBindsAndPaths(h.mountBind, h.mountProc);
      TookBoth(Many(PATH, h.mountTmpfs), d, start, tmpfs.value, middle, others, Rest());
      if others.None? {
        return None;
      }
      return Some((tmpfs.value, others.value));
    }

    method ReadBindsAndPaths(m: nat, n: nat) returns (r: Option<(seq<BindRule>, seq<Str>)>)
      requires Valid()
      modifies this`off
      ensures Valid() && Took(Pair(Many(BIND, m), Many(PATH, n)), old(Rest()), r, Rest())
    {
      ghost var start := Rest();
      var binds := ReadBinds(m);
      ghost var middle := Rest();
      if binds.None? {
        TookNeither(Many(BIND, m), Many(PATH, n), start, middle);
        return None;
      }
      var paths := ReadPaths(n);
      TookBoth(Many(BIND, m), Many(PATH, n), start, binds.value, middle, paths, Rest());
      if paths.None? {
        return None;
      }
      return Some((binds.value, paths.value));
    }

    method ReadFront(h: Header) returns (r: Option<(Lists, Opens)>)
      requires Valid()
      modifies this`off
      ensures Valid() && Took(Pair(LISTS(h), OPENS(h)), old(Rest()), r, Rest())
    {
      ghost var start := Rest();
      var lists := ReadLists(h);
      ghost var middle := Rest();
      if lists.None? {
        TookNeither(LISTS(h), OPENS(h), start, middle);
        return None;
      }
      var opens := ReadOpens(h);
      TookBoth(LISTS(h), OPENS(h), start, lists.value, middle, opens, Rest());
      if opens.None? {
        return None;
      }
      return Some((lists.value, opens.value));
    }

    method ReadBack(h: Header) returns (r: Option<(Brokered, Mounted)>)
      requires Valid()
      modifies this`off
      ensures Valid() && Took(Pair(BROKERED(h), MOUNTED(h)), old(Rest()), r, Rest())
    {
      ghost var start := Rest();
      var brokered := ReadBrokered(h);
      ghost var middle := Rest();
      if brokered.None? {
        TookNeither(BROKERED(h), MOUNTED(h), start, middle);
        return None;
      }
      var mounted := ReadMounted(h);
      TookBoth(BROKERED(h), MOUNTED(h), start, brokered.value, middle, mounted, Rest());
      if mounted.None? {
        return None;
      }
      return Some((brokered.value, mounted.value));
    }

    /** Every counted section, in wire order. */
    method ReadSections(h: Header) returns (r: Option<Sections>)
      requires Valid()
      modifies this`off
      ensures Valid() && Took(SECTIONS(h), old(Rest()), r, Rest())
    {
      ghost var c, d := Pair(LISTS(h), OPENS(h)), Pair(BROKERED(h), MOUNTED(h));
      ghost var start := Rest();
      var front := ReadFront(h);
      ghost var middle := Rest();
      if front.None? {
        TookNeither(c, d, start, middle);
        return None;
      }
      var back := ReadBack(h);
      TookBoth(c, d, start, front.value, middle, back, Rest());
      if back.None? {
        return None;
      }
      return Some((front.value, back.value));
    }

    /** The runtime root or working directory. */
    method ReadTail(n: nat) returns (ok: bool, s: Option<Str>)
      requires Valid()
      modifies this`off
      ensures Valid()
      ensures !ok ==> TailParse(n, false, old(Rest())).None?
      ensures ok ==> TailParse(n, false, old(Rest())) == Some((s, Rest()))
    {
      if n == 0 {
        return true, None;
      }
      s := ReadRaw(n);
      ok := s.Some? && s.value != [];
    }

    method ReadBody(h: Header) returns (r: Option<Body>)
      requires Valid()
      modifies this`off
      ensures Valid()
      ensures TookBody(SECTIONS(h), h.rootLen, h.cwdLen, DENIES(h), old(Rest()), r, Rest())
    {
      ghost var start := Rest();
      var sections := ReadSections(h);
      ghost var afterSections := Rest();
      if sections.None? {
        BodyWithoutSections(SECTIONS(h), h.rootLen, h.cwdLen, DENIES(h), start, Rest());
        return None;
      }
      var ok, root := ReadTail(h.rootLen);
      ghost var afterRoot := Rest();
      if !ok {
        BodyWithoutRoot(SECTIONS(h), h.rootLen, h.cwdLen, DENIES(h), start, sections.value, afterSections, Rest());
        return None;
      }
      var cwd;
      ok, cwd := ReadTail(h.cwdLen);
      ghost var afterCwd := Rest();
      if !ok {
        BodyWithoutCwd(SECTIONS(h), h.rootLen, h.cwdLen, DENIES(h), start, sections.value, afterSections, root, afterRoot, Rest());
        return None;
      }
      var deny := ReadDenies(if h.seccompEnabled != 0 then h.deny else 0);
      BodyWithDenies(SECTIONS(h), h.rootLen, h.cwdLen, DENIES(h), start, sections.value, afterSections, root, afterRoot,
                     cwd, afterCwd, deny, Rest());
      if deny.None? {
        return None;
      }
      return Some(((sections.value, (root, cwd)), deny.value));
    }

    /** load_ir_from_wire. */
    method Load() returns (r: Option<Ir>)
      requires Valid() && off == 0
      modifies this`off
      ensures Valid() && r == Decode(false, buf)
      ensures r.Some? ==> off == |buf|
    {
      var header := ReadHeader();
      if header.None? {
        DecodeWithoutHeader(FORMAT, buf, Rest());
        return None;
      }
      ghost var afterHeader := Rest();
      var h := header.value;
      if !Supported(h) {
        DecodeUnsupported(FORMAT, buf, h, afterHeader);
        return None;
      }
      var body := ReadBody(h);
      DecodeWithBody(FORMAT, buf, h, afterHeader, body, Rest());
      if body.None? || off != |buf| {
        return None;
      }
      return Some(Assemble(h, body.value));
    }
  }
}
