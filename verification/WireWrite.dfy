/** write_ir: the policy written front to back. */
module WireWrite {
  import opened Bytes
  import opened Codec
  import opened PolicyIr
  import opened Wire

  lemma {:induction false} ShowNext<A>(show: A -> Str, xs: seq<A>, i: nat, before: Str)
    requires i < |xs|
    ensures before + ShowAll(show, xs[..i + 1]) == before + ShowAll(show, xs[..i]) + show(xs[i])
  {
    assert xs[..i + 1] == xs[..i] + [xs[i]];
    ShowAllSnoc(show, xs[..i], xs[i]);
  }

  lemma {:induction false} ShowEnd<A>(show: A -> Str, xs: seq<A>)
    ensures ShowAll(show, xs[..|xs|]) == ShowAll(show, xs)
  {
    assert xs[..|xs|] == xs;
  }

  lemma {:induction false} Join(a: Str, b: Str, c: Str)
    ensures a + b + c == a + (b + c)
  {
  }

  lemma {:induction false} CountIs<T>(xs: seq<T>)
    requires |xs| < TWO_32
    ensures Count(xs) == |xs|
  {
  }

  /** Two writes in a row print the pair. */
  lemma {:induction false} ShowBoth<A, B>(c: Codec<A>, d: Codec<B>, before: Str, a: A, b: B)
    ensures before + c.show(a) + d.show(b) == before + Pair(c, d).show((a, b))
  {
    PairOk(c, d, a, b);
    Join(before, c.show(a), d.show(b));
  }

  class Writer {
    var out: Str

    constructor ()
      ensures out == []
    {
      out := [];
    }

    method WriteWord(n: u32)
      modifies this
      ensures out == old(out) + WORD.show(n)
    {
      out := out + Le(n, 4);
    }

    method WriteLong(n: u64)
      modifies this
      ensures out == old(out) + LONG.show(n)
    {
      out := out + Le(n, 8);
    }

    /** A 32-bit length, then that many bytes. */
    method WriteText(s: Str)
      modifies this
      ensures out == old(out) + TEXT.show(s)
    {
      var length := |s| % TWO_32;
      LeCut(|s|);
      WriteWord(length);
      Join(old(out), Le(length, 4), s[..length]);
      out := out + s[..length];
    }

    method WritePaths(paths: seq<Str>)
      modifies this
      ensures out == old(out) + ShowAll(PATH.show, paths)
    {
      ghost var start := out;
      for i := 0 to |paths|
        invariant out == start + ShowAll(PATH.show, paths[..i])
      {
        WriteText(paths[i]);
        ShowNext(PATH.show, paths, i, start);
      }
      ShowEnd(PATH.show, paths);
    }

    method WriteFsRule(r: FsRule)
      modifies this
      ensures out == old(out) + FS_RULE.show(r)
    {
      WriteLong(r.access);
      WriteText(r.path);
      ShowBoth(LONG, TEXT, old(out), r.access, r.path);
      assert FsRuleParts(r) == (r.access, r.path);
    }

    method WriteFsRules(rules: seq<FsRule>)
      modifies this
      ensures out == old(out) + ShowAll(FS_RULE.show, rules)
    {
      ghost var start := out;
      for i := 0 to |rules|
        invariant out == start + ShowAll(FS_RULE.show, rules[..i])
      {
        WriteFsRule(rules[i]);
        ShowNext(FS_RULE.show, rules, i, start);
      }
      ShowEnd(FS_RULE.show, rules);
    }

    method WriteLayer(l: FsLayer)
      requires |l.rules| < TWO_32
      modifies this
      ensures out == old(out) + LAYER.show(l)
    {
      ghost var head := Guard(Pair(LONG, WORD), LayerHandles);
      WriteLong(l.handled);
      WriteWord(|l.rules|);
      CountIs(l.rules);
      ShowBoth(LONG, WORD, old(out), l.handled, Count(l.rules));
      WriteFsRules(l.rules);
      ShowLayer(l, old(out));
    }

    method WriteLayers(layers: seq<FsLayer>)
      requires forall i :: 0 <= i < |layers| ==> |layers[i].rules| < TWO_32
      modifies this
      ensures out == old(out) + ShowAll(LAYER.show, layers)
    {
      ghost var start := out;
      for i := 0 to |layers|
        invariant out == start + ShowAll(LAYER.show, layers[..i])
      {
        WriteLayer(layers[i]);
        ShowNext(LAYER.show, layers, i, start);
      }
      ShowEnd(LAYER.show, layers);
    }

    method WriteNetRule(r: NetRule)
      modifies this
      ensures out == old(out) + NET_RULE.show(r)
    {
      WriteWord(r.port);
      WriteLong(r.access);
      ShowBoth(PORT, LONG, old(out), r.port, r.access);
      assert NetRuleParts(r) == (r.port, r.access);
    }

    method WriteNetRules(rules: seq<NetRule>)
      modifies this
      ensures out == old(out) + ShowAll(NET_RULE.show, rules)
    {
      ghost var start := out;
      for i := 0 to |rules|
        invariant out == start + ShowAll(NET_RULE.show, rules[..i])
      {
        WriteNetRule(rules[i]);
        ShowNext(NET_RULE.show, rules, i, start);
      }
      ShowEnd(NET_RULE.show, rules);
    }

    method WriteBind(r: BindRule)
      modifies this
      ensures out == old(out) + BIND.show(r)
    {
      WriteText(r.source);
      WriteText(r.target);
      var flag: u32 := if r.readOnly then 1 else 0;
      WriteWord(flag);
      ShowBind(r, old(out));
    }

    method WriteBinds(rules: seq<BindRule>)
      modifies this
      ensures out == old(out) + ShowAll(BIND.show, rules)
    {
      ghost var start := out;
      for i := 0 to |rules|
        invariant out == start + ShowAll(BIND.show, rules[..i])
      {
        WriteBind(rules[i]);
        ShowNext(BIND.show, rules, i, start);
      }
      ShowEnd(BIND.show, rules);
    }

    method WriteObject(r: ObjectRule)
      requires |r.attach| < TWO_32
      modifies this
      ensures out == old(out) + OBJECT.show(r)
    {
      WriteText(r.name);
      WriteText(r.fsType);
      WriteWord(|r.attach|);
      CountIs(r.attach);
      WriteWord(r.attrs % TWO_32);
      WriteWord(r.attrs / TWO_32);
      WritePaths(r.attach);
      ShowObject(r, old(out));
    }

    method WriteObjects(rules: seq<ObjectRule>)
      requires forall i :: 0 <= i < |rules| ==> |rules[i].attach| < TWO_32
      modifies this
      ensures out == old(out) + ShowAll(OBJECT.show, rules)
    {
      ghost var start := out;
      for i := 0 to |rules|
        invariant out == start + ShowAll(OBJECT.show, rules[..i])
      {
        WriteObject(rules[i]);
        ShowNext(OBJECT.show, rules, i, start);
      }
      ShowEnd(OBJECT.show, rules);
    }

    method WriteAddfd(r: AddfdRule)
      modifies this
      ensures out == old(out) + ADDFD.show(r)
    {
      WriteText(r.action);
      WriteText(r.target);
      WriteText(ModeText(r.mode));
      ShowAddfd(r, old(out));
    }

    method WriteAddfds(rules: seq<AddfdRule>)
      modifies this
      ensures out == old(out) + ShowAll(ADDFD.show, rules)
    {
      ghost var start := out;
      for i := 0 to |rules|
        invariant out == start + ShowAll(ADDFD.show, rules[..i])
      {
        WriteAddfd(rules[i]);
        ShowNext(ADDFD.show, rules, i, start);
      }
      ShowEnd(ADDFD.show, rules);
    }

    method WriteDenies(numbers: seq<u32>)
      modifies this
      ensures out == old(out) + ShowAll(DENY.show, numbers)
    {
      ghost var start := out;
      for i := 0 to |numbers|
        invariant out == start + ShowAll(DENY.show, numbers[..i])
      {
        WriteWord(numbers[i]);
        ShowNext(DENY.show, numbers, i, start);
      }
      ShowEnd(DENY.show, numbers);
    }

    method WriteHeader(h: Header)
      modifies this
      ensures out == old(out) + HEADER.show(h)
    {
      ghost var start, done := out, HeaderWords(h)[..7];
      WritePreamble(h);
      WriteWords(done, h.openRead, h.openWrite, h.scratch, h.exports, start);
      done := done + [h.openRead, h.openWrite, h.scratch, h.exports];
      WriteWords(done, h.brokerTmpfs, h.brokerBind, h.brokerObject, h.addfd, start);
      done := done + [h.brokerTmpfs, h.brokerBind, h.brokerObject, h.addfd];
      WriteWords(done, h.mountTmpfs, h.mountBind, h.mountProc, h.rootLen, start);
      done := done + [h.mountTmpfs, h.mountBind, h.mountProc, h.rootLen];
      WriteWords(done, h.cwdLen, h.seccompEnabled, h.seccompErrno, h.deny, start);
      assert HeaderWords(h) == done + [h.cwdLen, h.seccompEnabled, h.seccompErrno, h.deny];
    }

    /** The numbers before the counts, one of them of eight bytes. */
    method WritePreamble(h: Header)
      modifies this
      ensures out == old(out) + ShowAll(WORD.show, HeaderWords(h)[..7])
    {
      WriteWords([], h.magic, h.version, h.layers, h.netEnabled, out);
      ghost var done := [] + [h.magic, h.version, h.layers, h.netEnabled];
      ghost var shown := out;
      WriteLong(h.netHandled);
      WriteWord(h.netRules);
      assert out == shown + LONG.show(h.netHandled) + WORD.show(h.netRules);
      ShowPreamble(h, old(out), done);
      assert HeaderWords(h)[..7] == done + HeaderWords(h)[4..7];
    }

    /** Four numbers in a row, after the words that were written before. */
    method WriteWords(ghost done: seq<u32>, a: u32, b: u32, c: u32, d: u32, ghost start: Str)
      requires out == start + ShowAll(WORD.show, done)
      modifies this
      ensures out == start + ShowAll(WORD.show, done + [a, b, c, d])
    {
      WriteWord(a);
      WriteWord(b);
      WriteWord(c);
      WriteWord(d);
      ShowFour(start, done, a, b, c, d);
    }

    method WriteTail(s: Option<Str>)
      modifies this
      ensures out == old(out) + TailText(s)
    {
      if s.Some? {
        out := out + s.value[..|s.value| % TWO_32];
      }
    }

    method WriteLists(ir: Ir)
      requires NestedCountable(ir)
      modifies this
      ensures out == old(out) + LISTS(HeaderFor(ir)).show((ir.fsLayers, ir.netRules))
    {
      ghost var h := HeaderFor(ir);
      WriteLayers(ir.fsLayers);
      WriteNetRules(ir.netRules);
      ghost var n: nat := if h.netEnabled != 0 then h.netRules else 0;
      ShowBoth(Many(LAYER, h.layers), Many(NET_RULE, n), old(out), ir.fsLayers, ir.netRules);
    }

    method WriteTwoPaths(ghost m: nat, ghost n: nat, a: seq<Str>, b: seq<Str>)
      modifies this
      ensures out == old(out) + Pair(Many(PATH, m), Many(PATH, n)).show((a, b))
    {
      WritePaths(a);
      WritePaths(b);
      ShowBoth(Many(PATH, m), Many(PATH, n), old(out), a, b);
    }

    method WriteOpens(ir: Ir)
      modifies this
      ensures out == old(out) + OPENS(HeaderFor(ir)).show(((ir.openRead, ir.openWrite), (ir.scratch, ir.exports)))
    {
      ghost var h := HeaderFor(ir);
      WriteTwoPaths(h.openRead, h.openWrite, ir.openRead, ir.openWrite);
      WriteTwoPaths(h.scratch, h.exports, ir.scratch, ir.exports);
      ShowBoth(Pair(Many(PATH, h.openRead), Many(PATH, h.openWrite)), Pair(Many(PATH, h.scratch), Many(PATH, h.exports)),
               old(out), (ir.openRead, ir.openWrite), (ir.scratch, ir.exports));
    }

    method WriteBrokered(ir: Ir)
      requires NestedCountable(ir)
      modifies this
      ensures out == old(out)
        + BROKERED(HeaderFor(ir)).show(((ir.brokerTmpfs, ir.brokerBind), (ir.brokerObject, ir.addfd)))
    {
      ghost var h := HeaderFor(ir);
      WritePaths(ir.brokerTmpfs);
      WriteBinds(ir.brokerBind);
      ShowBoth(Many(PATH, h.brokerTmpfs), Many(BIND, h.brokerBind), old(out), ir.brokerTmpfs, ir.brokerBind);
      ghost var middle := out;
      WriteObjects(ir.brokerObject);
      WriteAddfds(ir.addfd);
      ShowBoth(Many(OBJECT, h.brokerObject), Many(ADDFD, h.addfd), middle, ir.brokerObject, ir.addfd);
      ShowBoth(Pair(Many(PATH, h.brokerTmpfs), Many(BIND, h.brokerBind)), Pair(Many(OBJECT, h.brokerObject), Many(ADDFD, h.addfd)),
               old(out), (ir.brokerTmpfs, ir.brokerBind), (ir.brokerObject, ir.addfd));
    }

    method WriteMounted(ir: Ir)
      modifies this
      ensures out == old(out) + MOUNTED(HeaderFor(ir)).show((ir.mountTmpfs, (ir.mountBind, ir.mountProc)))
    {
      ghost var h := HeaderFor(ir);
      WritePaths(ir.mountTmpfs);
      ghost var middle := out;
      WriteBinds(ir.mountBind);
      WritePaths(ir.mountProc);
      ShowBoth(Many(BIND, h.mountBind), Many(PATH, h.mountProc), middle, ir.mountBind, ir.mountProc);
      ShowBoth(Many(PATH, h.mountTmpfs), Pair(Many(BIND, h.mountBind), Many(PATH, h.mountProc)), old(out),
               ir.mountTmpfs, (ir.mountBind, ir.mountProc));
    }

    method WriteSections(ir: Ir)
      requires NestedCountable(ir)
      modifies this
      ensures out == old(out) + SECTIONS(HeaderFor(ir)).show(SectionsOf(ir))
    {
      ghost var start := out;
      WriteLists(ir);
      WriteOpens(ir);
      WriteBrokered(ir);
      WriteMounted(ir);
      ShowSections(HeaderFor(ir), SectionsOf(ir), start);
    }

    /** write_ir. */
    method WriteIr(ir: Ir)
      requires Countable(ir)
      modifies this
      ensures out == old(out) + Encode(ir)
    {
      EncodeSplit(ir);
      WriteAll(ir);
    }

    method WriteAll(ir: Ir)
      requires NestedCountable(ir)
      modifies this
      ensures out == old(out) + (CountedText(ir) + RestText(ir))
    {
      ghost var start := out;
      WriteCounted(ir);
      WriteRest(ir);
      Join(start, CountedText(ir), RestText(ir));
    }

    /** The header and the counted sections. */
    method WriteCounted(ir: Ir)
      requires NestedCountable(ir)
      modifies this
      ensures out == old(out) + CountedText(ir)
    {
      WriteHeader(HeaderFor(ir));
      WriteSections(ir);
      Join(old(out), HEADER.show(HeaderFor(ir)), SECTIONS(HeaderFor(ir)).show(SectionsOf(ir)));
    }

    /** The runtime strings and the denied system calls. */
    method WriteRest(ir: Ir)
      modifies this
      ensures out == old(out) + RestText(ir)
    {
      WriteTail(ir.root);
      WriteTail(ir.cwd);
      WriteDenies(ir.deny);
      FlattenThree(old(out), TailText(ir.root), TailText(ir.cwd), ShowAll(DENY.show, ir.deny));
    }
  }

  // ----- the printed form, piece by piece

  lemma {:induction false} ShowLayer(l: FsLayer, before: Str)
    ensures before + Pair(LONG, WORD).show((l.handled, Count(l.rules))) + ShowAll(FS_RULE.show, l.rules) == before + LAYER.show(l)
  {
    var p := (l.handled, Count(l.rules));
    assert LayerParts(l) == (p, l.rules);
    Join(before, Pair(LONG, WORD).show(p), ShowAll(FS_RULE.show, l.rules));
  }

  lemma {:induction false} ShowBind(r: BindRule, before: Str)
    ensures before + TEXT.show(r.source) + TEXT.show(r.target) + WORD.show(if r.readOnly then 1 else 0) == before + BIND.show(r)
  {
    var flag: u32 := if r.readOnly then 1 else 0;
    var a, b, c := TEXT.show(r.source), TEXT.show(r.target), WORD.show(flag);
    PairOk(PATH, Pair(PATH, WORD), r.source, (r.target, flag));
    PairOk(PATH, WORD, r.target, flag);
    assert BindParts(r) == (r.source, (r.target, flag));
    assert BIND.show(r) == a + (b + c);
    Join(before, a, b);
    Join(before, a + b, c);
    Join(a, b, c);
  }

  lemma {:induction false} LongShow(n: u64)
    ensures LONG.show(n) == WORD.show(n % TWO_32) + WORD.show(n / TWO_32)
  {
    Limits();
    LeSplit(n % TWO_32, n / TWO_32, 4, 4);
  }

  lemma {:induction false} LeSplit(low: nat, high: nat, v: nat, w: nat)
    requires low < Limit(v)
    ensures Le(low + Limit(v) * high, v + w) == Le(low, v) + Le(high, w)
  {
    if v == 0 {
      assert [] + Le(high, w) == Le(high, w);
    } else {
      var n := low + Limit(v) * high;
      Scale(Limit(v - 1), high);
      assert n % 256 == low % 256 && n / 256 == low / 256 + Limit(v - 1) * high;
      LeSplit(low / 256, high, v - 1, w);
      var d: Str := [(low % 256) as char];
      Join(d, Le(low / 256, v - 1), Le(high, w));
    }
  }

  lemma {:induction false} ShowObject(r: ObjectRule, before: Str)
    ensures before + TEXT.show(r.name) + TEXT.show(r.fsType) + WORD.show(Count(r.attach))
              + WORD.show(r.attrs % TWO_32) + WORD.show(r.attrs / TWO_32) + ShowAll(PATH.show, r.attach)
         == before + OBJECT.show(r)
  {
    var count := Count(r.attach);
    var a, b, c, d := TEXT.show(r.name), TEXT.show(r.fsType), WORD.show(count), LONG.show(r.attrs);
    var paths := ShowAll(PATH.show, r.attach);
    ShowObjectParts(r);
    LongShow(r.attrs);
    var low, high := WORD.show(r.attrs % TWO_32), WORD.show(r.attrs / TWO_32);
    Join(before + a + b + c, low, high);
    FlattenObject(before, a, b, c, d, paths);
  }

  lemma {:induction false} ShowObjectParts(r: ObjectRule)
    ensures OBJECT.show(r) == ((TEXT.show(r.name) + TEXT.show(r.fsType)) + (WORD.show(Count(r.attach)) + LONG.show(r.attrs)))
                              + ShowAll(PATH.show, r.attach)
  {
    var head: ObjectHead := ((r.name, r.fsType), (Count(r.attach), r.attrs));
    assert ObjectParts(r) == (head, r.attach);
    PairOk(Pair(PATH, PATH), Pair(WORD, LONG), head.0, head.1);
    PairOk(PATH, PATH, r.name, r.fsType);
    PairOk(WORD, LONG, head.1.0, r.attrs);
    ThenOk(OBJECT_HEAD, AttachPaths, (head, r.attach));
  }

  lemma {:induction false} FlattenObject(before: Str, a: Str, b: Str, c: Str, d: Str, e: Str)
    ensures before + a + b + c + d + e == before + (((a + b) + (c + d)) + e)
  {
  }

  lemma {:induction false} ShowAddfdParts(r: AddfdRule)
    ensures ADDFD.show(r) == TEXT.show(r.action) + (TEXT.show(r.target) + TEXT.show(ModeText(r.mode)))
  {
    PairOk(ACTION, Pair(PATH, MODE), r.action, (r.target, r.mode));
    PairOk(PATH, MODE, r.target, r.mode);
    assert AddfdParts(r) == (r.action, (r.target, r.mode));
  }

  lemma {:induction false} FlattenThree(s: Str, a: Str, b: Str, c: Str)
    ensures s + a + b + c == s + (a + (b + c))
  {
  }

  lemma {:induction false} ShowAddfd(r: AddfdRule, before: Str)
    ensures before + TEXT.show(r.action) + TEXT.show(r.target) + TEXT.show(ModeText(r.mode)) == before + ADDFD.show(r)
  {
    ShowAddfdParts(r);
    FlattenThree(before, TEXT.show(r.action), TEXT.show(r.target), TEXT.show(ModeText(r.mode)));
  }

  lemma {:induction false} ShowOneMore(start: Str, done: seq<u32>, a: u32)
    ensures start + ShowAll(WORD.show, done + [a]) == start + ShowAll(WORD.show, done) + WORD.show(a)
  {
    ShowAllSnoc(WORD.show, done, a);
  }

  lemma {:induction false} ShowFour(start: Str, done: seq<u32>, a: u32, b: u32, c: u32, d: u32)
    ensures start + ShowAll(WORD.show, done) + WORD.show(a) + WORD.show(b) + WORD.show(c) + WORD.show(d)
         == start + ShowAll(WORD.show, done + [a, b, c, d])
  {
    ShowOneMore(start, done, a);
    ShowOneMore(start, done + [a], b);
    assert done + [a] + [b] == done + [a, b];
    ShowOneMore(start, done + [a, b], c);
    assert done + [a, b] + [c] == done + [a, b, c];
    ShowOneMore(start, done + [a, b, c], d);
    assert done + [a, b, c] + [d] == done + [a, b, c, d];
  }

  lemma {:induction false} ShowPreamble(h: Header, start: Str, done: seq<u32>)
    ensures start + ShowAll(WORD.show, done) + LONG.show(h.netHandled) + WORD.show(h.netRules)
         == start + ShowAll(WORD.show, done + HeaderWords(h)[4..7])
  {
    var low: u32, high: u32, n := h.netHandled % TWO_32, h.netHandled / TWO_32, h.netRules;
    assert HeaderWords(h)[4..7] == [low, high, n];
    LongShow(h.netHandled);
    Join(start + ShowAll(WORD.show, done), WORD.show(low), WORD.show(high));
    ShowOneMore(start, done, low);
    ShowOneMore(start, done + [low], high);
    assert done + [low] + [high] == done + [low, high];
    ShowOneMore(start, done + [low, high], n);
    assert done + [low, high] + [n] == done + [low, high, n];
  }

  lemma {:induction false} ShowSections(h: Header, s: Sections, before: Str)
    ensures before + LISTS(h).show(s.0.0) + OPENS(h).show(s.0.1) + BROKERED(h).show(s.1.0) + MOUNTED(h).show(s.1.1)
         == before + SECTIONS(h).show(s)
  {
    ShowQuad(LISTS(h), OPENS(h), BROKERED(h), MOUNTED(h), s, before);
  }

  lemma {:induction false} ShowQuad<A, B, C, D>(a: Codec<A>, b: Codec<B>, c: Codec<C>, d: Codec<D>,
                                                s: ((A, B), (C, D)), before: Str)
    ensures before + a.show(s.0.0) + b.show(s.0.1) + c.show(s.1.0) + d.show(s.1.1)
         == before + Pair(Pair(a, b), Pair(c, d)).show(s)
  {
    ShowBoth(a, b, before, s.0.0, s.0.1);
    ShowBoth(c, d, before + Pair(a, b).show(s.0), s.1.0, s.1.1);
    ShowBoth(Pair(a, b), Pair(c, d), before, s.0, s.1);
  }

  function RestText(ir: Ir): Str {
    TailText(ir.root) + (TailText(ir.cwd) + ShowAll(DENY.show, ir.deny))
  }

  function CountedText(ir: Ir): Str {
    HEADER.show(HeaderFor(ir)) + SECTIONS(HeaderFor(ir)).show(SectionsOf(ir))
  }

  lemma {:induction false} EncodeSplit(ir: Ir)
    ensures CountedText(ir) + RestText(ir) == Encode(ir)
  {
    EncodeSplitAs(FORMAT, HeaderFor(ir), ir);
  }

  lemma {:induction false} EncodeSplitAs(f: Format, h: Header, ir: Ir)
    ensures f.header.show(h) + f.sections(h).show(SectionsOf(ir)) + (TailText(ir.root) + (TailText(ir.cwd) + f.denies(h).show(ir.deny)))
         == EncodeAs(f, h, ir)
  {
  }

  /** Only the low 32 bits of a length are sent. */
  lemma {:induction false} LeCut(n: nat)
    ensures Le(n % TWO_32, 4) == Le(n, 4)
  {
    LeDigits(n % TWO_32, n / TWO_32, 4);
    Limits();
  }

  lemma {:induction false} LeDigits(low: nat, high: nat, width: nat)
    ensures Le(low + Limit(width) * high, width) == Le(low, width)
  {
    if width > 0 {
      var n := low + Limit(width) * high;
      Scale(Limit(width - 1), high);
      assert n == low + 256 * (Limit(width - 1) * high);
      assert n % 256 == low % 256 && n / 256 == low / 256 + Limit(width - 1) * high;
      LeDigits(low / 256, high, width - 1);
    }
  }

  lemma {:induction false} Scale(a: nat, b: nat)
    ensures 256 * a * b == 256 * (a * b) && a * b >= 0
  {
  }
}
