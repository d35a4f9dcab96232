/** write_ir of tools/landlockd-policy-helper-rs: the policy written front to
    back, refusing strings whose length does not fit 32 bits. */
module RustWrite {
  import opened Bytes
  import opened Codec
  import opened PolicyIr
  import opened Wire
  import opened WireWrite

  // the helper's own constants
  const HELPER_MAGIC: u32 := 0x4c50_4c44
  const HELPER_VERSION: u32 := 16

  // ----- what is written

  predicate Fits(s: Str) {
    |s| < TWO_32
  }

  /** write_len_prefixed_string, where the length fits. */
  function StringText(s: Str): Str {
    Le(|s|, 4) + s
  }

  function FsRuleText(r: FsRule): Str {
    Le(r.access, 8) + StringText(r.path)
  }

  /** `len() as u32` keeps the low 32 bits of a count. */
  function CountText<T>(xs: seq<T>): Str {
    Le(|xs| % TWO_32, 4)
  }

  function LayerText(l: FsLayer): Str {
    Le(l.handled, 8) + CountText(l.rules) + ShowAll(FsRuleText, l.rules)
  }

  function NetRuleText(r: NetRule): Str {
    Le(r.port, 4) + Le(r.access, 8)
  }

  function Flag(b: bool): u32 {
    if b then 1 else 0
  }

  function BindText(r: BindRule): Str {
    StringText(r.source) + StringText(r.target) + Le(Flag(r.readOnly), 4)
  }

  function ObjectText(r: ObjectRule): Str {
    StringText(r.name) + StringText(r.fsType) + CountText(r.attach) + Le(r.attrs % TWO_32, 4) + Le(r.attrs / TWO_32, 4)
    + ShowAll(StringText, r.attach)
  }

  /** A missing mode is a length of zero. */
  function AddfdText(r: AddfdRule): Str {
    StringText(r.action) + StringText(r.target) + (if r.mode.Some? then StringText(r.mode.value) else Le(0, 4))
  }

  function DenyText(n: u32): Str {
    Le(n, 4)
  }

  function FourText(a: u32, b: u32, c: u32, d: u32): Str {
    Le(a, 4) + Le(b, 4) + Le(c, 4) + Le(d, 4)
  }

  function RuntimeLen(s: Option<Str>): u32 {
    if s.Some? then |s.value| % TWO_32 else 0
  }

  function HeaderText(ir: Ir): Str {
    FourText(HELPER_MAGIC, HELPER_VERSION, Count(ir.fsLayers), Flag(ir.netEnabled)) + Le(ir.netHandled, 8) + CountText(ir.netRules)
    + FourText(Count(ir.openRead), Count(ir.openWrite), Count(ir.scratch), Count(ir.exports))
    + FourText(Count(ir.brokerTmpfs), Count(ir.brokerBind), Count(ir.brokerObject), Count(ir.addfd))
    + FourText(Count(ir.mountTmpfs), Count(ir.mountBind), Count(ir.mountProc), RuntimeLen(ir.root))
    + FourText(RuntimeLen(ir.cwd), Flag(ir.seccompEnabled), ir.seccompErrno, Count(ir.deny))
  }

  /** write_all of the whole string, or nothing. */
  function RuntimeText(s: Option<Str>): Str {
    if s.Some? then s.value else []
  }

  function ListsText(ir: Ir): Str {
    ShowAll(LayerText, ir.fsLayers) + ShowAll(NetRuleText, ir.netRules)
  }

  function OpensText(ir: Ir): Str {
    ShowAll(StringText, ir.openRead) + ShowAll(StringText, ir.openWrite)
    + ShowAll(StringText, ir.scratch) + ShowAll(StringText, ir.exports)
  }

  function BrokeredText(ir: Ir): Str {
    ShowAll(StringText, ir.brokerTmpfs) + ShowAll(BindText, ir.brokerBind)
    + ShowAll(ObjectText, ir.brokerObject) + ShowAll(AddfdText, ir.addfd)
  }

  function MountedText(ir: Ir): Str {
    ShowAll(StringText, ir.mountTmpfs) + ShowAll(BindText, ir.mountBind) + ShowAll(StringText, ir.mountProc)
  }

  function EndText(ir: Ir): Str {
    RuntimeText(ir.root) + RuntimeText(ir.cwd) + ShowAll(DenyText, ir.deny)
  }

  function IrText(ir: Ir): Str {
    HeaderText(ir) + ListsText(ir) + OpensText(ir) + BrokeredText(ir) + MountedText(ir) + EndText(ir)
  }

  // ----- which policies are refused

  predicate AllFit<T>(fits: T -> bool, xs: seq<T>) {
    forall i :: 0 <= i < |xs| ==> fits(xs[i])
  }

  lemma {:induction false} FitNext<T>(fits: T -> bool, xs: seq<T>, i: nat)
    requires i < |xs| && AllFit(fits, xs[..i])
    ensures if fits(xs[i]) then AllFit(fits, xs[..i + 1]) else !AllFit(fits, xs)
  {
  }

  lemma {:induction false} FitEnd<T>(fits: T -> bool, xs: seq<T>)
    requires AllFit(fits, xs[..|xs|])
    ensures AllFit(fits, xs)
  {
    assert xs[..|xs|] == xs;
  }

  predicate FsRuleFits(r: FsRule) {
    Fits(r.path)
  }

  predicate LayerFits(l: FsLayer) {
    AllFit(FsRuleFits, l.rules)
  }

  predicate BindFits(r: BindRule) {
    Fits(r.source) && Fits(r.target)
  }

  predicate ObjectFits(r: ObjectRule) {
    Fits(r.name) && Fits(r.fsType) && AllFit(Fits, r.attach)
  }

  predicate AddfdFits(r: AddfdRule) {
    Fits(r.action) && Fits(r.target) && (r.mode.Some? ==> Fits(r.mode.value))
  }

  predicate OpensFit(ir: Ir) {
    AllFit(Fits, ir.openRead) && AllFit(Fits, ir.openWrite) && AllFit(Fits, ir.scratch) && AllFit(Fits, ir.exports)
  }

  predicate BrokeredFit(ir: Ir) {
    && AllFit(Fits, ir.brokerTmpfs) && AllFit(BindFits, ir.brokerBind)
    && AllFit(ObjectFits, ir.brokerObject) && AllFit(AddfdFits, ir.addfd)
  }

  predicate MountedFit(ir: Ir) {
    AllFit(Fits, ir.mountTmpfs) && AllFit(BindFits, ir.mountBind) && AllFit(Fits, ir.mountProc)
  }

  /** Every string that is written with its length before it is shorter than 4 GiB. */
  predicate StringsFit(ir: Ir) {
    AllFit(LayerFits, ir.fsLayers) && OpensFit(ir) && BrokeredFit(ir) && MountedFit(ir)
  }

  /** The bytes that reach standard output, or None for a refusal. */
  function Written(ir: Ir): Option<Str> {
    if StringsFit(ir) then Some(IrText(ir)) else None
  }

  // ----- the writer

  lemma {:induction false} Join4(s: Str, a: Str, b: Str, c: Str, d: Str)
    ensures s + a + b + c + d == s + (a + b + c + d)
  {
    Join(s, a, b);
    Join(s, a + b, c);
    Join(s, a + b + c, d);
  }

  class HelperWriter {
    var out: Str

    constructor ()
      ensures out == []
    {
      out := [];
    }

    /** write_u32 and write_u64. */
    method WriteNumber(n: nat, width: nat)
      modifies this
      ensures out == old(out) + Le(n, width)
    {
      out := out + Le(n, width);
    }

    /** `len() as u32`. */
    method WriteCount<T>(xs: seq<T>)
      modifies this
      ensures out == old(out) + CountText(xs)
    {
      WriteNumber(|xs| % TWO_32, 4);
    }

    /** write_len_prefixed_string. */
    method WriteString(s: Str) returns (ok: bool)
      modifies this
      ensures ok == Fits(s)
      ensures ok ==> out == old(out) + StringText(s)
    {
      if |s| >= TWO_32 {
        return false;
      }
      WriteNumber(|s|, 4);
      Join(old(out), Le(|s|, 4), s);
      out := out + s;
      ok := true;
    }

    method WriteStrings(strings: seq<Str>) returns (ok: bool)
      modifies this
      ensures ok == AllFit(Fits, strings)
      ensures ok ==> out == old(out) + ShowAll(StringText, strings)
    {
      ghost var start := out;
      for i := 0 to |strings|
        invariant out == start + ShowAll(StringText, strings[..i])
        invariant AllFit(Fits, strings[..i])
      {
        FitNext(Fits, strings, i);
        ok := WriteString(strings[i]);
        if !ok {
          return;
        }
        ShowNext(StringText, strings, i, start);
      }
      ShowEnd(StringText, strings);
      FitEnd(Fits, strings);
      ok := true;
    }

    method WriteFsRules(rules: seq<FsRule>) returns (ok: bool)
      modifies this
      ensures ok == AllFit(FsRuleFits, rules)
      ensures ok ==> out == old(out) + ShowAll(FsRuleText, rules)
    {
      ghost var start := out;
      for i := 0 to |rules|
        invariant out == start + ShowAll(FsRuleText, rules[..i])
        invariant AllFit(FsRuleFits, rules[..i])
      {
        FitNext(FsRuleFits, rules, i);
        ghost var before := out;
        WriteNumber(rules[i].access, 8);
        ok := WriteString(rules[i].path);
        if !ok {
          return;
        }
        Join(before, Le(rules[i].access, 8), StringText(rules[i].path));
        ShowNext(FsRuleText, rules, i, start);
      }
      ShowEnd(FsRuleText, rules);
      FitEnd(FsRuleFits, rules);
      ok := true;
    }

    method WriteLayers(layers: seq<FsLayer>) returns (ok: bool)
      modifies this
      ensures ok == AllFit(LayerFits, layers)
      ensures ok ==> out == old(out) + ShowAll(LayerText, layers)
    {
      ghost var start := out;
      for i := 0 to |layers|
        invariant out == start + ShowAll(LayerText, layers[..i])
        invariant AllFit(LayerFits, layers[..i])
      {
        FitNext(LayerFits, layers, i);
        var l := layers[i];
        ghost var before := out;
        WriteNumber(l.handled, 8);
        WriteCount(l.rules);
        ok := WriteFsRules(l.rules);
        if !ok {
          return;
        }
        FlattenThree(before, Le(l.handled, 8), CountText(l.rules), ShowAll(FsRuleText, l.rules));
        Join(Le(l.handled, 8), CountText(l.rules), ShowAll(FsRuleText, l.rules));
        ShowNext(LayerText, layers, i, start);
      }
      ShowEnd(LayerText, layers);
      FitEnd(LayerFits, layers);
      ok := true;
    }

    method WriteNetRules(rules: seq<NetRule>)
      modifies this
      ensures out == old(out) + ShowAll(NetRuleText, rules)
    {
      ghost var start := out;
      for i := 0 to |rules|
        invariant out == start + ShowAll(NetRuleText, rules[..i])
      {
        ghost var before := out;
        WriteNumber(rules[i].port, 4);
        WriteNumber(rules[i].access, 8);
        Join(before, Le(rules[i].port, 4), Le(rules[i].access, 8));
        ShowNext(NetRuleText, rules, i, start);
      }
      ShowEnd(NetRuleText, rules);
    }

    method WriteBinds(rules: seq<BindRule>) returns (ok: bool)
      modifies this
      ensures ok == AllFit(BindFits, rules)
      ensures ok ==> out == old(out) + ShowAll(BindText, rules)
    {
      ghost var start := out;
      for i := 0 to |rules|
        invariant out == start + ShowAll(BindText, rules[..i])
        invariant AllFit(BindFits, rules[..i])
      {
        FitNext(BindFits, rules, i);
        var r := rules[i];
        ghost var before := out;
        ok := WriteString(r.source);
        if !ok {
          return;
        }
        ok := WriteString(r.target);
        if !ok {
          return;
        }
        var flag := Flag(r.readOnly);
        WriteNumber(flag, 4);
        FlattenThree(before, StringText(r.source), StringText(r.target), Le(flag, 4));
        Join(StringText(r.source), StringText(r.target), Le(flag, 4));
        ShowNext(BindText, rules, i, start);
      }
      ShowEnd(BindText, rules);
      FitEnd(BindFits, rules);
      ok := true;
    }

    method WriteObject(r: ObjectRule) returns (ok: bool)
      modifies this
      ensures ok == ObjectFits(r)
      ensures ok ==> out == old(out) + ObjectText(r)
    {
      ok := WriteString(r.name);
      if !ok {
        return;
      }
      ok := WriteString(r.fsType);
      if !ok {
        return;
      }
      WriteCount(r.attach);
      WriteNumber(r.attrs % TWO_32, 4);
      WriteNumber(r.attrs / TWO_32, 4);
      ok := WriteStrings(r.attach);
      Join4(old(out), StringText(r.name), StringText(r.fsType), CountText(r.attach), Le(r.attrs % TWO_32, 4));
      ghost var front := StringText(r.name) + StringText(r.fsType) + CountText(r.attach) + Le(r.attrs % TWO_32, 4);
      Join(old(out), front, Le(r.attrs / TWO_32, 4));
      Join(old(out), front + Le(r.attrs / TWO_32, 4), ShowAll(StringText, r.attach));
    }

    method WriteObjects(rules: seq<ObjectRule>) returns (ok: bool)
      modifies this
      ensures ok == AllFit(ObjectFits, rules)
      ensures ok ==> out == old(out) + ShowAll(ObjectText, rules)
    {
      ghost var start := out;
      for i := 0 to |rules|
        invariant out == start + ShowAll(ObjectText, rules[..i])
        invariant AllFit(ObjectFits, rules[..i])
      {
        FitNext(ObjectFits, rules, i);
        ok := WriteObject(rules[i]);
        if !ok {
          return;
        }
        ShowNext(ObjectText, rules, i, start);
      }
      ShowEnd(ObjectText, rules);
      FitEnd(ObjectFits, rules);
      ok := true;
    }

    method WriteAddfd(r: AddfdRule) returns (ok: bool)
      modifies this
      ensures ok == AddfdFits(r)
      ensures ok ==> out == old(out) + AddfdText(r)
    {
      ok := WriteString(r.action);
      if !ok {
        return;
      }
      ok := WriteString(r.target);
      if !ok {
        return;
      }
      if r.mode.Some? {
        ok := WriteString(r.mode.value);
        if !ok {
          return;
        }
      } else {
        WriteNumber(0, 4);
      }
      ghost var mode := if r.mode.Some? then StringText(r.mode.value) else Le(0, 4);
      FlattenThree(old(out), StringText(r.action), StringText(r.target), mode);
      Join(StringText(r.action), StringText(r.target), mode);
    }

    method WriteAddfds(rules: seq<AddfdRule>) returns (ok: bool)
      modifies this
      ensures ok == AllFit(AddfdFits, rules)
      ensures ok ==> out == old(out) + ShowAll(AddfdText, rules)
    {
      ghost var start := out;
      for i := 0 to |rules|
        invariant out == start + ShowAll(AddfdText, rules[..i])
        invariant AllFit(AddfdFits, rules[..i])
      {
        FitNext(AddfdFits, rules, i);
        ok := WriteAddfd(rules[i]);
        if !ok {
          return;
        }
        ShowNext(AddfdText, rules, i, start);
      }
      ShowEnd(AddfdText, rules);
      FitEnd(AddfdFits, rules);
      ok := true;
    }

    method WriteDenies(numbers: seq<u32>)
      modifies this
      ensures out == old(out) + ShowAll(DenyText, numbers)
    {
      ghost var start := out;
      for i := 0 to |numbers|
        invariant out == start + ShowAll(DenyText, numbers[..i])
      {
        WriteNumber(numbers[i], 4);
        ShowNext(DenyText, numbers, i, start);
      }
      ShowEnd(DenyText, numbers);
    }

    method WriteFour(a: u32, b: u32, c: u32, d: u32)
      modifies this
      ensures out == old(out) + FourText(a, b, c, d)
    {
      WriteNumber(a, 4);
      WriteNumber(b, 4);
      WriteNumber(c, 4);
      WriteNumber(d, 4);
      Join4(old(out), Le(a, 4), Le(b, 4), Le(c, 4), Le(d, 4));
    }

    /** The numbers of the header, four at a time. */
    method WriteHeader(ir: Ir)
      modifies this
      ensures out == old(out) + HeaderText(ir)
    {
      ghost var start := out;
      WriteFour(HELPER_MAGIC, HELPER_VERSION, |ir.fsLayers| % TWO_32, Flag(ir.netEnabled));
      ghost var a := FourText(HELPER_MAGIC, HELPER_VERSION, Count(ir.fsLayers), Flag(ir.netEnabled));
      WriteNumber(ir.netHandled, 8);
      WriteCount(ir.netRules);
      Join(start, a, Le(ir.netHandled, 8));
      Join(start, a + Le(ir.netHandled, 8), CountText(ir.netRules));
      ghost var b := a + Le(ir.netHandled, 8) + CountText(ir.netRules);
      WriteFour(|ir.openRead| % TWO_32, |ir.openWrite| % TWO_32, |ir.scratch| % TWO_32, |ir.exports| % TWO_32);
      ghost var c := FourText(Count(ir.openRead), Count(ir.openWrite), Count(ir.scratch), Count(ir.exports));
      WriteFour(|ir.brokerTmpfs| % TWO_32, |ir.brokerBind| % TWO_32, |ir.brokerObject| % TWO_32, |ir.addfd| % TWO_32);
      ghost var d := FourText(Count(ir.brokerTmpfs), Count(ir.brokerBind), Count(ir.brokerObject), Count(ir.addfd));
      var rootLen := if ir.root.Some? then |ir.root.value| % TWO_32 else 0;
      WriteFour(|ir.mountTmpfs| % TWO_32, |ir.mountBind| % TWO_32, |ir.mountProc| % TWO_32, rootLen);
      ghost var e := FourText(Count(ir.mountTmpfs), Count(ir.mountBind), Count(ir.mountProc), RuntimeLen(ir.root));
      var cwdLen := if ir.cwd.Some? then |ir.cwd.value| % TWO_32 else 0;
      WriteFour(cwdLen, Flag(ir.seccompEnabled), ir.seccompErrno, |ir.deny| % TWO_32);
      ghost var f := FourText(RuntimeLen(ir.cwd), Flag(ir.seccompEnabled), ir.seccompErrno, Count(ir.deny));
      Join4(start, b, c, d, e);
      Join(start, b + c + d + e, f);
    }

    method WriteOpens(ir: Ir) returns (ok: bool)
      modifies this
      ensures ok == OpensFit(ir)
      ensures ok ==> out == old(out) + OpensText(ir)
    {
      ok := WriteStrings(ir.openRead);
      if !ok {
        return;
      }
      ok := WriteStrings(ir.openWrite);
      if !ok {
        return;
      }
      ok := WriteStrings(ir.scratch);
      if !ok {
        return;
      }
      ok := WriteStrings(ir.exports);
      Join4(old(out), ShowAll(StringText, ir.openRead), ShowAll(StringText, ir.openWrite),
            ShowAll(StringText, ir.scratch), ShowAll(StringText, ir.exports));
    }

    method WriteBrokered(ir: Ir) returns (ok: bool)
      modifies this
      ensures ok == BrokeredFit(ir)
      ensures ok ==> out == old(out) + BrokeredText(ir)
    {
      ok := WriteStrings(ir.brokerTmpfs);
      if !ok {
        return;
      }
      ok := WriteBinds(ir.brokerBind);
      if !ok {
        return;
      }
      ok := WriteObjects(ir.brokerObject);
      if !ok {
        return;
      }
      ok := WriteAddfds(ir.addfd);
      Join4(old(out), ShowAll(StringText, ir.brokerTmpfs), ShowAll(BindText, ir.brokerBind),
            ShowAll(ObjectText, ir.brokerObject), ShowAll(AddfdText, ir.addfd));
    }

    method WriteMounted(ir: Ir) returns (ok: bool)
      modifies this
      ensures ok == MountedFit(ir)
      ensures ok ==> out == old(out) + MountedText(ir)
    {
      ok := WriteStrings(ir.mountTmpfs);
      if !ok {
        return;
      }
      ok := WriteBinds(ir.mountBind);
      if !ok {
        return;
      }
      ok := WriteStrings(ir.mountProc);
      var a, b, c := ShowAll(StringText, ir.mountTmpfs), ShowAll(BindText, ir.mountBind), ShowAll(StringText, ir.mountProc);
      FlattenThree(old(out), a, b, c);
      Join(a, b, c);
    }

    method WriteEnd(ir: Ir)
      modifies this
      ensures out == old(out) + EndText(ir)
    {
      if ir.root.Some? {
        out := out + ir.root.value;
      }
      assert out == old(out) + RuntimeText(ir.root);
      if ir.cwd.Some? {
        out := out + ir.cwd.value;
      }
      assert out == old(out) + RuntimeText(ir.root) + RuntimeText(ir.cwd);
      WriteDenies(ir.deny);
      FlattenThree(old(out), RuntimeText(ir.root), RuntimeText(ir.cwd), ShowAll(DenyText, ir.deny));
      Join(RuntimeText(ir.root), RuntimeText(ir.cwd), ShowAll(DenyText, ir.deny));
    }

    /** write_ir: it fails exactly when a string's length does not fit; what it
        wrote before it failed is not said. */
    method WriteIr(ir: Ir) returns (ok: bool)
      modifies this
      ensures ok == Written(ir).Some?
      ensures ok ==> out == old(out) + Written(ir).value
    {
      WriteHeader(ir);
      ok := WriteLayers(ir.fsLayers);
      if !ok {
        return;
      }
      WriteNetRules(ir.netRules);
      Join(old(out) + HeaderText(ir), ShowAll(LayerText, ir.fsLayers), ShowAll(NetRuleText, ir.netRules));
      ok := WriteOpens(ir);
      if !ok {
        return;
      }
      ok := WriteBrokered(ir);
      if !ok {
        return;
      }
      ok := WriteMounted(ir);
      if !ok {
        return;
      }
      WriteEnd(ir);
      Join4(old(out), HeaderText(ir), ListsText(ir), OpensText(ir), BrokeredText(ir));
      FlattenThree(old(out), HeaderText(ir) + ListsText(ir) + OpensText(ir) + BrokeredText(ir), MountedText(ir), EndText(ir));
      Join(HeaderText(ir) + ListsText(ir) + OpensText(ir) + BrokeredText(ir), MountedText(ir), EndText(ir));
    }
  }
}
