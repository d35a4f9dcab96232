/** What the whole dry-run text says about a policy. */
module DryRunReport {
  import opened Bytes
  import opened DryRun
  import opened DryRunText
  import opened Numerals
  import opened Order
  import opened PolicyIr
  import opened TextLines

  // ----- the sections of the text

  predicate Separator(c: char) {
    c == ' ' || c == '[' || c == '='
  }

  /** The word that a line starts with. */
  function Word(s: string): string {
    if s == [] || Separator(s[0]) then [] else [s[0]] + Word(s[1..])
  }

  /** The place of the lines that start with this word. */
  function SectionOf(w: string): nat {
    if w == "landlockd" then 0
    else if w == "fs.layer" || w == "fs.rule" then 1
    else if w == "net.handled" then 2
    else if w == "net.rule" then 3
    else if w == "broker.open_read" then 4
    else if w == "broker.open_write" then 5
    else if w == "broker.scratch" then 6
    else if w == "broker.export" then 7
    else if w == "broker.mount_tmpfs" then 8
    else if w == "broker.mount_bind" then 9
    else if w == "broker.mount_object" then 10
    else if w == "mount.tmpfs" then 11
    else if w == "mount.bind" then 12
    else if w == "mount.proc" then 13
    else if w == "runtime.root" then 14
    else if w == "runtime.cwd" then 15
    else if w == "seccomp.enabled" then 16
    else 17
  }

  function Section(line: string): nat {
    SectionOf(Word(line))
  }

  predicate Clean(s: string) {
    '\n' !in s
  }

  predicate IsWord(w: string) {
    Clean(w) && forall c :: c in w ==> !Separator(c)
  }

  /** The word heads the lines of section k. */
  predicate Heads(w: string, k: nat) {
    IsWord(w) && SectionOf(w) == k
  }

  lemma {:induction false} OpenHeads()
    ensures Heads("broker.open_read", 4) && Heads("broker.open_write", 5)
  {
  }

  lemma {:induction false} ScratchHeads()
    ensures Heads("broker.scratch", 6) && Heads("broker.export", 7)
  {
  }

  lemma {:induction false} BrokerMountHeads()
    ensures Heads("broker.mount_tmpfs", 8) && Heads("broker.mount_bind", 9)
  {
  }

  lemma {:induction false} ObjectHeads()
    ensures Heads("broker.mount_object", 10) && Heads("mount.tmpfs", 11)
  {
  }

  lemma {:induction false} MountHeads()
    ensures Heads("mount.bind", 12) && Heads("mount.proc", 13)
  {
  }

  lemma {:induction false} WordIs(w: string, rest: string)
    requires IsWord(w) && rest != [] && Separator(rest[0])
    ensures Word(w + rest) == w
  {
    if w == [] {
      assert w + rest == rest;
    } else {
      assert (w + rest)[1..] == w[1..] + rest;
      WordIs(w[1..], rest);
    }
  }

  /** A line made of a word and a body. */
  lemma {:induction false} LineOf(w: string, body: string)
    requires IsWord(w) && Clean(body) && body != [] && Separator(body[0])
    ensures Word(w + body + "\n") == w && EndsOnce(w + body + "\n")
  {
    Assoc(w, body, "\n");
    WordIs(w, body + "\n");
  }

  lemma {:induction false} DigitsAreClean(n: nat)
    ensures Clean(Decimal(n)) && Clean(Hex(n)) && NoBlank(Decimal(n))
  {
    DigitsArePlain(n, 10);
    DigitsArePlain(n, 16);
  }

  lemma {:induction false} PathLineIsFine(prefix: string, p: Str)
    requires IsWord(prefix)
    ensures Word(PathLine(prefix, p)) == prefix && EndsOnce(PathLine(prefix, p))
  {
    EscapedHasNoNewline(p);
    Assoc(prefix, " path=", Escaped(p));
    LineOf(prefix, " path=" + Escaped(p));
  }

  lemma {:induction false} BindLineIsFine(prefix: string, r: BindRule)
    requires IsWord(prefix)
    ensures Word(BindLine(prefix, r)) == prefix && EndsOnce(BindLine(prefix, r))
  {
    BindText(prefix, r);
    EscapedHasNoNewline(Joined(r));
    DigitsAreClean(BindFlag(r));
    var text := Escaped(Joined(r)) + Tail("ro=", Decimal(BindFlag(r)));
    Assoc(prefix, " source=", text);
    LineOf(prefix, " source=" + text);
  }

  lemma {:induction false} OneText(w: string, key: string, text: string)
    requires IsWord(w) && Clean(key) && key != [] && Separator(key[0]) && Clean(text)
    ensures Word(w + key + text + "\n") == w && EndsOnce(w + key + text + "\n")
  {
    Assoc(w, key, text);
    LineOf(w, key + text);
  }

  lemma {:induction false} TailIsClean(x: Str, attrs: u64)
    ensures Clean(Escaped(x) + Tail("attrs=", Hex(attrs)))
  {
    EscapedHasNoNewline(x);
    DigitsAreClean(attrs);
  }

  lemma {:induction false} ObjectLineIsFine(r: ObjectRule, attach: Str)
    ensures Word(ObjectLine(r, attach)) == "broker.mount_object" && EndsOnce(ObjectLine(r, attach))
  {
    var x := JoinedObject(r.name, r.fsType, attach);
    ObjectLineText(r, attach);
    TailIsClean(x, r.attrs);
    ObjectHeadIs();
    OneText("broker.mount_object", " name=", Escaped(x) + Tail("attrs=", Hex(r.attrs)));
  }

  lemma {:induction false} ObjectHeadIs()
    ensures OBJECT_HEAD == "broker.mount_object" + " name="
    ensures IsWord("broker.mount_object") && Clean(" name=")
  {
  }

  /** A line with two values: head, value, key, number. */
  lemma {:induction false} TwoValues(w: string, head: string, x: string, key: string, y: string)
    requires IsWord(w) && Clean(head) && head != [] && Separator(head[0]) && Clean(x) && Clean(key) && Clean(y)
    ensures Word(w + head + x + key + y + "\n") == w && EndsOnce(w + head + x + key + y + "\n")
  {
    Assoc(w, head, x);
    Assoc(w, head + x, key);
    Assoc(w, head + x + key, y);
    LineOf(w, head + x + key + y);
  }

  lemma {:induction false} FsRuleLineIsFine(r: FsRule)
    ensures Word(FsRuleLine(r)) == "fs.rule" && EndsOnce(FsRuleLine(r))
  {
    EscapedHasNoNewline(r.path);
    DigitsAreClean(r.access);
    assert "fs.rule path=" == "fs.rule" + " path=";
    TwoValues("fs.rule", " path=", Escaped(r.path), " allowed=", Hex(r.access));
  }

  function LayerLine(i: nat, l: FsLayer): string {
    "fs.layer[" + Decimal(i) + "] handled=" + Hex(l.handled) + "\n"
  }

  lemma {:induction false} LayerLineIsFine(i: nat, l: FsLayer)
    ensures Word(LayerLine(i, l)) == "fs.layer" && EndsOnce(LayerLine(i, l))
  {
    DigitsAreClean(i);
    DigitsAreClean(l.handled);
    assert "fs.layer[" == "fs.layer" + "[";
    TwoValues("fs.layer", "[", Decimal(i), "] handled=", Hex(l.handled));
  }

  lemma {:induction false} NetRuleLineIsFine(r: NetRule)
    ensures Word(NetRuleLine(r)) == "net.rule" && EndsOnce(NetRuleLine(r))
  {
    DigitsAreClean(r.port);
    DigitsAreClean(r.access);
    assert "net.rule port=" == "net.rule" + " port=";
    TwoValues("net.rule", " port=", Decimal(r.port), " allowed=", Hex(r.access));
  }

  function NetLine(handled: u64): string {
    "net.handled=" + Hex(handled) + "\n"
  }

  lemma {:induction false} NetLineIsFine(handled: u64)
    ensures Word(NetLine(handled)) == "net.handled" && EndsOnce(NetLine(handled))
  {
    DigitsAreClean(handled);
    assert "net.handled=" == "net.handled" + "=";
    Assoc("net.handled", "=", Hex(handled));
    LineOf("net.handled", "=" + Hex(handled));
  }

  /** What a runtime line shows. */
  function RuntimeShown(path: Option<Str>): Str {
    if path.Some? then path.value else "<unset>"
  }

  lemma {:induction false} RuntimeText(key: string, path: Option<Str>)
    ensures RuntimeLine(key, path) == "runtime." + key + "=" + Escaped(RuntimeShown(path)) + "\n"
  {
    EscapedPlain("<unset>");
  }

  lemma {:induction false} RuntimeLineIsFine(key: string, path: Option<Str>)
    requires IsWord(key)
    ensures Word(RuntimeLine(key, path)) == "runtime." + key && EndsOnce(RuntimeLine(key, path))
  {
    RuntimeText(key, path);
    var w, text := "runtime." + key, Escaped(RuntimeShown(path));
    EscapedHasNoNewline(RuntimeShown(path));
    assert IsWord("runtime.");
    Assoc(w, "=", text);
    LineOf(w, "=" + text);
  }

  function SeccompLine(enabled: bool, errno: u16): string {
    "seccomp.enabled=" + Decimal(if enabled then 1 else 0) + " errno=" + Decimal(errno) + "\n"
  }

  lemma {:induction false} SeccompLineIsFine(enabled: bool, errno: u16)
    ensures Word(SeccompLine(enabled, errno)) == "seccomp.enabled" && EndsOnce(SeccompLine(enabled, errno))
  {
    DigitsAreClean(if enabled then 1 else 0);
    DigitsAreClean(errno);
    assert "seccomp.enabled=" == "seccomp.enabled" + "=";
    TwoValues("seccomp.enabled", "=", Decimal(if enabled then 1 else 0), " errno=", Decimal(errno));
  }

  lemma {:induction false} DenyLineIsFine(n: u32)
    ensures Word(DenyLine(n)) == "seccomp.deny" && EndsOnce(DenyLine(n))
  {
    DigitsAreClean(n);
    assert "seccomp.deny syscall=" == "seccomp.deny" + " syscall=";
    Assoc("seccomp.deny", " syscall=", Decimal(n));
    LineOf("seccomp.deny", " syscall=" + Decimal(n));
  }

  // ----- what a line shows

  lemma {:induction false} SamePathLine(prefix: string, p: Str, q: Str)
    ensures PathLine(prefix, p) == PathLine(prefix, q) <==> p == q
  {
    if PathLine(prefix, p) == PathLine(prefix, q) {
      SameFrame(prefix + " path=", Escaped(p), Escaped(q));
      EscapedInjective(p, q);
    }
  }

  /** A line that ends in a key and a hexadecimal number. */
  lemma {:induction false} SameKeyed(head: string, x: string, a: nat, y: string, b: nat, blankKey: string, key: string)
    requires blankKey == [' '] + key && NoBlank(key)
    requires head + x + blankKey + Hex(a) + "\n" == head + y + blankKey + Hex(b) + "\n"
    ensures x == y && a == b
  {
    FrameOf(head, x, blankKey, key, Hex(a));
    FrameOf(head, y, blankKey, key, Hex(b));
    SameTail(head, x, a, y, b, key);
  }

  lemma {:induction false} SameFsRuleLine(r: FsRule, s: FsRule)
    ensures FsRuleLine(r) == FsRuleLine(s) <==> r == s
  {
    if FsRuleLine(r) == FsRuleLine(s) {
      SameKeyed("fs.rule path=", Escaped(r.path), r.access, Escaped(s.path), s.access, " allowed=", "allowed=");
      EscapedInjective(r.path, s.path);
    }
  }

  lemma {:induction false} SameNetRuleLine(r: NetRule, s: NetRule)
    ensures NetRuleLine(r) == NetRuleLine(s) <==> r == s
  {
    if NetRuleLine(r) == NetRuleLine(s) {
      SameKeyed("net.rule port=", Decimal(r.port), r.access, Decimal(s.port), s.access, " allowed=", "allowed=");
      DigitsInjective(r.port, s.port, 10);
    }
  }

  lemma {:induction false} LayerLineText(i: nat, l: FsLayer)
    ensures LayerLine(i, l) == "fs.layer[" + (Decimal(i) + "]") + " handled=" + Hex(l.handled) + "\n"
  {
    assert "] handled=" == "]" + " handled=";
    Assoc("fs.layer[" + Decimal(i), "]", " handled=");
    Assoc("fs.layer[", Decimal(i), "]");
  }

  lemma {:induction false} SameLayerLine(i: nat, l: FsLayer, j: nat, m: FsLayer)
    ensures LayerLine(i, l) == LayerLine(j, m) <==> i == j && l.handled == m.handled
  {
    LayerLineText(i, l);
    LayerLineText(j, m);
    if LayerLine(i, l) == LayerLine(j, m) {
      SameKeyed("fs.layer[", Decimal(i) + "]", l.handled, Decimal(j) + "]", m.handled, " handled=", "handled=");
      CutSuffix(Decimal(i), Decimal(j), "]");
      DigitsInjective(i, j, 10);
    }
  }

  lemma {:induction false} SameNetLine(x: u64, y: u64)
    ensures NetLine(x) == NetLine(y) <==> x == y
  {
    if NetLine(x) == NetLine(y) {
      SameFrame("net.handled=", Hex(x), Hex(y));
      HexInjective(x, y);
    }
  }

  /** A path that is not set prints the same line as the path "<unset>". */
  lemma {:induction false} SameRuntimeLine(key: string, p: Option<Str>, q: Option<Str>)
    ensures RuntimeLine(key, p) == RuntimeLine(key, q) <==> RuntimeShown(p) == RuntimeShown(q)
  {
    RuntimeText(key, p);
    RuntimeText(key, q);
    if RuntimeLine(key, p) == RuntimeLine(key, q) {
      SameFrame("runtime." + key + "=", Escaped(RuntimeShown(p)), Escaped(RuntimeShown(q)));
      EscapedInjective(RuntimeShown(p), RuntimeShown(q));
    }
  }

  lemma {:induction false} SameSeccompLine(e: bool, m: u16, f: bool, n: u16)
    ensures SeccompLine(e, m) == SeccompLine(f, n) <==> e == f && m == n
  {
    if SeccompLine(e, m) == SeccompLine(f, n) {
      var x, y := if e then 1 else 0, if f then 1 else 0;
      DigitsAreClean(m);
      DigitsAreClean(n);
      FrameOf("seccomp.enabled=", Decimal(x), " errno=", "errno=", Decimal(m));
      FrameOf("seccomp.enabled=", Decimal(y), " errno=", "errno=", Decimal(n));
      SameTailText("seccomp.enabled=", Decimal(x), Decimal(m), Decimal(y), Decimal(n), "errno=");
      DigitsInjective(x, y, 10);
      DigitsInjective(m, n, 10);
    }
  }

  lemma {:induction false} SameDenyLine(m: u32, n: u32)
    ensures DenyLine(m) == DenyLine(n) <==> m == n
  {
    if DenyLine(m) == DenyLine(n) {
      SameFrame("seccomp.deny syscall=", Decimal(m), Decimal(n));
      DigitsInjective(m, n, 10);
    }
  }
}
