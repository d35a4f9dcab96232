/** What exactly the prefix scans accept, component-wise ancestry where a rule or
    root "/" covers only "/"; which rule a list search finds; and what a path
    argument resolves to. */
module BrokerScope {
  import opened Bytes
  import opened BrokerEnv
  import opened BrokerLog
  import opened Paths
  import opened PolicyIr

  /** The rule accepts the action and the mode, and its target governs. */
  predicate RuleCovers(al: Allowlist, i: nat, action: Str, target: Str, mode: Option<Str>) {
    && i < |al.addfd| && al.addfd[i].action == action
    && (mode.None? || al.addfd[i].mode.None? || al.addfd[i].mode == mode)
    && Beneath(al.addfd[i].target, target) && (al.addfd[i].target == "/" ==> target == "/")
  }

  lemma {:induction false} AddfdAllowedIff(al: Allowlist, action: Str, target: Str, mode: Option<Str>)
    requires CanonicalAllowlist(al) && Canonical(target)
    ensures AddfdAllowed(al, action, target, mode) <==> exists i: nat :: RuleCovers(al, i, action, target, mode)
  {
    forall i: nat | i < |al.addfd|
      ensures IsUnder(al.addfd[i].target, target)
         <==> Beneath(al.addfd[i].target, target) && (al.addfd[i].target == "/" ==> target == "/")
    {
      assert CanonicalTarget(al, i);
      UnderMeansBeneath(al.addfd[i].target, target);
    }
    if AddfdAllowed(al, action, target, mode) {
      var i :| 0 <= i < |al.addfd| && al.addfd[i].action == action
        && ModeMatches(al.addfd[i], mode) && IsUnder(al.addfd[i].target, target);
      assert RuleCovers(al, i, action, target, mode);
    }
  }

  lemma {:induction false} UnderSomeIff(roots: seq<Str>, path: Str)
    requires AllCanonical(roots) && Canonical(path)
    ensures UnderSome(roots, path) <==>
      exists i :: 0 <= i < |roots| && Beneath(roots[i], path) && (roots[i] == "/" ==> path == "/")
  {
    forall i: nat | i < |roots|
      ensures IsUnder(roots[i], path) <==> Beneath(roots[i], path) && (roots[i] == "/" ==> path == "/")
    {
      assert CanonicalAt(roots, i);
      UnderMeansBeneath(roots[i], path);
    }
  }

  // ----- the first rule of a list

  lemma {:induction false} FirstObjectIff(rules: seq<ObjectRule>, name: Str, rule: ObjectRule)
    ensures FirstObject(rules, name) == Some(rule) <==>
      exists i :: 0 <= i < |rules| && rules[i] == rule && rule.name == name && forall j :: 0 <= j < i ==> rules[j].name != name
  {
    if rules != [] && rules[0].name != name {
      FirstObjectIff(rules[1..], name, rule);
      assert forall i :: 0 < i < |rules| ==> rules[i] == rules[1..][i - 1];
      assert forall i :: 0 <= i < |rules| - 1 ==> rules[1..][i] == rules[i + 1];
    }
  }

  lemma {:induction false} FirstObjectForIff(rules: seq<ObjectRule>, target: Str, rule: ObjectRule)
    ensures FirstObjectFor(rules, target) == Some(rule) <==>
      exists i :: 0 <= i < |rules| && rules[i] == rule && target in rule.attach
        && forall j :: 0 <= j < i ==> target !in rules[j].attach
  {
    if rules != [] && target !in rules[0].attach {
      FirstObjectForIff(rules[1..], target, rule);
      assert forall i :: 0 < i < |rules| ==> rules[i] == rules[1..][i - 1];
      assert forall i :: 0 <= i < |rules| - 1 ==> rules[1..][i] == rules[i + 1];
    }
  }

  predicate Binds(rule: BindRule, source: Str, target: Str) {
    rule.source == source && rule.target == target
  }

  lemma {:induction false} FirstBindIff(rules: seq<BindRule>, source: Str, target: Str, rule: BindRule)
    ensures FirstBind(rules, source, target) == Some(rule) <==>
      exists i :: 0 <= i < |rules| && rules[i] == rule && Binds(rule, source, target)
        && forall j :: 0 <= j < i ==> !Binds(rules[j], source, target)
  {
    if rules != [] && !Binds(rules[0], source, target) {
      FirstBindIff(rules[1..], source, target, rule);
      assert forall i :: 0 < i < |rules| ==> rules[i] == rules[1..][i - 1];
      assert forall i :: 0 <= i < |rules| - 1 ==> rules[1..][i] == rules[i + 1];
    }
  }

  // ----- what a path argument resolves to

  /** The full path that a path argument spells: itself if it is absolute, otherwise
      below the directory that the descriptor's link names. */
  predicate Spells(k: Kernel, dirfd: int, s: Str, full: Str) {
    if s != [] && s[0] == '/' then full == s
    else k.procLink(dirfd).Ok? && full == k.procLink(dirfd).value + "/" + s && |full| < 4096
  }

  /** The full path is the name base in the directory dir. */
  predicate EntryOf(full: Str, dir: Str, base: Str) {
    '/' !in base && ((dir != [] && full == dir + "/" + base) || (dir == "/" && full == "/" + base))
  }

  predicate IsEntry(k: Kernel, dirfd: int, s: Str, full: Str, dir: Str, parent: Str, base: Str) {
    && Spells(k, dirfd, s, full) && |full| < 4096 && EntryOf(full, dir, base)
    && base !in ["", ".", ".."] && |base| <= 255 && k.realpath(dir) == Ok(parent) && |parent| < 4096
  }

  /** A path argument resolves to what realpath says of the full path that it spells. */
  lemma {:induction false} ResolvedIff(k: Kernel, dirfd: int, s: Str, file: Str)
    ensures Resolve(k, dirfd, s) == Ok(file) <==> exists full :: Spells(k, dirfd, s, full) && k.realpath(full) == Ok(file)
  {
    if Resolve(k, dirfd, s) == Ok(file) {
      var full := if s != [] && s[0] == '/' then s else k.procLink(dirfd).value + "/" + s;
      assert Spells(k, dirfd, s, full);
    }
  }

  lemma {:induction false} EntryIsSplit(full: Str, dir: Str, base: Str)
    requires EntryOf(full, dir, base)
    ensures var slash := LastSlash(full);
      slash == |full| - |base| - 1 >= 0 && full[slash + 1..] == base && full[..if slash == 0 then 1 else slash] == dir
  {
    var k := |full| - |base| - 1;
    assert full[k + 1..] == base && full[k] == '/';
    LastSlashIs(full, k);
  }

  lemma {:induction false} SplitIsEntry(full: Str)
    requires LastSlash(full) >= 0
    ensures var slash := LastSlash(full);
      EntryOf(full, full[..if slash == 0 then 1 else slash], full[slash + 1..])
  {
    AfterLastSlash(full);
    SlashAt(full);
    var slash := LastSlash(full);
    assert full == full[..slash] + "/" + full[slash + 1..];
    assert slash == 0 ==> full[..1] == "/" && full == "/" + full[1..];
  }

  lemma {:induction false} SlashAt(p: Str)
    ensures LastSlash(p) >= 0 ==> p[LastSlash(p)] == '/'
  {
    if p != [] && p[|p| - 1] != '/' {
      SlashAt(p[..|p| - 1]);
    }
  }

  lemma {:induction false} SplitIff(full: Str, dir: Str, base: Str)
    requires |full| < 4096
    ensures SplitParent(full, 4096, 256) == Ok((dir, base)) <==>
      EntryOf(full, dir, base) && base !in ["", ".", ".."] && |base| <= 255
  {
    if EntryOf(full, dir, base) {
      EntryIsSplit(full, dir, base);
    } else if LastSlash(full) >= 0 {
      SplitIsEntry(full);
    }
  }

  /** A path argument names the entry of the resolved directory that its full path
      ends in. */
  lemma {:induction false} EntryIff(k: Kernel, dirfd: int, s: Str, parent: Str, base: Str)
    ensures ResolveParent(k, dirfd, s) == Ok((parent, base))
      <==> exists full, dir :: IsEntry(k, dirfd, s, full, dir, parent, base)
  {
    forall full: Str, dir: Str | |full| < 4096
      ensures SplitParent(full, 4096, 256) == Ok((dir, base)) <==>
        EntryOf(full, dir, base) && base !in ["", ".", ".."] && |base| <= 255
    {
      SplitIff(full, dir, base);
    }
    if ResolveParent(k, dirfd, s) == Ok((parent, base)) {
      var full := TraceePath(k, dirfd, s).value;
      var dir := SplitParent(full, 4096, 256).value.0;
      assert IsEntry(k, dirfd, s, full, dir, parent, base);
    }
  }
}
