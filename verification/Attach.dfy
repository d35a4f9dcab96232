/** Re-attaching file-system rules inside a fresh mount, and what it does to
    the meaning of the policy. */
module Attach {
  import Answers
  import opened Bytes
  import opened Paths
  import opened PolicyIr

  /** The kernel under the code: the n-th call sets errno to ErrnoAt(n), and 0
      means that it succeeds. rulesets[i] holds the rules of ruleset i, and open
      the paths that the open descriptors stand for. */
  class Landlock {
    const answers: seq<int>
    var calls: nat
    var rulesets: seq<seq<FsRule>>
    var open: map<nat, Str>

    constructor (answers: seq<int>, rulesets: seq<seq<FsRule>>)
      ensures this.answers == answers && this.rulesets == rulesets && calls == 0 && open == map[]
    {
      this.answers := answers;
      this.rulesets := rulesets;
      calls, open := 0, map[];
    }

    function ErrnoAt(n: nat): int {
      if n < |answers| then answers[n] else 0
    }

    /** errno as the latest call left it. */
    ghost function LastErrno(): int
      reads this
    {
      if calls == 0 then 0 else ErrnoAt(calls - 1)
    }

    ghost predicate Quiet(from: nat)
      reads this
    {
      forall n :: from <= n < calls ==> ErrnoAt(n) == 0
    }

    /** open(2). */
    method Open(path: Str) returns (fd: nat, errno: int)
      modifies this`calls, this`open
      ensures calls == old(calls) + 1 && errno == ErrnoAt(old(calls))
      ensures errno != 0 ==> open == old(open)
      ensures errno == 0 ==> fd !in old(open) && open == old(open)[fd := path]
    {
      errno, fd := ErrnoAt(calls), 0;
      calls := calls + 1;
      if errno == 0 {
        ghost var free := Answers.Unused(open.Keys);
        fd :| fd !in open;
        open := open[fd := path];
      }
    }

    /** landlock_add_rule(2) for the path that the descriptor stands for. */
    method AddRule(i: nat, fd: nat, access: u64) returns (errno: int)
      requires i < |rulesets| && fd in open
      modifies this`calls, this`rulesets
      ensures calls == old(calls) + 1 && errno == ErrnoAt(old(calls))
      ensures rulesets == if errno == 0
        then old(rulesets)[i := old(rulesets)[i] + [FsRule(open[fd], access)]] else old(rulesets)
    {
      errno := ErrnoAt(calls);
      calls := calls + 1;
      if errno == 0 {
        rulesets := rulesets[i := rulesets[i] + [FsRule(open[fd], access)]];
      }
    }

    method Close(fd: nat)
      requires fd in open
      modifies this`open
      ensures open == old(open) - {fd}
    {
      open := open - {fd};
    }
  }

  /** Where landlockd_attach_mount_rules puts one rule: nowhere, or one point. */
  function AttachPoint(rule: FsRule, mount: Str): seq<FsRule> {
    if IsUnder(rule.path, mount) then [FsRule(mount, rule.access)]
    else if HasPrefix(rule.path, mount) then [rule]
    else []
  }

  function Attachments(rules: seq<FsRule>, mount: Str): seq<FsRule> {
    if rules == [] then []
    else Attachments(rules[..|rules| - 1], mount) + AttachPoint(rules[|rules| - 1], mount)
  }

  /** The body of the inner loop of landlockd_attach_mount_rules. */
  method AttachOne(rule: FsRule, i: nat, kernel: Landlock, mount: Str) returns (errno: int, attached: bool)
    requires i < |kernel.rulesets|
    modifies kernel
    ensures kernel.calls >= old(kernel.calls)
    ensures errno == 0 <==> kernel.Quiet(old(kernel.calls))
    ensures errno != 0 ==> errno == kernel.LastErrno()
    ensures kernel.rulesets == if errno == 0
      then old(kernel.rulesets)[i := old(kernel.rulesets)[i] + AttachPoint(rule, mount)]
      else old(kernel.rulesets)
    ensures errno == 0 ==> attached == (AttachPoint(rule, mount) != [])
    ensures kernel.open == old(kernel.open)
  {
    var attachPath;
    if IsUnder(rule.path, mount) {
      attachPath := mount;
    } else if HasPrefix(rule.path, mount) {
      attachPath := rule.path;
    } else {
      assert kernel.rulesets[i] + [] == kernel.rulesets[i];
      return 0, false;
    }
    assert AttachPoint(rule, mount) == [FsRule(attachPath, rule.access)];
    var parent;
    parent, errno := kernel.Open(attachPath);
    if errno != 0 {
      return errno, false;
    }
    errno := kernel.AddRule(i, parent, rule.access);
    kernel.Close(parent);
    assert kernel.open == old(kernel.open);
    attached := errno == 0;
  }

  /** The inner loop of landlockd_attach_mount_rules: the rules of layer i. */
  method AttachLayer(rules: seq<FsRule>, i: nat, kernel: Landlock, mount: Str) returns (errno: int, attached: bool)
    requires i < |kernel.rulesets|
    modifies kernel
    ensures kernel.calls >= old(kernel.calls)
    ensures errno == 0 <==> kernel.Quiet(old(kernel.calls))
    ensures errno != 0 ==> errno == kernel.LastErrno()
    ensures |kernel.rulesets| == |old(kernel.rulesets)|
    ensures kernel.rulesets == old(kernel.rulesets)[i := kernel.rulesets[i]]
    ensures old(kernel.rulesets)[i] <= kernel.rulesets[i] <= old(kernel.rulesets)[i] + Attachments(rules, mount)
    ensures errno == 0 ==> kernel.rulesets[i] == old(kernel.rulesets)[i] + Attachments(rules, mount)
    ensures errno == 0 ==> attached == (Attachments(rules, mount) != [])
    ensures kernel.open == old(kernel.open)
  {
    attached := false;
    ghost var before := kernel.rulesets;
    ghost var start := kernel.calls;
    assert before[i] + Attachments(rules[..0], mount) == before[i];
    for j := 0 to |rules|
      invariant start <= kernel.calls && kernel.Quiet(start)
      invariant kernel.rulesets == before[i := before[i] + Attachments(rules[..j], mount)]
      invariant attached == (Attachments(rules[..j], mount) != []) && kernel.open == old(kernel.open)
    {
      AttachmentsStep(rules, j, mount);
      AttachmentsPrefix(rules, j, mount);
      PrefixOfSum(before[i], Attachments(rules[..j], mount), Attachments(rules, mount));
      AppendTwice(before, i, Attachments(rules[..j], mount), AttachPoint(rules[j], mount));
      var here;
      errno, here := AttachOne(rules[j], i, kernel, mount);
      if errno != 0 {
        return;
      }
      attached := attached || here;
    }
    assert rules[..|rules|] == rules;
    errno := 0;
  }

  /** landlockd_attach_mount_rules. */
  method AttachMountRules(layers: seq<FsLayer>, kernel: Landlock, mount: Str) returns (r: Result<()>)
    requires |kernel.rulesets| == |layers|
    modifies kernel
    ensures |kernel.rulesets| == |layers|
    ensures forall i :: 0 <= i < |layers| ==>
      old(kernel.rulesets[i]) <= kernel.rulesets[i] <= old(kernel.rulesets[i]) + Attachments(layers[i].rules, mount)
    ensures kernel.Quiet(old(kernel.calls)) ==> forall i :: 0 <= i < |layers| ==>
      kernel.rulesets[i] == old(kernel.rulesets[i]) + Attachments(layers[i].rules, mount)
    ensures kernel.Quiet(old(kernel.calls)) ==>
      r == if exists i :: 0 <= i < |layers| && Attachments(layers[i].rules, mount) != [] then Ok(()) else Err(EACCES)
    ensures !kernel.Quiet(old(kernel.calls)) ==>
      r == Err(kernel.LastErrno()) && r.errno != 0
    ensures kernel.open == old(kernel.open)
  {
    var attached := false;
    ghost var before := kernel.rulesets;
    ghost var start := kernel.calls;
    for i := 0 to |layers|
      invariant start <= kernel.calls && kernel.Quiet(start) && |kernel.rulesets| == |layers|
      invariant kernel.open == old(kernel.open)
      invariant forall k :: 0 <= k < i ==> kernel.rulesets[k] == before[k] + Attachments(layers[k].rules, mount)
      invariant forall k :: i <= k < |layers| ==> kernel.rulesets[k] == before[k]
      invariant attached <==> exists k :: 0 <= k < i && Attachments(layers[k].rules, mount) != []
    {
      var errno, here := AttachLayer(layers[i].rules, i, kernel, mount);
      if errno != 0 {
        return Err(errno);
      }
      attached := attached || here;
    }
    if !attached {
      return Err(EACCES);
    }
    return Ok(());
  }

  lemma {:induction false} PrefixOfSum<T>(a: seq<T>, b: seq<T>, c: seq<T>)
    requires b <= c
    ensures a <= a + b <= a + c
  {
  }

  lemma {:induction false} AppendTwice<T>(s: seq<seq<T>>, i: nat, a: seq<T>, b: seq<T>)
    requires i < |s|
    ensures s[i := s[i] + a][i := s[i := s[i] + a][i] + b] == s[i := s[i] + (a + b)]
  {
    assert s[i] + a + b == s[i] + (a + b);
  }

  lemma {:induction false} AttachmentsStep(rules: seq<FsRule>, j: nat, mount: Str)
    requires j < |rules|
    ensures Attachments(rules[..j + 1], mount) == Attachments(rules[..j], mount) + AttachPoint(rules[j], mount)
  {
    assert rules[..j + 1][..j] == rules[..j];
  }

  lemma {:induction false} AttachmentsPrefix(rules: seq<FsRule>, j: nat, mount: Str)
    requires j <= |rules|
    ensures Attachments(rules[..j], mount) <= Attachments(rules, mount)
  {
    if j == |rules| {
      assert rules[..j] == rules;
    } else {
      assert rules[..|rules| - 1][..j] == rules[..j];
      AttachmentsPrefix(rules[..|rules| - 1], j, mount);
    }
  }

  // ----- meaning

  /** The rights that rules grant at path p: a rule speaks for its path and
      everything below it, component by component. */
  ghost function Rights(rules: seq<FsRule>, p: Str): set<nat> {
    if rules == [] then {}
    else
      Rights(rules[..|rules| - 1], p)
      + if Beneath(rules[|rules| - 1].path, p) then Bits(rules[|rules| - 1].access) else {}
  }

  ghost predicate CanonicalRules(rules: seq<FsRule>) {
    forall i :: 0 <= i < |rules| ==> Canonical(rules[i].path)
  }

  /** The rules that the string tests can see from the mount: a rule for "/"
      is invisible from any other mount, and the other way round. */
  function Visible(rules: seq<FsRule>, mount: Str): seq<FsRule> {
    if rules == [] then []
    else
      Visible(rules[..|rules| - 1], mount)
      + if (rules[|rules| - 1].path == "/") == (mount == "/") then [rules[|rules| - 1]] else []
  }

  lemma {:induction false} RightsConcat(a: seq<FsRule>, b: seq<FsRule>, p: Str)
    ensures Rights(a + b, p) == Rights(a, p) + Rights(b, p)
  {
    if b == [] {
      assert a + b == a;
    } else {
      assert (a + b)[..|a + b| - 1] == a + b[..|b| - 1];
      RightsConcat(a, b[..|b| - 1], p);
    }
  }

  lemma {:induction false} RightsOfOne(rule: FsRule, p: Str)
    ensures Rights([rule], p) == if Beneath(rule.path, p) then Bits(rule.access) else {}
  {
    assert [rule][..0] == [];
  }

  lemma {:induction false} PointPreservesRule(rule: FsRule, mount: Str, p: Str)
    requires Canonical(rule.path) && Canonical(mount) && Beneath(mount, p)
    ensures Rights(AttachPoint(rule, mount), p)
         == if Beneath(rule.path, p) && (rule.path == "/") == (mount == "/") then Bits(rule.access) else {}
  {
    UnderMeansBeneath(rule.path, mount);
    UnderMeansBeneath(mount, rule.path);
    RightsOfOne(rule, p);
    RightsOfOne(FsRule(mount, rule.access), p);
    var r, m, q := Components(rule.path), Components(mount), Components(p);
    assert r <= q && |r| <= |m| ==> r <= m;
    assert r <= q && |m| <= |r| ==> m <= r;
    RootIsEmpty(rule.path);
    RootIsEmpty(mount);
  }

  lemma {:induction false} RootIsEmpty(p: Str)
    requires Canonical(p)
    ensures p == "/" <==> Components(p) == []
  {
    if Components(p) != [] {
      NotRoot(Components(p));
    }
  }

  /** For every path at or below the mount, the re-attached points grant what
      the visible rules grant in the policy text. */
  lemma {:induction false} AttachedRights(rules: seq<FsRule>, mount: Str, p: Str)
    requires CanonicalRules(rules) && Canonical(mount) && Beneath(mount, p)
    ensures Rights(Attachments(rules, mount), p) == Rights(Visible(rules, mount), p)
  {
    if rules != [] {
      var init, last := rules[..|rules| - 1], rules[|rules| - 1];
      var seen := if (last.path == "/") == (mount == "/") then [last] else [];
      AttachedRights(init, mount, p);
      PointPreservesRule(last, mount, p);
      RightsOfOne(last, p);
      assert Rights(seen, p) == Rights(AttachPoint(last, mount), p);
      RightsConcat(Attachments(init, mount), AttachPoint(last, mount), p);
      RightsConcat(Visible(init, mount), seen, p);
      assert Attachments(rules, mount) == Attachments(init, mount) + AttachPoint(last, mount);
      assert Visible(rules, mount) == Visible(init, mount) + seen;
    }
  }

  lemma {:induction false} VisibleIsAll(rules: seq<FsRule>, mount: Str)
    requires mount != "/" && forall i :: 0 <= i < |rules| ==> rules[i].path != "/"
    ensures Visible(rules, mount) == rules
  {
    if rules != [] {
      VisibleIsAll(rules[..|rules| - 1], mount);
    }
  }

  /** Re-attachment preserves meaning: away from "/", every path below the
      mount keeps exactly the rights the policy text gives it. */
  lemma {:induction false} ReattachmentPreservesMeaning(rules: seq<FsRule>, mount: Str, p: Str)
    requires CanonicalRules(rules) && Canonical(mount) && Beneath(mount, p)
    requires mount != "/" && forall i :: 0 <= i < |rules| ==> rules[i].path != "/"
    ensures Rights(Attachments(rules, mount), p) == Rights(rules, p)
  {
    AttachedRights(rules, mount, p);
    VisibleIsAll(rules, mount);
  }

  ghost function RootRights(rules: seq<FsRule>): set<nat> {
    if rules == [] then {}
    else
      RootRights(rules[..|rules| - 1])
      + if rules[|rules| - 1].path == "/" then Bits(rules[|rules| - 1].access) else {}
  }

  lemma {:induction false} RightsByVisibility(rules: seq<FsRule>, mount: Str, p: Str)
    requires mount != "/"
    ensures Rights(rules, p) == Rights(Visible(rules, mount), p) + RootRights(rules)
  {
    if rules != [] {
      var init, last := rules[..|rules| - 1], rules[|rules| - 1];
      var seen := if (last.path == "/") == (mount == "/") then [last] else [];
      RightsByVisibility(init, mount, p);
      RightsOfOne(last, p);
      RightsConcat(Visible(init, mount), seen, p);
      assert Visible(rules, mount) == Visible(init, mount) + seen;
      assert Components("/") == Components("/"[1..]);
    }
  }

  lemma {:induction false} RightsGrowDownwards(rules: seq<FsRule>, above: Str, below: Str)
    requires Beneath(above, below)
    ensures Rights(rules, above) <= Rights(rules, below)
  {
    if rules != [] {
      RightsGrowDownwards(rules[..|rules| - 1], above, below);
    }
  }

  /** In a mount at "/" only the "/" rules are left. */
  lemma {:induction false} VisibleFromRoot(rules: seq<FsRule>, p: Str)
    ensures Rights(Visible(rules, "/"), p) == RootRights(rules) && RootRights(rules) <= Rights(rules, p)
  {
    if rules != [] {
      var init, last := rules[..|rules| - 1], rules[|rules| - 1];
      var seen := if last.path == "/" then [last] else [];
      VisibleFromRoot(init, p);
      RightsOfOne(last, p);
      RightsConcat(Visible(init, "/"), seen, p);
      assert Visible(rules, "/") == Visible(init, "/") + seen;
      assert Components("/") == Components("/"[1..]);
    }
  }

  lemma {:induction false} RuleGivesItsRights(rules: seq<FsRule>, i: nat)
    requires i < |rules|
    ensures Bits(rules[i].access) <= Rights(rules, rules[i].path)
    decreases |rules|
  {
    if i < |rules| - 1 {
      var init := rules[..|rules| - 1];
      RuleGivesItsRights(init, i);
      assert init[i] == rules[i];
    }
  }

  lemma {:induction false} RightsComeFromRules(rules: seq<FsRule>, p: Str, all: set<nat>)
    requires forall i :: 0 <= i < |rules| ==> Bits(rules[i].access) <= all
    ensures Rights(rules, p) <= all
  {
    if rules != [] {
      RightsComeFromRules(rules[..|rules| - 1], p, all);
    }
  }

  /** No rule but those for "/" adds a right. */
  ghost predicate OnlyRootRights(rules: seq<FsRule>) {
    forall i :: 0 <= i < |rules| ==> Bits(rules[i].access) <= RootRights(rules)
  }

  lemma {:induction false} OtherRulesLostInRootMount(rules: seq<FsRule>)
    requires CanonicalRules(rules)
    ensures (forall p :: Beneath("/", p) ==> Rights(Attachments(rules, "/"), p) == Rights(rules, p))
       <==> OnlyRootRights(rules)
  {
    RootIsCanonical();
    forall p ensures Beneath("/", p) && Rights(Attachments(rules, "/"), p) == RootRights(rules) <= Rights(rules, p) {
      AttachedRights(rules, "/", p);
      VisibleFromRoot(rules, p);
    }
    if OnlyRootRights(rules) {
      forall p ensures Rights(rules, p) == RootRights(rules) {
        RightsComeFromRules(rules, p, RootRights(rules));
        VisibleFromRoot(rules, p);
      }
    } else {
      var i :| 0 <= i < |rules| && !(Bits(rules[i].access) <= RootRights(rules));
      RuleGivesItsRights(rules, i);
      assert Beneath("/", rules[i].path) && Rights(Attachments(rules, "/"), rules[i].path) != Rights(rules, rules[i].path);
    }
  }

  lemma {:induction false} RootIsCanonical()
    ensures Canonical("/") && Components("/") == []
  {
    assert Components("/") == Components("/"[1..]);
  }

  /** A rule for "/" is lost inside a mount, and every other rule in a mount at
      "/". The meaning survives at every path below the mount exactly when the
      visible rules already give the mount point the rights that the "/" rules
      give or, at "/", when no other rule adds a right. */
  lemma {:induction false} RootRulesLostInMount(rules: seq<FsRule>, mount: Str)
    requires CanonicalRules(rules) && Canonical(mount)
    ensures (forall p :: Beneath(mount, p) ==> Rights(Attachments(rules, mount), p) == Rights(rules, p))
       <==> if mount == "/" then OnlyRootRights(rules) else RootRights(rules) <= Rights(Visible(rules, mount), mount)
  {
    if mount == "/" {
      OtherRulesLostInRootMount(rules);
    } else {
      forall p | Beneath(mount, p)
        ensures Rights(Attachments(rules, mount), p) == Rights(Visible(rules, mount), p)
        ensures Rights(rules, p) == Rights(Visible(rules, mount), p) + RootRights(rules)
        ensures Rights(Visible(rules, mount), mount) <= Rights(Visible(rules, mount), p)
      {
        AttachedRights(rules, mount, p);
        RightsByVisibility(rules, mount, p);
        RightsGrowDownwards(Visible(rules, mount), mount, p);
      }
      assert Beneath(mount, mount);
    }
  }

  lemma {:induction false} RightsOfRootRule()
    ensures 2 in Rights([FsRule("/", 4)], "/m")
  {
    RightsOfOne(FsRule("/", 4), "/m");
    assert Components("/") == Components("/"[1..]);
    assert Pow2(2) == 4 && Bit(4, 2);
  }

  /** A policy that allows reading everywhere says nothing inside a mount. */
  lemma {:induction false} RootRuleCounterexample()
    ensures Rights(Attachments([FsRule("/", 4)], "/m"), "/m") != Rights([FsRule("/", 4)], "/m")
  {
    RightsOfRootRule();
    assert [FsRule("/", 4)][..0] == [];
    assert !IsUnder("/", "/m") && !IsUnder("/m", "/");
  }

  lemma {:induction false} SomethingAttached(rules: seq<FsRule>, mount: Str)
    ensures Attachments(rules, mount) != [] <==> exists rule :: rule in rules && AttachPoint(rule, mount) != []
  {
    if rules != [] {
      var n := |rules| - 1;
      assert rules == rules[..n] + [rules[n]];
      SomethingAttached(rules[..n], mount);
    }
  }

  /** With the contract of AttachMountRules: when no call fails, EACCES means
      exactly that no visible rule path is an ancestor or descendant of the mount. */
  lemma {:induction false} AttachedIffComparable(layers: seq<FsLayer>, mount: Str)
    requires Canonical(mount) && forall i :: 0 <= i < |layers| ==> CanonicalRules(layers[i].rules)
    ensures (exists i :: 0 <= i < |layers| && Attachments(layers[i].rules, mount) != []) <==>
      exists i, j :: 0 <= i < |layers| && 0 <= j < |layers[i].rules|
        && var path := layers[i].rules[j].path;
           (Beneath(path, mount) || Beneath(mount, path)) && (path == "/") == (mount == "/")
  {
    forall i, j | 0 <= i < |layers| && 0 <= j < |layers[i].rules|
      ensures AttachPoint(layers[i].rules[j], mount) != [] <==>
        var path := layers[i].rules[j].path;
        (Beneath(path, mount) || Beneath(mount, path)) && (path == "/") == (mount == "/")
    {
      var path := layers[i].rules[j].path;
      UnderMeansBeneath(path, mount);
      UnderMeansBeneath(mount, path);
      RootIsEmpty(path);
      RootIsEmpty(mount);
    }
    forall i | 0 <= i < |layers|
      ensures Attachments(layers[i].rules, mount) != [] <==>
        exists j :: 0 <= j < |layers[i].rules| && AttachPoint(layers[i].rules[j], mount) != []
    {
      SomethingAttached(layers[i].rules, mount);
    }
  }
}
