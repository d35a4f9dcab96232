/** What a valid policy is, and what the three compilers make of it, told from the
    sections that its layers describe. */
module CompileMeaning {
  import opened Bytes
  import opened Compile
  import opened Descriptors
  import opened PolicyIr
  import opened SeccompPlans

  datatype Section = Files(handled: u64, fsRules: seq<FsRule>) | Ports(allowed: u64, netRules: seq<NetRule>)
                   | Calls(nrs: seq<CInt>)

  /** No right is empty, no call number negative, and calls are listed only when
      there are any. */
  predicate Sound(s: Section) {
    match s
    case Files(handled, rules) => handled != 0 && forall i :: 0 <= i < |rules| ==> rules[i].access != 0
    case Ports(allowed, rules) => allowed != 0 && forall i :: 0 <= i < |rules| ==> rules[i].access != 0
    case Calls(nrs) => nrs != [] && forall i :: 0 <= i < |nrs| ==> nrs[i] >= 0
  }

  /** The first elements of the rule array are these rules. */
  predicate FsRulesAre(l: Layer, rules: seq<FsRule>) {
    && l.ruleCount == |rules|
    && (rules != [] ==> l.fs.Some? && |rules| <= |l.fs.value|)
    && forall i :: 0 <= i < |rules| ==> l.fs.value[i] == (Some(rules[i].path), rules[i].access)
  }

  /** The layer has the kind number, place and arrays of the section, and no arrays
      of another kind. */
  predicate Describes(l: Layer, place: nat, s: Section) {
    && l.order == place
    && match s
       case Files(handled, rules) =>
         && l.kind == 1 && l.handled == handled && l.net.None? && l.exceptions.None?
         && (l.fs.Some? ==> |rules| <= |l.fs.value|) && FsRulesAre(l, rules)
       case Ports(allowed, rules) =>
         && l.kind == 2 && l.handled == allowed && l.fs.None? && l.exceptions.None? && l.ruleCount == |rules|
         && (rules != [] ==> l.net.Some?) && (l.net.Some? ==> |rules| <= |l.net.value| && l.net.value[..|rules|] == rules)
       case Calls(nrs) =>
         && l.kind == 3 && l.handled == 0 && l.fs.None? && l.net.None? && l.ruleCount == |nrs|
         && l.exceptions.Some? && |nrs| <= |l.exceptions.value| && l.exceptions.value[..|nrs|] == nrs
  }

  /** Layer i describes section i. */
  predicate AllDescribe(layers: seq<Option<Layer>>, sections: seq<Section>) {
    && |layers| == |sections|
    && forall i :: 0 <= i < |layers| ==> layers[i].Some? && Describes(layers[i].value, i, sections[i])
  }

  predicate AllSound(sections: seq<Section>) {
    forall i :: 0 <= i < |sections| ==> Sound(sections[i])
  }

  // ----- which policies are valid

  lemma {:induction false} RulesFromPairs(pairs: seq<(Option<Str>, u64)>) returns (rules: seq<FsRule>)
    requires forall i :: 0 <= i < |pairs| ==> pairs[i].0.Some?
    ensures |rules| == |pairs| && forall i :: 0 <= i < |pairs| ==> pairs[i] == (Some(rules[i].path), rules[i].access)
  {
    rules := seq(|pairs|, i requires 0 <= i < |pairs| => FsRule(pairs[i].0.value, pairs[i].1));
  }

  /** A valid layer describes a sound section. */
  lemma {:induction false} ValidDescribes(policy: Policy, i: nat) returns (s: Section)
    requires Backed(policy) && i < |policy.layers| && ValidLayerAt(policy, i)
    ensures Sound(s) && Describes(policy.layers[i].value, i, s)
  {
    var l := policy.layers[i].value;
    if l.kind == KIND_FS {
      var rules: seq<FsRule> := [];
      if l.ruleCount > 0 {
        rules := RulesFromPairs(l.fs.value[..l.ruleCount]);
        assert forall k :: 0 <= k < |rules| ==> l.fs.value[k] == l.fs.value[..l.ruleCount][k];
      }
      s := Files(l.handled, rules);
    } else if l.kind == KIND_NET {
      s := Ports(l.handled, if l.net.Some? then l.net.value[..l.ruleCount] else []);
    } else {
      s := Calls(l.exceptions.value[..l.ruleCount]);
    }
  }

  lemma {:induction false} DescribedIsValid(policy: Policy, i: nat, s: Section)
    requires i < |policy.layers| && policy.layers[i].Some? && Describes(policy.layers[i].value, i, s) && Sound(s)
    ensures ValidLayerAt(policy, i)
  {
    var l := policy.layers[i].value;
    match s
    case Files(_, rules) =>
      assert forall k :: 0 <= k < |rules| ==> l.fs.value[k] == (Some(rules[k].path), rules[k].access);
    case Ports(_, rules) =>
      assert forall k :: 0 <= k < |rules| ==> l.net.value[k] == rules[k];
    case Calls(nrs) =>
      assert forall k :: 0 <= k < |nrs| ==> l.exceptions.value[k] == nrs[k];
  }

  lemma {:induction false} SectionsOf(policy: Policy, n: nat) returns (sections: seq<Section>)
    requires Backed(policy) && n <= |policy.layers| && forall i :: 0 <= i < n ==> ValidLayerAt(policy, i)
    ensures AllDescribe(policy.layers[..n], sections) && AllSound(sections)
  {
    sections := [];
    if n > 0 {
      var before := SectionsOf(policy, n - 1);
      var s := ValidDescribes(policy, n - 1);
      sections := before + [s];
      assert forall i :: 0 <= i < n - 1 ==> policy.layers[..n][i] == policy.layers[..n - 1][i];
    }
  }

  /** A policy is valid if and only if it has a name and its layers, in order, describe
      one or more sound sections. */
  lemma {:induction false} ValidatesIff(policy: Policy)
    requires Backed(policy)
    ensures Validates(policy) <==>
      && policy.name.Some? && policy.name.value != [] && policy.layers != []
      && exists sections :: AllDescribe(policy.layers, sections) && AllSound(sections)
  {
    if Validates(policy) {
      var sections := SectionsOf(policy, |policy.layers|);
      assert policy.layers[..|policy.layers|] == policy.layers;
      assert AllDescribe(policy.layers, sections);
    }
    forall sections, i | AllDescribe(policy.layers, sections) && AllSound(sections) && 0 <= i < |policy.layers|
      ensures ValidLayerAt(policy, i)
    {
      DescribedIsValid(policy, i, sections[i]);
    }
  }

  // ----- what is compiled

  /** The rulesets of the file sections, in order. */
  function FsRulesets(sections: seq<Section>): seq<File> {
    if sections == [] then []
    else
      var last := sections[|sections| - 1];
      FsRulesets(sections[..|sections| - 1]) + if last.Files? then [FsRuleset(last.handled, last.fsRules)] else []
  }

  /** The rulesets of the port sections, in order. */
  function NetRulesets(sections: seq<Section>): seq<File> {
    if sections == [] then []
    else
      var last := sections[|sections| - 1];
      NetRulesets(sections[..|sections| - 1]) + if last.Ports? then [NetRuleset(last.allowed, last.netRules)] else []
  }

  /** The calls of all sections, in order. */
  function AllCalls(sections: seq<Section>): seq<CInt> {
    if sections == [] then []
    else
      var last := sections[|sections| - 1];
      AllCalls(sections[..|sections| - 1]) + if last.Calls? then last.nrs else []
  }

  lemma {:induction false} RulesFromIs(pairs: seq<(Option<Str>, u64)>, rules: seq<FsRule>)
    requires |pairs| == |rules| && forall i :: 0 <= i < |pairs| ==> pairs[i] == (Some(rules[i].path), rules[i].access)
    ensures RulesFrom(pairs) == rules
  {
    if pairs != [] {
      var n := |pairs| - 1;
      RulesFromIs(pairs[..n], rules[..n]);
      assert rules == rules[..n] + [rules[n]];
    }
  }

  lemma {:induction false} OneLayerIs(l: Layer, place: nat, s: Section)
    requires Describes(l, place, s)
    ensures s.Files? ==> FileOf(l) == FsRuleset(s.handled, s.fsRules)
    ensures s.Ports? ==> FileOf(l) == NetRuleset(s.allowed, s.netRules)
    ensures Excepted(l) == if s.Calls? then s.nrs else []
  {
    if s.Files? {
      if l.fs.Some? {
        RulesFromIs(l.fs.value[..l.ruleCount], s.fsRules);
      }
    }
  }

  lemma {:induction false} FilesOfNext(layers: seq<Layer>, more: seq<Layer>, l: Layer)
    requires layers == more + [l]
    ensures FilesOf(layers) == FilesOf(more) + [FileOf(l)]
  {
    assert layers[..|layers| - 1] == more;
  }

  lemma {:induction false} OneKindMore(layers: seq<Option<Layer>>, kind: int)
    requires layers != [] && layers[|layers| - 1].Some?
    ensures var n, l := |layers| - 1, layers[|layers| - 1].value;
      FilesOf(OfKind(layers, kind)) ==
      FilesOf(OfKind(layers[..n], kind)) + if l.kind == kind then [FileOf(l)] else []
  {
    var n, l := |layers| - 1, layers[|layers| - 1].value;
    if l.kind == kind {
      FilesOfNext(OfKind(layers, kind), OfKind(layers[..n], kind), l);
    } else {
      assert OfKind(layers, kind) == OfKind(layers[..n], kind);
    }
  }

  /** The compilers of file and port layers make exactly the rulesets of the sections
      of their kind, in order. */
  lemma {:induction false} RulesetsOfSections(layers: seq<Option<Layer>>, sections: seq<Section>)
    requires AllDescribe(layers, sections)
    ensures FilesOf(OfKind(layers, KIND_FS)) == FsRulesets(sections)
    ensures FilesOf(OfKind(layers, KIND_NET)) == NetRulesets(sections)
  {
    if layers != [] {
      var n := |layers| - 1;
      RulesetsOfSections(layers[..n], sections[..n]);
      OneKindMore(layers, KIND_FS);
      OneKindMore(layers, KIND_NET);
      OneLayerIs(layers[n].value, n, sections[n]);
    }
  }

  /** And the exceptions are the calls of all sections, in order. */
  lemma {:induction false} ExceptionsOfSections(policy: Policy, sections: seq<Section>, n: nat)
    requires AllDescribe(policy.layers, sections) && n <= |sections|
    ensures Exceptions(policy, n) == AllCalls(sections[..n])
  {
    if n > 0 {
      ExceptionsOfSections(policy, sections, n - 1);
      assert sections[..n][..n - 1] == sections[..n - 1];
      OneLayerIs(policy.layers[n - 1].value, n - 1, sections[n - 1]);
    }
  }
}
