/** What the dry-run text says about a policy: exactly which policies print the
    same lines. */
module DryRunText {
  import opened Bytes
  import opened DryRun
  import opened Numerals
  import opened PolicyIr

  // ----- escaped strings

  lemma {:induction false} EscapedFirst(s: Str)
    requires s != []
    ensures Escaped(s) == EscapedByte(s[0]) + Escaped(s[1..])
  {
    assert s == [s[0]] + s[1..] && [s[0]][..0] == [];
    EscapedConcat([s[0]], s[1..]);
    assert Escaped([s[0]]) == Escaped([]) + EscapedByte(s[0]) == EscapedByte(s[0]);
  }

  /** The spellings of the bytes are prefix-free. */
  lemma {:induction false} SpellingsDiffer(x: byte, y: byte, u: string, v: string)
    requires EscapedByte(x) + u == EscapedByte(y) + v
    ensures x == y && u == v
  {
    var s := EscapedByte(x) + u;
    var e, f := EscapedByte(x), EscapedByte(y);
    assert s[0] == e[0] == f[0];
    if |e| > 1 && |f| > 1 {
      assert s[1] == e[1] == f[1];
      if |e| > 2 {
        assert s[4] == e[4] && s[5] == e[5] && s[4] == f[4] && s[5] == f[5];
      }
    }
    assert u == s[|e|..] && v == s[|f|..];
  }

  /** Escaping loses nothing. */
  lemma {:induction false} EscapedInjective(a: Str, b: Str)
    requires Escaped(a) == Escaped(b)
    ensures a == b
    decreases |a|
  {
    if a != [] {
      EscapedFirst(a);
    }
    if b != [] {
      EscapedFirst(b);
    }
    if a != [] && b != [] {
      SpellingsDiffer(a[0], b[0], Escaped(a[1..]), Escaped(b[1..]));
      EscapedInjective(a[1..], b[1..]);
      assert a == [a[0]] + a[1..] && b == [b[0]] + b[1..];
    }
  }

  lemma {:induction false} EscapedHasNoNewline(s: Str)
    ensures '\n' !in Escaped(s)
  {
    if s != [] {
      EscapedHasNoNewline(s[..|s| - 1]);
    }
  }

  // ----- taking lines apart

  predicate NoBlank(s: string) {
    ' ' !in s
  }

  /** The last blank splits a text in one way. */
  lemma {:induction false} LastBlank(x: string, u: string, y: string, v: string)
    requires NoBlank(u) && NoBlank(v) && x + [' '] + u == y + [' '] + v
    ensures x == y && u == v
  {
    var s := x + [' '] + u;
    assert s[|x|] == ' ' && s[|y|] == ' ';
    assert forall i :: |x| < i < |s| ==> s[i] in u;
    assert forall i :: |y| < i < |s| ==> s[i] in v;
    assert x == s[..|x|] && u == s[|x| + 1..] && y == s[..|y|] && v == s[|y| + 1..];
  }

  lemma {:induction false} CutPrefix(p: string, a: string, b: string)
    requires p + a == p + b
    ensures a == b
  {
    assert a == (p + a)[|p|..] && b == (p + b)[|p|..];
  }

  lemma {:induction false} CutSuffix(a: string, b: string, p: string)
    requires a + p == b + p
    ensures a == b
  {
    assert a == (a + p)[..|a + p| - |p|] && b == (b + p)[..|b + p| - |p|];
  }

  predicate OccursAt(p: Str, s: Str, i: nat) {
    i + |p| <= |s| && s[i..i + |p|] == p
  }

  // ----- bind rules

  /** Source and target as the line shows them. */
  function Joined(r: BindRule): Str {
    r.source + TARGET + r.target
  }

  function Tail(key: string, number: string): string {
    [' '] + (key + number)
  }

  lemma {:induction false} EscapedAround(a: Str, b: Str, c: Str)
    requires forall i :: 0 <= i < |b| ==> PlainByte(b[i])
    ensures Escaped(a + b + c) == Escaped(a) + b + Escaped(c)
  {
    EscapedPlain(b);
    EscapedConcat(a + b, c);
    EscapedConcat(a, b);
  }

  lemma {:induction false} Assoc(a: string, b: string, c: string)
    ensures a + b + c == a + (b + c)
  {
  }

  /** head, text, blank key, number and newline, regrouped. */
  lemma {:induction false} FrameOf(head: string, text: string, blankKey: string, key: string, number: string)
    requires blankKey == [' '] + key
    ensures head + text + blankKey + number + "\n" == head + (text + Tail(key, number)) + "\n"
  {
    Assoc([' '], key, number);
    Assoc(head + text, blankKey, number);
    Assoc(head, text, blankKey + number);
  }

  lemma {:induction false} BindText(prefix: string, r: BindRule)
    ensures BindLine(prefix, r)
         == prefix + " source=" + (Escaped(Joined(r)) + Tail("ro=", Decimal(BindFlag(r)))) + "\n"
  {
    EscapedAround(r.source, TARGET, r.target);
    assert " ro=" == [' '] + "ro=";
    FrameOf(prefix + " source=", Escaped(Joined(r)), " ro=", "ro=", Decimal(BindFlag(r)));
  }

  /** Two bind rules print the same line exactly when source, delimiter and target
      run together to the same bytes and both are read-only or neither is. */
  lemma {:induction false} SameBindLine(prefix: string, r: BindRule, s: BindRule)
    ensures BindLine(prefix, r) == BindLine(prefix, s) <==> Joined(r) == Joined(s) && r.readOnly == s.readOnly
  {
    BindText(prefix, r);
    BindText(prefix, s);
    if BindLine(prefix, r) == BindLine(prefix, s) {
      FlagIsPlain(r);
      FlagIsPlain(s);
      SameTailText(prefix + " source=", Escaped(Joined(r)), Decimal(BindFlag(r)),
                   Escaped(Joined(s)), Decimal(BindFlag(s)), "ro=");
      EscapedInjective(Joined(r), Joined(s));
      DigitsInjective(BindFlag(r), BindFlag(s), 10);
    }
  }

  /** Two framed texts that end in a key and a number are the same exactly when
      their parts are. */
  lemma {:induction false} SameTailText(head: string, x: string, m: string, y: string, n: string, key: string)
    requires NoBlank(key) && NoBlank(m) && NoBlank(n)
    requires head + (x + Tail(key, m)) + "\n" == head + (y + Tail(key, n)) + "\n"
    ensures x == y && m == n
  {
    SameFrame(head, x + Tail(key, m), y + Tail(key, n));
    Assoc(x, [' '], key + m);
    Assoc(y, [' '], key + n);
    LastBlank(x, key + m, y, key + n);
    CutPrefix(key, m, n);
  }

  lemma {:induction false} FlagIsPlain(r: BindRule)
    ensures NoBlank(Decimal(BindFlag(r)))
  {
    DigitsArePlain(BindFlag(r), 10);
  }

  lemma {:induction false} SameFrame(head: string, a: string, b: string)
    requires head + a + "\n" == head + b + "\n"
    ensures a == b
  {
    CutSuffix(head + a, head + b, "\n");
    CutPrefix(head, a, b);
  }

  lemma {:induction false} JoinSplits(r: BindRule)
    ensures var s, i := Joined(r), |r.source|;
      OccursAt(TARGET, s, i) && r.source == s[..i] && r.target == s[i + |TARGET|..]
  {
  }

  lemma {:induction false} SplitJoins(s: Str, i: nat, readOnly: bool)
    requires OccursAt(TARGET, s, i)
    ensures Joined(BindRule(s[..i], s[i + |TARGET|..], readOnly)) == s
  {
  }

  lemma {:induction false} OneJoinIsOneRule(prefix: string, r: BindRule, s: BindRule)
    requires forall i: nat :: OccursAt(TARGET, Joined(r), i) ==> i == |r.source|
    requires BindLine(prefix, s) == BindLine(prefix, r)
    ensures s == r
  {
    JoinSplits(r);
    SameBindLine(prefix, s, r);
    JoinSplits(s);
  }

  /** A bind line belongs to one rule exactly when the delimiter occurs nowhere but
      between source and target. */
  lemma {:induction false} BindLineDeterminesIff(prefix: string, r: BindRule)
    ensures (forall s: BindRule :: BindLine(prefix, s) == BindLine(prefix, r) ==> s == r)
       <==> (forall i: nat :: OccursAt(TARGET, Joined(r), i) ==> i == |r.source|)
  {
    var whole := Joined(r);
    if forall i: nat :: OccursAt(TARGET, whole, i) ==> i == |r.source| {
      forall s: BindRule | BindLine(prefix, s) == BindLine(prefix, r) ensures s == r {
        OneJoinIsOneRule(prefix, r, s);
      }
    } else {
      var i: nat :| OccursAt(TARGET, whole, i) && i != |r.source|;
      var s := BindRule(whole[..i], whole[i + |TARGET|..], r.readOnly);
      SplitJoins(whole, i, r.readOnly);
      SameBindLine(prefix, s, r);
      assert s != r;
    }
  }

  // ----- mount objects

  const TYPE: Str := " fs_type="
  const ATTACH: Str := " attach="

  function JoinedObject(name: Str, fsType: Str, attach: Str): Str {
    name + TYPE + fsType + ATTACH + attach
  }

  lemma {:induction false} Gather(h: string, a: string, t: string, b: string, u: string, c: string)
    ensures h + a + t + b + u + c == h + (a + t + b + u + c)
  {
    Assoc(h, a, t);
    Assoc(h, a + t, b);
    Assoc(h, a + t + b, u);
    Assoc(h, a + t + b + u, c);
  }

  lemma {:induction false} AroundType(name: Str, fsType: Str)
    ensures Escaped(name + TYPE + fsType) == Escaped(name) + TYPE + Escaped(fsType)
  {
    EscapedAround(name, TYPE, fsType);
  }

  lemma {:induction false} AroundAttach(before: Str, attach: Str)
    ensures Escaped(before + ATTACH + attach) == Escaped(before) + ATTACH + Escaped(attach)
  {
    EscapedAround(before, ATTACH, attach);
  }

  lemma {:induction false} JoinedEscapes(name: Str, fsType: Str, attach: Str)
    ensures Escaped(JoinedObject(name, fsType, attach)) == Escaped(name) + TYPE + Escaped(fsType) + ATTACH + Escaped(attach)
  {
    AroundAttach(name + TYPE + fsType, attach);
    AroundType(name, fsType);
  }

  const OBJECT_HEAD: string := "broker.mount_object name="

  lemma {:induction false} ObjectLineText(r: ObjectRule, attach: Str)
    ensures ObjectLine(r, attach)
         == OBJECT_HEAD + (Escaped(JoinedObject(r.name, r.fsType, attach)) + Tail("attrs=", Hex(r.attrs))) + "\n"
  {
    var n, f, x := Escaped(r.name), Escaped(r.fsType), Escaped(attach);
    JoinedEscapes(r.name, r.fsType, attach);
    Gather(OBJECT_HEAD, n, TYPE, f, ATTACH, x);
    assert " attrs=" == [' '] + "attrs=";
    FrameOf(OBJECT_HEAD, n + TYPE + f + ATTACH + x, " attrs=", "attrs=", Hex(r.attrs));
  }

  lemma {:induction false} HexIsPlain(n: nat)
    ensures NoBlank(Hex(n)) && '\n' !in Hex(n)
  {
    DigitsArePlain(n, 16);
  }

  lemma {:induction false} HexInjective(a: nat, b: nat)
    requires Hex(a) == Hex(b)
    ensures a == b
  {
    assert Digits(a, 16) == Hex(a)[2..] && Digits(b, 16) == Hex(b)[2..];
    DigitsInjective(a, b, 16);
  }

  /** A line that ends in a key and a hexadecimal number. */
  lemma {:induction false} SameTail(head: string, x: string, a: nat, y: string, b: nat, key: string)
    requires NoBlank(key)
    requires head + (x + Tail(key, Hex(a))) + "\n" == head + (y + Tail(key, Hex(b))) + "\n"
    ensures x == y && a == b
  {
    HexIsPlain(a);
    HexIsPlain(b);
    SameTailText(head, x, Hex(a), y, Hex(b), key);
    HexInjective(a, b);
  }

  /** Two lines of mount objects are the same exactly when name, type and attach
      path run together to the same bytes and the attributes are the same. */
  lemma {:induction false} SameObjectLine(r: ObjectRule, x: Str, s: ObjectRule, y: Str)
    ensures ObjectLine(r, x) == ObjectLine(s, y)
       <==> JoinedObject(r.name, r.fsType, x) == JoinedObject(s.name, s.fsType, y) && r.attrs == s.attrs
  {
    ObjectLineText(r, x);
    ObjectLineText(s, y);
    if ObjectLine(r, x) == ObjectLine(s, y) {
      SameTail(OBJECT_HEAD, Escaped(JoinedObject(r.name, r.fsType, x)), r.attrs,
               Escaped(JoinedObject(s.name, s.fsType, y)), s.attrs, "attrs=");
      EscapedInjective(JoinedObject(r.name, r.fsType, x), JoinedObject(s.name, s.fsType, y));
    }
  }

  /** Both delimiters at these places, in this order. */
  predicate SplitAt(s: Str, i: nat, j: nat) {
    OccursAt(TYPE, s, i) && i + |TYPE| <= j && OccursAt(ATTACH, s, j)
  }

  lemma {:induction false} SplitGives(s: Str, i: nat, j: nat)
    requires SplitAt(s, i, j)
    ensures JoinedObject(s[..i], s[i + |TYPE|..j], s[j + |ATTACH|..]) == s
  {
    assert s == s[..j] + s[j..j + |ATTACH|] + s[j + |ATTACH|..];
    assert s[..j] == s[..i] + s[i..i + |TYPE|] + s[i + |TYPE|..j];
  }

  lemma {:induction false} JoinedSplits(name: Str, fsType: Str, attach: Str)
    ensures var s, i, j := JoinedObject(name, fsType, attach), |name|, |name| + |TYPE| + |fsType|;
      SplitAt(s, i, j) && name == s[..i] && fsType == s[i + |TYPE|..j] && attach == s[j + |ATTACH|..]
  {
  }

  /** The delimiters can be found in only one way. */
  ghost predicate OneSplit(name: Str, fsType: Str, attach: Str) {
    forall i: nat, j: nat :: SplitAt(JoinedObject(name, fsType, attach), i, j) ==>
      i == |name| && j == |name| + |TYPE| + |fsType|
  }

  lemma {:induction false} OneSplitDetermines(name: Str, fsType: Str, attach: Str, name': Str, fsType': Str, attach': Str)
    requires OneSplit(name, fsType, attach) && JoinedObject(name, fsType, attach) == JoinedObject(name', fsType', attach')
    ensures name == name' && fsType == fsType' && attach == attach'
  {
    JoinedSplits(name, fsType, attach);
    JoinedSplits(name', fsType', attach');
  }

  lemma {:induction false} TwoSplitsCollide(name: Str, fsType: Str, attach: Str, i: nat, j: nat) returns (n: Str, f: Str, x: Str)
    requires SplitAt(JoinedObject(name, fsType, attach), i, j) && !(i == |name| && j == |name| + |TYPE| + |fsType|)
    ensures JoinedObject(n, f, x) == JoinedObject(name, fsType, attach) && (n != name || f != fsType)
  {
    var whole := JoinedObject(name, fsType, attach);
    n, f, x := whole[..i], whole[i + |TYPE|..j], whole[j + |ATTACH|..];
    SplitGives(whole, i, j);
    assert |n| == i && |f| == j - i - |TYPE|;
  }

  /** A mount-object line belongs to one name, type, attach path and attribute set
      exactly when the two delimiters can be found in only one way. */
  lemma {:induction false} ObjectLineDeterminesIff(r: ObjectRule, x: Str)
    ensures (forall s: ObjectRule, y: Str :: ObjectLine(s, y) == ObjectLine(r, x) ==>
               s.name == r.name && s.fsType == r.fsType && s.attrs == r.attrs && y == x)
       <==> OneSplit(r.name, r.fsType, x)
  {
    if OneSplit(r.name, r.fsType, x) {
      forall s: ObjectRule, y: Str | ObjectLine(s, y) == ObjectLine(r, x)
        ensures s.name == r.name && s.fsType == r.fsType && s.attrs == r.attrs && y == x
      {
        SameObjectLine(s, y, r, x);
        OneSplitDetermines(r.name, r.fsType, x, s.name, s.fsType, y);
      }
    } else {
      var i: nat, j: nat :| SplitAt(JoinedObject(r.name, r.fsType, x), i, j)
        && !(i == |r.name| && j == |r.name| + |TYPE| + |r.fsType|);
      var n, f, y := TwoSplitsCollide(r.name, r.fsType, x, i, j);
      var s := ObjectRule(n, f, r.attach, r.attrs);
      SameObjectLine(s, y, r, x);
      assert ObjectLine(s, y) == ObjectLine(r, x) && !(s.name == r.name && s.fsType == r.fsType);
    }
  }

  /** What both loaders ask of a mount object. */
  predicate Loadable(r: ObjectRule, attach: Str) {
    '/' !in r.name && (r.fsType == "tmpfs" || r.fsType == "proc") && attach != [] && attach[0] == '/'
  }

  lemma {:induction false} FirstSlash(a: Str, x: Str, b: Str, y: Str)
    requires '/' !in a && '/' !in b && x != [] && y != [] && x[0] == '/' && y[0] == '/' && a + x == b + y
    ensures a == b && x == y
  {
    assert (a + x)[|a|] == '/' && (b + y)[|b|] == '/';
    assert forall i :: 0 <= i < |a| ==> (a + x)[i] in a;
    assert forall i :: 0 <= i < |b| ==> (b + y)[i] in b;
    assert a == (a + x)[..|a|] && b == (b + y)[..|b|] && x == (a + x)[|a|..] && y == (b + y)[|b|..];
  }

  lemma {:induction false} NamesSplit(name: Str, fsType: Str, name': Str, fsType': Str)
    requires NoBlank(fsType) && NoBlank(fsType') && name + TYPE + fsType == name' + TYPE + fsType'
    ensures name == name' && fsType == fsType'
  {
    var key: string := "fs_type=";
    assert TYPE == [' '] + key;
    Assoc(name, [' '], key);
    Assoc(name', [' '], key);
    Assoc(name + [' '], key, fsType);
    Assoc(name' + [' '], key, fsType');
    LastBlank(name, key + fsType, name', key + fsType');
    CutPrefix(key, fsType, fsType');
  }

  lemma {:induction false} PathsSplit(front: Str, x: Str, front': Str, y: Str)
    requires '/' !in front && '/' !in front' && x != [] && y != [] && x[0] == '/' && y[0] == '/'
    requires front + ATTACH + x == front' + ATTACH + y
    ensures front == front' && x == y
  {
    FirstSlash(front + ATTACH, x, front' + ATTACH, y);
    CutSuffix(front, front', ATTACH);
  }

  lemma {:induction false} FrontHasNoSlash(r: ObjectRule, attach: Str)
    requires Loadable(r, attach)
    ensures '/' !in r.name + TYPE + r.fsType && NoBlank(r.fsType)
  {
  }

  /** Objects that the loaders accept always print distinguishable lines. */
  lemma {:induction false} LoadedObjectsAreDetermined(r: ObjectRule, x: Str, s: ObjectRule, y: Str)
    requires Loadable(r, x) && Loadable(s, y) && ObjectLine(r, x) == ObjectLine(s, y)
    ensures r.name == s.name && r.fsType == s.fsType && r.attrs == s.attrs && x == y
  {
    SameObjectLine(r, x, s, y);
    FrontHasNoSlash(r, x);
    FrontHasNoSlash(s, y);
    PathsSplit(r.name + TYPE + r.fsType, x, s.name + TYPE + s.fsType, y);
    NamesSplit(r.name, r.fsType, s.name, s.fsType);
  }
}
