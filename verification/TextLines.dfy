/** Texts made of lines. */
module TextLines {

  /** The only newline is the last character. */
  predicate EndsOnce(s: string) {
    s != [] && forall i :: 0 <= i < |s| ==> (s[i] == '\n' <==> i == |s| - 1)
  }

  lemma {:induction false} LinesSplit(u: string, x: string, v: string, y: string)
    requires EndsOnce(u) && EndsOnce(v) && u + x == v + y
    ensures u == v && x == y
  {
    var k := if |u| <= |v| then |u| - 1 else |v| - 1;
    assert u[k] == (u + x)[k] == (v + y)[k] == v[k];
    assert u == (u + x)[..|u|] && x == (u + x)[|u|..];
    assert v == (v + y)[..|v|] && y == (v + y)[|v|..];
  }

  function Flat(lines: seq<string>): string {
    if lines == [] then [] else lines[0] + Flat(lines[1..])
  }

  lemma {:induction false} FlatConcat(a: seq<string>, b: seq<string>)
    ensures Flat(a + b) == Flat(a) + Flat(b)
  {
    if a == [] {
      assert a + b == b;
    } else {
      FlatConcat(a[1..], b);
      assert (a + b)[1..] == a[1..] + b;
    }
  }

  ghost predicate AllEndOnce(lines: seq<string>) {
    forall line :: line in lines ==> EndsOnce(line)
  }

  /** A text determines its lines. */
  lemma {:induction false} FlatInjective(a: seq<string>, b: seq<string>)
    requires AllEndOnce(a) && AllEndOnce(b) && Flat(a) == Flat(b)
    ensures a == b
    decreases |a|
  {
    assert (a != [] ==> EndsOnce(a[0])) && (b != [] ==> EndsOnce(b[0]));
    if a != [] && b != [] {
      LinesSplit(a[0], Flat(a[1..]), b[0], Flat(b[1..]));
      FlatInjective(a[1..], b[1..]);
      assert a == [a[0]] + a[1..] && b == [b[0]] + b[1..];
    }
  }

  // ----- sections

  function All(groups: seq<seq<string>>): seq<string> {
    if groups == [] then [] else groups[0] + All(groups[1..])
  }

  /** Group i holds lines of section first + i only. */
  ghost predicate InOrder(section: string -> nat, groups: seq<seq<string>>, first: nat) {
    forall i, line :: 0 <= i < |groups| && line in groups[i] ==> section(line) == first + i
  }

  lemma {:induction false} LaterSections(section: string -> nat, groups: seq<seq<string>>, first: nat)
    requires InOrder(section, groups, first)
    ensures forall line :: line in All(groups) ==> section(line) >= first
  {
    if groups != [] {
      forall i, line | 0 <= i < |groups[1..]| && line in groups[1..][i] ensures section(line) == first + 1 + i {
        assert line in groups[i + 1];
      }
      LaterSections(section, groups[1..], first + 1);
    }
  }

  /** Lines of one section followed by lines of later ones. */
  lemma {:induction false} CutSection(section: string -> nat, k: nat, a: seq<string>, x: seq<string>, b: seq<string>, y: seq<string>)
    requires forall line :: line in a + b ==> section(line) == k
    requires forall line :: line in x + y ==> section(line) > k
    requires a + x == b + y
    ensures a == b && x == y
  {
    var s := a + x;
    assert forall i :: 0 <= i < |s| ==> (section(s[i]) == k <==> i < |a|) by {
      assert forall i :: 0 <= i < |s| ==> if i < |a| then s[i] in a + b else s[i] in x + y;
    }
    assert forall i :: 0 <= i < |s| ==> (section(s[i]) == k <==> i < |b|) by {
      assert forall i :: 0 <= i < |s| ==> if i < |b| then s[i] in a + b else s[i] in x + y;
    }
    var n := if |a| < |b| then |a| else |b|;
    assert n < |s| ==> (section(s[n]) == k <==> n < |a|) && (section(s[n]) == k <==> n < |b|);
    assert a == (a + x)[..|a|] && x == (a + x)[|a|..] && b == (b + y)[..|b|] && y == (b + y)[|b|..];
  }

  /** The lines of all sections in order determine every section. */
  lemma {:induction false} SectionsDetermined(section: string -> nat, gs: seq<seq<string>>, hs: seq<seq<string>>, first: nat)
    requires |gs| == |hs| && InOrder(section, gs, first) && InOrder(section, hs, first) && All(gs) == All(hs)
    ensures gs == hs
    decreases |gs|
  {
    if gs != [] {
      RestInOrder(section, gs, first);
      RestInOrder(section, hs, first);
      LaterSections(section, gs[1..], first + 1);
      LaterSections(section, hs[1..], first + 1);
      CutSection(section, first, gs[0], All(gs[1..]), hs[0], All(hs[1..]));
      SectionsDetermined(section, gs[1..], hs[1..], first + 1);
      assert gs == [gs[0]] + gs[1..] && hs == [hs[0]] + hs[1..];
    }
  }

  lemma {:induction false} RestInOrder(section: string -> nat, groups: seq<seq<string>>, first: nat)
    requires InOrder(section, groups, first) && groups != []
    ensures InOrder(section, groups[1..], first + 1)
  {
    forall i, line | 0 <= i < |groups[1..]| && line in groups[1..][i] ensures section(line) == first + 1 + i {
      assert line in groups[i + 1];
    }
  }
}
