/** Absolute paths as byte strings, and what the string tests on them mean
    component by component. */
module Paths {
  import opened Bytes

  const PATH_MAX: nat := 4096
  const NAME_MAX: nat := 255

  /** One component of a canonical path. */
  predicate ValidName(n: Str) {
    n != [] && '/' !in n && '\0' !in n && n != "." && n != ".."
  }

  predicate ValidNames(ns: seq<Str>) {
    forall i :: 0 <= i < |ns| ==> ValidName(ns[i])
  }

  function Render(ns: seq<Str>): Str {
    if ns == [] then [] else "/" + ns[0] + Render(ns[1..])
  }

  /** The canonical spelling of the path with components ns. */
  function PathOf(ns: seq<Str>): Str {
    if ns == [] then "/" else Render(ns)
  }

  /** The length of the longest prefix without a slash. */
  function Run(p: Str): (k: nat)
    ensures k <= |p|
    ensures '/' !in p[..k]
    ensures k < |p| ==> p[k] == '/'
  {
    if p == [] || p[0] == '/' then 0 else 1 + Run(p[1..])
  }

  /** The slash-free pieces of any string, in order. */
  function Components(p: Str): seq<Str>
    decreases |p|
  {
    if p == [] then []
    else if p[0] == '/' then Components(p[1..])
    else [p[..Run(p)]] + Components(p[Run(p)..])
  }

  /** What realpath(3) returns: one slash between components, no ".", "..". */
  predicate Canonical(p: Str) {
    p == PathOf(Components(p)) && ValidNames(Components(p))
  }

  /** Component-wise ancestor-or-self. */
  predicate Beneath(root: Str, path: Str) {
    Components(root) <= Components(path)
  }

  /** landlockd_path_is_under, and the same test written inline in
      landlockd_broker_path_under_list and landlockd_broker_addfd_allowed. */
  predicate IsUnder(root: Str, path: Str) {
    root <= path && (|path| == |root| || path[|root|] == '/')
  }

  /** landlockd_path_has_prefix. */
  predicate HasPrefix(path: Str, prefix: Str) {
    IsUnder(prefix, path)
  }

  // ----- components and spelling are inverse

  lemma {:induction false} RunOf(n: Str, rest: Str)
    requires '/' !in n && (rest != [] ==> rest[0] == '/')
    ensures Run(n + rest) == |n|
  {
    if n != [] {
      assert (n + rest)[1..] == n[1..] + rest;
      RunOf(n[1..], rest);
    } else {
      assert n + rest == rest;
    }
  }

  lemma {:induction false} RenderStart(ns: seq<Str>)
    ensures Render(ns) != [] ==> Render(ns)[0] == '/'
    ensures ns != [] ==> Render(ns) != []
  {
  }

  lemma {:induction false} ComponentsStep(n: Str, rest: Str)
    requires ValidName(n) && (rest != [] ==> rest[0] == '/')
    ensures Components("/" + n + rest) == [n] + Components(rest)
  {
    var p := "/" + n + rest;
    assert p[1..] == n + rest;
    RunOf(n, rest);
    assert (n + rest)[..|n|] == n && (n + rest)[|n|..] == rest;
    assert (n + rest)[0] == n[0] && n[0] in n;
  }

  lemma {:induction false} ComponentsOfRender(ns: seq<Str>)
    requires ValidNames(ns)
    ensures Components(Render(ns)) == ns
  {
    if ns != [] {
      assert ValidName(ns[0]);
      RenderStart(ns[1..]);
      ComponentsStep(ns[0], Render(ns[1..]));
      ComponentsOfRender(ns[1..]);
    }
  }

  /** Canonical paths and lists of valid names are in bijection. */
  lemma {:induction false} ComponentsOfPath(ns: seq<Str>)
    requires ValidNames(ns)
    ensures Components(PathOf(ns)) == ns
    ensures Canonical(PathOf(ns))
  {
    if ns == [] {
      assert Components("/") == Components("/"[1..]);
    } else {
      ComponentsOfRender(ns);
    }
  }

  // ----- the string test against component-wise ancestry

  lemma {:induction false} RenderSplit(a: seq<Str>, b: seq<Str>)
    ensures Render(a + b) == Render(a) + Render(b)
  {
    if a == [] {
      assert a + b == b;
    } else {
      assert (a + b)[1..] == a[1..] + b;
      RenderSplit(a[1..], b);
      assert Render(a + b) == "/" + a[0] + Render(a[1..] + b);
    }
  }

  lemma {:induction false} RunOfPrefix(x: Str, y: Str)
    requires x <= y && (|x| == |y| || y[|x|] == '/')
    ensures Run(x) == Run(y)
  {
    if x != [] && x[0] != '/' {
      RunOfPrefix(x[1..], y[1..]);
    }
  }

  lemma {:induction false} FirstNameOfPrefix(a: Str, ra: Str, b: Str, pb: Str)
    requires '/' !in a && '/' !in b
    requires (ra != [] ==> ra[0] == '/') && (pb != [] ==> pb[0] == '/')
    requires IsUnder(a + ra, b + pb)
    ensures a == b && IsUnder(ra, pb)
  {
    RunOf(a, ra);
    RunOf(b, pb);
    RunOfPrefix(a + ra, b + pb);
    assert a == (a + ra)[..|a|] == (b + pb)[..|a|] == b;
    assert ra == (a + ra)[|a|..] && pb == (b + pb)[|a|..];
  }

  lemma {:induction false} RenderPrefix(r: seq<Str>, p: seq<Str>)
    requires ValidNames(r) && ValidNames(p)
    requires IsUnder(Render(r), Render(p))
    ensures r <= p
    decreases |r|
  {
    if r != [] {
      var ra, pb := Render(r[1..]), Render(p[1..]);
      RenderStart(r[1..]);
      RenderStart(p[1..]);
      assert ValidName(r[0]) && ValidName(p[0]);
      assert Render(r)[1..] == r[0] + ra && Render(p)[1..] == p[0] + pb;
      FirstNameOfPrefix(r[0], ra, p[0], pb);
      RenderPrefix(r[1..], p[1..]);
    }
  }

  lemma {:induction false} NotRoot(ns: seq<Str>)
    requires ValidNames(ns) && ns != []
    ensures |PathOf(ns)| >= 2 && PathOf(ns)[0] == '/' && PathOf(ns)[1] != '/'
  {
    assert ValidName(ns[0]);
    assert ns[0][0] in ns[0];
    assert PathOf(ns)[1] == ns[0][0];
  }

  /** The string test agrees with component-wise ancestry on canonical paths,
      except that a root of "/" matches only "/" itself. */
  lemma {:induction false} UnderMeansBeneath(root: Str, path: Str)
    requires Canonical(root) && Canonical(path)
    ensures IsUnder(root, path) <==> Beneath(root, path) && (root == "/" ==> path == "/")
  {
    var r, p := Components(root), Components(path);
    if p != [] {
      NotRoot(p);
    }
    if r != [] {
      NotRoot(r);
      if p != [] && IsUnder(root, path) {
        RenderPrefix(r, p);
      }
      if r <= p {
        assert p == r + p[|r|..];
        RenderSplit(r, p[|r|..]);
        RenderStart(p[|r|..]);
      }
    }
  }

  // ----- splitting and joining

  /** landlockd_join_path into a buffer of the given size. */
  function JoinPath(parent: Str, base: Str, size: nat): Result<Str> {
    var joined := if parent == "/" then "/" + base else parent + "/" + base;
    if |joined| >= size then Err(ENAMETOOLONG) else Ok(joined)
  }

  /** strrchr(p, '/') as an index, or -1. */
  function LastSlash(p: Str): (k: int)
    ensures -1 <= k < |p|
  {
    if p == [] then -1
    else if p[|p| - 1] == '/' then |p| - 1
    else LastSlash(p[..|p| - 1])
  }

  lemma {:induction false} AfterLastSlash(p: Str)
    ensures '/' !in p[LastSlash(p) + 1..]
  {
    if p != [] && p[|p| - 1] != '/' {
      var init := p[..|p| - 1];
      AfterLastSlash(init);
      assert p[LastSlash(p) + 1..] == init[LastSlash(p) + 1..] + [p[|p| - 1]];
    }
  }

  /** landlockd_split_parent_basename with its two buffer sizes. */
  function SplitParent(path: Str, parentSize: nat, baseSize: nat): Result<(Str, Str)> {
    var slash := LastSlash(path);
    if slash < 0 then Err(EINVAL)
    else
      var base := path[slash + 1..];
      if base == [] || base == "." || base == ".." || |base| >= baseSize then Err(EINVAL)
      else
        var parentLen := if slash == 0 then 1 else slash;
        if parentLen >= parentSize then Err(ENAMETOOLONG)
        else Ok((path[..parentLen], base))
  }

  lemma {:induction false} LastSlashIs(p: Str, k: nat)
    requires k < |p| && p[k] == '/' && '/' !in p[k + 1..]
    ensures LastSlash(p) == k
  {
    if k < |p| - 1 {
      assert p[k + 1..][|p| - k - 2] == p[|p| - 1];
      assert p[..|p| - 1][k + 1..] == p[k + 1..][..|p| - k - 2];
      LastSlashIs(p[..|p| - 1], k);
    }
  }

  /** A split never yields an empty, ".", ".." or slashed name. */
  lemma {:induction false} SplitBase(path: Str, parentSize: nat, baseSize: nat)
    requires NulFree(path)
    requires SplitParent(path, parentSize, baseSize).Ok?
    ensures ValidName(SplitParent(path, parentSize, baseSize).value.1)
    ensures |SplitParent(path, parentSize, baseSize).value.1| < baseSize
  {
    var base := path[LastSlash(path) + 1..];
    AfterLastSlash(path);
    forall c | c in base ensures c in path {
    }
  }

  lemma {:induction false} ComponentsOfJoin(parent: Str, base: Str, size: nat)
    requires Canonical(parent) && ValidName(base)
    requires JoinPath(parent, base, size).Ok?
    ensures Canonical(JoinPath(parent, base, size).value)
    ensures Components(JoinPath(parent, base, size).value) == Components(parent) + [base]
  {
    var ns := Components(parent);
    if ns != [] {
      NotRoot(ns);
    }
    RenderSplit(ns, [base]);
    assert Render([base]) == "/" + base + Render([base][1..]) == "/" + base;
    assert JoinPath(parent, base, size).value == PathOf(ns + [base]) by {
      if ns != [] {
        assert parent + "/" + base == parent + ("/" + base);
      }
    }
    ComponentsOfPath(ns + [base]);
  }

  /** Splitting the join of a canonical parent and a valid name gives them back. */
  lemma {:induction false} SplitOfJoin(parent: Str, base: Str, size: nat, parentSize: nat, baseSize: nat)
    requires Canonical(parent) && ValidName(base)
    requires JoinPath(parent, base, size).Ok?
    requires |parent| < parentSize && |base| < baseSize
    ensures SplitParent(JoinPath(parent, base, size).value, parentSize, baseSize) == Ok((parent, base))
  {
    var joined := JoinPath(parent, base, size).value;
    if Components(parent) != [] {
      NotRoot(Components(parent));
    }
    var k := if parent == "/" then 0 else |parent|;
    assert joined[k + 1..] == base && joined[k] == '/';
    LastSlashIs(joined, k);
    assert joined[..if k == 0 then 1 else k] == parent;
  }
}
