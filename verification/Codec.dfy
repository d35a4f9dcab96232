/** Parsers paired with printers, and the laws that combining them keeps. A
    parser reads a prefix of its input and returns the rest. Every parser has a
    lenient form, which is what the program runs, and a strict form, which also
    rejects spellings that the printer never produces. */
module Codec {
  import opened Bytes

  datatype Codec<!T> = Codec(
    parse: (bool, Str) -> Option<(T, Str)>,
    show: T -> Str,
    ok: T -> bool
  )

  // ----- the laws

  /** What is printed is read back, by the strict parser and so by both. */
  predicate RoundTrips<T(==)>(c: Codec<T>, x: T, rest: Str) {
    c.ok(x) ==> c.parse(true, c.show(x) + rest) == Some((x, rest))
  }

  /** A successful parse does not look at the bytes after those it consumes. */
  predicate Stable<T(==)>(c: Codec<T>, strict: bool, bs: Str, ext: Str) {
    c.parse(strict, bs).Some? ==>
      c.parse(strict, bs + ext) == Some((c.parse(strict, bs).value.0, c.parse(strict, bs).value.1 + ext))
  }

  /** Results are well formed and the rest is no longer than the input. */
  predicate Sound<T>(c: Codec<T>, strict: bool, bs: Str) {
    c.parse(strict, bs).Some? ==>
      c.ok(c.parse(strict, bs).value.0) && |c.parse(strict, bs).value.1| <= |bs|
  }

  /** What the strict parser accepts is what the printer writes. */
  predicate Exact<T>(c: Codec<T>, bs: Str) {
    c.parse(true, bs).Some? ==> bs == c.show(c.parse(true, bs).value.0) + c.parse(true, bs).value.1
  }

  /** The lenient parser agrees wherever the strict one succeeds. */
  predicate Lenient<T(==)>(c: Codec<T>, bs: Str) {
    c.parse(true, bs).Some? ==> c.parse(false, bs) == c.parse(true, bs)
  }

  ghost predicate Lawful<T(!new)>(c: Codec<T>) {
    && (forall x, rest {:trigger RoundTrips(c, x, rest)} :: RoundTrips(c, x, rest))
    && (forall s, bs, ext {:trigger Stable(c, s, bs, ext)} :: Stable(c, s, bs, ext))
    && (forall s, bs {:trigger Sound(c, s, bs)} :: Sound(c, s, bs))
    && (forall bs {:trigger Exact(c, bs)} :: Exact(c, bs))
    && (forall bs {:trigger Lenient(c, bs)} :: Lenient(c, bs))
  }

  // ----- a codec followed by one that depends on what was read

  function ThenParse<A, B>(c: Codec<A>, f: A -> Codec<B>, strict: bool, bs: Str): Option<((A, B), Str)> {
    var (a, rest) :- c.parse(strict, bs);
    var (b, end) :- f(a).parse(strict, rest);
    Some(((a, b), end))
  }

  function Then<A, B>(c: Codec<A>, f: A -> Codec<B>): Codec<(A, B)> {
    Codec((s: bool, bs: Str) => ThenParse(c, f, s, bs),
          (p: (A, B)) => c.show(p.0) + f(p.0).show(p.1),
          (p: (A, B)) => c.ok(p.0) && f(p.0).ok(p.1))
  }

  function Pair<A, B>(c: Codec<A>, d: Codec<B>): Codec<(A, B)> {
    Then(c, (a: A) => d)
  }

  lemma {:induction false} ThenLawful<A(!new), B(!new)>(c: Codec<A>, f: A -> Codec<B>)
    requires Lawful(c) && forall a :: Lawful(f(a))
    ensures Lawful(Then(c, f))
  {
    var t := Then(c, f);
    forall p: (A, B), rest ensures RoundTrips(t, p, rest) {
      assert RoundTrips(c, p.0, f(p.0).show(p.1) + rest);
      assert RoundTrips(f(p.0), p.1, rest);
      assert t.show(p) + rest == c.show(p.0) + (f(p.0).show(p.1) + rest);
    }
    forall s, bs, ext ensures Stable(t, s, bs, ext) {
      assert Stable(c, s, bs, ext);
      if c.parse(s, bs).Some? {
        assert Stable(f(c.parse(s, bs).value.0), s, c.parse(s, bs).value.1, ext);
      }
    }
    forall s, bs ensures Sound(t, s, bs) {
      assert Sound(c, s, bs);
      if c.parse(s, bs).Some? {
        assert Sound(f(c.parse(s, bs).value.0), s, c.parse(s, bs).value.1);
      }
    }
    forall bs ensures Exact(t, bs) && Lenient(t, bs) {
      assert Exact(c, bs) && Lenient(c, bs);
      if c.parse(true, bs).Some? {
        var (a, rest) := c.parse(true, bs).value;
        assert Exact(f(a), rest) && Lenient(f(a), rest);
        if f(a).parse(true, rest).Some? {
          var (b, end) := f(a).parse(true, rest).value;
          assert c.show(a) + (f(a).show(b) + end) == c.show(a) + f(a).show(b) + end;
        }
      }
    }
  }

  lemma {:induction false} ThenOk<A, B>(c: Codec<A>, f: A -> Codec<B>, p: (A, B))
    ensures Then(c, f).ok(p) <==> c.ok(p.0) && f(p.0).ok(p.1)
    ensures Then(c, f).show(p) == c.show(p.0) + f(p.0).show(p.1)
  {
  }

  lemma {:induction false} PairOk<A, B>(c: Codec<A>, d: Codec<B>, a: A, b: B)
    ensures Pair(c, d).ok((a, b)) <==> c.ok(a) && d.ok(b)
    ensures Pair(c, d).show((a, b)) == c.show(a) + d.show(b)
  {
    ThenOk(c, (x: A) => d, (a, b));
  }

  lemma {:induction false} PairLawful<A(!new), B(!new)>(c: Codec<A>, d: Codec<B>)
    requires Lawful(c) && Lawful(d)
    ensures Lawful(Pair(c, d))
  {
    ThenLawful(c, (a: A) => d);
  }

  // ----- a codec that rejects some values

  function GuardParse<A>(c: Codec<A>, p: A -> bool, strict: bool, bs: Str): Option<(A, Str)> {
    var (a, rest) :- c.parse(strict, bs);
    if p(a) then Some((a, rest)) else None
  }

  function Guard<A>(c: Codec<A>, p: A -> bool): Codec<A> {
    Codec((s: bool, bs: Str) => GuardParse(c, p, s, bs), c.show, (a: A) => c.ok(a) && p(a))
  }

  lemma {:induction false} GuardOk<A>(c: Codec<A>, p: A -> bool, a: A)
    ensures Guard(c, p).ok(a) <==> c.ok(a) && p(a)
  {
  }

  lemma {:induction false} GuardLawful<A(!new)>(c: Codec<A>, p: A -> bool)
    requires Lawful(c)
    ensures Lawful(Guard(c, p))
  {
    var g := Guard(c, p);
    forall a, rest ensures RoundTrips(g, a, rest) {
      assert RoundTrips(c, a, rest);
    }
    forall s, bs, ext ensures Stable(g, s, bs, ext) {
      assert Stable(c, s, bs, ext);
    }
    forall s, bs ensures Sound(g, s, bs) {
      assert Sound(c, s, bs);
    }
    forall bs ensures Exact(g, bs) && Lenient(g, bs) {
      assert Exact(c, bs) && Lenient(c, bs);
    }
  }

  // ----- another view of the same values

  function MapParse<A, B>(c: Codec<A>, f: A -> B, strict: bool, bs: Str): Option<(B, Str)> {
    var (a, rest) :- c.parse(strict, bs);
    Some((f(a), rest))
  }

  function Map<A, B(==)>(c: Codec<A>, f: A -> B, g: B -> A): Codec<B> {
    Codec((s: bool, bs: Str) => MapParse(c, f, s, bs),
          (b: B) => c.show(g(b)),
          (b: B) => c.ok(g(b)) && f(g(b)) == b)
  }

  lemma {:induction false} MapOk<A, B>(c: Codec<A>, f: A -> B, g: B -> A, b: B)
    ensures Map(c, f, g).ok(b) <==> c.ok(g(b)) && f(g(b)) == b
  {
  }

  lemma {:induction false} MapLawful<A(!new), B(!new)>(c: Codec<A>, f: A -> B, g: B -> A)
    requires Lawful(c) && forall a :: c.ok(a) ==> g(f(a)) == a
    ensures Lawful(Map(c, f, g))
  {
    var m := Map(c, f, g);
    forall b, rest ensures RoundTrips(m, b, rest) {
      assert RoundTrips(c, g(b), rest);
    }
    forall s, bs, ext ensures Stable(m, s, bs, ext) {
      assert Stable(c, s, bs, ext);
    }
    forall s, bs ensures Sound(m, s, bs) {
      assert Sound(c, s, bs);
    }
    forall bs ensures Exact(m, bs) && Lenient(m, bs) {
      assert Exact(c, bs) && Lenient(c, bs) && Sound(c, true, bs);
    }
  }

  // ----- a counted run of elements

  function ManyParse<A>(c: Codec<A>, n: nat, strict: bool, bs: Str): Option<(seq<A>, Str)> {
    if n == 0 then Some(([], bs))
    else
      var (a, rest) :- c.parse(strict, bs);
      var (more, end) :- ManyParse(c, n - 1, strict, rest);
      Some(([a] + more, end))
  }

  function ShowAll<A>(show: A -> Str, xs: seq<A>): Str {
    if xs == [] then [] else show(xs[0]) + ShowAll(show, xs[1..])
  }

  function Many<A>(c: Codec<A>, n: nat): Codec<seq<A>> {
    Codec((s: bool, bs: Str) => ManyParse(c, n, s, bs),
          (xs: seq<A>) => ShowAll(c.show, xs),
          (xs: seq<A>) => |xs| == n && forall i :: 0 <= i < |xs| ==> c.ok(xs[i]))
  }

  lemma {:induction false} ManyRoundTrips<A(!new)>(c: Codec<A>, n: nat, xs: seq<A>, rest: Str)
    requires Lawful(c)
    ensures RoundTrips(Many(c, n), xs, rest)
    decreases n
  {
    if n > 0 && Many(c, n).ok(xs) {
      assert RoundTrips(c, xs[0], ShowAll(c.show, xs[1..]) + rest);
      ManyRoundTrips(c, n - 1, xs[1..], rest);
      assert Many(c, n - 1).ok(xs[1..]);
      assert ManyParse(c, n - 1, true, ShowAll(c.show, xs[1..]) + rest)
          == Many(c, n - 1).parse(true, Many(c, n - 1).show(xs[1..]) + rest);
      assert ShowAll(c.show, xs) + rest == c.show(xs[0]) + (ShowAll(c.show, xs[1..]) + rest);
      assert [xs[0]] + xs[1..] == xs;
    } else {
      assert [] + rest == rest;
    }
  }

  lemma {:induction false} ManyStable<A(!new)>(c: Codec<A>, n: nat, s: bool, bs: Str, ext: Str)
    requires Lawful(c)
    ensures Stable(Many(c, n), s, bs, ext) && Sound(Many(c, n), s, bs)
    decreases n
  {
    if n > 0 && c.parse(s, bs).Some? {
      var (a, rest) := c.parse(s, bs).value;
      assert Stable(c, s, bs, ext) && Sound(c, s, bs);
      ManyStable(c, n - 1, s, rest, ext);
      assert Many(c, n - 1).parse(s, rest) == ManyParse(c, n - 1, s, rest);
      assert Many(c, n - 1).parse(s, rest + ext) == ManyParse(c, n - 1, s, rest + ext);
    }
  }

  lemma {:induction false} ManyExact<A(!new)>(c: Codec<A>, n: nat, bs: Str)
    requires Lawful(c)
    ensures Exact(Many(c, n), bs) && Lenient(Many(c, n), bs)
    decreases n
  {
    if n > 0 && c.parse(true, bs).Some? {
      var (a, rest) := c.parse(true, bs).value;
      assert Exact(c, bs) && Lenient(c, bs);
      ManyExact(c, n - 1, rest);
      assert Many(c, n - 1).parse(true, rest) == ManyParse(c, n - 1, true, rest);
      assert Many(c, n - 1).parse(false, rest) == ManyParse(c, n - 1, false, rest);
      if ManyParse(c, n - 1, true, rest).Some? {
        var (more, end) := ManyParse(c, n - 1, true, rest).value;
        assert ([a] + more)[1..] == more;
        assert c.show(a) + (ShowAll(c.show, more) + end) == c.show(a) + ShowAll(c.show, more) + end;
      }
    }
  }

  lemma {:induction false} ManyLawful<A(!new)>(c: Codec<A>, n: nat)
    requires Lawful(c)
    ensures Lawful(Many(c, n))
  {
    forall xs, rest ensures RoundTrips(Many(c, n), xs, rest) {
      ManyRoundTrips(c, n, xs, rest);
    }
    forall s, bs, ext ensures Stable(Many(c, n), s, bs, ext) {
      ManyStable(c, n, s, bs, ext);
    }
    forall s, bs ensures Sound(Many(c, n), s, bs) {
      ManyStable(c, n, s, bs, []);
    }
    forall bs ensures Exact(Many(c, n), bs) && Lenient(Many(c, n), bs) {
      ManyExact(c, n, bs);
    }
  }

  // ----- how many bytes a value takes at least

  /** A value of weight w takes at least 4 * w bytes. */
  predicate Weighs<T>(c: Codec<T>, w: T -> nat, strict: bool, bs: Str) {
    c.parse(strict, bs).Some? ==> |c.parse(strict, bs).value.1| + 4 * w(c.parse(strict, bs).value.0) <= |bs|
  }

  ghost predicate Heavy<T(!new)>(c: Codec<T>, w: T -> nat) {
    forall s, bs {:trigger Weighs(c, w, s, bs)} :: Weighs(c, w, s, bs)
  }

  function Total<T>(w: T -> nat, xs: seq<T>): nat {
    if xs == [] then 0 else w(xs[0]) + Total(w, xs[1..])
  }

  lemma {:induction false} ManyWeighs<A(!new)>(c: Codec<A>, w: A -> nat, n: nat, s: bool, bs: Str)
    requires Heavy(c, w) && ManyParse(c, n, s, bs).Some?
    ensures |ManyParse(c, n, s, bs).value.1| + 4 * Total(w, ManyParse(c, n, s, bs).value.0) <= |bs|
    decreases n
  {
    if n > 0 {
      var (a, rest) := c.parse(s, bs).value;
      assert Weighs(c, w, s, bs);
      ManyWeighs(c, w, n - 1, s, rest);
      var more := ManyParse(c, n - 1, s, rest).value.0;
      assert ([a] + more)[1..] == more;
    }
  }

  function AddWeights<A, B>(w: A -> nat, v: B -> nat): ((A, B)) -> nat {
    (p: (A, B)) => SumOfWeights(w, v, p)
  }

  function SumOfWeights<A, B>(w: A -> nat, v: B -> nat, p: (A, B)): nat {
    w(p.0) + v(p.1)
  }

  function TotalWeight<A>(w: A -> nat): seq<A> -> nat {
    (xs: seq<A>) => Total(w, xs)
  }

  lemma {:induction false} ManyHeavy<A(!new)>(c: Codec<A>, w: A -> nat, n: nat)
    requires Heavy(c, w)
    ensures Heavy(Many(c, n), TotalWeight(w))
  {
    forall s, bs ensures Weighs(Many(c, n), TotalWeight(w), s, bs) {
      if ManyParse(c, n, s, bs).Some? {
        ManyWeighs(c, w, n, s, bs);
      }
    }
  }

  lemma {:induction false} PairHeavy<A(!new), B(!new)>(c: Codec<A>, w: A -> nat, d: Codec<B>, v: B -> nat)
    requires Heavy(c, w) && Heavy(d, v)
    ensures Heavy(Pair(c, d), AddWeights(w, v))
  {
    ThenHeavy(c, w, (a: A) => d, v);
  }

  lemma {:induction false} ThenHeavy<A(!new), B(!new)>(c: Codec<A>, w: A -> nat, f: A -> Codec<B>, v: B -> nat)
    requires Heavy(c, w) && forall a {:trigger f(a)} :: Heavy(f(a), v)
    ensures Heavy(Then(c, f), AddWeights(w, v))
  {
    forall s, bs ensures Weighs(Then(c, f), AddWeights(w, v), s, bs) {
      assert Weighs(c, w, s, bs);
      if c.parse(s, bs).Some? {
        assert Weighs(f(c.parse(s, bs).value.0), v, s, c.parse(s, bs).value.1);
      }
    }
  }

  lemma {:induction false} MapHeavy<A(!new), B(!new)>(c: Codec<A>, w: A -> nat, f: A -> B, g: B -> A, v: B -> nat)
    requires Heavy(c, w) && forall a {:trigger f(a)} :: v(f(a)) <= w(a)
    ensures Heavy(Map(c, f, g), v)
  {
    forall s, bs ensures Weighs(Map(c, f, g), v, s, bs) {
      assert Weighs(c, w, s, bs);
    }
  }

  lemma {:induction false} GuardHeavy<A(!new)>(c: Codec<A>, w: A -> nat, p: A -> bool)
    requires Heavy(c, w)
    ensures Heavy(Guard(c, p), w)
  {
    forall s, bs ensures Weighs(Guard(c, p), w, s, bs) {
      assert Weighs(c, w, s, bs);
    }
  }

  lemma {:induction false} ShowAllSnoc<A>(show: A -> Str, xs: seq<A>, x: A)
    ensures ShowAll(show, xs + [x]) == ShowAll(show, xs) + show(x)
  {
    if xs == [] {
      assert [x][1..] == [];
      assert [] + [x] == [x];
      assert show(x) + [] == [] + show(x);
    } else {
      assert (xs + [x])[1..] == xs[1..] + [x];
      ShowAllSnoc(show, xs[1..], x);
      assert show(xs[0]) + ShowAll(show, xs[1..]) + show(x) == show(xs[0]) + (ShowAll(show, xs[1..]) + show(x));
    }
  }
}
