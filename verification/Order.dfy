/** Comparison functions in the style of qsort, and the uniqueness of sorted
    permutations. */
module Order {

  type Cmp<!T> = (T, T) -> int

  /** Compare by a key. */
  function On<T, K>(key: T -> K, c: Cmp<K>): Cmp<T> {
    (a: T, b: T) => c(key(a), key(b))
  }

  function LexAt<T>(c: Cmp<T>, d: Cmp<T>, a: T, b: T): int {
    if c(a, b) != 0 then c(a, b) else d(a, b)
  }

  /** Compare by c, and by d where c sees no difference. */
  function Lex<T>(c: Cmp<T>, d: Cmp<T>): Cmp<T> {
    (a: T, b: T) => LexAt(c, d, a, b)
  }

  /** (a > b) - (a < b). */
  function IntCmp(a: int, b: int): int {
    (if a > b then 1 else 0) - (if a < b then 1 else 0)
  }

  /** Element by element; a proper prefix comes first. */
  function SeqCmp<T>(c: Cmp<T>, a: seq<T>, b: seq<T>): int {
    if a == [] then if b == [] then 0 else -1
    else if b == [] then 1
    else if c(a[0], b[0]) != 0 then c(a[0], b[0])
    else SeqCmp(c, a[1..], b[1..])
  }

  function Seqs<T>(c: Cmp<T>): Cmp<seq<T>> {
    (a: seq<T>, b: seq<T>) => SeqCmp(c, a, b)
  }

  // ----- laws

  predicate WeakAt<T>(c: Cmp<T>, x: T, y: T, z: T) {
    && c(x, x) == 0
    && (c(x, y) < 0 <==> c(y, x) > 0)
    && (c(x, y) <= 0 && c(y, z) <= 0 ==> c(x, z) <= 0)
  }

  /** A total preorder: what qsort asks of its comparison function. */
  ghost predicate Weak<T(!new)>(c: Cmp<T>) {
    forall x, y, z {:trigger WeakAt(c, x, y, z)} :: WeakAt(c, x, y, z)
  }

  predicate Separates<T(==)>(c: Cmp<T>, x: T, y: T) {
    c(x, y) == 0 ==> x == y
  }

  /** A total order: zero means equal. */
  ghost predicate Total<T(!new)>(c: Cmp<T>) {
    Weak(c) && forall x, y {:trigger Separates(c, x, y)} :: Separates(c, x, y)
  }

  lemma {:induction false} OnWeak<T(!new), K(!new)>(key: T -> K, c: Cmp<K>)
    requires Weak(c)
    ensures Weak(On(key, c))
  {
    forall x, y, z ensures WeakAt(On(key, c), x, y, z) {
      assert WeakAt(c, key(x), key(y), key(z));
    }
  }

  lemma {:induction false} LexWeak<T(!new)>(c: Cmp<T>, d: Cmp<T>)
    requires Weak(c) && Weak(d)
    ensures Weak(Lex(c, d))
  {
    forall x, y, z ensures WeakAt(Lex(c, d), x, y, z) {
      assert WeakAt(c, x, y, z) && WeakAt(d, x, y, z);
      assert WeakAt(c, y, z, x) && WeakAt(c, z, x, y) && WeakAt(c, y, x, z);
      assert WeakAt(c, x, z, y) && WeakAt(c, z, y, x);
    }
  }

  lemma {:induction false} IntTotal()
    ensures Total(IntCmp)
  {
    forall x, y, z ensures WeakAt(IntCmp, x, y, z) {
    }
    forall x, y ensures Separates(IntCmp, x, y) {
    }
  }

  lemma {:induction false} SeqWeakAt<T(!new)>(c: Cmp<T>, x: seq<T>, y: seq<T>, z: seq<T>)
    requires Total(c)
    ensures WeakAt(Seqs(c), x, y, z) && Separates(Seqs(c), x, y)
  {
    if x != [] {
      SeqSelf(c, x);
    }
    if x != [] && y != [] {
      assert WeakAt(c, x[0], y[0], x[0]) && Separates(c, x[0], y[0]);
      assert WeakAt(c, y[0], x[0], y[0]) && Separates(c, y[0], x[0]);
      var z' := if z != [] then z[1..] else z;
      SeqWeakAt(c, x[1..], y[1..], z');
      assert SeqCmp(c, x[1..], y[1..]) == Seqs(c)(x[1..], y[1..]);
      assert SeqCmp(c, y[1..], x[1..]) == Seqs(c)(y[1..], x[1..]);
      if z != [] {
        assert WeakAt(c, x[0], y[0], z[0]) && WeakAt(c, y[0], z[0], x[0]);
        assert Separates(c, x[0], z[0]) && Separates(c, y[0], z[0]);
        assert WeakAt(c, x[0], z[0], y[0]) && WeakAt(c, z[0], x[0], y[0]);
        assert SeqCmp(c, y[1..], z[1..]) == Seqs(c)(y[1..], z[1..]);
        assert SeqCmp(c, x[1..], z[1..]) == Seqs(c)(x[1..], z[1..]);
      }
      assert x == [x[0]] + x[1..] && y == [y[0]] + y[1..];
    }
  }

  lemma {:induction false} SeqSelf<T(!new)>(c: Cmp<T>, x: seq<T>)
    requires Weak(c)
    ensures SeqCmp(c, x, x) == 0
  {
    if x != [] {
      assert WeakAt(c, x[0], x[0], x[0]);
      SeqSelf(c, x[1..]);
    }
  }

  lemma {:induction false} SeqTotal<T(!new)>(c: Cmp<T>)
    requires Total(c)
    ensures Total(Seqs(c))
  {
    forall x, y, z ensures WeakAt(Seqs(c), x, y, z) {
      SeqWeakAt(c, x, y, z);
    }
    forall x, y ensures Separates(Seqs(c), x, y) {
      SeqWeakAt(c, x, y, y);
    }
  }

  // ----- sorting

  ghost predicate Sorted<T>(c: Cmp<T>, xs: seq<T>) {
    forall i, j :: 0 <= i < j < |xs| ==> c(xs[i], xs[j]) <= 0
  }

  function Insert<T>(c: Cmp<T>, x: T, xs: seq<T>): seq<T> {
    if xs == [] then [x]
    else if c(x, xs[0]) <= 0 then [x] + xs
    else [xs[0]] + Insert(c, x, xs[1..])
  }

  /** A sorted permutation of the elements. */
  function Sort<T>(c: Cmp<T>, xs: seq<T>): seq<T> {
    if xs == [] then [] else Insert(c, xs[|xs| - 1], Sort(c, xs[..|xs| - 1]))
  }

  lemma {:induction false} InsertSorts<T(!new)>(c: Cmp<T>, x: T, xs: seq<T>)
    requires Weak(c) && Sorted(c, xs)
    ensures multiset(Insert(c, x, xs)) == multiset(xs) + multiset{x}
    ensures Sorted(c, Insert(c, x, xs))
  {
    if xs != [] {
      assert xs == [xs[0]] + xs[1..];
      if c(x, xs[0]) <= 0 {
        forall j | 0 <= j < |xs| ensures c(x, xs[j]) <= 0 {
          assert WeakAt(c, x, xs[0], xs[j]);
          assert WeakAt(c, xs[0], xs[0], xs[0]);
        }
      } else {
        InsertSorts(c, x, xs[1..]);
        var rest := Insert(c, x, xs[1..]);
        forall j | 0 <= j < |rest| ensures c(xs[0], rest[j]) <= 0 {
          assert rest[j] in multiset(rest);
          assert WeakAt(c, x, xs[0], x);
          if rest[j] != x {
            assert rest[j] in xs[1..];
          }
        }
      }
    }
  }

  lemma {:induction false} SortSorts<T(!new)>(c: Cmp<T>, xs: seq<T>)
    requires Weak(c)
    ensures Sorted(c, Sort(c, xs)) && multiset(Sort(c, xs)) == multiset(xs)
  {
    if xs != [] {
      var n := |xs| - 1;
      SortSorts(c, xs[..n]);
      InsertSorts(c, xs[n], Sort(c, xs[..n]));
      assert xs == xs[..n] + [xs[n]];
    }
  }

  /** Two sorted lists with the same elements are the same list. */
  lemma {:induction false} SortedIsUnique<T(!new)>(c: Cmp<T>, xs: seq<T>, ys: seq<T>)
    requires Total(c) && Sorted(c, xs) && Sorted(c, ys) && multiset(xs) == multiset(ys)
    ensures xs == ys
  {
    assert |xs| == |multiset(xs)| == |multiset(ys)| == |ys|;
    if xs != [] {
      HeadIsLeast(c, xs, ys);
      HeadIsLeast(c, ys, xs);
      assert WeakAt(c, xs[0], ys[0], xs[0]) && Separates(c, xs[0], ys[0]);
      assert xs == [xs[0]] + xs[1..] && ys == [ys[0]] + ys[1..];
      assert multiset(xs[1..]) == multiset(xs) - multiset{xs[0]} == multiset(ys[1..]);
      SortedIsUnique(c, xs[1..], ys[1..]);
    }
  }

  lemma {:induction false} HeadIsLeast<T(!new)>(c: Cmp<T>, xs: seq<T>, ys: seq<T>)
    requires Weak(c) && Sorted(c, xs) && multiset(xs) == multiset(ys) && xs != [] && ys != []
    ensures c(xs[0], ys[0]) <= 0
  {
    assert ys[0] in multiset(xs);
    assert WeakAt(c, xs[0], xs[0], xs[0]);
  }

  /** Sorting forgets the order of its input. */
  lemma {:induction false} SortIsCanonical<T(!new)>(c: Cmp<T>, xs: seq<T>, ys: seq<T>)
    requires Total(c) && multiset(xs) == multiset(ys)
    ensures Sort(c, xs) == Sort(c, ys)
  {
    SortSorts(c, xs);
    SortSorts(c, ys);
    SortedIsUnique(c, Sort(c, xs), Sort(c, ys));
  }

  // ----- rebuilding elements below the sort

  function Map<A, B>(f: A -> B, xs: seq<A>): seq<B> {
    seq(|xs|, i requires 0 <= i < |xs| => f(xs[i]))
  }

  lemma {:induction false} MapRemove<A, B>(f: A -> B, xs: seq<A>, j: nat)
    requires j < |xs|
    ensures multiset(Map(f, xs)) == multiset(Map(f, xs[..j] + xs[j + 1..])) + multiset{f(xs[j])}
  {
    assert Map(f, xs) == Map(f, xs[..j]) + [f(xs[j])] + Map(f, xs[j + 1..]);
    assert Map(f, xs[..j] + xs[j + 1..]) == Map(f, xs[..j]) + Map(f, xs[j + 1..]);
  }

  lemma {:induction false} CancelOne<K>(a: multiset<K>, b: multiset<K>, k: K)
    requires a + multiset{k} == b + multiset{k}
    ensures a == b
  {
    assert a == (a + multiset{k}) - multiset{k};
    assert b == (b + multiset{k}) - multiset{k};
  }

  lemma {:induction false} SameKeyAt<A, K>(key: A -> K, xs: seq<A>, ys: seq<A>) returns (j: nat)
    requires multiset(Map(key, xs)) == multiset(Map(key, ys)) && xs != []
    ensures j < |ys| && key(ys[j]) == key(xs[0])
    ensures multiset(Map(key, xs[1..])) == multiset(Map(key, ys[..j] + ys[j + 1..]))
  {
    assert Map(key, xs)[0] in multiset(Map(key, ys));
    j :| 0 <= j < |ys| && Map(key, ys)[j] == Map(key, xs)[0];
    MapRemove(key, xs, 0);
    MapRemove(key, ys, j);
    assert xs[..0] + xs[1..] == xs[1..];
    CancelOne(multiset(Map(key, xs[1..])), multiset(Map(key, ys[..j] + ys[j + 1..])), key(xs[0]));
  }

  /** If g sees no more than key does, equal key collections give equal g collections. */
  lemma {:induction false} MapThroughKey<A, K, B>(key: A -> K, g: A -> B, xs: seq<A>, ys: seq<A>)
    requires forall x, y :: x in xs && y in ys && key(x) == key(y) ==> g(x) == g(y)
    requires multiset(Map(key, xs)) == multiset(Map(key, ys))
    ensures multiset(Map(g, xs)) == multiset(Map(g, ys))
  {
    if xs == [] {
      assert |Map(key, ys)| == |multiset(Map(key, ys))| == |multiset(Map(key, xs))| == 0;
      assert Map(g, xs) == [] == Map(g, ys);
    } else {
      var j := SameKeyAt(key, xs, ys);
      var rest := ys[..j] + ys[j + 1..];
      forall x, y | x in xs[1..] && y in rest && key(x) == key(y) ensures g(x) == g(y) {
        assert x in xs && y in ys;
      }
      MapThroughKey(key, g, xs[1..], rest);
      assert xs[0] in xs && ys[j] in ys;
      MapRestore(g, xs, ys, j);
    }
  }

  lemma {:induction false} MapRestore<A, B>(g: A -> B, xs: seq<A>, ys: seq<A>, j: nat)
    requires xs != [] && j < |ys| && g(xs[0]) == g(ys[j])
    requires multiset(Map(g, xs[1..])) == multiset(Map(g, ys[..j] + ys[j + 1..]))
    ensures multiset(Map(g, xs)) == multiset(Map(g, ys))
  {
    MapRemove(g, xs, 0);
    assert xs[..0] + xs[1..] == xs[1..];
    MapRemove(g, ys, j);
  }
}
