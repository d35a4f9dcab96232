/** What it means that a sequence of reads follows a codec. */
module WireSteps {
  import opened Bytes
  import opened Codec
  import opened PolicyIr
  import opened Wire

  /** A read that follows the codec: the same value, the same rest, or no value. */
  ghost predicate Took<T>(c: Codec<T>, before: Str, r: Option<T>, after: Str) {
    match c.parse(false, before)
    case None => r.None?
    case Some((x, rest)) => r == Some(x) && after == rest
  }

  /** A run of n elements of which the first |done| have been read. */
  ghost predicate Resumes<T>(c: Codec<T>, n: nat, start: Str, done: seq<T>, left: nat, rest: Str) {
    match ManyParse(c, left, false, rest)
    case None => ManyParse(c, n, false, start).None?
    case Some((more, end)) => ManyParse(c, n, false, start) == Some((done + more, end))
  }

  lemma {:induction false} ResumeStart<T>(c: Codec<T>, n: nat, start: Str)
    ensures Resumes(c, n, start, [], n, start)
  {
    if ManyParse(c, n, false, start).Some? {
      assert [] + ManyParse(c, n, false, start).value.0 == ManyParse(c, n, false, start).value.0;
    }
  }

  lemma {:induction false} ResumeNext<T>(c: Codec<T>, n: nat, start: Str, done: seq<T>, left: nat, rest: Str)
    requires Resumes(c, n, start, done, left, rest) && left > 0
    ensures c.parse(false, rest).None? ==> ManyParse(c, n, false, start).None?
    ensures c.parse(false, rest).Some? ==>
      Resumes(c, n, start, done + [c.parse(false, rest).value.0], left - 1, c.parse(false, rest).value.1)
  {
    if c.parse(false, rest).Some? {
      var (x, after) := c.parse(false, rest).value;
      var tail := ManyParse(c, left - 1, false, after);
      if tail.Some? {
        assert done + [x] + tail.value.0 == done + ([x] + tail.value.0);
      }
    }
  }

  lemma {:induction false} ResumeEnd<T>(c: Codec<T>, n: nat, start: Str, done: seq<T>, rest: Str)
    requires Resumes(c, n, start, done, 0, rest)
    ensures Took(Many(c, n), start, Some(done), rest)
  {
    assert done + [] == done;
  }

  lemma {:induction false} TookThen<A, B>(c: Codec<A>, f: A -> Codec<B>, s0: Str, a: A, s1: Str, b: Option<B>, s2: Str)
    requires Took(c, s0, Some(a), s1) && Took(f(a), s1, b, s2)
    ensures Took(Then(c, f), s0, if b.Some? then Some((a, b.value)) else None, s2)
  {
  }

  /** Two reads in a row follow the pair of their codecs. */
  lemma {:induction false} TookBoth<A, B>(c: Codec<A>, d: Codec<B>, s0: Str, a: A, s1: Str, b: Option<B>, s2: Str)
    requires Took(c, s0, Some(a), s1) && Took(d, s1, b, s2)
    ensures Took(Pair(c, d), s0, if b.Some? then Some((a, b.value)) else None, s2)
  {
    TookThen(c, (x: A) => d, s0, a, s1, b, s2);
  }

  lemma {:induction false} TookNeither<A, B>(c: Codec<A>, d: Codec<B>, s0: Str, s1: Str)
    requires Took(c, s0, None, s1)
    ensures Took(Pair(c, d), s0, None, s1)
  {
  }

  lemma {:induction false} TookMap<A, B>(c: Codec<A>, f: A -> B, g: B -> A, s0: Str, a: Option<A>, s1: Str)
    requires Took(c, s0, a, s1)
    ensures Took(Map(c, f, g), s0, if a.Some? then Some(f(a.value)) else None, s1)
  {
  }

  lemma {:induction false} ValueOfConcat(x: Str, y: Str)
    ensures Value(x + y) == Value(x) + Limit(|x|) * Value(y)
  {
    if x == [] {
      assert x + y == y;
    } else {
      assert (x + y)[1..] == x[1..] + y;
      ValueOfConcat(x[1..], y);
      MulAssoc(256, Limit(|x| - 1), Value(y));
    }
  }

  lemma {:induction false} MulAssoc(a: int, b: int, c: int)
    ensures a * (b * c) == (a * b) * c
  {
  }

  /** Eight little-endian bytes are a low word and a high word. */
  lemma {:induction false} LongIsTwoWords(bs: Str)
    ensures LONG.parse(false, bs) ==
      match WORD.parse(false, bs)
      case None => None
      case Some((low, rest)) =>
        match WORD.parse(false, rest)
        case None => None
        case Some((high, end)) => Some((high * TWO_32 + low, end))
  {
    if |bs| >= 8 {
      assert bs[..8] == bs[..4] + bs[4..8] && bs[4..][..4] == bs[4..8] && bs[4..][4..] == bs[8..];
      ValueOfConcat(bs[..4], bs[4..8]);
      Limits();
    }
  }

  lemma {:induction false} TookObject(s0: Str, head: ObjectHead, s1: Str, attach: Option<seq<Str>>, s2: Str)
    requires Took(OBJECT_HEAD, s0, Some(head), s1) && Took(Many(PATH, head.1.0), s1, attach, s2)
    ensures Took(OBJECT, s0, if attach.Some? then Some(ObjectOf((head, attach.value))) else None, s2)
  {
    TookThen(OBJECT_HEAD, AttachPaths, s0, head, s1, attach, s2);
    var both := if attach.Some? then Some((head, attach.value)) else None;
    TookMap(Then(OBJECT_HEAD, AttachPaths), ObjectOf, ObjectParts, s0, both, s2);
  }

  lemma {:induction false} TookNoObject(s0: Str, s1: Str)
    requires Took(OBJECT_HEAD, s0, None, s1)
    ensures Took(OBJECT, s0, None, s1)
  {
  }

  // ----- the header, number by number

  /** The 32-bit number at offset k. */
  function WordAt(bs: Str, k: nat): u32
    requires k + 4 <= |bs|
  {
    LeOfValue(bs[k..k + 4]);
    Limits();
    Value(bs[k..k + 4])
  }

  function WordsFrom(bs: Str, k: nat, n: nat): seq<u32>
    requires k + 4 * n <= |bs|
  {
    seq(n, i requires 0 <= i < n => WordAt(bs, k + 4 * i))
  }

  lemma {:induction false} WordsInARow(n: nat, bs: Str, k: nat)
    requires k <= |bs|
    ensures ManyParse(WORD, n, false, bs[k..])
         == if k + 4 * n <= |bs| then Some((WordsFrom(bs, k, n), bs[k + 4 * n..])) else None
    decreases n
  {
    if n == 0 {
      assert WordsFrom(bs, k, n) == [];
    } else if k + 4 <= |bs| {
      assert bs[k..][..4] == bs[k..k + 4] && bs[k..][4..] == bs[k + 4..];
      WordsInARow(n - 1, bs, k + 4);
      if k + 4 * n <= |bs| {
        assert WordsFrom(bs, k, n) == [WordAt(bs, k)] + WordsFrom(bs, k + 4, n - 1);
      }
    }
  }

  lemma {:induction false} ElevenWords(bs: Str, k: nat)
    requires k + 44 <= |bs|
    ensures WordsFrom(bs, k, 11)
         == [WordAt(bs, k), WordAt(bs, k + 4), WordAt(bs, k + 8), WordAt(bs, k + 12), WordAt(bs, k + 16), WordAt(bs, k + 20),
             WordAt(bs, k + 24), WordAt(bs, k + 28), WordAt(bs, k + 32), WordAt(bs, k + 36), WordAt(bs, k + 40)]
  {
  }

  lemma {:induction false} FiveWords(bs: Str, k: nat)
    requires k + 20 <= |bs|
    ensures WordsFrom(bs, k, 5)
         == [WordAt(bs, k), WordAt(bs, k + 4), WordAt(bs, k + 8), WordAt(bs, k + 12), WordAt(bs, k + 16)]
  {
  }

  /** The header fields by their offsets. */
  function HeaderAtStart(bs: Str): Header
    requires 92 <= |bs|
  {
    Header(WordAt(bs, 0), WordAt(bs, 4), WordAt(bs, 8), WordAt(bs, 12),
           WordAt(bs, 20) * TWO_32 + WordAt(bs, 16), WordAt(bs, 24),
           WordAt(bs, 28), WordAt(bs, 32), WordAt(bs, 36), WordAt(bs, 40), WordAt(bs, 44), WordAt(bs, 48), WordAt(bs, 52),
           WordAt(bs, 56), WordAt(bs, 60), WordAt(bs, 64), WordAt(bs, 68), WordAt(bs, 72), WordAt(bs, 76),
           WordAt(bs, 80), WordAt(bs, 84), WordAt(bs, 88))
  }

  lemma {:induction false} HeaderFields(bs: Str)
    requires 92 <= |bs|
    ensures HeaderOf(WordsFrom(bs, 0, HEADER_WORDS)) == HeaderAtStart(bs)
  {
  }

  lemma {:induction false} LongAt(bs: Str, k: nat)
    requires k + 8 <= |bs|
    ensures LONG.parse(false, bs[k..]) == Some((WordAt(bs, k + 4) * TWO_32 + WordAt(bs, k), bs[k + 8..]))
  {
    LongIsTwoWords(bs[k..]);
    assert bs[k..][..4] == bs[k..k + 4] && bs[k..][4..] == bs[k + 4..];
    assert bs[k + 4..][..4] == bs[k + 4..k + 8] && bs[k + 4..][4..] == bs[k + 8..];
  }

  lemma {:induction false} HeaderAt(bs: Str)
    ensures HEADER.parse(false, bs) == if 92 <= |bs| then Some((HeaderAtStart(bs), bs[92..])) else None
  {
    assert bs[0..] == bs;
    WordsInARow(HEADER_WORDS, bs, 0);
    if 92 <= |bs| {
      HeaderFields(bs);
    }
  }

  // ----- the body, part by part

  ghost predicate TookBody(c: Codec<Sections>, m: nat, n: nat, d: Codec<seq<u32>>, before: Str, r: Option<Body>, after: Str) {
    match BodyParse(c, m, n, d, false, before)
    case None => r.None?
    case Some((b, rest)) => r == Some(b) && after == rest
  }

  lemma {:induction false} BodyWithoutSections(c: Codec<Sections>, m: nat, n: nat, d: Codec<seq<u32>>, s0: Str, s1: Str)
    requires Took(c, s0, None, s1)
    ensures TookBody(c, m, n, d, s0, None, s1)
  {
  }

  lemma {:induction false} BodyWithoutRoot(c: Codec<Sections>, m: nat, n: nat, d: Codec<seq<u32>>,
                                           s0: Str, sections: Sections, s1: Str, s2: Str)
    requires Took(c, s0, Some(sections), s1) && TailParse(m, false, s1).None?
    ensures TookBody(c, m, n, d, s0, None, s2)
  {
  }

  lemma {:induction false} BodyWithoutCwd(c: Codec<Sections>, m: nat, n: nat, d: Codec<seq<u32>>,
                                          s0: Str, sections: Sections, s1: Str, root: Option<Str>, s2: Str, s3: Str)
    requires Took(c, s0, Some(sections), s1) && TailParse(m, false, s1) == Some((root, s2))
    requires TailParse(n, false, s2).None?
    ensures TookBody(c, m, n, d, s0, None, s3)
  {
  }

  lemma {:induction false} BodyWithDenies(c: Codec<Sections>, m: nat, n: nat, d: Codec<seq<u32>>,
                                          s0: Str, sections: Sections, s1: Str, root: Option<Str>, s2: Str,
                                          cwd: Option<Str>, s3: Str, deny: Option<seq<u32>>, s4: Str)
    requires Took(c, s0, Some(sections), s1) && TailParse(m, false, s1) == Some((root, s2))
    requires TailParse(n, false, s2) == Some((cwd, s3)) && Took(d, s3, deny, s4)
    ensures TookBody(c, m, n, d, s0, if deny.Some? then Some(((sections, (root, cwd)), deny.value)) else None, s4)
  {
  }

  lemma {:induction false} DecodeWithoutHeader(f: Format, bs: Str, s1: Str)
    requires Took(f.header, bs, None, s1)
    ensures DecodeAs(f, false, bs) == None
  {
  }

  lemma {:induction false} DecodeUnsupported(f: Format, bs: Str, h: Header, s1: Str)
    requires Took(f.header, bs, Some(h), s1) && !Supported(h)
    ensures DecodeAs(f, false, bs) == None
  {
  }

  lemma {:induction false} DecodeWithBody(f: Format, bs: Str, h: Header, s1: Str, body: Option<Body>, s2: Str)
    requires Took(f.header, bs, Some(h), s1) && Supported(h)
    requires TookBody(f.sections(h), h.rootLen, h.cwdLen, f.denies(h), s1, body, s2)
    ensures DecodeAs(f, false, bs) == if body.Some? && s2 == [] then Some(Assemble(h, body.value)) else None
  {
  }
}
