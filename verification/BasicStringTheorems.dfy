/** The spellings of a basic string: what each stands for, that the parser reads
    exactly these, and that every byte string has one. */
module BasicStringTheorems {
  import opened Bytes
  import opened Utf8
  import opened BasicString

  /** A piece of a source: a byte as it is, a backslash with a letter, an escape with
      four or eight digits, or a folded line end, which is a backslash, blanks, a
      newline and more white space. */
  datatype Piece = Raw(b: byte) | Letter(c: byte) | Short(code: nat) | Long(code: nat) | Fold(blanks: Str, rest: Str)

  /** Byte numbers: 9 is a tab, 10 a newline, 13 a carriage return, 32 a blank, 92 a
      backslash, 127 a delete. */
  predicate RawByte(b: int, multiline: bool) {
    b != 92 && b != 127 && (b >= 32 || b == 9 || (multiline && (b == 10 || b == 13)))
  }

  predicate Blanks(s: Str) {
    forall i :: 0 <= i < |s| ==> s[i] as int == 32 || s[i] as int == 9 || s[i] as int == 13
  }

  predicate White(b: byte) {
    b as int == 32 || b as int == 9 || b as int == 10 || b as int == 13
  }

  predicate AllWhite(s: Str) {
    forall i :: 0 <= i < |s| ==> White(s[i])
  }

  /** The byte that a backslash and the letter stand for. */
  function LetterByte(c: byte): Option<int> {
    match c
    case 'b' => Some(8)
    case 't' => Some(9)
    case 'n' => Some(10)
    case 'f' => Some(12)
    case 'r' => Some(13)
    case '"' => Some(34)
    case '\\' => Some(92)
    case _ => None
  }

  predicate Spellable(p: Piece, multiline: bool) {
    match p
    case Raw(b) => RawByte(b as int, multiline)
    case Letter(c) => LetterByte(c).Some?
    case Short(code) => code < 0x1_0000 && Encodable(code)
    case Long(code) => Encodable(code)
    case Fold(blanks, rest) => multiline && Blanks(blanks) && AllWhite(rest)
  }

  function HexDigit(v: nat): byte
    requires v < 16
  {
    if v < 10 then (v + '0' as nat) as char else (v - 10 + 'A' as nat) as char
  }

  function HexDigits(v: nat, count: nat): (s: Str)
    ensures |s| == count
  {
    if count == 0 then [] else HexDigits(v / 16, count - 1) + [HexDigit(v % 16)]
  }

  function Spelling(p: Piece): (s: Str)
    ensures s != []
  {
    match p
    case Raw(b) => [b]
    case Letter(c) => ['\\', c]
    case Short(code) => ['\\', 'u'] + HexDigits(code, 4)
    case Long(code) => ['\\', 'U'] + HexDigits(code, 8)
    case Fold(blanks, rest) => ['\\'] + blanks + ['\n'] + rest
  }

  function Meaning(p: Piece, multiline: bool): Str
    requires Spellable(p, multiline)
  {
    match p
    case Raw(b) => [b]
    case Letter(c) => [LetterByte(c).value as char]
    case Short(code) => Octets(code)
    case Long(code) => Octets(code)
    case Fold(_, _) => []
  }

  function SpellAll(ps: seq<Piece>): Str {
    if ps == [] then [] else Spelling(ps[0]) + SpellAll(ps[1..])
  }

  /** Every piece is allowed, and no white space follows a folded line end, which
      would have taken it in. */
  predicate WellSpelled(ps: seq<Piece>, multiline: bool) {
    ps != [] ==>
      && Spellable(ps[0], multiline) && WellSpelled(ps[1..], multiline)
      && (ps[0].Fold? && |ps| > 1 ==> !White(Spelling(ps[1])[0]))
  }

  function MeaningAll(ps: seq<Piece>, multiline: bool): Str
    requires WellSpelled(ps, multiline)
  {
    if ps == [] then [] else Meaning(ps[0], multiline) + MeaningAll(ps[1..], multiline)
  }

  /** What count digits leave of v. */
  function Above(v: nat, count: nat): nat {
    if count == 0 then v else Above(v / 16, count - 1)
  }

  lemma {:induction false} EightDigitsSuffice(v: nat)
    requires v < TWO_32
    ensures Above(v, 8) == 0
  {
    var a := v / 16 / 16 / 16 / 16;
    assert a < 0x1_0000;
    assert Above(v, 8) == Above(v / 16, 7) == Above(v / 16 / 16, 6) == Above(v / 16 / 16 / 16, 5) == Above(a, 4);
    assert Above(a, 4) == Above(a / 16, 3) == Above(a / 16 / 16, 2) == Above(a / 16 / 16 / 16, 1) == Above(a / 16 / 16 / 16 / 16, 0);
  }

  lemma {:induction false} DigitsAreRead(src: Str, n: nat, i: nat, v: nat, count: nat)
    requires i + count <= n <= |src| && src[i..i + count] == HexDigits(v, count) && Above(v, count) == 0
    ensures HexNumber(src, n, i, count) == Some(v)
    decreases count
  {
    if count > 0 {
      assert src[i..i + count - 1] == src[i..i + count][..count - 1];
      DigitsAreRead(src, n, i, v / 16, count - 1);
      assert src[i + count - 1] == src[i..i + count][count - 1] == HexDigit(v % 16);
    }
  }

  lemma {:induction false} FourDigitsSuffice(v: nat)
    requires v < 0x1_0000
    ensures Above(v, 4) == 0
  {
    assert Above(v, 4) == Above(v / 16, 3) == Above(v / 16 / 16, 2) == Above(v / 16 / 16 / 16, 1)
        == Above(v / 16 / 16 / 16 / 16, 0);
  }

  // ----- every spelling is read

  lemma {:induction false} SkipsTo(src: Str, i: nat, j: nat, chars: string)
    requires i <= j < |src| && src[j] !in chars && forall k :: i <= k < j ==> src[k] in chars
    ensures SkipOver(src, i, chars) == j
    decreases j - i
  {
    if i < j {
      SkipsTo(src, i + 1, j, chars);
    }
  }

  lemma {:induction false} NoLineEnd(src: Str, i: nat)
    requires i < |src| && src[i] !in " \t\r" && src[i] != '\n'
    ensures !EndsLine(src, i)
  {
  }

  lemma {:induction false} DigitsStep(src: Str, n: nat, multiline: bool, i: nat, u: byte, code: nat)
    requires Closed(src, n) && Encodable(code) && u in "uU"
    requires var count := if u == 'u' then 4 else 8;
      && i + 2 + count <= n && src[i..i + 2 + count] == ['\\', u] + HexDigits(code, count) && Above(code, count) == 0
    ensures OneStep(src, n, multiline, i) == Good(Octets(code), i + 2 + if u == 'u' then 4 else 8)
  {
    var count := if u == 'u' then 4 else 8;
    var s := src[i..i + 2 + count];
    assert src[i] == s[0] && src[i + 1] == s[1];
    assert src[i + 2..i + 2 + count] == s[2..] == HexDigits(code, count);
    DigitsAreRead(src, n, i + 2, code, count);
    NoLineEnd(src, i + 1);
  }

  lemma {:induction false} FoldStep(src: Str, n: nat, i: nat, p: Piece)
    requires Closed(src, n) && p.Fold? && Spellable(p, true)
    requires i + |Spelling(p)| <= n && src[i..i + |Spelling(p)|] == Spelling(p) && !White(src[i + |Spelling(p)|])
    ensures OneStep(src, n, true, i) == Good([], i + |Spelling(p)|)
  {
    var s, j, next := Spelling(p), i + 1 + |p.blanks|, i + |Spelling(p)|;
    assert forall k :: 0 <= k < |s| ==> src[i + k] == s[k];
    assert src[i] == s[0] && src[j] == s[1 + |p.blanks|] == '\n';
    forall k | i + 1 <= k < j ensures src[k] in " \t\r" {
      assert src[k] == s[k - i] == p.blanks[k - i - 1];
    }
    SkipsTo(src, i + 1, j, " \t\r");
    forall k | i + 1 <= k < next ensures src[k] in " \t\r\n" {
      assert src[k] == s[k - i];
      assert k > j ==> s[k - i] == p.rest[k - j - 1];
    }
    SkipsTo(src, i + 1, next, " \t\r\n");
  }

  lemma {:induction false} PieceIsRead(src: Str, n: nat, multiline: bool, i: nat, p: Piece)
    requires Closed(src, n) && Spellable(p, multiline) && i + |Spelling(p)| <= n && src[i..i + |Spelling(p)|] == Spelling(p)
    requires p.Fold? ==> !White(src[i + |Spelling(p)|])
    ensures OneStep(src, n, multiline, i) == Good(Meaning(p, multiline), i + |Spelling(p)|)
  {
    match p
    case Raw(_) => assert src[i] == src[i..i + 1][0];
    case Letter(_) =>
      var s := src[i..i + 2];
      assert src[i] == s[0] && src[i + 1] == s[1];
      NoLineEnd(src, i + 1);
    case Short(code) =>
      FourDigitsSuffice(code);
      DigitsStep(src, n, multiline, i, 'u', code);
    case Long(code) =>
      EightDigitsSuffice(code);
      DigitsStep(src, n, multiline, i, 'U', code);
    case Fold(_, _) => FoldStep(src, n, i, p);
  }

  lemma {:induction false} SliceSplits(src: Str, i: nat, n: nat, first: Str, rest: Str)
    requires i <= n <= |src| && src[i..n] == first + rest
    ensures i + |first| <= n && src[i..i + |first|] == first && src[i + |first|..n] == rest
  {
    assert src[i..n][..|first|] == first && src[i..n][|first|..] == rest;
  }

  lemma {:induction false} NextStarts(src: Str, i: nat, n: nat, rest: Str, second: Str, others: Str)
    requires i <= n <= |src| && src[i..n] == rest && rest == second + others && second != []
    ensures src[i] == second[0]
  {
    assert src[i] == src[i..n][0];
  }

  /** What stands after the first piece is not white space if it would be taken in. */
  lemma {:induction false} FoldStops(src: Str, n: nat, multiline: bool, i: nat, ps: seq<Piece>)
    requires Closed(src, n) && i <= n && ps != [] && WellSpelled(ps, multiline) && src[i..n] == SpellAll(ps[1..])
    ensures ps[0].Fold? ==> !White(src[i])
  {
    if |ps| > 1 {
      NextStarts(src, i, n, SpellAll(ps[1..]), Spelling(ps[1]), SpellAll(ps[1..][1..]));
    }
  }

  lemma {:induction false} FirstSplits(src: Str, n: nat, i: nat, ps: seq<Piece>) returns (next: nat)
    requires i <= n <= |src| && src[i..n] == SpellAll(ps) && ps != []
    ensures next == i + |Spelling(ps[0])| && i < next <= n
    ensures src[i..next] == Spelling(ps[0]) && src[next..n] == SpellAll(ps[1..])
  {
    next := i + |Spelling(ps[0])|;
    SliceSplits(src, i, n, Spelling(ps[0]), SpellAll(ps[1..]));
  }

  lemma {:induction false} FirstIsRead(src: Str, n: nat, multiline: bool, i: nat, ps: seq<Piece>) returns (next: nat)
    requires Closed(src, n) && i <= n && src[i..n] == SpellAll(ps) && WellSpelled(ps, multiline) && ps != []
    ensures i < next <= n && src[next..n] == SpellAll(ps[1..])
    ensures OneStep(src, n, multiline, i) == Good(Meaning(ps[0], multiline), next)
  {
    next := FirstSplits(src, n, i, ps);
    FoldStops(src, n, multiline, next, ps);
    PieceIsRead(src, n, multiline, i, ps[0]);
  }

  lemma {:induction false} DecodedOn(src: Str, n: nat, multiline: bool, i: nat, text: Str, next: nat)
    requires Closed(src, n) && i < next <= n && OneStep(src, n, multiline, i) == Good(text, next)
    requires Decoded(src, n, multiline, next).Some?
    ensures Decoded(src, n, multiline, i) == Some(text + Decoded(src, n, multiline, next).value)
  {
  }

  /** Whatever pieces a string is spelled from, the parser reads what they mean. */
  lemma {:induction false} SpellingIsRead(src: Str, n: nat, multiline: bool, i: nat, ps: seq<Piece>)
    requires Closed(src, n) && i <= n && src[i..n] == SpellAll(ps) && WellSpelled(ps, multiline)
    ensures Decoded(src, n, multiline, i) == Some(MeaningAll(ps, multiline))
    decreases |ps|
  {
    if ps != [] {
      var next := FirstIsRead(src, n, multiline, i, ps);
      SpellingIsRead(src, n, multiline, next, ps[1..]);
      DecodedOn(src, n, multiline, i, Meaning(ps[0], multiline), next);
    }
  }

  // ----- and nothing else is

  lemma {:induction false} DigitOf(b: byte)
    requires HexValue(b).Some?
    ensures HexValue(b).value < 16 && HexDigit(HexValue(b).value) == b
  {
  }

  lemma {:induction false} DigitsOfSum(high: nat, digit: nat, count: nat)
    requires digit < 16 && count > 0
    ensures HexDigits(high * 16 + digit, count) == HexDigits(high, count - 1) + [HexDigit(digit)]
  {
    assert (high * 16 + digit) / 16 == high && (high * 16 + digit) % 16 == digit;
  }

  lemma {:induction false} NumberIsDigits(src: Str, n: nat, i: nat, count: nat)
    requires n <= |src| && HexNumber(src, n, i, count).Some? && i <= n
    ensures i + count <= n && src[i..i + count] == HexDigits(HexNumber(src, n, i, count).value, count)
    decreases count
  {
    if count > 0 {
      var last := src[i + count - 1];
      NumberIsDigits(src, n, i, count - 1);
      DigitOf(last);
      DigitsOfSum(HexNumber(src, n, i, count - 1).value, HexValue(last).value, count);
      assert src[i..i + count] == src[i..i + count - 1] + [last];
    }
  }

  predicate ReadsPiece(src: Str, n: nat, multiline: bool, i: nat, p: Piece)
    requires Closed(src, n) && i < n
  {
    && Spellable(p, multiline) && i + |Spelling(p)| <= n && src[i..i + |Spelling(p)|] == Spelling(p)
    && (p.Fold? ==> !White(src[i + |Spelling(p)|]))
    && OneStep(src, n, multiline, i) == Good(Meaning(p, multiline), i + |Spelling(p)|)
  }

  lemma {:induction false} FoldIsSpelled(src: Str, i: nat, j: nat, next: nat)
    requires i < j < next <= |src| && src[i] == '\\' && src[j] == '\n'
    ensures src[i..next] == Spelling(Fold(src[i + 1..j], src[j + 1..next]))
  {
    assert src[i..next] == [src[i]] + src[i + 1..j] + [src[j]] + src[j + 1..next];
  }

  lemma {:induction false} BlanksAreBlank(src: Str, i: nat, j: nat)
    requires i <= j <= |src| && forall k :: i <= k < j ==> src[k] in " \t\r"
    ensures Blanks(src[i..j])
  {
  }

  lemma {:induction false} WhitesAreWhite(src: Str, i: nat, j: nat)
    requires i <= j <= |src| && forall k :: i <= k < j ==> src[k] in " \t\r\n"
    ensures AllWhite(src[i..j])
  {
  }

  /** Where the white space of a folded line end turns to the next line, and where it
      stops. */
  lemma {:induction false} FoldBounds(src: Str, n: nat, i: nat) returns (j: nat, next: nat)
    requires Closed(src, n) && i < n && EndsLine(src, i + 1)
    ensures i < j < next <= n && src[j] == '\n' && !White(src[next])
    ensures Blanks(src[i + 1..j]) && AllWhite(src[j + 1..next])
    ensures SkipOver(src, i + 1, " \t\r\n") == next
  {
    j, next := SkipOver(src, i + 1, " \t\r"), SkipOver(src, i + 1, " \t\r\n");
    StopsBy(src, i + 1, n, " \t\r");
    StopsBy(src, i + 1, n, " \t\r\n");
    GoesPast(src, i + 1, j, " \t\r\n");
    BlanksAreBlank(src, i + 1, j);
    WhitesAreWhite(src, j + 1, next);
  }

  lemma {:induction false} FoldIsPiece(src: Str, n: nat, i: nat) returns (p: Piece)
    requires Closed(src, n) && i < n && src[i] == '\\' && EndsLine(src, i + 1)
    ensures p.Fold? && ReadsPiece(src, n, true, i, p)
  {
    var j, next := FoldBounds(src, n, i);
    p := Fold(src[i + 1..j], src[j + 1..next]);
    FoldIsSpelled(src, i, j, next);
    assert |src[i..next]| == next - i;
  }

  lemma {:induction false} GoesPast(src: Str, i: nat, j: nat, chars: string)
    requires i <= j < |src| && forall k :: i <= k <= j ==> src[k] in chars
    ensures SkipOver(src, i, chars) > j
    decreases j - i
  {
    if i < j {
      GoesPast(src, i + 1, j, chars);
    }
  }

  lemma {:induction false} StopsBy(src: Str, i: nat, n: nat, chars: string)
    requires i <= n < |src| && src[n] !in chars
    ensures SkipOver(src, i, chars) <= n
  {
  }

  lemma {:induction false} RawIsPiece(src: Str, n: nat, multiline: bool, i: nat)
    requires Closed(src, n) && i < n && src[i] != '\\' && OneStep(src, n, multiline, i).Good?
    ensures RawByte(src[i] as int, multiline) && OneStep(src, n, multiline, i) == Good([src[i]], i + 1)
  {
  }

  lemma {:induction false} CodeIsPiece(src: Str, n: nat, multiline: bool, i: nat, u: byte) returns (code: nat)
    requires Closed(src, n) && i + 1 < n && src[i] == '\\' && src[i + 1] == u && u in "uU" && !(multiline && EndsLine(src, i + 1))
    requires OneStep(src, n, multiline, i).Good?
    ensures Encodable(code) && (u == 'u' ==> code < 0x1_0000)
    ensures var count := if u == 'u' then 4 else 8;
      && i + 2 + count <= n && src[i..i + 2 + count] == ['\\', u] + HexDigits(code, count)
      && OneStep(src, n, multiline, i) == Good(Octets(code), i + 2 + count)
  {
    var count := if u == 'u' then 4 else 8;
    code := HexNumber(src, n, i + 2, count).value;
    HexNumberFits(src, n, i + 2, count);
    NumberIsDigits(src, n, i + 2, count);
    assert src[i..i + 2 + count] == [src[i], src[i + 1]] + src[i + 2..i + 2 + count];
  }

  lemma {:induction false} LetterIsPiece(src: Str, n: nat, multiline: bool, i: nat)
    requires Closed(src, n) && i < n && src[i] == '\\' && OneStep(src, n, multiline, i).Good?
    requires !(multiline && EndsLine(src, i + 1)) && src[i + 1] !in "uU"
    ensures i + 1 < n && LetterByte(src[i + 1]).Some?
    ensures OneStep(src, n, multiline, i) == Good([LetterByte(src[i + 1]).value as char], i + 2)
    ensures src[i..i + 2] == ['\\', src[i + 1]]
  {
  }

  lemma {:induction false} StepIsPiece(src: Str, n: nat, multiline: bool, i: nat) returns (p: Piece)
    requires Closed(src, n) && i < n && OneStep(src, n, multiline, i).Good?
    ensures ReadsPiece(src, n, multiline, i, p)
  {
    if src[i] != '\\' {
      RawIsPiece(src, n, multiline, i);
      p := Raw(src[i]);
    } else if multiline && EndsLine(src, i + 1) {
      p := FoldIsPiece(src, n, i);
    } else if src[i + 1] == 'u' {
      var code := CodeIsPiece(src, n, multiline, i, 'u');
      p := Short(code);
    } else if src[i + 1] == 'U' {
      var code := CodeIsPiece(src, n, multiline, i, 'U');
      p := Long(code);
    } else {
      LetterIsPiece(src, n, multiline, i);
      p := Letter(src[i + 1]);
    }
  }

  lemma {:induction false} SpelledOn(src: Str, i: nat, next: nat, n: nat, p: Piece, rest: seq<Piece>)
    requires i <= next <= n <= |src| && src[i..next] == Spelling(p) && src[next..n] == SpellAll(rest)
    ensures src[i..n] == SpellAll([p] + rest)
    ensures rest != [] ==> next < n && Spelling(rest[0])[0] == src[next]
  {
    assert ([p] + rest)[1..] == rest;
    assert src[i..n] == src[i..next] + src[next..n];
    if rest != [] {
      NextStarts(src, next, n, SpellAll(rest), Spelling(rest[0]), SpellAll(rest[1..]));
    }
  }

  lemma {:induction false} WellSpelledOn(p: Piece, rest: seq<Piece>, multiline: bool)
    requires Spellable(p, multiline) && WellSpelled(rest, multiline)
    requires p.Fold? && rest != [] ==> !White(Spelling(rest[0])[0])
    ensures WellSpelled([p] + rest, multiline)
  {
    assert ([p] + rest)[1..] == rest;
  }

  lemma {:induction false} OneMoreSpelled(src: Str, n: nat, multiline: bool, i: nat, p: Piece, rest: seq<Piece>)
    requires Closed(src, n) && i < n && ReadsPiece(src, n, multiline, i, p)
    requires WellSpelled(rest, multiline) && src[i + |Spelling(p)|..n] == SpellAll(rest)
    ensures WellSpelled([p] + rest, multiline) && src[i..n] == SpellAll([p] + rest)
  {
    SpelledOn(src, i, i + |Spelling(p)|, n, p, rest);
    WellSpelledOn(p, rest, multiline);
  }

  lemma {:induction false} MeaningOn(p: Piece, rest: seq<Piece>, multiline: bool)
    requires WellSpelled([p] + rest, multiline)
    ensures Spellable(p, multiline) && WellSpelled(rest, multiline)
    ensures MeaningAll([p] + rest, multiline) == Meaning(p, multiline) + MeaningAll(rest, multiline)
  {
    assert ([p] + rest)[1..] == rest;
  }

  /** A source that is read at all is spelled from such pieces, and read as they mean. */
  lemma {:induction false} SourceIsSpelled(src: Str, n: nat, multiline: bool, i: nat) returns (ps: seq<Piece>)
    requires Closed(src, n) && i <= n && Decoded(src, n, multiline, i).Some?
    ensures WellSpelled(ps, multiline) && src[i..n] == SpellAll(ps)
    ensures Decoded(src, n, multiline, i) == Some(MeaningAll(ps, multiline))
    decreases n - i
  {
    if i == n {
      ps := [];
    } else {
      var p := StepIsPiece(src, n, multiline, i);
      var rest := SourceIsSpelled(src, n, multiline, i + |Spelling(p)|);
      OneMoreSpelled(src, n, multiline, i, p, rest);
      DecodedOn(src, n, multiline, i, Meaning(p, multiline), i + |Spelling(p)|);
      MeaningOn(p, rest, multiline);
      ps := [p] + rest;
    }
  }

  /** The parser accepts exactly the sources spelled from such pieces. */
  lemma {:induction false} AcceptedIff(src: Str, n: nat, multiline: bool)
    requires Closed(src, n)
    ensures Decoded(src, n, multiline, 0).Some? <==>
      exists ps: seq<Piece> :: WellSpelled(ps, multiline) && SpellAll(ps) == src[..n]
  {
    assert src[0..n] == src[..n];
    if Decoded(src, n, multiline, 0).Some? {
      var ps := SourceIsSpelled(src, n, multiline, 0);
    } else if ps: seq<Piece> :| WellSpelled(ps, multiline) && SpellAll(ps) == src[..n] {
      SpellingIsRead(src, n, multiline, 0, ps);
    }
  }

  // ----- every value has a spelling

  /** One way to spell a byte. */
  function PieceFor(b: byte): (p: Piece)
    ensures !p.Fold?
  {
    match b as int
    case 8 => Letter('b')
    case 10 => Letter('n')
    case 12 => Letter('f')
    case 13 => Letter('r')
    case 34 => Letter('"')
    case 92 => Letter('\\')
    case x => if x == 9 || (x >= 32 && x != 127) then Raw(b) else Long(x)
  }

  function PiecesFor(t: Str): (ps: seq<Piece>)
    ensures |ps| == |t|
  {
    if t == [] then [] else [PieceFor(t[0])] + PiecesFor(t[1..])
  }

  lemma {:induction false} PieceForMeans(b: byte, multiline: bool)
    ensures Spellable(PieceFor(b), multiline) && Meaning(PieceFor(b), multiline) == [b]
  {
    if PieceFor(b).Long? {
      assert Octets(b as nat) == [High(b as nat, 0) as char] + Low(b as nat, 0);
    }
  }

  lemma {:induction false} PiecesMean(t: Str, multiline: bool)
    ensures WellSpelled(PiecesFor(t), multiline) && MeaningAll(PiecesFor(t), multiline) == t
  {
    if t != [] {
      PieceForMeans(t[0], multiline);
      PiecesMean(t[1..], multiline);
      assert PiecesFor(t)[1..] == PiecesFor(t[1..]);
    }
  }

  /** Every byte string is the value of a basic string, in one line or many. */
  lemma {:induction false} EveryTextCanBeSpelled(t: Str, multiline: bool)
    ensures var spelling := SpellAll(PiecesFor(t));
      Decoded(spelling + ['"'], |spelling|, multiline, 0) == Some(t)
  {
    var spelling := SpellAll(PiecesFor(t));
    assert (spelling + ['"'])[0..|spelling|] == spelling;
    PiecesMean(t, multiline);
    SpellingIsRead(spelling + ['"'], |spelling|, multiline, 0, PiecesFor(t));
  }

  /** The value is never longer than its source. */
  lemma {:induction false} ValuesAreNoLonger(src: Str, n: nat, multiline: bool, i: nat)
    requires Closed(src, n) && i <= n && Decoded(src, n, multiline, i).Some?
    ensures |Decoded(src, n, multiline, i).value| <= n - i
    decreases n - i
  {
    if i < n {
      StepShrinks(src, n, multiline, i);
      ValuesAreNoLonger(src, n, multiline, OneStep(src, n, multiline, i).next);
    }
  }
}
