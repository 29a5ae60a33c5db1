/** How source text reads, without a machine to read it (internal/symbol/strip.go): as a
    row of pieces, each of them code, a comment, or a literal between its marks. What
    blanking is to leave of a text is said piece by piece. Every text reads in some way. */
module Lexis {
  import opened Bytes

  const QUOTE: byte := 34
  const APOSTROPHE: byte := 39
  const BACKTICK: byte := 96
  const BACKSLASH: byte := 92
  const STAR: byte := 42
  const HASH: byte := 35

  datatype Language = CFamily | PythonLike | OtherLanguage

  /** Blank, but for newlines. */
  function Blank(c: byte): byte { if c == NEWLINE then NEWLINE else SPACE }

  function Blanks(t: Bytes): (r: Bytes)
    ensures |r| == |t| && forall k :: 0 <= k < |t| ==> r[k] == Blank(t[k])
  {
    seq(|t|, k requires 0 <= k < |t| => Blank(t[k]))
  }

  predicate NextIs(s: Bytes, i: nat, c: byte) {
    i + 1 < |s| && s[i + 1] == c
  }

  // ---- pieces ----

  /** Code, a comment with its marks, or a literal: its opening mark, what is inside, and
      its closing mark, empty for a literal that is never closed. */
  datatype Piece = Verbatim(text: Bytes) | Remark(text: Bytes) | Literal(open: Bytes, text: Bytes, close: Bytes)

  function PieceText(p: Piece): Bytes {
    match p
    case Verbatim(t) => t
    case Remark(t) => t
    case Literal(o, t, c) => o + t + c
  }

  /** Comments go, code and the marks of literals stay. */
  function PieceBlanked(p: Piece): (r: Bytes)
    ensures |r| == |PieceText(p)|
  {
    match p
    case Verbatim(t) => t
    case Remark(t) => Blanks(t)
    case Literal(o, t, c) => o + Blanks(t) + c
  }

  function Text(ps: seq<Piece>): Bytes {
    if ps == [] then [] else PieceText(ps[0]) + Text(ps[1..])
  }

  function Blanked(ps: seq<Piece>): (r: Bytes)
    ensures |r| == |Text(ps)|
  {
    if ps == [] then [] else PieceBlanked(ps[0]) + Blanked(ps[1..])
  }

  // ---- what the pieces may be, given what comes after ----

  /** A comment up to the end of its line. */
  predicate RestOfLine(mark: Bytes, t: Bytes, rest: Bytes) {
    mark <= t && NEWLINE !in t && (rest == [] || rest[0] == NEWLINE)
  }

  predicate EndsBlock(s: Bytes, k: nat) {
    k < |s| && s[k] == STAR && NextIs(s, k, SLASH)
  }

  /** From slash and star up to the first star and slash, or the end of the text. The
      star that opens may also be the one that closes. */
  predicate BlockRemark(t: Bytes, rest: Bytes) {
    && [SLASH, STAR] <= t
    && if |t| > 2 && EndsBlock(t, |t| - 2) then forall k :: 1 <= k < |t| - 2 ==> !EndsBlock(t, k)
       else rest == [] && forall k :: 1 <= k < |t| ==> !EndsBlock(t, k)
  }

  /** No quote and no newline but behind a backslash; at the end of the text, `last`, a
      backslash may stand alone. */
  predicate Held(t: Bytes, q: byte, last: bool) {
    if t == [] then true
    else if t[0] == BACKSLASH then if |t| == 1 then last else Held(t[2..], q, last)
    else t[0] != q && t[0] != NEWLINE && Held(t[1..], q, last)
  }

  /** Up to the closing quote, the end of the line or the end of the text. */
  predicate WithinQuotes(q: byte, t: Bytes, close: Bytes, rest: Bytes) {
    && Held(t, q, close == [] && rest == [])
    && (close == [q] || (close == [] && (rest == [] || rest[0] == NEWLINE)))
  }

  predicate TripleAt(s: Bytes, i: nat, q: byte) {
    i + 2 < |s| && s[i] == s[i + 1] == s[i + 2] == q
  }

  /** Up to the first three quotes, or the end of the text. */
  predicate WithinTriple(q: byte, t: Bytes, close: Bytes, rest: Bytes) {
    && (forall k :: 0 <= k < |t| ==> !TripleAt(t + close, k, q))
    && (close == [q, q, q] || (close == [] && rest == []))
  }

  predicate OpensComment(s: Bytes, k: nat) {
    k < |s| && s[k] == SLASH && (NextIs(s, k, SLASH) || NextIs(s, k, STAR))
  }

  predicate IsQuote(c: byte) { c == QUOTE || c == APOSTROPHE }

  predicate OpensC(s: Bytes, k: nat) {
    k < |s| && (IsQuote(s[k]) || s[k] == BACKTICK || OpensComment(s, k))
  }

  predicate CPiece(p: Piece, rest: Bytes) {
    match p
    case Verbatim(t) => forall k :: 0 <= k < |t| ==> !OpensC(t + rest, k)
    case Remark(t) => RestOfLine([SLASH, SLASH], t, rest) || BlockRemark(t, rest)
    case Literal(o, t, c) =>
      || (o == [BACKTICK] && BACKTICK !in t && (c == o || (c == [] && rest == [])))
      || (|o| == 1 && IsQuote(o[0]) && WithinQuotes(o[0], t, c, rest))
  }

  predicate PyPiece(p: Piece, rest: Bytes) {
    match p
    case Verbatim(t) => forall k :: 0 <= k < |t| ==> t[k] != HASH && !IsQuote(t[k])
    case Remark(t) => RestOfLine([HASH], t, rest)
    case Literal(o, t, c) =>
      || (|o| == 1 && IsQuote(o[0]) && !TripleAt(o + t + c + rest, 0, o[0]) && WithinQuotes(o[0], t, c, rest))
      || (|o| == 3 && IsQuote(o[0]) && o[0] == o[1] == o[2] && WithinTriple(o[0], t, c, rest))
  }

  predicate IsPiece(lang: Language, p: Piece, rest: Bytes) {
    match lang
    case CFamily => CPiece(p, rest)
    case PythonLike => PyPiece(p, rest)
    case OtherLanguage => p.Verbatim?
  }

  predicate Reads(lang: Language, ps: seq<Piece>) {
    ps == [] || (IsPiece(lang, ps[0], Text(ps[1..])) && Reads(lang, ps[1..]))
  }

  predicate Reading(lang: Language, src: Bytes, ps: seq<Piece>) {
    Reads(lang, ps) && Text(ps) == src
  }

  /** `out` is `src` with comments and the insides of literals blank, however it is read. */
  ghost predicate BlanksOut(lang: Language, src: Bytes, out: Bytes) {
    forall ps :: Reading(lang, src, ps) ==> out == Blanked(ps)
  }

  /** Offset `k` lies in code. */
  predicate InCode(ps: seq<Piece>, k: nat) {
    ps != [] && var n := |PieceText(ps[0])|; if k < n then ps[0].Verbatim? else InCode(ps[1..], k - n)
  }

  // ---- every text reads in some way ----

  lemma {:induction false} FirstOf(s: Bytes, i: nat, c: byte) returns (j: nat)
    requires i <= |s|
    ensures i <= j <= |s| && c !in s[i..j] && (j < |s| ==> s[j] == c)
    decreases |s| - i
  {
    if i == |s| || s[i] == c { return i; }
    j := FirstOf(s, i + 1, c);
    assert s[i..j] == [s[i]] + s[i + 1..j];
  }

  lemma {:induction false} FirstEnd(s: Bytes, i: nat) returns (j: nat)
    requires i <= |s|
    ensures i <= j <= |s| && (j < |s| ==> EndsBlock(s, j)) && forall k :: i <= k < j ==> !EndsBlock(s, k)
    decreases |s| - i
  {
    if i == |s| || EndsBlock(s, i) { return i; }
    j := FirstEnd(s, i + 1);
  }

  lemma {:induction false} FirstTriple(s: Bytes, i: nat, q: byte) returns (j: nat)
    requires i <= |s|
    ensures i <= j <= |s| && (j < |s| ==> TripleAt(s, j, q)) && forall k :: i <= k < j ==> !TripleAt(s, k, q)
    decreases |s| - i
  {
    if i == |s| || TripleAt(s, i, q) { return i; }
    j := FirstTriple(s, i + 1, q);
  }

  lemma {:induction false} QuoteEnd(s: Bytes, i: nat, q: byte) returns (j: nat)
    requires i <= |s|
    ensures i <= j <= |s| && Held(s[i..j], q, j == |s|) && (j < |s| ==> s[j] == q || s[j] == NEWLINE)
    decreases |s| - i
  {
    if i == |s| { return i; }
    if s[i] == BACKSLASH {
      if i + 1 == |s| { return |s|; }
      j := QuoteEnd(s, i + 2, q);
      assert s[i..j][2..] == s[i + 2..j];
      return;
    }
    if s[i] == q || s[i] == NEWLINE { return i; }
    j := QuoteEnd(s, i + 1, q);
    assert s[i..j][1..] == s[i + 1..j];
  }

  /** The first piece of a text and what comes after it. */
  predicate Splits(lang: Language, s: Bytes, p: Piece, rest: Bytes) {
    PieceText(p) != [] && PieceText(p) + rest == s && IsPiece(lang, p, rest)
  }

  lemma ToLineEnd(lang: Language, s: Bytes, mark: Bytes) returns (p: Piece, rest: Bytes)
    requires mark <= s && mark != [] && NEWLINE !in mark
    requires (lang == CFamily && mark == [SLASH, SLASH]) || (lang == PythonLike && mark == [HASH])
    ensures Splits(lang, s, p, rest)
  {
    var j := FirstOf(s, |mark|, NEWLINE);
    assert s[..j] == mark + s[|mark|..j];
    p, rest := Remark(s[..j]), s[j..];
  }

  lemma FirstBlock(s: Bytes) returns (p: Piece, rest: Bytes)
    requires [SLASH, STAR] <= s
    ensures Splits(CFamily, s, p, rest)
  {
    var j := FirstEnd(s, 1);
    var n := if j < |s| then j + 2 else j;
    var t := s[..n];
    p, rest := Remark(t), s[n..];
    assert forall k :: 0 <= k < n ==> t[k] == s[k];
    assert [SLASH, STAR] <= t by { assert j == 1 ==> n == 3; }
    if j < |s| {
      assert EndsBlock(t, n - 2);
      forall k | 1 <= k < n - 2 ensures !EndsBlock(t, k) { assert !EndsBlock(s, k); }
    } else {
      assert t == s;
      assert forall k :: 1 <= k < |s| ==> !EndsBlock(s, k);
    }
  }

  lemma FirstTicks(s: Bytes) returns (p: Piece, rest: Bytes)
    requires |s| > 0 && s[0] == BACKTICK
    ensures Splits(CFamily, s, p, rest)
  {
    var j := FirstOf(s, 1, BACKTICK);
    var n := if j < |s| then j + 1 else j;
    p, rest := Literal([BACKTICK], s[1..j], s[j..n]), s[n..];
  }

  lemma FirstQuoted(lang: Language, s: Bytes) returns (p: Piece, rest: Bytes)
    requires |s| > 0 && IsQuote(s[0])
    requires lang == CFamily || (lang == PythonLike && !TripleAt(s, 0, s[0]))
    ensures Splits(lang, s, p, rest)
  {
    hide Held, TripleAt;
    var q := s[0];
    var j := QuoteEnd(s, 1, q);
    var n := if j < |s| && s[j] == q then j + 1 else j;
    var t, c := s[1..j], s[j..n];
    p, rest := Literal([q], t, c), s[n..];
    Pieces(s, 1, j, n);
    assert s[..1] == [q];
    assert c == if n == j then [] else [q];
    assert rest != [] ==> rest[0] == s[n];
    assert WithinQuotes(q, t, c, rest);
  }

  lemma Pieces(s: Bytes, i: nat, j: nat, n: nat)
    requires i <= j <= n <= |s|
    ensures s[..i] + s[i..j] + s[j..n] + s[n..] == s
  {
  }

  lemma FirstTripled(s: Bytes) returns (p: Piece, rest: Bytes)
    requires |s| > 0 && IsQuote(s[0]) && TripleAt(s, 0, s[0])
    ensures Splits(PythonLike, s, p, rest)
  {
    var q := s[0];
    var j := FirstTriple(s, 3, q);
    var n := if j < |s| then j + 3 else j;
    var t, c := s[3..j], s[j..n];
    p, rest := Literal([q, q, q], t, c), s[n..];
    Pieces(s, 3, j, n);
    assert s[..3] == [q, q, q];
    assert j < |s| ==> c == [q, q, q];
    NoneInside(s, j, n, q);
    hide TripleAt;
    assert WithinTriple(q, t, c, rest);
  }

  lemma NoneInside(s: Bytes, j: nat, n: nat, q: byte)
    requires 3 <= j <= n <= |s| && forall k :: 3 <= k < j ==> !TripleAt(s, k, q)
    ensures forall k :: 0 <= k < j - 3 ==> !TripleAt(s[3..j] + s[j..n], k, q)
  {
    var u := s[3..j] + s[j..n];
    assert u == s[3..n];
    forall k | 0 <= k < j - 3 ensures !TripleAt(u, k, q) { assert !TripleAt(s, k + 3, q); }
  }

  lemma FirstPiece(lang: Language, s: Bytes) returns (p: Piece, rest: Bytes)
    requires s != []
    ensures Splits(lang, s, p, rest)
  {
    hide Splits;
    if lang == CFamily && [SLASH, SLASH] <= s { p, rest := ToLineEnd(lang, s, [SLASH, SLASH]); }
    else if lang == PythonLike && s[0] == HASH { p, rest := ToLineEnd(lang, s, [HASH]); }
    else if lang == CFamily && [SLASH, STAR] <= s { p, rest := FirstBlock(s); }
    else if lang == CFamily && s[0] == BACKTICK { p, rest := FirstTicks(s); }
    else if lang == PythonLike && IsQuote(s[0]) && TripleAt(s, 0, s[0]) { p, rest := FirstTripled(s); }
    else if lang != OtherLanguage && IsQuote(s[0]) { p, rest := FirstQuoted(lang, s); }
    else { p, rest := Verbatim(s[..1]), s[1..]; OneOfCode(lang, s); }
  }

  lemma OneOfCode(lang: Language, s: Bytes)
    requires s != [] && (lang != OtherLanguage ==> !IsQuote(s[0])) && (lang == PythonLike ==> s[0] != HASH)
    requires lang == CFamily ==> s[0] != BACKTICK && !([SLASH, SLASH] <= s) && !([SLASH, STAR] <= s)
    ensures Splits(lang, s, Verbatim(s[..1]), s[1..])
  {
    assert s[..1] + s[1..] == s;
    if lang == CFamily && |s| > 1 {
      assert s[..2] == [s[0], s[1]];
    }
  }

  lemma {:induction false} EveryTextReads(lang: Language, src: Bytes) returns (ps: seq<Piece>)
    ensures Reading(lang, src, ps)
    decreases |src|
  {
    if src == [] { return []; }
    var p, rest := FirstPiece(lang, src);
    var more := EveryTextReads(lang, rest);
    ps := [p] + more;
    assert ps[1..] == more;
  }
}
