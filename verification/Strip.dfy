/** Blanking comments and literals in source text (internal/symbol/strip.go), in place, so
    that every offset and every line stays where it is: a state machine for C-like
    languages and nested loops for Python. Each is proved against a function on the text,
    and of the functions it is shown that they keep positions and leave no comment. */
module Strip {
  import opened Bytes
  import opened Lexis

  /** A byte stays as it is or, if it is not a newline, becomes a space. */
  predicate Kept(was: byte, now: byte) {
    now == was || (now == SPACE && was != NEWLINE)
  }

  ghost predicate PositionsKept(src: Bytes, out: Bytes) {
    |out| == |src| && forall k :: 0 <= k < |src| ==> Kept(src[k], out[k])
  }

  // ---- languages of the C family ----

  datatype CState = Code | LineComment | BlockComment | InQuotes(quote: byte) | InBackticks

  /** What the next byte, or the next two, become, and the state after them. */
  function CStep(s: Bytes, i: nat, st: CState): (r: (Bytes, CState))
    requires i < |s|
    ensures 1 <= |r.0| <= |s| - i
  {
    var c := s[i];
    match st
    case Code =>
      if c == SLASH && NextIs(s, i, SLASH) then ([SPACE], LineComment)
      else if c == SLASH && NextIs(s, i, STAR) then ([SPACE], BlockComment)
      else if c == QUOTE || c == APOSTROPHE then ([c], InQuotes(c))
      else if c == BACKTICK then ([c], InBackticks)
      else ([c], Code)
    case LineComment => if c == NEWLINE then ([c], Code) else ([SPACE], LineComment)
    case BlockComment => if c == STAR && NextIs(s, i, SLASH) then ([SPACE, SPACE], Code) else ([Blank(c)], BlockComment)
    case InQuotes(q) =>
      if c == BACKSLASH && i + 1 < |s| then ([SPACE, Blank(s[i + 1])], st)
      else if c == q || c == NEWLINE then ([c], Code)
      else ([SPACE], st)
    case InBackticks => if c == BACKTICK then ([c], Code) else ([Blank(c)], InBackticks)
  }

  /** What the bytes from `i` on become when `i` is reached in a given state. */
  function CLike(s: Bytes, i: nat, st: CState): (r: Bytes)
    requires i <= |s|
    ensures |r| == |s| - i
    decreases |s| - i
  {
    if i == |s| then []
    else CStep(s, i, st).0 + CLike(s, i + |CStep(s, i, st).0|, CStep(s, i, st).1)
  }

  predicate QuoteOk(st: CState) {
    st.InQuotes? ==> st.quote == QUOTE || st.quote == APOSTROPHE
  }

  /** The output so far, and the rest still as in the source. */
  ghost predicate Progress(src: Bytes, out: Bytes, i: nat, rest: Bytes, all: Bytes) {
    i <= |src| == |out| && out[i..] == src[i..] && out[..i] + rest == all
  }

  lemma OneDone(src: Bytes, out: Bytes, i: nat, c: byte, rest: Bytes, all: Bytes)
    requires i < |src| && Progress(src, out, i, [c] + rest, all)
    ensures Progress(src, out[i := c], i + 1, rest, all)
  {
    var next := out[i := c];
    assert next[..i + 1] == out[..i] + [c];
    assert next[i + 1..] == out[i..][1..] == src[i..][1..] == src[i + 1..];
    assert out[..i] + ([c] + rest) == (out[..i] + [c]) + rest;
  }

  lemma TwoDone(src: Bytes, out: Bytes, i: nat, c: byte, d: byte, rest: Bytes, all: Bytes)
    requires i + 1 < |src| && Progress(src, out, i, [c, d] + rest, all)
    ensures var one: Bytes := out[i := c]; Progress(src, one[i + 1 := d], i + 2, rest, all)
  {
    assert [c, d] + rest == [c] + ([d] + rest);
    OneDone(src, out, i, c, [d] + rest, all);
    OneDone(src, out[i := c], i + 1, d, rest, all);
  }

  lemma AllDone(src: Bytes, out: Bytes, i: nat, all: Bytes)
    requires i == |src| && Progress(src, out, i, [], all)
    ensures out == all
  {
    assert out[..i] == out && out + [] == out;
  }

  lemma NoneDone(src: Bytes, all: Bytes)
    ensures Progress(src, src, 0, all, all)
  {
    assert src[..0] + all == all;
  }

  // ---- what stripping keeps, and what it leaves none of ----

  lemma {:induction false} CLikeKeeps(s: Bytes, i: nat, st: CState, k: nat)
    requires i <= k < |s| && QuoteOk(st)
    ensures Kept(s[k], CLike(s, i, st)[k - i])
    decreases |s| - i
  {
    hide CLike, Kept;
    var t, w := CNext(s, i, st);
    var r := CLike(s, i, st);
    if k >= i + w {
      CLikeKeeps(s, i + w, t, k);
      assert r[k - i] == r[w..][k - i - w];
    }
  }

  /** The state after the next byte, or two, and how many they are. */
  lemma CNext(s: Bytes, i: nat, st: CState) returns (t: CState, w: nat)
    requires i < |s| && QuoteOk(st)
    ensures 1 <= w <= 2 && i + w <= |s| && QuoteOk(t)
    ensures CLike(s, i, st)[w..] == CLike(s, i + w, t)
    ensures Kept(s[i], CLike(s, i, st)[0]) && (w == 2 ==> Kept(s[i + 1], CLike(s, i, st)[1]))
    ensures CLike(s, i, st)[0] == SLASH ==> w == 1 && t == Code && !NextIs(s, i, SLASH) && !NextIs(s, i, STAR)
    ensures w == 2 ==> CLike(s, i, st)[1] != SLASH
    ensures t == Code && st == Code && w == 1 ==> CLike(s, i, st)[0] == s[i]
  {
    var c := s[i];
    w := 1;
    match st {
      case Code =>
        t := if c == SLASH && NextIs(s, i, SLASH) then LineComment
        else if c == SLASH && NextIs(s, i, STAR) then BlockComment
        else if c == QUOTE || c == APOSTROPHE then InQuotes(c)
        else if c == BACKTICK then InBackticks
        else Code;
      case LineComment => t := if c == NEWLINE then Code else LineComment;
      case BlockComment =>
        t := BlockComment;
        if c == STAR && NextIs(s, i, SLASH) { t, w := Code, 2; }
      case InQuotes(q) =>
        t := if c == q || c == NEWLINE then Code else st;
        if c == BACKSLASH && i + 1 < |s| { t, w := st, 2; }
      case InBackticks => t := if c == BACKTICK then Code else InBackticks;
    }
  }

  function StripC(src: Bytes): Bytes { CLike(src, 0, Code) }

  lemma CLikePositions(src: Bytes)
    ensures PositionsKept(src, StripC(src))
  {
    forall k | 0 <= k < |src| ensures Kept(src[k], StripC(src)[k]) { CLikeKeeps(src, 0, Code, k); }
  }

  lemma {:induction false} NoCommentFrom(s: Bytes, i: nat, st: CState, k: nat)
    requires i <= |s| && QuoteOk(st)
    ensures !OpensComment(CLike(s, i, st), k)
    decreases |s| - i
  {
    hide CLike;
    if i < |s| {
      var t, w := CNext(s, i, st);
      if k == 0 {
        FirstOpensNone(s, i, st);
      } else if k >= w {
        NoCommentFrom(s, i + w, t, k - w);
        LaterOpener(CLike(s, i, st), w, k);
      }
    }
  }

  lemma FirstOpensNone(s: Bytes, i: nat, st: CState)
    requires i < |s| && QuoteOk(st)
    ensures !OpensComment(CLike(s, i, st), 0)
  {
    hide CLike;
    var r := CLike(s, i, st);
    var t, w := CNext(s, i, st);
    if r[0] == SLASH && i + 1 < |s| {
      var u, v := CNext(s, i + 1, Code);
      assert r[1] == r[1..][0];
    }
  }

  lemma LaterOpener(r: Bytes, w: nat, k: nat)
    requires w <= k && w <= |r| && !OpensComment(r[w..], k - w)
    ensures !OpensComment(r, k)
  {
    if k < |r| { assert r[k] == r[w..][k - w]; }
    if k + 1 < |r| { assert r[k + 1] == r[w..][k + 1 - w]; }
  }

  /** No comment opener is left, in code or in literals. */
  lemma NoCommentLeft(src: Bytes)
    ensures forall k :: !OpensComment(StripC(src), k)
  {
    hide OpensComment;
    forall k: nat ensures !OpensComment(StripC(src), k) { NoCommentFrom(src, 0, Code, k); }
  }

  // ---- piece by piece ----

  /** What comes of the bytes from `i` on depends on nothing before them. */
  lemma {:induction false} CShift(p: Bytes, s: Bytes, i: nat, st: CState)
    requires i <= |s|
    ensures CLike(p + s, |p| + i, st) == CLike(s, i, st)
    decreases |s| - i
  {
    hide CStep;
    if i < |s| {
      StepShift(p, s, i, st);
      var r := CStep(s, i, st);
      CShift(p, s, i + |r.0|, r.1);
    }
  }

  lemma StepShift(p: Bytes, s: Bytes, i: nat, st: CState)
    requires i < |s|
    ensures CStep(p + s, |p| + i, st) == CStep(s, i, st)
  {
    assert (p + s)[|p| + i] == s[i];
    assert i + 1 < |s| ==> (p + s)[|p| + i + 1] == s[i + 1];
  }

  /** The bytes from `i` to `j` in blank, before those after. */
  function BlankThen(s: Bytes, i: nat, j: nat, after: Bytes): Bytes
    requires i <= j <= |s|
  {
    Blanks(s[i..j]) + after
  }

  lemma BlankNone(s: Bytes, i: nat, after: Bytes)
    requires i <= |s|
    ensures BlankThen(s, i, i, after) == after
  {
  }

  lemma BlankMore(s: Bytes, i: nat, j: nat, after: Bytes)
    requires i < j <= |s|
    ensures BlankThen(s, i, j, after) == [Blank(s[i])] + BlankThen(s, i + 1, j, after)
  {
    assert Blanks(s[i..j]) == [Blank(s[i])] + Blanks(s[i + 1..j]);
  }

  lemma {:induction false} CodeStays(s: Bytes, i: nat, j: nat)
    requires i <= j <= |s| && forall k :: i <= k < j ==> !OpensC(s, k)
    ensures CLike(s, i, Code) == s[i..j] + CLike(s, j, Code)
    decreases j - i
  {
    if i < j {
      CodeStays(s, i + 1, j);
      assert !OpensC(s, i);
      assert s[i..j] == [s[i]] + s[i + 1..j];
    }
  }

  lemma {:induction false} LineIsBlanked(s: Bytes, i: nat, j: nat)
    requires i <= j <= |s| && NEWLINE !in s[i..j]
    ensures CLike(s, i, LineComment) == BlankThen(s, i, j, CLike(s, j, LineComment))
    decreases j - i
  {
    hide BlankThen;
    if i == j { BlankNone(s, i, CLike(s, j, LineComment)); } else {
      assert s[i] == s[i..j][0] && s[i] in s[i..j];
      assert s[i + 1..j] == s[i..j][1..];
      LineIsBlanked(s, i + 1, j);
      BlankMore(s, i, j, CLike(s, j, LineComment));
    }
  }

  lemma {:induction false} BlockIsBlanked(s: Bytes, i: nat, j: nat)
    requires i <= j <= |s| && forall k :: i <= k < j ==> !EndsBlock(s, k)
    ensures CLike(s, i, BlockComment) == BlankThen(s, i, j, CLike(s, j, BlockComment))
    decreases j - i
  {
    hide BlankThen;
    if i == j { BlankNone(s, i, CLike(s, j, BlockComment)); } else {
      assert !EndsBlock(s, i);
      BlockIsBlanked(s, i + 1, j);
      BlankMore(s, i, j, CLike(s, j, BlockComment));
    }
  }

  lemma {:induction false} TicksAreBlanked(s: Bytes, i: nat, j: nat)
    requires i <= j <= |s| && BACKTICK !in s[i..j]
    ensures CLike(s, i, InBackticks) == BlankThen(s, i, j, CLike(s, j, InBackticks))
    decreases j - i
  {
    hide BlankThen;
    if i == j { BlankNone(s, i, CLike(s, j, InBackticks)); } else {
      assert s[i] == s[i..j][0] && s[i] in s[i..j];
      assert s[i + 1..j] == s[i..j][1..];
      TicksAreBlanked(s, i + 1, j);
      BlankMore(s, i, j, CLike(s, j, InBackticks));
    }
  }

  lemma TwoThen(c: byte, d: byte, rest: Bytes)
    ensures [c, d] + rest == [c] + ([d] + rest)
  {
  }

  /** Text held in quotes goes on being held behind its first byte, or its first two. */
  lemma HeldOn(s: Bytes, i: nat, j: nat, q: byte, last: bool)
    requires i < j <= |s| && Held(s[i..j], q, last)
    ensures s[i] == BACKSLASH && i + 1 == j ==> last && Held(s[i + 1..j], q, last)
    ensures s[i] == BACKSLASH && i + 1 < j ==> Held(s[i + 2..j], q, last)
    ensures s[i] != BACKSLASH ==> s[i] != q && s[i] != NEWLINE && Held(s[i + 1..j], q, last)
  {
    var t := s[i..j];
    assert t[0] == s[i] && t[1..] == s[i + 1..j];
    assert i + 1 < j ==> t[2..] == s[i + 2..j];
  }

  lemma {:induction false} QuotedIsBlanked(s: Bytes, i: nat, j: nat, q: byte)
    requires i <= j <= |s| && IsQuote(q) && Held(s[i..j], q, j == |s|)
    ensures CLike(s, i, InQuotes(q)) == BlankThen(s, i, j, CLike(s, j, InQuotes(q)))
    decreases j - i
  {
    hide BlankThen, Held;
    var after := CLike(s, j, InQuotes(q));
    if i == j { BlankNone(s, i, after); } else {
      HeldOn(s, i, j, q, j == |s|);
      BlankMore(s, i, j, after);
      if s[i] == BACKSLASH && i + 1 < j {
        QuotedIsBlanked(s, i + 2, j, q);
        BlankMore(s, i + 1, j, after);
        TwoThen(SPACE, Blank(s[i + 1]), BlankThen(s, i + 2, j, after));
      } else {
        QuotedIsBlanked(s, i + 1, j, q);
      }
    }
  }

  /** A piece comes out as it should and leaves the machine in code. */
  predicate CBlanks(p: Piece, rest: Bytes) {
    StripC(PieceText(p) + rest) == PieceBlanked(p) + StripC(rest)
  }

  lemma VerbatimStays(t: Bytes, rest: Bytes)
    requires CPiece(Verbatim(t), rest)
    ensures CBlanks(Verbatim(t), rest)
  {
    hide CLike, OpensC;
    CodeStays(t + rest, 0, |t|);
    CShift(t, rest, 0, Code);
    assert (t + rest)[0..|t|] == t;
  }

  lemma LineRemarkGoes(t: Bytes, rest: Bytes)
    requires RestOfLine([SLASH, SLASH], t, rest)
    ensures CBlanks(Remark(t), rest)
  {
    var s := t + rest;
    assert s[0] == SLASH && s[1] == SLASH by { assert t[..2] == [SLASH, SLASH]; }
    assert s[0..|t|] == t && s[1..|t|] == t[1..];
    LineIsBlanked(s, 1, |t|);
    CShift(t, rest, 0, LineComment);
    CShift(t, rest, 0, Code);
    assert CLike(rest, 0, LineComment) == CLike(rest, 0, Code);
    BlankMore(s, 0, |t|, CLike(rest, 0, Code));
  }

  lemma BlockRemarkGoes(t: Bytes, rest: Bytes)
    requires BlockRemark(t, rest)
    ensures CBlanks(Remark(t), rest)
  {
    hide CLike, CStep, BlankThen;
    var s, n := t + rest, |t|;
    assert s[0] == SLASH && s[1] == STAR by { assert t[..2] == [SLASH, STAR]; }
    assert forall k :: 0 <= k < n - 1 ==> (EndsBlock(s, k) <==> EndsBlock(t, k));
    StepOf(s, 0, Code);
    CShift(t, rest, 0, Code);
    if n > 2 && EndsBlock(t, n - 2) {
      assert EndsBlock(s, n - 2);
      BlockIsBlanked(s, 1, n - 2);
      StepOf(s, n - 2, BlockComment);
      BlockClosed(t, rest, CLike(rest, 0, Code));
    } else {
      assert s == t;
      BlockIsBlanked(s, 1, n);
      assert CLike(s, n, BlockComment) == CLike(s, n, Code) == [] by { AtEnd(s, BlockComment); AtEnd(s, Code); }
      BlankMore(s, 0, n, []);
      WholeBlank(t, rest, CLike(rest, 0, Code));
      AtEnd(rest, Code);
    }
  }

  lemma StepOf(s: Bytes, i: nat, st: CState)
    requires i < |s|
    ensures var r := CStep(s, i, st); CLike(s, i, st) == r.0 + CLike(s, i + |r.0|, r.1)
    ensures st == Code && IsQuote(s[i]) ==> CStep(s, i, st) == ([s[i]], InQuotes(s[i]))
    ensures st == Code && s[i] == BACKTICK ==> CStep(s, i, st) == ([s[i]], InBackticks)
    ensures st == Code && OpensComment(s, i) ==> CStep(s, i, st) == ([SPACE], if NextIs(s, i, SLASH) then LineComment else BlockComment)
    ensures st == BlockComment && EndsBlock(s, i) ==> CStep(s, i, st) == ([SPACE, SPACE], Code)
    ensures st.InQuotes? && st.quote != BACKSLASH && s[i] == st.quote ==> CStep(s, i, st) == ([s[i]], Code)
    ensures s[i] == NEWLINE && (st == LineComment || st.InQuotes? || st == Code) ==> CStep(s, i, st) == ([s[i]], Code)
    ensures st == InBackticks && s[i] == BACKTICK ==> CStep(s, i, st) == ([s[i]], Code)
  {
  }

  lemma AtEnd(s: Bytes, st: CState)
    ensures CLike(s, |s|, st) == []
  {
  }

  lemma WholeBlank(t: Bytes, rest: Bytes, after: Bytes)
    ensures BlankThen(t + rest, 0, |t|, after) == Blanks(t) + after
  {
    assert (t + rest)[0..|t|] == t;
  }

  /** Two spaces for the star and the slash at the end of a block. */
  lemma BlockClosed(t: Bytes, rest: Bytes, after: Bytes)
    requires |t| > 2 && EndsBlock(t, |t| - 2) && t[0] != NEWLINE
    ensures [SPACE] + BlankThen(t + rest, 1, |t| - 2, [SPACE, SPACE] + after) == Blanks(t) + after
  {
    var n := |t|;
    assert (t + rest)[1..n - 2] == t[1..n - 2];
    assert [SPACE] + Blanks(t[1..n - 2]) + [SPACE, SPACE] == Blanks(t);
  }

  /** A literal between its marks. */
  lemma BetweenMarks(o: Bytes, t: Bytes, c: Bytes, rest: Bytes, after: Bytes)
    ensures var s := o + t + c + rest; var j := |o| + |t|;
      && s[|o|..j] == t && (forall k :: 0 <= k < |o| ==> s[k] == o[k]) && (forall k :: 0 <= k < |c| ==> s[j + k] == c[k])
      && (c == [] ==> |s| == j + |rest| && (rest != [] ==> s[j] == rest[0]))
      && o + BlankThen(s, |o|, j, c + after) == (o + Blanks(t) + c) + after
  {
    var s, j := o + t + c + rest, |o| + |t|;
    assert s[|o|..j] == t;
  }

  /** A text that begins with a literal of single marks. */
  function Framed(o: byte, t: Bytes, c: Bytes, rest: Bytes): Bytes { PieceText(Literal([o], t, c)) + rest }

  lemma FramedIs(o: byte, t: Bytes, c: Bytes, rest: Bytes)
    ensures var s := Framed(o, t, c, rest); var j := 1 + |t|;
      && |s| == j + |c| + |rest| && s[0] == o && s[1..j] == t
      && (c != [] ==> s[j] == c[0]) && (c == [] && rest != [] ==> s[j] == rest[0])
  {
    BetweenMarks([o], t, c, rest, []);
  }

  lemma FramedBlanks(o: byte, t: Bytes, c: Bytes, rest: Bytes, after: Bytes)
    ensures 1 + |t| <= |Framed(o, t, c, rest)|
    ensures [o] + BlankThen(Framed(o, t, c, rest), 1, 1 + |t|, c + after) == PieceBlanked(Literal([o], t, c)) + after
  {
    BetweenMarks([o], t, c, rest, after);
  }

  /** What comes after the marks comes out as by itself. */
  lemma FramedThen(o: byte, t: Bytes, c: Bytes, rest: Bytes)
    ensures var s := Framed(o, t, c, rest); var n := 1 + |t| + |c|;
      n <= |s| && CLike(s, n, Code) == StripC(rest) && Python(s, n, PyCode) == StripP(rest)
  {
    hide CLike, Python;
    CShift(PieceText(Literal([o], t, c)), rest, 0, Code);
    PShift(PieceText(Literal([o], t, c)), rest, 0, PyCode);
  }

  lemma TicksStay(t: Bytes, c: Bytes, rest: Bytes)
    requires BACKTICK !in t && (c == [BACKTICK] || (c == [] && rest == []))
    ensures CBlanks(Literal([BACKTICK], t, c), rest)
  {
    hide CLike, CStep, BlankThen, Framed, PieceBlanked;
    var s, j := Framed(BACKTICK, t, c, rest), 1 + |t|;
    FramedIs(BACKTICK, t, c, rest);
    FramedBlanks(BACKTICK, t, c, rest, StripC(rest));
    FramedThen(BACKTICK, t, c, rest);
    StepOf(s, 0, Code);
    TicksAreBlanked(s, 1, j);
    if c != [] { StepOf(s, j, InBackticks); } else {
      AtEnd(s, InBackticks);
      NothingFirst(c, StripC(rest));
    }
    FramedText(BACKTICK, t, c, rest);
  }

  lemma FramedText(o: byte, t: Bytes, c: Bytes, rest: Bytes)
    ensures Framed(o, t, c, rest) == PieceText(Literal([o], t, c)) + rest
  {
  }

  lemma NothingFirst(c: Bytes, after: Bytes)
    requires c == []
    ensures c + after == after
  {
  }

  lemma QuotesStay(q: byte, t: Bytes, c: Bytes, rest: Bytes)
    requires IsQuote(q) && WithinQuotes(q, t, c, rest)
    ensures CBlanks(Literal([q], t, c), rest)
  {
    hide CLike, CStep, BlankThen, Held, Framed, PieceBlanked;
    var s, j := Framed(q, t, c, rest), 1 + |t|;
    FramedIs(q, t, c, rest);
    FramedBlanks(q, t, c, rest, StripC(rest));
    FramedThen(q, t, c, rest);
    StepOf(s, 0, Code);
    HeldAnyway(t, q, c == [] && rest == [], j == |s|);
    QuotedIsBlanked(s, 1, j, q);
    if c != [] { StepOf(s, j, InQuotes(q)); } else {
      EndOfQuotes(s, j, q);
      NothingFirst(c, StripC(rest));
    }
    FramedText(q, t, c, rest);
  }

  /** The end of the line, or of the text, is as good as code. */
  lemma EndOfQuotes(s: Bytes, j: nat, q: byte)
    requires j <= |s| && (j < |s| ==> s[j] == NEWLINE)
    ensures CLike(s, j, InQuotes(q)) == CLike(s, j, Code)
  {
  }

  lemma {:induction false} HeldAnyway(t: Bytes, q: byte, last: bool, last': bool)
    requires Held(t, q, last) && (last ==> last')
    ensures Held(t, q, last')
  {
    if t != [] {
      if t[0] == BACKSLASH { if |t| > 1 { HeldAnyway(t[2..], q, last, last'); } } else { HeldAnyway(t[1..], q, last, last'); }
    }
  }

  lemma CPieceBlanks(p: Piece, rest: Bytes)
    requires CPiece(p, rest)
    ensures CBlanks(p, rest)
  {
    hide CBlanks, BlockRemark, RestOfLine, WithinQuotes, OpensC;
    match p
    case Verbatim(t) => VerbatimStays(t, rest);
    case Remark(t) => if BlockRemark(t, rest) { BlockRemarkGoes(t, rest); } else { LineRemarkGoes(t, rest); }
    case Literal(o, t, c) =>
      if o == [BACKTICK] { TicksStay(t, c, rest); } else {
        assert o == [o[0]];
        QuotesStay(o[0], t, c, rest);
      }
  }

  /** However a text of the C family is read, this is what it becomes. */
  lemma {:induction false} StripCBlanks(ps: seq<Piece>)
    requires Reads(CFamily, ps)
    ensures StripC(Text(ps)) == Blanked(ps)
  {
    hide StripC, CPiece;
    if ps == [] { StripNone(); } else {
      CPieceBlanks(ps[0], Text(ps[1..]));
      StripCBlanks(ps[1..]);
    }
  }

  lemma StripNone()
    ensures StripC([]) == [] && StripP([]) == []
  {
  }

  lemma CBlanksOut(src: Bytes)
    ensures BlanksOut(CFamily, src, StripC(src))
  {
    hide StripC, Reads, Blanked, Text;
    forall ps | Reading(CFamily, src, ps) ensures StripC(src) == Blanked(ps) { StripCBlanks(ps); }
  }

  /** Blanks comments and literals in a copy of the source, byte by byte. */
  method StripCLike(src: Bytes) returns (out: array<byte>)
    ensures fresh(out) && out[..] == StripC(src) && PositionsKept(src, out[..])
    ensures BlanksOut(CFamily, src, out[..])
  {
    hide BlanksOut;
    out := new byte[|src|](k requires 0 <= k < |src| => src[k]);
    var st := Code;
    var i := 0;
    ghost var all := StripC(src);
    assert out[..] == src;
    NoneDone(src, all);
    while i < out.Length
      invariant 0 <= i <= out.Length == |src|
      invariant Progress(src, out[..], i, CLike(src, i, st), all)
    {
      i, st := StripOne(src, out, i, st, all);
    }
    AllDone(src, out[..], i, all);
    CLikePositions(src);
    CBlanksOut(src);
  }

  /** One turn of the loop. */
  method StripOne(src: Bytes, out: array<byte>, i: nat, st: CState, ghost all: Bytes) returns (i': nat, st': CState)
    requires i < out.Length == |src| && Progress(src, out[..], i, CLike(src, i, st), all)
    modifies out
    ensures i < i' <= |src| && Progress(src, out[..], i', CLike(src, i', st'), all)
  {
    hide Progress;
    ghost var was := out[..];
    SameAhead(src, was, i, CLike(src, i, st), all);
    i', st' := i + 1, st;
    var c := out[i];
    if st == Code && c == SLASH && i + 1 < out.Length && out[i + 1] == SLASH {
      st' := LineComment;
      out[i] := SPACE;
    } else if st == Code && c == SLASH && i + 1 < out.Length && out[i + 1] == STAR {
      st' := BlockComment;
      out[i] := SPACE;
    } else if st == Code {
      if c == QUOTE || c == APOSTROPHE { st' := InQuotes(c); }
      else if c == BACKTICK { st' := InBackticks; }
    } else if st == LineComment {
      if c == NEWLINE { st' := Code; } else { out[i] := SPACE; }
    } else if st == BlockComment && c == STAR && i + 1 < out.Length && out[i + 1] == SLASH {
      out[i], out[i + 1] := SPACE, SPACE;
      i', st' := i + 2, Code;
      ghost var one: Bytes := was[i := SPACE];
      assert out[..] == one[i + 1 := SPACE];
      TwoDone(src, was, i, SPACE, SPACE, CLike(src, i', st'), all);
      return;
    } else if st == BlockComment {
      if c != NEWLINE { out[i] := SPACE; }
    } else if st == InBackticks {
      if c == BACKTICK { st' := Code; } else if c != NEWLINE { out[i] := SPACE; }
    } else if c == BACKSLASH && i + 1 < out.Length {
      out[i] := SPACE;
      if out[i + 1] != NEWLINE { out[i + 1] := SPACE; }
      i' := i + 2;
      ghost var one: Bytes := was[i := SPACE];
      assert out[..] == one[i + 1 := Blank(src[i + 1])];
      TwoDone(src, was, i, SPACE, Blank(src[i + 1]), CLike(src, i', st'), all);
      return;
    } else if c == st.quote || c == NEWLINE {
      st' := Code;
    } else {
      out[i] := SPACE;
    }
    assert out[..] == was[i := out[i]];
    OneDone(src, was, i, out[i], CLike(src, i', st'), all);
  }

  lemma SameAhead(src: Bytes, out: Bytes, i: nat, rest: Bytes, all: Bytes)
    requires i < |src| && Progress(src, out, i, rest, all)
    ensures out[i] == src[i] && (i + 1 < |src| ==> out[i + 1] == src[i + 1])
  {
    assert out[i..][0] == src[i..][0];
    if i + 1 < |src| { assert out[i..][1] == src[i..][1]; }
  }

  // ---- Python ----

  datatype PState = PyCode | PyComment | PyString(quote: byte) | PyTriple(quote: byte)

  /** What the next byte, or the next few, become, and the state after them. */
  function PStep(s: Bytes, i: nat, st: PState): (r: (Bytes, PState))
    requires i < |s|
    ensures 1 <= |r.0| <= |s| - i
  {
    var c := s[i];
    match st
    case PyCode =>
      if c == HASH then ([SPACE], PyComment)
      else if c == QUOTE || c == APOSTROPHE then if TripleAt(s, i, c) then ([c, c, c], PyTriple(c)) else ([c], PyString(c))
      else ([c], PyCode)
    case PyComment => if c == NEWLINE then ([c], PyCode) else ([SPACE], PyComment)
    case PyString(q) =>
      if c == NEWLINE then ([c], PyCode)
      else if c == BACKSLASH then if i + 1 < |s| then ([SPACE, Blank(s[i + 1])], st) else ([SPACE], st)
      else if c == q then ([c], PyCode)
      else ([SPACE], st)
    case PyTriple(q) => if TripleAt(s, i, q) then ([q, q, q], PyCode) else ([Blank(c)], st)
  }

  function Python(s: Bytes, i: nat, st: PState): (r: Bytes)
    requires i <= |s|
    ensures |r| == |s| - i
    decreases |s| - i
  {
    if i == |s| then []
    else PStep(s, i, st).0 + Python(s, i + |PStep(s, i, st).0|, PStep(s, i, st).1)
  }

  function StripP(src: Bytes): Bytes { Python(src, 0, PyCode) }

  predicate PyQuoteOk(st: PState) {
    match st
    case PyString(q) => q == QUOTE || q == APOSTROPHE
    case PyTriple(q) => q == QUOTE || q == APOSTROPHE
    case _ => true
  }

  /** What the next few bytes become, and the state after them. */
  lemma PNext(s: Bytes, i: nat, st: PState) returns (t: PState, w: nat)
    requires i < |s| && PyQuoteOk(st)
    ensures 1 <= w <= 3 && i + w <= |s| && PyQuoteOk(t)
    ensures Python(s, i, st)[w..] == Python(s, i + w, t)
    ensures forall k :: 0 <= k < w ==> Kept(s[i + k], Python(s, i, st)[k]) && Python(s, i, st)[k] != HASH
  {
    var c := s[i];
    t, w := st, 1;
    if (st == PyCode && c == HASH) || (st == PyComment && c != NEWLINE) {
      t := PyComment;
    } else if st == PyCode || (c == NEWLINE && (st.PyComment? || st.PyString?)) {
      t := PyCode;
      if c == QUOTE || c == APOSTROPHE {
        t := PyString(c);
        if TripleAt(s, i, c) { t, w := PyTriple(c), 3; }
      }
    } else if st.PyString? {
      if c == BACKSLASH && i + 1 < |s| { w := 2; } else if c == st.quote && c != BACKSLASH { t := PyCode; }
    } else if st.PyTriple? && TripleAt(s, i, st.quote) {
      t, w := PyCode, 3;
    }
  }

  lemma {:induction false} PythonKeeps(s: Bytes, i: nat, st: PState, k: nat)
    requires i <= k < |s| && PyQuoteOk(st)
    ensures Kept(s[k], Python(s, i, st)[k - i]) && Python(s, i, st)[k - i] != HASH
    decreases |s| - i
  {
    hide Kept;
    var t, w := PNext(s, i, st);
    var r := Python(s, i, st);
    if k >= i + w {
      PythonKeeps(s, i + w, t, k);
      assert r[k - i] == r[w..][k - i - w];
    } else {
      assert s[i + (k - i)] == s[k];
    }
  }

  /** Positions are kept, and no comment is left. */
  lemma PythonPositions(src: Bytes)
    ensures PositionsKept(src, StripP(src)) && HASH !in StripP(src)
  {
    hide Kept;
    forall k | 0 <= k < |src| ensures Kept(src[k], StripP(src)[k]) && StripP(src)[k] != HASH { PythonKeeps(src, 0, PyCode, k); }
  }

  // ---- piece by piece ----

  lemma {:induction false} PShift(p: Bytes, s: Bytes, i: nat, st: PState)
    requires i <= |s|
    ensures Python(p + s, |p| + i, st) == Python(s, i, st)
    decreases |s| - i
  {
    hide PStep;
    if i < |s| {
      PStepShift(p, s, i, st);
      var r := PStep(s, i, st);
      PShift(p, s, i + |r.0|, r.1);
    }
  }

  lemma PStepShift(p: Bytes, s: Bytes, i: nat, st: PState)
    requires i < |s|
    ensures PStep(p + s, |p| + i, st) == PStep(s, i, st)
  {
    var ps, n := p + s, |p| + i;
    assert ps[n] == s[i];
    assert i + 1 < |s| ==> ps[n + 1] == s[i + 1];
    assert i + 2 < |s| ==> ps[n + 2] == s[i + 2];
  }

  lemma {:induction false} PCodeStays(s: Bytes, i: nat, j: nat)
    requires i <= j <= |s| && forall k :: i <= k < j ==> s[k] != HASH && !IsQuote(s[k])
    ensures Python(s, i, PyCode) == s[i..j] + Python(s, j, PyCode)
    decreases j - i
  {
    if i < j {
      PCodeStays(s, i + 1, j);
      assert s[i..j] == [s[i]] + s[i + 1..j];
    }
  }

  lemma {:induction false} PLineIsBlanked(s: Bytes, i: nat, j: nat)
    requires i <= j <= |s| && NEWLINE !in s[i..j]
    ensures Python(s, i, PyComment) == BlankThen(s, i, j, Python(s, j, PyComment))
    decreases j - i
  {
    hide BlankThen;
    if i == j { BlankNone(s, i, Python(s, j, PyComment)); } else {
      assert s[i] == s[i..j][0] && s[i] in s[i..j];
      assert s[i + 1..j] == s[i..j][1..];
      PLineIsBlanked(s, i + 1, j);
      BlankMore(s, i, j, Python(s, j, PyComment));
    }
  }

  lemma {:induction false} PQuotedIsBlanked(s: Bytes, i: nat, j: nat, q: byte)
    requires i <= j <= |s| && IsQuote(q) && Held(s[i..j], q, j == |s|)
    ensures Python(s, i, PyString(q)) == BlankThen(s, i, j, Python(s, j, PyString(q)))
    decreases j - i
  {
    hide BlankThen, Held;
    var after := Python(s, j, PyString(q));
    if i == j { BlankNone(s, i, after); } else {
      HeldOn(s, i, j, q, j == |s|);
      BlankMore(s, i, j, after);
      if s[i] == BACKSLASH && i + 1 < j {
        PQuotedIsBlanked(s, i + 2, j, q);
        BlankMore(s, i + 1, j, after);
        TwoThen(SPACE, Blank(s[i + 1]), BlankThen(s, i + 2, j, after));
      } else {
        PQuotedIsBlanked(s, i + 1, j, q);
      }
    }
  }

  lemma {:induction false} PTripleIsBlanked(s: Bytes, i: nat, j: nat, q: byte)
    requires i <= j <= |s| && forall k :: i <= k < j ==> !TripleAt(s, k, q)
    ensures Python(s, i, PyTriple(q)) == BlankThen(s, i, j, Python(s, j, PyTriple(q)))
    decreases j - i
  {
    hide BlankThen, TripleAt;
    if i == j { BlankNone(s, i, Python(s, j, PyTriple(q))); } else {
      PTripleIsBlanked(s, i + 1, j, q);
      BlankMore(s, i, j, Python(s, j, PyTriple(q)));
    }
  }

  predicate PBlanks(p: Piece, rest: Bytes) {
    StripP(PieceText(p) + rest) == PieceBlanked(p) + StripP(rest)
  }

  lemma PStepOf(s: Bytes, i: nat, st: PState)
    requires i < |s|
    ensures var r := PStep(s, i, st); Python(s, i, st) == r.0 + Python(s, i + |r.0|, r.1)
    ensures st == PyCode && IsQuote(s[i]) && TripleAt(s, i, s[i]) ==> PStep(s, i, st) == ([s[i], s[i], s[i]], PyTriple(s[i]))
    ensures st == PyCode && IsQuote(s[i]) && !TripleAt(s, i, s[i]) ==> PStep(s, i, st) == ([s[i]], PyString(s[i]))
    ensures st.PyString? && IsQuote(st.quote) && s[i] == st.quote ==> PStep(s, i, st) == ([s[i]], PyCode)
    ensures st.PyTriple? && TripleAt(s, i, st.quote) ==> PStep(s, i, st) == ([st.quote, st.quote, st.quote], PyCode)
  {
  }

  lemma PAtEnd(s: Bytes, st: PState)
    ensures Python(s, |s|, st) == []
  {
  }

  /** The end of the line, or of the text, is as good as code. */
  lemma PLineEnds(s: Bytes, j: nat, q: byte)
    requires j <= |s| && (j < |s| ==> s[j] == NEWLINE)
    ensures Python(s, j, PyString(q)) == Python(s, j, PyCode) == Python(s, j, PyComment)
  {
  }

  lemma PVerbatimStays(t: Bytes, rest: Bytes)
    requires PyPiece(Verbatim(t), rest)
    ensures PBlanks(Verbatim(t), rest)
  {
    hide Python;
    var s := t + rest;
    assert forall k :: 0 <= k < |t| ==> s[k] == t[k];
    PCodeStays(s, 0, |t|);
    PShift(t, rest, 0, PyCode);
    assert s[0..|t|] == t;
  }

  lemma PRemarkGoes(t: Bytes, rest: Bytes)
    requires RestOfLine([HASH], t, rest)
    ensures PBlanks(Remark(t), rest)
  {
    hide BlankThen;
    var s := t + rest;
    assert s[0] == HASH by { assert t[..1] == [HASH]; }
    assert s[0..|t|] == t;
    assert Python(s, 0, PyCode) == Python(s, 0, PyComment);
    PLineIsBlanked(s, 0, |t|);
    PLineEnds(s, |t|, QUOTE);
    PShift(t, rest, 0, PyCode);
    WholeBlank(t, rest, StripP(rest));
  }

  lemma PQuotesStay(q: byte, t: Bytes, c: Bytes, rest: Bytes)
    requires IsQuote(q) && WithinQuotes(q, t, c, rest) && !TripleAt([q] + t + c + rest, 0, q)
    ensures PBlanks(Literal([q], t, c), rest)
  {
    FramedText(q, t, c, rest);
    hide Python, PStep, BlankThen, Held, TripleAt, Framed, PieceBlanked;
    var s, j := Framed(q, t, c, rest), 1 + |t|;
    FramedIs(q, t, c, rest);
    FramedBlanks(q, t, c, rest, StripP(rest));
    FramedThen(q, t, c, rest);
    PStepOf(s, 0, PyCode);
    HeldAnyway(t, q, c == [] && rest == [], j == |s|);
    PQuotedIsBlanked(s, 1, j, q);
    if c != [] { PStepOf(s, j, PyString(q)); } else {
      PLineEnds(s, j, q);
      NothingFirst(c, StripP(rest));
    }
  }

  lemma PTripleStays(q: byte, t: Bytes, c: Bytes, rest: Bytes)
    requires IsQuote(q) && WithinTriple(q, t, c, rest)
    ensures PBlanks(Literal([q, q, q], t, c), rest)
  {
    hide Python, PStep, BlankThen, TripleAt, WithinTriple;
    var o := [q, q, q];
    var p := Literal(o, t, c);
    var s, j := PieceText(p) + rest, 3 + |t|;
    BetweenMarks(o, t, c, rest, StripP(rest));
    Tripled(o, t, c, rest, q);
    PStepOf(s, 0, PyCode);
    PTripleIsBlanked(s, 3, j, q);
    PShift(PieceText(p), rest, 0, PyCode);
    if c != [] { PStepOf(s, j, PyTriple(q)); } else {
      PAtEnd(s, PyTriple(q));
      PAtEnd(rest, PyCode);
      assert c + StripP(rest) == StripP(rest) == [];
    }
  }

  lemma Tripled(o: Bytes, t: Bytes, c: Bytes, rest: Bytes, q: byte)
    requires o == [q, q, q] && WithinTriple(q, t, c, rest)
    ensures var s := o + t + c + rest;
      && s[0] == q && TripleAt(s, 0, q) && (forall k :: 3 <= k < 3 + |t| ==> !TripleAt(s, k, q))
      && ((c == o && TripleAt(s, 3 + |t|, q)) || (c == [] && rest == []))
  {
    var s := o + t + c + rest;
    hide WithinTriple, TripleAt;
    assert TripleAt(s, 0, q) by { TripleMark([], o, t + c + rest, q); assert [] + o + (t + c + rest) == s; }
    forall k | 3 <= k < 3 + |t| ensures !TripleAt(s, k, q) { NoTripleThere(o, t, c, rest, k, q); }
    TripleCloses(q, t, c, rest);
    if c == o { TripleMark(o + t, c, rest, q); }
  }

  lemma TripleCloses(q: byte, t: Bytes, c: Bytes, rest: Bytes)
    requires WithinTriple(q, t, c, rest)
    ensures c == [q, q, q] || (c == [] && rest == [])
  {
  }

  lemma TripleMark(a: Bytes, o: Bytes, b: Bytes, q: byte)
    requires o == [q, q, q]
    ensures TripleAt(a + o + b, |a|, q)
  {
    var s := a + o + b;
    assert s[|a|] == o[0] && s[|a| + 1] == o[1] && s[|a| + 2] == o[2];
  }

  lemma NoTripleThere(o: Bytes, t: Bytes, c: Bytes, rest: Bytes, k: nat, q: byte)
    requires |o| == 3 && 3 <= k < 3 + |t| && WithinTriple(q, t, c, rest)
    ensures !TripleAt(o + t + c + rest, k, q)
  {
    assert !TripleAt(t + c, k - 3, q);
    var s := o + t + c + rest;
    assert forall m :: 0 <= m < |t + c| ==> s[3 + m] == (t + c)[m];
  }

  lemma PPieceBlanks(p: Piece, rest: Bytes)
    requires PyPiece(p, rest)
    ensures PBlanks(p, rest)
  {
    hide PBlanks, RestOfLine, WithinQuotes, WithinTriple, TripleAt;
    match p
    case Verbatim(t) => PVerbatimStays(t, rest);
    case Remark(t) => PRemarkGoes(t, rest);
    case Literal(o, t, c) =>
      if |o| == 1 {
        assert o == [o[0]];
        PQuotesStay(o[0], t, c, rest);
      } else {
        assert o == [o[0], o[0], o[0]];
        PTripleStays(o[0], t, c, rest);
      }
  }

  lemma {:induction false} StripPBlanks(ps: seq<Piece>)
    requires Reads(PythonLike, ps)
    ensures StripP(Text(ps)) == Blanked(ps)
  {
    hide StripP, PyPiece;
    if ps == [] { StripNone(); } else {
      PPieceBlanks(ps[0], Text(ps[1..]));
      StripPBlanks(ps[1..]);
    }
  }

  lemma PBlanksOut(src: Bytes)
    ensures BlanksOut(PythonLike, src, StripP(src))
  {
    hide StripP, Reads, Blanked, Text;
    forall ps | Reading(PythonLike, src, ps) ensures StripP(src) == Blanked(ps) { StripPBlanks(ps); }
  }

  /** Blanks a comment up to the end of its line. */
  method BlankComment(src: Bytes, out: array<byte>, i: nat, ghost all: Bytes) returns (i': nat)
    requires i < out.Length == |src| && Progress(src, out[..], i, Python(src, i, PyComment), all)
    modifies out
    ensures i <= i' <= |src| && Progress(src, out[..], i', Python(src, i', PyCode), all)
    ensures src[i] != NEWLINE ==> i < i'
  {
    hide Progress;
    i' := i;
    SameAhead(src, out[..], i, Python(src, i, PyComment), all);
    while i' < out.Length && out[i'] != NEWLINE
      invariant i <= i' <= |src| && Progress(src, out[..], i', Python(src, i', PyComment), all)
      invariant src[i] != NEWLINE && i' == i ==> out[i'] != NEWLINE
    {
      SameAhead(src, out[..], i', Python(src, i', PyComment), all);
      ghost var was := out[..];
      out[i'] := SPACE;
      assert out[..] == was[i' := SPACE];
      OneDone(src, was, i', SPACE, Python(src, i' + 1, PyComment), all);
      i' := i' + 1;
    }
    if i' < out.Length { SameAhead(src, out[..], i', Python(src, i', PyComment), all); }
  }

  /** Blanks a string up to its quote or the end of its line. */
  method BlankString(src: Bytes, out: array<byte>, i: nat, q: byte, ghost all: Bytes) returns (i': nat)
    requires i <= out.Length == |src| && (q == QUOTE || q == APOSTROPHE) && Progress(src, out[..], i, Python(src, i, PyString(q)), all)
    modifies out
    ensures i <= i' && i' <= |src| && Progress(src, out[..], i', Python(src, i', PyCode), all)
  {
    hide Progress;
    i' := i;
    while i' < out.Length && out[i'] != NEWLINE
      invariant i <= i' <= |src| && Progress(src, out[..], i', Python(src, i', PyString(q)), all)
    {
      SameAhead(src, out[..], i', Python(src, i', PyString(q)), all);
      ghost var was := out[..];
      if out[i'] == BACKSLASH {
        out[i'] := SPACE;
        if i' + 1 >= out.Length {
          assert out[..] == was[i' := SPACE];
          assert Python(src, i', PyString(q)) == [SPACE] + [];
          OneDone(src, was, i', SPACE, [], all);
          i' := i' + 1;
          return;
        }
        if out[i' + 1] != NEWLINE { out[i' + 1] := SPACE; }
        ghost var one: Bytes := was[i' := SPACE];
        assert out[..] == one[i' + 1 := Blank(src[i' + 1])];
        TwoDone(src, was, i', SPACE, Blank(src[i' + 1]), Python(src, i' + 2, PyString(q)), all);
        i' := i' + 2;
        continue;
      }
      if out[i'] == q {
        assert was[i' := q] == was;
        OneDone(src, was, i', q, Python(src, i' + 1, PyCode), all);
        i' := i' + 1;
        return;
      }
      out[i'] := SPACE;
      assert out[..] == was[i' := SPACE];
      OneDone(src, was, i', SPACE, Python(src, i' + 1, PyString(q)), all);
      i' := i' + 1;
    }
    if i' < out.Length { SameAhead(src, out[..], i', Python(src, i', PyString(q)), all); }
  }

  lemma ThreeKept(src: Bytes, out: Bytes, i: nat, q: byte, rest: Bytes, all: Bytes)
    requires TripleAt(src, i, q) && Progress(src, out, i, [q, q, q] + rest, all)
    ensures Progress(src, out, i + 3, rest, all)
  {
    assert out[..i + 3] == out[..i] + [q, q, q] by { assert out[i..][..3] == src[i..][..3] == [q, q, q]; }
    assert out[i + 3..] == out[i..][3..] == src[i..][3..] == src[i + 3..];
    assert out[..i] + ([q, q, q] + rest) == (out[..i] + [q, q, q]) + rest;
  }

  lemma TripleAhead(src: Bytes, out: Bytes, i: nat, q: byte, rest: Bytes, all: Bytes)
    requires i < |src| && Progress(src, out, i, rest, all)
    ensures TripleAt(out, i, q) <==> TripleAt(src, i, q)
  {
    assert forall k :: 0 <= k < |src| - i ==> out[i + k] == out[i..][k] == src[i..][k] == src[i + k];
  }

  /** Blanks a triple-quoted string. */
  method BlankTriple(src: Bytes, out: array<byte>, i: nat, q: byte, ghost all: Bytes) returns (i': nat)
    requires i <= out.Length == |src| && (q == QUOTE || q == APOSTROPHE) && Progress(src, out[..], i, Python(src, i, PyTriple(q)), all)
    modifies out
    ensures i <= i' <= |src| && Progress(src, out[..], i', Python(src, i', PyCode), all)
  {
    hide Progress;
    i' := i;
    while i' < out.Length
      invariant i <= i' <= |src| && Progress(src, out[..], i', Python(src, i', PyTriple(q)), all)
    {
      ghost var was := out[..];
      SameAhead(src, was, i', Python(src, i', PyTriple(q)), all);
      TripleAhead(src, was, i', q, Python(src, i', PyTriple(q)), all);
      if out[i'] == q && i' + 2 < out.Length && out[i' + 1] == q && out[i' + 2] == q {
        assert TripleAt(was, i', q);
        ThreeKept(src, was, i', q, Python(src, i' + 3, PyCode), all);
        i' := i' + 3;
        return;
      }
      assert !TripleAt(was, i', q);
      if out[i'] != NEWLINE { out[i'] := SPACE; }
      assert out[..] == was[i' := Blank(src[i'])];
      OneDone(src, was, i', Blank(src[i']), Python(src, i' + 1, PyTriple(q)), all);
      i' := i' + 1;
    }
  }

  /** Blanks comments and strings in a copy of the source. */
  method StripPython(src: Bytes) returns (out: array<byte>)
    ensures fresh(out) && out[..] == StripP(src) && PositionsKept(src, out[..])
    ensures BlanksOut(PythonLike, src, out[..])
  {
    hide Progress, BlanksOut;
    out := new byte[|src|](k requires 0 <= k < |src| => src[k]);
    var i := 0;
    ghost var all := StripP(src);
    assert out[..] == src;
    NoneDone(src, all);
    while i < out.Length
      invariant 0 <= i <= out.Length == |src|
      invariant Progress(src, out[..], i, Python(src, i, PyCode), all)
    {
      ghost var was := out[..];
      SameAhead(src, was, i, Python(src, i, PyCode), all);
      var c := out[i];
      if c == HASH {
        i := BlankComment(src, out, i, all);
      } else if c == QUOTE || c == APOSTROPHE {
        TripleAhead(src, was, i, c, Python(src, i, PyCode), all);
        if i + 2 < out.Length && out[i + 1] == c && out[i + 2] == c {
          assert TripleAt(was, i, c);
          ThreeKept(src, was, i, c, Python(src, i + 3, PyTriple(c)), all);
          i := BlankTriple(src, out, i + 3, c, all);
        } else {
          assert !TripleAt(was, i, c) && was[i := c] == was;
          OneDone(src, was, i, c, Python(src, i + 1, PyString(c)), all);
          i := BlankString(src, out, i + 1, c, all);
        }
      } else {
        assert was[i := c] == was;
        OneDone(src, was, i, c, Python(src, i + 1, PyCode), all);
        i := i + 1;
      }
    }
    AllDone(src, out[..], i, all);
    PythonPositions(src);
    PBlanksOut(src);
  }
}
