/** Positions in source text (internal/symbol): the line of an offset, by counting and by
    binary search; the body of a type between its braces, and that any two bodies nest,
    coincide or are apart; the smallest type around a place; and references to a name,
    one for each line, found in text stripped of comments and literals. */
module Symbols {
  import opened Bytes
  import opened Lines
  import opened Literal
  import opened Lexis
  import opened Strip

  const OPEN: byte := 123
  const CLOSE: byte := 125
  const SEMICOLON: byte := 59
  const PAREN: byte := 40
  const TAB: byte := 9
  const RETURN: byte := 13

  // ---- line numbers ----

  /** The line of a position: one more than the newlines before it. */
  function LineOf(src: Bytes, pos: nat): nat {
    Newlines(src, if pos <= |src| then pos else |src|) + 1
  }

  /** The offset, or the end for one past it. */
  function Within(src: Bytes, pos: nat): nat { if pos <= |src| then pos else |src| }

  lemma LineMeans(src: Bytes, pos: nat)
    ensures LineOf(src, pos) == |NewlinesBefore(src, Within(src, pos))| + 1
  {
    hide NewlinesBefore;
    NewlinesCount(src, Within(src, pos));
  }

  method CountLines(src: Bytes, pos: nat) returns (line: nat)
    ensures line == LineOf(src, pos)
    ensures line == |NewlinesBefore(src, Within(src, pos))| + 1
  {
    hide NewlinesBefore;
    LineMeans(src, pos);
    line := 1;
    var i := 0;
    while i < pos && i < |src|
      invariant 0 <= i <= |src| && i <= pos && line == Newlines(src, i) + 1
    {
      if src[i] == NEWLINE { line := line + 1; }
      i := i + 1;
    }
  }

  /** Offsets where lines start: zero, and every one after a newline. */
  ghost predicate LineStarts(src: Bytes, starts: seq<nat>, upTo: nat) {
    && upTo <= |src| && |starts| == Newlines(src, upTo) + 1 && starts[0] == 0
    && (forall i, j :: 0 <= i < j < |starts| ==> starts[i] < starts[j])
    && (forall i :: 0 <= i < |starts| ==> starts[i] <= upTo && Newlines(src, starts[i]) == i)
    && (forall i :: 0 < i < |starts| ==> src[starts[i] - 1] == NEWLINE)
  }

  method NewLineIndex(src: Bytes) returns (starts: seq<nat>)
    ensures LineStarts(src, starts, |src|)
  {
    starts := [0];
    for i := 0 to |src|
      invariant LineStarts(src, starts, i)
    {
      if src[i] == NEWLINE { starts := starts + [i + 1]; }
    }
  }

  /** A line's start and the next one's enclose its positions. */
  lemma LineBetween(src: Bytes, starts: seq<nat>, k: nat, pos: nat)
    requires LineStarts(src, starts, |src|) && k < |starts| && starts[k] <= pos && (k + 1 < |starts| ==> pos < starts[k + 1])
    ensures LineOf(src, pos) == k + 1
  {
    hide Newlines;
    var p := if pos <= |src| then pos else |src|;
    NewlinesMono(src, starts[k], p);
    NewlinesMono(src, p, |src|);
    if k + 1 < |starts| { LastBefore(src, p, starts[k + 1]); }
  }

  /** Before the newline that starts line `k + 1`, at most `k` newlines have passed. */
  lemma LastBefore(src: Bytes, p: nat, next: nat)
    requires p < next <= |src| && src[next - 1] == NEWLINE
    ensures Newlines(src, p) < Newlines(src, next)
  {
    NewlinesMono(src, p, next - 1);
  }

  /** Binary search for the last line starting at or before the position. */
  method FindLine(src: Bytes, starts: seq<nat>, pos: nat) returns (line: nat)
    requires LineStarts(src, starts, |src|)
    ensures line == LineOf(src, pos)
    ensures line == |NewlinesBefore(src, Within(src, pos))| + 1
  {
    hide Newlines, LineOf, NewlinesBefore;
    LineMeans(src, pos);
    var lo, hi := 0, |starts| - 1;
    while lo < hi
      invariant 0 <= lo <= hi < |starts| && starts[lo] <= pos
      invariant hi + 1 < |starts| ==> pos < starts[hi + 1]
    {
      var mid := (lo + hi + 1) / 2;
      if starts[mid] <= pos { lo := mid; } else { hi := mid - 1; }
    }
    LineBetween(src, starts, lo, pos);
    return lo + 1;
  }

  /** Stripped text has its newlines where the source has them. */
  lemma {:induction false} SameLines(src: Bytes, out: Bytes, p: nat)
    requires PositionsKept(src, out) && p <= |src|
    ensures Newlines(out, p) == Newlines(src, p)
  {
    if p > 0 {
      assert Kept(src[p - 1], out[p - 1]);
      SameLines(src, out, p - 1);
    }
  }

  /** A line number found in stripped text is the line number in the source. */
  lemma StrippedLine(src: Bytes, out: Bytes, pos: nat)
    requires PositionsKept(src, out)
    ensures LineOf(out, pos) == LineOf(src, pos)
  {
    SameLines(src, out, if pos <= |src| then pos else |src|);
  }

  // ---- braces ----

  /** Opening braces less closing ones between two offsets. */
  function Depth(s: Bytes, begin: nat, end: nat): int
    requires begin <= end <= |s|
    decreases end
  {
    if begin == end then 0
    else Depth(s, begin, end - 1) + (if s[end - 1] == OPEN then 1 else if s[end - 1] == CLOSE then -1 else 0)
  }

  /** The offsets between two at which a byte stands. */
  function Places(s: Bytes, b: byte, begin: nat, end: nat): set<nat> {
    set k: nat | begin <= k < end && k < |s| && s[k] == b
  }

  lemma PlacesStep(s: Bytes, b: byte, begin: nat, end: nat)
    requires begin <= end < |s|
    ensures |Places(s, b, begin, end + 1)| == |Places(s, b, begin, end)| + if s[end] == b then 1 else 0
  {
    assert Places(s, b, begin, end + 1) == Places(s, b, begin, end) + if s[end] == b then {end} else {};
  }

  lemma {:induction false} DepthCounts(s: Bytes, begin: nat, end: nat)
    requires begin <= end <= |s|
    ensures Depth(s, begin, end) == |Places(s, OPEN, begin, end)| - |Places(s, CLOSE, begin, end)|
    decreases end
  {
    hide Places;
    if begin == end { NoPlaces(s, begin); } else {
      DepthCounts(s, begin, end - 1);
      PlacesStep(s, OPEN, begin, end - 1);
      PlacesStep(s, CLOSE, begin, end - 1);
    }
  }

  lemma NoPlaces(s: Bytes, begin: nat)
    ensures forall b :: Places(s, b, begin, begin) == {}
  {
  }

  lemma {:induction false} DepthSplit(s: Bytes, a: nat, b: nat, c: nat)
    requires a <= b <= c <= |s|
    ensures Depth(s, a, c) == Depth(s, a, b) + Depth(s, b, c)
    decreases c
  {
    if b < c { DepthSplit(s, a, b, c - 1); }
  }

  /** The braces opened at `open` are not all closed before `close`. */
  predicate OpenUntil(s: Bytes, open: nat, close: nat) {
    open < close <= |s| && forall k :: open < k < close ==> Depth(s, open, k) > 0
  }

  /** The body that a brace opens: up to the brace closing it or, failing that, the end. */
  predicate Body(s: Bytes, open: nat, close: nat) {
    && open < |s| && s[open] == OPEN && OpenUntil(s, open, close)
    && (Depth(s, open, close) == 0 || (close == |s| && Depth(s, open, close) > 0))
  }

  /** No brace and no semicolon between two offsets. */
  predicate Plain(s: Bytes, begin: nat, end: nat) {
    begin <= end <= |s| && forall k :: begin <= k < end ==> s[k] != OPEN && s[k] != SEMICOLON
  }

  /** What is found for a declaration ending at `pos`: the first body before a semicolon. */
  ghost predicate Found(s: Bytes, pos: nat, open: int, close: int) {
    if open == -1 then close == -1 && forall k :: pos <= k < |s| && s[k] == OPEN ==> !Plain(s, pos, k)
    else pos <= open && 0 <= close && Plain(s, pos, open) && Body(s, open, close)
  }

  /** The brace after a position and the one that matches it. */
  method BraceRange(s: Bytes, pos: nat) returns (open: int, close: int)
    requires pos <= |s|
    ensures open == -1 || 0 <= open < close <= |s|
    ensures Found(s, pos, open, close)
  {
    hide Depth;
    open := -1;
    for i := pos to |s|
      invariant open == -1 && Plain(s, pos, i)
    {
      if s[i] == OPEN {
        open := i;
        break;
      }
      if s[i] == SEMICOLON { return -1, -1; }
    }
    if open < 0 { return -1, -1; }
    var depth := 0;
    DepthStart(s, open);
    for i := open to |s|
      invariant depth == Depth(s, open, i) && (i > open ==> depth > 0)
      invariant forall k :: open < k <= i ==> Depth(s, open, k) > 0
    {
      DepthStep(s, open, i);
      if s[i] == OPEN {
        depth := depth + 1;
      } else if s[i] == CLOSE {
        depth := depth - 1;
        if depth == 0 { return open, i + 1; }
      }
    }
    return open, |s|;
  }

  lemma DepthStart(s: Bytes, open: nat)
    requires open <= |s|
    ensures Depth(s, open, open) == 0
  {
  }

  lemma DepthStep(s: Bytes, open: nat, i: nat)
    requires open <= i < |s|
    ensures Depth(s, open, i + 1) == Depth(s, open, i) + (if s[i] == OPEN then 1 else if s[i] == CLOSE then -1 else 0)
  {
  }

  /** Depth changes by one at a time: to get below zero it passes through zero. */
  lemma {:induction false} PassesZero(s: Bytes, open: nat, end: nat) returns (k: nat)
    requires open < end <= |s| && Depth(s, open, open + 1) > 0 && Depth(s, open, end) <= 0
    ensures open < k <= end && Depth(s, open, k) == 0
    decreases end
  {
    if Depth(s, open, end) == 0 { k := end; } else { k := PassesZero(s, open, end - 1); }
  }

  lemma BodyEndsBy(s: Bytes, o: nat, c: nat, k: nat)
    requires Body(s, o, c) && o < k <= |s| && Depth(s, o, k) == 0
    ensures c <= k
  {
    hide Depth;
  }

  /** A body that begins inside another one ends inside it. */
  lemma InnerEndsFirst(s: Bytes, o1: nat, c1: nat, o2: nat, c2: nat)
    requires Body(s, o1, c1) && Body(s, o2, c2) && o1 < o2 < c1
    ensures c2 <= c1
  {
    hide Depth;
    if Depth(s, o1, c1) == 0 {
      DepthSplit(s, o1, o2, c1);
      DepthStart(s, o2);
      DepthStep(s, o2, o2);
      var k := PassesZero(s, o2, c1);
      BodyEndsBy(s, o2, c2, k);
    }
  }

  lemma SameOpenSameClose(s: Bytes, o: nat, c1: nat, c2: nat)
    requires Body(s, o, c1) && Body(s, o, c2)
    ensures c1 == c2
  {
    hide Depth;
    NotShorter(s, o, c1, c2);
    NotShorter(s, o, c2, c1);
  }

  lemma NotShorter(s: Bytes, o: nat, c1: nat, c2: nat)
    requires Body(s, o, c1) && Body(s, o, c2)
    ensures c2 <= c1
  {
    hide Depth;
  }

  predicate Nested(o1: int, c1: int, o2: int, c2: int) { o1 <= o2 && c2 <= c1 }

  /** Any two bodies on the same text, balanced or not, are nested, the same, or apart. */
  lemma Laminar(s: Bytes, o1: nat, c1: nat, o2: nat, c2: nat)
    requires Body(s, o1, c1) && Body(s, o2, c2)
    ensures Nested(o1, c1, o2, c2) || Nested(o2, c2, o1, c1) || c1 <= o2 || c2 <= o1
    ensures o1 == o2 ==> c1 == c2
  {
    hide Body;
    if o1 == o2 { SameOpenSameClose(s, o1, c1, c2); }
    else if o1 < o2 < c1 { InnerEndsFirst(s, o1, c1, o2, c2); }
    else if o2 < o1 < c2 { InnerEndsFirst(s, o2, c2, o1, c1); }
  }

  // ---- the type around a position ----

  datatype TypeRange = TypeRange(name: Bytes, isInterface: bool, open: int, close: int)

  predicate Encloses(t: TypeRange, pos: int) { 0 <= t.open < pos < t.close }

  ghost predicate FromText(s: Bytes, types: seq<TypeRange>) {
    forall i :: 0 <= i < |types| ==> types[i].open == -1 || (0 <= types[i].open && 0 <= types[i].close && Body(s, types[i].open, types[i].close))
  }

  /** The last of the enclosing types to open. */
  method Innermost(types: seq<TypeRange>, pos: int) returns (best: int)
    ensures -1 <= best < |types|
    ensures best == -1 <==> forall i :: 0 <= i < |types| ==> !Encloses(types[i], pos)
    ensures best >= 0 ==> Encloses(types[best], pos) && forall i :: 0 <= i < |types| && Encloses(types[i], pos) ==> types[i].open <= types[best].open
    ensures best >= 0 ==> forall i :: 0 <= i < best && Encloses(types[i], pos) ==> types[i].open < types[best].open
  {
    best := -1;
    for k := 0 to |types|
      invariant -1 <= best < k
      invariant best == -1 <==> forall i :: 0 <= i < k ==> !Encloses(types[i], pos)
      invariant best >= 0 ==> Encloses(types[best], pos) && forall i :: 0 <= i < k && Encloses(types[i], pos) ==> types[i].open <= types[best].open
      invariant best >= 0 ==> forall i :: 0 <= i < best && Encloses(types[i], pos) ==> types[i].open < types[best].open
    {
      var t := types[k];
      if t.open >= 0 && t.open < pos && pos < t.close {
        if best == -1 || t.open > types[best].open { best := k; }
      }
    }
  }

  /** It is the smallest enclosing type: it lies within every other one. */
  lemma InnermostIsSmallest(s: Bytes, types: seq<TypeRange>, pos: int, best: nat, i: nat)
    requires FromText(s, types) && best < |types| && i < |types| && Encloses(types[best], pos) && Encloses(types[i], pos)
    requires types[i].open <= types[best].open
    ensures Nested(types[i].open, types[i].close, types[best].open, types[best].close)
  {
    hide Body;
    Laminar(s, types[i].open, types[i].close, types[best].open, types[best].close);
  }

  /** The name of the smallest type around a position, if any. */
  method ContainerAt(s: Bytes, types: seq<TypeRange>, pos: int) returns (name: Bytes)
    requires FromText(s, types)
    ensures (forall i :: 0 <= i < |types| ==> !Encloses(types[i], pos)) ==> name == []
    ensures forall j :: 0 <= j < |types| && Encloses(types[j], pos) ==>
      exists i :: 0 <= i < |types| && name == types[i].name && Encloses(types[i], pos) && Nested(types[j].open, types[j].close, types[i].open, types[i].close)
  {
    hide Body;
    var i := Innermost(types, pos);
    if i < 0 { return []; }
    name := types[i].name;
    forall j | 0 <= j < |types| && Encloses(types[j], pos) ensures Nested(types[j].open, types[j].close, types[i].open, types[i].close) {
      InnermostIsSmallest(s, types, pos, i, j);
    }
  }

  // ---- references ----

  function Stripped(lang: Language, src: Bytes): Bytes {
    match lang
    case CFamily => StripC(src)
    case PythonLike => StripP(src)
    case OtherLanguage => src
  }

  lemma StrippedKeeps(lang: Language, src: Bytes)
    ensures PositionsKept(src, Stripped(lang, src))
    ensures BlanksOut(lang, src, Stripped(lang, src))
  {
    hide CLike, Python, BlanksOut;
    CLikePositions(src);
    PythonPositions(src);
    match lang
    case CFamily => CBlanksOut(src);
    case PythonLike => PBlanksOut(src);
    case OtherLanguage => AllStays(src);
  }

  lemma AllStays(src: Bytes)
    ensures BlanksOut(OtherLanguage, src, src)
  {
    hide Text, Blanked, Reads;
    forall ps | Reading(OtherLanguage, src, ps) ensures src == Blanked(ps) { VerbatimOnly(ps); }
  }

  lemma {:induction false} VerbatimOnly(ps: seq<Piece>)
    requires Reads(OtherLanguage, ps)
    ensures Text(ps) == Blanked(ps)
  {
    if ps != [] { VerbatimOnly(ps[1..]); }
  }

  method StripText(lang: Language, src: Bytes) returns (s: Bytes)
    ensures s == Stripped(lang, src)
    ensures BlanksOut(lang, src, s)
  {
    hide StripC, StripP, BlanksOut;
    AllStays(src);
    match lang
    case CFamily => var out := StripCLike(src); s := out[..];
    case PythonLike => var out := StripPython(src); s := out[..];
    case OtherLanguage => s := src;
  }

  predicate IsIdent(c: byte) {
    c == 95 || 97 <= c <= 122 || 65 <= c <= 90 || 48 <= c <= 57
  }

  predicate IsSpace(c: byte) { c == SPACE || c == TAB || c == NEWLINE || c == RETURN }

  /** The name stands at `pos` as a word of its own. */
  predicate WordAt(s: Bytes, name: Bytes, pos: nat) {
    && OccursAt(s, name, pos, false)
    && !(pos > 0 && IsIdent(s[pos - 1])) && !(pos + |name| < |s| && IsIdent(s[pos + |name|]))
  }

  /** The next thing after `i` is a parenthesis. */
  ghost predicate ParenAfter(s: Bytes, i: nat) {
    exists j :: i <= j < |s| && s[j] == PAREN && forall k :: i <= k < j ==> IsSpace(s[k])
  }

  /** The last thing before `pos`, blanks aside, are the letters of `new`. */
  ghost predicate NewBefore(s: Bytes, pos: nat) {
    exists p: nat :: NewEndsAt(s, p) && p < pos <= |s| && forall k :: p < k < pos ==> s[k] == SPACE || s[k] == TAB
  }

  predicate NewEndsAt(s: Bytes, p: nat) {
    2 <= p < |s| && s[p - 2] == 110 && s[p - 1] == 101 && s[p] == 119
  }

  ghost predicate CallAt(s: Bytes, name: Bytes, pos: nat) {
    ParenAfter(s, pos + |name|) || NewBefore(s, pos)
  }

  method SkipSpace(s: Bytes, i: nat) returns (j: nat)
    requires i <= |s|
    ensures i <= j <= |s| && (j < |s| ==> !IsSpace(s[j])) && forall k :: i <= k < j ==> IsSpace(s[k])
  {
    j := i;
    while j < |s| && IsSpace(s[j])
      invariant i <= j <= |s| && forall k :: i <= k < j ==> IsSpace(s[k])
    {
      j := j + 1;
    }
  }

  lemma FirstNonSpace(s: Bytes, i: nat, j: nat)
    requires i <= j <= |s| && (j < |s| ==> !IsSpace(s[j])) && forall k :: i <= k < j ==> IsSpace(s[k])
    ensures ParenAfter(s, i) <==> j < |s| && s[j] == PAREN
  {
    if ParenAfter(s, i) {
      var m :| i <= m < |s| && s[m] == PAREN && forall k :: i <= k < m ==> IsSpace(s[k]);
      assert !IsSpace(s[m]);
      assert m == j;
    }
  }

  lemma LastNonBlank(s: Bytes, pos: nat, p: int)
    requires -1 <= p < pos <= |s| && (forall k :: p < k < pos ==> s[k] == SPACE || s[k] == TAB)
    requires p >= 0 ==> s[p] != SPACE && s[p] != TAB
    ensures NewBefore(s, pos) <==> p >= 0 && NewEndsAt(s, p)
  {
    if NewBefore(s, pos) {
      var m: nat :| NewEndsAt(s, m) && m < pos && forall k :: m < k < pos ==> s[k] == SPACE || s[k] == TAB;
      assert s[m] == 119;
      assert m == p;
    }
  }

  /** Whether the word at `pos` looks like a call. */
  method LooksLikeCall(s: Bytes, name: Bytes, pos: nat) returns (call: bool)
    requires OccursAt(s, name, pos, false)
    ensures call <==> CallAt(s, name, pos)
  {
    var j := SkipSpace(s, pos + |name|);
    FirstNonSpace(s, pos + |name|, j);
    call := j < |s| && s[j] == PAREN;
    if !call {
      var p := pos - 1;
      while p >= 0 && (s[p] == SPACE || s[p] == TAB)
        invariant -1 <= p < pos && forall k :: p < k < pos ==> s[k] == SPACE || s[k] == TAB
      {
        p := p - 1;
      }
      LastNonBlank(s, pos, p);
      if p >= 2 && s[p - 2] == 110 && s[p - 1] == 101 && s[p] == 119 { call := true; }
    }
  }

  datatype Ref = Ref(line: nat, isCall: bool)

  predicate AllIdent(name: Bytes) { forall k :: 0 <= k < |name| ==> IsIdent(name[k]) }

  /** Occurrence `k` is a word, and the first one found on its line. */
  ghost predicate LeadsLine(s: Bytes, name: Bytes, hits: seq<Loc>, k: nat)
    requires k < |hits|
  {
    WordAt(s, name, hits[k].start) && forall j :: 0 <= j < k ==> !(WordAt(s, name, hits[j].start) && LineOf(s, hits[j].start) == LineOf(s, hits[k].start))
  }

  /** A reference tells of the first word found on a line that defines nothing of the name. */
  ghost predicate IsRef(s: Bytes, name: Bytes, defLines: set<nat>, hits: seq<Loc>, r: Ref) {
    r.line !in defLines && exists k :: 0 <= k < |hits| && RefOf(s, name, hits, k, r)
  }

  ghost predicate RefOf(s: Bytes, name: Bytes, hits: seq<Loc>, k: nat, r: Ref)
    requires k < |hits|
  {
    LeadsLine(s, name, hits, k) && r == Ref(LineOf(s, hits[k].start), CallAt(s, name, hits[k].start))
  }

  ghost predicate RefsSound(s: Bytes, name: Bytes, defLines: set<nat>, hits: seq<Loc>, refs: seq<Ref>) {
    (forall k :: 0 <= k < |refs| ==> IsRef(s, name, defLines, hits, refs[k])) && forall i, j :: 0 <= i < j < |refs| ==> refs[i].line < refs[j].line
  }

  ghost predicate Mentioned(refs: seq<Ref>, line: nat) {
    exists k :: 0 <= k < |refs| && refs[k].line == line
  }

  /** Every line with a word found is there. */
  ghost predicate RefsComplete(s: Bytes, name: Bytes, defLines: set<nat>, hits: seq<Loc>, refs: seq<Ref>) {
    forall k :: 0 <= k < |hits| ==> Reported(s, name, defLines, refs, hits[k].start)
  }

  ghost predicate Reported(s: Bytes, name: Bytes, defLines: set<nat>, refs: seq<Ref>, pos: nat) {
    WordAt(s, name, pos) && LineOf(s, pos) !in defLines ==> Mentioned(refs, LineOf(s, pos))
  }

  lemma LineMono(s: Bytes, p: nat, q: nat)
    requires p <= q
    ensures LineOf(s, p) <= LineOf(s, q)
  {
    NewlinesMono(s, if p <= |s| then p else |s|, if q <= |s| then q else |s|);
  }

  lemma MentionedMore(refs: seq<Ref>, r: Ref, line: nat)
    ensures Mentioned(refs, line) || r.line == line ==> Mentioned(refs + [r], line)
  {
    var more := refs + [r];
    assert more[|refs|] == r;
    if k :| 0 <= k < |refs| && refs[k].line == line { assert more[k].line == line; }
  }

  /** What is said of a reference does not depend on later finds. */
  lemma SoundLater(s: Bytes, name: Bytes, defLines: set<nat>, hits: seq<Loc>, refs: seq<Ref>, l: Loc)
    requires RefsSound(s, name, defLines, hits, refs)
    ensures RefsSound(s, name, defLines, hits + [l], refs)
  {
    hide WordAt, LineOf, CallAt;
    forall i | 0 <= i < |refs| ensures IsRef(s, name, defLines, hits + [l], refs[i]) {
      assert IsRef(s, name, defLines, hits, refs[i]);
      var k :| 0 <= k < |hits| && RefOf(s, name, hits, k, refs[i]);
      assert RefOf(s, name, hits + [l], k, refs[i]);
    }
  }

  /** The word just found is the first on its line, unless that line came last. */
  lemma LeadsNow(s: Bytes, name: Bytes, defLines: set<nat>, hits: seq<Loc>, refs: seq<Ref>, l: Loc)
    requires RefsSound(s, name, defLines, hits, refs) && RefsComplete(s, name, defLines, hits, refs)
    requires WordAt(s, name, l.start) && LineOf(s, l.start) !in defLines
    requires |refs| > 0 ==> refs[|refs| - 1].line < LineOf(s, l.start)
    ensures LeadsLine(s, name, hits + [l], |hits|)
  {
    hide WordAt, LineOf, CallAt, IsRef;
    forall j | 0 <= j < |hits| && WordAt(s, name, hits[j].start) ensures LineOf(s, hits[j].start) != LineOf(s, l.start) {
      assert Reported(s, name, defLines, refs, hits[j].start);
      if LineOf(s, hits[j].start) !in defLines {
        var k :| 0 <= k < |refs| && refs[k].line == LineOf(s, hits[j].start);
        assert k < |refs| - 1 ==> refs[k].line < refs[|refs| - 1].line;
      }
    }
  }

  lemma SoundMore(s: Bytes, name: Bytes, defLines: set<nat>, hits: seq<Loc>, refs: seq<Ref>, l: Loc, r: Ref)
    requires RefsSound(s, name, defLines, hits, refs) && RefsComplete(s, name, defLines, hits, refs) && WordAt(s, name, l.start)
    requires r == Ref(LineOf(s, l.start), CallAt(s, name, l.start)) && r.line !in defLines
    requires |refs| > 0 ==> refs[|refs| - 1].line < r.line
    ensures RefsSound(s, name, defLines, hits + [l], refs + [r])
  {
    hide WordAt, LineOf, CallAt, RefsComplete, LeadsLine;
    LeadsNow(s, name, defLines, hits, refs, l);
    SoundLater(s, name, defLines, hits, refs, l);
    assert RefOf(s, name, hits + [l], |hits|, r);
  }

  lemma CompleteMore(s: Bytes, name: Bytes, defLines: set<nat>, hits: seq<Loc>, refs: seq<Ref>, l: Loc, refs': seq<Ref>)
    requires RefsComplete(s, name, defLines, hits, refs) && Reported(s, name, defLines, refs', l.start)
    requires refs' == refs || exists r :: refs' == refs + [r]
    ensures RefsComplete(s, name, defLines, hits + [l], refs')
  {
    hide WordAt, LineOf, Mentioned;
    forall k | 0 <= k < |hits| ensures Reported(s, name, defLines, refs', hits[k].start) {
      assert Reported(s, name, defLines, refs, hits[k].start);
      if refs' != refs {
        var r :| refs' == refs + [r];
        MentionedMore(refs, r, LineOf(s, hits[k].start));
      }
    }
  }

  /** One reference for each line with a word of the name, outside comments and strings
      and not among the lines that define it, in order; it tells of the first word found
      on the line, going by occurrences that do not overlap. */
  method Refs(lang: Language, src: Bytes, name: Bytes, defLines: set<nat>) returns (refs: seq<Ref>)
    requires name != []
    ensures RefsSound(Stripped(lang, src), name, defLines, FindAll(Stripped(lang, src), name, false, 0), refs)
    ensures RefsComplete(Stripped(lang, src), name, defLines, FindAll(Stripped(lang, src), name, false, 0), refs)
    ensures forall pos :: LineOf(Stripped(lang, src), pos) == LineOf(src, pos)
    ensures AllIdent(name) ==> RefsOfCode(lang, src, name, defLines, refs)
  {
    hide RefsOfCode, BlanksOut, AllIdent, First, WordAt, LineOf, CallAt, RefsSound, RefsComplete, PositionsKept, LineStarts, Stripped, Mentioned, FindAll;
    var s := StripText(lang, src);
    StrippedKeeps(lang, src);
    SameLength(src, s);
    forall pos ensures LineOf(s, pos) == LineOf(src, pos) { StrippedLine(src, s, pos); }
    var starts := NewLineIndex(s);
    refs := [];
    var seenLine: int, off := -1, 0;
    ghost var hits: seq<Loc> := [];
    StartRefs(s, name, defLines);
    while true
      invariant off <= |s| && hits + FindAll(s, name, false, off) == FindAll(s, name, false, 0)
      invariant RefsSound(s, name, defLines, hits, refs) && RefsComplete(s, name, defLines, hits, refs)
      invariant if refs == [] then seenLine == -1 else seenLine == refs[|refs| - 1].line <= LineOf(s, off)
      decreases |s| - off
    {
      var pos := First(s, name, false, off);
      NextFind(s, name, off, hits);
      if pos < 0 { break; }
      ghost var was, before, l := refs, off, Loc(pos, pos + |name|);
      off := pos + |name|;
      LineMono(s, before, pos);
      LineMono(s, pos, off);
      WordMeans(s, name, pos);
      SoundLater(s, name, defLines, hits, refs, l);
      if !((pos > 0 && IsIdent(s[pos - 1])) || (off < |s| && IsIdent(s[off]))) {
        var line := FindLine(s, starts, pos);
        if !(line in defLines || line == seenLine) {
          seenLine := line;
          var isCall := LooksLikeCall(s, name, pos);
          SoundMore(s, name, defLines, hits, refs, l, Ref(line, isCall));
          MentionedMore(refs, Ref(line, isCall), line);
          refs := refs + [Ref(line, isCall)];
        } else if line !in defLines {
          LastMentioned(refs, line);
        }
      }
      CompleteMore(s, name, defLines, hits, was, l, refs);
      hits := hits + [l];
    }
    assert hits + [] == hits;
    if AllIdent(name) { RefsAreOfCode(lang, src, s, name, defLines, refs); }
  }

  lemma NextFind(s: Bytes, name: Bytes, off: nat, hits: seq<Loc>)
    requires name != []
    ensures var i := First(s, name, false, off); var rest := FindAll(s, name, false, off);
      if i == -1 then rest == []
      else off <= i && OccursAt(s, name, i, false) && hits + rest == (hits + [Loc(i, i + |name|)]) + FindAll(s, name, false, i + |name|)
    ensures First(s, name, false, off) >= -1
  {
    var i, rest := First(s, name, false, off), FindAll(s, name, false, off);
    if i != -1 {
      assert rest == [Loc(i, i + |name|)] + FindAll(s, name, false, i + |name|);
    }
  }

  lemma SameLength(src: Bytes, s: Bytes)
    requires PositionsKept(src, s)
    ensures |s| == |src|
  {
  }

  lemma StartRefs(s: Bytes, name: Bytes, defLines: set<nat>)
    ensures RefsSound(s, name, defLines, [], []) && RefsComplete(s, name, defLines, [], [])
  {
  }

  lemma WordMeans(s: Bytes, name: Bytes, pos: nat)
    requires OccursAt(s, name, pos, false)
    ensures WordAt(s, name, pos) <==> !((pos > 0 && IsIdent(s[pos - 1])) || (pos + |name| < |s| && IsIdent(s[pos + |name|])))
  {
  }

  lemma LastMentioned(refs: seq<Ref>, line: nat)
    requires refs != [] && refs[|refs| - 1].line == line
    ensures Mentioned(refs, line)
  {
  }

  // ---- words in code ----

  /** Code stays, and of what is not code nothing that could be part of a name. */
  lemma {:induction false} OnlyCodeStays(lang: Language, ps: seq<Piece>, k: nat)
    requires Reads(lang, ps) && k < |Text(ps)|
    ensures if InCode(ps, k) then Blanked(ps)[k] == Text(ps)[k] else !IsIdent(Blanked(ps)[k])
  {
    hide IsPiece, IsIdent;
    var p, n := ps[0], |PieceText(ps[0])|;
    if k < n { PieceStays(lang, p, Text(ps[1..]), k); } else { OnlyCodeStays(lang, ps[1..], k - n); }
  }

  lemma PieceStays(lang: Language, p: Piece, rest: Bytes, k: nat)
    requires IsPiece(lang, p, rest) && k < |PieceText(p)|
    ensures if p.Verbatim? then PieceBlanked(p)[k] == PieceText(p)[k] else !IsIdent(PieceBlanked(p)[k])
  {
    hide Held, BlockRemark, RestOfLine, TripleAt, OpensC;
  }

  /** No name runs on from code into something else, or back. */
  lemma {:induction false} NamesStayIn(lang: Language, ps: seq<Piece>, k: nat)
    requires Reads(lang, ps) && k + 1 < |Text(ps)| && IsIdent(Text(ps)[k]) && IsIdent(Text(ps)[k + 1])
    ensures InCode(ps, k) == InCode(ps, k + 1)
  {
    hide IsPiece, IsIdent;
    var p, rest, n := ps[0], Text(ps[1..]), |PieceText(ps[0])|;
    if k >= n { NamesStayIn(lang, ps[1..], k - n); }
    else if k + 1 == n {
      FirstByte(lang, ps[1..]);
      LastByte(lang, p, rest);
      assert Text(ps)[k] == PieceText(p)[n - 1] && Text(ps)[k + 1] == rest[0];
    }
  }

  lemma {:induction false} FirstByte(lang: Language, ps: seq<Piece>)
    requires Reads(lang, ps) && Text(ps) != []
    ensures InCode(ps, 0) || !IsIdent(Text(ps)[0])
  {
    hide IsPiece, IsIdent;
    var p := ps[0];
    if PieceText(p) == [] { FirstByte(lang, ps[1..]); } else { FirstOfPiece(lang, p, Text(ps[1..])); }
  }

  lemma FirstOfPiece(lang: Language, p: Piece, rest: Bytes)
    requires IsPiece(lang, p, rest) && PieceText(p) != []
    ensures p.Verbatim? || !IsIdent(PieceText(p)[0])
  {
    hide Held, TripleAt, OpensC;
  }

  lemma LastByte(lang: Language, p: Piece, rest: Bytes)
    requires IsPiece(lang, p, rest) && PieceText(p) != [] && rest != []
    ensures p.Verbatim? || !IsIdent(PieceText(p)[|PieceText(p)| - 1]) || !IsIdent(rest[0])
  {
    hide Held, TripleAt, OpensC;
  }

  /** From an offset in code a run of name bytes stays in code. */
  lemma {:induction false} RunsInCode(lang: Language, ps: seq<Piece>, i: nat, j: nat)
    requires Reads(lang, ps) && i <= j < |Text(ps)| && InCode(ps, i)
    requires forall k :: i <= k <= j ==> IsIdent(Text(ps)[k])
    ensures InCode(ps, j)
    decreases j - i
  {
    hide Reads, Text, IsIdent;
    if i < j {
      NamesStayIn(lang, ps, i);
      RunsInCode(lang, ps, i + 1, j);
    }
  }

  /** A word of the source that stands in code. */
  predicate WordInCode(ps: seq<Piece>, src: Bytes, name: Bytes, pos: nat) {
    WordAt(src, name, pos) && InCode(ps, pos)
  }

  /** The words that stripped text has are those the source has in code. */
  lemma WordsAreCode(lang: Language, src: Bytes, ps: seq<Piece>, name: Bytes, pos: nat)
    requires Reading(lang, src, ps) && name != [] && AllIdent(name)
    ensures WordAt(Blanked(ps), name, pos) <==> WordInCode(ps, src, name, pos)
  {
    hide Reads, Text, Blanked, InCode, IsIdent;
    var s, n := Blanked(ps), |name|;
    forall k | 0 <= k < |src| ensures if InCode(ps, k) then s[k] == src[k] else !IsIdent(s[k]) { OnlyCodeStays(lang, ps, k); }
    forall k | 0 <= k < |src| - 1 && IsIdent(src[k]) && IsIdent(src[k + 1]) ensures InCode(ps, k) == InCode(ps, k + 1) { NamesStayIn(lang, ps, k); }
    if WordAt(s, name, pos) {
      forall k | 0 <= k < n ensures s[pos + k] == src[pos + k] == name[k] { assert Same(s[pos + k], name[k], false); }
      assert s[pos + 0] == name[0] && InCode(ps, pos);
      assert s[pos + (n - 1)] == src[pos + (n - 1)] == name[n - 1];
      EdgesAgree(src, s, ps, pos, n);
    }
    if WordInCode(ps, src, name, pos) {
      assert forall k :: 0 <= k < n ==> Same(src[pos + k], name[k], false);
      assert forall k :: pos <= k < pos + n ==> src[k] == name[k - pos];
      forall k | 0 <= k < n ensures InCode(ps, pos + k) && Same(s[pos + k], name[k], false) { RunsInCode(lang, ps, pos, pos + k); }
      assert InCode(ps, pos + (n - 1));
      assert src[pos + 0] == name[0] && src[pos + (n - 1)] == name[n - 1];
      EdgesAgree(src, s, ps, pos, n);
    }
  }

  /** On either side of a run in code, what is part of a name before is part of one after. */
  lemma EdgesAgree(src: Bytes, s: Bytes, ps: seq<Piece>, pos: nat, n: nat)
    requires |s| == |src| && 0 < n && pos + n <= |src| && IsIdent(src[pos]) && IsIdent(src[pos + n - 1])
    requires InCode(ps, pos) && InCode(ps, pos + n - 1)
    requires forall k :: 0 <= k < |src| ==> if InCode(ps, k) then s[k] == src[k] else !IsIdent(s[k])
    requires forall k :: 0 <= k < |src| - 1 && IsIdent(src[k]) && IsIdent(src[k + 1]) ==> InCode(ps, k) == InCode(ps, k + 1)
    ensures pos > 0 ==> IsIdent(s[pos - 1]) == IsIdent(src[pos - 1])
    ensures pos + n < |src| ==> IsIdent(s[pos + n]) == IsIdent(src[pos + n])
  {
    hide InCode, IsIdent;
    if pos > 0 && IsIdent(src[pos - 1]) { assert InCode(ps, pos - 1) == InCode(ps, pos - 1 + 1); }
    if pos + n < |src| && IsIdent(src[pos + n]) { assert InCode(ps, pos + n - 1) == InCode(ps, pos + n - 1 + 1); }
  }

  // ---- names that are identifiers ----

  /** Bytes of names only, between two offsets. */
  predicate NameBytes(s: Bytes, a: nat, b: nat) {
    a <= b <= |s| && forall k :: a <= k < b ==> IsIdent(s[k])
  }

  /** No longer stretch of such bytes has the one from `pos` to `end` in it. */
  ghost predicate Whole(s: Bytes, pos: nat, end: nat) {
    forall a: nat, b: nat :: a <= pos && end <= b && NameBytes(s, a, b) ==> a == pos && b == end
  }

  lemma WholeMeans(s: Bytes, pos: nat, end: nat)
    requires NameBytes(s, pos, end) && pos < end
    ensures Whole(s, pos, end) <==> !(pos > 0 && IsIdent(s[pos - 1])) && !(end < |s| && IsIdent(s[end]))
  {
    hide IsIdent;
    assert pos > 0 && IsIdent(s[pos - 1]) ==> NameBytes(s, pos - 1, end);
    assert end < |s| && IsIdent(s[end]) ==> NameBytes(s, pos, end + 1);
  }

  /** A word of an identifier is a whole stretch of such bytes, not part of a longer one. */
  lemma WordIsWhole(s: Bytes, name: Bytes, pos: nat)
    requires name != [] && AllIdent(name)
    ensures WordAt(s, name, pos) <==> (OccursAt(s, name, pos, false) && Whole(s, pos, pos + |name|))
  {
    hide IsIdent, Whole;
    if OccursAt(s, name, pos, false) {
      assert forall k :: 0 <= k < |name| ==> Same(s[pos + k], name[k], false);
      assert forall k :: pos <= k < pos + |name| ==> s[k] == name[k - pos];
      WholeMeans(s, pos, pos + |name|);
    }
  }

  /** No word of an identifier overlaps an earlier occurrence of it. */
  lemma NoOverlap(s: Bytes, name: Bytes, pos: nat, q: nat)
    requires OccursAt(s, name, pos, false) && pos < q < pos + |name| && AllIdent(name)
    ensures !WordAt(s, name, q)
  {
    var k := q - 1 - pos;
    assert Same(s[pos + k], name[k], false) && IsIdent(name[k]);
  }

  ghost predicate IsHit(hits: seq<Loc>, q: nat) {
    exists k :: 0 <= k < |hits| && hits[k].start == q
  }

  /** So every word of an identifier is among the occurrences found. */
  lemma {:induction false} WordIsFound(s: Bytes, name: Bytes, off: nat, q: nat)
    requires name != [] && AllIdent(name) && off <= q && WordAt(s, name, q)
    ensures IsHit(FindAll(s, name, false, off), q)
    decreases |s| - off
  {
    hide First, IsIdent;
    var i, hits := First(s, name, false, off), FindAll(s, name, false, off);
    NotBefore(s, name, off, q);
    if i == q {
      assert hits[0].start == q;
    } else {
      if q < i + |name| { NoOverlap(s, name, i, q); }
      WordIsFound(s, name, i + |name|, q);
      var rest := FindAll(s, name, false, i + |name|);
      var k :| 0 <= k < |rest| && rest[k].start == q;
      assert hits[k + 1] == rest[k];
    }
  }

  lemma NotBefore(s: Bytes, name: Bytes, off: nat, q: nat)
    requires off <= q && WordAt(s, name, q)
    ensures var i := First(s, name, false, off); off <= i <= q && OccursAt(s, name, i, false)
  {
  }

  lemma {:induction false} FoundInOrder(s: Bytes, name: Bytes, off: nat)
    requires name != []
    ensures var hits := FindAll(s, name, false, off);
      (forall k :: 0 <= k < |hits| ==> off <= hits[k].start) && forall i, j :: 0 <= i < j < |hits| ==> hits[i].start < hits[j].start
    decreases |s| - off
  {
    hide First;
    var i := First(s, name, false, off);
    NextFind(s, name, off, []);
    if i != -1 { FoundInOrder(s, name, i + |name|); }
  }

  /** The first word on its line. */
  ghost predicate FirstWord(s: Bytes, name: Bytes, pos: nat) {
    WordAt(s, name, pos) && forall q :: 0 <= q < pos ==> !(WordAt(s, name, q) && LineOf(s, q) == LineOf(s, pos))
  }

  ghost predicate TellsFirstWord(s: Bytes, name: Bytes, r: Ref) {
    exists pos :: FirstWord(s, name, pos) && r == Ref(LineOf(s, pos), CallAt(s, name, pos))
  }

  /** In order, and none of a line that defines the name. */
  ghost predicate RefsAscend(defLines: set<nat>, refs: seq<Ref>) {
    && (forall i :: 0 <= i < |refs| ==> refs[i].line !in defLines)
    && forall i, j :: 0 <= i < j < |refs| ==> refs[i].line < refs[j].line
  }

  /** For identifiers no word is passed over: each reference tells of the first word on its
      line, and every line with a word has one, unless it defines the name. */
  lemma IdentRefs(s: Bytes, name: Bytes, defLines: set<nat>, refs: seq<Ref>)
    requires name != [] && AllIdent(name)
    requires RefsSound(s, name, defLines, FindAll(s, name, false, 0), refs) && RefsComplete(s, name, defLines, FindAll(s, name, false, 0), refs)
    ensures RefsAscend(defLines, refs) && forall i :: 0 <= i < |refs| ==> TellsFirstWord(s, name, refs[i])
    ensures forall pos :: WordAt(s, name, pos) && LineOf(s, pos) !in defLines ==> Mentioned(refs, LineOf(s, pos))
  {
    hide WordAt, LineOf, CallAt, FindAll, AllIdent, Mentioned;
    var hits := FindAll(s, name, false, 0);
    FoundInOrder(s, name, 0);
    forall i | 0 <= i < |refs| ensures refs[i].line !in defLines && TellsFirstWord(s, name, refs[i]) {
      assert IsRef(s, name, defLines, hits, refs[i]);
      var k :| 0 <= k < |hits| && RefOf(s, name, hits, k, refs[i]);
      forall q | 0 <= q < hits[k].start && WordAt(s, name, q) ensures LineOf(s, q) != LineOf(s, hits[k].start) {
        WordIsFound(s, name, 0, q);
        var j :| 0 <= j < |hits| && hits[j].start == q;
        assert j < k;
      }
      assert FirstWord(s, name, hits[k].start);
    }
    forall pos | WordAt(s, name, pos) && LineOf(s, pos) !in defLines ensures Mentioned(refs, LineOf(s, pos)) {
      WordIsFound(s, name, 0, pos);
      var j :| 0 <= j < |hits| && hits[j].start == pos;
      assert Reported(s, name, defLines, refs, hits[j].start);
    }
  }

  // ---- references and the source ----

  /** The first word of its line to stand in code. */
  ghost predicate FirstInCode(ps: seq<Piece>, src: Bytes, name: Bytes, pos: nat) {
    && WordInCode(ps, src, name, pos)
    && forall q :: 0 <= q < pos ==> !(WordInCode(ps, src, name, q) && LineOf(src, q) == LineOf(src, pos))
  }

  /** The reference stands for the first word on a line of code, which defines nothing of
      the name, and is a call if it looks like one with comments and literals left out. */
  ghost predicate TellsOfCode(ps: seq<Piece>, src: Bytes, name: Bytes, defLines: set<nat>, r: Ref) {
    && r.line !in defLines
    && exists pos :: FirstInCode(ps, src, name, pos) && r == Ref(LineOf(src, pos), CallAt(Blanked(ps), name, pos))
  }

  ghost predicate RefsTellOfCode(ps: seq<Piece>, src: Bytes, name: Bytes, defLines: set<nat>, refs: seq<Ref>) {
    && (forall i :: 0 <= i < |refs| ==> TellsOfCode(ps, src, name, defLines, refs[i]))
    && (forall pos :: WordInCode(ps, src, name, pos) && LineOf(src, pos) !in defLines ==> Mentioned(refs, LineOf(src, pos)))
    && forall i, j :: 0 <= i < j < |refs| ==> refs[i].line < refs[j].line
  }

  /** However the source is read, the references to an identifier are those in its code. */
  ghost predicate RefsOfCode(lang: Language, src: Bytes, name: Bytes, defLines: set<nat>, refs: seq<Ref>) {
    forall ps :: Reading(lang, src, ps) ==> RefsTellOfCode(ps, src, name, defLines, refs)
  }

  lemma RefsAreOfCode(lang: Language, src: Bytes, s: Bytes, name: Bytes, defLines: set<nat>, refs: seq<Ref>)
    requires name != [] && AllIdent(name) && BlanksOut(lang, src, s)
    requires forall pos :: LineOf(s, pos) == LineOf(src, pos)
    requires RefsSound(s, name, defLines, FindAll(s, name, false, 0), refs) && RefsComplete(s, name, defLines, FindAll(s, name, false, 0), refs)
    ensures RefsOfCode(lang, src, name, defLines, refs)
  {
    hide Reading, LineOf, WordAt, CallAt, WordInCode, AllIdent, FindAll, RefsComplete, RefsSound, Mentioned, RefsTellOfCode;
    IdentRefs(s, name, defLines, refs);
    forall ps | Reading(lang, src, ps) ensures RefsTellOfCode(ps, src, name, defLines, refs) {
      assert s == Blanked(ps);
      forall pos ensures WordAt(s, name, pos) <==> WordInCode(ps, src, name, pos) { WordsAreCode(lang, src, ps, name, pos); }
      TellAllOfCode(ps, src, s, name, defLines, refs);
    }
  }

  lemma TellAllOfCode(ps: seq<Piece>, src: Bytes, s: Bytes, name: Bytes, defLines: set<nat>, refs: seq<Ref>)
    requires s == Blanked(ps) && forall pos :: LineOf(s, pos) == LineOf(src, pos)
    requires forall pos :: WordAt(s, name, pos) <==> WordInCode(ps, src, name, pos)
    requires RefsAscend(defLines, refs)
    requires forall i :: 0 <= i < |refs| ==> TellsFirstWord(s, name, refs[i])
    requires forall pos :: WordAt(s, name, pos) && LineOf(s, pos) !in defLines ==> Mentioned(refs, LineOf(s, pos))
    ensures RefsTellOfCode(ps, src, name, defLines, refs)
  {
    hide LineOf, WordAt, CallAt, WordInCode, Mentioned, Blanked;
    forall i | 0 <= i < |refs| ensures TellsOfCode(ps, src, name, defLines, refs[i]) {
      assert TellsFirstWord(s, name, refs[i]);
      var pos :| FirstWord(s, name, pos) && refs[i] == Ref(LineOf(s, pos), CallAt(s, name, pos));
      assert FirstInCode(ps, src, name, pos);
    }
  }
}
