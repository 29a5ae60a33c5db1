/** Searching the whole buffer and searching line by line report the same lines. */
module Agreement {
  import opened Prelude
  import opened Bytes
  import opened Literal
  import opened Lines

  lemma FindAllOrdered(c: Bytes, lit: Bytes, fold: bool, from: nat)
    requires |lit| > 0
    ensures Ordered(c, FindAll(c, lit, fold, from))
  {
    var locs := FindAll(c, lit, fold, from);
    FindAllIsLeftmost(c, lit, fold, from);
    forall k | 0 <= k < |locs|
      ensures Placed(c, locs, k)
    {
      assert LocOk(c, lit, fold, from, locs, k);
      if k > 0 { assert LocOk(c, lit, fold, from, locs, k - 1); }
    }
  }

  /** The reported lines of the matches at or after `from`. */
  function Reported(path: Bytes, c: Bytes, lit: Bytes, fold: bool, from: nat, last: int, maxCols: int): seq<Match>
    requires |lit| > 0
  {
    FindAllOrdered(c, lit, fold, from);
    PerLine(path, c, FindAll(c, lit, fold, from), 0, last, maxCols)
  }

  lemma PerLineStep(path: Bytes, c: Bytes, locs: seq<Loc>, i: nat, n: nat, last: int, maxCols: int)
    requires Ordered(c, locs) && i < |locs| && locs[i].start <= locs[i].end <= |c|
    requires n == Newlines(c, locs[i].start) + 1
    ensures PerLine(path, c, locs, i, last, maxCols) ==
      if n == last then PerLine(path, c, locs, i + 1, last, maxCols)
      else [LineMatch(path, c, locs[i], maxCols)] + PerLine(path, c, locs, i + 1, n, maxCols)
  {
    hide Newlines, LineMatch, Ordered;
  }

  lemma {:induction false} PerLineTail(path: Bytes, c: Bytes, l: Loc, rest: seq<Loc>, i: nat, last: int, maxCols: int)
    requires Ordered(c, [l] + rest) && Ordered(c, rest) && i <= |rest|
    ensures PerLine(path, c, [l] + rest, i + 1, last, maxCols) == PerLine(path, c, rest, i, last, maxCols)
    decreases |rest| - i
  {
    if i < |rest| {
      assert ([l] + rest)[i + 1] == rest[i] && Placed(c, rest, i);
      hide *;
      var n := Newlines(c, rest[i].start) + 1;
      PerLineStep(path, c, [l] + rest, i + 1, n, last, maxCols);
      PerLineStep(path, c, rest, i, n, last, maxCols);
      PerLineTail(path, c, l, rest, i + 1, if n == last then last else n, maxCols);
    }
  }

  lemma PerLineHead(path: Bytes, c: Bytes, l: Loc, rest: seq<Loc>, n: nat, last: int, maxCols: int)
    requires Ordered(c, [l] + rest) && Ordered(c, rest)
    requires l.start <= l.end <= |c| && n == Newlines(c, l.start) + 1
    ensures PerLine(path, c, [l] + rest, 0, last, maxCols) ==
      if n == last then PerLine(path, c, rest, 0, last, maxCols)
      else [LineMatch(path, c, l, maxCols)] + PerLine(path, c, rest, 0, n, maxCols)
  {
    hide *;
    assert ([l] + rest)[0] == l;
    PerLineStep(path, c, [l] + rest, 0, n, last, maxCols);
    PerLineTail(path, c, l, rest, 0, if n == last then last else n, maxCols);
  }

  /** What the first match at or after `from`, on line `n`, contributes. */
  lemma ReportedStep(path: Bytes, c: Bytes, lit: Bytes, fold: bool, from: nat, p: nat, n: nat, last: int, maxCols: int)
    requires |lit| > 0
    requires p == First(c, lit, fold, from) && n == Newlines(c, p) + 1
    ensures Reported(path, c, lit, fold, from, last, maxCols) ==
      if n == last then Reported(path, c, lit, fold, p + |lit|, last, maxCols)
      else [LineMatch(path, c, Loc(p, p + |lit|), maxCols)] + Reported(path, c, lit, fold, p + |lit|, n, maxCols)
  {
    hide Newlines, LineMatch, LineStart, LineEnd, First, Ordered, PerLine;
    FindAllOrdered(c, lit, fold, from);
    FindAllOrdered(c, lit, fold, p + |lit|);
    PerLineHead(path, c, Loc(p, p + |lit|), FindAll(c, lit, fold, p + |lit|), n, last, maxCols);
  }

  lemma NothingLeft(path: Bytes, c: Bytes, lit: Bytes, fold: bool, from: nat, last: int, maxCols: int)
    requires |lit| > 0 && (|c| <= from || First(c, lit, fold, from) < 0)
    ensures Reported(path, c, lit, fold, from, last, maxCols) == []
  {
    assert First(c, lit, fold, from) < 0;
    hide First;
  }

  /** Raising the start of a search past a stretch without occurrences. */
  lemma ReportedSkips(path: Bytes, c: Bytes, lit: Bytes, fold: bool, from: nat, to: nat, last: int, maxCols: int)
    requires |lit| > 0 && from <= to
    requires var p := First(c, lit, fold, from); p < 0 || to <= p
    ensures Reported(path, c, lit, fold, from, last, maxCols) == Reported(path, c, lit, fold, to, last, maxCols)
  {
    hide PerLine, Ordered, First, OccursAt;
    FirstUnique(c, lit, fold, to, First(c, lit, fold, from));
    assert FindAll(c, lit, fold, from) == FindAll(c, lit, fold, to);
  }

  /** Line `[st, e)` of `c`, with `n` lines before it. */
  ghost predicate LineAt(c: Bytes, st: nat, e: nat, n: nat) {
    st < |c| && e == LineEnd(c, st) && n == Newlines(c, st) && (st == 0 || c[st - 1] == NEWLINE)
  }

  lemma LineOffsets(c: Bytes, st: nat, e: nat, n: nat, p: nat)
    requires LineAt(c, st, e, n) && st <= p <= e
    ensures e <= |c| && Newlines(c, p) == n && LineStart(c, p) == st && LineEnd(c, p) == e
  {
    NewlinesMono(c, st, p);
  }

  /** The line after this one, unless this is the last. */
  lemma Following(c: Bytes, st: nat, e: nat, n: nat)
    requires LineAt(c, st, e, n)
    ensures st <= e <= |c| && (e + 1 < |c| ==> LineAt(c, e + 1, LineEnd(c, e + 1), n + 1))
  {
    LineOffsets(c, st, e, n, e);
  }

  /** A newline-free literal never straddles the end of a line. */
  lemma NoStraddle(c: Bytes, lit: Bytes, fold: bool, nl: nat, p: int)
    requires NoNewline(lit, 0, |lit|) && nl <= |c| && (nl < |c| ==> c[nl] == NEWLINE)
    ensures OccursAt(c, lit, p, fold) && p <= nl ==> p + |lit| <= nl
  {
    if p <= nl < p + |lit| && nl < |c| { OccursByte(c, lit, p, fold, nl - p); }
  }

  /** Within a line, the first match of the line is the first match of the buffer. */
  lemma LineFirst(c: Bytes, lit: Bytes, fold: bool, st: nat, e: nat, n: nat)
    requires |lit| > 0 && NoNewline(lit, 0, |lit|) && LineAt(c, st, e, n)
    ensures st < |c| && st <= e <= |c|
    ensures var f := FindIn(c, st, e, LiteralFinder(lit, fold)); var p := First(c, lit, fold, st);
      if f >= 0 then p == st + f && p + |lit| <= e else p < 0 || e < p
  {
    var f, p := FindIn(c, st, e, LiteralFinder(lit, fold)), First(c, lit, fold, st);
    SliceOccurs(c, lit, fold, st, e, f);
    SliceOccurs(c, lit, fold, st, e, p - st);
    NoStraddle(c, lit, fold, e, p);
  }

  /** A match starting on a line ends on it. */
  lemma OnLine(c: Bytes, lit: Bytes, fold: bool, st: nat, e: nat, n: nat, from: nat, p: nat)
    requires NoNewline(lit, 0, |lit|) && LineAt(c, st, e, n) && st <= from
    requires p == First(c, lit, fold, from) && p <= e
    ensures p + |lit| <= e <= |c| && Newlines(c, p) == n
  {
    NoStraddle(c, lit, fold, e, p);
    LineOffsets(c, st, e, n, p);
  }

  /** Once a line is reported, further matches on it add nothing. */
  lemma {:induction false} RestOfLine(path: Bytes, c: Bytes, lit: Bytes, fold: bool, st: nat, e: nat, n: nat, from: nat, maxCols: int)
    requires |lit| > 0 && NoNewline(lit, 0, |lit|) && LineAt(c, st, e, n) && st <= from <= e
    ensures Reported(path, c, lit, fold, from, n + 1, maxCols) == Reported(path, c, lit, fold, e + 1, n + 1, maxCols)
    decreases e - from
  {
    hide *;
    var p := First(c, lit, fold, from);
    if p < 0 || e < p {
      ReportedSkips(path, c, lit, fold, from, e + 1, n + 1, maxCols);
    } else {
      OnLine(c, lit, fold, st, e, n, from, p);
      RestOfLine(path, c, lit, fold, st, e, n, p + |lit|, maxCols);
      ReportedStep(path, c, lit, fold, from, p, n + 1, n + 1, maxCols);
    }
  }

  /** The first match on a line is reported as the line scan reports it. */
  lemma LineMatchOnLine(path: Bytes, c: Bytes, st: nat, e: nat, n: nat, l: Loc, maxCols: int)
    requires LineAt(c, st, e, n) && st <= l.start <= l.end <= e <= |c|
    ensures LineMatch(path, c, l, maxCols) == Report(path, c, st, e, n + 1, l.start - st, maxCols)
  {
    LineOffsets(c, st, e, n, l.start);
    LineOffsets(c, st, e, n, l.end);
    hide Newlines, LineStart, LineEnd, LineAt, Report;
  }

  lemma FirstMatchOnLine(path: Bytes, c: Bytes, lit: Bytes, fold: bool, st: nat, e: nat, n: nat, f: nat, last: int, maxCols: int)
    requires |lit| > 0 && NoNewline(lit, 0, |lit|) && LineAt(c, st, e, n) && last <= n
    requires st + f == First(c, lit, fold, st) && st + f + |lit| <= e <= |c|
    ensures Reported(path, c, lit, fold, st, last, maxCols)
         == [Report(path, c, st, e, n + 1, f, maxCols)] + Reported(path, c, lit, fold, e + 1, n + 1, maxCols)
  {
    hide *;
    var p := st + f;
    OnLine(c, lit, fold, st, e, n, st, p);
    LineMatchOnLine(path, c, st, e, n, Loc(p, p + |lit|), maxCols);
    RestOfLine(path, c, lit, fold, st, e, n, p + |lit|, maxCols);
    ReportedStep(path, c, lit, fold, st, p, n + 1, last, maxCols);
  }

  lemma ScanFromLine(path: Bytes, c: Bytes, st: nat, e: nat, n: nat, find: Finder, f: int, maxCols: int)
    requires LineAt(c, st, e, n) && e <= |c| && f == FindIn(c, st, e, find)
    ensures ScanLines(path, c, st, n, find, maxCols) ==
      var rest := ScanLines(path, c, e + 1, n + 1, find, maxCols);
      if f >= 0 then [Report(path, c, st, e, n + 1, f, maxCols)] + rest else rest
  {
    ScanStep(path, c, st, e, n, find, f, maxCols);
  }

  /** From the start of a line on, both ways report the same. */
  lemma {:induction false} FromLine(path: Bytes, c: Bytes, lit: Bytes, fold: bool, st: nat, e: nat, n: nat, last: int, maxCols: int)
    requires |lit| > 0 && NoNewline(lit, 0, |lit|) && last <= n && LineAt(c, st, e, n)
    ensures Reported(path, c, lit, fold, st, last, maxCols) == ScanLines(path, c, st, n, LiteralFinder(lit, fold), maxCols)
    decreases |c| - st
  {
    hide *;
    var find := LiteralFinder(lit, fold);
    LineFirst(c, lit, fold, st, e, n);
    assert st < e + 1 <= |c| + 1;
    var f := FindIn(c, st, e, find);
    ScanFromLine(path, c, st, e, n, find, f, maxCols);
    if f >= 0 {
      FirstMatchOnLine(path, c, lit, fold, st, e, n, f, last, maxCols);
      NextLine(path, c, lit, fold, st, e, n, n + 1, maxCols);
    } else {
      ReportedSkips(path, c, lit, fold, st, e + 1, last, maxCols);
      NextLine(path, c, lit, fold, st, e, n, last, maxCols);
    }
  }

  lemma {:induction false} NextLine(path: Bytes, c: Bytes, lit: Bytes, fold: bool, st: nat, e: nat, n: nat, last: int, maxCols: int)
    requires |lit| > 0 && NoNewline(lit, 0, |lit|) && last <= n + 1 && LineAt(c, st, e, n)
    ensures Reported(path, c, lit, fold, e + 1, last, maxCols) == ScanLines(path, c, e + 1, n + 1, LiteralFinder(lit, fold), maxCols)
    decreases |c| - st, 0
  {
    Following(c, st, e, n);
    hide *;
    if e + 1 < |c| {
      FromLine(path, c, lit, fold, e + 1, LineEnd(c, e + 1), n + 1, last, maxCols);
    } else {
      NothingLeft(path, c, lit, fold, e + 1, last, maxCols);
      NothingToScan(path, c, e + 1, n + 1, LiteralFinder(lit, fold), maxCols);
    }
  }

  /** A literal with a newline in it is on no line. */
  lemma {:induction false} NoLineHasNewline(path: Bytes, c: Bytes, st: nat, lineNo: nat, lit: Bytes, fold: bool, maxCols: int)
    requires !NoNewline(lit, 0, |lit|)
    ensures ScanLines(path, c, st, lineNo, LiteralFinder(lit, fold), maxCols) == []
    decreases |c| - st
  {
    if st < |c| {
      var e := LineEnd(c, st);
      var f := FindIn(c, st, e, LiteralFinder(lit, fold));
      var k :| 0 <= k < |lit| && lit[k] == NEWLINE;
      OccursByte(c[st..e], lit, f, fold, k);
      NoLineHasNewline(path, c, e + 1, lineNo + 1, lit, fold, maxCols);
    }
  }

  /** The two engines report the same lines (number, column, length and text) for
      a nonempty literal exactly when the literal has no newline or does not occur. */
  lemma EnginesAgree(path: Bytes, c: Bytes, lit: Bytes, fold: bool, maxCols: int)
    requires |lit| > 0
    ensures Ordered(c, FindAll(c, lit, fold, 0))
    ensures PerLine(path, c, FindAll(c, lit, fold, 0), 0, -1, maxCols) == ScanLines(path, c, 0, 0, LiteralFinder(lit, fold), maxCols)
       <==> NEWLINE !in lit || !Occurs(c, lit, fold)
  {
    FindAllOrdered(c, lit, fold, 0);
    var p := First(c, lit, fold, 0);
    if NEWLINE !in lit {
      if c == [] { NothingLeft(path, c, lit, fold, 0, -1, maxCols); } else { FromLine(path, c, lit, fold, 0, LineEnd(c, 0), 0, -1, maxCols); }
    } else {
      assert !NoNewline(lit, 0, |lit|);
      NoLineHasNewline(path, c, 0, 0, lit, fold, maxCols);
      if p >= 0 {
        ReportedStep(path, c, lit, fold, 0, p, Newlines(c, p) + 1, -1, maxCols);
      } else {
        NothingLeft(path, c, lit, fold, 0, -1, maxCols);
      }
    }
  }

  /** The memory engine's path for one file and the disk engine's, run side by side. */
  method BothEngines(path: Bytes, content: Bytes, m: Matcher, maxCols: int) returns (mem: seq<Match>, disk: seq<Match>)
    requires m.rare.Some? ==> m.rare.value in m.plain
    requires m.plain != [] && NEWLINE !in m.plain
    ensures !IsBinary(content) ==> mem == disk
    ensures IsBinary(content) ==> disk == []
  {
    var locs := LiteralFindAll(content, m.plain, m.fold);
    EnginesAgree(path, content, m.plain, m.fold, maxCols);
    mem := AppendLineMatches(path, content, locs, [], 0, maxCols);
    disk := MatchContent(path, content, m, false, 0, maxCols);
    assert [] + PerLine(path, content, locs, 0, -1, maxCols) == PerLine(path, content, locs, 0, -1, maxCols);
  }
}
