/** From matches to reported lines: the memory engine groups matches in the whole buffer
    by line, the disk engine searches line by line. */
module Lines {
  import opened Prelude
  import opened Bytes
  import opened Literal

  /** One reported line; the text is withheld when the line is over-long. */
  datatype Match = Match(path: Bytes, line: nat, col: int, lineLen: nat, text: Bytes)

  function MkMatch(path: Bytes, lineNo: nat, col: int, line: Bytes, maxCols: int): (m: Match) {
    Match(path, lineNo, col, |line|, if maxCols <= 0 || |line| <= maxCols then line else [])
  }

  /** At most `limit` of `s`; a limit of zero or less means all. */
  function Limited<T>(s: seq<T>, limit: int): (r: seq<T>) {
    if 0 < limit <= |s| then s[..limit] else s
  }

  // ---- the line scan: the answer both engines owe ----

  predicate NoNewline(c: Bytes, from: nat, to: nat)
    requires to <= |c|
  {
    forall k :: from <= k < to ==> c[k] != NEWLINE
  }

  /** End of the line holding offset `from`: the next newline or the end of `c`. */
  function LineEnd(c: Bytes, from: nat): (e: nat)
    requires from <= |c|
    ensures from <= e <= |c| && NoNewline(c, from, e) && (e < |c| ==> c[e] == NEWLINE)
  {
    var i := IndexByte(c, NEWLINE, from);
    if i < 0 then |c| else i
  }

  /** The first match within `c[st..e]`. */
  function FindIn(c: Bytes, st: nat, e: nat, find: Finder): int
    requires st <= e <= |c|
  {
    find(c[st..e])
  }

  /** The report for line `c[st..e]`. */
  function Report(path: Bytes, c: Bytes, st: nat, e: nat, lineNo: nat, col: int, maxCols: int): Match
    requires st <= e <= |c|
  {
    MkMatch(path, lineNo, col, c[st..e], maxCols)
  }

  /** The matching lines of `c` from offset `st` on, the first of them having
      number `lineNo + 1`. */
  function ScanLines(path: Bytes, c: Bytes, st: nat, lineNo: nat, find: Finder, maxCols: int): (r: seq<Match>)
    decreases |c| - st
  {
    if st >= |c| then []
    else
      var e := LineEnd(c, st);
      var f := FindIn(c, st, e, find);
      var rest := ScanLines(path, c, e + 1, lineNo + 1, find, maxCols);
      if f >= 0 then [Report(path, c, st, e, lineNo + 1, f, maxCols)] + rest else rest
  }

  // ---- what a report says ----

  /** The newlines before offset `p`. */
  function NewlinesBefore(c: Bytes, p: nat): set<nat> {
    set k: nat | k < |c| && k < p && c[k] == NEWLINE
  }

  /** A line starts at `st`. */
  predicate StartsLine(c: Bytes, st: nat) {
    st <= |c| && (st == 0 || c[st - 1] == NEWLINE)
  }

  /** A line, or the rest of one, that starts at `from` ends at `e`. */
  predicate EndsLine(c: Bytes, from: nat, e: nat) {
    from <= e <= |c| && NoNewline(c, from, e) && (e < |c| ==> c[e] == NEWLINE)
  }

  /** `c[st..e]` is a line; a newline at the very end begins no further one. */
  predicate IsLine(c: Bytes, st: nat, e: nat) {
    st < |c| && StartsLine(c, st) && EndsLine(c, st, e)
  }

  /** The first match on a line is at column `col`. */
  ghost predicate MatchesAt(m: Matcher, line: Bytes, col: int) {
    if m.plain != [] then OccursAt(line, m.plain, col, m.fold) && forall i :: i < col ==> !OccursAt(line, m.plain, i, m.fold)
    else m.re(line).Some? && m.re(line).value.start == col
  }

  /** `r` tells of the text between `st` and `e`: its number, which is one more than the
      newlines before it, its length, and itself unless it is over-long. */
  ghost predicate TellsOf(path: Bytes, c: Bytes, st: nat, e: nat, maxCols: int, r: Match) {
    && st <= e <= |c| && r.path == path
    && r.line == |NewlinesBefore(c, st)| + 1 && r.lineLen == e - st
    && r.text == if maxCols <= 0 || e - st <= maxCols then c[st..e] else []
  }

  /** `r` reports the line `c[st..e]` with its first match. */
  ghost predicate Reports(path: Bytes, c: Bytes, m: Matcher, maxCols: int, st: nat, e: nat, r: Match) {
    IsLine(c, st, e) && TellsOf(path, c, st, e, maxCols, r) && MatchesAt(m, c[st..e], r.col)
  }

  ghost predicate ReportsSome(path: Bytes, c: Bytes, m: Matcher, maxCols: int, r: Match) {
    exists st: nat, e: nat :: Reports(path, c, m, maxCols, st, e, r)
  }

  ghost predicate IsReported(path: Bytes, c: Bytes, m: Matcher, maxCols: int, st: nat, e: nat, ms: seq<Match>) {
    exists k :: 0 <= k < |ms| && Reports(path, c, m, maxCols, st, e, ms[k])
  }

  predicate Ascends(ms: seq<Match>) {
    forall i, j :: 0 <= i < j < |ms| ==> ms[i].line < ms[j].line
  }

  /** `ms` reports lines of `c` with a match, each once and in order, and every such line
      but, when there are `limit` of them, those further down. */
  ghost predicate LineReports(path: Bytes, c: Bytes, m: Matcher, maxCols: int, limit: int, ms: seq<Match>) {
    && Ascends(ms) && (limit > 0 ==> |ms| <= limit)
    && (forall k :: 0 <= k < |ms| ==> ReportsSome(path, c, m, maxCols, ms[k]))
    && (forall st: nat, e: nat, col :: IsLine(c, st, e) && MatchesAt(m, c[st..e], col) ==>
          || IsReported(path, c, m, maxCols, st, e, ms)
          || (|ms| == limit > 0 && forall k :: 0 <= k < |ms| ==> ms[k].line <= |NewlinesBefore(c, st)|))
  }

  lemma NextNewlines(c: Bytes, st: nat, e: nat)
    requires EndsLine(c, st, e)
    ensures NewlinesBefore(c, e) == NewlinesBefore(c, st)
    ensures e < |c| ==> |NewlinesBefore(c, e + 1)| == |NewlinesBefore(c, st)| + 1
  {
    assert NewlinesBefore(c, e) == NewlinesBefore(c, st);
    if e < |c| { assert NewlinesBefore(c, e + 1) == NewlinesBefore(c, st) + {e}; }
  }

  lemma NewlinesGrow(c: Bytes, p: nat, q: nat)
    requires p <= q
    ensures |NewlinesBefore(c, p)| <= |NewlinesBefore(c, q)|
  {
    SmallerSet(NewlinesBefore(c, p), NewlinesBefore(c, q));
  }

  lemma {:induction false} SmallerSet<T>(a: set<T>, b: set<T>)
    requires a <= b
    ensures |a| <= |b|
  {
    if a != {} {
      var x :| x in a;
      SmallerSet(a - {x}, b - {x});
    }
  }

  /** Two lines are one, or the later starts beyond the end of the other. */
  lemma LinesApart(c: Bytes, st: nat, e: nat, st': nat, e': nat)
    requires IsLine(c, st, e) && IsLine(c, st', e') && st <= st'
    ensures (st' == st && e' == e) || e < st'
  {
    var before := if st' > 0 then c[st' - 1] else NEWLINE;
    var last, last' := if e < |c| then c[e] else NEWLINE, if e' < |c| then c[e'] else NEWLINE;
  }

  lemma FoundIsMatch(m: Matcher, line: Bytes, col: int)
    ensures MatchesAt(m, line, col) <==> col == FinderOf(m)(line) >= 0
  {
  }

  /** What the line scan reports from the start of a line on. */
  ghost predicate ReportsFrom(path: Bytes, c: Bytes, m: Matcher, maxCols: int, from: nat, n: nat, ms: seq<Match>) {
    && Ascends(ms) && (forall k :: 0 <= k < |ms| ==> ms[k].line > n && ReportsSome(path, c, m, maxCols, ms[k]))
    && (forall st: nat, e: nat, col :: st >= from && IsLine(c, st, e) && MatchesAt(m, c[st..e], col) ==>
          IsReported(path, c, m, maxCols, st, e, ms))
  }

  lemma ReportedLater(path: Bytes, c: Bytes, m: Matcher, maxCols: int, st: nat, e: nat, r: Match, ms: seq<Match>)
    ensures IsReported(path, c, m, maxCols, st, e, ms) ==> IsReported(path, c, m, maxCols, st, e, [r] + ms)
    ensures Reports(path, c, m, maxCols, st, e, r) ==> IsReported(path, c, m, maxCols, st, e, [r] + ms)
  {
    hide Reports;
    if k :| 0 <= k < |ms| && Reports(path, c, m, maxCols, st, e, ms[k]) { assert ([r] + ms)[k + 1] == ms[k]; }
    if Reports(path, c, m, maxCols, st, e, r) { assert ([r] + ms)[0] == r; }
  }

  lemma OneMoreReport(path: Bytes, c: Bytes, m: Matcher, maxCols: int, st: nat, e: nat, n: nat, r: Match, rest: seq<Match>)
    requires Reports(path, c, m, maxCols, st, e, r) && n == |NewlinesBefore(c, st)|
    requires ReportsFrom(path, c, m, maxCols, e + 1, n + 1, rest)
    ensures ReportsFrom(path, c, m, maxCols, st, n, [r] + rest)
  {
    hide MatchesAt, TellsOf, NewlinesBefore, IsReported, StartsLine;
    assert r.line == n + 1 by { ReportNumber(path, c, m, maxCols, st, e, r); }
    forall st': nat, e': nat, col | st' >= st && IsLine(c, st', e') && MatchesAt(m, c[st'..e'], col)
      ensures IsReported(path, c, m, maxCols, st', e', [r] + rest)
    {
      LinesApart(c, st, e, st', e');
      ReportedLater(path, c, m, maxCols, st', e', r, rest);
    }
    assert ReportsSome(path, c, m, maxCols, r);
  }

  lemma ReportNumber(path: Bytes, c: Bytes, m: Matcher, maxCols: int, st: nat, e: nat, r: Match)
    requires Reports(path, c, m, maxCols, st, e, r)
    ensures r.line == |NewlinesBefore(c, st)| + 1
  {
    hide MatchesAt, NewlinesBefore;
  }

  lemma NoReport(path: Bytes, c: Bytes, m: Matcher, maxCols: int, st: nat, e: nat, n: nat, rest: seq<Match>)
    requires IsLine(c, st, e) && FinderOf(m)(c[st..e]) < 0
    requires ReportsFrom(path, c, m, maxCols, e + 1, n + 1, rest)
    ensures ReportsFrom(path, c, m, maxCols, st, n, rest)
  {
    hide MatchesAt, IsReported, ReportsSome;
    forall st': nat, e': nat, col | st' >= st && IsLine(c, st', e') && MatchesAt(m, c[st'..e'], col)
      ensures IsReported(path, c, m, maxCols, st', e', rest)
    {
      LinesApart(c, st, e, st', e');
      FoundIsMatch(m, c[st'..e'], col);
    }
  }

  lemma {:induction false} ScanReports(path: Bytes, c: Bytes, m: Matcher, maxCols: int, st: nat, n: nat)
    requires st < |c| ==> StartsLine(c, st) && n == |NewlinesBefore(c, st)|
    ensures ReportsFrom(path, c, m, maxCols, st, n, ScanLines(path, c, st, n, FinderOf(m), maxCols))
    decreases |c| - st
  {
    hide ReportsFrom, NewlinesBefore, MatchesAt, FinderOf;
    if st >= |c| {
      NothingBeyond(path, c, m, maxCols, st, n);
    } else {
      var e := LineEnd(c, st);
      NextNewlines(c, st, e);
      ScanReports(path, c, m, maxCols, e + 1, n + 1);
      var rest := ScanLines(path, c, e + 1, n + 1, FinderOf(m), maxCols);
      var f := FinderOf(m)(c[st..e]);
      FoundIsMatch(m, c[st..e], f);
      if f >= 0 {
        OneMoreReport(path, c, m, maxCols, st, e, n, Report(path, c, st, e, n + 1, f, maxCols), rest);
      } else {
        NoReport(path, c, m, maxCols, st, e, n, rest);
      }
    }
  }

  lemma NothingBeyond(path: Bytes, c: Bytes, m: Matcher, maxCols: int, st: nat, n: nat)
    requires st >= |c|
    ensures ReportsFrom(path, c, m, maxCols, st, n, [])
  {
    hide MatchesAt;
  }

  /** Cutting off leaves the first lines. */
  lemma CutReports(path: Bytes, c: Bytes, m: Matcher, maxCols: int, limit: int, all: seq<Match>)
    requires ReportsFrom(path, c, m, maxCols, 0, 0, all)
    ensures LineReports(path, c, m, maxCols, limit, Limited(all, limit))
  {
    hide MatchesAt, NewlinesBefore, ReportsSome, Reports;
    var ms := Limited(all, limit);
    forall st: nat, e: nat, col | IsLine(c, st, e) && MatchesAt(m, c[st..e], col)
      ensures || IsReported(path, c, m, maxCols, st, e, ms)
              || (|ms| == limit > 0 && forall k :: 0 <= k < |ms| ==> ms[k].line <= |NewlinesBefore(c, st)|)
    {
      assert IsReported(path, c, m, maxCols, st, e, all);
      var k :| 0 <= k < |all| && Reports(path, c, m, maxCols, st, e, all[k]);
      ReportNumber(path, c, m, maxCols, st, e, all[k]);
      if k < |ms| { assert ms[k] == all[k]; }
    }
  }

  /** The line scan, cut at a limit, reports each line with a match, as it should. */
  lemma LimitedReports(path: Bytes, c: Bytes, m: Matcher, maxCols: int, limit: int)
    ensures LineReports(path, c, m, maxCols, limit, Limited(ScanLines(path, c, 0, 0, FinderOf(m), maxCols), limit))
  {
    hide LineReports, ReportsFrom, ScanLines, FinderOf, Limited, NewlinesBefore;
    NoneBefore(c);
    ScanReports(path, c, m, maxCols, 0, 0);
    CutReports(path, c, m, maxCols, limit, ScanLines(path, c, 0, 0, FinderOf(m), maxCols));
  }

  lemma SameReport(path: Bytes, c: Bytes, m: Matcher, maxCols: int, st: nat, e: nat, r: Match, r': Match)
    requires Reports(path, c, m, maxCols, st, e, r) && Reports(path, c, m, maxCols, st, e, r')
    ensures r == r'
  {
    hide NewlinesBefore, IsLine;
    FoundIsMatch(m, c[st..e], r.col);
    FoundIsMatch(m, c[st..e], r'.col);
  }

  lemma ReportedToo(path: Bytes, c: Bytes, m: Matcher, maxCols: int, a: seq<Match>, b: seq<Match>)
    requires LineReports(path, c, m, maxCols, 0, a) && LineReports(path, c, m, maxCols, 0, b)
    ensures forall r :: r in a ==> r in b
  {
    hide MatchesAt, IsLine, TellsOf;
    forall r | r in a ensures r in b {
      assert ReportsSome(path, c, m, maxCols, r);
      var st: nat, e: nat :| Reports(path, c, m, maxCols, st, e, r);
      assert IsReported(path, c, m, maxCols, st, e, b);
      var k :| 0 <= k < |b| && Reports(path, c, m, maxCols, st, e, b[k]);
      SameReport(path, c, m, maxCols, st, e, r, b[k]);
    }
  }

  lemma {:induction false} SameAscending(a: seq<Match>, b: seq<Match>)
    requires Ascends(a) && Ascends(b) && forall r :: r in a <==> r in b
    ensures a == b
  {
    if |a| == 0 {
      FirstIn(b);
    } else {
      assert a[|a| - 1] in b && |b| > 0;
      assert b[|b| - 1] in a;
      var x, y := |a| - 1, |b| - 1;
      assert a[x] == b[y];
      forall r ensures r in a[..x] <==> r in b[..y] { LastAside(a, r); LastAside(b, r); }
      SameAscending(a[..x], b[..y]);
      assert a == a[..x] + [a[x]] && b == b[..y] + [b[y]];
    }
  }

  lemma FirstIn(a: seq<Match>)
    ensures a == [] || a[0] in a
  {
  }

  lemma LastAside(a: seq<Match>, r: Match)
    requires |a| > 0 && Ascends(a)
    ensures r in a[..|a| - 1] <==> r in a && r != a[|a| - 1]
  {
  }

  /** The line reports of a text are no others. */
  lemma ReportsUnique(path: Bytes, c: Bytes, m: Matcher, maxCols: int, a: seq<Match>, b: seq<Match>)
    requires LineReports(path, c, m, maxCols, 0, a) && LineReports(path, c, m, maxCols, 0, b)
    ensures a == b
  {
    hide IsReported, ReportsSome, MatchesAt;
    ReportedToo(path, c, m, maxCols, a, b);
    ReportedToo(path, c, m, maxCols, b, a);
    SameAscending(a, b);
  }

  lemma NoneBefore(c: Bytes)
    ensures NewlinesBefore(c, 0) == {}
  {
  }

  /** A NUL among the first 8192 bytes marks a file as binary. */
  predicate IsBinary(c: Bytes) {
    0 in c[..if |c| > 8192 then 8192 else |c|]
  }

  /** Occurrences within a slice are occurrences within the whole. */
  lemma SliceOccurs(c: Bytes, lit: Bytes, fold: bool, st: nat, e: nat, i: int)
    requires st <= e <= |c|
    ensures OccursAt(c[st..e], lit, i, fold) <==> 0 <= i && st + i + |lit| <= e && OccursAt(c, lit, st + i, fold)
  {
    if 0 <= i && st + i + |lit| <= e {
      forall k | 0 <= k < |lit| ensures Same(c[st..e][i + k], lit[k], fold) <==> Same(c[st + i + k], lit[k], fold) {}
    }
  }

  /** Only a file containing the literal has a line to report. */
  lemma {:induction false} ScanHasMatch(path: Bytes, c: Bytes, st: nat, lineNo: nat, lit: Bytes, fold: bool, maxCols: int)
    requires ScanLines(path, c, st, lineNo, LiteralFinder(lit, fold), maxCols) != []
    ensures Occurs(c, lit, fold)
    decreases |c| - st
  {
    var e := LineEnd(c, st);
    var f := First(c[st..e], lit, fold, 0);
    if f >= 0 {
      SliceOccurs(c, lit, fold, st, e, f);
    } else {
      ScanHasMatch(path, c, e + 1, lineNo + 1, lit, fold, maxCols);
    }
  }

  /** The matches reported for one path, in order. */
  function OfPath(ms: seq<Match>, p: Bytes): seq<Match> {
    if |ms| == 0 then []
    else OfPath(ms[..|ms| - 1], p) + (if ms[|ms| - 1].path == p then [ms[|ms| - 1]] else [])
  }

  lemma {:induction false} OfPathAppend(a: seq<Match>, b: seq<Match>, p: Bytes)
    ensures OfPath(a + b, p) == OfPath(a, p) + OfPath(b, p)
  {
    if |b| == 0 {
      assert a + b == a;
    } else {
      var n := |b| - 1;
      assert (a + b)[..|a + b| - 1] == a + b[..n];
      OfPathAppend(a, b[..n], p);
    }
  }

  lemma OfPathPrefix(a: seq<Match>, b: seq<Match>, p: Bytes)
    requires a <= b
    ensures OfPath(a, p) <= OfPath(b, p)
  {
    hide OfPath;
    assert b == a + b[|a|..];
    OfPathAppend(a, b[|a|..], p);
  }

  lemma {:induction false} OfPathUniform(ms: seq<Match>, p: Bytes, q: Bytes)
    requires forall k :: 0 <= k < |ms| ==> ms[k].path == q
    ensures OfPath(ms, p) == if p == q then ms else []
  {
    if |ms| > 0 {
      OfPathUniform(ms[..|ms| - 1], p, q);
      assert ms[..|ms| - 1] + [ms[|ms| - 1]] == ms;
    }
  }

  // ---- disk engine: one line at a time ----

  function FinderOf(m: Matcher): Finder {
    if m.plain != [] then LiteralFinder(m.plain, m.fold)
    else (line: Bytes) => match m.re(line) case None => -1 case Some(loc) => loc.start
  }

  /** Number and column of the first match on the line starting at `st`. */
  method MatchLine(c: Bytes, st: nat, m: Matcher) returns (e: nat, col: int)
    requires st < |c| && (m.rare.Some? ==> m.rare.value in m.plain)
    ensures e == LineEnd(c, st)
    ensures col == FindIn(c, st, e, FinderOf(m)) || (col < 0 && FindIn(c, st, e, FinderOf(m)) < 0)
  {
    hide First, IndexByte;
    var idx := IndexByte(c, NEWLINE, st);
    e := if idx >= 0 then idx else |c|;
    var loc := FindFirst(m, c[st..e]);
    col := if loc.Some? then loc.value.start else -1;
  }

  method CheckBinary(c: Bytes) returns (b: bool)
    ensures b == IsBinary(c)
  {
    b := IndexByte(c[..if |c| > 8192 then 8192 else |c|], 0, 0) >= 0;
  }

  lemma BinaryIs(c: Bytes)
    ensures IsBinary(c) <==> 0 in c[..if |c| > 8192 then 8192 else |c|]
  {
  }

  lemma ScanStep(path: Bytes, c: Bytes, st: nat, e: nat, n: nat, find: Finder, f: int, maxCols: int)
    requires st < |c| && e == LineEnd(c, st)
    requires f == FindIn(c, st, e, find) || (f < 0 && FindIn(c, st, e, find) < 0)
    ensures ScanLines(path, c, st, n, find, maxCols) ==
      var rest := ScanLines(path, c, e + 1, n + 1, find, maxCols);
      if f >= 0 then [Report(path, c, st, e, n + 1, f, maxCols)] + rest else rest
  {
    hide FindIn, LineEnd, Report;
  }

  /** Scans content line by line. In files-only mode the first matching line is
      enough; otherwise at most `limit` lines are kept. */
  method MatchContent(path: Bytes, content: Bytes, m: Matcher, filesOnly: bool, limit: int, maxCols: int)
    returns (matches: seq<Match>)
    requires m.rare.Some? ==> m.rare.value in m.plain
    ensures matches ==
      if IsBinary(content) then []
      else Limited(ScanLines(path, content, 0, 0, FinderOf(m), maxCols), if filesOnly then 1 else limit)
    ensures 0 in content[..if |content| > 8192 then 8192 else |content|] ==> matches == []
    ensures 0 !in content[..if |content| > 8192 then 8192 else |content|] ==>
      LineReports(path, content, m, maxCols, if filesOnly then 1 else limit, matches)
  {
    BinaryIs(content);
    LimitedReports(path, content, m, maxCols, if filesOnly then 1 else limit);
    hide IsBinary, ScanLines, FindIn, FinderOf, LineEnd, MkMatch, LineReports;
    var bin := CheckBinary(content);
    if bin { return []; }
    matches := [];
    var st: nat, lineNo: nat := 0, 0;
    ghost var find := FinderOf(m);
    ghost var all := ScanLines(path, content, 0, 0, find, maxCols);
    while st < |content|
      invariant matches + ScanLines(path, content, st, lineNo, find, maxCols) == all
      invariant filesOnly ==> matches == []
      invariant limit > 0 ==> |matches| < limit
    {
      lineNo := lineNo + 1;
      var e, col := MatchLine(content, st, m);
      ScanStep(path, content, st, e, lineNo - 1, find, col, maxCols);
      if col >= 0 {
        var hit := MkMatch(path, lineNo, col, content[st..e], maxCols);
        ghost var rest := ScanLines(path, content, e + 1, lineNo, find, maxCols);
        MoveCons(matches, hit, rest);
        matches := matches + [hit];
        if filesOnly || (limit > 0 && |matches| >= limit) {
          LimitReached(matches, rest, |matches|);
          return;
        }
      }
      st := e + 1;
    }
    NothingToScan(path, content, st, lineNo, find, maxCols);
  }

  lemma NothingToScan(path: Bytes, c: Bytes, st: nat, n: nat, find: Finder, maxCols: int)
    requires st >= |c|
    ensures ScanLines(path, c, st, n, find, maxCols) == []
  {
  }

  lemma LimitLeaves<T>(a: seq<T>, limit: int)
    requires limit > 0 ==> |a| < limit
    ensures Limited(a, limit) == a
  {
  }

  lemma LimitReached<T>(a: seq<T>, b: seq<T>, limit: int)
    requires limit == |a| > 0
    ensures Limited(a + b, limit) == a
  {
  }

  // ---- memory engine: group whole-buffer matches by line ----

  /** Newlines among the first `p` bytes. */
  function Newlines(c: Bytes, p: nat): (n: nat)
    requires p <= |c|
    ensures n <= p
  {
    if p == 0 then 0 else Newlines(c, p - 1) + (if c[p - 1] == NEWLINE then 1 else 0)
  }

  /** Start of the line holding offset `p`. */
  function LineStart(c: Bytes, p: nat): (s: nat)
    requires p <= |c|
    ensures s <= p && NoNewline(c, s, p) && (s > 0 ==> c[s - 1] == NEWLINE)
  {
    if p == 0 || c[p - 1] == NEWLINE then p
    else LineStart(c, p - 1)
  }

  lemma {:induction false} NewlinesMono(c: Bytes, p: nat, q: nat)
    requires p <= q <= |c|
    ensures Newlines(c, p) <= Newlines(c, q)
    ensures Newlines(c, p) == Newlines(c, q) <==> NoNewline(c, p, q)
    decreases q
  {
    if p < q { NewlinesMono(c, p, q - 1); }
  }

  /** The line reported for one match. */
  function LineMatch(path: Bytes, c: Bytes, loc: Loc, maxCols: int): Match
    requires loc.start <= loc.end <= |c|
  {
    var s := LineStart(c, loc.start);
    Report(path, c, s, LineEnd(c, loc.end), Newlines(c, loc.start) + 1, loc.start - s, maxCols)
  }

  predicate Placed(c: Bytes, locs: seq<Loc>, k: nat)
    requires k < |locs|
  {
    locs[k].start <= locs[k].end <= |c| && (k > 0 ==> locs[k - 1].start <= locs[k].start)
  }

  /** Ranges within `c`, in order of their starts. */
  predicate Ordered(c: Bytes, locs: seq<Loc>) {
    forall k :: 0 <= k < |locs| ==> Placed(c, locs, k)
  }

  /** One report per line for the matches from `i` on, for the first match on it;
      `last` is the line number reported most recently. */
  function PerLine(path: Bytes, c: Bytes, locs: seq<Loc>, i: nat, last: int, maxCols: int): (r: seq<Match>)
    requires Ordered(c, locs) && i <= |locs|
    decreases |locs| - i
  {
    if i == |locs| then []
    else
      assert Placed(c, locs, i);
      var n := Newlines(c, locs[i].start) + 1;
      if n == last then PerLine(path, c, locs, i + 1, last, maxCols)
      else [LineMatch(path, c, locs[i], maxCols)] + PerLine(path, c, locs, i + 1, n, maxCols)
  }

  // ---- what those reports say ----

  lemma {:induction false} NewlinesCount(c: Bytes, p: nat)
    requires p <= |c|
    ensures Newlines(c, p) == |NewlinesBefore(c, p)|
  {
    if p > 0 {
      NewlinesCount(c, p - 1);
      assert NewlinesBefore(c, p) == NewlinesBefore(c, p - 1) + if c[p - 1] == NEWLINE then {p - 1} else {};
    } else {
      NoneBefore(c);
    }
  }

  /** The number of the line on which match `i` starts. */
  function LineOf(c: Bytes, locs: seq<Loc>, i: nat): nat
    requires i < |locs|
  {
    |NewlinesBefore(c, locs[i].start)| + 1
  }

  /** `r` tells of the lines from the start of `l` to its end, and where on them it starts. */
  ghost predicate TellsLoc(path: Bytes, c: Bytes, l: Loc, maxCols: int, r: Match) {
    exists st: nat, e: nat :: SpansLoc(c, l, st, e) && TellsOf(path, c, st, e, maxCols, r) && r.col == l.start - st
  }

  predicate SpansLoc(c: Bytes, l: Loc, st: nat, e: nat) {
    st <= l.start <= l.end <= |c| && StartsLine(c, st) && NoNewline(c, st, l.start) && EndsLine(c, l.end, e)
  }

  /** No match before `i` starts on the same line. */
  ghost predicate FirstOnLine(c: Bytes, locs: seq<Loc>, i: nat)
    requires i < |locs|
  {
    forall j :: 0 <= j < i ==> LineOf(c, locs, j) < LineOf(c, locs, i)
  }

  ghost predicate TellsFirst(path: Bytes, c: Bytes, locs: seq<Loc>, maxCols: int, i: nat, r: Match) {
    i < |locs| && FirstOnLine(c, locs, i) && TellsLoc(path, c, locs[i], maxCols, r) && r.line == LineOf(c, locs, i)
  }

  ghost predicate TellsSome(path: Bytes, c: Bytes, locs: seq<Loc>, maxCols: int, r: Match) {
    exists i: nat :: TellsFirst(path, c, locs, maxCols, i, r)
  }

  ghost predicate IsTold(ms: seq<Match>, n: nat) {
    exists k :: 0 <= k < |ms| && ms[k].line == n
  }

  /** `ms` tells of each line on which a match starts, once, in order, and by the first
      match that does. */
  ghost predicate LocReports(path: Bytes, c: Bytes, locs: seq<Loc>, maxCols: int, ms: seq<Match>) {
    && Ascends(ms)
    && (forall k :: 0 <= k < |ms| ==> TellsSome(path, c, locs, maxCols, ms[k]))
    && (forall i :: 0 <= i < |locs| ==> IsTold(ms, LineOf(c, locs, i)))
  }

  /** The same from match `i` on, after line `last`. */
  ghost predicate RestReports(path: Bytes, c: Bytes, locs: seq<Loc>, maxCols: int, i: nat, last: int, ms: seq<Match>) {
    && Ascends(ms)
    && (forall k :: 0 <= k < |ms| ==> ms[k].line > last && TellsSome(path, c, locs, maxCols, ms[k]))
    && (forall j :: i <= j < |locs| ==> LineOf(c, locs, j) == last || IsTold(ms, LineOf(c, locs, j)))
  }

  lemma LineMatchTells(path: Bytes, c: Bytes, l: Loc, maxCols: int)
    requires l.start <= l.end <= |c|
    ensures TellsLoc(path, c, l, maxCols, LineMatch(path, c, l, maxCols))
    ensures LineMatch(path, c, l, maxCols).line == |NewlinesBefore(c, l.start)| + 1
  {
    var s, e := LineStart(c, l.start), LineEnd(c, l.end);
    hide Newlines, NewlinesBefore, LineStart, LineEnd;
    NewlinesCount(c, l.start);
    SameNumber(c, s, l.start);
    assert SpansLoc(c, l, s, e);
  }

  lemma SameNumber(c: Bytes, s: nat, p: nat)
    requires s <= p <= |c| && NoNewline(c, s, p)
    ensures NewlinesBefore(c, s) == NewlinesBefore(c, p)
  {
  }

  /** Matches before `i` are on line `last` or earlier. */
  ghost predicate UpTo(c: Bytes, locs: seq<Loc>, i: nat, last: int) {
    forall j :: 0 <= j < i && j < |locs| ==> LineOf(c, locs, j) <= last
  }

  lemma OneMoreTold(path: Bytes, c: Bytes, locs: seq<Loc>, maxCols: int, i: nat, last: int, r: Match, rest: seq<Match>)
    requires TellsFirst(path, c, locs, maxCols, i, r) && r.line > last
    requires RestReports(path, c, locs, maxCols, i + 1, r.line, rest)
    ensures RestReports(path, c, locs, maxCols, i, last, [r] + rest)
  {
    hide TellsFirst, LineOf;
    assert TellsSome(path, c, locs, maxCols, r);
    var all := [r] + rest;
    assert all[0] == r && forall k :: 0 <= k < |rest| ==> all[k + 1] == rest[k];
    forall j | i <= j < |locs| ensures LineOf(c, locs, j) == last || IsTold(all, LineOf(c, locs, j)) {
      if j == i {
        FirstNumber(path, c, locs, maxCols, i, r);
      } else if LineOf(c, locs, j) != r.line {
        assert IsTold(rest, LineOf(c, locs, j));
        var k :| 0 <= k < |rest| && rest[k].line == LineOf(c, locs, j);
        assert all[k + 1].line == LineOf(c, locs, j);
      }
    }
  }

  lemma FirstNumber(path: Bytes, c: Bytes, locs: seq<Loc>, maxCols: int, i: nat, r: Match)
    requires TellsFirst(path, c, locs, maxCols, i, r)
    ensures i < |locs| && r.line == LineOf(c, locs, i)
  {
    hide TellsLoc, LineOf;
  }

  lemma LinesInOrder(c: Bytes, locs: seq<Loc>, i: nat, last: int)
    requires Ordered(c, locs) && i < |locs| && UpTo(c, locs, i, last) && (i == 0 || last == LineOf(c, locs, i - 1))
    requires i == 0 ==> last < 0
    ensures LineOf(c, locs, i) >= last && locs[i].start <= locs[i].end <= |c|
    ensures UpTo(c, locs, i + 1, LineOf(c, locs, i)) && (LineOf(c, locs, i) > last ==> FirstOnLine(c, locs, i))
  {
    hide NewlinesBefore;
    assert Placed(c, locs, i);
    if i > 0 { NewlinesGrow(c, locs[i - 1].start, locs[i].start); }
  }

  lemma {:induction false} PerLineReports(path: Bytes, c: Bytes, locs: seq<Loc>, maxCols: int, i: nat, last: int)
    requires Ordered(c, locs) && i <= |locs| && UpTo(c, locs, i, last)
    requires if i == 0 then last < 0 else last == LineOf(c, locs, i - 1)
    ensures RestReports(path, c, locs, maxCols, i, last, PerLine(path, c, locs, i, last, maxCols))
    decreases |locs| - i
  {
    hide RestReports, LineOf, UpTo, Ordered, Newlines, LineMatch, TellsLoc, FirstOnLine;
    if i == |locs| {
      NothingTold(path, c, locs, maxCols, i, last);
    } else {
      LinesInOrder(c, locs, i, last);
      NewlinesCount(c, locs[i].start);
      var n := Newlines(c, locs[i].start) + 1;
      LineIs(c, locs, i, n);
      PerLineReports(path, c, locs, maxCols, i + 1, n);
      var rest := PerLine(path, c, locs, i + 1, n, maxCols);
      if n == last {
        SameLineTold(path, c, locs, maxCols, i, last, rest);
      } else {
        LineMatchTells(path, c, locs[i], maxCols);
        OneMoreTold(path, c, locs, maxCols, i, last, LineMatch(path, c, locs[i], maxCols), rest);
      }
    }
  }

  lemma LineIs(c: Bytes, locs: seq<Loc>, i: nat, n: nat)
    requires i < |locs| && n == |NewlinesBefore(c, locs[i].start)| + 1
    ensures n == LineOf(c, locs, i)
  {
  }

  lemma NothingTold(path: Bytes, c: Bytes, locs: seq<Loc>, maxCols: int, i: nat, last: int)
    requires i >= |locs|
    ensures RestReports(path, c, locs, maxCols, i, last, [])
  {
  }

  lemma SameLineTold(path: Bytes, c: Bytes, locs: seq<Loc>, maxCols: int, i: nat, last: int, rest: seq<Match>)
    requires i < |locs| && last == LineOf(c, locs, i) && RestReports(path, c, locs, maxCols, i + 1, last, rest)
    ensures RestReports(path, c, locs, maxCols, i, last, rest)
  {
    hide TellsSome, NewlinesBefore, IsTold;
    forall j | i <= j < |locs| ensures LineOf(c, locs, j) == last || IsTold(rest, LineOf(c, locs, j)) {
      if j > i { assert i + 1 <= j; }
    }
  }

  /** Grouped by line, matches tell of the lines on which they start, as they should. */
  lemma PerLineTells(path: Bytes, c: Bytes, locs: seq<Loc>, maxCols: int)
    requires Ordered(c, locs)
    ensures LocReports(path, c, locs, maxCols, PerLine(path, c, locs, 0, -1, maxCols))
  {
    hide TellsSome, NewlinesBefore, PerLine, Ordered, IsTold;
    PerLineReports(path, c, locs, maxCols, 0, -1);
    var ms := PerLine(path, c, locs, 0, -1, maxCols);
    forall i | 0 <= i < |locs| ensures IsTold(ms, LineOf(c, locs, i)) { assert LineOf(c, locs, i) >= 1; }
  }

  /** `res` is `prior` with such reports added, as far as the limit lets it. */
  ghost predicate AppendsReports(path: Bytes, c: Bytes, locs: seq<Loc>, maxCols: int, prior: seq<Match>, limit: int, res: seq<Match>) {
    exists ms :: LocReports(path, c, locs, maxCols, ms) && res == Limited(prior + ms, limit)
  }

  lemma PerLineAppends(path: Bytes, c: Bytes, locs: seq<Loc>, maxCols: int, prior: seq<Match>, limit: int)
    requires Ordered(c, locs)
    ensures AppendsReports(path, c, locs, maxCols, prior, limit, Limited(prior + PerLine(path, c, locs, 0, -1, maxCols), limit))
  {
    hide LocReports, Limited, PerLine, Ordered;
    PerLineTells(path, c, locs, maxCols);
  }

  lemma NoNewlinesYet(c: Bytes)
    ensures Newlines(c, 0) == 0
  {
  }

  /** Moves on to offset `target`, counting the newlines passed. */
  method SkipTo(c: Bytes, from: nat, lineFrom: nat, target: nat) returns (pos: nat, lineNo: nat)
    requires from <= target <= |c| && lineFrom == Newlines(c, from) + 1
    ensures pos == target && lineNo == Newlines(c, target) + 1
  {
    pos, lineNo := from, lineFrom;
    while pos < target
      invariant pos <= target && lineNo == Newlines(c, pos) + 1
    {
      var nl := IndexByte(c, NEWLINE, pos);
      if nl < 0 || target <= nl {
        NewlinesMono(c, pos, target);
        pos := target;
      } else {
        NewlinesMono(c, pos, nl);
        pos := nl + 1;
        lineNo := lineNo + 1;
      }
    }
  }

  /** The line around a match whose line number is known. */
  method LineAround(path: Bytes, c: Bytes, loc: Loc, lineNo: nat, maxCols: int) returns (m: Match)
    requires loc.start <= loc.end <= |c| && lineNo == Newlines(c, loc.start) + 1
    ensures m == LineMatch(path, c, loc, maxCols)
  {
    var start := LineStart(c, loc.start);
    var nl := IndexByte(c, NEWLINE, loc.end);
    var end := if nl >= 0 then nl else |c|;
    m := MkMatch(path, lineNo, loc.start - start, c[start..end], maxCols);
  }

  /** Appends one match per matching line to `prior`, counting lines as it goes and
      stopping once the result holds `limit` matches. */
  method AppendLineMatches(path: Bytes, content: Bytes, locs: seq<Loc>, prior: seq<Match>, limit: int, maxCols: int)
    returns (res: seq<Match>)
    requires Ordered(content, locs)
    requires limit > 0 ==> |prior| < limit
    ensures res == Limited(prior + PerLine(path, content, locs, 0, -1, maxCols), limit)
    ensures AppendsReports(path, content, locs, maxCols, prior, limit, res)
  {
    hide Newlines, LineMatch, LineStart, LineEnd, Limited, AppendsReports, NewlinesBefore, TellsOf, SpansLoc, LineOf;
    res := prior;
    var lineNo: nat, pos: nat, lastLine: int := 1, 0, -1;
    NoNewlinesYet(content);
    PerLineAppends(path, content, locs, maxCols, prior, limit);
    ghost var all := prior + PerLine(path, content, locs, 0, -1, maxCols);
    for i := 0 to |locs|
      invariant pos <= |content| && lineNo == Newlines(content, pos) + 1
      invariant i < |locs| ==> pos <= locs[i].start
      invariant limit > 0 ==> |res| < limit
      invariant res + PerLine(path, content, locs, i, lastLine, maxCols) == all
    {
      assert Placed(content, locs, i) && (i + 1 < |locs| ==> Placed(content, locs, i + 1));
      pos, lineNo := SkipTo(content, pos, lineNo, locs[i].start);
      if lineNo != lastLine {
        lastLine := lineNo;
        var m := LineAround(path, content, locs[i], lineNo, maxCols);
        MoveCons(res, m, PerLine(path, content, locs, i + 1, lastLine, maxCols));
        res := res + [m];
        if limit > 0 && |res| >= limit {
          LimitReached(res, PerLine(path, content, locs, i + 1, lastLine, maxCols), limit);
          return;
        }
      }
    }
    LimitLeaves(res, limit);
    assert res + [] == res;
  }
}
