/** When searches notice that files changed while a rebuild cycle ran. */
module Unnoticed {
  // Changes.CycleUnderChange says when the bookkeeping stays right. A file whose mark was
  // swallowed may have changed in ways that no search can tell; here is exactly which.

  import opened Prelude
  import opened Bytes
  import opened Literal
  import opened Lines
  import opened Ranges
  import opened EngineSpec
  import opened Rebuild
  import opened Engine
  import opened Changes
  import Pruning
  import Q = Query

  // ---- queries that prune soundly ----

  /** Every line the query matches has the trigrams of its literal. */
  ghost predicate LineSound(q: Query) {
    && (q.m.rare.Some? ==> q.m.rare.value in q.m.plain)
    && (|q.literal| >= 3 ==> forall line :: FinderOf(q.m)(line) >= 0 ==> Tris(q.literal) <= Tris(line))
  }

  lemma LineSoundPrunes(q: Query)
    requires LineSound(q)
    ensures PruningOk(q)
  {
    hide Tris, IsBinary, ScanLines;
    forall p, c | |q.literal| >= 3 && FileLines(q, p, c) != [] ensures Tris(q.literal) <= Tris(c) {
      var b, e := Pruning.SomeLineMatches(p, c, 0, 0, FinderOf(q.m), q.maxCols);
      Pruning.SliceTris(c, b, e);
    }
  }

  /** Queries for a literal are of this kind. */
  lemma LiteralIsLineSound(q: Query)
    requires q.m.plain != [] && (q.m.rare.Some? ==> q.m.rare.value in q.m.plain)
    requires q.literal == [] || q.literal == LowerAll(q.m.plain)
    ensures LineSound(q)
  {
    hide Tris, OccursAt;
    forall line | |q.literal| >= 3 && FinderOf(q.m)(line) >= 0 ensures Tris(q.literal) <= Tris(line) {
      OccurrenceHasTris(line, q.m.plain, First(line, q.m.plain, q.m.fold, 0), q.m.fold);
    }
  }

  /** So are regexp queries whose literal case folding cannot hide. */
  lemma RegexpIsLineSound(q: Query, re: Q.Re, nocase: bool)
    requires q.m.plain == [] && q.m.rare == None && Pruning.FindsOnly(q.m.re, re, nocase)
    requires q.literal == Q.Usable(Q.ReqLit(re)) && !Q.CanHide(re, nocase)
    ensures LineSound(q)
  {
    hide Tris, Q.Accepts, Q.ReqLit, Q.Usable, Q.CanHide, Q.HasOdd;
    forall line | FinderOf(q.m)(line) >= 0 ensures Tris(q.literal) <= Tris(line) {
      assert q.m.re(line).Some?;
      var i: nat, j: nat :| i <= j <= |line| && Q.Accepts(re, line, i, j, nocase);
      Q.MatchHasTris(re, line, i, j, nocase);
    }
  }

  // ---- texts that read alike ----

  /** The lines of `c` from offset `st` on. */
  function LinesOf(c: Bytes, st: nat): seq<Bytes>
    decreases |c| - st
  {
    if st >= |c| then [] else var e := LineEnd(c, st); [c[st..e]] + LinesOf(c, e + 1)
  }

  lemma {:induction false} SameLines(p: Bytes, c: Bytes, st: nat, c': Bytes, st': nat, n: nat, find: Finder, maxCols: int)
    requires LinesOf(c, st) == LinesOf(c', st')
    ensures ScanLines(p, c, st, n, find, maxCols) == ScanLines(p, c', st', n, find, maxCols)
    decreases |c| - st
  {
    if st < |c| {
      assert LinesOf(c, st)[1..] == LinesOf(c, LineEnd(c, st) + 1);
      assert LinesOf(c', st')[1..] == LinesOf(c', LineEnd(c', st') + 1);
      assert LinesOf(c, st)[0] == LinesOf(c', st')[0];
      SameLines(p, c, LineEnd(c, st) + 1, c', LineEnd(c', st') + 1, n + 1, find, maxCols);
    } else {
      assert LinesOf(c', st') == [];
    }
  }

  function Texts(ms: seq<Match>): seq<Bytes> {
    if |ms| == 0 then [] else [ms[0].text] + Texts(ms[1..])
  }

  lemma TextsCons(m: Match, rest: seq<Match>)
    ensures Texts([m] + rest) == [m.text] + Texts(rest)
  {
    assert ([m] + rest)[1..] == rest;
  }

  /** Listing every line tells the lines. */
  lemma {:induction false} ListedLines(p: Bytes, c: Bytes, st: nat, n: nat, find: Finder)
    requires forall line :: find(line) == 0
    ensures Texts(ScanLines(p, c, st, n, find, 0)) == LinesOf(c, st)
    decreases |c| - st
  {
    hide LineEnd, Texts;
    if st < |c| {
      var e := LineEnd(c, st);
      var m, rest := Report(p, c, st, e, n + 1, 0, 0), ScanLines(p, c, e + 1, n + 1, find, 0);
      ListedLines(p, c, e + 1, n + 1, find);
      TextsCons(m, rest);
      assert ScanLines(p, c, st, n, find, 0) == [m] + rest;
    } else {
      NoTexts();
    }
  }

  lemma NoTexts()
    ensures Texts([]) == []
  {
  }

  /** Three bytes of `c` without a newline among them. */
  ghost predicate HasPlainTri(c: Bytes, k: nat) {
    exists i: nat :: i + 3 <= |c| && NoNewline(c, i, i + 3) && TriKey(c, i) == k
  }

  lemma LineTris(c: Bytes, b: nat, e: nat, k: nat)
    requires b <= e <= |c| && NoNewline(c, b, e) && k in Tris(c[b..e])
    ensures HasPlainTri(c, k)
  {
    var i: nat :| i + 3 <= |c[b..e]| && TriKey(c[b..e], i) == k;
    assert TriKey(c, b + i) == k && NoNewline(c, b + i, b + i + 3);
  }

  // ---- one row ----

  /** No bound on size tells one from the other: a bound of zero is none. */
  predicate SizesAlike(a: nat, b: nat) {
    a == b || (a <= 1 && b <= 1)
  }

  /** The row of a file whose content was `was` answers as the file there now: it has
      nothing to say of a file that has nothing to say; or sizes are alike, and inlined
      content has the same lines, or content read afresh no trigram that the row lacks. */
  ghost predicate RowPasses(r: Row, was: Bytes, after: Disk) {
    if r.path !in after || !Visible(after[r.path]) then r.inline.None?
    else
      && SizesAlike(r.size, after[r.path].size)
      && (if r.inline.Some? then LinesOf(was, 0) == LinesOf(after[r.path].content, 0)
          else forall k :: HasPlainTri(after[r.path].content, k) ==> k in Tris(was))
  }

  /** The row is one of a text. */
  predicate RowOfText(r: Row, was: Bytes) {
    !IsBinary(was) && r.tris == Tris(was) && (r.inline.Some? ==> r.inline.value == was && was != [])
  }

  lemma AlikeWanted(q: Query, p: Bytes, a: nat, b: nat)
    requires SizesAlike(a, b)
    ensures Wanted(q, p, a) <==> Wanted(q, p, b)
  {
  }

  lemma LinesAnswer(q: Query, p: Bytes, was: Bytes, now: Bytes)
    requires LinesOf(was, 0) == LinesOf(now, 0) && !IsBinary(was) && !IsBinary(now)
    ensures FileLines(q, p, was) == FileLines(q, p, now)
  {
    hide IsBinary;
    SameLines(p, was, 0, now, 0, 0, FinderOf(q.m), q.maxCols);
  }

  /** A matching line of the text now has only trigrams that the row has too. */
  lemma PlainAnswer(q: Query, p: Bytes, was: Bytes, now: Bytes)
    requires LineSound(q) && |q.literal| >= 3 && FileLines(q, p, now) != []
    requires forall k :: HasPlainTri(now, k) ==> k in Tris(was)
    ensures Tris(q.literal) <= Tris(was)
  {
    hide Tris, IsBinary, ScanLines, HasPlainTri;
    var b, e := MatchingLine(p, now, 0, 0, FinderOf(q.m), q.maxCols);
    forall k | k in Tris(q.literal) ensures k in Tris(was) { LineTris(now, b, e, k); }
  }

  lemma {:induction false} MatchingLine(path: Bytes, c: Bytes, st: nat, n: nat, find: Finder, maxCols: int) returns (b: nat, e: nat)
    requires ScanLines(path, c, st, n, find, maxCols) != []
    ensures b <= e <= |c| && find(c[b..e]) >= 0 && NoNewline(c, b, e)
    decreases |c| - st
  {
    b, e := st, LineEnd(c, st);
    if FindIn(c, st, e, find) < 0 { b, e := MatchingLine(path, c, e + 1, n + 1, find, maxCols); }
  }

  lemma PassesAnswers(r: Row, was: Bytes, after: Disk, q: Query)
    requires RowOfText(r, was) && RowPasses(r, was, after) && LineSound(q)
    ensures RowAnswer(after, q, r) == DiskScan(after, q, r.path)
  {
    hide IsBinary, Tris, FileLines, LinesOf, SizesAlike, Wanted, HasPlainTri, LineSound;
    var p := r.path;
    if p in after {
      if !Visible(after[p]) {
        InvisibleIsSilent(q, p, after[p]);
      } else {
        AlikeWanted(q, p, r.size, after[p].size);
        if r.inline.Some? {
          LinesAnswer(q, p, was, after[p].content);
          LineSoundPrunes(q);
          SilentUnlessCandidate(q, p, was);
        } else if |q.literal| >= 3 && FileLines(q, p, after[p].content) != [] {
          PlainAnswer(q, p, was, after[p].content);
        }
      }
    }
  }

  lemma SilentUnlessCandidate(q: Query, p: Bytes, was: Bytes)
    requires PruningOk(q)
    ensures |q.literal| >= 3 && FileLines(q, p, was) != [] ==> Tris(q.literal) <= Tris(was)
  {
    hide FileLines, Tris;
  }

  // ---- otherwise a search shows it ----

  /** Every line of files of at most `n` bytes. */
  function UpTo(n: nat): Query { EveryLine().(maxSize := n) }

  lemma UpToReports(n: nat, p: Bytes, c: Bytes)
    ensures LineSound(UpTo(n))
    ensures !IsBinary(c) && c != [] ==> FileLines(UpTo(n), p, c) != []
    ensures forall size: nat :: Wanted(UpTo(n), p, size) <==> n == 0 || size <= n
  {
    hide IsBinary;
    var find := FinderOf(UpTo(n).m);
    if !IsBinary(c) && c != [] {
      assert FindIn(c, 0, LineEnd(c, 0), find) == 0;
      assert ScanLines(p, c, 0, 0, find, 0) != [];
    }
  }

  /** A bound that lets one size through and not the other. */
  lemma BetweenSizes(a: nat, b: nat) returns (n: nat)
    requires !SizesAlike(a, b)
    ensures n > 0 && (a <= n <==> n < b)
  {
    if a < b { n := if a == 0 then 1 else a; } else { n := if b == 0 then 1 else b; }
  }

  lemma SizeShows(r: Row, was: Bytes, after: Disk) returns (q: Query)
    requires RowOfText(r, was) && r.path in after && Visible(after[r.path]) && !SizesAlike(r.size, after[r.path].size)
    ensures LineSound(q) && RowAnswer(after, q, r) != DiskScan(after, q, r.path)
  {
    hide IsBinary, Tris, FileLines, LineSound, Wanted, SizesAlike;
    var p := r.path;
    var n := BetweenSizes(r.size, after[p].size);
    q := UpTo(n);
    UpToReports(n, p, was);
    UpToReports(n, p, after[p].content);
    ShortLiteral(n);
  }

  lemma ShortLiteral(n: nat)
    ensures |UpTo(n).literal| == 0
  {
  }

  lemma GoneShows(r: Row, was: Bytes, after: Disk) returns (q: Query)
    requires RowOfText(r, was) && r.inline.Some? && !(r.path in after && Visible(after[r.path]))
    ensures LineSound(q) && RowAnswer(after, q, r) != DiskScan(after, q, r.path)
  {
    hide IsBinary, Tris, FileLines, LineSound, Wanted;
    q := UpTo(0);
    UpToReports(0, r.path, was);
    ShortLiteral(0);
    if r.path in after { InvisibleIsSilent(q, r.path, after[r.path]); }
  }

  lemma LinesShow(r: Row, was: Bytes, after: Disk) returns (q: Query)
    requires RowOfText(r, was) && r.inline.Some? && r.path in after && Visible(after[r.path])
    requires LinesOf(was, 0) != LinesOf(after[r.path].content, 0)
    ensures LineSound(q) && RowAnswer(after, q, r) != DiskScan(after, q, r.path)
  {
    hide IsBinary, Tris, LineSound, Wanted, ScanLines, LinesOf;
    var p, now := r.path, after[r.path].content;
    q := UpTo(0);
    UpToReports(0, p, was);
    ShortLiteral(0);
    var find := FinderOf(q.m);
    ListedLines(p, was, 0, 0, find);
    ListedLines(p, now, 0, 0, find);
  }

  lemma TriShows(r: Row, was: Bytes, after: Disk, k: nat) returns (q: Query)
    requires RowOfText(r, was) && r.inline.None? && r.path in after && Visible(after[r.path])
    requires HasPlainTri(after[r.path].content, k) && k !in Tris(was)
    ensures LineSound(q) && RowAnswer(after, q, r) != DiskScan(after, q, r.path)
  {
    hide IsBinary, Tris, LineSound, FileLines, OccursAt;
    var p, now := r.path, after[r.path].content;
    var i: nat :| i + 3 <= |now| && NoNewline(now, i, i + 3) && TriKey(now, i) == k;
    var lit := now[i..i + 3];
    SliceThere(now, i);
    q := LiteralQuery(lit);
    LiteralIsLineSound(q);
    LiteralReported(after, p, lit, i);
    SliceKey(now, i);
    assert k in Tris(q.literal);
  }

  lemma SliceThere(now: Bytes, i: nat)
    requires i + 3 <= |now| && NoNewline(now, i, i + 3)
    ensures OccursAt(now, now[i..i + 3], i, false) && NoNewline(now[i..i + 3], 0, 3)
  {
  }

  lemma SliceKey(now: Bytes, i: nat)
    requires i + 3 <= |now|
    ensures TriKey(now, i) in Tris(LowerAll(now[i..i + 3]))
  {
    var lit := now[i..i + 3];
    assert TriKey(LowerAll(lit), 0) == TriKey(now, i);
  }

  lemma ElseShows(r: Row, was: Bytes, after: Disk) returns (q: Query)
    requires RowOfText(r, was) && !RowPasses(r, was, after)
    ensures LineSound(q) && RowAnswer(after, q, r) != DiskScan(after, q, r.path)
  {
    hide IsBinary, Tris, LineSound, FileLines, RowAnswer, DiskScan, LinesOf, HasPlainTri, SizesAlike, Visible, RowOfText;
    var p := r.path;
    if !(p in after && Visible(after[p])) {
      q := GoneShows(r, was, after);
    } else if !SizesAlike(r.size, after[p].size) {
      q := SizeShows(r, was, after);
    } else if r.inline.Some? {
      q := LinesShow(r, was, after);
    } else {
      var k :| HasPlainTri(after[p].content, k) && k !in Tris(was);
      q := TriShows(r, was, after, k);
    }
  }

  // ---- a cycle while files change ----

  /** All that a cycle may do unnoticed while files change: it loses no file that is not
      marked again, and the row of each path it swallows a mark of passes for the file's. */
  ghost predicate Passes(c: Cycle, marks: Dirty, after: Disk) {
    (forall p :: p !in marks ==> !Lost(c, p)) && (forall p :: Swallowed(c, marks, p) ==> PassesAt(c, after, p))
  }

  ghost predicate PassesAt(c: Cycle, after: Disk, p: Bytes) {
    if CountAfter(c, p) > 0 then p in c.disk && RowPasses(FreshRow(c, p), c.disk[p].content, after)
    else !(p in after && Visible(after[p]))
  }

  ghost predicate RightFor(rows: seq<Row>, dirty: Dirty, disk: Disk, q: Query, p: Bytes) {
    Answer(rows, dirty, disk, q, p) == DiskScan(disk, q, p)
  }

  /** Every query that prunes soundly is answered as a scan of the disk would. */
  ghost predicate AllRight(rows: seq<Row>, dirty: Dirty, disk: Disk) {
    forall q, p :: LineSound(q) ==> RightFor(rows, dirty, disk, q, p)
  }

  /** A path whose mark was not swallowed, and that was not lost, is in order. */
  lemma InOrder(c: Cycle, newRows: seq<Row>, marks: Dirty, after: Disk, p: Bytes)
    requires CoherentCycle(c) && NewRowsOf(c, newRows) && MarkedChanges(c.disk, marks, after)
    requires !Swallowed(c, marks, p) && (p !in marks ==> !Lost(c, p))
    ensures CoherentAt(AllRows(ShardsAfter(c, newRows)), Cleared(c, marks), after, p)
  {
    hide AllRows, CoherentCycle, NewRowsOf, ShardsAfter, Cleared, MarkedChanges, Lost, Swallowed, CountPath, Visible, Agrees, CountAfter;
    var rows := AllRows(ShardsAfter(c, newRows));
    forall r | r in rows && r.path == p ensures p in Cleared(c, marks) || Agrees(r, after) {
      if p !in Cleared(c, marks) { RowUnderChange(c, newRows, marks, after, r); }
    }
    if p in after && Visible(after[p]) && p !in Cleared(c, marks) { FileUnderChange(c, newRows, marks, after, p); }
    WasCoherent(c);
    if p in Cleared(c, marks) && Cleared(c, marks)[p] { FlagsAfter(c, marks, after, p); }
    CountsAfter(c, newRows, p);
  }

  /** The row made for a path that is still a file is that of a text. */
  lemma FreshIsOfText(c: Cycle, p: Bytes)
    requires CountAfter(c, p) > 0 && p in c.dirty && !Deferred(c, p) && p in c.disk
    ensures RowOfText(FreshRow(c, p), c.disk[p].content) && FreshRow(c, p).path == p
  {
    hide CountPath, Home, Tris, Affected;
  }

  lemma SwallowedIsProcessed(c: Cycle, marks: Dirty, p: Bytes)
    requires Swallowed(c, marks, p)
    ensures p in c.dirty && !Deferred(c, p)
  {
    hide Deferred;
  }

  /** A swallowed path is answered for rightly exactly if its row passes. */
  lemma SwallowedExactly(c: Cycle, newRows: seq<Row>, marks: Dirty, after: Disk, p: Bytes) returns (q: Query)
    requires CoherentCycle(c) && NewRowsOf(c, newRows) && Swallowed(c, marks, p)
    ensures PassesAt(c, after, p) ==>
      forall q' :: LineSound(q') ==> RightFor(AllRows(ShardsAfter(c, newRows)), Cleared(c, marks), after, q', p)
    ensures !PassesAt(c, after, p) ==> LineSound(q) && !RightFor(AllRows(ShardsAfter(c, newRows)), Cleared(c, marks), after, q, p)
  {
    hide AllRows, CoherentCycle, NewRowsOf, ShardsAfter, Cleared, Swallowed, CountAfter, Answer, DiskScan, LineSound, RowPasses, RowAnswer, FreshRow, Deferred, Visible;
    q := EveryLine();
    SwallowedIsProcessed(c, marks, p);
    forall q' ensures CountAfter(c, p) > 0 ==> p in c.disk
      ensures Answer(AllRows(ShardsAfter(c, newRows)), Cleared(c, marks), after, q', p) ==
        if CountAfter(c, p) > 0 then RowAnswer(after, q', FreshRow(c, p)) else []
    {
      SwallowedAnswers(c, newRows, marks, after, p, q');
    }
    if CountAfter(c, p) > 0 {
      SwallowedAnswers(c, newRows, marks, after, p, q);
      FreshIsOfText(c, p);
      var r, was := FreshRow(c, p), c.disk[p].content;
      if RowPasses(r, was, after) {
        forall q' | LineSound(q') ensures RowAnswer(after, q', r) == DiskScan(after, q', p) { PassesAnswers(r, was, after, q'); }
      } else {
        q := ElseShows(r, was, after);
      }
    } else if p in after && Visible(after[p]) {
      EveryLineReports(after, p);
      EveryIsLineSound();
    } else {
      forall q' ensures DiskScan(after, q', p) == [] { NothingToScan(after, q', p); }
    }
  }

  lemma EveryIsLineSound()
    ensures LineSound(EveryLine())
  {
  }

  lemma NothingToScan(disk: Disk, q: Query, p: Bytes)
    requires !(p in disk && Visible(disk[p]))
    ensures DiskScan(disk, q, p) == []
  {
    hide IsBinary;
  }

  /** A lost path that is not marked again shows. */
  lemma LostIsSeen(c: Cycle, newRows: seq<Row>, marks: Dirty, after: Disk, p: Bytes)
    requires CoherentCycle(c) && NewRowsOf(c, newRows) && MarkedChanges(c.disk, marks, after) && Lost(c, p) && p !in marks
    ensures LineSound(EveryLine()) && !RightFor(AllRows(ShardsAfter(c, newRows)), Cleared(c, marks), after, EveryLine(), p)
  {
    hide AllRows, CoherentCycle, NewRowsOf, ShardsAfter, Cleared, MarkedChanges, Lost, CountPath, EveryLine, DiskScan, RowsAnswer, LineSound, Visible;
    LostUnderChange(c, newRows, marks, after, p);
    NoRow(AllRows(ShardsAfter(c, newRows)), after, EveryLine(), p);
    EveryLineReports(after, p);
    EveryIsLineSound();
  }

  /** A cycle goes unnoticed by every search while files change exactly if it loses none
      that is not marked again, and whatever it swallows a mark of reads as before: gone or
      without text if it has no row or its text is read afresh; else of a like size, and
      of the same lines if inlined, or without a trigram that the row lacks. */
  lemma UnnoticedExactly(c: Cycle, newRows: seq<Row>, marks: Dirty, after: Disk)
    requires CoherentCycle(c) && NewRowsOf(c, newRows) && MarkedChanges(c.disk, marks, after)
    ensures AllRight(AllRows(ShardsAfter(c, newRows)), Cleared(c, marks), after) <==> Passes(c, marks, after)
  {
    hide AllRows, CoherentCycle, NewRowsOf, ShardsAfter, Cleared, MarkedChanges, Lost, Swallowed, RightFor, LineSound, PassesAt, EveryLine;
    var rows, dirty := AllRows(ShardsAfter(c, newRows)), Cleared(c, marks);
    if AllRight(rows, dirty, after) {
      forall p | p !in marks ensures !Lost(c, p) {
        if Lost(c, p) { LostIsSeen(c, newRows, marks, after, p); }
      }
      forall p | Swallowed(c, marks, p) ensures PassesAt(c, after, p) { var q := SwallowedExactly(c, newRows, marks, after, p); }
    }
    if Passes(c, marks, after) {
      forall q, p | LineSound(q) ensures RightFor(rows, dirty, after, q, p) {
        if Swallowed(c, marks, p) {
          var w := SwallowedExactly(c, newRows, marks, after, p);
        } else {
          RightInOrder(c, newRows, marks, after, q, p);
        }
      }
    }
  }

  lemma RightInOrder(c: Cycle, newRows: seq<Row>, marks: Dirty, after: Disk, q: Query, p: Bytes)
    requires CoherentCycle(c) && NewRowsOf(c, newRows) && MarkedChanges(c.disk, marks, after) && LineSound(q)
    requires !Swallowed(c, marks, p) && (p !in marks ==> !Lost(c, p))
    ensures RightFor(AllRows(ShardsAfter(c, newRows)), Cleared(c, marks), after, q, p)
  {
    hide AllRows, CoherentCycle, NewRowsOf, ShardsAfter, Cleared, MarkedChanges, Lost, Swallowed, LineSound, CoherentAt, Answer, DiskScan;
    InOrder(c, newRows, marks, after, p);
    LineSoundPrunes(q);
    AnswersAt(AllRows(ShardsAfter(c, newRows)), Cleared(c, marks), after, q, p);
  }

  /** Bookkeeping that is right again is never noticed. */
  lemma SurvivesPasses(c: Cycle, newRows: seq<Row>, marks: Dirty, after: Disk)
    requires CoherentCycle(c) && NewRowsOf(c, newRows) && MarkedChanges(c.disk, marks, after) && Survives(c, marks, after)
    ensures Passes(c, marks, after)
  {
    hide AllRows, CoherentCycle, NewRowsOf, ShardsAfter, Cleared, MarkedChanges, Passes, Survives, Coherent, Answer, DiskScan, LineSound;
    CycleUnderChange(c, newRows, marks, after);
    UnnoticedExactly(c, newRows, marks, after);
    var rows, dirty := AllRows(ShardsAfter(c, newRows)), Cleared(c, marks);
    forall q, p | LineSound(q) ensures RightFor(rows, dirty, after, q, p) {
      LineSoundPrunes(q);
      CoherentAnswers(rows, dirty, after, q, p);
    }
  }

  function Touched(): Disk { map[[97] := DiskFile(3, 1, TextBefore())] }

  lemma TouchedRow()
    ensures CountAfter(OneNew(), [97]) > 0 && !Deferred(OneNew(), [97]) && [97] in OneNew().disk
    ensures FreshRow(OneNew(), [97]).inline.None? && FreshRow(OneNew(), [97]).path == [97] && FreshRow(OneNew(), [97]).size == 3
    ensures OneNew().disk[[97]].content == TextBefore() && !Agrees(FreshRow(OneNew(), [97]), Touched())
  {
    hide Home, Tris, CountPath;
    NoHome([97]);
    var t := TextBefore();
    assert t[..3] == t;
  }

  lemma PlainIsTri(c: Bytes, k: nat)
    requires HasPlainTri(c, k)
    ensures k in Tris(c)
  {
  }

  /** A file touched while the cycle ran, its new mark gone with the old one: the row has
      the wrong time, and no search can tell. */
  lemma TouchExample() returns (c: Cycle, newRows: seq<Row>, marks: Dirty, after: Disk)
    ensures CoherentCycle(c) && NewRowsOf(c, newRows) && MarkedChanges(c.disk, marks, after)
    ensures !Survives(c, marks, after) && Passes(c, marks, after)
  {
    hide CoherentCycle, NewRowsOf, NoneLost, Tris, Home, FreshRow, CountAfter, Deferred, HasPlainTri, Agrees;
    c, newRows, marks, after := OneNew(), [RowBefore()], map[[97] := false], Touched();
    OneNewCoherent();
    OneNewRows();
    TouchedRow();
    assert Swallowed(c, marks, [97]) && !StaysRight(c, after, [97]);
    forall k | HasPlainTri(TextBefore(), k) ensures k in Tris(TextBefore()) { PlainIsTri(TextBefore(), k); }
    assert PassesAt(c, after, [97]);
    NoneIsLost();
  }

  lemma NoneIsLost()
    ensures forall p :: !Lost(OneNew(), p)
  {
    hide Lost, OneNew, CoherentCycle;
    OneNewCoherent();
  }
}
