/** Searching the disk engine (internal/shard/engine.go): shards first, in order, then
    the dirty files from disk. The result is specified twice: as the sequence in which
    matches come out, and path by path as what the engine owes for each; the lemmas
    connect the two, for the matches, the counts and results cut off at the limit. */
module EngineSearch {
  import opened Prelude
  import opened Bytes
  import opened Literal
  import opened Lines
  import opened Ranges
  import opened EngineSpec
  import opened Rebuild

  datatype Found = Found(matches: seq<Match>, counts: map<Bytes, nat>, truncated: bool)

  // ---- the sequence of matches ----

  function LivePart(dirty: Dirty, disk: Disk, q: Query, row: Row): seq<Match> {
    if row.path in dirty then [] else RowAnswer(disk, q, row)
  }

  /** What the shards contribute: the rows that are not dirty, in order. */
  function ShardPhase(rows: seq<Row>, dirty: Dirty, disk: Disk, q: Query): seq<Match> {
    if |rows| == 0 then []
    else ShardPhase(rows[..|rows| - 1], dirty, disk, q) + LivePart(dirty, disk, q, rows[|rows| - 1])
  }

  function DirtyPart(dirty: Dirty, disk: Disk, q: Query, p: Bytes): seq<Match> {
    if p in dirty then DirtyAnswer(dirty, disk, q, p) else []
  }

  /** What the dirty paths contribute. */
  function DirtyPhase(paths: seq<Bytes>, dirty: Dirty, disk: Disk, q: Query): seq<Match> {
    if |paths| == 0 then []
    else DirtyPhase(paths[..|paths| - 1], dirty, disk, q) + DirtyPart(dirty, disk, q, paths[|paths| - 1])
  }

  predicate AscendingPaths(paths: seq<Bytes>) {
    forall i, j :: 0 <= i < j < |paths| ==> Less(paths[i], paths[j])
  }

  /** The dirty paths that are not deleted, in order. */
  ghost predicate LiveDirty(paths: seq<Bytes>, dirty: Dirty) {
    AscendingPaths(paths) && forall p :: p in paths <==> p in dirty && !dirty[p]
  }

  lemma {:induction false} ShardPhaseAppend(a: seq<Row>, b: seq<Row>, dirty: Dirty, disk: Disk, q: Query)
    ensures ShardPhase(a + b, dirty, disk, q) == ShardPhase(a, dirty, disk, q) + ShardPhase(b, dirty, disk, q)
  {
    hide LivePart;
    if |b| == 0 {
      assert a + b == a;
    } else {
      var n := |b| - 1;
      assert (a + b)[..|a + b| - 1] == a + b[..n];
      ShardPhaseAppend(a, b[..n], dirty, disk, q);
    }
  }

  // ---- matches carry the path they were found in ----

  lemma {:induction false} ScanPath(p: Bytes, c: Bytes, st: nat, n: nat, find: Finder, maxCols: int)
    ensures forall k :: 0 <= k < |ScanLines(p, c, st, n, find, maxCols)| ==> ScanLines(p, c, st, n, find, maxCols)[k].path == p
    decreases |c| - st
  {
    hide FindIn, LineEnd;
    if st < |c| { ScanPath(p, c, LineEnd(c, st) + 1, n + 1, find, maxCols); }
  }

  lemma FileLinesPath(q: Query, p: Bytes, c: Bytes, r: Bytes)
    ensures OfPath(FileLines(q, p, c), r) == if p == r then FileLines(q, p, c) else []
  {
    hide ScanLines, IsBinary, OfPath;
    ScanPath(p, c, 0, 0, FinderOf(q.m), q.maxCols);
    OfPathUniform(FileLines(q, p, c), r, p);
  }

  lemma NoMatches(p: Bytes)
    ensures OfPath([], p) == []
  {
  }

  lemma LivePartPath(dirty: Dirty, disk: Disk, q: Query, row: Row, p: Bytes)
    ensures OfPath(LivePart(dirty, disk, q, row), p) == if p in dirty then [] else RowPart(disk, q, row, p)
  {
    hide FileLines, OfPath;
    NoMatches(p);
    if row.inline.Some? { FileLinesPath(q, row.path, row.inline.value, p); }
    else if row.path in disk { FileLinesPath(q, row.path, disk[row.path].content, p); }
  }

  /** What the shards contribute for one path. */
  lemma {:induction false} ShardPhaseOf(rows: seq<Row>, dirty: Dirty, disk: Disk, q: Query, p: Bytes)
    ensures OfPath(ShardPhase(rows, dirty, disk, q), p) == if p in dirty then [] else RowsAnswer(rows, disk, q, p)
  {
    hide OfPath, LivePart, RowPart;
    if |rows| == 0 {
      NoMatches(p);
    } else {
      var n := |rows| - 1;
      ShardPhaseOf(rows[..n], dirty, disk, q, p);
      OfPathAppend(ShardPhase(rows[..n], dirty, disk, q), LivePart(dirty, disk, q, rows[n]), p);
      LivePartPath(dirty, disk, q, rows[n], p);
    }
  }

  lemma DirtyPartPath(dirty: Dirty, disk: Disk, q: Query, r: Bytes, p: Bytes)
    ensures OfPath(DirtyPart(dirty, disk, q, r), p) == if p == r then DirtyPart(dirty, disk, q, r) else []
  {
    hide FileLines, OfPath;
    NoMatches(p);
    if r in disk { FileLinesPath(q, r, disk[r].content, p); }
  }

  /** What the dirty files contribute for one path. */
  lemma {:induction false} DirtyPhaseOf(paths: seq<Bytes>, dirty: Dirty, disk: Disk, q: Query, p: Bytes)
    requires AscendingPaths(paths)
    ensures OfPath(DirtyPhase(paths, dirty, disk, q), p) == if p in paths then DirtyPart(dirty, disk, q, p) else []
  {
    hide OfPath, DirtyPart, Less;
    if |paths| == 0 {
      NoMatches(p);
    } else {
      var n := |paths| - 1;
      DirtyPhaseOf(paths[..n], dirty, disk, q, p);
      OfPathAppend(DirtyPhase(paths[..n], dirty, disk, q), DirtyPart(dirty, disk, q, paths[n]), p);
      DirtyPartPath(dirty, disk, q, paths[n], p);
      assert paths == paths[..n] + [paths[n]];
      LessIrreflexive(paths[n]);
    }
  }

  /** The whole result, path by path, is what the engine owes. */
  lemma BothPhases(rows: seq<Row>, paths: seq<Bytes>, dirty: Dirty, disk: Disk, q: Query, p: Bytes)
    requires LiveDirty(paths, dirty)
    ensures OfPath(ShardPhase(rows, dirty, disk, q) + DirtyPhase(paths, dirty, disk, q), p) == Answer(rows, dirty, disk, q, p)
  {
    hide OfPath, ShardPhase, DirtyPhase, RowsAnswer, AscendingPaths, FileLines;
    OfPathAppend(ShardPhase(rows, dirty, disk, q), DirtyPhase(paths, dirty, disk, q), p);
    ShardPhaseOf(rows, dirty, disk, q, p);
    DirtyPhaseOf(paths, dirty, disk, q, p);
  }

  // ---- counts per file ----

  /** The counts cover the rows: a file is listed when it has something to report. */
  ghost predicate Counted(counts: map<Bytes, nat>, rows: seq<Row>, dirty: Dirty, disk: Disk, q: Query) {
    forall p :: CountedAt(counts, rows, dirty, disk, q, p)
  }

  ghost predicate CountedAt(counts: map<Bytes, nat>, rows: seq<Row>, dirty: Dirty, disk: Disk, q: Query, p: Bytes) {
    && (p in counts <==> p !in dirty && RowsAnswer(rows, disk, q, p) != [])
    && (p in counts && CountPath(rows, p) <= 1 ==> counts[p] == |RowsAnswer(rows, disk, q, p)|)
  }

  lemma CountedJoin(c1: map<Bytes, nat>, a: seq<Row>, c2: map<Bytes, nat>, b: seq<Row>, dirty: Dirty, disk: Disk, q: Query)
    requires Counted(c1, a, dirty, disk, q) && Counted(c2, b, dirty, disk, q)
    ensures Counted(c1 + c2, a + b, dirty, disk, q)
  {
    hide RowsAnswer, CountPath;
    forall p ensures CountedAt(c1 + c2, a + b, dirty, disk, q, p) {
      assert CountedAt(c1, a, dirty, disk, q, p) && CountedAt(c2, b, dirty, disk, q, p);
      AnswerAppend(a, b, disk, q, p);
      CountAppend(a, b, p);
      if CountPath(a, p) == 0 { NoRow(a, disk, q, p); }
      if CountPath(b, p) == 0 { NoRow(b, disk, q, p); }
    }
  }

  lemma NothingCounted(dirty: Dirty, disk: Disk, q: Query)
    ensures Counted(map[], [], dirty, disk, q)
  {
  }

  /** The counts of one row. */
  lemma CountedOne(row: Row, ms: seq<Match>, dirty: Dirty, disk: Disk, q: Query)
    requires ms == LivePart(dirty, disk, q, row)
    ensures Counted(if |ms| > 0 then map[row.path := |ms|] else map[], [row], dirty, disk, q)
  {
    hide RowAnswer;
    assert [row][..0] == [];
    forall p ensures RowsAnswer([row], disk, q, p) == RowPart(disk, q, row, p) {
      assert RowsAnswer([row], disk, q, p) == RowsAnswer([row][..0], disk, q, p) + RowPart(disk, q, row, p);
    }
  }

  // ---- searching ----

  /** Content stored in the shard, or else the file on disk. */
  method VerifyFile(disk: Disk, q: Query, p: Bytes, inline: Option<Bytes>) returns (ms: seq<Match>)
    requires q.m.rare.Some? ==> q.m.rare.value in q.m.plain
    ensures ms == Verify(disk, q, p, inline)
  {
    hide ScanLines, IsBinary, FinderOf;
    match inline
    case Some(c) => ms := MatchContent(p, c, q.m, q.filesOnly, q.limit, q.maxCols);
    case None =>
      if p !in disk { return []; }
      ms := MatchContent(p, disk[p].content, q.m, q.filesOnly, q.limit, q.maxCols);
  }

  /** A shard without one of the literal's trigrams can be skipped. */
  predicate HasTris(rows: seq<Row>, literal: Bytes) {
    |literal| < 3 || forall k | k in Tris(literal) :: exists i | 0 <= i < |rows| :: k in rows[i].tris
  }

  lemma {:induction false} SkippedShard(rows: seq<Row>, dirty: Dirty, disk: Disk, q: Query)
    requires forall i :: 0 <= i < |rows| ==> !Candidate(q, rows[i])
    ensures ShardPhase(rows, dirty, disk, q) == [] && forall p :: RowsAnswer(rows, disk, q, p) == []
  {
    hide Candidate, Verify, Wanted;
    if |rows| > 0 { SkippedShard(rows[..|rows| - 1], dirty, disk, q); }
  }

  lemma NoCandidates(rows: seq<Row>, q: Query)
    requires !HasTris(rows, q.literal)
    ensures forall i :: 0 <= i < |rows| ==> !Candidate(q, rows[i])
  {
    hide Tris;
  }

  /** The rows of one shard that may match and are not dirty. */
  method SearchShard(rows: seq<Row>, dirty: Dirty, disk: Disk, q: Query) returns (ms: seq<Match>, counts: map<Bytes, nat>)
    requires q.m.rare.Some? ==> q.m.rare.value in q.m.plain
    ensures ms == if q.filesOnly then [] else ShardPhase(rows, dirty, disk, q)
    ensures Counted(counts, rows, dirty, disk, q)
  {
    hide Tris, Verify, Counted;
    ms, counts := [], map[];
    NothingCounted(dirty, disk, q);
    if !HasTris(rows, q.literal) {
      NoCandidates(rows, q);
      SkippedShard(rows, dirty, disk, q);
      NothingFound(rows, dirty, disk, q);
      return;
    }
    for i := 0 to |rows|
      invariant ms == if q.filesOnly then [] else ShardPhase(rows[..i], dirty, disk, q)
      invariant Counted(counts, rows[..i], dirty, disk, q)
    {
      var found := [];
      if Candidate(q, rows[i]) && rows[i].path !in dirty && Wanted(q, rows[i].path, rows[i].size) {
        found := VerifyFile(disk, q, rows[i].path, rows[i].inline);
      }
      NextRow(rows, i, counts, found, dirty, disk, q);
      if |found| > 0 {
        counts := counts + map[rows[i].path := |found|];
        if !q.filesOnly { ms := ms + found; }
      }
    }
    assert rows[..|rows|] == rows;
  }

  lemma NothingFound(rows: seq<Row>, dirty: Dirty, disk: Disk, q: Query)
    requires forall p :: RowsAnswer(rows, disk, q, p) == []
    ensures Counted(map[], rows, dirty, disk, q)
  {
  }

  lemma NextRow(rows: seq<Row>, i: nat, counts: map<Bytes, nat>, found: seq<Match>, dirty: Dirty, disk: Disk, q: Query)
    requires i < |rows| && found == LivePart(dirty, disk, q, rows[i]) && Counted(counts, rows[..i], dirty, disk, q)
    ensures ShardPhase(rows[..i + 1], dirty, disk, q) == ShardPhase(rows[..i], dirty, disk, q) + found
    ensures Counted(if |found| > 0 then counts + map[rows[i].path := |found|] else counts, rows[..i + 1], dirty, disk, q)
  {
    hide LivePart, Counted;
    assert rows[..i + 1][..i] == rows[..i] && rows[..i + 1] == rows[..i] + [rows[i]];
    CountedOne(rows[i], found, dirty, disk, q);
    var more := if |found| > 0 then map[rows[i].path := |found|] else map[];
    CountedJoin(counts, rows[..i], more, [rows[i]], dirty, disk, q);
    assert counts + map[] == counts;
  }

  // ---- the dirty files, in order ----

  lemma InsertPath(r: seq<Bytes>, i: nat, p: Bytes)
    requires AscendingPaths(r) && i <= |r| && p !in r
    requires (forall j :: 0 <= j < i ==> Less(r[j], p)) && (i < |r| ==> !Less(r[i], p))
    ensures AscendingPaths(r[..i] + [p] + r[i..])
  {
    hide Less;
    var s := r[..i] + [p] + r[i..];
    forall a, b | 0 <= a < b < |s| ensures Less(s[a], s[b]) {
      InsertedPath(r, i, p, a);
      InsertedPath(r, i, p, b);
      if a == i { PathAfter(r, i, p, b - 1); }
    }
  }

  lemma InsertedPath(r: seq<Bytes>, i: nat, p: Bytes, a: nat)
    requires i <= |r| && a <= |r|
    ensures (r[..i] + [p] + r[i..])[a] == if a < i then r[a] else if a == i then p else r[a - 1]
  {
  }

  lemma PathAfter(r: seq<Bytes>, i: nat, p: Bytes, k: nat)
    requires AscendingPaths(r) && i <= k < |r| && p !in r && !Less(r[i], p)
    ensures Less(p, r[k])
  {
    hide Less;
    LessTotal(p, r[i]);
    if i < k { LessTransitive(p, r[i], r[k]); }
  }

  lemma InsertedIn(r: seq<Bytes>, i: nat, p: Bytes)
    requires i <= |r|
    ensures forall x :: x in r[..i] + [p] + r[i..] <==> x == p || x in r
  {
    assert r == r[..i] + r[i..];
  }

  /** The dirty paths that are not deleted, sorted. */
  method SortedLive(dirty: Dirty) returns (paths: seq<Bytes>)
    ensures LiveDirty(paths, dirty)
  {
    paths := [];
    var todo := dirty.Keys;
    ghost var seen: set<Bytes> := {};
    while todo != {}
      invariant seen + todo == dirty.Keys && seen !! todo
      invariant AscendingPaths(paths) && forall p :: p in paths <==> p in seen && !dirty[p]
      decreases |todo|
    {
      hide Less, AscendingPaths;
      var p :| p in todo;
      todo, seen := todo - {p}, seen + {p};
      if !dirty[p] {
        var i := 0;
        while i < |paths| && Less(paths[i], p)
          invariant 0 <= i <= |paths| && forall j :: 0 <= j < i ==> Less(paths[j], p)
        {
          i := i + 1;
        }
        InsertPath(paths, i, p);
        InsertedIn(paths, i, p);
        paths := paths[..i] + [p] + paths[i..];
      }
    }
  }

  // ---- the whole search ----

  /** Per path, the matches are those owed or, when cut off, the first of them, the limit
      being reached and no more than one file beyond it; and if nothing was cut off every
      file with something to report is counted. */
  ghost predicate Answers(res: Found, rows: seq<Row>, dirty: Dirty, disk: Disk, q: Query) {
    && (q.filesOnly ==> res.matches == [] && !res.truncated)
    && (!q.filesOnly ==> forall p :: OfPath(res.matches, p) <= Answer(rows, dirty, disk, q, p))
    && (!q.filesOnly && !res.truncated ==> forall p :: OfPath(res.matches, p) == Answer(rows, dirty, disk, q, p))
    && (res.truncated ==> 0 < q.limit <= |res.matches| < 2 * q.limit)
    && (!res.truncated ==> forall p :: CountRight(res.counts, rows, dirty, disk, q, p))
  }

  ghost predicate CountRight(counts: map<Bytes, nat>, rows: seq<Row>, dirty: Dirty, disk: Disk, q: Query, p: Bytes) {
    && (p in counts <==> Answer(rows, dirty, disk, q, p) != [])
    && (p in counts && CountPath(rows, p) <= 1 ==> counts[p] == |Answer(rows, dirty, disk, q, p)|)
  }

  /** The result, told from the files on disk alone. */
  ghost predicate Tells(res: Found, disk: Disk, q: Query) {
    && (res.truncated ==> 0 < q.limit <= |res.matches| < 2 * q.limit && !q.filesOnly)
    && forall p :: TellsAt(res, disk, q, p)
  }

  ghost predicate TellsAt(res: Found, disk: Disk, q: Query, p: Bytes) {
    exists ms :: Owes(disk, q, p, ms) && if res.truncated then OfPath(res.matches, p) <= ms
      else OfPath(res.matches, p) == (if q.filesOnly then [] else ms) && (p in res.counts <==> ms != []) && (p in res.counts ==> res.counts[p] == |ms|)
  }

  /** Rows and marks that are coherent with the disk answer as the files alone would. */
  lemma CoherentTells(res: Found, rows: seq<Row>, dirty: Dirty, disk: Disk, q: Query)
    requires Answers(res, rows, dirty, disk, q) && Coherent(rows, dirty, disk) && PruningOk(q)
    ensures Tells(res, disk, q)
  {
    hide Answer, DiskScan, Owes, Coherent, PruningOk, OfPath, CountPath;
    forall p ensures TellsAt(res, disk, q, p) {
      CoherentAnswers(rows, dirty, disk, q, p);
      DiskScanOwes(disk, q, p);
      OncePerPath(rows, dirty, disk, p);
      NoMatches(p);
      if !res.truncated { assert CountRight(res.counts, rows, dirty, disk, q, p); }
    }
  }

  lemma OncePerPath(rows: seq<Row>, dirty: Dirty, disk: Disk, p: Bytes)
    requires Coherent(rows, dirty, disk)
    ensures CountPath(rows, p) <= 1
  {
    hide CountPath, Agrees, Visible;
  }

  /** A cut-off result is right as far as it goes. */
  lemma CutOff(res: Found, rows: seq<Row>, paths: seq<Bytes>, dirty: Dirty, disk: Disk, q: Query)
    requires LiveDirty(paths, dirty) && !q.filesOnly && res.truncated && 0 < q.limit <= |res.matches| < 2 * q.limit
    requires res.matches <= ShardPhase(rows, dirty, disk, q) + DirtyPhase(paths, dirty, disk, q)
    ensures Answers(res, rows, dirty, disk, q)
  {
    hide OfPath, Answer, ShardPhase, DirtyPhase, LiveDirty;
    forall p ensures OfPath(res.matches, p) <= Answer(rows, dirty, disk, q, p) {
      BothPhases(rows, paths, dirty, disk, q, p);
      OfPathPrefix(res.matches, ShardPhase(rows, dirty, disk, q) + DirtyPhase(paths, dirty, disk, q), p);
    }
  }

  /** The counts once the first `n` dirty files are in. */
  ghost predicate CountedToo(counts: map<Bytes, nat>, rows: seq<Row>, paths: seq<Bytes>, n: nat, dirty: Dirty, disk: Disk, q: Query)
    requires n <= |paths|
  {
    forall p :: if p in dirty then DirtyCounted(counts, paths[..n], dirty, disk, q, p) else CountedAt(counts, rows, dirty, disk, q, p)
  }

  ghost predicate DirtyCounted(counts: map<Bytes, nat>, seen: seq<Bytes>, dirty: Dirty, disk: Disk, q: Query, p: Bytes) {
    && p in dirty
    && (p in counts <==> p in seen && DirtyPart(dirty, disk, q, p) != [])
    && (p in counts ==> counts[p] == |DirtyPart(dirty, disk, q, p)|)
  }

  lemma CountNext(counts: map<Bytes, nat>, rows: seq<Row>, paths: seq<Bytes>, n: nat, found: seq<Match>, dirty: Dirty, disk: Disk, q: Query)
    requires n < |paths| && paths[n] in dirty && found == DirtyPart(dirty, disk, q, paths[n])
    requires CountedToo(counts, rows, paths, n, dirty, disk, q) && paths[n] !in paths[..n]
    ensures CountedToo(if |found| > 0 then counts[paths[n] := |found|] else counts, rows, paths, n + 1, dirty, disk, q)
  {
    hide DirtyPart, RowsAnswer, CountPath;
    assert paths[..n + 1] == paths[..n] + [paths[n]];
    var next := if |found| > 0 then counts[paths[n] := |found|] else counts;
    forall p | p !in dirty ensures CountedAt(next, rows, dirty, disk, q, p) { assert CountedAt(counts, rows, dirty, disk, q, p); }
    forall p | p in dirty ensures DirtyCounted(next, paths[..n + 1], dirty, disk, q, p) {
      assert DirtyCounted(counts, paths[..n], dirty, disk, q, p);
    }
  }

  lemma CountStart(counts: map<Bytes, nat>, rows: seq<Row>, paths: seq<Bytes>, dirty: Dirty, disk: Disk, q: Query)
    requires Counted(counts, rows, dirty, disk, q)
    ensures CountedToo(counts, rows, paths, 0, dirty, disk, q)
  {
    hide DirtyPart, RowsAnswer, CountPath;
    forall p | p in dirty ensures DirtyCounted(counts, paths[..0], dirty, disk, q, p) {
      assert CountedAt(counts, rows, dirty, disk, q, p);
    }
  }

  /** A complete result is right. */
  lemma Complete(res: Found, rows: seq<Row>, paths: seq<Bytes>, dirty: Dirty, disk: Disk, q: Query)
    requires LiveDirty(paths, dirty) && !res.truncated
    requires res.matches == if q.filesOnly then [] else ShardPhase(rows, dirty, disk, q) + DirtyPhase(paths, dirty, disk, q)
    requires CountedToo(res.counts, rows, paths, |paths|, dirty, disk, q)
    ensures Answers(res, rows, dirty, disk, q)
  {
    hide OfPath, ShardPhase, DirtyPhase, RowsAnswer, CountPath, AscendingPaths, FileLines;
    assert paths[..|paths|] == paths;
    forall p ensures CountRight(res.counts, rows, dirty, disk, q, p) {
      if p !in dirty { assert CountedAt(res.counts, rows, dirty, disk, q, p); }
      else { assert DirtyCounted(res.counts, paths[..|paths|], dirty, disk, q, p); }
    }
    forall p | !q.filesOnly ensures OfPath(res.matches, p) == Answer(rows, dirty, disk, q, p) {
      BothPhases(rows, paths, dirty, disk, q, p);
    }
  }

  /** The same, when the shards alone reached the limit. */
  lemma CutOffEarly(res: Found, rows: seq<Row>, dirty: Dirty, disk: Disk, q: Query)
    requires !q.filesOnly && res.truncated && 0 < q.limit <= |res.matches| < 2 * q.limit
    requires res.matches <= ShardPhase(rows, dirty, disk, q)
    ensures Answers(res, rows, dirty, disk, q)
  {
    hide OfPath, ShardPhase, RowsAnswer, DirtyAnswer;
    forall p ensures OfPath(res.matches, p) <= Answer(rows, dirty, disk, q, p) {
      ShardPhaseOf(rows, dirty, disk, q, p);
      OfPathPrefix(res.matches, ShardPhase(rows, dirty, disk, q), p);
    }
  }

  lemma StartSearch(shards: seq<Shard>, dirty: Dirty, disk: Disk, q: Query)
    ensures AllRows(shards[..0]) == [] && ShardPhase([], dirty, disk, q) == []
    ensures Counted(map[], [], dirty, disk, q)
  {
  }

  lemma NextShard(shards: seq<Shard>, i: nat, counts: map<Bytes, nat>, cs: map<Bytes, nat>, dirty: Dirty, disk: Disk, q: Query)
    requires i < |shards| && Counted(counts, AllRows(shards[..i]), dirty, disk, q) && Counted(cs, shards[i].rows, dirty, disk, q)
    ensures Counted(counts + cs, AllRows(shards[..i + 1]), dirty, disk, q)
    ensures ShardPhase(AllRows(shards[..i + 1]), dirty, disk, q) ==
      ShardPhase(AllRows(shards[..i]), dirty, disk, q) + ShardPhase(shards[i].rows, dirty, disk, q)
  {
    hide AllRows, Counted, ShardPhase;
    assert shards[..i + 1] == shards[..i] + [shards[i]];
    AllRowsSnoc(shards[..i], shards[i]);
    CountedJoin(counts, AllRows(shards[..i]), cs, shards[i].rows, dirty, disk, q);
    ShardPhaseAppend(AllRows(shards[..i]), shards[i].rows, dirty, disk, q);
  }

  lemma EarlierShards(shards: seq<Shard>, n: nat, dirty: Dirty, disk: Disk, q: Query)
    requires n <= |shards|
    ensures ShardPhase(AllRows(shards[..n]), dirty, disk, q) <= ShardPhase(AllRows(shards), dirty, disk, q)
  {
    hide AllRows, ShardPhase;
    assert shards == shards[..n] + shards[n..];
    AllRowsAppend(shards[..n], shards[n..]);
    ShardPhaseAppend(AllRows(shards[..n]), AllRows(shards[n..]), dirty, disk, q);
  }

  lemma LivePath(paths: seq<Bytes>, n: nat, dirty: Dirty)
    requires LiveDirty(paths, dirty) && n < |paths|
    ensures paths[n] in dirty && !dirty[paths[n]] && paths[n] !in paths[..n]
  {
    hide Less;
    assert paths[n] in paths;
    forall k | 0 <= k < n ensures paths[k] != paths[n] { LessIrreflexive(paths[n]); }
  }

  lemma NextDirty(paths: seq<Bytes>, n: nat, dirty: Dirty, disk: Disk, q: Query)
    requires n < |paths|
    ensures DirtyPhase(paths[..n + 1], dirty, disk, q) == DirtyPhase(paths[..n], dirty, disk, q) + DirtyPart(dirty, disk, q, paths[n])
  {
    hide DirtyPart;
    assert paths[..n + 1][..n] == paths[..n];
  }

  lemma UpTo(paths: seq<Bytes>, n: nat, dirty: Dirty, disk: Disk, q: Query)
    requires n <= |paths|
    ensures DirtyPhase(paths[..n], dirty, disk, q) <= DirtyPhase(paths, dirty, disk, q)
    ensures n == 0 ==> DirtyPhase(paths[..n], dirty, disk, q) == []
    decreases |paths| - n
  {
    hide DirtyPart;
    if n < |paths| {
      NextDirty(paths, n, dirty, disk, q);
      UpTo(paths, n + 1, dirty, disk, q);
    } else {
      assert paths[..n] == paths;
    }
  }

  /** One dirty file, read from disk. */
  method ScanDirty(rel: Bytes, dirty: Dirty, disk: Disk, q: Query) returns (found: seq<Match>)
    requires (q.m.rare.Some? ==> q.m.rare.value in q.m.plain) && rel in dirty && !dirty[rel]
    ensures found == DirtyPart(dirty, disk, q, rel)
  {
    hide ScanLines, IsBinary, FinderOf, Wanted;
    found := [];
    if rel in disk && Wanted(q, rel, disk[rel].size) {
      found := MatchContent(rel, disk[rel].content, q.m, q.filesOnly, q.limit, q.maxCols);
    }
  }

  lemma OneFileAtMost(q: Query, dirty: Dirty, disk: Disk, p: Bytes)
    requires q.limit > 0 && !q.filesOnly
    ensures |DirtyPart(dirty, disk, q, p)| <= q.limit
  {
    hide ScanLines, IsBinary;
  }

  /** The shards, in order, up to the limit. */
  method SearchShards(shards: seq<Shard>, dirty: Dirty, disk: Disk, q: Query) returns (matches: seq<Match>, counts: map<Bytes, nat>, full: bool)
    requires q.m.rare.Some? ==> q.m.rare.value in q.m.plain
    ensures full ==> !q.filesOnly && |matches| == q.limit > 0 && matches <= ShardPhase(AllRows(shards), dirty, disk, q)
    ensures !full ==> matches == if q.filesOnly then [] else ShardPhase(AllRows(shards), dirty, disk, q)
    ensures !full ==> Counted(counts, AllRows(shards), dirty, disk, q) && (q.limit > 0 ==> |matches| < q.limit)
  {
    hide *;
    matches, counts, full := [], map[], false;
    StartSearch(shards, dirty, disk, q);
    for i := 0 to |shards|
      invariant matches == if q.filesOnly then [] else ShardPhase(AllRows(shards[..i]), dirty, disk, q)
      invariant Counted(counts, AllRows(shards[..i]), dirty, disk, q)
      invariant !full && (q.limit > 0 ==> |matches| < q.limit)
    {
      var ms, cs := SearchShard(shards[i].rows, dirty, disk, q);
      NextShard(shards, i, counts, cs, dirty, disk, q);
      counts := counts + cs;
      matches := matches + ms;
      if q.limit > 0 && |matches| >= q.limit {
        EarlierShards(shards, i + 1, dirty, disk, q);
        matches, full := matches[..q.limit], true;
        return;
      }
    }
    assert shards[..|shards|] == shards;
  }

  /** The dirty files, in order, after the shards; it stops after the file that reaches
      the limit. */
  method SearchDirty(dirty: Dirty, disk: Disk, q: Query, ghost rows: seq<Row>, before: seq<Match>, counted: map<Bytes, nat>) returns (res: Found)
    requires q.m.rare.Some? ==> q.m.rare.value in q.m.plain
    requires before == if q.filesOnly then [] else ShardPhase(rows, dirty, disk, q)
    requires Counted(counted, rows, dirty, disk, q) && (q.limit > 0 ==> |before| < q.limit)
    ensures Answers(res, rows, dirty, disk, q)
  {
    hide *;
    var matches: seq<Match>, counts: map<Bytes, nat> := before, counted;
    var paths := SortedLive(dirty);
    CountStart(counts, rows, paths, dirty, disk, q);
    UpTo(paths, 0, dirty, disk, q);
    for n := 0 to |paths|
      invariant matches == if q.filesOnly then [] else ShardPhase(rows, dirty, disk, q) + DirtyPhase(paths[..n], dirty, disk, q)
      invariant CountedToo(counts, rows, paths, n, dirty, disk, q)
      invariant q.limit > 0 ==> |matches| < q.limit
    {
      var rel := paths[n];
      LivePath(paths, n, dirty);
      NextDirty(paths, n, dirty, disk, q);
      var found := ScanDirty(rel, dirty, disk, q);
      CountNext(counts, rows, paths, n, found, dirty, disk, q);
      if q.limit > 0 && !q.filesOnly { OneFileAtMost(q, dirty, disk, rel); }
      if |found| > 0 {
        counts := counts[rel := |found|];
        if !q.filesOnly { matches := matches + found; }
      }
      if q.limit > 0 && |matches| >= q.limit {
        res := Found(matches, counts, true);
        UpTo(paths, n + 1, dirty, disk, q);
        CutOff(res, rows, paths, dirty, disk, q);
        return;
      }
    }
    assert paths[..|paths|] == paths;
    res := Found(matches, counts, false);
    Complete(res, rows, paths, dirty, disk, q);
  }

  /** Searches a snapshot of the shards under a copy of the dirty list. */
  method SearchSnapshot(shards: seq<Shard>, dirty: Dirty, disk: Disk, q: Query) returns (res: Found)
    requires q.m.rare.Some? ==> q.m.rare.value in q.m.plain
    ensures Answers(res, AllRows(shards), dirty, disk, q)
  {
    hide *;
    var matches, counts, full := SearchShards(shards, dirty, disk, q);
    if full {
      res := Found(matches, counts, true);
      CutOffEarly(res, AllRows(shards), dirty, disk, q);
    } else {
      res := SearchDirty(dirty, disk, q, AllRows(shards), matches, counts);
    }
  }
}
