/** The disk engine on values (internal/shard/engine.go): what shards, the dirty list
    and the disk together answer, and when that is what a scan of the disk answers. */
module EngineSpec {
  import opened Prelude
  import opened Bytes
  import opened Literal
  import opened Lines
  import opened Ranges

  datatype DiskFile = DiskFile(size: nat, mtime: int, content: Bytes)

  /** The indexable files on disk. */
  type Disk = map<Bytes, DiskFile>

  /** One file as its shard has it: metadata, trigrams, and content if inlined. */
  datatype Row = Row(path: Bytes, size: nat, mtime: int, tris: set<nat>, inline: Option<Bytes>)

  /** A shard file, named by its sequence number. */
  datatype Shard = Shard(seqNo: nat, rows: seq<Row>)

  /** Dirty paths, and whether each was deleted. */
  type Dirty = map<Bytes, bool>

  datatype Query = Query(literal: Bytes, m: Matcher, pathMatch: Bytes -> bool, maxSize: int, filesOnly: bool, limit: int, maxCols: int)

  // ---- what is owed: a scan of the disk ----

  function Kept(q: Query): int { if q.filesOnly then 1 else q.limit }

  /** The lines reported from one file's content. */
  function FileLines(q: Query, p: Bytes, c: Bytes): seq<Match> {
    if IsBinary(c) then [] else Limited(ScanLines(p, c, 0, 0, FinderOf(q.m), q.maxCols), Kept(q))
  }

  predicate Wanted(q: Query, p: Bytes, size: nat) {
    (q.maxSize <= 0 || size <= q.maxSize) && q.pathMatch(p)
  }

  /** The lines a scan of the disk reports for `p`. */
  function DiskScan(disk: Disk, q: Query, p: Bytes): seq<Match> {
    if p in disk && Wanted(q, p, disk[p].size) then FileLines(q, p, disk[p].content) else []
  }

  /** Pruning by trigrams never rules out a file with a line to report. */
  ghost predicate PruningOk(q: Query) {
    && (q.m.rare.Some? ==> q.m.rare.value in q.m.plain)
    && (|q.literal| >= 3 ==> forall p, c :: FileLines(q, p, c) != [] ==> Tris(q.literal) <= Tris(c))
  }

  // ---- what the engine answers ----

  /** verifyFile: inlined content, or else the file on disk, if it can be opened. */
  function Verify(disk: Disk, q: Query, p: Bytes, inline: Option<Bytes>): seq<Match> {
    match inline
    case Some(c) => FileLines(q, p, c)
    case None => if p in disk then FileLines(q, p, disk[p].content) else []
  }

  predicate Candidate(q: Query, row: Row) {
    |q.literal| < 3 || Tris(q.literal) <= row.tris
  }

  function RowAnswer(disk: Disk, q: Query, row: Row): seq<Match> {
    if Candidate(q, row) && Wanted(q, row.path, row.size) then Verify(disk, q, row.path, row.inline) else []
  }

  /** What one row contributes to the answer for `p`. */
  function RowPart(disk: Disk, q: Query, row: Row, p: Bytes): seq<Match> {
    if row.path == p then RowAnswer(disk, q, row) else []
  }

  /** What the rows for `p` contribute, in shard order. */
  function RowsAnswer(rows: seq<Row>, disk: Disk, q: Query, p: Bytes): seq<Match> {
    if |rows| == 0 then []
    else RowsAnswer(rows[..|rows| - 1], disk, q, p) + RowPart(disk, q, rows[|rows| - 1], p)
  }

  /** What scanning a dirty path from disk contributes. */
  function DirtyAnswer(dirty: Dirty, disk: Disk, q: Query, p: Bytes): seq<Match>
    requires p in dirty
  {
    if !dirty[p] && p in disk && Wanted(q, p, disk[p].size) then FileLines(q, p, disk[p].content) else []
  }

  /** The engine's answer for `p`: dirty paths from disk, all others from the shards. */
  function Answer(rows: seq<Row>, dirty: Dirty, disk: Disk, q: Query, p: Bytes): seq<Match> {
    if p in dirty then DirtyAnswer(dirty, disk, q, p) else RowsAnswer(rows, disk, q, p)
  }

  // ---- rows ----

  function AllRows(shards: seq<Shard>): seq<Row> {
    if |shards| == 0 then [] else AllRows(shards[..|shards| - 1]) + shards[|shards| - 1].rows
  }

  function OneIf(b: bool): nat { if b then 1 else 0 }

  /** How many rows have path `p`. */
  function CountPath(rows: seq<Row>, p: Bytes): nat {
    if |rows| == 0 then 0
    else CountPath(rows[..|rows| - 1], p) + OneIf(rows[|rows| - 1].path == p)
  }

  /** No path is stored twice. */
  ghost predicate Unique(rows: seq<Row>) {
    forall p :: CountPath(rows, p) <= 1
  }

  lemma {:induction false} CountAppend(a: seq<Row>, b: seq<Row>, p: Bytes)
    ensures CountPath(a + b, p) == CountPath(a, p) + CountPath(b, p)
  {
    if |b| == 0 {
      assert a + b == a;
    } else {
      var n := |b| - 1;
      assert (a + b)[..|a + b| - 1] == a + b[..n];
      CountAppend(a, b[..n], p);
    }
  }

  lemma {:induction false} AnswerAppend(a: seq<Row>, b: seq<Row>, disk: Disk, q: Query, p: Bytes)
    ensures RowsAnswer(a + b, disk, q, p) == RowsAnswer(a, disk, q, p) + RowsAnswer(b, disk, q, p)
  {
    hide RowPart;
    if |b| == 0 {
      assert a + b == a;
    } else {
      var n := |b| - 1;
      assert (a + b)[..|a + b| - 1] == a + b[..n];
      AnswerAppend(a, b[..n], disk, q, p);
    }
  }

  lemma {:induction false} NoRow(rows: seq<Row>, disk: Disk, q: Query, p: Bytes)
    requires CountPath(rows, p) == 0
    ensures RowsAnswer(rows, disk, q, p) == []
    ensures forall r :: r in rows ==> r.path != p
  {
    hide RowAnswer;
    if |rows| > 0 {
      NoRow(rows[..|rows| - 1], disk, q, p);
      assert rows == rows[..|rows| - 1] + [rows[|rows| - 1]];
    }
  }

  lemma {:induction false} SomeRow(rows: seq<Row>, p: Bytes) returns (r: Row)
    requires CountPath(rows, p) > 0
    ensures r in rows && r.path == p
  {
    var n := |rows| - 1;
    if rows[n].path == p { r := rows[n]; } else { r := SomeRow(rows[..n], p); }
  }

  lemma {:induction false} RowCounted(rows: seq<Row>, r: Row)
    requires r in rows
    ensures CountPath(rows, r.path) > 0
  {
    var n := |rows| - 1;
    if rows[n] != r {
      assert rows == rows[..n] + [rows[n]];
      RowCounted(rows[..n], r);
    }
  }

  /** The only row for a path gives its answer. */
  lemma {:induction false} OneRow(rows: seq<Row>, disk: Disk, q: Query, r: Row)
    requires r in rows && CountPath(rows, r.path) <= 1
    ensures RowsAnswer(rows, disk, q, r.path) == RowAnswer(disk, q, r)
  {
    hide RowAnswer, CountPath;
    var n := |rows| - 1;
    LastRow(rows, r);
    if rows[n].path == r.path {
      NoRow(rows[..n], disk, q, r.path);
    } else {
      OneRow(rows[..n], disk, q, r);
    }
  }

  /** The only row for a path is the last one, or among those before it. */
  lemma LastRow(rows: seq<Row>, r: Row)
    requires r in rows && CountPath(rows, r.path) <= 1
    ensures var n := |rows| - 1;
      if rows[n].path == r.path then r == rows[n] && CountPath(rows[..n], r.path) == 0
      else r in rows[..n] && CountPath(rows[..n], r.path) <= 1
  {
    var n := |rows| - 1;
    assert rows == rows[..n] + [rows[n]];
    if r in rows[..n] { RowCounted(rows[..n], r); }
  }

  // ---- coherence ----

  /** The row is what building it from the file on disk now would give, up to inlining. */
  predicate Agrees(row: Row, disk: Disk) {
    && row.path in disk
    && row.size == disk[row.path].size && row.mtime == disk[row.path].mtime
    && row.tris == Tris(disk[row.path].content)
    && (row.inline.Some? ==> row.inline.value == disk[row.path].content)
  }

  /** Only text files with something in them can ever be reported. */
  predicate Visible(f: DiskFile) {
    !IsBinary(f.content) && f.content != []
  }

  /** Stale rows and missing files are all on the dirty list, and nothing is stored twice. */
  ghost predicate Coherent(rows: seq<Row>, dirty: Dirty, disk: Disk) {
    && (forall r :: r in rows ==> r.path in dirty || Agrees(r, disk))
    && (forall p :: p in disk && Visible(disk[p]) ==> p in dirty || CountPath(rows, p) > 0)
    && (forall p :: p in dirty && dirty[p] ==> p !in disk)
    && Unique(rows)
  }

  lemma InvisibleIsSilent(q: Query, p: Bytes, f: DiskFile)
    requires !Visible(f)
    ensures FileLines(q, p, f.content) == []
  {
  }

  /** A row that agrees with the disk answers as the disk does. */
  lemma AgreeingRow(disk: Disk, q: Query, r: Row)
    requires Agrees(r, disk) && PruningOk(q)
    ensures RowAnswer(disk, q, r) == DiskScan(disk, q, r.path)
  {
    hide FileLines, Tris;
    var lines := FileLines(q, r.path, disk[r.path].content);
    assert |q.literal| >= 3 && lines != [] ==> Tris(q.literal) <= Tris(disk[r.path].content);
  }

  /** What coherence says of one path. */
  ghost predicate CoherentAt(rows: seq<Row>, dirty: Dirty, disk: Disk, p: Bytes) {
    && (forall r :: r in rows && r.path == p ==> p in dirty || Agrees(r, disk))
    && (p in disk && Visible(disk[p]) ==> p in dirty || CountPath(rows, p) > 0)
    && (p in dirty && dirty[p] ==> p !in disk)
    && CountPath(rows, p) <= 1
  }

  lemma AnswersAt(rows: seq<Row>, dirty: Dirty, disk: Disk, q: Query, p: Bytes)
    requires CoherentAt(rows, dirty, disk, p) && PruningOk(q)
    ensures Answer(rows, dirty, disk, q, p) == DiskScan(disk, q, p)
  {
    hide FileLines, RowAnswer, Agrees, PruningOk, CountPath, RowsAnswer, Wanted, IsBinary;
    if p !in dirty {
      if CountPath(rows, p) == 0 {
        NoRow(rows, disk, q, p);
        if p in disk { InvisibleIsSilent(q, p, disk[p]); }
      } else {
        var r := SomeRow(rows, p);
        OneRow(rows, disk, q, r);
        AgreeingRow(disk, q, r);
      }
    }
  }

  /** A coherent engine answers every query as a scan of the disk does. */
  lemma CoherentAnswers(rows: seq<Row>, dirty: Dirty, disk: Disk, q: Query, p: Bytes)
    requires Coherent(rows, dirty, disk) && PruningOk(q)
    ensures Answer(rows, dirty, disk, q, p) == DiskScan(disk, q, p)
  {
    hide Answer, DiskScan, Agrees, PruningOk, CountPath, Visible;
    assert CoherentAt(rows, dirty, disk, p);
    AnswersAt(rows, dirty, disk, q, p);
  }

  /** What is owed for one path, told from the file alone: nothing unless it is there, wanted
      and no NUL marks it as binary; else its lines with a match, as far as the limit for
      one file lets it. */
  ghost predicate Owes(disk: Disk, q: Query, p: Bytes, ms: seq<Match>) {
    if p in disk && (q.maxSize <= 0 || disk[p].size <= q.maxSize) && q.pathMatch(p)
       && 0 !in disk[p].content[..if |disk[p].content| > 8192 then 8192 else |disk[p].content|]
    then LineReports(p, disk[p].content, q.m, q.maxCols, if q.filesOnly then 1 else q.limit, ms)
    else ms == []
  }

  lemma DiskScanOwes(disk: Disk, q: Query, p: Bytes)
    ensures Owes(disk, q, p, DiskScan(disk, q, p))
  {
    hide LineReports, ScanLines, Limited;
    if p in disk {
      BinaryIs(disk[p].content);
      LimitedReports(p, disk[p].content, q.m, q.maxCols, Kept(q));
    }
  }

  // ---- why pruning is sound ----

  lemma LiteralPrunes(q: Query)
    requires q.m.plain != [] && (q.m.rare.Some? ==> q.m.rare.value in q.m.plain)
    requires q.literal == [] || q.literal == LowerAll(q.m.plain)
    ensures PruningOk(q)
  {
    if |q.literal| >= 3 {
      forall p, c | FileLines(q, p, c) != [] ensures Tris(q.literal) <= Tris(c) {
        hide Tris, OccursAt;
        ScanHasMatch(p, c, 0, 0, q.m.plain, q.m.fold, q.maxCols);
        var o :| OccursAt(c, q.m.plain, o, q.m.fold);
        OccurrenceHasTris(c, q.m.plain, o, q.m.fold);
      }
    }
  }

  // ---- changes on disk ----

  /** Between two disks `p` changed and was marked, or nothing about it changed. */
  ghost predicate MarkedOrSame(dirty: Dirty, disk: Disk, dirty': Dirty, disk': Disk, p: Bytes) {
    || (p in dirty' && (dirty'[p] ==> p !in disk'))
    || ((p in disk' <==> p in disk) && (p in disk ==> disk'[p] == disk[p])
        && (p in dirty' <==> p in dirty) && (p in dirty ==> dirty'[p] == dirty[p]))
  }

  /** Changes on disk keep the engine coherent when every changed path is marked after
      the change: the next search sees them all. */
  lemma MarkingKeepsCoherent(rows: seq<Row>, dirty: Dirty, disk: Disk, dirty': Dirty, disk': Disk)
    requires Coherent(rows, dirty, disk)
    requires forall p :: MarkedOrSame(dirty, disk, dirty', disk', p)
    ensures Coherent(rows, dirty', disk')
  {
    hide CountPath, IsBinary, Tris, MarkedOrSame;
    forall r | r in rows ensures r.path in dirty' || Agrees(r, disk') {
      assert r.path in dirty || Agrees(r, disk);
      MarkedRow(dirty, disk, dirty', disk', r);
    }
    forall p | p in disk' && Visible(disk'[p]) ensures p in dirty' || CountPath(rows, p) > 0 {
      MarkedFile(dirty, disk, dirty', disk', p);
    }
    forall p | p in dirty' && dirty'[p] ensures p !in disk' {
      MarkedFile(dirty, disk, dirty', disk', p);
    }
  }

  lemma MarkedRow(dirty: Dirty, disk: Disk, dirty': Dirty, disk': Disk, r: Row)
    requires MarkedOrSame(dirty, disk, dirty', disk', r.path) && (r.path in dirty || Agrees(r, disk))
    ensures r.path in dirty' || Agrees(r, disk')
  {
    hide Tris;
  }

  lemma MarkedFile(dirty: Dirty, disk: Disk, dirty': Dirty, disk': Disk, p: Bytes)
    requires MarkedOrSame(dirty, disk, dirty', disk', p)
    ensures p in disk' ==> p in dirty' || (p !in dirty && p in disk && disk[p] == disk'[p])
    ensures p in dirty' && dirty'[p] ==> p !in disk' || (p in dirty && dirty[p] && p in disk)
  {
  }

  /** A file that is neither marked nor on disk is in no shard. */
  lemma NoStaleRow(rows: seq<Row>, dirty: Dirty, disk: Disk, p: Bytes)
    requires Coherent(rows, dirty, disk)
    ensures CountPath(rows, p) > 0 ==> p in dirty || p in disk
  {
    hide CountPath, Tris;
    if CountPath(rows, p) > 0 {
      var r := SomeRow(rows, p);
      assert r.path in dirty || Agrees(r, disk);
    }
  }

  /** Without the mark the change is missed: a new file with something to report stays unseen. */
  lemma UnmarkedChangeIsMissed(rows: seq<Row>, dirty: Dirty, disk: Disk, p: Bytes, f: DiskFile, q: Query)
    requires Coherent(rows, dirty, disk) && p !in dirty && p !in disk
    ensures Answer(rows, dirty, disk[p := f], q, p) == []
    ensures !Coherent(rows, dirty, disk[p := f]) <==> Visible(f)
  {
    hide CountPath, RowAnswer, Visible;
    NoStaleRow(rows, dirty, disk, p);
    NoRow(rows, disk[p := f], q, p);
    assert p in disk[p := f] && disk[p := f][p] == f;
    forall r | r in rows ensures r.path in dirty || Agrees(r, disk[p := f]) {
      assert r.path in dirty || Agrees(r, disk);
    }
  }
}
