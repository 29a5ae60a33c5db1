/** Files that change while the disk engine runs, and while a rebuild cycle does. */
module Changes {
  // Single changes with their marks come first, then changes made while a rebuild cycle is
  // under way. At the end are the states that show the conditions on a cycle to be needed:
  // a file lost between the ends of a shard, a shard for new files that spans an old one,
  // and a file written again whose new mark goes with the old one.

  import opened Prelude
  import opened Bytes
  import opened Literal
  import opened Lines
  import opened Ranges
  import opened EngineSpec
  import opened Rebuild
  import opened Failing
  import opened Engine

  // ---- one change ----

  predicate SameAt(disk: Disk, disk': Disk, p: Bytes) {
    (p in disk' <==> p in disk) && (p in disk ==> disk'[p] == disk[p])
  }

  function Without(disk: Disk, dir: Bytes): Disk {
    map p | p in disk && !Under(dir, p) :: disk[p]
  }

  /** The marks made for a path that is gone: itself, and what was stored below it. */
  function MarkGone(dirty: Dirty, dir: Bytes, marked: set<Bytes>): Dirty {
    dirty[dir := true] + AllDeleted(marked)
  }

  /** A file written and then marked is seen by the next search. */
  lemma AfterWrite(rows: seq<Row>, dirty: Dirty, disk: Disk, p: Bytes, f: DiskFile)
    requires Coherent(rows, dirty, disk)
    ensures Coherent(rows, dirty[p := false], disk[p := f])
  {
    hide Coherent;
    var dirty', disk' := dirty[p := false], disk[p := f];
    forall r ensures MarkedOrSame(dirty, disk, dirty', disk', r) {}
    MarkingKeepsCoherent(rows, dirty, disk, dirty', disk');
  }

  lemma GoneAt(dirty: Dirty, disk: Disk, dir: Bytes, marked: set<Bytes>, p: Bytes)
    ensures var dirty', disk' := MarkGone(dirty, dir, marked), Without(disk, dir);
      && (p in disk' <==> p in disk && !Under(dir, p)) && (p in disk' ==> disk'[p] == disk[p])
      && (p in dirty' <==> p == dir || p in marked || p in dirty)
      && (p in dirty' && dirty'[p] ==> p == dir || p in marked || (p in dirty && dirty[p]))
  {
  }

  /** Every stored path below `dir` is marked, or dirty anyway. */
  ghost predicate AllMarked(rows: seq<Row>, dirty: Dirty, dir: Bytes, marked: set<Bytes>) {
    && (forall p :: p in marked ==> Under(dir, p))
    && (forall p :: dir + [SLASH] <= p && CountPath(rows, p) > 0 ==> p in marked || p in dirty)
  }

  /** So is the removal of a file or of a whole directory. */
  lemma AfterRemove(rows: seq<Row>, dirty: Dirty, disk: Disk, dir: Bytes, marked: set<Bytes>)
    requires Coherent(rows, dirty, disk) && AllMarked(rows, dirty, dir, marked)
    ensures Coherent(rows, MarkGone(dirty, dir, marked), Without(disk, dir))
  {
    hide CountPath, Tris, IsBinary, Under, Without, MarkGone, Unique;
    var dirty', disk' := MarkGone(dirty, dir, marked), Without(disk, dir);
    forall r | r in rows ensures r.path in dirty' || Agrees(r, disk') {
      RowCounted(rows, r);
      GoneAt(dirty, disk, dir, marked, r.path);
      UnderMeans(r.path, dir);
      assert r.path in dirty || Agrees(r, disk);
    }
    forall p | p in disk' && Visible(disk'[p]) ensures p in dirty' || CountPath(rows, p) > 0 {
      GoneAt(dirty, disk, dir, marked, p);
    }
    forall p | p in dirty' && dirty'[p] ensures p !in disk' {
      GoneAt(dirty, disk, dir, marked, p);
      UnderMeans(p, dir);
    }
  }

  // ---- changes during a cycle ----

  /** Every path that changed from `disk` to `disk'` is in `marks`, as it is now. */
  ghost predicate MarkedChanges(disk: Disk, marks: Dirty, disk': Disk) {
    forall p :: if p in marks then marks[p] ==> p !in disk' else SameAt(disk, disk', p)
  }

  /** A path marked again while the cycle ran, whose new mark looks like the one the
      cycle took: the new mark goes with the old one. */
  predicate Swallowed(c: Cycle, marks: Dirty, p: Bytes) {
    p in marks && p in c.dirty && !Deferred(c, p) && marks[p] == c.dirty[p]
  }

  lemma ClearedAt(c: Cycle, marks: Dirty, p: Bytes)
    ensures p in Cleared(c, marks) <==> (p in c.dirty || p in marks) && !(p in c.dirty && !Deferred(c, p) && (p in marks ==> marks[p] == c.dirty[p]))
    ensures p in Cleared(c, marks) ==> Cleared(c, marks)[p] == if p in marks then marks[p] else c.dirty[p]
    ensures p in DirtyAfter(c) <==> p in c.dirty && Deferred(c, p)
    ensures p in DirtyAfter(c) ==> DirtyAfter(c)[p] == c.dirty[p]
  {
    hide Deferred;
  }

  /** A swallowed path the shards are still right about: it kept what its row says, or it
      has no row and nothing to report. */
  predicate StaysRight(c: Cycle, after: Disk, p: Bytes) {
    if CountAfter(c, p) > 0 then p in c.disk && Agrees(FreshRow(c, p), after) else !(p in after && Visible(after[p]))
  }

  /** The cycle's rows for a path it took from the dirty list are fresh. */
  lemma ProcessedRow(c: Cycle, newRows: seq<Row>, r: Row)
    requires OrderedShards(c.shards) && NewRowsOf(c, newRows) && r in AllRows(ShardsAfter(c, newRows))
    requires r.path in c.dirty && !Deferred(c, r.path)
    ensures r.path in c.disk && r == FreshRow(c, r.path) && CountAfter(c, r.path) > 0
  {
    hide AllRows, CountPath, Replaced, ShardsAfter, Affected, SortedRows, FreshRow, RebuildRows, RebuildRow, Keeps, Home, OrderedShards, IsNew, CountAfter;
    RowsAreThose(c, newRows);
    CountsAfter(c, newRows, r.path);
    RowCounted(AllRows(ShardsAfter(c, newRows)), r);
    if r in newRows {
      NewIsThere(c, r.path);
    } else {
      var i := OriginOf(c, |c.shards|, r);
      if Affected(c, i) {
        var was := RebuildOrigin(c, c.shards[i].rows, r);
        SamePath(c, was);
        DirtyIsFresh(c, was);
      } else {
        RowCounted(c.shards[i].rows, r);
        NotElsewhere(c.shards, i, r.path);
      }
    }
  }

  lemma NewIsThere(c: Cycle, p: Bytes)
    requires IsNew(c, p)
    ensures p in c.disk
  {
  }

  lemma DirtyIsFresh(c: Cycle, was: Row)
    requires Keeps(c, was.path) && was.path in c.dirty
    ensures was.path in c.disk && RebuildRow(c, was) == FreshRow(c, was.path)
  {
    hide IsBinary, Tris;
  }

  /** A path whose mark is gone was left alone, was dealt with and not marked again, or
      is swallowed. */
  lemma UnmarkedAfter(c: Cycle, marks: Dirty, after: Disk, p: Bytes)
    requires MarkedChanges(c.disk, marks, after) && p !in Cleared(c, marks)
    ensures p !in DirtyAfter(c)
    ensures Swallowed(c, marks, p) || (p !in marks && SameAt(c.disk, after, p))
    ensures Swallowed(c, marks, p) ==> p in c.dirty && !Deferred(c, p)
  {
    hide Deferred, DirtyAfter, Cleared;
    ClearedAt(c, marks, p);
  }

  lemma AgreesElsewhere(r: Row, disk: Disk, after: Disk)
    requires SameAt(disk, after, r.path)
    ensures Agrees(r, after) <==> Agrees(r, disk)
  {
    hide Tris;
  }

  lemma FlagsAfter(c: Cycle, marks: Dirty, after: Disk, p: Bytes)
    requires MarkedChanges(c.disk, marks, after) && p in Cleared(c, marks) && Cleared(c, marks)[p]
    requires p in c.dirty && c.dirty[p] ==> p !in c.disk
    ensures p !in after
  {
    hide Deferred, Cleared;
    ClearedAt(c, marks, p);
  }

  /** Nothing that is not marked is lost, and the shards stay right about what was swallowed. */
  ghost predicate Survives(c: Cycle, marks: Dirty, after: Disk) {
    (forall p :: p !in marks ==> !Lost(c, p)) && (forall p :: Swallowed(c, marks, p) ==> StaysRight(c, after, p))
  }

  /** A row of a path that is not marked any more. */
  lemma RowUnderChange(c: Cycle, newRows: seq<Row>, marks: Dirty, after: Disk, r: Row)
    requires CoherentCycle(c) && NewRowsOf(c, newRows) && MarkedChanges(c.disk, marks, after)
    requires r in AllRows(ShardsAfter(c, newRows)) && r.path !in Cleared(c, marks)
    ensures if Swallowed(c, marks, r.path) then Agrees(r, after) <==> StaysRight(c, after, r.path) else Agrees(r, after)
  {
    hide AllRows, NewRowsOf, ShardsAfter, Cleared, DirtyAfter, Deferred, OrderedShards, Coherent, Agrees, Swallowed, MarkedChanges, FreshRow;
    UnmarkedAfter(c, marks, after, r.path);
    RowsAgreeAfter(c, newRows, r);
    if Swallowed(c, marks, r.path) { ProcessedRow(c, newRows, r); } else { AgreesElsewhere(r, c.disk, after); }
  }

  /** A text of a path that is not marked any more. */
  lemma FileUnderChange(c: Cycle, newRows: seq<Row>, marks: Dirty, after: Disk, p: Bytes)
    requires CoherentCycle(c) && NewRowsOf(c, newRows) && MarkedChanges(c.disk, marks, after)
    requires p in after && Visible(after[p]) && p !in Cleared(c, marks)
    ensures CountPath(AllRows(ShardsAfter(c, newRows)), p) == 0 <==>
      if Swallowed(c, marks, p) then CountAfter(c, p) == 0 else p !in marks && Lost(c, p)
  {
    hide AllRows, NewRowsOf, ShardsAfter, Cleared, DirtyAfter, Deferred, OrderedShards, Coherent, Swallowed, MarkedChanges, CountAfter, Lost, CountPath;
    UnmarkedAfter(c, marks, after, p);
    CountsAfter(c, newRows, p);
    if !Swallowed(c, marks, p) { SeenUnlessLost(c, p); }
  }

  /** A lost path that is not marked again is a text without a row and without a mark. */
  lemma LostUnderChange(c: Cycle, newRows: seq<Row>, marks: Dirty, after: Disk, p: Bytes)
    requires CoherentCycle(c) && NewRowsOf(c, newRows) && MarkedChanges(c.disk, marks, after) && Lost(c, p) && p !in marks
    ensures p in after && Visible(after[p]) && p !in Cleared(c, marks)
    ensures CountPath(AllRows(ShardsAfter(c, newRows)), p) == 0
  {
    hide AllRows, NewRowsOf, ShardsAfter, Cleared, DirtyAfter, Deferred, OrderedShards, Coherent, CountAfter, CountPath, Lost;
    LostIsVisible(c, p);
    SeenUnlessLost(c, p);
    ClearedAt(c, marks, p);
    assert SameAt(c.disk, after, p);
    CountsAfter(c, newRows, p);
    LostWasDirty(c, p);
  }

  lemma LostWasDirty(c: Cycle, p: Bytes)
    requires Lost(c, p)
    ensures p in c.dirty
  {
  }

  /** A swallowed path the shards are wrong about has a row that disagrees, or a text and
      no row. */
  lemma SwallowedUnderChange(c: Cycle, newRows: seq<Row>, marks: Dirty, after: Disk, p: Bytes)
    requires CoherentCycle(c) && NewRowsOf(c, newRows) && Swallowed(c, marks, p) && !StaysRight(c, after, p)
    ensures !Coherent(AllRows(ShardsAfter(c, newRows)), Cleared(c, marks), after)
  {
    hide AllRows, NewRowsOf, ShardsAfter, Cleared, DirtyAfter, Deferred, OrderedShards, CountAfter, CountPath, Agrees, FreshRow, Unique, Visible;
    ClearedAt(c, marks, p);
    CountsAfter(c, newRows, p);
    if CountAfter(c, p) > 0 {
      var r := SomeRow(AllRows(ShardsAfter(c, newRows)), p);
      ProcessedRow(c, newRows, r);
    }
  }

  /** A cycle goes unnoticed while files change exactly if it loses none that is not marked
      again, and whatever it swallows a mark of stays as its row has it. */
  lemma CycleUnderChange(c: Cycle, newRows: seq<Row>, marks: Dirty, after: Disk)
    requires CoherentCycle(c) && NewRowsOf(c, newRows) && MarkedChanges(c.disk, marks, after)
    ensures Coherent(AllRows(ShardsAfter(c, newRows)), Cleared(c, marks), after) <==> Survives(c, marks, after)
  {
    hide CoherentCycle, NewRowsOf, MarkedChanges, Survives;
    if Coherent(AllRows(ShardsAfter(c, newRows)), Cleared(c, marks), after) {
      SurvivesIfCoherent(c, newRows, marks, after);
    }
    if Survives(c, marks, after) {
      CoherentIfSurvives(c, newRows, marks, after);
    }
  }

  lemma SurvivesIfCoherent(c: Cycle, newRows: seq<Row>, marks: Dirty, after: Disk)
    requires CoherentCycle(c) && NewRowsOf(c, newRows) && MarkedChanges(c.disk, marks, after)
    requires Coherent(AllRows(ShardsAfter(c, newRows)), Cleared(c, marks), after)
    ensures Survives(c, marks, after)
  {
    hide AllRows, CoherentCycle, NewRowsOf, ShardsAfter, Cleared, MarkedChanges, Lost, StaysRight, Swallowed, CountPath, Visible, Agrees, Unique;
    forall p | p !in marks ensures !Lost(c, p) {
      if Lost(c, p) { LostUnderChange(c, newRows, marks, after, p); }
    }
    forall p | Swallowed(c, marks, p) ensures StaysRight(c, after, p) {
      if !StaysRight(c, after, p) { SwallowedUnderChange(c, newRows, marks, after, p); }
    }
  }

  lemma CoherentIfSurvives(c: Cycle, newRows: seq<Row>, marks: Dirty, after: Disk)
    requires CoherentCycle(c) && NewRowsOf(c, newRows) && MarkedChanges(c.disk, marks, after) && Survives(c, marks, after)
    ensures Coherent(AllRows(ShardsAfter(c, newRows)), Cleared(c, marks), after)
  {
    hide AllRows, CoherentCycle, NewRowsOf, ShardsAfter, Cleared, MarkedChanges, Lost, Swallowed, CountPath, Visible, Agrees, CountAfter;
    var rows := AllRows(ShardsAfter(c, newRows));
    forall r | r in rows ensures r.path in Cleared(c, marks) || Agrees(r, after) {
      if r.path !in Cleared(c, marks) { RowUnderChange(c, newRows, marks, after, r); }
    }
    forall p | p in after && Visible(after[p]) ensures p in Cleared(c, marks) || CountPath(rows, p) > 0 {
      if p !in Cleared(c, marks) { FileUnderChange(c, newRows, marks, after, p); }
    }
    WasCoherent(c);
    forall p | p in Cleared(c, marks) && Cleared(c, marks)[p] ensures p !in after { FlagsAfter(c, marks, after, p); }
    forall p ensures CountPath(rows, p) <= 1 { CountsAfter(c, newRows, p); }
  }

  lemma WasCoherent(c: Cycle)
    requires CoherentCycle(c)
    ensures OrderedShards(c.shards) && forall p :: p in c.dirty && c.dirty[p] ==> p !in c.disk
  {
    hide OrderedShards, AllRows, CountPath, Agrees;
  }

  // ---- what a swallowed mark does to searches ----

  /** The engine answers for a swallowed path from the row it made, whatever the file is
      now; without a row it answers nothing. */
  lemma SwallowedAnswers(c: Cycle, newRows: seq<Row>, marks: Dirty, after: Disk, p: Bytes, q: Query)
    requires CoherentCycle(c) && NewRowsOf(c, newRows) && Swallowed(c, marks, p)
    ensures CountAfter(c, p) > 0 ==> p in c.disk
    ensures Answer(AllRows(ShardsAfter(c, newRows)), Cleared(c, marks), after, q, p) ==
      if CountAfter(c, p) > 0 then RowAnswer(after, q, FreshRow(c, p)) else []
  {
    hide AllRows, NewRowsOf, ShardsAfter, Cleared, DirtyAfter, Deferred, OrderedShards, CountAfter, CountPath, FreshRow, Coherent, RowsAnswer, RowAnswer, DirtyAnswer;
    ClearedAt(c, marks, p);
    CountsAfter(c, newRows, p);
    var rows := AllRows(ShardsAfter(c, newRows));
    if CountAfter(c, p) > 0 {
      var r := SomeRow(rows, p);
      ProcessedRow(c, newRows, r);
      OneRow(rows, after, q, r);
    } else {
      NoRow(rows, after, q, p);
    }
  }

  /** Looking for a literal as it is. */
  function LiteralQuery(lit: Bytes): Query {
    Query(LowerAll(lit), Matcher(lit, false, None, (s: Bytes) => None), p => true, 0, false, 0, 0)
  }

  /** A line that holds the literal is reported. */
  lemma {:induction false} ScanFinds(path: Bytes, c: Bytes, st: nat, lineNo: nat, lit: Bytes, o: int)
    requires OccursAt(c, lit, o, false) && st <= o && lit != [] && NoNewline(lit, 0, |lit|)
    ensures ScanLines(path, c, st, lineNo, LiteralFinder(lit, false), 0) != []
    decreases |c| - st
  {
    var e := LineEnd(c, st);
    if o + |lit| <= e {
      SliceOccurs(c, lit, false, st, e, o - st);
      assert First(c[st..e], lit, false, 0) >= 0;
    } else {
      forall k | o <= k < o + |lit| ensures c[k] != NEWLINE { assert Same(c[o + (k - o)], lit[k - o], false); }
      ScanFinds(path, c, e + 1, lineNo + 1, lit, o);
    }
  }

  lemma LiteralReported(disk: Disk, p: Bytes, lit: Bytes, o: int)
    requires p in disk && !IsBinary(disk[p].content) && OccursAt(disk[p].content, lit, o, false)
    requires |lit| >= 3 && NoNewline(lit, 0, |lit|)
    ensures DiskScan(disk, LiteralQuery(lit), p) != [] && PruningOk(LiteralQuery(lit))
  {
    hide IsBinary, PruningOk;
    ScanFinds(p, disk[p].content, 0, 0, lit, o);
    LiteralPrunes(LiteralQuery(lit));
  }

  lemma {:induction false} SameTris(lit: Bytes)
    ensures Tris(LowerAll(lit)) == Tris(lit)
  {
    forall k ensures k in Tris(LowerAll(lit)) <==> k in Tris(lit) {
      forall i: nat | i + 3 <= |lit| ensures TriKey(LowerAll(lit), i) == TriKey(lit, i) {}
    }
  }

  /** A swallowed write shows: what it brought is not found, if it has a trigram that the
      file did not have before. */
  lemma SwallowedShows(c: Cycle, newRows: seq<Row>, marks: Dirty, after: Disk, p: Bytes, lit: Bytes, o: int)
    requires CoherentCycle(c) && NewRowsOf(c, newRows) && Swallowed(c, marks, p)
    requires p in after && !IsBinary(after[p].content) && OccursAt(after[p].content, lit, o, false)
    requires |lit| >= 3 && NoNewline(lit, 0, |lit|)
    requires p in c.disk ==> !(Tris(lit) <= Tris(c.disk[p].content))
    ensures Answer(AllRows(ShardsAfter(c, newRows)), Cleared(c, marks), after, LiteralQuery(lit), p) == []
    ensures DiskScan(after, LiteralQuery(lit), p) != [] && PruningOk(LiteralQuery(lit))
  {
    hide CoherentCycle, NewRowsOf, Swallowed, IsBinary, Tris, OccursAt, Answer, DiskScan, PruningOk, CountAfter, AllRows, ShardsAfter, Cleared;
    SwallowedAnswers(c, newRows, marks, after, p, LiteralQuery(lit));
    LiteralReported(after, p, lit, o);
    SameTris(lit);
  }

  // ---- the conditions are needed ----

  function FileNo(x: byte): DiskFile { DiskFile(1, 0, [x]) }

  function RowNo(p: byte, x: byte): Row { Row([p], 1, 0, {}, None) }

  lemma SmallFile(p: byte, x: byte, disk: Disk)
    requires x != 0 && [p] in disk && disk[[p]] == FileNo(x)
    ensures Agrees(RowNo(p, x), disk) && Visible(FileNo(x)) && Tris([x]) == {}
  {
    assert Tris([x]) == {};
    assert FileNo(x).content[..1] == [x];
  }

  lemma OneRowCount(r: Row, p: Bytes)
    ensures CountPath([r], p) == OneIf(r.path == p)
  {
    assert [r][..0] == [];
  }

  lemma TwoRowCount(r: Row, t: Row, p: Bytes)
    ensures CountPath([r, t], p) == OneIf(r.path == p) + OneIf(t.path == p)
  {
    assert [r, t] == [r] + [t];
    CountAppend([r], [t], p);
    OneRowCount(r, p);
    OneRowCount(t, p);
  }

  lemma OneShardHome(s: Shard, p: Bytes)
    ensures Home([s], p) == if Covers(ShardRange(s), p) then 0 else -1
    ensures OrderedRanges(RangesOf([s])) <==> Sound(ShardRange(s))
  {
    hide Less, LessEq, ShardRange;
    var rs := RangesOf([s]);
    assert rs[..0] == [];
    assert rs[0] == ShardRange(s);
  }

  lemma LessNumbers(x: byte, y: byte)
    requires x < y
    ensures Less([x], [y]) && LessEq([x], [y])
  {
  }

  lemma OnlyDirty(c: Cycle, p: Bytes)
    requires c.dirty == map[p := false] && c.threshold == 1
    ensures Home(c.shards, p) >= 0 ==> Affected(c, Home(c.shards, p))
  {
    hide Home;
    var h := Home(c.shards, p);
    assert DirtyIn(c, h) == {p};
    assert |{p}| == 1;
  }

  function Pair(): Shard { Shard(0, [RowNo(97, 120), RowNo(99, 120)]) }

  function ThreeFiles(): Disk { map[[97] := FileNo(120), [98] := FileNo(120), [99] := FileNo(120)] }

  lemma PairOrdered()
    ensures OrderedShards([Pair()]) && Home([Pair()], [98]) == 0
  {
    hide Less, OrderedRanges, RangesOf, ShardFor;
    OneShardHome(Pair(), [98]);
    LessNumbers(97, 98);
    LessNumbers(98, 99);
    LessNumbers(97, 99);
  }

  lemma PairCounts(p: Bytes)
    ensures CountPath(AllRows([Pair()]), p) == CountPath(Pair().rows, p) == OneIf([97] == p) + OneIf([99] == p)
  {
    OneShard(Pair());
    TwoRowCount(RowNo(97, 120), RowNo(99, 120), p);
  }

  lemma PairCoherent()
    ensures Coherent(AllRows([Pair()]), map[[98] := false], ThreeFiles())
  {
    hide CountPath, AllRows, Agrees, Visible;
    SmallFile(97, 120, ThreeFiles());
    SmallFile(99, 120, ThreeFiles());
    OneShard(Pair());
    forall p ensures CountPath(AllRows([Pair()]), p) == OneIf([97] == p) + OneIf([99] == p) { PairCounts(p); }
  }

  /** A file written between the ends of a shard that does not have it is lost by the
      next rebuild of that shard. */
  lemma LossExample() returns (c: Cycle, p: Bytes)
    ensures CoherentCycle(c) && NewRowsOf(c, []) && Lost(c, p)
  {
    hide OrderedShards, Coherent, Home, CountPath, Visible, Affected, Pair;
    c, p := Cycle([Pair()], 1, map[[98] := false], ThreeFiles(), 1, 0), [98];
    PairOrdered();
    PairCoherent();
    PairCounts(p);
    SmallFile(98, 120, ThreeFiles());
    OnlyDirty(c, p);
  }

  /** New files on both sides of a shard get one shard that spans it. */
  lemma SpanExample() returns (c: Cycle, newRows: seq<Row>)
    ensures CoherentCycle(c) && NewRowsOf(c, newRows) && Spanned(c, newRows, 0)
    ensures !OrderedShards(ShardsAfter(c, newRows))
  {
    hide OrderedShards, Coherent, NewRowsOf, ShardsAfter, Spanned;
    newRows := [RowNo(97, 120), RowNo(99, 120)];
    c := Cycle([Middle()], 1, map[[97] := false, [99] := false], ThreeFiles(), 1, 0);
    MiddleOrdered();
    MiddleCoherent();
    SpanNewRows(c, newRows);
    SpanSpans(c, newRows);
    RangesStayOrdered(c, newRows);
  }

  function Middle(): Shard { Shard(0, [RowNo(98, 120)]) }

  lemma MiddleOrdered()
    ensures OrderedShards([Middle()]) && Home([Middle()], [97]) == -1 && Home([Middle()], [99]) == -1
  {
    hide Less, OrderedRanges, RangesOf, ShardFor;
    OneShardHome(Middle(), [97]);
    OneShardHome(Middle(), [99]);
    LessNumbers(97, 98);
    LessNumbers(98, 99);
    LessOrGeq([97], [98]);
    LessOrGeq([98], [99]);
  }

  lemma MiddleCoherent()
    ensures Coherent(AllRows([Middle()]), map[[97] := false, [99] := false], ThreeFiles())
  {
    hide CountPath, AllRows, Agrees, Visible;
    SmallFile(98, 120, ThreeFiles());
    OneShard(Middle());
    forall p ensures CountPath(AllRows([Middle()]), p) == OneIf([98] == p) { OneRowCount(RowNo(98, 120), p); }
  }

  lemma SpanNewRows(c: Cycle, newRows: seq<Row>)
    requires c == Cycle([Middle()], 1, map[[97] := false, [99] := false], ThreeFiles(), 1, 0)
    requires newRows == [RowNo(97, 120), RowNo(99, 120)]
    ensures NewRowsOf(c, newRows)
  {
    hide Less, CountPath, Home, Middle, IsBinary, Tris;
    MiddleOrdered();
    LessNumbers(97, 99);
    SmallFile(97, 120, ThreeFiles());
    SmallFile(99, 120, ThreeFiles());
    forall p ensures CountPath(newRows, p) == OneIf([97] == p) + OneIf([99] == p) { TwoRowCount(newRows[0], newRows[1], p); }
  }

  lemma SpanSpans(c: Cycle, newRows: seq<Row>)
    requires c == Cycle([Middle()], 1, map[[97] := false, [99] := false], ThreeFiles(), 1, 0)
    requires newRows == [RowNo(97, 120), RowNo(99, 120)]
    ensures Spanned(c, newRows, 0)
  {
    hide Less, Home;
    LessNumbers(97, 98);
    LessNumbers(98, 99);
    MiddleOrdered();
    assert DirtyIn(c, 0) == {};
  }

  function TextBefore(): Bytes { [97, 98, 99] }

  function TextAfter(): Bytes { [120, 121, 122] }

  function OneNew(): Cycle { Cycle([], 0, map[[97] := false], map[[97] := DiskFile(3, 0, TextBefore())], 1, 0) }

  function RowBefore(): Row { Row([97], 3, 0, Tris(TextBefore()), None) }

  function Again(): Disk { map[[97] := DiskFile(3, 1, TextAfter())] }

  lemma NoHome(p: Bytes)
    ensures Home([], p) == -1
  {
    var rs := RangesOf([]);
    assert rs == [];
  }

  lemma OneNewCoherent()
    ensures CoherentCycle(OneNew()) && NoneLost(OneNew())
  {
    hide Tris, Home;
    NoRanges();
    assert AllRows([]) == [];
    forall p ensures Home([], p) == -1 { NoHome(p); }
  }

  lemma OneNewRows()
    ensures NewRowsOf(OneNew(), [RowBefore()])
  {
    hide Less, CountPath, Home, Tris;
    NoHome([97]);
    var t := TextBefore();
    assert t[..3] == t;
    forall p ensures CountPath([RowBefore()], p) == OneIf([97] == p) { OneRowCount(RowBefore(), p); }
    assert FreshRow(OneNew(), [97]) == RowBefore();
  }

  lemma OtherTrigram()
    ensures !(Tris(TextAfter()) <= Tris(TextBefore())) && OccursAt(TextAfter(), TextAfter(), 0, false)
    ensures !IsBinary(TextAfter()) && |TextAfter()| >= 3 && NoNewline(TextAfter(), 0, 3)
  {
    var k := TriKey(TextAfter(), 0);
    assert HasTri(TextAfter(), k);
    forall i: nat | i + 3 <= 3 ensures TriKey(TextBefore(), i) != k {}
    assert k in Tris(TextAfter()) && k !in Tris(TextBefore());
    var t := TextAfter();
    assert t[..3] == t;
  }

  /** A file written again, with an equal mark, after the cycle read it: no file is lost,
      yet the text it has now is not found. */
  lemma SwallowExample() returns (c: Cycle, newRows: seq<Row>, marks: Dirty, after: Disk, p: Bytes, q: Query)
    ensures CoherentCycle(c) && NewRowsOf(c, newRows) && NoneLost(c)
    ensures MarkedChanges(c.disk, marks, after) && Swallowed(c, marks, p) && !Survives(c, marks, after)
    ensures PruningOk(q)
    ensures Answer(AllRows(ShardsAfter(c, newRows)), Cleared(c, marks), after, q, p) != DiskScan(after, q, p)
  {
    hide CoherentCycle, NewRowsOf, NoneLost, Tris, OccursAt, Home, PruningOk, Answer, DiskScan, ShardsAfter, Cleared, AllRows, IsBinary, CountPath, Survives;
    c, newRows, marks, after, p, q := OneNew(), [RowBefore()], map[[97] := false], Again(), [97], LiteralQuery(TextAfter());
    OneNewCoherent();
    OneNewRows();
    NoHome([97]);
    OtherTrigram();
    SwallowedShows(c, newRows, marks, after, p, TextAfter(), 0);
    CycleUnderChange(c, newRows, marks, after);
    if Survives(c, marks, after) {
      CoherentAnswers(AllRows(ShardsAfter(c, newRows)), Cleared(c, marks), after, q, p);
    }
  }

  // ---- a shard that cannot be written ----

  function Rewritten(): Disk { map[[98] := DiskFile(3, 1, TextAfter())] }

  function Rewriting(): Cycle { Cycle([Middle()], 1, map[[98] := false], Rewritten(), 1, 0) }

  lemma MiddleHome()
    ensures OrderedShards([Middle()]) && Home([Middle()], [98]) == 0
  {
    hide Less, OrderedRanges, RangesOf, ShardFor;
    OneShardHome(Middle(), [98]);
    LessIrreflexive([98]);
  }

  lemma RewritingCoherent()
    ensures CoherentCycle(Rewriting()) && NoneLost(Rewriting()) && NewRowsOf(Rewriting(), [])
  {
    hide CountPath, AllRows, Agrees, OrderedRanges, RangesOf, Home, Affected, IsBinary;
    MiddleHome();
    OneShard(Middle());
    forall p ensures CountPath([RowNo(98, 120)], p) == OneIf([98] == p) { OneRowCount(RowNo(98, 120), p); }
  }

  lemma MiddleFails()
    ensures Fails(Rewriting(), 0, {1}) && ShardsLeft(Rewriting(), [], {1}) == [Middle()] && DirtyAfter(Rewriting()) == map[]
  {
    hide Home, Tris, Affected, OrderedShards;
    var c := Rewriting();
    MiddleHome();
    OnlyDirty(c, [98]);
    var t := TextAfter();
    assert t[..3] == t;
    var r := RowNo(98, 120);
    assert [r][..0] == [] && Keeps(c, [98]);
    assert RebuildRows(c, [r]) == RebuildRows(c, []) + [RebuildRow(c, r)];
    assert SeqAfter(c, 0) == 1;
    assert Remaining(c, 0, {1}) == [];
    assert Remaining(c, 1, {1}) == [Middle()];
    assert Gathered(c, [], {1}) == [Middle()];
    MiddleSorted();
    assert |c.dirty| == 1;
  }

  lemma MiddleSorted()
    ensures SortShards([Middle()]) == [Middle()]
  {
    assert [Middle()][..0] == [] && SortShards([]) == [];
    assert SortShards([Middle()]) == InsertShard([], Middle()) == [Middle()];
  }

  /** A shard that cannot be written stays as it was, and the marks of its files go: what
      one of them has now is not found, although the cycle loses none. */
  lemma FailureExample() returns (c: Cycle, newRows: seq<Row>, failed: set<nat>, p: Bytes, q: Query)
    ensures CoherentCycle(c) && NewRowsOf(c, newRows) && NoneLost(c) && LostBy(c, p, failed) && PruningOk(q)
    ensures Answer(AllRows(ShardsLeft(c, newRows, failed)), DirtyAfter(c), c.disk, q, p) != DiskScan(c.disk, q, p)
  {
    hide CoherentCycle, NewRowsOf, NoneLost, Tris, OccursAt, Home, PruningOk, DiskScan, ShardsLeft, DirtyAfter, AllRows, IsBinary, CountPath, Fails, RowsAnswer;
    c, newRows, failed, p, q := Rewriting(), [], {1}, [98], LiteralQuery(TextAfter());
    RewritingCoherent();
    MiddleFails();
    MiddleHome();
    OtherTrigram();
    LiteralReported(c.disk, p, TextAfter(), 0);
    SameTris(TextAfter());
    var r := RowNo(98, 120);
    OneShard(Middle());
    OneRowCount(r, p);
    OneRow([r], c.disk, q, r);
    MissesAll(c.disk);
  }

  lemma MissesAll(disk: Disk)
    ensures RowAnswer(disk, LiteralQuery(TextAfter()), RowNo(98, 120)) == []
  {
    hide Tris;
    OtherTrigram();
    SameTris(TextAfter());
  }
}
