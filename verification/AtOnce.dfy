/** The steps of Recovery against the methods of Engine: where no file changes meanwhile,
    a cycle's steps add up to the cycle told in one go, and so do those of a first build. */
module AtOnce {
  import opened Prelude
  import opened Bytes
  import opened Lines
  import opened Ranges
  import opened EngineSpec
  import opened Rebuild
  import opened EngineSteps
  import opened Engine
  import opened Changes
  import opened Recovery
  import H = Healing

  /** What the cycle read is what is on `disk`. */
  ghost predicate SawAll(c: Cycle, disk: Disk) {
    forall p :: Reads(c, p) ==> SameAt(c.disk, disk, p)
  }

  lemma SameKept(c: Cycle, disk: Disk, i: nat, row: Row)
    requires SawAll(c, disk) && i < |c.shards| && Affected(c, i) && row in c.shards[i].rows
    ensures Rebuild.Kept(c.(disk := disk), row) == Rebuild.Kept(c, row)
  {
    hide CountPath, Affected, Home, Tris, IsBinary, Reads;
    RowCounted(c.shards[i].rows, row);
    if !(row.path in c.dirty && c.dirty[row.path]) {
      H.ReadsOf(c, i, row.path);
      assert SameAt(c.disk, disk, row.path);
    }
  }

  lemma {:induction false} SameRebuilt(c: Cycle, disk: Disk, i: nat, n: nat)
    requires SawAll(c, disk) && i < |c.shards| && Affected(c, i) && n <= |c.shards[i].rows|
    ensures RebuildRows(c.(disk := disk), c.shards[i].rows[..n]) == RebuildRows(c, c.shards[i].rows[..n])
  {
    hide Affected, Rebuild.Kept, SawAll;
    if n > 0 {
      var rows := c.shards[i].rows;
      assert rows[..n][..n - 1] == rows[..n - 1] && rows[..n][n - 1] == rows[n - 1];
      SameRebuilt(c, disk, i, n - 1);
      SameKept(c, disk, i, rows[n - 1]);
    }
  }

  lemma SameAffected(c: Cycle, disk: Disk, i: int)
    ensures Affected(c.(disk := disk), i) <==> Affected(c, i)
  {
    hide Home;
    assert DirtyIn(c.(disk := disk), i) == DirtyIn(c, i);
  }

  lemma SameRowsAfter(c: Cycle, disk: Disk, i: nat)
    requires SawAll(c, disk) && i < |c.shards|
    ensures RowsAfter(c.(disk := disk), i) == RowsAfter(c, i)
  {
    hide Affected, SawAll, RebuildRows;
    SameAffected(c, disk, i);
    var rows := c.shards[i].rows;
    assert rows[..|rows|] == rows;
    if Affected(c, i) { SameRebuilt(c, disk, i, |rows|); }
  }

  lemma {:induction false} SameReplaced(c: Cycle, disk: Disk, n: nat)
    requires SawAll(c, disk) && n <= |c.shards|
    ensures Replaced(c.(disk := disk), n) == Replaced(c, n) && SeqAfter(c.(disk := disk), n) == SeqAfter(c, n)
  {
    hide Affected, SawAll, RowsAfter;
    if n > 0 {
      SameReplaced(c, disk, n - 1);
      SameAffected(c, disk, n - 1);
      SameRowsAfter(c, disk, n - 1);
    }
  }

  /** A cycle that sees every file it reads as it is at one moment publishes what the
      cycle told in one go publishes at that moment. */
  lemma CycleAtOnce(c: Cycle, disk: Disk, newRows: seq<Row>)
    requires SawAll(c, disk)
    ensures NewRowsOf(c, newRows) <==> NewRowsOf(c.(disk := disk), newRows)
    ensures ShardsAfter(c, newRows) == ShardsAfter(c.(disk := disk), newRows)
  {
    hide SawAll, SortShards, Replaced, SeqAfter, CountPath, IsBinary, Tris, Less, Home;
    var c' := c.(disk := disk);
    SameReplaced(c, disk, |c.shards|);
    forall p ensures (IsNew(c, p) <==> IsNew(c', p)) && (IsNew(c, p) ==> FreshRow(c, p) == FreshRow(c', p)) {
      SameNew(c, disk, p);
    }
  }

  lemma SameNew(c: Cycle, disk: Disk, p: Bytes)
    requires SawAll(c, disk)
    ensures IsNew(c, p) <==> IsNew(c.(disk := disk), p)
    ensures IsNew(c, p) ==> FreshRow(c, p) == FreshRow(c.(disk := disk), p)
  {
    hide Home, IsBinary, Tris, Reads;
    if p in c.dirty && !c.dirty[p] && Home(c.shards, p) == -1 {
      H.UnhousedIsRead(c, p);
      assert SameAt(c.disk, disk, p);
    }
  }

  /** Told step by step, a cycle drops the same marks as told in one go. */
  lemma DroppedIsCleared(c: Cycle, newRows: seq<Row>, disk: Disk, marks: Dirty)
    ensures Dropped(CyclePlan(c, newRows, disk), c.dirty + marks) == Cleared(c, marks)
  {
    hide Deferred, ShardsAfter, SeqAfter, OldFiles, Seen;
  }

  /** Every file of a listing, read at one moment. */
  function TextsAt(disk: Disk): map<Bytes, Option<Bytes>> {
    map p | p in disk :: ContentAt(disk, p)
  }

  /** The shards of the first build told in one go are those of its steps. */
  lemma BuiltAtOnce(disk: Disk, inlineKB: int, files: seq<WalkFile>, sorted: seq<WalkFile>, built: seq<Shard>)
    requires Lists(files, disk) && SortedFiles(sorted) && multiset(sorted) == multiset(files)
    requires AllRows(built) == BatchRows(disk, inlineKB, sorted)
    ensures var op := Building(disk, inlineKB, TextsAt(disk), built);
      && AllBuilt(op) && SortedRows(AllRows(built)) && forall r :: r in AllRows(built) ==> IsFirstRow(op, r)
  {
    hide AllRows, BatchRows, SortedFiles, StrictlySorted, SortedRows, CountPath, Tris, IsBinary, InlineOf;
    var op := Building(disk, inlineKB, TextsAt(disk), built);
    ListedStrictly(files, disk, sorted);
    BatchRowsSorted(disk, inlineKB, sorted);
    BatchRowsFrom(disk, inlineKB, sorted);
    forall r | r in AllRows(built) ensures IsFirstRow(op, r) {
      var i :| 0 <= i < |sorted| && [r] == FileRow(disk, inlineKB, sorted[i]);
      assert r == FileRow(disk, inlineKB, sorted[i])[0];
    }
    forall p | p in disk && !IsBinary(disk[p].content) ensures CountPath(AllRows(built), p) > 0 {
      var f := WalkFile(p, disk[p].size, disk[p].mtime);
      var i :| 0 <= i < |sorted| && sorted[i] == f;
      RowCounted(AllRows(built), FileRow(disk, inlineKB, f)[0]);
    }
  }
}
