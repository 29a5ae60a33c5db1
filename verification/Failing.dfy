/** Cycles that cannot write, or open, some of the shards they make. */
module Failing {
  // The old shard then stays in use, and the shard for new files is missing; the marks of
  // their files are dropped all the same.

  import opened Prelude
  import opened Bytes
  import opened Lines
  import opened Ranges
  import opened EngineSpec
  import opened Rebuild

  // ---- what such a cycle publishes ----

  /** Shard `i` was to be replaced by one whose number is in `failed`. */
  predicate Fails(c: Cycle, i: nat, failed: set<nat>)
    requires i < |c.shards|
  {
    Affected(c, i) && RowsAfter(c, i) != [] && SeqAfter(c, i) in failed
  }

  function RowsLeft(c: Cycle, i: nat, failed: set<nat>): seq<Row>
    requires i < |c.shards|
  {
    if Fails(c, i, failed) then c.shards[i].rows else RowsAfter(c, i)
  }

  function ShardLeft(c: Cycle, i: nat, failed: set<nat>): seq<Shard>
    requires i < |c.shards|
  {
    if Fails(c, i, failed) then [c.shards[i]] else Replacement(c, i)
  }

  /** What remains of the first `n` shards. */
  function Remaining(c: Cycle, n: nat, failed: set<nat>): seq<Shard>
    requires n <= |c.shards|
  {
    if n == 0 then [] else Remaining(c, n - 1, failed) + ShardLeft(c, n - 1, failed)
  }

  /** The files that the first `n` shards leave behind: a shard that stays keeps its own. */
  function LeftBehind(c: Cycle, n: nat, failed: set<nat>): seq<nat>
    requires n <= |c.shards|
  {
    if n == 0 then []
    else LeftBehind(c, n - 1, failed) + (if Affected(c, n - 1) && !Fails(c, n - 1, failed) then [c.shards[n - 1].seqNo] else [])
  }

  /** The shard for new files cannot be written. */
  predicate NewFails(c: Cycle, failed: set<nat>) {
    SeqAfter(c, |c.shards|) in failed
  }

  function Gathered(c: Cycle, newRows: seq<Row>, failed: set<nat>): seq<Shard> {
    Remaining(c, |c.shards|, failed) +
    if newRows == [] || NewFails(c, failed) then [] else [Shard(SeqAfter(c, |c.shards|), newRows)]
  }

  function ShardsLeft(c: Cycle, newRows: seq<Row>, failed: set<nat>): seq<Shard> {
    if |c.dirty| == 0 then c.shards else SortShards(Gathered(c, newRows, failed))
  }

  // ---- nothing fails ----

  lemma {:induction false} NoneFails(c: Cycle, n: nat)
    requires n <= |c.shards|
    ensures Remaining(c, n, {}) == Replaced(c, n)
  {
    hide Affected, RowsAfter, SeqAfter;
    if n > 0 { NoneFails(c, n - 1); }
  }

  /** Without failures it is what the cycle publishes otherwise. */
  lemma WithoutFailures(c: Cycle, newRows: seq<Row>)
    ensures ShardsLeft(c, newRows, {}) == ShardsAfter(c, newRows)
  {
    hide Affected, RowsAfter, SeqAfter, SortShards, Replaced, Remaining;
    NoneFails(c, |c.shards|);
  }

  // ---- counting rows ----

  lemma LeftRows(c: Cycle, i: nat, failed: set<nat>)
    requires i < |c.shards|
    ensures AllRows(ShardLeft(c, i, failed)) == RowsLeft(c, i, failed)
  {
    hide Fails, RowsAfter, Replacement;
    OneShard(c.shards[i]);
    ReplacementRows(c, i);
  }

  lemma ElsewhereLeft(c: Cycle, i: nat, failed: set<nat>, p: Bytes)
    requires OrderedShards(c.shards) && i < |c.shards|
    ensures CountPath(RowsLeft(c, i, failed), p) > 0 ==> Home(c.shards, p) == i
    ensures CountPath(RowsLeft(c, i, failed), p) <= 1
  {
    hide OrderedRanges, CountPath, Home, RangesOf, Fails, RowsAfter, SortedRows;
    NotElsewhere(c.shards, i, p);
    NotElsewhereAfter(c, i, p);
    SortedCount(c.shards[i].rows, p);
  }

  lemma {:induction false} RemainingCount(c: Cycle, n: nat, failed: set<nat>, p: Bytes)
    requires OrderedShards(c.shards) && n <= |c.shards|
    ensures CountPath(AllRows(Remaining(c, n, failed)), p) ==
      var h := Home(c.shards, p); if 0 <= h < n then CountPath(RowsLeft(c, h, failed), p) else 0
  {
    hide OrderedShards, CountPath, RowsLeft, ShardLeft, Home, AllRows;
    if n == 0 {
      NoRows(p);
    } else {
      RemainingCount(c, n - 1, failed, p);
      AllRowsAppend(Remaining(c, n - 1, failed), ShardLeft(c, n - 1, failed));
      LeftRows(c, n - 1, failed);
      CountAppend(AllRows(Remaining(c, n - 1, failed)), RowsLeft(c, n - 1, failed), p);
      ElsewhereLeft(c, n - 1, failed, p);
    }
  }

  lemma {:induction false} OriginLeft(c: Cycle, n: nat, failed: set<nat>, r: Row) returns (i: nat)
    requires n <= |c.shards| && r in AllRows(Remaining(c, n, failed))
    ensures i < n && r in RowsLeft(c, i, failed)
  {
    hide AllRows, RowsLeft, ShardLeft;
    NoRowAtAll(r);
    AllRowsAppend(Remaining(c, n - 1, failed), ShardLeft(c, n - 1, failed));
    LeftRows(c, n - 1, failed);
    if r in RowsLeft(c, n - 1, failed) { i := n - 1; } else { i := OriginLeft(c, n - 1, failed, r); }
  }

  /** The rows of the shard for new files, if it could be written. */
  function NewLeft(c: Cycle, newRows: seq<Row>, failed: set<nat>): seq<Row> {
    if NewFails(c, failed) then [] else newRows
  }

  lemma GatheredRows(c: Cycle, newRows: seq<Row>, failed: set<nat>)
    ensures AllRows(Gathered(c, newRows, failed)) == AllRows(Remaining(c, |c.shards|, failed)) + NewLeft(c, newRows, failed)
  {
    hide AllRows, Remaining, SeqAfter;
    var l := Remaining(c, |c.shards|, failed);
    if newRows == [] || NewFails(c, failed) {
      assert l + [] == l;
      assert AllRows(l) + [] == AllRows(l);
    } else {
      AllRowsSnoc(l, Shard(SeqAfter(c, |c.shards|), newRows));
    }
  }

  lemma RowsOfLeft(c: Cycle, newRows: seq<Row>, failed: set<nat>)
    requires |c.dirty| > 0
    ensures SameRows(AllRows(ShardsLeft(c, newRows, failed)), AllRows(Remaining(c, |c.shards|, failed)) + NewLeft(c, newRows, failed))
  {
    hide AllRows, SameRows, Remaining, SortShards, Gathered, NewLeft;
    GatheredRows(c, newRows, failed);
    SortSameRows(Gathered(c, newRows, failed));
  }

  function CountLeft(c: Cycle, p: Bytes, failed: set<nat>): nat {
    var h := Home(c.shards, p);
    if h >= 0 then CountPath(RowsLeft(c, h, failed), p)
    else OneIf(IsNew(c, p) && !NewFails(c, failed))
  }

  lemma CountsLeft(c: Cycle, newRows: seq<Row>, failed: set<nat>, p: Bytes)
    requires OrderedShards(c.shards) && NewRowsOf(c, newRows) && |c.dirty| > 0
    ensures CountPath(AllRows(ShardsLeft(c, newRows, failed)), p) == CountLeft(c, p, failed) <= 1
  {
    hide AllRows, CountPath, Remaining, ShardsLeft, NewRowsOf, RowsLeft, OrderedShards, Home, IsBinary;
    RowsOfLeft(c, newRows, failed);
    RemainingCount(c, |c.shards|, failed, p);
    CountAppend(AllRows(Remaining(c, |c.shards|, failed)), NewLeft(c, newRows, failed), p);
    NewCount(c, newRows, p);
    NoRow0(p);
    var h := Home(c.shards, p);
    if h >= 0 { ElsewhereLeft(c, h, failed, p); }
  }

  lemma NoRow0(p: Bytes)
    ensures CountPath([], p) == 0
  {
  }

  // ---- when nothing is lost ----

  /** The old row for `p` still holds of its file, or without one there is nothing to report. */
  ghost predicate OldRight(c: Cycle, h: nat, p: Bytes)
    requires h < |c.shards|
  {
    if CountPath(c.shards[h].rows, p) > 0 then forall r :: r in c.shards[h].rows && r.path == p ==> Agrees(r, c.disk)
    else !(p in c.disk && Visible(c.disk[p]))
  }

  /** The mark of `p` is dropped although what it stood for is not stored: lost as in any
      cycle, or with the shard that failed. */
  ghost predicate LostBy(c: Cycle, p: Bytes, failed: set<nat>) {
    var h := Home(c.shards, p);
    if h >= 0 && Fails(c, h, failed) then p in c.dirty && !OldRight(c, h, p)
    else if h < 0 && NewFails(c, failed) then IsNew(c, p) && Visible(c.disk[p])
    else Lost(c, p)
  }

  lemma FailsIsAffected(c: Cycle, h: nat, failed: set<nat>)
    requires h < |c.shards| && Fails(c, h, failed)
    ensures Affected(c, h)
  {
    hide Affected, RowsAfter, SeqAfter;
  }

  /** A row of a shard that stays is right, unless its file is lost. */
  lemma StayingRow(c: Cycle, i: nat, failed: set<nat>, r: Row)
    requires CoherentCycle(c) && i < |c.shards| && Fails(c, i, failed) && r in c.shards[i].rows
    ensures Home(c.shards, r.path) == i && r.path !in DirtyAfter(c)
    ensures LostBy(c, r.path, failed) || Agrees(r, c.disk)
  {
    hide Affected, AllRows, CountPath, Agrees, OrderedShards, Home, Unique, Fails;
    FailsIsAffected(c, i, failed);
    InAllRows(c.shards, i, r);
    RowCounted(c.shards[i].rows, r);
    NotElsewhere(c.shards, i, r.path);
    assert r.path in c.dirty || Agrees(r, c.disk);
    if r.path in c.dirty && OldRight(c, i, r.path) { assert Agrees(r, c.disk); }
  }

  lemma RowsLeftAgree(c: Cycle, newRows: seq<Row>, failed: set<nat>, r: Row)
    requires CoherentCycle(c) && NewRowsOf(c, newRows) && |c.dirty| > 0 && r in AllRows(ShardsLeft(c, newRows, failed))
    ensures r.path in DirtyAfter(c) || Agrees(r, c.disk) || LostBy(c, r.path, failed)
  {
    hide CoherentCycle, AllRows, CountPath, Remaining, ShardsLeft, Affected, Agrees, DirtyAfter, SortedRows, FreshRow, RebuildRows, LostBy, Fails;
    RowsOfLeft(c, newRows, failed);
    if r in NewLeft(c, newRows, failed) {
      assert r in newRows;
      FreshAgrees(c, r.path);
    } else {
      var i := OriginLeft(c, |c.shards|, failed, r);
      if Fails(c, i, failed) { StayingRow(c, i, failed, r); }
      else if Affected(c, i) { RewrittenRow(c, i, r); }
      else { UntouchedRow(c, i, r); }
    }
  }

  /** A file with something to report stays known exactly unless it is lost; but where a
      shard failed, a lost one may have its old row. */
  lemma KnownUnlessLost(c: Cycle, p: Bytes, failed: set<nat>)
    requires CoherentCycle(c) && p in c.disk && Visible(c.disk[p])
    ensures CountLeft(c, p, failed) == 0 && p !in DirtyAfter(c) ==> LostBy(c, p, failed)
  {
    hide OrderedShards, AllRows, CountPath, Affected, Agrees, Unique, IsBinary, Home, SeqAfter, RebuildRows;
    CountAtHome(c.shards, |c.shards|, p);
    assert c.shards[..|c.shards|] == c.shards;
    var h := Home(c.shards, p);
    if h >= 0 && !Fails(c, h, failed) { RebuildCount(c, c.shards[h].rows, p); }
  }

  lemma LostIsWrong(c: Cycle, newRows: seq<Row>, p: Bytes, failed: set<nat>)
    requires CoherentCycle(c) && NewRowsOf(c, newRows) && |c.dirty| > 0 && LostBy(c, p, failed)
    ensures !Coherent(AllRows(ShardsLeft(c, newRows, failed)), DirtyAfter(c), c.disk)
  {
    hide OrderedShards, AllRows, CountPath, Affected, Agrees, Unique, Home, ShardsLeft, Remaining, NewRowsOf, Visible, SeqAfter, RebuildRows, RowsAfter;
    CountsLeft(c, newRows, failed, p);
    var h := Home(c.shards, p);
    if h >= 0 && Fails(c, h, failed) {
      if CountPath(c.shards[h].rows, p) > 0 {
        var r :| r in c.shards[h].rows && r.path == p && !Agrees(r, c.disk);
        StaysIn(c, newRows, h, r, failed);
      }
    } else if h >= 0 {
      LostIsVisible(c, p);
      LostHasNone(c, p, h, failed);
    }
  }

  lemma LostHasNone(c: Cycle, p: Bytes, h: nat, failed: set<nat>)
    requires h < |c.shards| && Home(c.shards, p) == h && Lost(c, p) && !Fails(c, h, failed)
    ensures CountPath(RowsLeft(c, h, failed), p) == 0 && p !in DirtyAfter(c)
  {
    hide CountPath, Home, IsBinary, RebuildRows, SeqAfter;
    RebuildCount(c, c.shards[h].rows, p);
  }

  /** A shard that stays is in the list with all its rows. */
  lemma StaysIn(c: Cycle, newRows: seq<Row>, h: nat, r: Row, failed: set<nat>)
    requires |c.dirty| > 0 && h < |c.shards| && Fails(c, h, failed) && r in c.shards[h].rows
    ensures r in AllRows(ShardsLeft(c, newRows, failed))
  {
    hide AllRows, ShardsLeft, Remaining, Fails, CountPath;
    RowsOfLeft(c, newRows, failed);
    RemainingHas(c, |c.shards|, h, r, failed);
  }

  lemma {:induction false} RemainingHas(c: Cycle, n: nat, h: nat, r: Row, failed: set<nat>)
    requires h < n <= |c.shards| && r in RowsLeft(c, h, failed)
    ensures r in AllRows(Remaining(c, n, failed))
  {
    hide AllRows, RowsLeft, ShardLeft;
    AllRowsAppend(Remaining(c, n - 1, failed), ShardLeft(c, n - 1, failed));
    LeftRows(c, n - 1, failed);
    if h < n - 1 { RemainingHas(c, n - 1, h, r, failed); }
  }

  /** With shards that fail, rows and marks are coherent with the disk after the cycle
      exactly if no mark was dropped for a change that is not stored. */
  lemma FailingKeepsCoherent(c: Cycle, newRows: seq<Row>, failed: set<nat>)
    requires CoherentCycle(c) && NewRowsOf(c, newRows) && |c.dirty| > 0
    ensures Coherent(AllRows(ShardsLeft(c, newRows, failed)), DirtyAfter(c), c.disk) <==> forall p :: !LostBy(c, p, failed)
  {
    hide AllRows, ShardsLeft, NewRowsOf, CountLeft, LostBy, Visible, OrderedShards, Agrees, CountPath, Affected;
    var rows := AllRows(ShardsLeft(c, newRows, failed));
    forall p | LostBy(c, p, failed) ensures !Coherent(rows, DirtyAfter(c), c.disk) { LostIsWrong(c, newRows, p, failed); }
    forall r | r in rows ensures r.path in DirtyAfter(c) || Agrees(r, c.disk) || LostBy(c, r.path, failed) { RowsLeftAgree(c, newRows, failed, r); }
    forall p ensures CountPath(rows, p) == CountLeft(c, p, failed) <= 1 { CountsLeft(c, newRows, failed, p); }
    forall p | p in c.disk && Visible(c.disk[p])
      ensures CountPath(rows, p) == 0 && p !in DirtyAfter(c) ==> LostBy(c, p, failed)
    {
      KnownUnlessLost(c, p, failed);
    }
  }
}
