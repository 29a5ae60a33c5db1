/** The loops of a rebuild cycle (internal/shard/engine.go), each proved against what the
    cycle owes: counting dirty files per shard, choosing the shards to rewrite and the
    files to defer, rewriting one shard and all of them, building the shard for new
    files, and sorting the new list. */
module EngineSteps {
  import opened Prelude
  import opened Bytes
  import opened Literal
  import opened Lines
  import opened Ranges
  import opened EngineSpec
  import opened Rebuild
  import opened Failing

  // ---- counting dirty files per shard ----

  function DirtyAmong(c: Cycle, seen: set<Bytes>, i: int): set<Bytes> {
    set p | p in seen && Home(c.shards, p) == i
  }

  /** The counts cover the paths seen: a shard is listed when it has one. */
  ghost predicate Tallied(c: Cycle, seen: set<Bytes>, perShard: map<int, nat>) {
    && (forall i :: i in perShard <==> i >= 0 && DirtyAmong(c, seen, i) != {})
    && (forall i :: i in perShard ==> perShard[i] == |DirtyAmong(c, seen, i)|)
  }

  /** The tally after one more dirty file in shard `h`. */
  function Bump(perShard: map<int, nat>, h: int): map<int, nat> {
    if h < 0 then perShard else perShard[h := if h in perShard then perShard[h] + 1 else 1]
  }

  lemma TallyMore(c: Cycle, seen: set<Bytes>, perShard: map<int, nat>, p: Bytes)
    requires Tallied(c, seen, perShard) && p !in seen
    ensures Tallied(c, seen + {p}, Bump(perShard, Home(c.shards, p)))
  {
    hide Home, DirtyAmong;
    var h := Home(c.shards, p);
    OneDirtier(c, seen, p, h);
    forall i | i != h ensures DirtyAmong(c, seen + {p}, i) == DirtyAmong(c, seen, i) { NotDirtier(c, seen, p, i); }
  }

  lemma NotDirtier(c: Cycle, seen: set<Bytes>, p: Bytes, i: int)
    requires i != Home(c.shards, p)
    ensures DirtyAmong(c, seen + {p}, i) == DirtyAmong(c, seen, i)
  {
    hide Home;
  }

  lemma OneDirtier(c: Cycle, seen: set<Bytes>, p: Bytes, h: int)
    requires p !in seen && h == Home(c.shards, p)
    ensures |DirtyAmong(c, seen + {p}, h)| == |DirtyAmong(c, seen, h)| + 1
    ensures DirtyAmong(c, seen + {p}, h) != {} && (DirtyAmong(c, seen, h) == {} ==> |DirtyAmong(c, seen, h)| == 0)
  {
    hide Home;
    assert DirtyAmong(c, seen + {p}, h) == DirtyAmong(c, seen, h) + {p};
    assert p in DirtyAmong(c, seen + {p}, h);
  }

  predicate Unhoused(c: Cycle, p: Bytes) {
    p in c.dirty && !c.dirty[p] && Home(c.shards, p) == -1 && p in c.disk
  }

  function WalkOf(c: Cycle, p: Bytes): WalkFile
    requires p in c.disk
  {
    WalkFile(p, c.disk[p].size, c.disk[p].mtime)
  }

  /** The new files found among the paths seen, each once. */
  ghost predicate Listed(c: Cycle, seen: set<Bytes>, files: seq<WalkFile>) {
    && (forall f :: f in files ==> f.rel in seen && Unhoused(c, f.rel) && f == WalkOf(c, f.rel))
    && (forall p :: p in seen && Unhoused(c, p) ==> WalkOf(c, p) in files)
    && (forall i, j :: 0 <= i < j < |files| ==> files[i].rel != files[j].rel)
  }

  lemma ListMore(c: Cycle, seen: set<Bytes>, files: seq<WalkFile>, p: Bytes)
    requires Listed(c, seen, files) && p !in seen
    ensures Listed(c, seen + {p}, if Unhoused(c, p) then files + [WalkOf(c, p)] else files)
  {
    hide Unhoused;
    if Unhoused(c, p) { UnhousedOnDisk(c, p); }
    forall i | 0 <= i < |files| ensures files[i].rel in seen { assert files[i] in files; }
  }

  lemma UnhousedOnDisk(c: Cycle, p: Bytes)
    requires Unhoused(c, p)
    ensures p in c.disk
  {
  }

  /** Counts dirty files per shard, and collects those in no shard. */
  method Triage(c: Cycle) returns (perShard: map<int, nat>, files: seq<WalkFile>)
    requires SortedMins(RangesOf(c.shards))
    ensures Tallied(c, c.dirty.Keys, perShard) && Listed(c, c.dirty.Keys, files)
  {
    hide SortedMins, Tallied, Listed, ShardFor;
    perShard, files := map[], [];
    var todo := c.dirty.Keys;
    ghost var seen: set<Bytes> := {};
    NothingTriaged(c);
    while todo != {}
      invariant seen + todo == c.dirty.Keys && seen !! todo
      invariant Tallied(c, seen, perShard) && Listed(c, seen, files)
      decreases |todo|
    {
      var p :| p in todo;
      TallyMore(c, seen, perShard, p);
      ListMore(c, seen, files, p);
      var si := ShardForPath(RangesOf(c.shards), p);
      if si >= 0 {
        perShard := perShard[si := if si in perShard then perShard[si] + 1 else 1];
      } else if !c.dirty[p] {
        if p in c.disk { files := files + [WalkFile(p, c.disk[p].size, c.disk[p].mtime)]; }
      }
      todo, seen := todo - {p}, seen + {p};
    }
    assert seen == c.dirty.Keys;
  }

  lemma NothingTriaged(c: Cycle)
    ensures Tallied(c, {}, map[]) && Listed(c, {}, [])
  {
    hide Home;
    forall i ensures DirtyAmong(c, {}, i) == {} {}
  }

  // ---- choosing what to rewrite ----

  function AffectedSet(c: Cycle): set<int> {
    set i | 0 <= i < |c.shards| && Affected(c, i)
  }

  function DeferredSet(c: Cycle): set<Bytes> {
    set p | p in c.dirty && Deferred(c, p)
  }

  /** A dirty file of a shard below the threshold. */
  predicate Waits(c: Cycle, perShard: map<int, nat>, p: Bytes) {
    p in c.dirty && Home(c.shards, p) in perShard && perShard[Home(c.shards, p)] < c.threshold
  }

  /** Rewrites shards whose dirty count reaches the threshold and defers the dirty files
      of the others, unless little is dirty overall. */
  method Choose(c: Cycle, perShard: map<int, nat>) returns (affected: set<int>, deferred: set<Bytes>)
    requires Tallied(c, c.dirty.Keys, perShard)
    ensures affected == AffectedSet(c) && deferred == DeferredSet(c)
  {
    hide Tallied, AffectedSet, DeferredSet, Home;
    affected, deferred := {}, {};
    InRange(c, perShard);
    for si := 0 to |c.shards|
      invariant forall i :: i in affected <==> i in perShard && i < si && perShard[i] >= c.threshold
      invariant forall p :: p in deferred <==> Waits(c, perShard, p) && Home(c.shards, p) < si
    {
      if si !in perShard { continue; }
      if perShard[si] >= c.threshold {
        affected := affected + {si};
      } else {
        deferred := deferred + set p | p in c.dirty && Home(c.shards, p) == si;
      }
    }
    if |c.dirty| <= c.threshold {
      affected := affected + perShard.Keys;
      deferred := {};
    }
    Chosen(c, perShard, affected, deferred);
  }

  lemma InRange(c: Cycle, perShard: map<int, nat>)
    requires Tallied(c, c.dirty.Keys, perShard)
    ensures forall i :: i in perShard ==> 0 <= i < |c.shards|
  {
    hide ShardFor;
    forall i | i in perShard ensures 0 <= i < |c.shards| {
      var p :| p in DirtyAmong(c, c.dirty.Keys, i);
      assert Home(c.shards, p) == i;
    }
  }

  lemma Chosen(c: Cycle, perShard: map<int, nat>, affected: set<int>, deferred: set<Bytes>)
    requires Tallied(c, c.dirty.Keys, perShard)
    requires forall i :: i in affected <==> i in perShard && (perShard[i] >= c.threshold || |c.dirty| <= c.threshold)
    requires forall p :: p in deferred <==> Waits(c, perShard, p) && |c.dirty| > c.threshold
    ensures affected == AffectedSet(c) && deferred == DeferredSet(c)
  {
    hide Home, Affected;
    forall i ensures DirtyAmong(c, c.dirty.Keys, i) == DirtyIn(c, i) {}
    forall i | i >= 0 ensures i in affected <==> i < |c.shards| && Affected(c, i) { AffectedMeans(c, perShard, i); }
    forall p | p in c.dirty ensures p in deferred <==> Deferred(c, p) {
      var h := Home(c.shards, p);
      if h >= 0 {
        assert p in DirtyIn(c, h);
        AffectedMeans(c, perShard, h);
      }
    }
  }

  lemma AffectedMeans(c: Cycle, perShard: map<int, nat>, i: int)
    requires i >= 0 && (i in perShard <==> DirtyIn(c, i) != {}) && (i in perShard ==> perShard[i] == |DirtyIn(c, i)|)
    ensures i < |c.shards| && Affected(c, i) <==> i in perShard && (perShard[i] >= c.threshold || |c.dirty| <= c.threshold)
  {
    hide Home;
    if DirtyIn(c, i) != {} {
      var p :| p in DirtyIn(c, i);
      assert Home(c.shards, p) == i;
    }
  }

  // ---- rewriting one shard ----

  /** Reads every file of a shard again: dirty ones as they are now, the others under
      their old size and time. Deleted, missing and newly binary files are dropped. */
  method RewriteShard(c: Cycle, rows: seq<Row>) returns (out: seq<Row>)
    ensures out == RebuildRows(c, rows)
  {
    hide IsBinary, Tris;
    out := [];
    for i := 0 to |rows|
      invariant out == RebuildRows(c, rows[..i])
    {
      assert rows[..i + 1][..i] == rows[..i];
      var row := rows[i];
      if row.path in c.dirty {
        if c.dirty[row.path] { continue; }
        if row.path !in c.disk { continue; }
        var f := c.disk[row.path];
        if IsBinary(f.content) { continue; }
        out := out + [Row(row.path, f.size, f.mtime, Tris(f.content), InlineOf(c.inlineKB, f.content))];
      } else {
        if row.path !in c.disk { continue; }
        var content := c.disk[row.path].content;
        out := out + [Row(row.path, row.size, row.mtime, Tris(content), InlineOf(c.inlineKB, content))];
      }
    }
    assert rows[..|rows|] == rows;
  }

  /** Rows for files with sorted, distinct paths; binary files are left out. */
  method BuildRows(c: Cycle, files: seq<WalkFile>) returns (rows: seq<Row>)
    requires StrictlySorted(files) && Listed(c, c.dirty.Keys, files)
    ensures NewRowsOf(c, rows)
  {
    hide IsBinary, Tris, CountPath, Less, Home;
    rows := [];
    for i := 0 to |files|
      invariant SortedRows(rows) && forall r :: r in rows ==> IsNew(c, r.path) && r == FreshRow(c, r.path)
      invariant forall r, k :: r in rows && i <= k < |files| ==> Less(r.path, files[k].rel)
      invariant forall k :: 0 <= k < i && !IsBinary(c.disk[files[k].rel].content) ==> FreshRow(c, files[k].rel) in rows
    {
      var f := files[i];
      assert f in files;
      var content := c.disk[f.rel].content;
      if IsBinary(content) { continue; }
      rows := rows + [Row(f.rel, f.size, f.mtime, Tris(content), InlineOf(c.inlineKB, content))];
    }
    forall p | IsNew(c, p) ensures CountPath(rows, p) > 0 {
      assert WalkOf(c, p) in files;
      RowCounted(rows, FreshRow(c, p));
    }
  }

  // ---- the new list ----

  /** Sorts shards by their smallest path. */
  method SortedShards(l: seq<Shard>) returns (r: seq<Shard>)
    ensures r == SortShards(l)
  {
    hide ShardRange, LessEq;
    r := [];
    for i := 0 to |l|
      invariant r == SortShards(l[..i])
    {
      assert l[..i + 1][..i] == l[..i];
      var j := |r|;
      ghost var rest: seq<Shard> := [];
      assert r[..j] == r;
      while j > 0 && !LessEq(ShardRange(r[j - 1]).min, ShardRange(l[i]).min)
        invariant 0 <= j <= |r| && rest == r[j..]
        invariant InsertShard(r, l[i]) == InsertShard(r[..j], l[i]) + rest
      {
        assert r[..j][..j - 1] == r[..j - 1] && r[j - 1..] == [r[j - 1]] + r[j..];
        j, rest := j - 1, [r[j - 1]] + rest;
      }
      r := r[..j] + [l[i]] + r[j..];
    }
    assert l[..|l|] == l;
  }

  /** Drops the shards that ended up empty. */
  function Compacted(l: seq<Option<Shard>>): seq<Shard> {
    if |l| == 0 then []
    else Compacted(l[..|l| - 1]) + (if l[|l| - 1].Some? then [l[|l| - 1].value] else [])
  }

  method Compact(l: seq<Option<Shard>>) returns (r: seq<Shard>)
    ensures r == Compacted(l)
  {
    r := [];
    for i := 0 to |l|
      invariant r == Compacted(l[..i])
    {
      assert l[..i + 1][..i] == l[..i];
      if l[i].Some? { r := r + [l[i].value]; }
    }
    assert l[..|l|] == l;
  }

  /** The files that the first `n` shards of a cycle leave behind. */
  function OldFiles(c: Cycle, n: nat): seq<nat>
    requires n <= |c.shards|
  {
    if n == 0 then []
    else OldFiles(c, n - 1) + (if Affected(c, n - 1) then [c.shards[n - 1].seqNo] else [])
  }

  /** Rewrites the affected shards, each in its place. A shard whose number is in `failed`
      cannot be written or opened: the old one stays, and the number is used up. */
  method RewriteAll(c: Cycle, affected: set<int>, failed: set<nat>) returns (newShards: seq<Option<Shard>>, seqNo: nat, oldFiles: seq<nat>)
    requires affected == AffectedSet(c)
    ensures |newShards| == |c.shards| && Compacted(newShards) == Remaining(c, |c.shards|, failed)
    ensures seqNo == SeqAfter(c, |c.shards|) && oldFiles == LeftBehind(c, |c.shards|, failed)
  {
    hide Affected, RebuildRows;
    newShards := seq(|c.shards|, i requires 0 <= i < |c.shards| => Some(c.shards[i]));
    seqNo, oldFiles := c.seqNo, [];
    for si := 0 to |c.shards|
      invariant |newShards| == |c.shards| && forall k :: si <= k < |c.shards| ==> newShards[k] == Some(c.shards[k])
      invariant Compacted(newShards[..si]) == Remaining(c, si, failed)
      invariant seqNo == SeqAfter(c, si) && oldFiles == LeftBehind(c, si, failed)
    {
      assert newShards[..si + 1][..si] == newShards[..si];
      if si !in affected { continue; }
      var s := c.shards[si];
      var rows := RewriteShard(c, s.rows);
      if |rows| == 0 {
        newShards := newShards[si := None];
        oldFiles := oldFiles + [s.seqNo];
        assert newShards[..si + 1][..si] == newShards[..si];
        continue;
      }
      var number := seqNo;
      seqNo := seqNo + 1;
      if number in failed { continue; }
      newShards := newShards[si := Some(Shard(number, rows))];
      oldFiles := oldFiles + [s.seqNo];
      assert newShards[..si + 1][..si] == newShards[..si];
    }
    assert newShards[..|c.shards|] == newShards;
  }

  // ---- the shard for new files ----

  lemma ListedSorted(c: Cycle, files: seq<WalkFile>, sorted: seq<WalkFile>)
    requires Listed(c, c.dirty.Keys, files) && multiset(sorted) == multiset(files) && SortedFiles(sorted)
    ensures Listed(c, c.dirty.Keys, sorted) && StrictlySorted(sorted)
  {
    hide Unhoused, LessEq, Less;
    NoTwiceCounts(files);
    NoTwiceCounts(sorted);
    forall f ensures f in sorted <==> f in files {
      assert f in multiset(sorted) <==> f in multiset(files);
    }
    forall i, j | 0 <= i < j < |sorted| ensures sorted[i].rel != sorted[j].rel {
      assert sorted[i] in files && sorted[j] in files;
    }
    DistinctPaths(sorted);
  }
}
