/** The disk engine (internal/shard/engine.go): ordered immutable shards, a dirty list
    laid over them, and a background rebuild that folds the one into the other. Here are
    its object with the methods that change it, the first build and reconciling after a
    restart, each against the functions that say what shards and marks are owed. */
module Engine {
  import opened Prelude
  import opened Bytes
  import opened Literal
  import opened Lines
  import opened Ranges
  import opened EngineSpec
  import opened Rebuild
  import opened Failing
  import opened EngineSearch
  import opened EngineSteps

  /** The shard list as last written to disk. */
  datatype Manifest = Manifest(seqNo: nat, names: seq<nat>)

  function Names(shards: seq<Shard>): (ns: seq<nat>)
    ensures |ns| == |shards| && forall i :: 0 <= i < |ns| ==> ns[i] == shards[i].seqNo
  {
    seq(|shards|, i requires 0 <= i < |shards| => shards[i].seqNo)
  }

  /** Pending files that could not be removed. */
  function Stuck(pending: seq<nat>, stuck: set<nat>): seq<nat> {
    if |pending| == 0 then []
    else Stuck(pending[..|pending| - 1], stuck) + (if pending[|pending| - 1] in stuck then [pending[|pending| - 1]] else [])
  }

  // ---- reconcile ----

  /** The shards named that can be opened, in order. */
  function Opened(names: seq<nat>, files: map<nat, seq<Row>>, bad: set<nat>): seq<Shard> {
    if |names| == 0 then []
    else
      var n := names[|names| - 1];
      Opened(names[..|names| - 1], files, bad) + (if n in files && n !in bad then [Shard(n, files[n])] else [])
  }

  predicate SameStat(r: Row, disk: Disk) {
    r.path in disk && r.size == disk[r.path].size && r.mtime == disk[r.path].mtime
  }

  /** Rows whose file is gone or looks different are dirty, as is every file without a row. */
  ghost predicate Reconciled(rows: seq<Row>, disk: Disk, dirty: Dirty) {
    && (forall r :: r in rows && !SameStat(r, disk) ==> r.path in dirty)
    && (forall p :: p in disk && CountPath(rows, p) == 0 ==> p in dirty)
    && (forall p :: p in dirty ==> dirty[p] == (p !in disk))
    && (forall p :: p in dirty ==> (p in disk && CountPath(rows, p) == 0) || exists r :: r in rows && r.path == p && !SameStat(r, disk))
  }

  method OpenAll(names: seq<nat>, files: map<nat, seq<Row>>, bad: set<nat>) returns (shards: seq<Shard>)
    ensures shards == Opened(names, files, bad)
  {
    shards := [];
    for i := 0 to |names|
      invariant shards == Opened(names[..i], files, bad)
    {
      assert names[..i + 1][..i] == names[..i];
      var n := names[i];
      if n !in files || n in bad { continue; }
      shards := shards + [Shard(n, files[n])];
    }
    assert names[..|names|] == names;
  }

  /** The shard files left when those the manifest does not name are removed. */
  function Swept(files: map<nat, seq<Row>>, saved: Option<Manifest>, stuck: set<nat>): map<nat, seq<Row>> {
    map n | n in files && (n in stuck || (saved.Some? && n in saved.value.names)) :: files[n]
  }

  /** What is opened is still there, and what can be opened, afterwards. */
  lemma SweptKeepsNamed(files: map<nat, seq<Row>>, m: Manifest, bad: set<nat>, stuck: set<nat>)
    ensures Opened(m.names, Swept(files, Some(m), stuck), bad) == Opened(m.names, files, bad)
  {
    OpenedAlike(m.names, files, Swept(files, Some(m), stuck), bad);
  }

  /** Files under other names do not matter to the shards opened. */
  lemma {:induction false} OpenedAlike(names: seq<nat>, files: map<nat, seq<Row>>, files': map<nat, seq<Row>>, bad: set<nat>)
    requires forall n :: n in names ==> (n in files' <==> n in files) && (n in files ==> files'[n] == files[n])
    ensures Opened(names, files', bad) == Opened(names, files, bad)
  {
    if |names| > 0 {
      var k := |names| - 1;
      assert names[k] in names;
      OpenedAlike(names[..k], files, files', bad);
    }
  }

  /** Of the files still to be looked at none is removed yet; of the others only those that
      are valid or stuck are left. */
  ghost predicate SweptBut(files: map<nat, seq<Row>>, valid: set<nat>, stuck: set<nat>, todo: set<nat>, left: map<nat, seq<Row>>) {
    && (forall n :: n in left <==> n in files && (n in todo || n in stuck || n in valid))
    && (forall n :: n in left ==> left[n] == files[n])
  }

  lemma SweepNext(files: map<nat, seq<Row>>, valid: set<nat>, stuck: set<nat>, todo: set<nat>, left: map<nat, seq<Row>>, n: nat)
    requires SweptBut(files, valid, stuck, todo, left) && n in todo
    ensures SweptBut(files, valid, stuck, todo - {n}, if n !in valid && n !in stuck then left - {n} else left)
  {
  }

  lemma SweepEnds(files: map<nat, seq<Row>>, saved: Option<Manifest>, valid: set<nat>, stuck: set<nat>, left: map<nat, seq<Row>>)
    requires SweptBut(files, valid, stuck, {}, left)
    requires forall n :: n in valid <==> saved.Some? && n in saved.value.names
    ensures left == Swept(files, saved, stuck)
  {
  }

  lemma SweepStarts(files: map<nat, seq<Row>>, valid: set<nat>, stuck: set<nat>)
    ensures SweptBut(files, valid, stuck, files.Keys, files)
  {
  }

  method CleanOrphans(files: map<nat, seq<Row>>, saved: Option<Manifest>, stuck: set<nat>) returns (left: map<nat, seq<Row>>)
    ensures left == Swept(files, saved, stuck)
  {
    hide Swept, SweptBut;
    var valid: set<nat> := {};
    if saved.Some? {
      for i := 0 to |saved.value.names|
        invariant forall n :: n in valid <==> n in saved.value.names[..i]
      {
        assert saved.value.names[..i + 1] == saved.value.names[..i] + [saved.value.names[i]];
        valid := valid + {saved.value.names[i]};
      }
      assert saved.value.names[..|saved.value.names|] == saved.value.names;
    }
    left := files;
    var todo := files.Keys;
    SweepStarts(files, valid, stuck);
    while todo != {}
      invariant SweptBut(files, valid, stuck, todo, left)
      decreases |todo|
    {
      var n :| n in todo;
      SweepNext(files, valid, stuck, todo, left, n);
      todo := todo - {n};
      if n !in valid && n !in stuck { left := left - {n}; }
    }
    SweepEnds(files, saved, valid, stuck, left);
  }

  /** The stat data of the listing, by path. */
  method ByPath(disk: Disk, listing: seq<WalkFile>) returns (onDisk: map<Bytes, WalkFile>)
    requires Lists(listing, disk) && forall f :: f in listing ==> f.rel in disk
    ensures forall p :: p in onDisk <==> p in disk
    ensures forall p :: p in onDisk ==> onDisk[p] == WalkFile(p, disk[p].size, disk[p].mtime)
  {
    onDisk := map[];
    for i := 0 to |listing|
      invariant forall p :: p in onDisk <==> exists k :: 0 <= k < i && listing[k].rel == p
      invariant forall p :: p in onDisk ==> p in disk && onDisk[p] == WalkFile(p, disk[p].size, disk[p].mtime)
    {
      assert listing[i] in listing;
      onDisk := onDisk[listing[i].rel := listing[i]];
    }
    forall p | p in disk ensures p in onDisk {
      var k :| 0 <= k < |listing| && listing[k] == WalkFile(p, disk[p].size, disk[p].mtime);
      assert listing[k].rel == p;
    }
    forall p | p in onDisk ensures p in disk {
      var k :| 0 <= k < |listing| && listing[k].rel == p;
      assert listing[k] in listing;
    }
  }

  /** The marks for the rows looked at so far. */
  ghost predicate StaleMarked(rows: seq<Row>, disk: Disk, dirty: Dirty, inShard: set<Bytes>) {
    && (forall r :: r in rows && !SameStat(r, disk) ==> r.path in dirty)
    && (forall p :: p in dirty ==> dirty[p] == (p !in disk))
    && (forall p :: p in dirty ==> exists r :: r in rows && r.path == p && !SameStat(r, disk))
    && (forall p :: p in inShard <==> CountPath(rows, p) > 0)
  }

  lemma StaleNext(rows: seq<Row>, r: Row, disk: Disk, dirty: Dirty, inShard: set<Bytes>)
    requires StaleMarked(rows, disk, dirty, inShard)
    ensures StaleMarked(rows + [r], disk, if SameStat(r, disk) then dirty else dirty[r.path := r.path !in disk], inShard + {r.path})
  {
    hide SameStat;
    var dirty' := if SameStat(r, disk) then dirty else dirty[r.path := r.path !in disk];
    assert (rows + [r])[..|rows|] == rows;
    forall p | p in dirty' ensures exists t :: t in rows + [r] && t.path == p && !SameStat(t, disk) {
      if p in dirty {
        var t :| t in rows && t.path == p && !SameStat(t, disk);
        assert t in rows + [r];
      } else {
        assert r in rows + [r];
      }
    }
  }

  /** `dirty` is what was marked before, with `marks` made over it. */
  ghost predicate MarkedOver(was: Dirty, marks: Dirty, dirty: Dirty) {
    dirty == was + marks
  }

  lemma NothingOver(was: Dirty)
    ensures MarkedOver(was, map[], was)
  {
  }

  lemma OneMoreOver(was: Dirty, marks: Dirty, dirty: Dirty, p: Bytes, deleted: bool)
    requires MarkedOver(was, marks, dirty)
    ensures MarkedOver(was, marks[p := deleted], dirty[p := deleted])
  {
  }

  lemma NothingStale(disk: Disk)
    ensures StaleMarked([], disk, map[], {})
  {
  }

  lemma StaleDone(rows: seq<Row>, disk: Disk, dirty: Dirty, inShard: set<Bytes>, all: Dirty)
    requires StaleMarked(rows, disk, dirty, inShard)
    requires forall p :: p in all <==> p in dirty || (p in disk && p !in inShard)
    requires forall p :: p in all ==> all[p] == if p in disk && p !in inShard then false else dirty[p]
    ensures Reconciled(rows, disk, all)
  {
    hide SameStat, CountPath;
  }

  /** The marks for the files listed so far, over those for stale rows. */
  ghost predicate NewMarked(stale: Dirty, inShard: set<Bytes>, listing: seq<WalkFile>, k: nat, marks: Dirty)
    requires k <= |listing|
  {
    && (forall p :: p in marks <==> p in stale || (p !in inShard && ListedBefore(listing, k, p)))
    && (forall p :: p in marks ==> marks[p] == if p !in inShard && ListedBefore(listing, k, p) then false else p in stale && stale[p])
  }

  lemma NoneNew(stale: Dirty, inShard: set<Bytes>, listing: seq<WalkFile>)
    ensures NewMarked(stale, inShard, listing, 0, stale)
  {
  }

  lemma NextNew(stale: Dirty, inShard: set<Bytes>, listing: seq<WalkFile>, k: nat, marks: Dirty)
    requires k < |listing| && NewMarked(stale, inShard, listing, k, marks)
    ensures NewMarked(stale, inShard, listing, k + 1, if listing[k].rel !in inShard then marks[listing[k].rel := false] else marks)
  {
    hide ListedBefore;
    forall p ensures ListedBefore(listing, k + 1, p) <==> ListedBefore(listing, k, p) || p == listing[k].rel { ListedNext(listing, k, p); }
  }

  lemma ListedNext(listing: seq<WalkFile>, k: nat, p: Bytes)
    requires k < |listing|
    ensures ListedBefore(listing, k + 1, p) <==> ListedBefore(listing, k, p) || p == listing[k].rel
  {
    if p == listing[k].rel { assert listing[k].rel == p; }
  }

  lemma AllNew(rows: seq<Row>, disk: Disk, stale: Dirty, inShard: set<Bytes>, listing: seq<WalkFile>, marks: Dirty)
    requires Lists(listing, disk) && forall f :: f in listing ==> f.rel in disk
    requires StaleMarked(rows, disk, stale, inShard) && NewMarked(stale, inShard, listing, |listing|, marks)
    ensures Reconciled(rows, disk, marks)
  {
    hide ListedBefore, StaleMarked, Reconciled, Lists;
    forall p ensures p in disk <==> ListedBefore(listing, |listing|, p) { ListedIff(disk, listing, p); }
    StaleDone(rows, disk, stale, inShard, marks);
  }

  lemma NoShardRows()
    ensures AllRows([]) == []
  {
  }

  ghost predicate ListedBefore(listing: seq<WalkFile>, k: nat, p: Bytes)
    requires k <= |listing|
  {
    exists i :: 0 <= i < k && listing[i].rel == p
  }

  lemma ListedIff(disk: Disk, listing: seq<WalkFile>, p: Bytes)
    requires Lists(listing, disk) && forall f :: f in listing ==> f.rel in disk
    ensures p in disk <==> ListedBefore(listing, |listing|, p)
  {
    if p in disk {
      var k :| 0 <= k < |listing| && listing[k] == WalkFile(p, disk[p].size, disk[p].mtime);
      assert listing[k].rel == p;
    }
    if k :| 0 <= k < |listing| && listing[k].rel == p { assert listing[k] in listing; }
  }

  // ---- what a deleted directory marks ----

  function AllDeleted(s: set<Bytes>): Dirty {
    map p | p in s :: true
  }

  /** `marked` holds every stored path below `dir`, and only stored paths at or below it. */
  ghost predicate MarksUnder(shards: seq<Shard>, dir: Bytes, marked: set<Bytes>) {
    && (forall p :: p in marked ==> Under(dir, p) && CountPath(AllRows(shards), p) > 0)
    && (forall p :: dir + [SLASH] <= p && CountPath(AllRows(shards), p) > 0 ==> p in marked)
  }

  // ---- sorting keeps what lookups need ----

  lemma {:induction false} InsertSorted(l: seq<Shard>, s: Shard)
    requires SortedMins(RangesOf(l))
    ensures SortedMins(RangesOf(InsertShard(l, s)))
    ensures forall t :: Behind(l, t) && LessEq(ShardRange(s).min, ShardRange(t).min) ==> Behind(InsertShard(l, s), t)
  {
    hide SortedMins, ShardRange, LessEq, RangesOf, Behind;
    var n := |l| - 1;
    if n < 0 || LessEq(ShardRange(l[n]).min, ShardRange(s).min) {
      if n >= 0 { LastBehind(l, s); } else { EmptyBehind(s); }
      SortedSnoc(l, s);
      forall t | Behind(l, t) && LessEq(ShardRange(s).min, ShardRange(t).min) ensures Behind(l + [s], t) { BehindSnoc(l, s, t); }
    } else {
      assert l[..n] + [l[n]] == l;
      SortedSnoc(l[..n], l[n]);
      InsertSorted(l[..n], s);
      OtherWay(ShardRange(l[n]).min, ShardRange(s).min);
      SortedSnoc(InsertShard(l[..n], s), l[n]);
      forall t | Behind(l, t) && LessEq(ShardRange(s).min, ShardRange(t).min) ensures Behind(InsertShard(l, s), t) {
        BehindSnoc(l[..n], l[n], t);
        BehindSnoc(InsertShard(l[..n], s), l[n], t);
      }
    }
  }

  /** `t` starts no earlier than any shard of the list. */
  ghost predicate Behind(l: seq<Shard>, t: Shard) {
    forall i :: 0 <= i < |l| ==> LessEq(ShardRange(l[i]).min, ShardRange(t).min)
  }

  lemma BehindSnoc(l: seq<Shard>, s: Shard, t: Shard)
    ensures Behind(l + [s], t) <==> Behind(l, t) && LessEq(ShardRange(s).min, ShardRange(t).min)
  {
    hide ShardRange, LessEq;
    if Behind(l + [s], t) {
      forall i | 0 <= i < |l| ensures LessEq(ShardRange(l[i]).min, ShardRange(t).min) { assert (l + [s])[i] == l[i]; }
      assert (l + [s])[|l|] == s;
    }
  }

  lemma SortedSnoc(l: seq<Shard>, s: Shard)
    ensures SortedMins(RangesOf(l + [s])) <==> SortedMins(RangesOf(l)) && Behind(l, s)
  {
    hide ShardRange, Less;
    var a, b := RangesOf(l), RangesOf(l + [s]);
    assert forall i :: 0 <= i < |l| ==> b[i] == a[i];
    assert b[|l|] == ShardRange(s);
    if SortedMins(b) {
      assert SortedMins(a);
      forall i | 0 <= i < |l| ensures LessEq(ShardRange(l[i]).min, ShardRange(s).min) { assert LessEq(b[i].min, b[|l|].min); }
    }
  }

  lemma EmptyBehind(t: Shard)
    ensures Behind([], t) && SortedMins(RangesOf([]))
  {
  }

  lemma LastBehind(l: seq<Shard>, t: Shard)
    requires SortedMins(RangesOf(l)) && |l| > 0 && LessEq(ShardRange(l[|l| - 1]).min, ShardRange(t).min)
    ensures Behind(l, t)
  {
    hide ShardRange, Less, LessEq;
    forall i | 0 <= i < |l| ensures LessEq(ShardRange(l[i]).min, ShardRange(t).min) {
      InOrder(l, i, |l| - 1);
      LessEqTransitive(ShardRange(l[i]).min, ShardRange(l[|l| - 1]).min, ShardRange(t).min);
    }
  }

  lemma OtherWay(a: Bytes, b: Bytes)
    requires !LessEq(a, b)
    ensures LessEq(b, a)
  {
    LessOrGeq(b, a);
  }

  lemma {:induction false} SortSorts(l: seq<Shard>)
    requires AllWellFormed(l)
    ensures SortedMins(RangesOf(SortShards(l))) && AllWellFormed(SortShards(l))
  {
    hide SortedMins, ShardRange, RangesOf, InsertShard, WellFormed;
    if |l| == 0 {
      EmptyBehind(Shard(0, []));
    } else {
      SortSorts(l[..|l| - 1]);
      InsertSorted(SortShards(l[..|l| - 1]), l[|l| - 1]);
      InsertWellFormed(SortShards(l[..|l| - 1]), l[|l| - 1]);
    }
  }

  // ---- the engine ----

  /** Paths stored at or below `dir` in the shards looked at. */
  method StoredUnder(rows: seq<Row>, dir: Bytes) returns (found: set<Bytes>)
    ensures forall p :: p in found <==> Under(dir, p) && CountPath(rows, p) > 0
  {
    hide CountPath, Under;
    found := {};
    NoneStored(dir);
    for i := 0 to |rows|
      invariant forall p :: p in found <==> Under(dir, p) && CountPath(rows[..i], p) > 0
    {
      OneMore(rows, i);
      var p := rows[i].path;
      if p == dir || dir + [SLASH] <= p {
        assert Under(dir, p) by { UnderMeans(p, dir); }
        found := found + {p};
      } else {
        UnderMeans(p, dir);
      }
    }
    assert rows[..|rows|] == rows;
  }

  lemma UnderMeans(p: Bytes, dir: Bytes)
    ensures Under(dir, p) <==> p == dir || dir + [SLASH] <= p
  {
  }

  lemma NoneStored(dir: Bytes)
    ensures forall p :: CountPath([], p) == 0
  {
  }

  lemma OneMore(rows: seq<Row>, i: nat)
    requires i < |rows|
    ensures forall p :: CountPath(rows[..i + 1], p) == CountPath(rows[..i], p) + OneIf(rows[i].path == p)
  {
    assert rows[..i + 1][..i] == rows[..i];
  }

  /** The rows of a few shards, as far as one path below a prefix is concerned. */
  lemma {:induction false} CountInOne(shards: seq<Shard>, p: Bytes) returns (i: nat)
    requires CountPath(AllRows(shards), p) > 0
    ensures i < |shards| && CountPath(shards[i].rows, p) > 0
  {
    hide CountPath;
    if |shards| == 0 { NoRows(p); }
    var n := |shards| - 1;
    CountAppend(AllRows(shards[..n]), shards[n].rows, p);
    if CountPath(shards[n].rows, p) > 0 { i := n; } else { i := CountInOne(shards[..n], p); }
  }

  lemma CountIsStored(shards: seq<Shard>, i: nat, p: Bytes)
    requires i < |shards| && CountPath(shards[i].rows, p) > 0
    ensures CountPath(AllRows(shards), p) > 0
  {
    hide CountPath, AllRows;
    var r := SomeRow(shards[i].rows, p);
    InAllRows(shards, i, r);
    RowCounted(AllRows(shards), r);
  }

  lemma CoveredByShard(shards: seq<Shard>, i: nat, p: Bytes)
    requires AllWellFormed(shards) && i < |shards| && CountPath(shards[i].rows, p) > 0
    ensures Covers(RangesOf(shards)[i], p)
  {
    hide CountPath, Covers, WellFormed;
    var r := SomeRow(shards[i].rows, p);
    RowCovered(shards[i], r);
  }

  /** Dirty paths once the marks made during the cycle are in and the cycle's own are
      dropped: a mark goes when its path was not deferred and its entry still looks the same. */
  function Cleared(c: Cycle, marks: Dirty): Dirty {
    map p | p in (c.dirty + marks).Keys && !(p in c.dirty && !Deferred(c, p) && (c.dirty + marks)[p] == c.dirty[p]) :: (c.dirty + marks)[p]
  }

  class DiskEngine {
    const threshold: int
    const inlineKB: int
    var shards: seq<Shard>
    var seqNo: nat
    var dirty: Dirty
    var pending: seq<nat>
    var manifest: Manifest

    /** Shards are nonempty, sorted inside, and sorted by their smallest path. */
    ghost predicate Valid()
      reads this
    {
      SortedMins(RangesOf(shards)) && AllWellFormed(shards)
    }

    /** The cycle a rebuild would run now. */
    function Now(disk: Disk): Cycle
      reads this
    {
      Cycle(shards, seqNo, dirty, disk, threshold, inlineKB)
    }

    constructor (threshold: int, inlineKB: int)
      ensures Valid() && shards == [] && dirty == map[] && seqNo == 0 && pending == []
      ensures this.threshold == threshold && this.inlineKB == inlineKB
    {
      this.threshold, this.inlineKB := threshold, inlineKB;
      shards, seqNo, dirty, pending, manifest := [], 0, map[], [], Manifest(0, []);
      new;
      EmptyBehind(Shard(0, []));
    }

    method MarkDirty(rel: Bytes)
      modifies this`dirty
      ensures dirty == old(dirty)[rel := false]
    {
      dirty := dirty[rel := false];
    }

    method MarkDeleted(rel: Bytes)
      modifies this`dirty
      ensures dirty == old(dirty)[rel := true]
    {
      dirty := dirty[rel := true];
    }

    /** Marks all stored paths below a directory as deleted. */
    method MarkDeletedPrefix(dir: Bytes) returns (ghost marked: set<Bytes>)
      requires Valid()
      modifies this`dirty
      ensures MarksUnder(shards, dir, marked)
      ensures dirty == old(dirty) + AllDeleted(marked)
    {
      hide CountPath, AllRows, SortedMins, AllWellFormed, Covers, Under;
      var prefix := dir + [SLASH];
      var indices := ShardsForPrefix(RangesOf(shards), prefix);
      var toDelete: set<Bytes> := {};
      forall j | 0 <= j < |indices| ensures indices[j] < |shards| { assert indices[j] in indices; }
      for k := 0 to |indices|
        invariant dirty == old(dirty)
        invariant forall p :: p in toDelete ==> Under(dir, p) && CountPath(AllRows(shards), p) > 0
        invariant forall j, p :: 0 <= j < k && Under(dir, p) && CountPath(shards[indices[j]].rows, p) > 0 ==> p in toDelete
      {
        assert indices[k] in indices;
        var si := indices[k];
        var found := StoredUnder(shards[si].rows, dir);
        forall p | p in found ensures CountPath(AllRows(shards), p) > 0 { CountIsStored(shards, si, p); }
        toDelete := toDelete + found;
      }
      marked := toDelete;
      forall p | dir + [SLASH] <= p && CountPath(AllRows(shards), p) > 0 ensures p in marked {
        var i := CountInOne(shards, p);
        CoveredByShard(shards, i, p);
        assert i in indices;
        UnderMeans(p, dir);
      }
      dirty := dirty + AllDeleted(toDelete);
    }

    /** Answers from the shards as they are and a copy of the dirty list. */
    method Search(disk: Disk, q: Query) returns (res: Found)
      requires q.m.rare.Some? ==> q.m.rare.value in q.m.plain
      ensures Answers(res, AllRows(shards), dirty, disk, q)
      ensures Coherent(AllRows(shards), dirty, disk) && PruningOk(q) ==> Tells(res, disk, q)
    {
      hide Answers, Tells, Coherent, PruningOk, AllRows;
      res := SearchSnapshot(shards, dirty, disk, q);
      if Coherent(AllRows(shards), dirty, disk) && PruningOk(q) { CoherentTells(res, AllRows(shards), dirty, disk, q); }
    }

    /** One cycle. `marks` are the marks others made while it ran, `stuck` the files that
        cannot be removed just now, `failed` the numbers of shards that cannot be written or
        opened, and `unwritten` says that the manifest cannot be written. */
    method Rebuild(disk: Disk, marks: Dirty, stuck: set<nat>, failed: set<nat>, unwritten: bool) returns (ghost newRows: seq<Row>)
      requires Valid()
      modifies this
      ensures Valid()
      ensures var c := old(Now(disk));
        && NewRowsOf(c, newRows) && shards == ShardsLeft(c, newRows, failed)
        && (|c.dirty| == 0 ==> dirty == marks && seqNo == old(seqNo) && pending == old(pending) && manifest == old(manifest))
        && (|c.dirty| > 0 ==>
            && dirty == Cleared(c, marks)
            && seqNo == SeqAfter(c, |c.shards|) + OneIf(newRows != [])
            && manifest == (if unwritten then old(manifest) else Manifest(seqNo, Names(shards)))
            && pending == Stuck(old(pending), stuck) + LeftBehind(c, |c.shards|, failed))
    {
      hide SortedMins, AllWellFormed, RangesOf, NewRowsOf, ShardsLeft, SeqAfter, Cleared, LeftBehind, Stuck, Names, DeferredSet;
      var c := Now(disk);
      newRows := [];
      if |dirty| == 0 {
        NothingMarked(c, failed);
        dirty := marks;
        return;
      }
      var next, seq', oldFiles, deferred;
      next, seq', oldFiles, deferred, newRows := RunCycle(c, failed);
      var remaining := CleanPending(pending, stuck);
      shards, seqNo := next, seq';
      if !unwritten { manifest := Manifest(seqNo, Names(shards)); }
      pending := remaining + oldFiles;
      dirty := ClearProcessed(c, dirty + marks, marks, deferred);
    }

    /** Builds all shards of a root for the first time from the walker's listing. One that
        cannot be written or opened, its number being in `failed`, ends it with nothing
        in use; `unwritten` says that the manifest cannot be written. */
    method FullBuild(disk: Disk, files: seq<WalkFile>, target: int, min: int, failed: set<nat>, unwritten: bool, ghost largest: nat)
      returns (ok: bool)
      requires AtMost(files, largest)
      modifies this
      ensures dirty == old(dirty) && pending == old(pending)
      ensures failed == {} ==> ok
      ensures !ok ==> shards == old(shards) && seqNo == old(seqNo) && manifest == old(manifest)
      ensures ok && Lists(files, disk) ==> Valid() && OrderedShards(shards) && Coherent(AllRows(shards), map[], disk)
      ensures ok ==> seqNo == |shards| && manifest == if unwritten then old(manifest) else Manifest(seqNo, Names(shards))
      ensures ok ==> forall i :: 0 <= i < |shards| ==> shards[i].seqNo == i && i !in failed
    {
      hide Lists, OrderedShards, Coherent, AllRows, SortedMins, AllWellFormed, RangesOf, Flatten, SortedFiles, BatchRows, WellBatched;
      var sorted, batches := GroupByDirBoundary(files, target, min, largest);
      var built := [];
      StartBuild(disk, inlineKB);
      for i := 0 to |batches|
        invariant dirty == old(dirty) && pending == old(pending)
        invariant shards == old(shards) && seqNo == old(seqNo) && manifest == old(manifest)
        invariant AllRows(built) == BatchRows(disk, inlineKB, Flatten(batches[..i]))
        invariant forall k :: 0 <= k < |built| ==> built[k].seqNo == k && built[k].rows != [] && k !in failed
      {
        var rows := BuildBatch(disk, inlineKB, batches[i]);
        NextBatch(disk, inlineKB, batches, i, built, rows);
        if |rows| == 0 { continue; }
        if |built| in failed { return false; }
        built := built + [Shard(|built|, rows)];
      }
      assert batches[..|batches|] == batches;
      if Lists(files, disk) { FirstBuild(disk, inlineKB, files, sorted, built); }
      shards, seqNo := built, |built|;
      if !unwritten { manifest := Manifest(seqNo, Names(shards)); }
      ok := true;
    }

    /** Marks stale rows, and files that have no row, whatever the watcher has marked so far. */
    method MarkStale(disk: Disk, listing: seq<WalkFile>) returns (ghost marks: Dirty)
      requires Lists(listing, disk) && forall f :: f in listing ==> f.rel in disk
      modifies this`dirty
      ensures Reconciled(AllRows(shards), disk, marks) && MarkedOver(old(dirty), marks, dirty)
    {
      hide AllRows, StaleMarked, Reconciled, CountPath, MarkedOver, NewMarked, Lists;
      var onDisk := ByPath(disk, listing);
      var inShard: set<Bytes> := {};
      ghost var rows: seq<Row> := [];
      marks := map[];
      NothingOver(dirty);
      NothingStale(disk);
      NoShardRows();
      for i := 0 to |shards|
        invariant rows == AllRows(shards[..i]) && StaleMarked(rows, disk, marks, inShard)
        invariant MarkedOver(old(dirty), marks, dirty)
      {
        assert shards[..i + 1] == shards[..i] + [shards[i]];
        AllRowsSnoc(shards[..i], shards[i]);
        for j := 0 to |shards[i].rows|
          invariant rows == AllRows(shards[..i]) + shards[i].rows[..j] && StaleMarked(rows, disk, marks, inShard)
          invariant MarkedOver(old(dirty), marks, dirty)
        {
          var fm := shards[i].rows[j];
          StaleNext(rows, fm, disk, marks, inShard);
          inShard := inShard + {fm.path};
          if fm.path !in onDisk || onDisk[fm.path].size != fm.size || onDisk[fm.path].mtime != fm.mtime {
            OneMoreOver(old(dirty), marks, dirty, fm.path, fm.path !in onDisk);
            dirty := dirty[fm.path := fm.path !in onDisk];
            marks := marks[fm.path := fm.path !in onDisk];
          }
          rows := rows + [fm];
        }
      }
      assert shards[..|shards|] == shards;
      ghost var stale := marks;
      NoneNew(stale, inShard, listing);
      for k := 0 to |listing|
        invariant NewMarked(stale, inShard, listing, k, marks) && MarkedOver(old(dirty), marks, dirty)
      {
        NextNew(stale, inShard, listing, k, marks);
        if listing[k].rel !in inShard {
          OneMoreOver(old(dirty), marks, dirty, listing[k].rel, false);
          dirty := dirty[listing[k].rel := false];
          marks := marks[listing[k].rel := false];
        }
      }
      AllNew(AllRows(shards), disk, stale, inShard, listing, marks);
    }

    /** Loads the shards of the manifest, removes the files it does not name, and compares
        the shards' files with the walker's listing. `stuck` are files that cannot be
        removed just now. */
    method Reconcile(files: map<nat, seq<Row>>, saved: Option<Manifest>, bad: set<nat>, stuck: set<nat>, disk: Disk, listing: seq<WalkFile>)
      returns (left: map<nat, seq<Row>>, ghost marks: Dirty)
      requires Lists(listing, disk) && forall f :: f in listing ==> f.rel in disk
      modifies this
      ensures shards == match saved case None => [] case Some(m) => Opened(m.names, files, bad)
      ensures seqNo == match saved case None => 0 case Some(m) => m.seqNo
      ensures left == Swept(files, saved, stuck)
      ensures Reconciled(AllRows(shards), disk, marks) && MarkedOver(old(dirty), marks, dirty)
    {
      hide AllRows, Opened, Reconciled, Lists, Swept, MarkedOver;
      shards, seqNo := [], 0;
      if saved.Some? {
        seqNo := saved.value.seqNo;
        shards := OpenAll(saved.value.names, files, bad);
      }
      left := CleanOrphans(files, saved, stuck);
      marks := MarkStale(disk, listing);
    }
  }

  // ---- the first build ----

  /** The walker listed each file on disk once, as it is there. A file gone since may be listed too. */
  ghost predicate Lists(files: seq<WalkFile>, disk: Disk) {
    && (forall i, j :: 0 <= i < j < |files| ==> files[i].rel != files[j].rel)
    && (forall f :: f in files && f.rel in disk ==> f.size == disk[f.rel].size && f.mtime == disk[f.rel].mtime)
    && (forall p :: p in disk ==> WalkFile(p, disk[p].size, disk[p].mtime) in files)
  }

  /** The row for a listed file: none if it is gone or binary. */
  function FileRow(disk: Disk, inlineKB: int, f: WalkFile): seq<Row> {
    if f.rel !in disk || IsBinary(disk[f.rel].content) then []
    else [Row(f.rel, f.size, f.mtime, Tris(disk[f.rel].content), InlineOf(inlineKB, disk[f.rel].content))]
  }

  function BatchRows(disk: Disk, inlineKB: int, files: seq<WalkFile>): seq<Row> {
    if |files| == 0 then [] else BatchRows(disk, inlineKB, files[..|files| - 1]) + FileRow(disk, inlineKB, files[|files| - 1])
  }

  lemma {:induction false} BatchRowsAppend(disk: Disk, inlineKB: int, a: seq<WalkFile>, b: seq<WalkFile>)
    ensures BatchRows(disk, inlineKB, a + b) == BatchRows(disk, inlineKB, a) + BatchRows(disk, inlineKB, b)
  {
    hide FileRow;
    if |b| == 0 {
      assert a + b == a;
    } else {
      var n := |b| - 1;
      assert (a + b)[..|a + b| - 1] == a + b[..n];
      BatchRowsAppend(disk, inlineKB, a, b[..n]);
    }
  }

  method BuildBatch(disk: Disk, inlineKB: int, batch: seq<WalkFile>) returns (rows: seq<Row>)
    ensures rows == BatchRows(disk, inlineKB, batch)
  {
    hide IsBinary, Tris, InlineOf;
    rows := [];
    for i := 0 to |batch|
      invariant rows == BatchRows(disk, inlineKB, batch[..i])
    {
      assert batch[..i + 1][..i] == batch[..i];
      var f := batch[i];
      if f.rel !in disk { continue; }
      var content := disk[f.rel].content;
      if IsBinary(content) { continue; }
      rows := rows + [Row(f.rel, f.size, f.mtime, Tris(content), InlineOf(inlineKB, content))];
    }
    assert batch[..|batch|] == batch;
  }

  lemma StartBuild(disk: Disk, inlineKB: int)
    ensures AllRows([]) == [] && forall b: seq<seq<WalkFile>> :: BatchRows(disk, inlineKB, Flatten(b[..0])) == []
  {
  }

  lemma NextBatch(disk: Disk, inlineKB: int, batches: seq<seq<WalkFile>>, i: nat, built: seq<Shard>, rows: seq<Row>)
    requires i < |batches| && AllRows(built) == BatchRows(disk, inlineKB, Flatten(batches[..i])) && rows == BatchRows(disk, inlineKB, batches[i])
    ensures BatchRows(disk, inlineKB, Flatten(batches[..i + 1])) == AllRows(built) + rows == AllRows(built + [Shard(|built|, rows)])
  {
    hide AllRows, BatchRows, Flatten;
    assert batches[..i + 1] == batches[..i] + [batches[i]];
    FlattenSnoc(batches[..i], batches[i]);
    BatchRowsAppend(disk, inlineKB, Flatten(batches[..i]), batches[i]);
    AllRowsSnoc(built, Shard(|built|, rows));
  }

  /** Nonempty shards whose rows are sorted throughout have ordered ranges. */
  lemma {:induction false} SortedThroughout(shards: seq<Shard>)
    requires SortedRows(AllRows(shards)) && forall i :: 0 <= i < |shards| ==> shards[i].rows != []
    ensures OrderedRanges(RangesOf(shards)) && AllWellFormed(shards)
    ensures |shards| > 0 ==> AllRows(shards) != [] && AllRows(shards)[|AllRows(shards)| - 1].path == ShardRange(shards[|shards| - 1]).max
    ensures forall i :: 0 <= i < |shards| ==> exists k :: 0 <= k < |AllRows(shards)| && AllRows(shards)[k].path == ShardRange(shards[i]).max
  {
    hide Less, OrderedRanges, RangesOf, Before, Sound;
    var n := |shards| - 1;
    if n < 0 {
      NoRanges();
    } else {
      var a, b := AllRows(shards[..n]), shards[n].rows;
      var all := AllRows(shards);
      assert all == a + b;
      assert shards == shards[..n] + [shards[n]];
      PrefixSorted(a, b);
      SortedThroughout(shards[..n]);
      assert all[|all| - 1] == b[|b| - 1];
      forall i | 0 <= i < |shards| ensures exists k :: 0 <= k < |all| && all[k].path == ShardRange(shards[i]).max {
        if i < n {
          var k :| 0 <= k < |a| && a[k].path == ShardRange(shards[..n][i]).max;
          assert all[k] == a[k];
        } else {
          assert all[|all| - 1].path == ShardRange(shards[i]).max;
        }
      }
      OneSound(shards[n]);
      LastComesAfter(shards[..n], shards[n], a, b);
      OrderedSnoc(shards[..n], shards[n]);
      WellFormedSnoc(shards[..n], shards[n]);
    }
  }

  lemma PrefixSorted(a: seq<Row>, b: seq<Row>)
    requires SortedRows(a + b)
    ensures SortedRows(a) && SortedRows(b) && forall i, j :: 0 <= i < |a| && 0 <= j < |b| ==> Less(a[i].path, b[j].path)
  {
    hide Less;
    forall i, j | 0 <= i < j < |a| ensures Less(a[i].path, a[j].path) { assert (a + b)[i] == a[i] && (a + b)[j] == a[j]; }
    forall i, j | 0 <= i < j < |b| ensures Less(b[i].path, b[j].path) { assert (a + b)[|a| + i] == b[i] && (a + b)[|a| + j] == b[j]; }
    forall i, j | 0 <= i < |a| && 0 <= j < |b| ensures Less(a[i].path, b[j].path) { assert (a + b)[i] == a[i] && (a + b)[|a| + j] == b[j]; }
  }

  lemma OneSound(s: Shard)
    requires WellFormed(s)
    ensures Sound(ShardRange(s))
  {
    hide Less;
  }

  lemma LastComesAfter(l: seq<Shard>, s: Shard, a: seq<Row>, b: seq<Row>)
    requires s.rows == b && b != [] && forall i, j :: 0 <= i < |a| && 0 <= j < |b| ==> Less(a[i].path, b[j].path)
    requires forall i :: 0 <= i < |l| ==> exists k :: 0 <= k < |a| && a[k].path == ShardRange(l[i]).max
    ensures Before(l, s)
  {
    hide Less;
    forall i | 0 <= i < |l| ensures Less(ShardRange(l[i]).max, ShardRange(s).min) {
      var k :| 0 <= k < |a| && a[k].path == ShardRange(l[i]).max;
      assert Less(a[k].path, b[0].path);
    }
  }

  ghost predicate RowFrom(disk: Disk, inlineKB: int, files: seq<WalkFile>, r: Row) {
    exists i :: 0 <= i < |files| && [r] == FileRow(disk, inlineKB, files[i])
  }

  /** Each row is that of a file listed, and no listed file's row is missing. */
  lemma {:induction false} BatchRowsFrom(disk: Disk, inlineKB: int, files: seq<WalkFile>)
    ensures forall r :: r in BatchRows(disk, inlineKB, files) ==> RowFrom(disk, inlineKB, files, r)
    ensures forall i :: 0 <= i < |files| && FileRow(disk, inlineKB, files[i]) != [] ==> FileRow(disk, inlineKB, files[i])[0] in BatchRows(disk, inlineKB, files)
  {
    hide FileRow;
    if |files| > 0 {
      var n := |files| - 1;
      BatchRowsFrom(disk, inlineKB, files[..n]);
      AtMostOneRow(disk, inlineKB, files[n]);
      forall r | r in BatchRows(disk, inlineKB, files) ensures RowFrom(disk, inlineKB, files, r) {
        if r in BatchRows(disk, inlineKB, files[..n]) {
          var i :| 0 <= i < n && [r] == FileRow(disk, inlineKB, files[..n][i]);
          assert [r] == FileRow(disk, inlineKB, files[i]);
        } else {
          assert [r] == FileRow(disk, inlineKB, files[n]);
        }
      }
      forall i | 0 <= i < n && FileRow(disk, inlineKB, files[i]) != []
        ensures FileRow(disk, inlineKB, files[i])[0] in BatchRows(disk, inlineKB, files[..n])
      {
        assert files[..n][i] == files[i];
      }
    }
  }

  lemma AtMostOneRow(disk: Disk, inlineKB: int, f: WalkFile)
    ensures |FileRow(disk, inlineKB, f)| <= 1 && forall r :: r in FileRow(disk, inlineKB, f) ==> r.path == f.rel
  {
    hide Tris, IsBinary, InlineOf;
  }

  /** Rows of strictly sorted files are sorted. */
  lemma {:induction false} BatchRowsSorted(disk: Disk, inlineKB: int, files: seq<WalkFile>)
    requires StrictlySorted(files)
    ensures SortedRows(BatchRows(disk, inlineKB, files))
  {
    hide Less, FileRow, RowFrom;
    if |files| > 0 {
      var n := |files| - 1;
      BatchRowsSorted(disk, inlineKB, files[..n]);
      BatchRowsFrom(disk, inlineKB, files[..n]);
      AtMostOneRow(disk, inlineKB, files[n]);
      var before := BatchRows(disk, inlineKB, files[..n]);
      forall k | 0 <= k < |before| ensures Less(before[k].path, files[n].rel) { EarlierRow(disk, inlineKB, files, n, before[k]); }
    }
  }

  lemma EarlierRow(disk: Disk, inlineKB: int, files: seq<WalkFile>, n: nat, r: Row)
    requires StrictlySorted(files) && n < |files| && RowFrom(disk, inlineKB, files[..n], r)
    ensures Less(r.path, files[n].rel)
  {
    hide Less, FileRow;
    var i :| 0 <= i < n && [r] == FileRow(disk, inlineKB, files[..n][i]);
    AtMostOneRow(disk, inlineKB, files[i]);
    assert r in FileRow(disk, inlineKB, files[i]);
  }

  lemma ListedStrictly(files: seq<WalkFile>, disk: Disk, sorted: seq<WalkFile>)
    requires Lists(files, disk) && SortedFiles(sorted) && multiset(sorted) == multiset(files)
    ensures Lists(sorted, disk) && StrictlySorted(sorted)
  {
    hide LessEq, Less;
    forall f ensures f in sorted <==> f in files { assert f in multiset(sorted) <==> f in multiset(files); }
    NoTwiceCounts(files);
    NoTwiceCounts(sorted);
    SameRelSame(files);
    forall i, j | 0 <= i < j < |sorted| ensures sorted[i].rel != sorted[j].rel {
      assert sorted[i] in files && sorted[j] in files;
    }
    DistinctPaths(sorted);
  }

  lemma SameRelSame(files: seq<WalkFile>)
    requires forall i, j :: 0 <= i < j < |files| ==> files[i].rel != files[j].rel
    ensures forall f, g :: f in files && g in files && f.rel == g.rel ==> f == g
  {
  }

  lemma FirstBuild(disk: Disk, inlineKB: int, files: seq<WalkFile>, sorted: seq<WalkFile>, built: seq<Shard>)
    requires Lists(files, disk) && SortedFiles(sorted) && multiset(sorted) == multiset(files)
    requires AllRows(built) == BatchRows(disk, inlineKB, sorted) && forall k :: 0 <= k < |built| ==> built[k].rows != []
    ensures OrderedShards(built) && Coherent(AllRows(built), map[], disk)
    ensures SortedMins(RangesOf(built)) && AllWellFormed(built)
  {
    hide AllRows, BatchRows, Flatten, SortedFiles, OrderedRanges, StrictlySorted, SortedRows, CountPath, Tris, IsBinary, InlineOf, WellFormed;
    ListedStrictly(files, disk, sorted);
    BatchRowsSorted(disk, inlineKB, sorted);
    BatchRowsFrom(disk, inlineKB, sorted);
    SortedThroughout(built);
    OrderedAreSorted(RangesOf(built));
    var rows := AllRows(built);
    forall r | r in rows ensures Agrees(r, disk) {
      var i :| 0 <= i < |sorted| && [r] == FileRow(disk, inlineKB, sorted[i]);
      FileRowAgrees(disk, inlineKB, sorted[i], r);
    }
    forall p | p in disk && Visible(disk[p]) ensures CountPath(rows, p) > 0 {
      var f := WalkFile(p, disk[p].size, disk[p].mtime);
      var i :| 0 <= i < |sorted| && sorted[i] == f;
      RowCounted(rows, FileRow(disk, inlineKB, f)[0]);
    }
    forall p ensures CountPath(rows, p) <= 1 { SortedCount(rows, p); }
  }

  lemma FileRowAgrees(disk: Disk, inlineKB: int, f: WalkFile, r: Row)
    requires [r] == FileRow(disk, inlineKB, f)
    requires f.rel in disk ==> f.size == disk[f.rel].size && f.mtime == disk[f.rel].mtime
    ensures Agrees(r, disk)
  {
    hide Tris, IsBinary;
  }

  /** Everything a cycle computes before it publishes. */
  method RunCycle(c: Cycle, failed: set<nat>)
    returns (next: seq<Shard>, seq': nat, oldFiles: seq<nat>, deferred: set<Bytes>, ghost newRows: seq<Row>)
    requires SortedMins(RangesOf(c.shards)) && AllWellFormed(c.shards) && |c.dirty| > 0
    ensures SortedMins(RangesOf(next)) && AllWellFormed(next)
    ensures NewRowsOf(c, newRows) && next == ShardsLeft(c, newRows, failed)
    ensures seq' == SeqAfter(c, |c.shards|) + OneIf(newRows != []) && oldFiles == LeftBehind(c, |c.shards|, failed)
    ensures deferred == DeferredSet(c)
  {
    hide NewRowsOf, ShardsLeft, SortedMins, AllWellFormed, RangesOf, Tallied, Listed, AffectedSet, DeferredSet, Remaining, SortedFiles, StrictlySorted, SortShards, SeqAfter, Compacted, LeftBehind;
    var perShard, files := Triage(c);
    var affected;
    affected, deferred := Choose(c, perShard);
    var newShards;
    newShards, seq', oldFiles := RewriteAll(c, affected, failed);
    var compacted := Compact(newShards);
    var sorted := SortFiles(files);
    ListedSorted(c, files, sorted);
    var rows := BuildRows(c, sorted);
    newRows := rows;
    if |rows| > 0 && seq' !in failed {
      compacted := compacted + [Shard(seq', rows)];
    } else {
      assert compacted + [] == compacted;
    }
    if |rows| > 0 { seq' := seq' + 1; }
    SortsGathered(c, rows, failed);
    next := SortedShards(compacted);
    ShardsLeftIs(c, rows, failed);
  }

  lemma NothingMarked(c: Cycle, failed: set<nat>)
    requires |c.dirty| == 0
    ensures NewRowsOf(c, [])
    ensures ShardsLeft(c, [], failed) == c.shards
  {
    NothingAffected(c, 0);
  }

  lemma SortsGathered(c: Cycle, rows: seq<Row>, failed: set<nat>)
    requires AllWellFormed(c.shards) && NewRowsOf(c, rows)
    ensures SortedMins(RangesOf(SortShards(Gathered(c, rows, failed)))) && AllWellFormed(SortShards(Gathered(c, rows, failed)))
  {
    hide Remaining, WellFormed, NewRowsOf;
    RemainingWellFormed(c, |c.shards|, failed);
    if rows != [] && !NewFails(c, failed) {
      NewWellFormed(c, Shard(SeqAfter(c, |c.shards|), rows));
      WellFormedSnoc(Remaining(c, |c.shards|, failed), Shard(SeqAfter(c, |c.shards|), rows));
    } else {
      assert Remaining(c, |c.shards|, failed) + [] == Remaining(c, |c.shards|, failed);
    }
    SortSorts(Gathered(c, rows, failed));
  }

  lemma {:induction false} RemainingWellFormed(c: Cycle, n: nat, failed: set<nat>)
    requires AllWellFormed(c.shards) && n <= |c.shards|
    ensures AllWellFormed(Remaining(c, n, failed))
  {
    hide Affected, RebuildRows, SortedRows;
    if n > 0 {
      RemainingWellFormed(c, n - 1, failed);
      if RowsAfter(c, n - 1) != [] { StaysWithin(c, n - 1); }
    }
  }

  lemma ShardsLeftIs(c: Cycle, rows: seq<Row>, failed: set<nat>)
    requires |c.dirty| > 0
    ensures ShardsLeft(c, rows, failed) == SortShards(Gathered(c, rows, failed))
  {
  }

  /** Removes the files of earlier cycles; what cannot be removed stays pending. */
  method CleanPending(pending: seq<nat>, stuck: set<nat>) returns (remaining: seq<nat>)
    ensures remaining == Stuck(pending, stuck)
  {
    remaining := [];
    for i := 0 to |pending|
      invariant remaining == Stuck(pending[..i], stuck)
    {
      assert pending[..i + 1][..i] == pending[..i];
      if pending[i] in stuck { remaining := remaining + [pending[i]]; }
    }
    assert pending[..|pending|] == pending;
  }

  /** Drops the marks a cycle has dealt with. */
  method ClearProcessed(c: Cycle, now: Dirty, ghost marks: Dirty, deferred: set<Bytes>) returns (left: Dirty)
    requires now == c.dirty + marks && deferred == DeferredSet(c)
    ensures left == Cleared(c, marks)
  {
    hide Deferred, DeferredSet, Cleared;
    left := now;
    var todo := c.dirty.Keys;
    while todo != {}
      invariant todo <= c.dirty.Keys
      invariant forall p :: p in left <==> p in now && !(p in c.dirty && p !in todo && p !in deferred && now[p] == c.dirty[p])
      invariant forall p :: p in left ==> left[p] == now[p]
      decreases |todo|
    {
      var p :| p in todo;
      todo := todo - {p};
      if p in deferred { continue; }
      if p in left && left[p] == c.dirty[p] { left := left - {p}; }
    }
    ClearedIs(c, now, marks, deferred, left);
  }

  lemma ClearedIs(c: Cycle, now: Dirty, marks: Dirty, deferred: set<Bytes>, left: Dirty)
    requires now == c.dirty + marks && deferred == DeferredSet(c)
    requires forall p :: p in left <==> p in now && !(p in c.dirty && p !in deferred && now[p] == c.dirty[p])
    requires forall p :: p in left ==> left[p] == now[p]
    ensures left == Cleared(c, marks)
  {
    hide Deferred;
  }
}
