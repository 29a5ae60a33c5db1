/** One rebuild cycle of the disk engine (internal/shard/engine.go) on values, and when
    nobody searching can tell that it happened. */
module Rebuild {
  import opened Prelude
  import opened Bytes
  import opened Literal
  import opened Lines
  import opened Ranges
  import opened EngineSpec

  /** What a rebuild cycle starts from. */
  datatype Cycle = Cycle(shards: seq<Shard>, seqNo: nat, dirty: Dirty, disk: Disk, threshold: int, inlineKB: int)

  // ---- shards as ranges ----

  function ShardRange(s: Shard): Range {
    if s.rows == [] then Range([], []) else Range(s.rows[0].path, s.rows[|s.rows| - 1].path)
  }

  function RangesOf(shards: seq<Shard>): (rs: seq<Range>)
    ensures |rs| == |shards| && forall i :: 0 <= i < |rs| ==> rs[i] == ShardRange(shards[i])
  {
    seq(|shards|, i requires 0 <= i < |shards| => ShardRange(shards[i]))
  }

  predicate SortedRows(rows: seq<Row>) {
    forall i, j :: 0 <= i < j < |rows| ==> Less(rows[i].path, rows[j].path)
  }

  predicate WellFormed(s: Shard) {
    s.rows != [] && SortedRows(s.rows)
  }

  /** Sorted, nonempty shards over ordered, disjoint ranges. */
  ghost predicate OrderedShards(shards: seq<Shard>) {
    OrderedRanges(RangesOf(shards)) && forall i :: 0 <= i < |shards| ==> WellFormed(shards[i])
  }

  /** The shard a path is counted against, or -1. */
  function Home(shards: seq<Shard>, p: Bytes): (h: int)
    ensures -1 <= h < |shards|
  {
    ShardFor(RangesOf(shards), p)
  }

  // ---- what is rebuilt and what is deferred ----

  function DirtyIn(c: Cycle, i: int): set<Bytes> {
    set p | p in c.dirty && Home(c.shards, p) == i
  }

  /** Shards with enough dirty files, or all dirty ones when little is dirty overall. */
  predicate Affected(c: Cycle, i: int) {
    DirtyIn(c, i) != {} && (|DirtyIn(c, i)| >= c.threshold || |c.dirty| <= c.threshold)
  }

  /** Dirty paths left for a later cycle. */
  predicate Deferred(c: Cycle, p: Bytes) {
    Home(c.shards, p) >= 0 && !Affected(c, Home(c.shards, p))
  }

  // ---- rows ----

  /** Inlined content as a reader of the shard sees it; empty content reads back as absent. */
  function InlineOf(inlineKB: int, content: Bytes): Option<Bytes> {
    if inlineKB > 0 && content != [] && |content| <= inlineKB * 1024 then Some(content) else None
  }

  function FreshRow(c: Cycle, p: Bytes): Row
    requires p in c.disk
  {
    var f := c.disk[p];
    Row(p, f.size, f.mtime, Tris(f.content), InlineOf(c.inlineKB, f.content))
  }

  /** Whether a rewritten shard keeps its row for `p`. */
  predicate Keeps(c: Cycle, p: Bytes) {
    p in c.disk && !(p in c.dirty && (c.dirty[p] || IsBinary(c.disk[p].content)))
  }

  /** The row a rewritten shard has for a kept row: all fresh if dirty, otherwise the
      old size and time with content read again. */
  function RebuildRow(c: Cycle, row: Row): Row
    requires Keeps(c, row.path)
  {
    if row.path in c.dirty then FreshRow(c, row.path)
    else FreshRow(c, row.path).(size := row.size, mtime := row.mtime)
  }

  function RebuildRows(c: Cycle, rows: seq<Row>): seq<Row> {
    if |rows| == 0 then []
    else RebuildRows(c, rows[..|rows| - 1]) + Kept(c, rows[|rows| - 1])
  }

  function Kept(c: Cycle, row: Row): seq<Row> {
    if Keeps(c, row.path) then [RebuildRow(c, row)] else []
  }

  /** The rows of shard `i` after the cycle. */
  function RowsAfter(c: Cycle, i: nat): seq<Row>
    requires i < |c.shards|
  {
    if Affected(c, i) then RebuildRows(c, c.shards[i].rows) else c.shards[i].rows
  }

  /** The sequence number in use after the first `n` shards. */
  function SeqAfter(c: Cycle, n: nat): nat
    requires n <= |c.shards|
  {
    if n == 0 then c.seqNo else SeqAfter(c, n - 1) + OneIf(Affected(c, n - 1) && RowsAfter(c, n - 1) != [])
  }

  function Replacement(c: Cycle, i: nat): seq<Shard>
    requires i < |c.shards|
  {
    if !Affected(c, i) then [c.shards[i]]
    else if RowsAfter(c, i) == [] then []
    else [Shard(SeqAfter(c, i), RowsAfter(c, i))]
  }

  /** What remains of the first `n` shards, in order. */
  function Replaced(c: Cycle, n: nat): seq<Shard>
    requires n <= |c.shards|
  {
    if n == 0 then [] else Replaced(c, n - 1) + Replacement(c, n - 1)
  }

  // ---- files in no shard ----

  /** A live dirty file outside every shard, readable and not binary. */
  predicate IsNew(c: Cycle, p: Bytes) {
    p in c.dirty && !c.dirty[p] && Home(c.shards, p) == -1 && p in c.disk && !IsBinary(c.disk[p].content)
  }

  /** The rows of the shard for new files: one for each, in order of path. */
  ghost predicate NewRowsOf(c: Cycle, rows: seq<Row>) {
    && SortedRows(rows)
    && (forall r :: r in rows ==> IsNew(c, r.path) && r == FreshRow(c, r.path))
    && (forall p :: IsNew(c, p) ==> CountPath(rows, p) > 0)
  }

  // ---- the new shard list ----

  function InsertShard(l: seq<Shard>, s: Shard): seq<Shard> {
    if |l| == 0 || LessEq(ShardRange(l[|l| - 1]).min, ShardRange(s).min) then l + [s]
    else InsertShard(l[..|l| - 1], s) + [l[|l| - 1]]
  }

  function SortShards(l: seq<Shard>): seq<Shard> {
    if |l| == 0 then [] else InsertShard(SortShards(l[..|l| - 1]), l[|l| - 1])
  }

  function Unsorted(c: Cycle, newRows: seq<Row>): seq<Shard> {
    Replaced(c, |c.shards|) + (if newRows == [] then [] else [Shard(SeqAfter(c, |c.shards|), newRows)])
  }

  function ShardsAfter(c: Cycle, newRows: seq<Row>): seq<Shard> {
    if |c.dirty| == 0 then c.shards else SortShards(Unsorted(c, newRows))
  }

  function DirtyAfter(c: Cycle): Dirty {
    map p | p in c.dirty && Deferred(c, p) :: c.dirty[p]
  }

  // ---- what a cycle leaves marked ----

  /** The marks left that are counted against the first `n` shards. */
  function LeftIn(c: Cycle, n: nat): set<Bytes> {
    set p | p in c.dirty && Deferred(c, p) && Home(c.shards, p) < n
  }

  /** Those counted against one shard. */
  function LeftAt(c: Cycle, i: nat): set<Bytes> {
    if Affected(c, i) then {} else DirtyIn(c, i)
  }

  lemma LeftStep(c: Cycle, n: nat)
    requires n > 0
    ensures LeftIn(c, n) == LeftIn(c, n - 1) + LeftAt(c, n - 1)
  {
    hide Home, Affected;
  }

  lemma LeftAtFew(c: Cycle, i: nat)
    requires 0 < c.threshold
    ensures |LeftAt(c, i)| < c.threshold
  {
    hide DirtyIn;
  }

  lemma BothSizes(a: set<Bytes>, b: set<Bytes>)
    ensures |a + b| <= |a| + |b|
  {
    assert a + b == a + (b - a);
    SmallerSets(b - a, b);
  }

  lemma {:induction false} LeftInFew(c: Cycle, n: nat)
    requires 0 < c.threshold
    ensures |LeftIn(c, n)| <= n * (c.threshold - 1)
  {
    hide LeftIn, LeftAt;
    if n == 0 { NoneLeftIn(c); } else {
      LeftInFew(c, n - 1);
      LeftStep(c, n);
      BothSizes(LeftIn(c, n - 1), LeftAt(c, n - 1));
      LeftAtFew(c, n - 1);
      Distribute(n, c.threshold - 1);
    }
  }

  lemma NoneLeftIn(c: Cycle)
    ensures LeftIn(c, 0) == {}
  {
    hide Home, Affected;
  }

  lemma Distribute(n: nat, d: nat)
    requires n > 0
    ensures n * d == (n - 1) * d + d
  {
  }

  lemma SmallerSets(a: set<Bytes>, b: set<Bytes>)
    requires a <= b
    ensures |a| <= |b|
  {
    var more := b - a;
    assert b == a + more && a !! more;
  }

  /** Few marks are all taken; otherwise fewer than the threshold are left against each
      shard, and none against files in no shard. A mark is never changed. */
  lemma FewAreLeft(c: Cycle)
    requires 0 < c.threshold
    ensures |c.dirty| <= c.threshold ==> DirtyAfter(c) == map[]
    ensures |DirtyAfter(c)| <= |c.shards| * (c.threshold - 1)
    ensures forall p :: p in DirtyAfter(c) ==> p in c.dirty && DirtyAfter(c)[p] == c.dirty[p] && Home(c.shards, p) >= 0
    ensures forall p :: p in DirtyAfter(c) ==> |DirtyIn(c, Home(c.shards, p))| < c.threshold
  {
    hide Home;
    var left := DirtyAfter(c);
    LeftInFew(c, |c.shards|);
    assert left.Keys == LeftIn(c, |c.shards|) by {
      forall p ensures Home(c.shards, p) < |c.shards| { assert Home(c.shards, p) < |c.shards|; }
    }
    assert |left.Keys| == |left|;
    forall p | p in left ensures |c.dirty| > c.threshold && |DirtyIn(c, Home(c.shards, p))| < c.threshold {
      assert p in DirtyIn(c, Home(c.shards, p));
    }
  }

  // ---- counting rows ----

  lemma {:induction false} AllRowsAppend(a: seq<Shard>, b: seq<Shard>)
    ensures AllRows(a + b) == AllRows(a) + AllRows(b)
  {
    if |b| == 0 {
      assert a + b == a;
    } else {
      var n := |b| - 1;
      assert (a + b)[..|a + b| - 1] == a + b[..n];
      AllRowsAppend(a, b[..n]);
    }
  }

  lemma OneShard(s: Shard)
    ensures AllRows([s]) == s.rows
  {
    assert AllRows([s]) == AllRows([s][..0]) + s.rows;
  }

  lemma AllRowsSnoc(l: seq<Shard>, s: Shard)
    ensures AllRows(l + [s]) == AllRows(l) + s.rows
  {
    hide AllRows;
    AllRowsAppend(l, [s]);
    OneShard(s);
  }

  /** `p` has as many rows in `a` as in `b`, and they are the same rows. */
  ghost predicate SameRows(a: seq<Row>, b: seq<Row>) {
    (forall p :: CountPath(a, p) == CountPath(b, p)) && (forall r :: r in a <==> r in b)
  }

  lemma SameRowsSwap(a: seq<Row>, x: seq<Row>, b: seq<Row>, y: seq<Row>)
    requires SameRows(b, a + x)
    ensures SameRows(b + y, (a + y) + x)
  {
    hide CountPath;
    forall p ensures CountPath(b + y, p) == CountPath((a + y) + x, p) {
      CountAppend(b, y, p);
      CountAppend(a, x, p);
      CountAppend(a, y, p);
      CountAppend(a + y, x, p);
    }
  }

  lemma SameRowsSnoc(a: seq<Row>, b: seq<Row>, x: seq<Row>)
    requires SameRows(a, b)
    ensures SameRows(a + x, b + x)
  {
    hide CountPath;
    forall p ensures CountPath(a + x, p) == CountPath(b + x, p) {
      CountAppend(a, x, p);
      CountAppend(b, x, p);
    }
  }

  lemma SameRowsTrans(a: seq<Row>, b: seq<Row>, c: seq<Row>)
    requires SameRows(a, b) && SameRows(b, c)
    ensures SameRows(a, c)
  {
    hide CountPath;
  }

  lemma {:induction false} InsertSameRows(l: seq<Shard>, s: Shard)
    ensures SameRows(AllRows(InsertShard(l, s)), AllRows(l) + s.rows)
  {
    hide AllRows, CountPath, SameRows, LessEq;
    var n := |l| - 1;
    if n < 0 || LessEq(ShardRange(l[n]).min, ShardRange(s).min) {
      AllRowsSnoc(l, s);
      SameRowsRefl(AllRows(l) + s.rows);
    } else {
      InsertSameRows(l[..n], s);
      AllRowsSnoc(InsertShard(l[..n], s), l[n]);
      AllRowsSnoc(l[..n], l[n]);
      assert l[..n] + [l[n]] == l;
      SameRowsSwap(AllRows(l[..n]), s.rows, AllRows(InsertShard(l[..n], s)), l[n].rows);
    }
  }

  lemma SameRowsRefl(a: seq<Row>)
    ensures SameRows(a, a)
  {
  }

  /** Sorting shards moves their rows about, no more. */
  lemma {:induction false} SortSameRows(l: seq<Shard>)
    ensures SameRows(AllRows(SortShards(l)), AllRows(l))
  {
    hide AllRows, CountPath, SameRows, LessEq, InsertShard;
    var n := |l| - 1;
    if n < 0 {
      SameRowsRefl(AllRows([]));
    } else {
      SortSameRows(l[..n]);
      InsertSameRows(SortShards(l[..n]), l[n]);
      SameRowsSnoc(AllRows(SortShards(l[..n])), AllRows(l[..n]), l[n].rows);
      assert l[..n] + [l[n]] == l;
      AllRowsSnoc(l[..n], l[n]);
      SameRowsTrans(AllRows(SortShards(l)), AllRows(SortShards(l[..n])) + l[n].rows, AllRows(l));
    }
  }

  // ---- rows under ordered ranges ----

  /** Sorted rows have a path at most once. */
  lemma {:induction false} SortedCount(rows: seq<Row>, p: Bytes)
    requires SortedRows(rows)
    ensures CountPath(rows, p) <= 1
  {
    hide Less;
    if |rows| > 0 {
      var n := |rows| - 1;
      SortedCount(rows[..n], p);
      if rows[n].path == p { NotAgain(rows, n); }
    }
  }

  lemma {:induction false} NotAgain(rows: seq<Row>, n: nat)
    requires SortedRows(rows) && n < |rows|
    ensures CountPath(rows[..n], rows[n].path) == 0
  {
    hide Less;
    if CountPath(rows[..n], rows[n].path) > 0 {
      var r := SomeRow(rows[..n], rows[n].path);
      LessIrreflexive(r.path);
    }
  }

  /** Every row of a shard lies within the shard's range. */
  lemma RowCovered(s: Shard, r: Row)
    requires WellFormed(s) && r in s.rows
    ensures Covers(ShardRange(s), r.path)
  {
    hide Less;
    var k :| 0 <= k < |s.rows| && s.rows[k] == r;
  }

  /** All rows for a path are in its home shard. */
  lemma {:induction false} CountAtHome(shards: seq<Shard>, n: nat, p: Bytes)
    requires OrderedShards(shards) && n <= |shards|
    ensures CountPath(AllRows(shards[..n]), p) ==
      var h := Home(shards, p); if 0 <= h < n then CountPath(shards[h].rows, p) else 0
  {
    hide OrderedRanges, Less, LessEq, CountPath, ShardFor, Covers, WellFormed;
    if n == 0 {
      assert shards[..0] == [];
      NoRows(p);
    } else {
      CountAtHome(shards, n - 1, p);
      assert shards[..n] == shards[..n - 1] + [shards[n - 1]];
      AllRowsSnoc(shards[..n - 1], shards[n - 1]);
      CountAppend(AllRows(shards[..n - 1]), shards[n - 1].rows, p);
      NotElsewhere(shards, n - 1, p);
    }
  }

  lemma NoRows(p: Bytes)
    ensures CountPath(AllRows([]), p) == 0
  {
  }

  lemma NotElsewhere(shards: seq<Shard>, i: nat, p: Bytes)
    requires OrderedShards(shards) && i < |shards|
    ensures CountPath(shards[i].rows, p) > 0 ==> Home(shards, p) == i
  {
    hide OrderedRanges, Less, LessEq, CountPath, ShardFor, Covers;
    if CountPath(shards[i].rows, p) > 0 {
      var r := SomeRow(shards[i].rows, p);
      RowCovered(shards[i], r);
      ShardForIsExact(RangesOf(shards), p);
      assert Covers(RangesOf(shards)[i], p);
    }
  }

  // ---- rows after a cycle ----

  /** A rewritten shard keeps or drops all rows of a path alike. */
  lemma {:induction false} RebuildCount(c: Cycle, rows: seq<Row>, p: Bytes)
    ensures CountPath(RebuildRows(c, rows), p) == if Keeps(c, p) then CountPath(rows, p) else 0
  {
    hide Keeps, RebuildRow;
    if |rows| > 0 {
      var n := |rows| - 1;
      RebuildCount(c, rows[..n], p);
      CountAppend(RebuildRows(c, rows[..n]), Kept(c, rows[n]), p);
      KeptCount(c, rows[n], p);
    }
  }

  lemma KeptCount(c: Cycle, row: Row, p: Bytes)
    ensures CountPath(Kept(c, row), p) == if Keeps(c, p) then OneIf(row.path == p) else 0
  {
    hide Keeps;
    var k := Kept(c, row);
    if k != [] {
      assert k[..0] == [];
      assert CountPath(k, p) == CountPath(k[..0], p) + OneIf(k[0].path == p);
    }
  }

  /** Every row of a rewritten shard comes from one it had. */
  lemma {:induction false} RebuildOrigin(c: Cycle, rows: seq<Row>, r: Row) returns (was: Row)
    requires r in RebuildRows(c, rows)
    ensures was in rows && Keeps(c, was.path) && r == RebuildRow(c, was)
  {
    hide Keeps, RebuildRow;
    var n := |rows| - 1;
    if r in Kept(c, rows[n]) {
      was := rows[n];
    } else {
      was := RebuildOrigin(c, rows[..n], r);
    }
  }

  lemma ReplacementRows(c: Cycle, i: nat)
    requires i < |c.shards|
    ensures AllRows(Replacement(c, i)) == RowsAfter(c, i)
  {
    hide Affected, RebuildRows;
    if !Affected(c, i) {
      OneShard(c.shards[i]);
    } else if RowsAfter(c, i) != [] {
      OneShard(Shard(SeqAfter(c, i), RowsAfter(c, i)));
    }
  }

  lemma {:induction false} ReplacedCount(c: Cycle, n: nat, p: Bytes)
    requires OrderedShards(c.shards) && n <= |c.shards|
    ensures CountPath(AllRows(Replaced(c, n)), p) ==
      var h := Home(c.shards, p); if 0 <= h < n then CountPath(RowsAfter(c, h), p) else 0
  {
    hide OrderedShards, CountPath, RowsAfter, Replacement, Home, AllRows;
    if n == 0 {
      NoRows(p);
    } else {
      ReplacedCount(c, n - 1, p);
      AllRowsAppend(Replaced(c, n - 1), Replacement(c, n - 1));
      ReplacementRows(c, n - 1);
      CountAppend(AllRows(Replaced(c, n - 1)), RowsAfter(c, n - 1), p);
      NotElsewhereAfter(c, n - 1, p);
    }
  }

  lemma NotElsewhereAfter(c: Cycle, i: nat, p: Bytes)
    requires OrderedShards(c.shards) && i < |c.shards|
    ensures CountPath(RowsAfter(c, i), p) > 0 ==> Home(c.shards, p) == i
    ensures CountPath(RowsAfter(c, i), p) <= 1
  {
    hide OrderedRanges, CountPath, Home, RangesOf, Affected, SortedRows, Keeps;
    NotElsewhere(c.shards, i, p);
    RebuildCount(c, c.shards[i].rows, p);
    SortedCount(c.shards[i].rows, p);
  }

  /** How many rows `p` has after the cycle: its home shard's, if it keeps them, and the
      one of the shard for new files, if it is new. */
  function CountAfter(c: Cycle, p: Bytes): nat {
    var h := Home(c.shards, p);
    if h >= 0 && (Affected(c, h) ==> Keeps(c, p)) then CountPath(c.shards[h].rows, p)
    else OneIf(IsNew(c, p))
  }

  lemma NewCount(c: Cycle, newRows: seq<Row>, p: Bytes)
    requires NewRowsOf(c, newRows)
    ensures CountPath(newRows, p) == OneIf(IsNew(c, p))
  {
    hide CountPath, IsNew, SortedRows;
    SortedCount(newRows, p);
    if CountPath(newRows, p) > 0 { var r := SomeRow(newRows, p); }
  }

  lemma UnsortedRows(c: Cycle, newRows: seq<Row>)
    ensures AllRows(Unsorted(c, newRows)) == AllRows(Replaced(c, |c.shards|)) + newRows
  {
    hide AllRows, Replaced, SeqAfter;
    var l := Replaced(c, |c.shards|);
    if newRows == [] {
      assert l + [] == l;
    } else {
      AllRowsSnoc(l, Shard(SeqAfter(c, |c.shards|), newRows));
    }
  }

  lemma NothingAffected(c: Cycle, i: int)
    requires |c.dirty| == 0
    ensures !Affected(c, i) && c.dirty == map[]
  {
    assert c.dirty.Keys == {};
    assert DirtyIn(c, i) == {};
  }

  lemma {:induction false} NothingReplaced(c: Cycle, n: nat)
    requires |c.dirty| == 0 && n <= |c.shards|
    ensures Replaced(c, n) == c.shards[..n]
  {
    hide Affected;
    if n > 0 {
      NothingReplaced(c, n - 1);
      NothingAffected(c, n - 1);
      assert c.shards[..n] == c.shards[..n - 1] + [c.shards[n - 1]];
    }
  }

  lemma NothingNew(c: Cycle, newRows: seq<Row>)
    requires |c.dirty| == 0 && NewRowsOf(c, newRows)
    ensures newRows == []
  {
    NothingAffected(c, 0);
    HeadIn(newRows);
  }

  lemma HeadIn(rows: seq<Row>)
    ensures rows == [] || rows[0] in rows
  {
  }

  /** The rows after the cycle, up to order. */
  lemma RowsAreThose(c: Cycle, newRows: seq<Row>)
    requires NewRowsOf(c, newRows)
    ensures SameRows(AllRows(ShardsAfter(c, newRows)), AllRows(Replaced(c, |c.shards|)) + newRows)
  {
    hide AllRows, SameRows, Replaced, SortShards, NewRowsOf, Unsorted;
    UnsortedRows(c, newRows);
    SortSameRows(Unsorted(c, newRows));
    if |c.dirty| == 0 {
      NothingNew(c, newRows);
      NothingReplaced(c, |c.shards|);
      assert c.shards[..|c.shards|] == c.shards;
      assert AllRows(c.shards) + [] == AllRows(c.shards);
      SameRowsRefl(AllRows(c.shards));
    }
  }

  lemma CountsAfter(c: Cycle, newRows: seq<Row>, p: Bytes)
    requires OrderedShards(c.shards) && NewRowsOf(c, newRows)
    ensures CountPath(AllRows(ShardsAfter(c, newRows)), p) == CountAfter(c, p) <= 1
  {
    hide AllRows, CountPath, Replaced, ShardsAfter, NewRowsOf, Keeps, Affected, OrderedRanges, RebuildRows, SortedRows, ShardFor, RangesOf;
    RowsAreThose(c, newRows);
    ReplacedCount(c, |c.shards|, p);
    CountAppend(AllRows(Replaced(c, |c.shards|)), newRows, p);
    NewCount(c, newRows, p);
    var h := Home(c.shards, p);
    if h >= 0 {
      RebuildCount(c, c.shards[h].rows, p);
      SortedCount(c.shards[h].rows, p);
    }
  }

  // ---- when a rebuild cannot be noticed ----

  /** A live dirty file that counts against a shard being rewritten without being in its
      table: it is not read, and its mark is dropped. */
  predicate Lost(c: Cycle, p: Bytes) {
    && p in c.dirty && !c.dirty[p] && p in c.disk && Visible(c.disk[p])
    && var h := Home(c.shards, p); h >= 0 && Affected(c, h) && CountPath(c.shards[h].rows, p) == 0
  }

  ghost predicate NoneLost(c: Cycle) {
    forall p :: !Lost(c, p)
  }

  ghost predicate CoherentCycle(c: Cycle) {
    OrderedShards(c.shards) && Coherent(AllRows(c.shards), c.dirty, c.disk)
  }

  lemma {:induction false} InAllRows(shards: seq<Shard>, i: nat, r: Row)
    requires i < |shards| && r in shards[i].rows
    ensures r in AllRows(shards)
  {
    var n := |shards| - 1;
    if i < n { InAllRows(shards[..n], i, r); }
  }

  lemma {:induction false} OriginOf(c: Cycle, n: nat, r: Row) returns (i: nat)
    requires n <= |c.shards| && r in AllRows(Replaced(c, n))
    ensures i < n && r in RowsAfter(c, i)
  {
    hide AllRows, RowsAfter, Replacement;
    NoRowAtAll(r);
    AllRowsAppend(Replaced(c, n - 1), Replacement(c, n - 1));
    ReplacementRows(c, n - 1);
    if r in RowsAfter(c, n - 1) { i := n - 1; } else { i := OriginOf(c, n - 1, r); }
  }

  lemma NoRowAtAll(r: Row)
    ensures r !in AllRows([])
  {
  }

  lemma FreshAgrees(c: Cycle, p: Bytes)
    requires p in c.disk
    ensures Agrees(FreshRow(c, p), c.disk)
  {
    hide Tris;
  }

  lemma RebuiltAgrees(c: Cycle, was: Row)
    requires Keeps(c, was.path) && (was.path in c.dirty || Agrees(was, c.disk))
    ensures Agrees(RebuildRow(c, was), c.disk)
  {
    hide Tris, IsBinary;
  }

  /** Rows of a shard that was left alone are still right, or still marked. */
  lemma UntouchedRow(c: Cycle, i: nat, r: Row)
    requires CoherentCycle(c) && i < |c.shards| && !Affected(c, i) && r in c.shards[i].rows
    ensures r.path in DirtyAfter(c) || Agrees(r, c.disk)
  {
    hide Affected, AllRows, CountPath, Agrees, OrderedShards, Home, Unique;
    InAllRows(c.shards, i, r);
    RowCounted(c.shards[i].rows, r);
    NotElsewhere(c.shards, i, r.path);
    assert r.path in c.dirty || Agrees(r, c.disk);
  }

  lemma RewrittenRow(c: Cycle, i: nat, r: Row)
    requires CoherentCycle(c) && i < |c.shards| && r in RebuildRows(c, c.shards[i].rows)
    ensures Agrees(r, c.disk)
  {
    hide Keeps, RebuildRow, RebuildRows, AllRows, CountPath, Agrees, OrderedShards, Unique;
    var was := RebuildOrigin(c, c.shards[i].rows, r);
    InAllRows(c.shards, i, was);
    RebuiltAgrees(c, was);
  }

  lemma RowsAgreeAfter(c: Cycle, newRows: seq<Row>, r: Row)
    requires CoherentCycle(c) && NewRowsOf(c, newRows) && r in AllRows(ShardsAfter(c, newRows))
    ensures r.path in DirtyAfter(c) || Agrees(r, c.disk)
  {
    hide CoherentCycle, AllRows, CountPath, Replaced, ShardsAfter, Affected, Agrees, DirtyAfter, SortedRows, FreshRow, RebuildRows;
    RowsAreThose(c, newRows);
    if r in newRows {
      FreshAgrees(c, r.path);
    } else {
      var i := OriginOf(c, |c.shards|, r);
      if Affected(c, i) { RewrittenRow(c, i, r); } else { UntouchedRow(c, i, r); }
    }
  }

  /** A file with something to report stays known, unless it is lost. */
  lemma SeenUnlessLost(c: Cycle, p: Bytes)
    requires CoherentCycle(c) && p in c.disk && Visible(c.disk[p])
    ensures Lost(c, p) <==> p !in DirtyAfter(c) && CountAfter(c, p) == 0
  {
    hide OrderedRanges, AllRows, CountPath, Affected, Agrees, Unique, IsBinary, RangesOf, ShardFor;
    CountAtHome(c.shards, |c.shards|, p);
    assert c.shards[..|c.shards|] == c.shards;
  }

  lemma KeepsCoherent(c: Cycle, newRows: seq<Row>)
    requires CoherentCycle(c) && NewRowsOf(c, newRows)
    ensures Coherent(AllRows(ShardsAfter(c, newRows)), DirtyAfter(c), c.disk) <==> NoneLost(c)
  {
    hide AllRows, ShardsAfter, NewRowsOf, CountAfter, Lost, Visible, OrderedShards, Agrees, CountPath;
    var rows := AllRows(ShardsAfter(c, newRows));
    forall r | r in rows ensures r.path in DirtyAfter(c) || Agrees(r, c.disk) { RowsAgreeAfter(c, newRows, r); }
    forall p ensures CountPath(rows, p) == CountAfter(c, p) <= 1 { CountsAfter(c, newRows, p); }
    forall p | p in c.disk && Visible(c.disk[p])
      ensures Lost(c, p) <==> p !in DirtyAfter(c) && CountPath(rows, p) == 0
    {
      SeenUnlessLost(c, p);
    }
    forall p | Lost(c, p) ensures p in c.disk && Visible(c.disk[p]) { LostIsVisible(c, p); }
  }

  lemma LostIsVisible(c: Cycle, p: Bytes)
    requires Lost(c, p)
    ensures p in c.disk && Visible(c.disk[p])
  {
  }

  /** The query that reports every line of every file. */
  function EveryLine(): Query {
    Query([], Matcher([], false, None, (s: Bytes) => Some(Loc(0, 0))), p => true, 0, false, 0, 0)
  }

  lemma EveryLineReports(disk: Disk, p: Bytes)
    requires p in disk && Visible(disk[p])
    ensures DiskScan(disk, EveryLine(), p) != []
    ensures PruningOk(EveryLine())
  {
    hide IsBinary;
    var c := disk[p].content;
    var find := FinderOf(EveryLine().m);
    assert FindIn(c, 0, LineEnd(c, 0), find) == 0;
    assert ScanLines(p, c, 0, 0, find, 0) != [];
  }

  lemma LostShows(c: Cycle, newRows: seq<Row>, p: Bytes)
    requires CoherentCycle(c) && NewRowsOf(c, newRows) && Lost(c, p)
    ensures Answer(AllRows(ShardsAfter(c, newRows)), DirtyAfter(c), c.disk, EveryLine(), p) == []
    ensures DiskScan(c.disk, EveryLine(), p) != [] && PruningOk(EveryLine())
  {
    hide AllRows, ShardsAfter, NewRowsOf, CountAfter, OrderedShards, Coherent, Lost, Visible, DiskScan, PruningOk, RowsAnswer, DirtyAnswer, EveryLine, DirtyAfter;
    LostIsVisible(c, p);
    EveryLineReports(c.disk, p);
    SeenUnlessLost(c, p);
    CountsAfter(c, newRows, p);
    NoRow(AllRows(ShardsAfter(c, newRows)), c.disk, EveryLine(), p);
  }

  /** Every query, asked of the engine after the cycle, is answered as a scan of the
      disk answers it. */
  ghost predicate Invisible(c: Cycle, newRows: seq<Row>) {
    forall q, p :: PruningOk(q) ==>
      Answer(AllRows(ShardsAfter(c, newRows)), DirtyAfter(c), c.disk, q, p) == DiskScan(c.disk, q, p)
  }

  /** A rebuild is invisible to search exactly when it loses no file, whichever shards
      the threshold defers. */
  lemma RebuildIsInvisible(c: Cycle, newRows: seq<Row>)
    requires CoherentCycle(c) && NewRowsOf(c, newRows)
    ensures Invisible(c, newRows) <==> NoneLost(c)
  {
    hide AllRows, ShardsAfter, NewRowsOf, CoherentCycle, Lost, DiskScan, PruningOk, Answer, EveryLine, DirtyAfter, Coherent;
    KeepsCoherent(c, newRows);
    forall q, p | NoneLost(c) && PruningOk(q)
      ensures Answer(AllRows(ShardsAfter(c, newRows)), DirtyAfter(c), c.disk, q, p) == DiskScan(c.disk, q, p)
    {
      CoherentAnswers(AllRows(ShardsAfter(c, newRows)), DirtyAfter(c), c.disk, q, p);
    }
    forall p | Lost(c, p) ensures !Invisible(c, newRows) { LostShows(c, newRows, p); }
  }

  // ---- when the shard ranges stay ordered ----

  predicate Apart(a: Range, b: Range) {
    Less(a.max, b.min) || Less(b.max, a.min)
  }

  predicate Sound(r: Range) {
    LessEq(r.min, r.max)
  }

  ghost predicate Before(l: seq<Shard>, s: Shard) {
    forall i :: 0 <= i < |l| ==> Less(ShardRange(l[i]).max, ShardRange(s).min)
  }

  ghost predicate AllApart(l: seq<Shard>, s: Shard) {
    forall i :: 0 <= i < |l| ==> Apart(ShardRange(l[i]), ShardRange(s))
  }

  lemma OrderedSnoc(l: seq<Shard>, s: Shard)
    ensures OrderedRanges(RangesOf(l + [s])) <==>
      OrderedRanges(RangesOf(l)) && Sound(ShardRange(s)) && Before(l, s)
  {
    hide Less, LessEq, ShardRange;
    var a, b := RangesOf(l), RangesOf(l + [s]);
    assert forall i :: 0 <= i < |l| ==> b[i] == a[i];
    assert b[|l|] == ShardRange(s);
    if OrderedRanges(a) && Sound(ShardRange(s)) && Before(l, s) {
      assert OrderedRanges(b);
    }
    if OrderedRanges(b) {
      assert OrderedRanges(a);
      forall i | 0 <= i < |l| ensures Less(ShardRange(l[i]).max, ShardRange(s).min) { assert Less(b[i].max, b[|l|].min); }
    }
  }

  /** Of two sound ranges that are apart, the one starting first ends first. */
  lemma StartsFirst(a: Range, b: Range)
    requires LessEq(a.min, b.min) && Sound(b)
    ensures Apart(a, b) <==> Less(a.max, b.min)
  {
    hide Less, LessEq;
    LessEqTransitive(a.min, b.min, b.max);
    LessOrGeq(b.max, a.min);
  }

  lemma {:induction false} InsertBefore(l: seq<Shard>, s: Shard, t: Shard)
    ensures Before(InsertShard(l, s), t) <==> Before(l, t) && Less(ShardRange(s).max, ShardRange(t).min)
  {
    hide Before, ShardRange, Less, LessEq;
    var n := |l| - 1;
    if n < 0 || LessEq(ShardRange(l[n]).min, ShardRange(s).min) {
      BeforeSnoc(l, s, t);
    } else {
      InsertBefore(l[..n], s, t);
      BeforeSnoc(InsertShard(l[..n], s), l[n], t);
      BeforeSnoc(l[..n], l[n], t);
      assert l[..n] + [l[n]] == l;
    }
  }

  lemma BeforeSnoc(l: seq<Shard>, s: Shard, t: Shard)
    ensures Before(l + [s], t) <==> Before(l, t) && Less(ShardRange(s).max, ShardRange(t).min)
  {
    hide ShardRange, Less;
    if Before(l + [s], t) {
      forall i | 0 <= i < |l| ensures Less(ShardRange(l[i]).max, ShardRange(t).min) { assert (l + [s])[i] == l[i]; }
      assert (l + [s])[|l|] == s;
    }
  }

  lemma ApartSnoc(l: seq<Shard>, t: Shard, s: Shard)
    ensures AllApart(l + [t], s) <==> AllApart(l, s) && Apart(ShardRange(t), ShardRange(s))
  {
    hide ShardRange, Apart;
    if AllApart(l + [t], s) {
      forall i | 0 <= i < |l| ensures Apart(ShardRange(l[i]), ShardRange(s)) { assert (l + [t])[i] == l[i]; }
      assert (l + [t])[|l|] == t;
    }
  }

  /** When the last range starts no later than `s`, being apart from `s` is coming before it. */
  lemma AllBeforeLast(l: seq<Shard>, s: Shard)
    requires OrderedRanges(RangesOf(l)) && Sound(ShardRange(s))
    requires |l| > 0 ==> LessEq(ShardRange(l[|l| - 1]).min, ShardRange(s).min)
    ensures AllApart(l, s) <==> Before(l, s)
  {
    OrderedAreSorted(RangesOf(l));
    hide OrderedRanges, ShardRange, Less, LessEq, Apart;
    forall i | 0 <= i < |l| ensures Apart(ShardRange(l[i]), ShardRange(s)) <==> Less(ShardRange(l[i]).max, ShardRange(s).min) {
      LessEqTransitive(RangesOf(l)[i].min, RangesOf(l)[|l| - 1].min, ShardRange(s).min);
      StartsFirst(ShardRange(l[i]), ShardRange(s));
    }
  }

  /** Inserting a shard keeps the ranges ordered exactly when it is apart from all of them. */
  lemma {:induction false} InsertOrdered(l: seq<Shard>, s: Shard)
    requires OrderedRanges(RangesOf(l)) && Sound(ShardRange(s))
    ensures OrderedRanges(RangesOf(InsertShard(l, s))) <==> AllApart(l, s)
  {
    hide OrderedRanges, Before, AllApart, ShardRange, Less, Sound, RangesOf, LessEq;
    var n := |l| - 1;
    if n < 0 || LessEq(ShardRange(l[n]).min, ShardRange(s).min) {
      AllBeforeLast(l, s);
      OrderedSnoc(l, s);
    } else {
      assert l[..n] + [l[n]] == l;
      OrderedSnoc(l[..n], l[n]);
      InsertOrdered(l[..n], s);
      OrderedSnoc(InsertShard(l[..n], s), l[n]);
      InsertBefore(l[..n], s, l[n]);
      ApartSnoc(l[..n], l[n], s);
      LessOrGeq(ShardRange(s).min, ShardRange(l[n]).min);
      LessIsLessEq(ShardRange(s).min, ShardRange(l[n]).min);
      StartsFirst(ShardRange(s), ShardRange(l[n]));
      ApartSymmetric(ShardRange(s), ShardRange(l[n]));
    }
  }

  lemma LessIsLessEq(a: Bytes, b: Bytes)
    ensures Less(a, b) ==> LessEq(a, b)
  {
  }

  lemma ApartSymmetric(a: Range, b: Range)
    ensures Apart(a, b) <==> Apart(b, a)
  {
  }

  /** Sorting leaves an ordered list alone. */
  lemma {:induction false} SortIsIdle(l: seq<Shard>)
    requires OrderedRanges(RangesOf(l))
    ensures SortShards(l) == l
  {
    hide OrderedRanges, ShardRange, Less, RangesOf, LessEq;
    var n := |l| - 1;
    if n >= 0 {
      assert l[..n] + [l[n]] == l;
      OrderedSnoc(l[..n], l[n]);
      SortIsIdle(l[..n]);
      if n > 0 {
        OrderedAreSorted(RangesOf(l));
        InOrder(l, n - 1, n);
      }
    }
  }

  lemma InOrder(l: seq<Shard>, i: nat, j: nat)
    requires SortedMins(RangesOf(l)) && i <= j < |l|
    ensures LessEq(ShardRange(l[i]).min, ShardRange(l[j]).min)
  {
    hide Less, LessEq, ShardRange;
    assert RangesOf(l)[i] == ShardRange(l[i]) && RangesOf(l)[j] == ShardRange(l[j]);
  }

  predicate Within(a: Range, b: Range) {
    Sound(a) && LessEq(b.min, a.min) && LessEq(a.max, b.max)
  }

  /** The range of shard `i` after the cycle. */
  function RangeAfter(c: Cycle, i: nat): Range
    requires i < |c.shards|
  {
    ShardRange(Shard(0, RowsAfter(c, i)))
  }

  lemma {:induction false} RebuildSorted(c: Cycle, rows: seq<Row>)
    requires SortedRows(rows)
    ensures SortedRows(RebuildRows(c, rows))
  {
    hide Keeps, RebuildRow, Less;
    if |rows| > 0 {
      var n := |rows| - 1;
      RebuildSorted(c, rows[..n]);
      var kept := RebuildRows(c, rows[..n]);
      forall k | 0 <= k < |kept| ensures Less(kept[k].path, rows[n].path) {
        var was := RebuildOrigin(c, rows[..n], kept[k]);
        SamePath(c, was);
      }
      if Keeps(c, rows[n].path) { SamePath(c, rows[n]); }
    }
  }

  lemma SamePath(c: Cycle, row: Row)
    requires Keeps(c, row.path)
    ensures RebuildRow(c, row).path == row.path
  {
  }

  /** What remains of a shard is sorted and within its old range. */
  lemma StaysWithin(c: Cycle, i: nat)
    requires i < |c.shards| && WellFormed(c.shards[i]) && RowsAfter(c, i) != []
    ensures SortedRows(RowsAfter(c, i)) && Within(RangeAfter(c, i), ShardRange(c.shards[i]))
  {
    hide Affected, RebuildRows, Less, Keeps, RebuildRow;
    var s := c.shards[i];
    var rows := RowsAfter(c, i);
    if Affected(c, i) {
      RebuildSorted(c, s.rows);
      var a := RebuildOrigin(c, s.rows, rows[0]);
      var b := RebuildOrigin(c, s.rows, rows[|rows| - 1]);
      SamePath(c, a);
      SamePath(c, b);
      RowCovered(s, a);
      RowCovered(s, b);
    }
  }

  /** The ranges that remain among the first `n` come before `t`. */
  ghost predicate RestBefore(c: Cycle, n: nat, t: Shard)
    requires n <= |c.shards|
  {
    forall i :: 0 <= i < n && RowsAfter(c, i) != [] ==> Less(RangeAfter(c, i).max, ShardRange(t).min)
  }

  ghost predicate RestApart(c: Cycle, n: nat, t: Shard)
    requires n <= |c.shards|
  {
    forall i :: 0 <= i < n && RowsAfter(c, i) != [] ==> Apart(RangeAfter(c, i), ShardRange(t))
  }

  lemma ReplacementShape(c: Cycle, i: nat)
    requires i < |c.shards| && WellFormed(c.shards[i])
    ensures RowsAfter(c, i) == [] ==> Replacement(c, i) == []
    ensures RowsAfter(c, i) != [] ==> exists s :: Replacement(c, i) == [s] && s.rows == RowsAfter(c, i)
  {
    hide Affected, RebuildRows, SortedRows, SeqAfter;
    if !Affected(c, i) {
      assert Replacement(c, i) == [c.shards[i]] && c.shards[i].rows == RowsAfter(c, i);
    } else if RowsAfter(c, i) != [] {
      var s := Shard(SeqAfter(c, i), RowsAfter(c, i));
      assert Replacement(c, i) == [s] && s.rows == RowsAfter(c, i);
    }
  }

  lemma SameRange(c: Cycle, i: nat, s: Shard)
    requires i < |c.shards| && s.rows == RowsAfter(c, i)
    ensures ShardRange(s) == RangeAfter(c, i)
  {
  }

  ghost predicate AllWellFormed(l: seq<Shard>) {
    forall i :: 0 <= i < |l| ==> WellFormed(l[i])
  }

  lemma {:induction false} ReplacedBefore(c: Cycle, n: nat, t: Shard)
    requires n <= |c.shards| && AllWellFormed(c.shards)
    ensures Before(Replaced(c, n), t) <==> RestBefore(c, n, t)
    ensures AllApart(Replaced(c, n), t) <==> RestApart(c, n, t)
  {
    hide Before, AllApart, RowsAfter, Replacement, WellFormed, Less, Apart, ShardRange, RangeAfter;
    if n == 0 {
      NothingBefore(t);
    } else {
      ReplacedBefore(c, n - 1, t);
      ReplacementShape(c, n - 1);
      if RowsAfter(c, n - 1) != [] {
        var s :| Replacement(c, n - 1) == [s] && s.rows == RowsAfter(c, n - 1);
        SameRange(c, n - 1, s);
        BeforeSnoc(Replaced(c, n - 1), s, t);
        ApartSnoc(Replaced(c, n - 1), s, t);
      } else {
        assert Replaced(c, n) == Replaced(c, n - 1);
      }
    }
  }

  lemma NothingBefore(t: Shard)
    ensures Before([], t) && AllApart([], t)
  {
  }

  /** What remains stays in order: every range only shrinks. */
  lemma {:induction false} ReplacedOrdered(c: Cycle, n: nat)
    requires n <= |c.shards| && OrderedShards(c.shards)
    ensures OrderedRanges(RangesOf(Replaced(c, n))) && AllWellFormed(Replaced(c, n))
  {
    hide OrderedRanges, Before, RowsAfter, Replacement, WellFormed, Less, LessEq, ShardRange, RangeAfter;
    if n > 0 {
      ReplacedOrdered(c, n - 1);
      ReplacementShape(c, n - 1);
      if RowsAfter(c, n - 1) != [] {
        var s :| Replacement(c, n - 1) == [s] && s.rows == RowsAfter(c, n - 1);
        SameRange(c, n - 1, s);
        StaysWithin(c, n - 1);
        RestComesBefore(c, n - 1, s);
        ReplacedBefore(c, n - 1, s);
        OrderedSnoc(Replaced(c, n - 1), s);
        IsWellFormed(s);
      } else {
        assert Replaced(c, n) == Replaced(c, n - 1);
      }
    } else {
      NoRanges();
    }
  }

  lemma IsWellFormed(s: Shard)
    requires s.rows != [] && SortedRows(s.rows)
    ensures WellFormed(s)
  {
  }

  lemma NoRanges()
    ensures OrderedRanges(RangesOf([]))
  {
  }

  lemma RestComesBefore(c: Cycle, n: nat, s: Shard)
    requires n < |c.shards| && OrderedShards(c.shards) && Within(ShardRange(s), ShardRange(c.shards[n]))
    ensures RestBefore(c, n, s)
  {
    hide RowsAfter, WellFormed, Less, LessEq, ShardRange, RangeAfter;
    forall i | 0 <= i < n && RowsAfter(c, i) != [] ensures Less(RangeAfter(c, i).max, ShardRange(s).min) {
      StaysWithin(c, i);
      var o, o' := ShardRange(c.shards[i]), ShardRange(c.shards[n]);
      assert Less(RangesOf(c.shards)[i].max, RangesOf(c.shards)[n].min);
      Widen(RangeAfter(c, i).max, o.max, o'.min, ShardRange(s).min);
    }
  }

  lemma Widen(a: Bytes, b: Bytes, c: Bytes, d: Bytes)
    requires LessEq(a, b) && Less(b, c) && LessEq(c, d)
    ensures Less(a, d)
  {
    hide Less;
    LessEqTransitive(a, b, c);
    LessEqTransitive(a, c, d);
  }

  /** The shard for new files would start before an old shard that stays, and end after it. */
  predicate Spanned(c: Cycle, newRows: seq<Row>, i: nat) {
    && i < |c.shards| && newRows != [] && RowsAfter(c, i) != []
    && Spans(ShardRange(Shard(0, newRows)), ShardRange(c.shards[i]))
  }

  predicate Spans(a: Range, b: Range) {
    Less(a.min, b.min) && Less(b.max, a.max)
  }

  /** A range whose ends an old range does not cover is apart from what remains of the
      earlier range, or spans all of it. */
  lemma ApartUnlessSpanning(t: Range, was: Range, a: Range)
    requires Within(t, was) && Sound(a) && !Covers(was, a.min) && !Covers(was, a.max)
    ensures Apart(t, a) <==> !Spans(a, was)
  {
    hide Less;
    LessOrGeq(a.min, was.min);
    LessOrGeq(was.max, a.min);
    LessOrGeq(a.max, was.min);
    LessOrGeq(was.max, a.max);
    if Less(was.max, a.min) {
      Widen(t.max, was.max, a.min, a.min);
      EndsBefore(t, was, a);
    } else if Less(a.max, was.min) {
      Widen(a.max, a.max, was.min, t.min);
      StartsAfter(was, a, t);
    } else {
      LessIsLessEq(a.min, was.min);
      Inside(t, was, a);
    }
  }

  lemma EndsBefore(t: Range, was: Range, a: Range)
    requires Less(was.max, a.min) && Within(t, was) && Sound(a)
    ensures !Less(a.min, was.min)
  {
    hide Less;
    LessEqTransitive(was.min, t.min, t.max);
    LessEqTransitive(was.min, t.max, was.max);
    LessEqTransitive(was.min, was.max, a.min);
    LessOrGeq(a.min, was.min);
  }

  lemma StartsAfter(was: Range, a: Range, t: Range)
    requires Less(a.max, was.min) && Within(t, was)
    ensures !Less(was.max, a.max)
  {
    hide Less;
    LessEqTransitive(was.min, t.min, t.max);
    LessEqTransitive(was.min, t.max, was.max);
    LessEqTransitive(a.max, was.min, was.max);
    LessOrGeq(was.max, a.max);
  }

  lemma Inside(t: Range, was: Range, a: Range)
    requires Less(a.min, was.min) && Less(was.max, a.max) && Within(t, was)
    ensures !Apart(t, a)
  {
    hide Less;
    LessEqTransitive(a.min, was.min, t.min);
    LessEqTransitive(t.max, was.max, a.max);
    LessEqTransitive(a.min, t.min, t.max);
    LessEqTransitive(t.min, t.max, a.max);
    LessOrGeq(t.max, a.min);
    LessOrGeq(a.max, t.min);
  }

  /** No shard's range covers a path that has no home. */
  lemma Uncovered(shards: seq<Shard>, i: nat, p: Bytes)
    requires OrderedShards(shards) && i < |shards| && Home(shards, p) == -1
    ensures !Covers(ShardRange(shards[i]), p)
  {
    hide OrderedRanges, ShardFor, Covers, WellFormed;
    ShardForIsExact(RangesOf(shards), p);
    assert RangesOf(shards)[i] == ShardRange(shards[i]);
  }

  lemma NewEnds(c: Cycle, newRows: seq<Row>)
    requires NewRowsOf(c, newRows) && newRows != []
    ensures var r := ShardRange(Shard(0, newRows));
      Sound(r) && Home(c.shards, r.min) == -1 && Home(c.shards, r.max) == -1
  {
    hide Less, Home, CountPath, FreshRow;
    assert newRows[0] in newRows && newRows[|newRows| - 1] in newRows;
  }

  /** What remains is apart from the shard for new files unless that spans one of them. */
  lemma RestApartUnlessSpanned(c: Cycle, newRows: seq<Row>, t: Shard)
    requires OrderedShards(c.shards) && NewRowsOf(c, newRows) && newRows != [] && t.rows == newRows
    ensures RestApart(c, |c.shards|, t) <==> forall i :: !Spanned(c, newRows, i)
  {
    hide RowsAfter, WellFormed, OrderedRanges, NewRowsOf, Apart, Spans, ShardRange, RangeAfter, Covers, Home;
    NewEnds(c, newRows);
    SameBounds(t, Shard(0, newRows));
    forall i | 0 <= i < |c.shards| && RowsAfter(c, i) != []
      ensures Apart(RangeAfter(c, i), ShardRange(t)) <==> !Spanned(c, newRows, i)
    {
      StaysWithin(c, i);
      Uncovered(c.shards, i, ShardRange(t).min);
      Uncovered(c.shards, i, ShardRange(t).max);
      ApartUnlessSpanning(RangeAfter(c, i), ShardRange(c.shards[i]), ShardRange(t));
    }
  }

  lemma SameBounds(a: Shard, b: Shard)
    requires a.rows == b.rows
    ensures ShardRange(a) == ShardRange(b)
  {
  }

  lemma WellFormedSnoc(l: seq<Shard>, s: Shard)
    ensures AllWellFormed(l + [s]) <==> AllWellFormed(l) && WellFormed(s)
  {
    hide WellFormed;
    if AllWellFormed(l + [s]) {
      forall i | 0 <= i < |l| ensures WellFormed(l[i]) { assert (l + [s])[i] == l[i]; }
      assert (l + [s])[|l|] == s;
    }
  }

  lemma {:induction false} InsertWellFormed(l: seq<Shard>, s: Shard)
    requires AllWellFormed(l) && WellFormed(s)
    ensures AllWellFormed(InsertShard(l, s))
  {
    hide WellFormed, ShardRange, LessEq;
    var n := |l| - 1;
    if n < 0 || LessEq(ShardRange(l[n]).min, ShardRange(s).min) {
    } else {
      InsertWellFormed(l[..n], s);
      WellFormedSnoc(InsertShard(l[..n], s), l[n]);
    }
  }

  /** The new list when there are new files: theirs is inserted among what remains. */
  lemma NewShardInserted(c: Cycle, newRows: seq<Row>) returns (t: Shard)
    requires OrderedShards(c.shards) && newRows != [] && |c.dirty| > 0
    ensures t.rows == newRows && ShardsAfter(c, newRows) == InsertShard(Replaced(c, |c.shards|), t)
  {
    hide OrderedShards, Replaced, InsertShard, SeqAfter, OrderedRanges, WellFormed;
    ReplacedOrdered(c, |c.shards|);
    t := Shard(SeqAfter(c, |c.shards|), newRows);
    var l := Replaced(c, |c.shards|);
    assert (l + [t])[..|l|] == l;
    SortIsIdle(l);
  }

  lemma NoNewShard(c: Cycle)
    requires OrderedShards(c.shards)
    ensures ShardsAfter(c, []) == Replaced(c, |c.shards|)
  {
    hide OrderedShards, Replaced, SortShards, OrderedRanges, WellFormed;
    ReplacedOrdered(c, |c.shards|);
    var l := Replaced(c, |c.shards|);
    assert l + [] == l;
    SortIsIdle(l);
    if |c.dirty| == 0 {
      NothingReplaced(c, |c.shards|);
      assert c.shards[..|c.shards|] == c.shards;
    }
  }

  lemma OrderedIs(l: seq<Shard>)
    ensures OrderedShards(l) <==> OrderedRanges(RangesOf(l)) && AllWellFormed(l)
  {
  }

  /** The ranges `shardForPath` relies on stay ordered and disjoint exactly when the
      shard for new files does not span an old shard that stays. */
  lemma RangesStayOrdered(c: Cycle, newRows: seq<Row>)
    requires OrderedShards(c.shards) && NewRowsOf(c, newRows)
    ensures OrderedShards(ShardsAfter(c, newRows)) <==> forall i :: !Spanned(c, newRows, i)
  {
    hide OrderedShards, Replaced, RowsAfter, NewRowsOf, AllWellFormed, ShardsAfter, ShardRange, Spans, RestApart, AllApart, InsertShard, OrderedRanges, RangesOf;
    ReplacedOrdered(c, |c.shards|);
    OrderedIs(ShardsAfter(c, newRows));
    OrderedIs(c.shards);
    if |c.dirty| == 0 { NothingNew(c, newRows); }
    if newRows == [] {
      NoNewShard(c);
    } else {
      var t := NewShardInserted(c, newRows);
      NewWellFormed(c, t);
      NewEnds(c, newRows);
      SameBounds(t, Shard(0, newRows));
      InsertOrdered(Replaced(c, |c.shards|), t);
      InsertWellFormed(Replaced(c, |c.shards|), t);
      ReplacedBefore(c, |c.shards|, t);
      RestApartUnlessSpanned(c, newRows, t);
    }
  }

  lemma NewWellFormed(c: Cycle, t: Shard)
    requires NewRowsOf(c, t.rows) && t.rows != []
    ensures WellFormed(t)
  {
  }
}
