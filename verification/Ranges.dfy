/** Shards cover ranges of paths. Batching sorted files into shards
    (internal/shard/build.go) and finding shards by path or prefix
    (internal/shard/engine.go). */
module Ranges {
  import opened Bytes

  /** A file found by the walker. */
  datatype WalkFile = WalkFile(rel: Bytes, size: nat, mtime: int)

  datatype Range = Range(min: Bytes, max: Bytes)

  predicate Covers(r: Range, p: Bytes) {
    LessEq(r.min, p) && LessEq(p, r.max)
  }

  // ---- batching ----

  predicate SortedFiles(fs: seq<WalkFile>) {
    forall i, j :: 0 <= i < j < |fs| ==> LessEq(fs[i].rel, fs[j].rel)
  }

  predicate StrictlySorted(fs: seq<WalkFile>) {
    forall i, j :: 0 <= i < j < |fs| ==> Less(fs[i].rel, fs[j].rel)
  }

  function Flatten(bs: seq<seq<WalkFile>>): seq<WalkFile> {
    if |bs| == 0 then [] else Flatten(bs[..|bs| - 1]) + bs[|bs| - 1]
  }

  function TotalSize(fs: seq<WalkFile>): nat {
    if |fs| == 0 then 0 else TotalSize(fs[..|fs| - 1]) + fs[|fs| - 1].size
  }

  lemma FlattenSnoc(bs: seq<seq<WalkFile>>, b: seq<WalkFile>)
    ensures Flatten(bs + [b]) == Flatten(bs) + b
  {
    assert (bs + [b])[..|bs|] == bs;
  }

  lemma TotalSnoc(fs: seq<WalkFile>, f: WalkFile)
    ensures TotalSize(fs + [f]) == TotalSize(fs) + f.size
  {
    assert (fs + [f])[..|fs|] == fs;
  }

  lemma {:induction false} TotalAppend(a: seq<WalkFile>, b: seq<WalkFile>)
    ensures TotalSize(a + b) == TotalSize(a) + TotalSize(b)
  {
    if |b| == 0 {
      assert a + b == a;
    } else {
      var n := |b| - 1;
      assert (a + b)[..|a + b| - 1] == a + b[..n];
      TotalAppend(a, b[..n]);
    }
  }

  /** Inserts by path, after files with the same path. */
  method InsertFile(fs: seq<WalkFile>, f: WalkFile) returns (r: seq<WalkFile>)
    requires SortedFiles(fs)
    ensures SortedFiles(r) && multiset(r) == multiset(fs) + multiset{f}
  {
    var i := 0;
    while i < |fs| && LessEq(fs[i].rel, f.rel)
      invariant 0 <= i <= |fs| && forall j :: 0 <= j < i ==> LessEq(fs[j].rel, f.rel)
    {
      i := i + 1;
    }
    r := fs[..i] + [f] + fs[i..];
    InsertedFile(fs, i, f);
  }

  lemma InsertedFile(fs: seq<WalkFile>, i: nat, f: WalkFile)
    requires SortedFiles(fs) && i <= |fs|
    requires (forall j :: 0 <= j < i ==> LessEq(fs[j].rel, f.rel)) && (i < |fs| ==> !LessEq(fs[i].rel, f.rel))
    ensures SortedFiles(fs[..i] + [f] + fs[i..])
    ensures multiset(fs[..i] + [f] + fs[i..]) == multiset(fs) + multiset{f}
  {
    hide Less, LessEq;
    InsertedBag(fs, i, f);
    var r := fs[..i] + [f] + fs[i..];
    forall a, b | 0 <= a < b < |r| ensures LessEq(r[a].rel, r[b].rel) {
      InsertedAt(fs, i, f, a);
      InsertedAt(fs, i, f, b);
      if a == i { AfterInsert(fs, i, f, b - 1); }
    }
  }

  lemma InsertedAt(fs: seq<WalkFile>, i: nat, f: WalkFile, a: nat)
    requires i <= |fs| && a <= |fs|
    ensures (fs[..i] + [f] + fs[i..])[a] == if a < i then fs[a] else if a == i then f else fs[a - 1]
  {
  }

  lemma InsertedBag(fs: seq<WalkFile>, i: nat, f: WalkFile)
    requires i <= |fs|
    ensures multiset(fs[..i] + [f] + fs[i..]) == multiset(fs) + multiset{f}
  {
    assert fs == fs[..i] + fs[i..];
  }

  lemma AfterInsert(fs: seq<WalkFile>, i: nat, f: WalkFile, k: nat)
    requires SortedFiles(fs) && i <= k < |fs| && !LessEq(fs[i].rel, f.rel)
    ensures LessEq(f.rel, fs[k].rel)
  {
    LessOrGeq(f.rel, fs[i].rel);
    LessEqTransitive(f.rel, fs[i].rel, fs[k].rel);
  }

  method SortFiles(fs: seq<WalkFile>) returns (r: seq<WalkFile>)
    ensures SortedFiles(r) && multiset(r) == multiset(fs)
  {
    hide SortedFiles;
    r := [];
    assert SortedFiles(r) by { NothingToSort(); }
    for i := 0 to |fs|
      invariant SortedFiles(r) && multiset(r) == multiset(fs[..i])
    {
      assert fs[..i + 1] == fs[..i] + [fs[i]];
      r := InsertFile(r, fs[i]);
    }
    assert fs[..|fs|] == fs;
  }

  lemma NothingToSort()
    ensures SortedFiles([])
  {
  }

  /** The largest file of a list, or zero. */
  ghost predicate AtMost(fs: seq<WalkFile>, m: nat) {
    forall i :: 0 <= i < |fs| ==> fs[i].size <= m
  }

  /** A full batch: it reached the target, but only with its last file. */
  ghost predicate FullBatch(b: seq<WalkFile>, target: int, largest: nat) {
    b != [] && TotalSize(b) >= target && (target > 0 ==> TotalSize(b) < target + largest)
  }

  ghost predicate AllFull(batches: seq<seq<WalkFile>>, target: int, largest: nat) {
    forall k :: 0 <= k < |batches| ==> FullBatch(batches[k], target, largest)
  }

  /** The accumulation loop: full batches, and what is left over. */
  method SplitBatches(sorted: seq<WalkFile>, target: int, ghost largest: nat)
    returns (batches: seq<seq<WalkFile>>, cur: seq<WalkFile>, curBytes: nat)
    requires AtMost(sorted, largest)
    ensures Flatten(batches) + cur == sorted && AllFull(batches, target, largest)
    ensures curBytes == TotalSize(cur) && (cur != [] ==> curBytes < target)
  {
    hide Flatten, TotalSize, FullBatch;
    batches, cur, curBytes := [], [], 0;
    NoBatches();
    for i := 0 to |sorted|
      invariant Flatten(batches) + cur == sorted[..i]
      invariant curBytes == TotalSize(cur) && (cur != [] ==> curBytes < target)
      invariant AllFull(batches, target, largest)
    {
      ghost var before := cur;
      cur := cur + [sorted[i]];
      curBytes := curBytes + sorted[i].size;
      Took(sorted, i, Flatten(batches), before);
      if curBytes >= target {
        OneBatch(before, sorted[i], cur, target, largest);
        FlattenSnoc(batches, cur);
        batches := batches + [cur];
        cur := [];
        curBytes := 0;
        NoBatches();
        assert Flatten(batches) + [] == Flatten(batches);
      }
    }
    assert sorted[..|sorted|] == sorted;
  }

  lemma Took(sorted: seq<WalkFile>, i: nat, done: seq<WalkFile>, before: seq<WalkFile>)
    requires i < |sorted| && done + before == sorted[..i]
    ensures done + (before + [sorted[i]]) == sorted[..i + 1]
    ensures TotalSize(before + [sorted[i]]) == TotalSize(before) + sorted[i].size
  {
    hide TotalSize;
    TotalSnoc(before, sorted[i]);
    assert sorted[..i + 1] == sorted[..i] + [sorted[i]];
    assert done + (before + [sorted[i]]) == (done + before) + [sorted[i]];
  }

  /** Appending the left-over to the last batch. */
  lemma Merged(batches: seq<seq<WalkFile>>, cur: seq<WalkFile>)
    requires |batches| > 0
    ensures var n := |batches| - 1;
      && Flatten(batches[..n] + [batches[n] + cur]) == Flatten(batches) + cur
      && TotalSize(batches[n] + cur) == TotalSize(batches[n]) + TotalSize(cur)
  {
    hide Flatten, TotalSize;
    var n := |batches| - 1;
    TotalAppend(batches[n], cur);
    FlattenSnoc(batches[..n], batches[n]);
    FlattenSnoc(batches[..n], batches[n] + cur);
    assert batches[..n] + [batches[n]] == batches;
    assert (Flatten(batches[..n]) + batches[n]) + cur == Flatten(batches[..n]) + (batches[n] + cur);
  }

  /** What batching promises: nonempty batches, each but the last reaching the target,
      and all of them bounded. */
  ghost predicate WellBatched(batches: seq<seq<WalkFile>>, target: int, min: int, largest: nat) {
    && (forall i :: 0 <= i < |batches| ==> batches[i] != [])
    && (forall i :: 0 <= i < |batches| - 1 ==> TotalSize(batches[i]) >= target)
    && (target > 0 ==> forall i :: 0 <= i < |batches| ==>
          TotalSize(batches[i]) < target + largest + (if min > 0 then min else 1))
  }

  /** Batches by accumulated size; a left-over below the minimum is merged into the
      batch before it. */
  method GroupByDirBoundary(files: seq<WalkFile>, target: int, min: int, ghost largest: nat)
    returns (sorted: seq<WalkFile>, batches: seq<seq<WalkFile>>)
    requires AtMost(files, largest)
    ensures SortedFiles(sorted) && multiset(sorted) == multiset(files)
    ensures Flatten(batches) == sorted
    ensures WellBatched(batches, target, min, largest)
  {
    hide SortedFiles, Flatten, TotalSize;
    sorted := SortFiles(files);
    SameLargest(files, sorted, largest);
    var cur, curBytes;
    batches, cur, curBytes := SplitBatches(sorted, target, largest);
    if |cur| > 0 {
      if |batches| > 0 && curBytes < min {
        Merged(batches, cur);
        assert FullBatch(batches[|batches| - 1], target, largest);
        batches := batches[..|batches| - 1] + [batches[|batches| - 1] + cur];
      } else {
        FlattenSnoc(batches, cur);
        batches := batches + [cur];
      }
    } else {
      assert Flatten(batches) + [] == Flatten(batches);
    }
  }

  lemma SameLargest(a: seq<WalkFile>, b: seq<WalkFile>, m: nat)
    requires AtMost(a, m) && multiset(a) == multiset(b)
    ensures AtMost(b, m)
  {
    forall i | 0 <= i < |b| ensures b[i].size <= m {
      assert b[i] in multiset(b);
      assert b[i] in a;
    }
  }

  lemma NoBatches()
    ensures Flatten([]) == [] && TotalSize([]) == 0
  {
  }

  lemma OneBatch(before: seq<WalkFile>, f: WalkFile, cur: seq<WalkFile>, target: int, largest: nat)
    requires cur == before + [f] && TotalSize(cur) >= target && f.size <= largest
    requires before != [] ==> TotalSize(before) < target
    ensures FullBatch(cur, target, largest)
  {
    TotalSnoc(before, f);
  }

  // ---- the ranges that batches span ----

  function RangeOf(b: seq<WalkFile>): Range
    requires b != []
  {
    Range(b[0].rel, b[|b| - 1].rel)
  }

  /** Each range is sound and lies wholly before the next ones. */
  ghost predicate OrderedRanges(rs: seq<Range>) {
    && (forall i :: 0 <= i < |rs| ==> LessEq(rs[i].min, rs[i].max))
    && (forall i, j :: 0 <= i < j < |rs| ==> Less(rs[i].max, rs[j].min))
  }

  /** Shards sorted by their smallest path; the ranges may overlap. */
  ghost predicate SortedMins(rs: seq<Range>) {
    forall i, j :: 0 <= i <= j < |rs| ==> LessEq(rs[i].min, rs[j].min)
  }

  lemma OrderedAreSorted(rs: seq<Range>)
    requires OrderedRanges(rs)
    ensures SortedMins(rs)
  {
    forall i, j | 0 <= i <= j < |rs| ensures LessEq(rs[i].min, rs[j].min) {
      if i < j { LessEqTransitive(rs[i].min, rs[i].max, rs[j].min); }
    }
  }

  /** Sorted files with distinct paths are strictly sorted. */
  lemma DistinctPaths(fs: seq<WalkFile>)
    requires SortedFiles(fs) && forall i, j :: 0 <= i < j < |fs| ==> fs[i].rel != fs[j].rel
    ensures StrictlySorted(fs)
  {
  }

  lemma {:induction false} FlattenPlace(bs: seq<seq<WalkFile>>, i: nat, k: nat)
    requires i < |bs| && k < |bs[i]|
    ensures |Flatten(bs[..i])| + k < |Flatten(bs[..i + 1])| <= |Flatten(bs)|
    ensures Flatten(bs)[|Flatten(bs[..i])| + k] == bs[i][k]
  {
    var n := |bs| - 1;
    FlattenSnoc(bs[..i], bs[i]);
    assert bs[..i + 1] == bs[..i] + [bs[i]];
    if i < n {
      FlattenPlace(bs[..n], i, k);
      assert bs[..n][..i] == bs[..i] && bs[..n][..i + 1] == bs[..i + 1];
    } else {
      assert bs[..i + 1] == bs;
    }
  }

  /** Batches of strictly sorted files span ordered, disjoint ranges. */
  lemma BatchesAreOrdered(bs: seq<seq<WalkFile>>)
    requires StrictlySorted(Flatten(bs)) && forall i :: 0 <= i < |bs| ==> bs[i] != []
    ensures OrderedRanges(seq(|bs|, i requires 0 <= i < |bs| => RangeOf(bs[i])))
  {
    hide Flatten, Less;
    forall i | 0 <= i < |bs| ensures LessEq(RangeOf(bs[i]).min, RangeOf(bs[i]).max) {
      FlattenPlace(bs, i, 0);
      FlattenPlace(bs, i, |bs[i]| - 1);
    }
    forall i, j | 0 <= i < j < |bs| ensures Less(RangeOf(bs[i]).max, RangeOf(bs[j]).min) {
      FlattenPlace(bs, i, |bs[i]| - 1);
      FlattenPlace(bs, j, 0);
      PrefixLength(bs, i + 1, j);
    }
  }

  lemma {:induction false} PrefixLength(bs: seq<seq<WalkFile>>, i: nat, j: nat)
    requires i <= j <= |bs|
    ensures |Flatten(bs[..i])| <= |Flatten(bs[..j])|
    decreases j
  {
    if i < j {
      assert bs[..j] == bs[..j - 1] + [bs[j - 1]];
      FlattenSnoc(bs[..j - 1], bs[j - 1]);
      PrefixLength(bs, i, j - 1);
    }
  }

  // ---- the shard that may contain a path ----

  /** The last shard starting at or before `p`, if it reaches `p`; else -1. */
  function ShardFor(rs: seq<Range>, p: Bytes): (r: int)
    ensures -1 <= r < |rs|
  {
    if |rs| == 0 then -1
    else
      var n := |rs| - 1;
      if LessEq(rs[n].min, p) then (if LessEq(p, rs[n].max) then n else -1) else ShardFor(rs[..n], p)
  }

  /** Shards from `lo` on start after `p`, and the one before `lo` does not. */
  ghost predicate Split(rs: seq<Range>, p: Bytes, lo: nat) {
    && lo <= |rs|
    && (forall i :: lo <= i < |rs| ==> !LessEq(rs[i].min, p))
    && (lo > 0 ==> LessEq(rs[lo - 1].min, p))
  }

  lemma {:induction false} SplitIsShardFor(rs: seq<Range>, p: Bytes, lo: nat)
    requires Split(rs, p, lo)
    ensures ShardFor(rs, p) == if lo > 0 && LessEq(p, rs[lo - 1].max) then lo - 1 else -1
  {
    hide Less, LessEq;
    if |rs| > 0 {
      var n := |rs| - 1;
      if lo <= n { SplitIsShardFor(rs[..n], p, lo); }
    }
  }

  /** Binary search for the last shard whose smallest path is not beyond `p`. */
  method ShardForPath(rs: seq<Range>, p: Bytes) returns (r: int)
    requires SortedMins(rs)
    ensures r == ShardFor(rs, p)
  {
    hide Less, LessEq, ShardFor;
    var lo, hi := 0, |rs|;
    while lo < hi
      invariant 0 <= lo <= hi <= |rs|
      invariant lo > 0 ==> LessEq(rs[lo - 1].min, p)
      invariant forall i :: hi <= i < |rs| ==> !LessEq(rs[i].min, p)
    {
      var mid := (lo + hi) / 2;
      if !LessEq(rs[mid].min, p) {
        StillBeyond(rs, p, mid);
        hi := mid;
      } else {
        lo := mid + 1;
      }
    }
    SplitIsShardFor(rs, p, lo);
    if lo == 0 { return -1; }
    if LessEq(p, rs[lo - 1].max) { return lo - 1; }
    return -1;
  }

  lemma StillBeyond(rs: seq<Range>, p: Bytes, mid: nat)
    requires SortedMins(rs) && mid < |rs| && !LessEq(rs[mid].min, p)
    ensures forall i :: mid <= i < |rs| ==> !LessEq(rs[i].min, p)
  {
    hide Less, LessEq;
    forall i | mid <= i < |rs| ensures !LessEq(rs[i].min, p) { BeyondToo(rs[mid].min, rs[i].min, p); }
  }

  lemma BeyondToo(a: Bytes, b: Bytes, p: Bytes)
    requires LessEq(a, b) && !LessEq(a, p)
    ensures !LessEq(b, p)
  {
    LessOrGeq(p, a);
    LessEqTransitive(p, a, b);
    LessOrGeq(p, b);
  }

  /** With ordered, disjoint ranges a path lies in at most one, and that is the one
      `ShardFor` names; it names none exactly when there is none. */
  lemma ShardForIsExact(rs: seq<Range>, p: Bytes)
    requires OrderedRanges(rs)
    ensures forall i :: 0 <= i < |rs| ==> (Covers(rs[i], p) <==> i == ShardFor(rs, p))
  {
    OrderedAreSorted(rs);
    var r := ShardFor(rs, p);
    ShardForCovers(rs, p);
    hide Less, LessEq, ShardFor;
    forall i | 0 <= i < |rs| ensures Covers(rs[i], p) <==> i == r {
      if Covers(rs[i], p) { OnlyCover(rs, p, i); }
    }
  }

  lemma {:induction false} ShardForCovers(rs: seq<Range>, p: Bytes)
    ensures var r := ShardFor(rs, p); r >= 0 ==> Covers(rs[r], p)
  {
    hide Less, LessEq;
    if |rs| > 0 { ShardForCovers(rs[..|rs| - 1], p); }
  }

  lemma {:induction false} OnlyCover(rs: seq<Range>, p: Bytes, i: nat)
    requires OrderedRanges(rs) && i < |rs| && Covers(rs[i], p)
    ensures ShardFor(rs, p) == i
  {
    hide Less, LessEq;
    var n := |rs| - 1;
    if i < n {
      LaterBeyond(rs[i].max, rs[n].min, p);
      OnlyCover(rs[..n], p, i);
    }
  }

  lemma LaterBeyond(max: Bytes, min: Bytes, p: Bytes)
    requires LessEq(p, max) && Less(max, min)
    ensures !LessEq(min, p)
  {
    LessEqTransitive(p, max, min);
    LessOrGeq(p, min);
  }

  // ---- the shards that may contain a prefix ----

  /** The test the loop makes: the shard does not end before the prefix, and starts
      with it or not after it. */
  predicate MayContain(r: Range, prefix: Bytes) {
    LessEq(prefix, r.max) && (prefix <= r.min || LessEq(r.min, prefix))
  }

  /** A shard holding a path with the prefix passes the test, as does every one whose
      start such a path could follow. */
  lemma CoverPasses(r: Range, prefix: Bytes, q: Bytes)
    requires Covers(r, q) && prefix <= q
    ensures MayContain(r, prefix)
  {
    PrefixLessEq(prefix, q);
    LessEqTransitive(prefix, q, r.max);
    StartsEarly(r.min, prefix, q);
  }

  /** Whatever is at or before a path with the prefix has the prefix or is not beyond it. */
  lemma StartsEarly(min: Bytes, prefix: Bytes, q: Bytes)
    requires LessEq(min, q) && prefix <= q
    ensures prefix <= min || LessEq(min, prefix)
  {
    if !(prefix <= min) && !LessEq(min, prefix) {
      LessOrGeq(prefix, min);
      PastPrefix(prefix, min, q);
      LessOrGeq(q, min);
    }
  }

  /** Once a shard starts beyond the prefix without having it, so do all later ones. */
  lemma AllBeyond(rs: seq<Range>, prefix: Bytes, i: nat, j: nat, q: Bytes)
    requires SortedMins(rs) && i <= j < |rs| && prefix <= q && LessEq(rs[j].min, q)
    ensures prefix <= rs[i].min || LessEq(rs[i].min, prefix)
  {
    LessEqTransitive(rs[i].min, rs[j].min, q);
    StartsEarly(rs[i].min, prefix, q);
  }

  /** Shards that may contain paths with the prefix. The early exit skips no shard
      holding one, even when ranges overlap. */
  method ShardsForPrefix(rs: seq<Range>, prefix: Bytes) returns (out: seq<nat>)
    requires SortedMins(rs)
    ensures forall i :: i in out ==> i < |rs| && MayContain(rs[i], prefix)
    ensures forall j, q :: 0 <= j < |rs| && prefix <= q && Covers(rs[j], q) ==> j in out
  {
    hide Less, LessEq;
    out := [];
    for i := 0 to |rs|
      invariant forall k :: k in out ==> k < i && MayContain(rs[k], prefix)
      invariant forall k :: 0 <= k < i && MayContain(rs[k], prefix) ==> k in out
    {
      if !LessEq(prefix, rs[i].max) { continue; }
      if prefix <= rs[i].min || LessEq(rs[i].min, prefix) {
        out := out + [i];
        continue;
      }
      forall j, q | 0 <= j < |rs| && prefix <= q && Covers(rs[j], q) ensures j in out {
        CoverPasses(rs[j], prefix, q);
        if i <= j { AllBeyond(rs, prefix, i, j, q); }
      }
      return;
    }
    forall j, q | 0 <= j < |rs| && prefix <= q && Covers(rs[j], q) ensures j in out { CoverPasses(rs[j], prefix, q); }
  }
}
