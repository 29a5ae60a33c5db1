/** The index object and its search, on top of IndexSpec. */
module MemIndex {
  import opened Prelude
  import opened Bytes
  import opened Literal
  import opened Lines
  import opened IndexSpec
  import opened Sorted
  import Agreement

  const COMPACT_MIN_DEAD := 64
  const COMPACT_DEAD_RATIO := 4

  // ---- trigram keys and posting lists ----

  /** The trigram set of `content` as a duplicate-free list, in no particular order. */
  method TrigramKeys(content: Bytes) returns (keys: seq<nat>)
    ensures NoTwice(keys)
    ensures forall k: nat :: k in keys <==> k in Tris(content)
  {
    var seen: set<nat> := {};
    var i := 0;
    while i + 3 <= |content|
      invariant forall k :: k in seen <==> exists j: nat :: j < i && j + 3 <= |content| && TriKey(content, j) == k
    {
      seen := seen + {TriKey(content, i)};
      i := i + 1;
    }
    assert seen == Tris(content);
    keys := [];
    while seen != {}
      invariant NoTwice(keys)
      invariant forall k :: k in keys ==> k !in seen
      invariant forall k: nat :: k in keys || k in seen <==> k in Tris(content)
      decreases seen
    {
      var k :| k in seen;
      seen := seen - {k};
      keys := keys + [k];
    }
  }

  /** Appends `id` to the list of every key. */
  method PostAll(tri: Postings, keys: seq<nat>, id: nat) returns (r: Postings)
    requires NoTwice(keys)
    ensures forall k: nat :: Ids(r, k) == Ids(tri, k) + (if k in keys then [id] else [])
  {
    r := tri;
    for i := 0 to |keys|
      invariant forall k: nat :: Ids(r, k) == Ids(tri, k) + (if k in keys[..i] then [id] else [])
    {
      var k := keys[i];
      assert k !in keys[..i];
      r := r[k := (if k in r then r[k] else []) + [id]];
      assert keys[..i + 1] == keys[..i] + [k];
    }
    assert keys[..|keys|] == keys;
  }

  // ---- compaction ----

  /** Entry `live[k]` is the live entry that `byPath` has for its path. */
  ghost predicate KeptOk(live: seq<Entry>, files: seq<Entry>, byPath: map<Bytes, nat>, k: nat)
    requires k < |live| && PathsOk(files, byPath)
  {
    live[k].meta.path in byPath && files[byPath[live[k].meta.path]] == live[k]
  }

  ghost predicate Kept(live: seq<Entry>, files: seq<Entry>, byPath: map<Bytes, nat>, n: nat)
    requires PathsOk(files, byPath)
  {
    && (forall k :: 0 <= k < |live| ==> KeptOk(live, files, byPath, k) && byPath[live[k].meta.path] < n)
    && (forall j, k :: 0 <= j < k < |live| ==> live[j].meta.path != live[k].meta.path)
    && (forall p :: p in byPath && byPath[p] < n ==> exists k :: 0 <= k < |live| && live[k].meta.path == p)
  }

  /** The live entries, in order. */
  method KeepLive(files: seq<Entry>, ghost byPath: map<Bytes, nat>) returns (live: seq<Entry>)
    requires PathsOk(files, byPath)
    ensures Kept(live, files, byPath, |files|)
  {
    live := [];
    for n := 0 to |files|
      invariant Kept(live, files, byPath, n)
    {
      if !files[n].dead {
        KeepOne(live, files, byPath, n);
        live := live + [files[n]];
      } else {
        assert forall p :: p in byPath ==> byPath[p] != n;
      }
    }
  }

  lemma KeepOne(live: seq<Entry>, files: seq<Entry>, byPath: map<Bytes, nat>, n: nat)
    requires PathsOk(files, byPath) && Kept(live, files, byPath, n) && n < |files| && !files[n].dead
    ensures Kept(live + [files[n]], files, byPath, n + 1)
  {
    var live' := live + [files[n]];
    forall k | 0 <= k < |live'| ensures KeptOk(live', files, byPath, k) && byPath[live'[k].meta.path] < n + 1 {
      if k < |live| { assert KeptOk(live, files, byPath, k); }
    }
    forall j | 0 <= j < |live| ensures live[j].meta.path != files[n].meta.path {
      assert KeptOk(live, files, byPath, j);
    }
    forall p | p in byPath && byPath[p] < n + 1 ensures exists k :: 0 <= k < |live'| && live'[k].meta.path == p {
      if byPath[p] == n { assert live'[|live|].meta.path == p; }
      else {
        var k :| 0 <= k < |live| && live[k].meta.path == p;
        assert live'[k].meta.path == p;
      }
    }
  }

  /** Path table and posting lists for a list of live entries, from scratch. */
  method Reindex(live: seq<Entry>) returns (byPath: map<Bytes, nat>, tri: Postings)
    requires forall k :: 0 <= k < |live| ==> !live[k].dead
    requires forall j, k :: 0 <= j < k < |live| ==> live[j].meta.path != live[k].meta.path
    ensures PathsOk(live, byPath) && PostingsOk(live, tri)
    ensures byPath.Keys == set k | 0 <= k < |live| :: live[k].meta.path
  {
    byPath, tri := map[], map[];
    assert PostingsOk([], tri) by {
      forall k: nat ensures Posting(Ids(tri, k), [], k) {}
    }
    for id := 0 to |live|
      invariant PathsOk(live[..id], byPath) && PostingsOk(live[..id], tri)
      invariant byPath.Keys == set k | 0 <= k < id :: live[k].meta.path
    {
      assert live[..id + 1] == live[..id] + [live[id]];
      PathsAppend(live[..id], byPath, live[id]);
      byPath := byPath[live[id].meta.path := id];
      var keys := TrigramKeys(live[id].content);
      var tri' := PostAll(tri, keys, id);
      PostingsAppend(live[..id], tri, live[id], tri');
      tri := tri';
    }
    assert live[..|live|] == live;
  }

  lemma CompactKeepsView(live: seq<Entry>, byPath': map<Bytes, nat>, files: seq<Entry>, byPath: map<Bytes, nat>)
    requires PathsOk(files, byPath) && PathsOk(live, byPath')
    requires Kept(live, files, byPath, |files|)
    requires byPath'.Keys == set k | 0 <= k < |live| :: live[k].meta.path
    ensures View(live, byPath') == View(files, byPath)
  {
    forall p ensures p in byPath <==> p in byPath' {
      if p in byPath { assert byPath[p] < |files|; }
      if p in byPath' {
        var k :| 0 <= k < |live| && live[k].meta.path == p;
        assert KeptOk(live, files, byPath, k);
      }
    }
    forall p | p in byPath ensures live[byPath'[p]] == files[byPath[p]] {
      assert KeptOk(live, files, byPath, byPath'[p]);
    }
  }

  lemma {:induction false} NoneDead(live: seq<Entry>)
    requires forall k :: 0 <= k < |live| ==> !live[k].dead
    ensures DeadCount(live) == 0
  {
    if |live| > 0 { NoneDead(live[..|live| - 1]); }
  }

  lemma KeptAreLive(live: seq<Entry>, files: seq<Entry>, byPath: map<Bytes, nat>)
    requires PathsOk(files, byPath) && Kept(live, files, byPath, |files|)
    ensures forall k :: 0 <= k < |live| ==> !live[k].dead
  {
    forall k | 0 <= k < |live| ensures !live[k].dead { assert KeptOk(live, files, byPath, k); }
  }

  // ---- candidates ----

  /** Ids on every list, starting from the shortest. */
  method IntersectAll(lists: seq<seq<nat>>) returns (out: seq<nat>)
    requires |lists| > 0 && forall k :: 0 <= k < |lists| ==> Ascending(lists[k])
    ensures Ascending(out)
    ensures forall x :: x in out <==> forall k :: 0 <= k < |lists| ==> x in lists[k]
  {
    var shortest := 0;
    for i := 0 to |lists|
      invariant 0 <= shortest < |lists|
    {
      if |lists[i]| < |lists[shortest]| { shortest := i; }
    }
    out := lists[shortest];
    for i := 0 to |lists|
      invariant Ascending(out)
      invariant forall x :: x in out <==> x in lists[shortest] && forall k :: 0 <= k < i ==> x in lists[k]
    {
      if i != shortest {
        out := Intersect(out, lists[i]);
        if |out| == 0 { return; }
      }
    }
  }

  // ---- what a search owes ----

  datatype Query = Query(literal: Bytes, plain: Bytes, fold: bool, re: Bytes -> seq<Loc>,
                         pathMatch: Bytes -> bool, maxSize: int, filesOnly: bool, limit: int, maxCols: int)

  datatype Result = Result(matches: seq<Match>, counts: map<Bytes, nat>, truncated: bool)

  /** All matches in one file: the plain literal's, or else the pattern's. */
  function Locs(q: Query, content: Bytes): seq<Loc> {
    if |q.plain| > 0 then FindAll(content, q.plain, q.fold, 0) else q.re(content)
  }

  predicate Qualifies(q: Query, d: Doc) {
    (q.maxSize <= 0 || d.meta.size <= q.maxSize) && q.pathMatch(d.meta.path)
  }

  /** Match counts from scanning every document, no index involved. */
  function Scan(v: map<Bytes, Doc>, q: Query): map<Bytes, nat> {
    map p | p in v && Qualifies(q, v[p]) && Locs(q, v[p].content) != [] :: |Locs(q, v[p].content)|
  }

  /** The pruning literal never rules out a file with a match, and matches come in order. */
  ghost predicate Sound(q: Query) {
    && (forall c :: Ordered(c, q.re(c)))
    && (|q.literal| >= 3 ==> forall c :: Locs(q, c) != [] ==> Tris(q.literal) <= Tris(c))
  }

  lemma LocsOrdered(q: Query, c: Bytes)
    requires Sound(q)
    ensures Ordered(c, Locs(q, c))
  {
    if |q.plain| > 0 { Agreement.FindAllOrdered(c, q.plain, q.fold, 0); }
  }

  /** The lines a scan reports for one path. */
  function ScanLinesOf(v: map<Bytes, Doc>, q: Query, p: Bytes): seq<Match>
    requires Sound(q)
  {
    if p in Scan(v, q) && !q.filesOnly then
      LocsOrdered(q, v[p].content);
      PerLine(p, v[p].content, Locs(q, v[p].content), 0, -1, q.maxCols)
    else []
  }

  function NoPattern(line: Bytes): Option<Loc> { None }

  /** The matches a query has to find in a text: the occurrences of its literal from left to
      right, in either case mode, or what the library finds. */
  ghost predicate Finds(q: Query, c: Bytes, locs: seq<Loc>) {
    if q.plain != [] then Leftmost(c, q.plain, q.fold, 0, locs) else locs == q.re(c)
  }

  /** What a search that is not cut off owes for one path, told from the text alone:
      nothing unless the file is wanted; else the number of matches, if there are any, and
      a report of each line one starts on, which for a literal without a newline are the
      lines of a line by line search. */
  ghost predicate Owes(v: map<Bytes, Doc>, q: Query, p: Bytes, ms: seq<Match>, counts: map<Bytes, nat>) {
    if p in v && (q.maxSize <= 0 || v[p].meta.size <= q.maxSize) && q.pathMatch(v[p].meta.path) then
      exists locs :: Finds(q, v[p].content, locs) && OwesFor(q, p, v[p].content, locs, ms, counts)
    else p !in counts && ms == []
  }

  ghost predicate OwesFor(q: Query, p: Bytes, c: Bytes, locs: seq<Loc>, ms: seq<Match>, counts: map<Bytes, nat>) {
    && (p in counts <==> locs != []) && (p in counts ==> counts[p] == |locs|)
    && if q.filesOnly then ms == []
       else
         && LocReports(p, c, locs, q.maxCols, ms)
         && (q.plain != [] && NEWLINE !in q.plain ==> LineReports(p, c, Matcher(q.plain, q.fold, None, NoPattern), q.maxCols, 0, ms))
  }

  lemma LocsAreFound(q: Query, c: Bytes)
    ensures Finds(q, c, Locs(q, c))
  {
    if q.plain != [] { FindAllIsLeftmost(c, q.plain, q.fold, 0); }
  }

  lemma LinesOwed(q: Query, p: Bytes, c: Bytes)
    requires q.plain != [] && NEWLINE !in q.plain && Ordered(c, Locs(q, c))
    ensures LineReports(p, c, Matcher(q.plain, q.fold, None, NoPattern), q.maxCols, 0, PerLine(p, c, Locs(q, c), 0, -1, q.maxCols))
  {
    hide LineReports, PerLine, ScanLines, Ordered, Occurs;
    var m := Matcher(q.plain, q.fold, None, NoPattern);
    Agreement.EnginesAgree(p, c, q.plain, q.fold, q.maxCols);
    LimitedReports(p, c, m, q.maxCols, 0);
    assert FinderOf(m) == LiteralFinder(q.plain, q.fold);
  }

  lemma ScanOwes(v: map<Bytes, Doc>, q: Query, p: Bytes)
    requires Sound(q)
    ensures Owes(v, q, p, ScanLinesOf(v, q, p), Scan(v, q))
  {
    hide LineReports, LocReports, PerLine, Sound, Leftmost, Finds;
    if p in v {
      var c := v[p].content;
      LocsAreFound(q, c);
      LocsOrdered(q, c);
      PerLineTells(p, c, Locs(q, c), q.maxCols);
      if q.plain != [] && NEWLINE !in q.plain { LinesOwed(q, p, c); }
      if Locs(q, c) == [] { NoLinesOwed(p, c, q.maxCols); }
    }
  }

  lemma NoLinesOwed(p: Bytes, c: Bytes, maxCols: int)
    ensures PerLine(p, c, [], 0, -1, maxCols) == []
  {
  }

  /** Cut off, it has exactly as many lines as it may, of each path the first of those
      owed, and right counts for the files it got to. */
  ghost predicate OwesPart(v: map<Bytes, Doc>, q: Query, p: Bytes, res: Result) {
    exists ms, counts ::
      Owes(v, q, p, ms, counts) && OfPath(res.matches, p) <= ms && (p in res.counts ==> p in counts && res.counts[p] == counts[p])
  }

  /** The whole result, told from the texts alone. */
  ghost predicate Answers(v: map<Bytes, Doc>, q: Query, res: Result) {
    if res.truncated then |res.matches| == q.limit > 0 && forall p :: OwesPart(v, q, p, res)
    else forall p :: Owes(v, q, p, OfPath(res.matches, p), res.counts)
  }

  lemma WholeAnswers(v: map<Bytes, Doc>, q: Query, res: Result)
    requires Sound(q) && !res.truncated && res.counts == Scan(v, q)
    requires forall p :: OfPath(res.matches, p) == ScanLinesOf(v, q, p)
    ensures Answers(v, q, res)
  {
    hide Sound, Owes, Scan, ScanLinesOf, OfPath;
    forall p ensures Owes(v, q, p, OfPath(res.matches, p), res.counts) { ScanOwes(v, q, p); }
  }

  lemma CutAnswers(v: map<Bytes, Doc>, q: Query, res: Result)
    requires Sound(q) && res.truncated && CutShort(v, q, res)
    ensures Answers(v, q, res)
  {
    hide Sound, Owes, Scan, ScanLinesOf, OfPath;
    forall p ensures OwesPart(v, q, p, res) { ScanOwes(v, q, p); }
  }

  lemma {:induction false} PerLinePath(path: Bytes, c: Bytes, locs: seq<Loc>, i: nat, last: int, maxCols: int)
    requires Ordered(c, locs) && i <= |locs|
    ensures forall k :: 0 <= k < |PerLine(path, c, locs, i, last, maxCols)| ==> PerLine(path, c, locs, i, last, maxCols)[k].path == path
    decreases |locs| - i
  {
    if i < |locs| {
      assert Placed(c, locs, i);
      hide Newlines, LineStart, LineEnd, Ordered;
      var n := Newlines(c, locs[i].start) + 1;
      PerLinePath(path, c, locs, i + 1, if n == last then last else n, maxCols);
    }
  }

  // ---- the search over one candidate ----

  method FindIn(q: Query, content: Bytes) returns (locs: seq<Loc>)
    ensures locs == Locs(q, content)
  {
    if |q.plain| > 0 { locs := LiteralFindAll(content, q.plain, q.fold); } else { locs := q.re(content); }
  }

  /** The results after the candidates in `done`: complete for their paths. */
  ghost predicate Covers(v: map<Bytes, Doc>, q: Query, done: set<Bytes>, matches: seq<Match>, counts: map<Bytes, nat>)
    requires Sound(q)
  {
    && (forall p :: p in counts <==> p in done && p in Scan(v, q))
    && (forall p :: p in counts ==> counts[p] == Scan(v, q)[p])
    && (forall p :: OfPath(matches, p) == if p in done then ScanLinesOf(v, q, p) else [])
  }

  lemma ScanLinesPath(v: map<Bytes, Doc>, q: Query, p: Bytes)
    requires Sound(q)
    ensures forall k :: 0 <= k < |ScanLinesOf(v, q, p)| ==> ScanLinesOf(v, q, p)[k].path == p
    ensures p !in Scan(v, q) ==> ScanLinesOf(v, q, p) == []
  {
    hide Locs, Qualifies, PerLine;
    if p in Scan(v, q) && !q.filesOnly {
      LocsOrdered(q, v[p].content);
      PerLinePath(p, v[p].content, Locs(q, v[p].content), 0, -1, q.maxCols);
    }
  }

  lemma AddLines(matches: seq<Match>, ms: seq<Match>, p: Bytes)
    requires forall k :: 0 <= k < |ms| ==> ms[k].path == p
    ensures forall r :: OfPath(matches + ms, r) == OfPath(matches, r) + (if r == p then ms else [])
  {
    hide OfPath;
    forall r ensures OfPath(matches + ms, r) == OfPath(matches, r) + (if r == p then ms else []) {
      OfPathAppend(matches, ms, r);
      OfPathUniform(ms, r, p);
    }
  }

  lemma CoversNext(v: map<Bytes, Doc>, q: Query, done: set<Bytes>, matches: seq<Match>, counts: map<Bytes, nat>, p: Bytes)
    requires Sound(q) && Covers(v, q, done, matches, counts) && p in v && p !in done
    ensures p !in Scan(v, q) ==> Covers(v, q, done + {p}, matches, counts)
    ensures p in Scan(v, q) ==> Covers(v, q, done + {p}, matches + ScanLinesOf(v, q, p), counts[p := Scan(v, q)[p]])
  {
    hide Sound, Locs, Qualifies, Scan, ScanLinesOf, OfPath;
    ScanLinesPath(v, q, p);
    AddLines(matches, ScanLinesOf(v, q, p), p);
    assert matches + [] == matches;
  }

  /** One live candidate. `stop` reports that the limit was reached. */
  method SearchOne(e: Entry, q: Query, matches: seq<Match>, counts: map<Bytes, nat>)
    returns (matches': seq<Match>, counts': map<Bytes, nat>, stop: bool)
    requires Sound(q) && (q.limit > 0 ==> |matches| < q.limit)
    ensures stop ==> |matches'| == q.limit > 0
    ensures !stop && q.limit > 0 ==> |matches'| < q.limit
    ensures var hit := Qualifies(q, Doc(e.meta, e.content)) && Locs(q, e.content) != [];
      counts' == if hit then counts[e.meta.path := |Locs(q, e.content)|] else counts
    ensures Ordered(e.content, Locs(q, e.content))
    ensures var hit := Qualifies(q, Doc(e.meta, e.content)) && Locs(q, e.content) != [];
      matches' == if hit && !q.filesOnly
        then Limited(matches + PerLine(e.meta.path, e.content, Locs(q, e.content), 0, -1, q.maxCols), q.limit) else matches
  {
    matches', counts', stop := matches, counts, false;
    LocsOrdered(q, e.content);
    hide Sound, Locs, PerLine, Ordered, Limited;
    if q.maxSize > 0 && e.meta.size > q.maxSize { return; }
    if !q.pathMatch(e.meta.path) { return; }
    var locs := FindIn(q, e.content);
    if |locs| == 0 { return; }
    counts' := counts[e.meta.path := |locs|];
    if q.filesOnly { return; }
    matches' := AppendLineMatches(e.meta.path, e.content, locs, matches, q.limit, q.maxCols);
    stop := q.limit > 0 && |matches'| >= q.limit;
  }

  /** A result cut off at the limit has the first of the lines owed for each path, and
      right counts for the files it got to. */
  ghost predicate CutShort(v: map<Bytes, Doc>, q: Query, res: Result)
    requires Sound(q)
  {
    && |res.matches| == q.limit > 0
    && (forall p :: OfPath(res.matches, p) <= ScanLinesOf(v, q, p))
    && (forall p :: p in res.counts ==> p in Scan(v, q) && res.counts[p] == Scan(v, q)[p])
  }

  lemma CoversCut(v: map<Bytes, Doc>, q: Query, done: set<Bytes>, all: seq<Match>, counts: map<Bytes, nat>, matches: seq<Match>)
    requires Sound(q) && Covers(v, q, done, all, counts) && matches <= all && |matches| == q.limit > 0
    ensures CutShort(v, q, Result(matches, counts, true))
  {
    hide Sound, Scan, ScanLinesOf, OfPath;
    forall p ensures OfPath(matches, p) <= ScanLinesOf(v, q, p) { OfPathPrefix(matches, all, p); }
  }

  lemma LimitedIsPrefix<T>(s: seq<T>, limit: int)
    ensures Limited(s, limit) <= s
  {
  }

  lemma NotLimited<T>(a: seq<T>, b: seq<T>, limit: int)
    ensures (limit > 0 && |Limited(a + b, limit)| >= limit) || Limited(a + b, limit) == a + b
    ensures a + [] == a
  {
  }

  /** All live entries for a short literal; else exactly the entries, dead ones
      included, with all of its trigrams. */
  ghost predicate CandidatesOf(files: seq<Entry>, lit: Bytes, ids: seq<nat>) {
    && NoTwice(ids)
    && forall i: nat :: i in ids <==>
         i < |files| && if |lit| < 3 then !files[i].dead else Tris(lit) <= Tris(files[i].content)
  }

  class Index {
    var files: seq<Entry>
    var byPath: map<Bytes, nat>
    var tri: Postings
    var dead: nat

    ghost predicate Valid()
      reads this
    {
      Coherent(files, byPath, tri, dead)
    }

    /** The plain map the index stands for. */
    ghost function Docs(): map<Bytes, Doc>
      reads this
      requires Valid()
    {
      View(files, byPath)
    }

    constructor ()
      ensures Valid() && Docs() == map[]
    {
      files, byPath, tri, dead := [], map[], map[], 0;
      new;
      assert PostingsOk([], map[]) by {
        forall k: nat ensures Posting(Ids(map[], k), [], k) {}
      }
    }

    method RemoveLocked(path: Bytes)
      requires Valid()
      modifies this
      ensures Valid() && Docs() == old(Docs()) - {path}
      ensures byPath == old(byPath) - {path}
    {
      hide PathsOk, PostingsOk, DeadCount, View;
      if path in byPath {
        var id := byPath[path];
        PathsKill(files, byPath, path);
        PostingsKill(files, tri, id);
        DeadCountKill(files, id);
        files := files[id := files[id].(dead := true)];
        dead := dead + 1;
        byPath := byPath - {path};
      } else {
        NothingToRemove(files, byPath, path);
      }
    }

    /** Drops dead entries once they are many; the documents stay the same. */
    method MaybeCompact()
      requires Valid()
      modifies this
      ensures Valid() && Docs() == old(Docs())
      ensures dead < COMPACT_MIN_DEAD || dead * COMPACT_DEAD_RATIO < |files| - dead
    {
      hide PathsOk, PostingsOk, DeadCount, View, Kept;
      if dead < COMPACT_MIN_DEAD || dead * COMPACT_DEAD_RATIO < |files| - dead { return; }
      var live := KeepLive(files, byPath);
      KeptAreLive(live, files, byPath);
      KeptDistinct(live, files, byPath);
      NoneDead(live);
      var byPath', tri' := Reindex(live);
      CompactKeepsView(live, byPath', files, byPath);
      files, byPath, tri, dead := live, byPath', tri', 0;
    }

    /** Inserts or replaces a file, its trigram keys computed beforehand. */
    method AddWithKeys(meta: Meta, content: Bytes, keys: seq<nat>)
      requires Valid()
      requires NoTwice(keys) && forall k: nat :: k in keys <==> k in Tris(content)
      modifies this
      ensures Valid() && Docs() == old(Docs())[meta.path := Doc(meta, content)]
    {
      hide PathsOk, PostingsOk, DeadCount, Tris, NoTwice;
      RemoveLocked(meta.path);
      var e := Entry(meta, content, false);
      ghost var docs := Docs();
      PathsAppend(files, byPath, e);
      DeadCountAppend(files, e);
      var id := |files|;
      var tri' := PostAll(tri, keys, id);
      PostingsAppend(files, tri, e, tri');
      files := files + [e];
      byPath := byPath[meta.path := id];
      tri := tri';
      MaybeCompact();
    }

    method Add(meta: Meta, content: Bytes)
      requires Valid()
      modifies this
      ensures Valid() && Docs() == old(Docs())[meta.path := Doc(meta, content)]
    {
      var keys := TrigramKeys(content);
      AddWithKeys(meta, content, keys);
    }

    method Remove(path: Bytes)
      requires Valid()
      modifies this
      ensures Valid() && Docs() == old(Docs()) - {path}
    {
      RemoveLocked(path);
      MaybeCompact();
    }

    /** Ids of the files that may contain `lit`. */
    method Candidates(lit: Bytes) returns (ids: seq<nat>)
      requires Valid()
      ensures CandidatesOf(files, lit, ids)
    {
      if |lit| < 3 {
        ids := LiveIds(files, byPath);
        return;
      }
      var keys := TrigramKeys(lit);
      SomeKey(lit);
      hide PathsOk, DeadCount, NoTwice, Tris, CandidatesOf;
      var lists: seq<seq<nat>> := [];
      for i := 0 to |keys|
        invariant |lists| == i && forall k :: 0 <= k < i ==> Posting(lists[k], files, keys[k])
      {
        assert Posting(Ids(tri, keys[i]), files, keys[i]);
        if keys[i] !in tri {
          NoFileHas(files, tri, lit, keys[i]);
          return [];
        }
        lists := lists + [tri[keys[i]]];
      }
      forall k | 0 <= k < |lists| ensures Ascending(lists[k]) { assert Posting(lists[k], files, keys[k]); }
      ids := IntersectAll(lists);
      OnAllLists(files, lists, keys, lit, ids);
    }

    /** Searches the candidates. The answer is that of scanning every document, or the
        beginning of it for each path when cut short by the limit. */
    method Search(q: Query) returns (res: Result)
      requires Valid() && Sound(q)
      ensures !res.truncated ==> res.counts == Scan(Docs(), q)
      ensures !res.truncated ==> forall p :: OfPath(res.matches, p) == ScanLinesOf(Docs(), q, p)
      ensures res.truncated ==> CutShort(Docs(), q, res)
      ensures Answers(Docs(), q, res)
    {
      var matches: seq<Match>, counts: map<Bytes, nat> := [], map[];
      var ids := Candidates(q.literal);
      ghost var v := Docs();
      ghost var done: set<Bytes> := {};
      hide *;
      NothingDone(files, byPath, q, ids);
      for n := 0 to |ids|
        invariant Processed(files, byPath, ids, n, done)
        invariant Covers(v, q, done, matches, counts)
        invariant q.limit > 0 ==> |matches| < q.limit
      {
        IdInRange(files, q.literal, ids, n);
        var e := files[ids[n]];
        if e.dead {
          ProcessedDead(files, byPath, ids, n, done);
        } else {
          ProcessedLive(files, byPath, ids, n, done);
          HitIsScan(files, byPath, q, ids[n]);
          CoversNext(v, q, done, matches, counts, e.meta.path);
          ghost var before := matches;
          var stop;
          matches, counts, stop := SearchOne(e, q, matches, counts);
          if stop {
            LimitedIsPrefix(before + ScanLinesOf(v, q, e.meta.path), q.limit);
            CoversCut(v, q, done + {e.meta.path}, before + ScanLinesOf(v, q, e.meta.path), counts, matches);
            res := Result(matches, counts, true);
            CutAnswers(v, q, res);
            return;
          }
          NotLimited(before, ScanLinesOf(v, q, e.meta.path), q.limit);
          done := done + {e.meta.path};
        }
      }
      AllCovered(files, byPath, q, ids, done, matches, counts);
      res := Result(matches, counts, false);
      WholeAnswers(v, q, res);
    }

    /** Drops every file at or under `dir`. */
    method RemovePrefix(dir: Bytes)
      requires Valid()
      modifies this
      ensures Valid() && Docs() == old(Docs()) - (set p | p in old(Docs()) && Under(dir, p) && p != dir + [SLASH])
    {
      hide Coherent;
      ghost var docs := Docs();
      var todo := byPath.Keys;
      while todo != {}
        invariant Valid() && todo <= docs.Keys
        invariant Docs() == docs - (set p | p in docs && Under(dir, p) && p != dir + [SLASH] && p !in todo)
        decreases todo
      {
        var p :| p in todo;
        todo := todo - {p};
        if Under(dir, p) && p != dir + [SLASH] { RemoveLocked(p); }
      }
      MaybeCompact();
    }
  }

  /** Ids of the live files, each once. */
  method LiveIds(files: seq<Entry>, byPath: map<Bytes, nat>) returns (ids: seq<nat>)
    requires PathsOk(files, byPath)
    ensures NoTwice(ids)
    ensures forall i: nat :: i in ids <==> i < |files| && !files[i].dead
  {
    ids := [];
    var todo := byPath.Keys;
    while todo != {}
      invariant todo <= byPath.Keys && NoTwice(ids)
      invariant forall i: nat :: i in ids <==> i < |files| && !files[i].dead && files[i].meta.path !in todo
      decreases todo
    {
      var p :| p in todo;
      todo := todo - {p};
      assert files[byPath[p]].meta.path == p;
      ids := ids + [byPath[p]];
    }
  }

  lemma SomeKey(lit: Bytes)
    requires |lit| >= 3
    ensures TriKey(lit, 0) in Tris(lit)
  {
  }

  lemma NoFileHas(files: seq<Entry>, tri: Postings, lit: Bytes, k: nat)
    requires Posting(Ids(tri, k), files, k) && k !in tri && k in Tris(lit)
    ensures |lit| >= 3 ==> CandidatesOf(files, lit, [])
  {
    hide Tris;
    forall i: nat | i < |files| ensures !(Tris(lit) <= Tris(files[i].content)) {
      assert i in Ids(tri, k) <==> i < |files| && k in Tris(files[i].content);
    }
  }

  /** Being on the list of every key means having every trigram. */
  lemma OnAllLists(files: seq<Entry>, lists: seq<seq<nat>>, keys: seq<nat>, lit: Bytes, ids: seq<nat>)
    requires |lists| == |keys| > 0 && forall k: nat :: k in keys <==> k in Tris(lit)
    requires forall k :: 0 <= k < |lists| ==> Posting(lists[k], files, keys[k])
    requires Ascending(ids) && forall x :: x in ids <==> forall k :: 0 <= k < |lists| ==> x in lists[k]
    ensures |lit| >= 3 ==> CandidatesOf(files, lit, ids)
  {
    hide Tris;
    forall i: nat ensures i in ids <==> i < |files| && Tris(lit) <= Tris(files[i].content) {
      if i in ids {
        assert i in lists[0] && Posting(lists[0], files, keys[0]);
        forall t | t in Tris(lit) ensures t in Tris(files[i].content) {
          var k :| 0 <= k < |keys| && keys[k] == t;
          assert i in lists[k] && Posting(lists[k], files, keys[k]);
        }
      }
      if i < |files| && Tris(lit) <= Tris(files[i].content) {
        forall k | 0 <= k < |lists| ensures i in lists[k] {
          assert keys[k] in keys && Posting(lists[k], files, keys[k]);
        }
      }
    }
  }

  /** The paths in `done` are those of the live entries among the first `n` ids. */
  ghost predicate Processed(files: seq<Entry>, byPath: map<Bytes, nat>, ids: seq<nat>, n: nat, done: set<Bytes>)
    requires n <= |ids|
  {
    && NoTwice(ids)
    && forall p :: p in done <==> p in byPath && byPath[p] in ids[..n]
  }

  lemma ProcessedDead(files: seq<Entry>, byPath: map<Bytes, nat>, ids: seq<nat>, n: nat, done: set<Bytes>)
    requires PathsOk(files, byPath) && n < |ids| && Processed(files, byPath, ids, n, done)
    requires ids[n] < |files| && files[ids[n]].dead
    ensures Processed(files, byPath, ids, n + 1, done)
  {
    assert ids[..n + 1] == ids[..n] + [ids[n]];
  }

  lemma ProcessedLive(files: seq<Entry>, byPath: map<Bytes, nat>, ids: seq<nat>, n: nat, done: set<Bytes>)
    requires PathsOk(files, byPath) && n < |ids| && Processed(files, byPath, ids, n, done)
    requires ids[n] < |files| && !files[ids[n]].dead
    ensures files[ids[n]].meta.path !in done
    ensures Processed(files, byPath, ids, n + 1, done + {files[ids[n]].meta.path})
  {
    assert ids[..n + 1] == ids[..n] + [ids[n]];
    assert ids[n] !in ids[..n];
  }

  lemma NothingDone(files: seq<Entry>, byPath: map<Bytes, nat>, q: Query, ids: seq<nat>)
    requires PathsOk(files, byPath) && Sound(q) && CandidatesOf(files, q.literal, ids)
    ensures Processed(files, byPath, ids, 0, {})
    ensures Covers(View(files, byPath), q, {}, [], map[])
  {
    hide Sound, Scan, ScanLinesOf;
  }

  lemma IdInRange(files: seq<Entry>, lit: Bytes, ids: seq<nat>, n: nat)
    requires CandidatesOf(files, lit, ids) && n < |ids|
    ensures ids[n] < |files|
  {
    assert ids[n] in ids;
  }

  /** A live entry is one document of the scan. */
  lemma HitIsScan(files: seq<Entry>, byPath: map<Bytes, nat>, q: Query, id: nat)
    requires PathsOk(files, byPath) && Sound(q) && id < |files| && !files[id].dead
    ensures var v := View(files, byPath); var e := files[id]; var p := e.meta.path;
      var hit := Qualifies(q, Doc(e.meta, e.content)) && Locs(q, e.content) != [];
      && p in v && (p in Scan(v, q) <==> hit) && (hit ==> Scan(v, q)[p] == |Locs(q, e.content)|)
      && Ordered(e.content, Locs(q, e.content))
      && ScanLinesOf(v, q, p) == if hit && !q.filesOnly then PerLine(p, e.content, Locs(q, e.content), 0, -1, q.maxCols) else []
  {
    LocsOrdered(q, files[id].content);
    hide Sound, Locs, Ordered, PerLine, Qualifies;
  }

  /** Every document with a match was a candidate, so nothing is missing. */
  lemma AllCovered(files: seq<Entry>, byPath: map<Bytes, nat>, q: Query, ids: seq<nat>, done: set<Bytes>,
                   matches: seq<Match>, counts: map<Bytes, nat>)
    requires PathsOk(files, byPath) && Sound(q) && CandidatesOf(files, q.literal, ids)
    requires Processed(files, byPath, ids, |ids|, done)
    requires Covers(View(files, byPath), q, done, matches, counts)
    ensures counts == Scan(View(files, byPath), q)
    ensures forall p :: OfPath(matches, p) == ScanLinesOf(View(files, byPath), q, p)
  {
    hide Sound, CandidatesOf, Processed, Covers, Scan, View, ScanLinesOf, OfPath;
    forall p | p in Scan(View(files, byPath), q) ensures p in done { NotMissed(files, byPath, q, ids, done, p); }
    CoverAll(View(files, byPath), q, done, matches, counts);
  }

  lemma NotMissed(files: seq<Entry>, byPath: map<Bytes, nat>, q: Query, ids: seq<nat>, done: set<Bytes>, p: Bytes)
    requires PathsOk(files, byPath) && Sound(q) && CandidatesOf(files, q.literal, ids)
    requires Processed(files, byPath, ids, |ids|, done) && p in Scan(View(files, byPath), q)
    ensures p in done
  {
    hide Locs, Qualifies, Tris;
    assert ids[..|ids|] == ids;
    var e := files[byPath[p]];
    assert |q.literal| >= 3 ==> Tris(q.literal) <= Tris(e.content);
    assert byPath[p] in ids;
  }

  lemma CoverAll(v: map<Bytes, Doc>, q: Query, done: set<Bytes>, matches: seq<Match>, counts: map<Bytes, nat>)
    requires Sound(q) && Covers(v, q, done, matches, counts) && forall p :: p in Scan(v, q) ==> p in done
    ensures counts == Scan(v, q)
    ensures forall p :: OfPath(matches, p) == ScanLinesOf(v, q, p)
  {
    hide Sound, Scan, ScanLinesOf, OfPath;
    forall p ensures OfPath(matches, p) == ScanLinesOf(v, q, p) {
      if p !in done { ScanLinesPath(v, q, p); }
    }
  }

  lemma NothingToRemove(files: seq<Entry>, byPath: map<Bytes, nat>, p: Bytes)
    requires PathsOk(files, byPath) && p !in byPath
    ensures View(files, byPath) - {p} == View(files, byPath) && byPath - {p} == byPath
  {
  }

  lemma KeptDistinct(live: seq<Entry>, files: seq<Entry>, byPath: map<Bytes, nat>)
    requires PathsOk(files, byPath) && Kept(live, files, byPath, |files|)
    ensures forall j, k :: 0 <= j < k < |live| ==> live[j].meta.path != live[k].meta.path
  {
  }

  // ---- whole runs ----

  datatype Op = Put(meta: Meta, content: Bytes) | Del(path: Bytes) | DelPrefix(dir: Bytes)

  function Apply(v: map<Bytes, Doc>, op: Op): map<Bytes, Doc> {
    match op
    case Put(meta, content) => v[meta.path := Doc(meta, content)]
    case Del(path) => v - {path}
    case DelPrefix(dir) => v - (set p | p in v && Under(dir, p) && p != dir + [SLASH])
  }

  function Replay(ops: seq<Op>): map<Bytes, Doc> {
    if |ops| == 0 then map[] else Apply(Replay(ops[..|ops| - 1]), ops[|ops| - 1])
  }

  /** After any sequence of updates, with whatever compactions they set off, a search
      of the index answers as a scan of the plain map does, as far as the limit lets it. */
  method SearchAfter(ops: seq<Op>, q: Query) returns (res: Result)
    requires Sound(q)
    ensures !res.truncated ==> res.counts == Scan(Replay(ops), q)
    ensures !res.truncated ==> forall p :: OfPath(res.matches, p) == ScanLinesOf(Replay(ops), q, p)
    ensures res.truncated ==> CutShort(Replay(ops), q, res)
    ensures Answers(Replay(ops), q, res)
  {
    hide Sound, Scan, ScanLinesOf, OfPath, Answers;
    var ix := new Index();
    for n := 0 to |ops|
      invariant fresh(ix) && ix.Valid() && ix.Docs() == Replay(ops[..n])
    {
      assert ops[..n + 1][..n] == ops[..n];
      match ops[n] {
        case Put(meta, content) => ix.Add(meta, content);
        case Del(path) => ix.Remove(path);
        case DelPrefix(dir) => ix.RemovePrefix(dir);
      }
    }
    assert ops[..|ops|] == ops;
    res := ix.Search(q);
  }

  /** For a plain literal, pruning by the lower-cased literal (or not at all when it is
      shorter than a trigram) is sound in either case mode. */
  lemma PlainIsSound(q: Query)
    requires |q.plain| > 0 && forall c :: Ordered(c, q.re(c))
    requires q.literal == [] || q.literal == LowerAll(q.plain)
    ensures Sound(q)
  {
    forall c | Locs(q, c) != [] ensures |q.literal| >= 3 ==> Tris(q.literal) <= Tris(c) {
      hide Tris, OccursAt;
      var p := First(c, q.plain, q.fold, 0);
      OccurrenceHasTris(c, q.plain, p, q.fold);
    }
  }
}
