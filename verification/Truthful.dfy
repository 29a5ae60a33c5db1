/** Rows that tell the truth about the file that had their size and time. */
module Truthful {
  // Kept by every step of Recovery, through crashes, as long as content goes by path, size
  // and time and no file changes between the two looks that make its row.

  import opened Prelude
  import opened Bytes
  import opened EngineSpec
  import opened Rebuild
  import opened EngineSteps
  import opened Engine
  import opened Recovery
  import opened Consistency
  import opened Naming

  /** What a file holds, given its path, size and modification time. */
  type Oracle = (Bytes, nat, int) -> Bytes

  ghost predicate TrueDisk(o: Oracle, disk: Disk) {
    forall p :: p in disk ==> disk[p].content == o(p, disk[p].size, disk[p].mtime)
  }

  /** The row describes the file that had its size and time. */
  predicate TrueRow(o: Oracle, r: Row) {
    r.tris == Tris(o(r.path, r.size, r.mtime)) && (r.inline.Some? ==> r.inline.value == o(r.path, r.size, r.mtime))
  }

  ghost predicate TrueRows(o: Oracle, rows: seq<Row>) {
    forall r :: r in rows ==> TrueRow(o, r)
  }

  lemma SameStatAgrees(o: Oracle, r: Row, disk: Disk)
    requires TrueDisk(o, disk) && TrueRow(o, r) && SameStat(r, disk)
    ensures Agrees(r, disk)
  {
    hide Tris;
  }

  /** Steady reads: content goes by path, size and time, and a file does not change
      between the look at its size and time and the reading of its content, which for a
      row kept under its old size and time means that these are still the file's. */
  ghost predicate Steady(o: Oracle, s: State, e: Event) {
    match e
    case Change(p, f) => f.Some? ==> f.value.content == o(p, f.value.size, f.value.mtime)
    case ReadFirst(p) =>
      s.mem.Up? && s.mem.opening.Building? && p in s.mem.opening.listed && p in s.disk ==>
        s.disk[p].content == s.mem.opening.listed[p].content
    case Look(p) =>
      s.mem.Up? && s.mem.work.Reading? && p !in s.mem.work.c.dirty && p in s.disk ==>
        forall r :: r in AllRows(s.mem.work.c.shards) && r.path == p ==> SameStat(r, s.disk)
    case LookAgain(p) =>
      s.mem.Up? && s.mem.work.Reading? && p in s.mem.work.first && p in s.disk ==>
        s.disk[p].content == s.mem.work.first[p].content
    case _ => true
  }

  // ---- the invariant ----

  ghost predicate TextsTrue(listed: Disk, texts: map<Bytes, Option<Bytes>>) {
    forall p :: p in texts && texts[p].Some? && p in listed ==> texts[p].value == listed[p].content
  }

  ghost predicate OpeningTrue(o: Oracle, m: Memory)
    requires m.Up?
  {
    match m.opening
    case Listing(listed, _) => TrueDisk(o, listed)
    case Loaded(_, _, found, _, _) => TrueRows(o, AllRows(found))
    case Building(listed, _, texts, _) => TrueDisk(o, listed) && TextsTrue(listed, texts)
    case Built(_) => TrueRows(o, AllRows(m.shards))
    case Open => TrueRows(o, AllRows(m.shards))
  }

  /** What a cycle has seen is true of the sizes and times it will store. */
  ghost predicate SeenTrue(o: Oracle, c: Cycle) {
    forall p :: p in c.disk ==>
      if p in c.dirty then c.disk[p].content == o(p, c.disk[p].size, c.disk[p].mtime)
      else forall r :: r in AllRows(c.shards) && r.path == p ==> c.disk[p].content == o(p, r.size, r.mtime)
  }

  ghost predicate WorkTrue(o: Oracle, work: Work) {
    work.Reading? ==> SeenTrue(o, work.c) && TrueDisk(o, work.first)
  }

  ghost predicate MemTrue(o: Oracle, m: Memory) {
    m.Up? ==> OpeningTrue(o, m) && WorkTrue(o, m.work)
  }

  /** Stored rows are true, in use and as a restart would find them. */
  ghost predicate True(o: Oracle, s: State) {
    TrueDisk(o, s.disk) && TrueRows(o, AllRows(Saved(s, {}))) && MemTrue(o, s.mem)
  }

  // ---- shards opened ----

  lemma {:induction false} OpenedRows(names: seq<nat>, files: map<nat, seq<Row>>, bad: set<nat>)
    ensures forall r :: r in AllRows(Opened(names, files, bad)) ==> r in AllRows(Opened(names, files, {}))
  {
    hide AllRows;
    if |names| > 0 {
      var k := |names| - 1;
      var all, some := Opened(names[..k], files, {}), Opened(names[..k], files, bad);
      OpenedRows(names[..k], files, bad);
      if names[k] in files {
        var t := Shard(names[k], files[names[k]]);
        AllRowsSnoc(all, t);
        AllRowsSnoc(some, t);
        assert Opened(names, files, bad) == if names[k] in bad then some else some + [t];
      } else {
        assert Opened(names, files, {}) == all && Opened(names, files, bad) == some;
      }
    }
  }

  lemma SavedTrue(o: Oracle, s: State, bad: set<nat>)
    requires TrueRows(o, AllRows(Saved(s, {})))
    ensures TrueRows(o, AllRows(Saved(s, bad)))
  {
    hide AllRows, TrueRow;
    if s.manifest.Some? { OpenedRows(s.manifest.value.names, s.files, bad); }
  }

  // ---- programs, the watcher, opening ----

  lemma TrueInWorld(o: Oracle, s: State, e: Event, s': State)
    requires TrueDisk(o, s.disk) && MemTrue(o, s.mem) && WorldStep(s, e, s') && Steady(o, s, e)
    ensures TrueDisk(o, s'.disk) && MemTrue(o, s'.mem)
  {
    hide TrueRows, AllRows, TextsTrue, WorkTrue, MarksUnder, NotThere, Settled, AllDeleted, TrueDisk, Put;
    if e.Change? { PutIsTrue(o, s.disk, e.path, e.file); }
  }

  lemma PutIsTrue(o: Oracle, disk: Disk, p: Bytes, file: Option<DiskFile>)
    requires TrueDisk(o, disk) && (file.Some? ==> file.value.content == o(p, file.value.size, file.value.mtime))
    ensures TrueDisk(o, Put(disk, p, file))
  {
  }

  lemma TrueOpening(o: Oracle, s: State, e: Event, s': State)
    requires TrueDisk(o, s.disk) && TrueRows(o, AllRows(Saved(s, {}))) && MemTrue(o, s.mem)
    requires (e.Boot? || e.List? || e.Load? || e.Sweep? || e.SweepDone? || e.MarkStale? || e.Install?) && OpenerStep(s, e, s')
    ensures MemTrue(o, s'.mem)
  {
    hide TrueRows, AllRows, SeenTrue, TextsTrue, Reconciled, Saved;
    if e.Load? { SavedTrue(o, s, e.bad); }
    if e.Boot? { NoShardRows(); NoRowsTrue(o); }
  }

  lemma NoRowsTrue(o: Oracle)
    ensures TrueRows(o, [])
  {
  }

  lemma TrueFirst(o: Oracle, s: State, e: Event, s': State)
    requires TrueDisk(o, s.disk) && MemTrue(o, s.mem) && Steady(o, s, e)
    requires (e.StartFirst? || e.ReadFirst? || e.WriteFirst? || e.ManifestFirst?) && OpenerStep(s, e, s')
    ensures MemTrue(o, s'.mem)
  {
    hide TrueRows, AllRows, SeenTrue, TrueDisk, SortedRows, IsFirstRow, Names;
  }

  lemma FirstRowTrue(o: Oracle, op: Opening, r: Row)
    requires op.Building? && TrueDisk(o, op.listed) && TextsTrue(op.listed, op.texts) && IsFirstRow(op, r)
    ensures TrueRow(o, r)
  {
    hide Tris;
  }

  lemma TruePublishFirst(o: Oracle, s: State, e: Event, s': State)
    requires MemTrue(o, s.mem) && Consistent(s.mem) && e.PublishFirst? && OpenerStep(s, e, s')
    ensures MemTrue(o, s'.mem)
  {
    hide SeenTrue, TrueDisk, SortedRows, AllRows, IsFirstRow, TextsTrue, AllBuilt, TrueRow;
    var op := s.mem.opening;
    forall r | r in AllRows(op.built) ensures TrueRow(o, r) { FirstRowTrue(o, op, r); }
  }

  // ---- the rebuild loop ----

  lemma SameOpening(o: Oracle, m: Memory, m': Memory)
    requires m.Up? && m'.Up? && m'.opening == m.opening && m'.shards == m.shards
    ensures OpeningTrue(o, m') <==> OpeningTrue(o, m)
  {
    hide TrueRows, AllRows, TrueDisk, TextsTrue;
  }

  lemma TrueIdle(o: Oracle, s: State, e: Event, s': State)
    requires MemTrue(o, s.mem) && !e.Look? && !e.LookAgain? && !e.Publish? && TickerStep(s, e, s')
    ensures MemTrue(o, s'.mem)
  {
    hide OpeningTrue, Dropped, Written, Names, AllRows;
    SameOpening(o, s.mem, s'.mem);
  }

  lemma TrueLook(o: Oracle, s: State, e: Event, s': State)
    requires TrueDisk(o, s.disk) && MemTrue(o, s.mem) && e.Look? && TickerStep(s, e, s') && Steady(o, s, e)
    ensures MemTrue(o, s'.mem)
  {
    hide OpeningTrue, AllRows, Reads;
    SameOpening(o, s.mem, s'.mem);
  }

  lemma TrueLookAgain(o: Oracle, s: State, e: Event, s': State)
    requires TrueDisk(o, s.disk) && MemTrue(o, s.mem) && Consistent(s.mem) && s.mem.Up? && s.mem.opening.Open?
    requires e.LookAgain? && TickerStep(s, e, s') && Steady(o, s, e)
    ensures MemTrue(o, s'.mem)
  {
    hide OpeningTrue, AllRows;
    SameOpening(o, s.mem, s'.mem);
  }

  lemma FreshRowTrue(o: Oracle, c: Cycle, p: Bytes)
    requires SeenTrue(o, c) && p in c.disk && p in c.dirty
    ensures TrueRow(o, FreshRow(c, p))
  {
    hide Tris, AllRows;
  }

  lemma RebuiltTrue(o: Oracle, c: Cycle, was: Row)
    requires SeenTrue(o, c) && was in AllRows(c.shards) && Keeps(c, was.path)
    ensures TrueRow(o, RebuildRow(c, was))
  {
    hide Tris, AllRows;
  }

  /** The rows a cycle publishes are true of the sizes and times they carry. */
  lemma TrueAfterCycle(o: Oracle, c: Cycle, newRows: seq<Row>, r: Row)
    requires NewRowsOf(c, newRows) && SeenTrue(o, c) && TrueRows(o, AllRows(c.shards))
    requires r in AllRows(ShardsAfter(c, newRows))
    ensures TrueRow(o, r)
  {
    hide AllRows, CountPath, Replaced, ShardsAfter, Affected, SortedRows, FreshRow, RebuildRows, RebuildRow, TrueRow, SeenTrue, Keeps;
    RowsAreThose(c, newRows);
    if r in newRows {
      FreshRowTrue(o, c, r.path);
    } else {
      var i := OriginOf(c, |c.shards|, r);
      if Affected(c, i) {
        var was := RebuildOrigin(c, c.shards[i].rows, r);
        InAllRows(c.shards, i, was);
        RebuiltTrue(o, c, was);
      } else {
        InAllRows(c.shards, i, r);
      }
    }
  }

  lemma TruePublish(o: Oracle, s: State, e: Event, s': State)
    requires MemTrue(o, s.mem) && Consistent(s.mem) && s.mem.Up? && s.mem.opening.Open? && e.Publish? && TickerStep(s, e, s')
    ensures MemTrue(o, s'.mem)
  {
    hide AllRows, NewRowsOf, ShardsAfter, SeenTrue, TrueDisk, AllRead, Stored, SeqAfter, OldFiles, DeferredSet, Seen, TrueRow;
    var c := s.mem.work.c;
    forall r | r in AllRows(ShardsAfter(c, e.newRows)) ensures TrueRow(o, r) { TrueAfterCycle(o, c, e.newRows, r); }
  }

  // ---- any step ----

  lemma TrueWork(o: Oracle, s: State, e: Event, s': State)
    requires TrueDisk(o, s.disk) && MemTrue(o, s.mem) && Consistent(s.mem) && TickerStep(s, e, s') && Steady(o, s, e)
    ensures MemTrue(o, s'.mem)
  {
    hide TrueDisk, MemTrue, Consistent, Steady, TickerStep;
    if !e.Tick? {
      WorkGoesOn(s, e, s');
      AtWorkIsOpen(s.mem);
    }
    match e
    case Look(_) => TrueLook(o, s, e, s');
    case LookAgain(_) => TrueLookAgain(o, s, e, s');
    case Publish(_) => TruePublish(o, s, e, s');
    case _ => TrueIdle(o, s, e, s');
  }

  lemma KeepsMemTrue(o: Oracle, s: State, e: Event, s': State)
    requires TrueDisk(o, s.disk) && TrueRows(o, AllRows(Saved(s, {}))) && MemTrue(o, s.mem) && Consistent(s.mem)
    requires Step(s, e, s') && Steady(o, s, e)
    ensures TrueDisk(o, s'.disk) && MemTrue(o, s'.mem)
  {
    hide TrueDisk, TrueRows, AllRows, Saved, MemTrue, Consistent, WorldStep, OpenerStep, TickerStep, Steady;
    if WorldStep(s, e, s') {
      TrueInWorld(o, s, e, s');
    } else {
      NotOfTheWorld(s, e, s');
      SameDisk(s, e, s');
      if TickerStep(s, e, s') {
        TrueWork(o, s, e, s');
      } else {
        match e
        case StartFirst(_) => TrueFirst(o, s, e, s');
        case ReadFirst(_) => TrueFirst(o, s, e, s');
        case WriteFirst(_) => TrueFirst(o, s, e, s');
        case PublishFirst => TruePublishFirst(o, s, e, s');
        case ManifestFirst(_) => TrueFirst(o, s, e, s');
        case _ =>
          OpensSomehow(s, e, s');
          TrueOpening(o, s, e, s');
      }
    }
  }

  lemma SameDisk(s: State, e: Event, s': State)
    requires OpenerStep(s, e, s') || TickerStep(s, e, s')
    ensures s'.disk == s.disk
  {
    hide Reads, Mixed, Written, AllRead, CyclePlan, NewRowsOf, Dropped, Names, Stored, Reconciled, Saved, AllRows, IsFirstRow, AllBuilt, SortedRows, ContentAt;
  }

  /** Every step keeps rows true, whatever cycles lose and whichever marks they drop. */
  lemma KeepsTrue(o: Oracle, s: State, e: Event, s': State)
    requires True(o, s) && Named(s) && Step(s, e, s') && Steady(o, s, e)
    ensures True(o, s')
  {
    hide TrueDisk, TrueRows, AllRows, Saved, MemTrue, Consistent, Step, Steady, NamesOk, MemNamed, OpeningTrue;
    KeepsMemTrue(o, s, e, s');
    KeepsSaved(s, e, s');
    if Manifested(e) { InUseIsTrue(o, s, e, s'); }
  }

  lemma InUseIsTrue(o: Oracle, s: State, e: Event, s': State)
    requires MemTrue(o, s.mem) && Consistent(s.mem) && Manifested(e) && Step(s, e, s')
    ensures s.mem.Up? && TrueRows(o, AllRows(s.mem.shards))
  {
    hide TrueRows, AllRows, TrueDisk, SeenTrue, MarksUnder, NotThere, FirstRows, Names;
    NotOfTheWorld(s, e, s');
  }
}
