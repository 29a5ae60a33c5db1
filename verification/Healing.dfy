/** Right answers for every path not owed a mark, crash or no crash. */
module Healing {
  // Kept by every step of Recovery since the engine was last started: shards, marks and
  // owed marks together are coherent with the disk once the engine is open. Reconciling
  // brings this about whatever was lost before, from rows that can be told from stale
  // ones by size and time.

  import opened Prelude
  import opened Bytes
  import opened Lines
  import opened Ranges
  import opened EngineSpec
  import opened Rebuild
  import opened EngineSteps
  import opened Engine
  import opened Changes
  import opened Recovery
  import opened Consistency

  /** The dirty list together with the marks still owed. */
  function Marks(dirty: Dirty, owed: set<Bytes>): Dirty {
    map p | p in dirty.Keys + owed :: if p in owed then false else dirty[p]
  }

  /** A mark to be dropped stands for no change made since the cycle saw the file. */
  ghost predicate NoneSwallowed(plan: Plan, dirty: Dirty, owed: set<Bytes>, disk: Disk) {
    forall p :: p in plan.processed && p in plan.dirty && p in dirty && dirty[p] == plan.dirty[p] && !dirty[p] && p !in owed ==>
      SameAt(plan.disk, disk, p)
  }

  /** A row with the size and time of its file, not marked, is the row of that file. */
  ghost predicate Trusted(rows: seq<Row>, marks: Dirty, disk: Disk) {
    forall r :: r in rows && r.path !in marks && SameStat(r, disk) ==> Agrees(r, disk)
  }

  /** What is taken for granted of the shards: when they are installed after a restart,
      no path has two rows, and a row with the size and time of its file is that file's;
      when a cycle publishes, the ranges of the shards it started from are in order. */
  ghost predicate Reliable(s: State, e: Event) {
    match e
    case Install =>
      s.mem.Up? && s.mem.opening.Loaded? ==>
        var rows := AllRows(s.mem.opening.found);
        Unique(rows) && Trusted(rows, Marks(s.mem.dirty, s.owed), s.disk)
    case Publish(_) => s.mem.Up? && s.mem.work.Reading? ==> OrderedShards(s.mem.shards)
    case _ => true
  }

  /** All that is stored below a directory being removed is about to be marked. */
  ghost predicate Covered(rows: seq<Row>, watch: Watch) {
    watch.Removing? ==> forall p :: watch.dir + [SLASH] <= p && CountPath(rows, p) > 0 ==> p in watch.marked
  }

  /** What is asked of a run since the engine was last started, besides: a cycle loses no
      file and swallows no mark of a change; no list of shards that comes into use while a
      removed directory is being marked has a file below it that is not about to be marked;
      and until the engine is open, no removed directory has files below it that are not
      marked for themselves, and no file that was missing from the listing is back and
      marked before it is marked deleted. */
  ghost predicate Careful(s: State, e: Event) {
    match e
    case MarkBelow => s.mem.Up? && s.mem.watch.Removing? ==> s.mem.opening.Open? || Settled(s, s.mem.watch.dir) <= s.mem.dirty.Keys
    case MarkStale(p) =>
      s.mem.Up? && s.mem.opening.Loaded? && p in s.mem.opening.todo && s.mem.opening.todo[p] ==> p !in s.disk || p in s.owed
    case Install => s.mem.Up? && s.mem.opening.Loaded? ==> Covered(AllRows(s.mem.opening.found), s.mem.watch)
    case PublishFirst => s.mem.Up? && s.mem.opening.Building? ==> Covered(AllRows(s.mem.opening.built), s.mem.watch)
    case Publish(newRows) =>
      s.mem.Up? && s.mem.work.Reading? ==>
        var c := s.mem.work.c;
        Covered(AllRows(ShardsAfter(c, newRows)), s.mem.watch) && NoneLost(c.(disk := Seen(c, s.disk)))
    case Finish => s.mem.Up? && s.mem.work.Cleaning? ==> NoneSwallowed(s.mem.work.plan, s.mem.dirty, s.owed, s.disk)
    case _ => true
  }

  ghost predicate Harmless(s: State, e: Event) { Reliable(s, e) && Careful(s, e) }

  // ---- the invariant ----

  ghost predicate FlagsRight(marks: Dirty, disk: Disk) {
    forall p :: p in marks && marks[p] ==> p !in disk
  }

  /** The listing still holds of `p`, or `p` is marked. */
  predicate Current(listed: Disk, marks: Dirty, disk: Disk, p: Bytes) {
    p in marks || SameAt(listed, disk, p)
  }

  ghost predicate AllCurrent(listed: Disk, marks: Dirty, disk: Disk) {
    forall p :: Current(listed, marks, disk, p)
  }

  /** What reconciling has to mark is marked, or still to do. */
  ghost predicate StaleToDo(rows: seq<Row>, listed: Disk, todo: Dirty, marks: Dirty) {
    && (forall r :: r in rows && !SameStat(r, listed) ==> r.path in todo || r.path in marks)
    && (forall p :: p in listed && CountPath(rows, p) == 0 ==> p in todo || p in marks)
  }

  ghost predicate TextsRight(texts: map<Bytes, Option<Bytes>>, marks: Dirty, disk: Disk) {
    forall p :: p in texts ==> p in marks || texts[p] == ContentAt(disk, p)
  }

  ghost predicate OpeningRight(m: Memory, marks: Dirty, disk: Disk)
    requires m.Up?
  {
    match m.opening
    case Listing(listed, done) => FlagsRight(marks, disk) && listed.Keys <= done && forall p :: p in done ==> Current(listed, marks, disk, p)
    case Loaded(listed, _, found, todo, _) =>
      FlagsRight(marks, disk) && AllCurrent(listed, marks, disk) && StaleToDo(AllRows(found), listed, todo, marks)
    case Building(listed, _, texts, _) => FlagsRight(marks, disk) && AllCurrent(listed, marks, disk) && TextsRight(texts, marks, disk)
    case Built(_) => Coherent(AllRows(m.shards), marks, disk)
    case Open => Coherent(AllRows(m.shards), marks, disk)
  }

  /** The rows for the paths a plan drops: none for deleted ones, those of the file seen
      for the others. */
  ghost predicate SeenRight(plan: Plan) {
    forall p :: p in plan.processed && p in plan.dirty ==> SeenRightAt(plan, p)
  }

  ghost predicate SeenRightAt(plan: Plan, p: Bytes)
    requires p in plan.dirty
  {
    if plan.dirty[p] then CountPath(AllRows(plan.next), p) == 0
    else
      && (forall r :: r in AllRows(plan.next) && r.path == p ==> Agrees(r, plan.disk))
      && (p in plan.disk && Visible(plan.disk[p]) ==> CountPath(AllRows(plan.next), p) > 0)
  }

  /** What was read for a row that is not dirty is still so, or the path is marked. */
  ghost predicate ReadRight(c: Cycle, done: set<Bytes>, marks: Dirty, disk: Disk) {
    forall p :: p in done ==> Reads(c, p) && (p in c.dirty || p in marks || ContentAt(c.disk, p) == ContentAt(disk, p))
  }

  /** Only what a cycle has to read has been looked at. */
  ghost predicate OnlyReads(c: Cycle, first: Disk, done: set<Bytes>) {
    c.disk.Keys <= done && forall p :: p in first ==> Reads(c, p)
  }

  ghost predicate WorkRight(work: Work, dirty: Dirty, marks: Dirty, disk: Disk) {
    match work
    case Idle => true
    case Taken(d) => d.Keys <= dirty.Keys
    case Reading(c, first, done) => c.dirty.Keys <= dirty.Keys && OnlyReads(c, first, done) && ReadRight(c, done, marks, disk)
    case Published(plan) => SeenRight(plan)
    case Cleaning(plan, _, _) => SeenRight(plan)
  }

  /** What is being removed was not there when its removal was noticed. */
  ghost predicate WatchFits(watch: Watch, owed: set<Bytes>, disk: Disk) {
    watch.Removing? ==> NotThere(watch.dir, owed, disk) && forall p :: p in watch.marked ==> Under(watch.dir, p)
  }

  ghost predicate WatchRight(m: Memory, owed: set<Bytes>, disk: Disk)
    requires m.Up?
  {
    WatchFits(m.watch, owed, disk) && Covered(AllRows(m.shards), m.watch)
  }

  ghost predicate Right(s: State) {
    s.mem.Up? ==>
      var marks := Marks(s.mem.dirty, s.owed);
      OpeningRight(s.mem, marks, s.disk) && WorkRight(s.mem.work, s.mem.dirty, marks, s.disk) && WatchRight(s.mem, s.owed, s.disk)
  }

  // ---- changes and marks ----

  /** From one moment to the next `p` was marked, or nothing about it changed. */
  ghost predicate AllMarkedOrSame(marks: Dirty, disk: Disk, marks': Dirty, disk': Disk) {
    forall p :: MarkedOrSame(marks, disk, marks', disk', p)
  }

  lemma StillCurrent(listed: Disk, marks: Dirty, disk: Disk, marks': Dirty, disk': Disk, p: Bytes)
    requires MarkedOrSame(marks, disk, marks', disk', p) && Current(listed, marks, disk, p)
    ensures Current(listed, marks', disk', p)
  {
  }

  lemma FlagsStay(marks: Dirty, disk: Disk, marks': Dirty, disk': Disk)
    requires AllMarkedOrSame(marks, disk, marks', disk') && FlagsRight(marks, disk)
    ensures FlagsRight(marks', disk')
    ensures forall p :: p in marks ==> p in marks'
  {
    forall p | p in marks ensures p in marks' { assert MarkedOrSame(marks, disk, marks', disk', p); }
    forall p | p in marks' && marks'[p] ensures p !in disk' { assert MarkedOrSame(marks, disk, marks', disk', p); }
  }

  lemma TextsStay(texts: map<Bytes, Option<Bytes>>, marks: Dirty, disk: Disk, marks': Dirty, disk': Disk)
    requires AllMarkedOrSame(marks, disk, marks', disk') && TextsRight(texts, marks, disk)
    ensures TextsRight(texts, marks', disk')
  {
    forall p | p in texts ensures p in marks' || texts[p] == ContentAt(disk', p) { assert MarkedOrSame(marks, disk, marks', disk', p); }
  }

  lemma ReadStays(c: Cycle, done: set<Bytes>, marks: Dirty, disk: Disk, marks': Dirty, disk': Disk)
    requires AllMarkedOrSame(marks, disk, marks', disk') && ReadRight(c, done, marks, disk)
    ensures ReadRight(c, done, marks', disk')
  {
    hide Reads;
    forall p | p in done ensures Reads(c, p) && (p in c.dirty || p in marks' || ContentAt(c.disk, p) == ContentAt(disk', p)) {
      assert MarkedOrSame(marks, disk, marks', disk', p);
    }
  }

  lemma OpeningStays(m: Memory, m': Memory, marks: Dirty, disk: Disk, marks': Dirty, disk': Disk)
    requires m.Up? && m'.Up? && m'.opening == m.opening && m'.shards == m.shards
    requires OpeningRight(m, marks, disk) && AllMarkedOrSame(marks, disk, marks', disk')
    ensures OpeningRight(m', marks', disk')
  {
    hide Coherent, AllRows, FlagsRight, TextsRight, Current, MarkedOrSame, CountPath, SameStat;
    match m.opening
    case Listing(listed, done) =>
      FlagsStay(marks, disk, marks', disk');
      forall p | p in done ensures Current(listed, marks', disk', p) { StillCurrent(listed, marks, disk, marks', disk', p); }
    case Loaded(listed, _, _, _, _) =>
      FlagsStay(marks, disk, marks', disk');
      forall p ensures Current(listed, marks', disk', p) { StillCurrent(listed, marks, disk, marks', disk', p); }
    case Building(listed, _, texts, _) =>
      FlagsStay(marks, disk, marks', disk');
      TextsStay(texts, marks, disk, marks', disk');
      forall p ensures Current(listed, marks', disk', p) { StillCurrent(listed, marks, disk, marks', disk', p); }
    case Built(_) => MarkingKeepsCoherent(AllRows(m.shards), marks, disk, marks', disk');
    case Open => MarkingKeepsCoherent(AllRows(m.shards), marks, disk, marks', disk');
  }

  lemma WorkStays(work: Work, dirty: Dirty, dirty': Dirty, marks: Dirty, disk: Disk, marks': Dirty, disk': Disk)
    requires WorkRight(work, dirty, marks, disk) && AllMarkedOrSame(marks, disk, marks', disk') && dirty.Keys <= dirty'.Keys
    ensures WorkRight(work, dirty', marks', disk')
  {
    hide ReadRight, OnlyReads, AllMarkedOrSame, SeenRight;
    if work.Reading? { ReadStays(work.c, work.done, marks, disk, marks', disk'); }
  }

  /** A change, a mark or a removal touches the paths it marks, or owes a mark, and no other. */
  lemma MovesMarks(s: State, e: Event, s': State)
    requires s.mem.Up? && (e.Change? || e.Mark? || e.Gone?) && WorldStep(s, e, s')
    ensures s'.mem.Up? && s.mem.dirty.Keys <= s'.mem.dirty.Keys
    ensures AllMarkedOrSame(Marks(s.mem.dirty, s.owed), s.disk, Marks(s'.mem.dirty, s'.owed), s'.disk)
  {
    hide MarksUnder;
    if e.Gone? { assert Under(e.dir, e.dir); }
    forall p ensures MarkedOrSame(Marks(s.mem.dirty, s.owed), s.disk, Marks(s'.mem.dirty, s'.owed), s'.disk, p) {}
  }

  lemma WatchStays(s: State, e: Event, s': State)
    requires s.mem.Up? && (e.Change? || e.Mark? || e.Gone?) && WorldStep(s, e, s') && WatchRight(s.mem, s.owed, s.disk)
    ensures s'.mem.Up? && WatchRight(s'.mem, s'.owed, s'.disk)
  {
    hide AllRows, CountPath;
  }

  lemma KeepsChange(s: State, e: Event, s': State)
    requires Right(s) && (e.Change? || e.Mark? || e.Gone?) && WorldStep(s, e, s')
    ensures Right(s')
  {
    hide OpeningRight, WorkRight, WatchRight, MarksUnder, AllMarkedOrSame, Marks;
    if s.mem.Up? {
      WatchStays(s, e, s');
      var marks, marks' := Marks(s.mem.dirty, s.owed), Marks(s'.mem.dirty, s'.owed);
      MovesMarks(s, e, s');
      OpeningStays(s.mem, s'.mem, marks, s.disk, marks', s'.disk);
      WorkStays(s.mem.work, s.mem.dirty, s'.mem.dirty, marks, s.disk, marks', s'.disk);
    }
  }

  // ---- marking what was stored below a removed directory ----

  /** A path that is neither marked nor on disk, and has no row, may be forgotten. */
  ghost predicate MarkedOrForgotten(rows: seq<Row>, marks: Dirty, marks': Dirty, disk: Disk, p: Bytes) {
    MarkedOrSame(marks, disk, marks', disk, p) || (p !in disk && CountPath(rows, p) == 0)
  }

  lemma ForgettingKeepsCoherent(rows: seq<Row>, marks: Dirty, marks': Dirty, disk: Disk)
    requires Coherent(rows, marks, disk)
    requires forall p :: MarkedOrForgotten(rows, marks, marks', disk, p)
    ensures Coherent(rows, marks', disk)
  {
    hide CountPath, Tris, IsBinary, MarkedOrSame;
    forall r | r in rows ensures r.path in marks' || Agrees(r, disk) {
      RowCounted(rows, r);
      assert MarkedOrForgotten(rows, marks, marks', disk, r.path);
      assert r.path in marks || Agrees(r, disk);
      MarkedRow(marks, disk, marks', disk, r);
    }
    forall p | p in disk && Visible(disk[p]) ensures p in marks' || CountPath(rows, p) > 0 {
      assert MarkedOrForgotten(rows, marks, marks', disk, p);
      MarkedFile(marks, disk, marks', disk, p);
    }
    forall p | p in marks' && marks'[p] ensures p !in disk {
      assert MarkedOrForgotten(rows, marks, marks', disk, p);
      if p in disk { MarkedFile(marks, disk, marks', disk, p); }
    }
  }

  /** One path, as its directory is marked. */
  lemma BelowAt(s: State, s': State, p: Bytes)
    requires WorldStep(s, MarkBelow, s') && s.mem.Up? && WatchRight(s.mem, s.owed, s.disk)
    requires FlagsRight(Marks(s.mem.dirty, s.owed), s.disk)
    ensures var marks, marks' := Marks(s.mem.dirty, s.owed), Marks(s'.mem.dirty, s'.owed);
      && MarkedOrForgotten(AllRows(s.mem.shards), marks, marks', s.disk, p)
      && (Settled(s, s.mem.watch.dir) <= s.mem.dirty.Keys ==> MarkedOrSame(marks, s.disk, marks', s.disk, p))
      && (CountPath(AllRows(s.mem.shards), p) > 0 ==> MarkedOrSame(marks, s.disk, marks', s.disk, p))
  {
    hide AllRows, CountPath;
  }

  lemma CoherentFlags(rows: seq<Row>, marks: Dirty, disk: Disk)
    requires Coherent(rows, marks, disk)
    ensures FlagsRight(marks, disk)
  {
  }

  lemma FlagsOf(m: Memory, marks: Dirty, disk: Disk)
    requires m.Up? && OpeningRight(m, marks, disk)
    ensures FlagsRight(marks, disk)
  {
    hide Coherent, AllRows, AllCurrent, Current, TextsRight, StaleToDo, FlagsRight;
    if m.opening.Built? || m.opening.Open? { CoherentFlags(AllRows(m.shards), marks, disk); }
  }

  /** What a cycle reads without its being dirty is stored. */
  lemma ReadIsStored(c: Cycle, p: Bytes)
    requires Reads(c, p) && p !in c.dirty
    ensures CountPath(AllRows(c.shards), p) > 0
  {
    hide CountPath, AllRows, Affected;
    var i :| 0 <= i < |c.shards| && Affected(c, i) && CountPath(c.shards[i].rows, p) > 0;
    CountIsStored(c.shards, i, p);
  }

  lemma BelowReads(c: Cycle, done: set<Bytes>, marks: Dirty, marks': Dirty, disk: Disk)
    requires ReadRight(c, done, marks, disk)
    requires forall p :: CountPath(AllRows(c.shards), p) > 0 ==> MarkedOrSame(marks, disk, marks', disk, p)
    ensures ReadRight(c, done, marks', disk)
  {
    hide Reads, CountPath, AllRows;
    forall p | p in done ensures Reads(c, p) && (p in c.dirty || p in marks' || ContentAt(c.disk, p) == ContentAt(disk, p)) {
      if p !in c.dirty { ReadIsStored(c, p); }
    }
  }

  lemma KeepsMarkBelow(s: State, e: Event, s': State)
    requires Right(s) && Consistent(s.mem) && e.MarkBelow? && WorldStep(s, e, s') && Harmless(s, e)
    ensures Right(s')
  {
    hide OpeningRight, WatchRight, FlagsRight, MarkedOrForgotten, MarkedOrSame, Marks, Settled, AllRows, CountPath, ReadRight, OnlyReads, SeenRight, FirstRows, Coherent;
    var marks, marks' := Marks(s.mem.dirty, s.owed), Marks(s'.mem.dirty, s'.owed);
    FlagsOf(s.mem, marks, s.disk);
    forall p ensures MarkedOrForgotten(AllRows(s.mem.shards), marks, marks', s.disk, p)
      && (Settled(s, s.mem.watch.dir) <= s.mem.dirty.Keys ==> MarkedOrSame(marks, s.disk, marks', s.disk, p))
      && (CountPath(AllRows(s.mem.shards), p) > 0 ==> MarkedOrSame(marks, s.disk, marks', s.disk, p))
    {
      BelowAt(s, s', p);
    }
    if s.mem.opening.Open? {
      OpenIsCoherent(s.mem, marks, s.disk);
      ForgettingKeepsCoherent(AllRows(s.mem.shards), marks, marks', s.disk);
      OpenIsCoherent(s'.mem, marks', s.disk);
      if s.mem.work.Reading? { BelowReads(s.mem.work.c, s.mem.work.done, marks, marks', s.disk); }
    } else {
      OpeningStays(s.mem, s'.mem, marks, s.disk, marks', s.disk);
    }
    NothingRemoved(s'.mem, s'.owed, s'.disk);
  }

  lemma OpenIsCoherent(m: Memory, marks: Dirty, disk: Disk)
    requires m.Up? && (m.opening.Open? || m.opening.Built?)
    ensures OpeningRight(m, marks, disk) <==> Coherent(AllRows(m.shards), marks, disk)
  {
    hide Coherent, AllRows;
  }

  lemma NothingRemoved(m: Memory, owed: set<Bytes>, disk: Disk)
    requires m.Up? && m.watch.Quiet?
    ensures WatchRight(m, owed, disk)
  {
  }

  // ---- opening ----

  lemma KeepsBoot(s: State, e: Event, s': State)
    requires Right(s) && (e.Boot? || e.List?) && OpenerStep(s, e, s')
    ensures Right(s')
  {
    hide NotThere, AllRows, CountPath, ReadRight, OnlyReads, SeenRight;
  }

  lemma KeepsLoad(s: State, e: Event, s': State)
    requires Right(s) && e.Load? && OpenerStep(s, e, s')
    ensures Right(s')
  {
    hide WorkRight, WatchFits, Covered, SameStat, CountPath, Saved, AllRows, FlagsRight;
    var o := s.mem.opening;
    ListingDone(o.listed, o.done, Marks(s.mem.dirty, s.owed), s.disk);
  }

  /** A path never looked at is neither listed nor there. */
  lemma ListingDone(listed: Disk, done: set<Bytes>, marks: Dirty, disk: Disk)
    requires listed.Keys <= done && disk.Keys <= done && forall p :: p in done ==> Current(listed, marks, disk, p)
    ensures AllCurrent(listed, marks, disk)
  {
    forall p ensures Current(listed, marks, disk, p) {
      if p !in done { assert p !in listed.Keys && p !in disk.Keys; }
    }
  }

  lemma KeepsStartFirst(s: State, e: Event, s': State)
    requires Right(s) && e.StartFirst? && OpenerStep(s, e, s')
    ensures Right(s')
  {
    hide WorkRight, WatchFits, Covered, FlagsRight;
    var o := s.mem.opening;
    ListingDone(o.listed, o.done, Marks(s.mem.dirty, s.owed), s.disk);
  }

  lemma KeepsSweep(s: State, e: Event, s': State)
    requires Right(s) && (e.Sweep? || e.SweepDone?) && OpenerStep(s, e, s')
    ensures Right(s')
  {
    hide WorkRight, WatchFits, Covered, FlagsRight, AllCurrent, StaleToDo;
  }

  lemma KeepsMarkStale(s: State, e: Event, s': State)
    requires Right(s) && e.MarkStale? && OpenerStep(s, e, s') && Harmless(s, e)
    ensures Right(s')
  {
    hide WorkRight, WatchFits, Covered, FlagsRight, Current, CountPath, AllRows, SameStat;
    var o := s.mem.opening;
    var marks, marks' := Marks(s.mem.dirty, s.owed), Marks(s'.mem.dirty, s'.owed);
    forall p ensures MarkedOrSame(marks, s.disk, marks', s.disk, p) {}
    FlagsStay(marks, s.disk, marks', s.disk);
    forall p ensures Current(o.listed, marks', s.disk, p) { StillCurrent(o.listed, marks, s.disk, marks', s.disk, p); }
    WorkStays(s.mem.work, s.mem.dirty, s'.mem.dirty, marks, s.disk, marks', s.disk);
  }

  lemma OrderedUnique(shards: seq<Shard>)
    requires OrderedShards(shards)
    ensures Unique(AllRows(shards))
  {
    hide AllRows, OrderedRanges, CountPath, RangesOf, Home, SortedRows;
    forall p ensures CountPath(AllRows(shards), p) <= 1 {
      CountAtHome(shards, |shards|, p);
      assert shards[..|shards|] == shards;
      var h := Home(shards, p);
      if h >= 0 { SortedCount(shards[h].rows, p); }
    }
  }

  /** Reconciling restores coherence, whatever went before, exactly if no path has two rows
      and the rows with the size and time of their files can be trusted: the other rows,
      and the files without a row, are marked. */
  lemma ReconcilingHeals(rows: seq<Row>, listed: Disk, marks: Dirty, disk: Disk)
    requires FlagsRight(marks, disk) && AllCurrent(listed, marks, disk) && StaleToDo(rows, listed, map[], marks)
    ensures Coherent(rows, marks, disk) <==> Unique(rows) && Trusted(rows, marks, disk)
  {
    hide CountPath, Agrees, Unique;
    if Trusted(rows, marks, disk) {
      forall r | r in rows ensures r.path in marks || Agrees(r, disk) { assert Current(listed, marks, disk, r.path); }
      forall p | p in disk && Visible(disk[p]) ensures p in marks || CountPath(rows, p) > 0 {
        assert Current(listed, marks, disk, p);
      }
    }
  }

  lemma KeepsInstall(s: State, e: Event, s': State)
    requires Right(s) && e.Install? && OpenerStep(s, e, s') && Harmless(s, e)
    ensures Right(s')
  {
    hide WorkRight, WatchFits, Covered, FlagsRight, AllCurrent, StaleToDo, Coherent, AllRows, Unique, Trusted;
    ReconcilingHeals(AllRows(s.mem.opening.found), s.mem.opening.listed, Marks(s.mem.dirty, s.owed), s.disk);
  }

  lemma KeepsReadFirst(s: State, e: Event, s': State)
    requires Right(s) && (e.ReadFirst? || e.WriteFirst?) && OpenerStep(s, e, s')
    ensures Right(s')
  {
    hide WorkRight, WatchFits, Covered, FlagsRight, AllCurrent, SortedRows, IsFirstRow, AllRows;
  }

  lemma FirstRowAgrees(op: Opening, marks: Dirty, disk: Disk, r: Row)
    requires op.Building? && IsFirstRow(op, r) && Current(op.listed, marks, disk, r.path) && TextsRight(op.texts, marks, disk)
    ensures r.path in marks || Agrees(r, disk)
  {
    hide Tris;
  }

  /** A first build over files that change meanwhile is coherent once marks are counted in. */
  lemma FirstBuildIsCoherent(op: Opening, marks: Dirty, disk: Disk)
    requires op.Building? && AllBuilt(op) && FirstRows(op)
    requires FlagsRight(marks, disk) && AllCurrent(op.listed, marks, disk) && TextsRight(op.texts, marks, disk)
    ensures Coherent(AllRows(op.built), marks, disk)
  {
    hide AllRows, SortedRows, CountPath, Agrees, IsBinary, IsFirstRow, Current;
    forall r | r in AllRows(op.built) ensures r.path in marks || Agrees(r, disk) {
      assert Current(op.listed, marks, disk, r.path);
      FirstRowAgrees(op, marks, disk, r);
    }
    forall p | p in disk && Visible(disk[p]) ensures p in marks || CountPath(AllRows(op.built), p) > 0 {
      ListedIfThere(op.listed, marks, disk, p);
    }
    forall p ensures CountPath(AllRows(op.built), p) <= 1 { SortedCount(AllRows(op.built), p); }
  }

  lemma ListedIfThere(listed: Disk, marks: Dirty, disk: Disk, p: Bytes)
    requires AllCurrent(listed, marks, disk) && p in disk
    ensures p in marks || p in listed
  {
    assert Current(listed, marks, disk, p);
  }

  lemma KeepsPublishFirst(s: State, e: Event, s': State)
    requires Right(s) && Consistent(s.mem) && e.PublishFirst? && OpenerStep(s, e, s') && Harmless(s, e)
    ensures Right(s')
  {
    hide WorkRight, WatchFits, Covered, FlagsRight, AllCurrent, TextsRight, Coherent, AllRows, SortedRows, IsFirstRow, AllBuilt;
    FirstBuildIsCoherent(s.mem.opening, Marks(s.mem.dirty, s.owed), s.disk);
  }

  lemma KeepsManifestFirst(s: State, e: Event, s': State)
    requires Right(s) && e.ManifestFirst? && OpenerStep(s, e, s')
    ensures Right(s')
  {
    hide WorkRight, WatchFits, Covered, Coherent, AllRows, Names;
  }

  // ---- the rebuild loop ----

  lemma SameOpeningRight(m: Memory, m': Memory, marks: Dirty, disk: Disk)
    requires m.Up? && m'.Up? && m'.opening == m.opening && m'.shards == m.shards
    ensures OpeningRight(m', marks, disk) <==> OpeningRight(m, marks, disk)
  {
    hide Coherent, FlagsRight, AllCurrent, TextsRight, StaleToDo, AllRows, Current;
  }

  lemma SameWatch(m: Memory, m': Memory, owed: set<Bytes>, disk: Disk)
    requires m.Up? && m'.Up? && m'.watch == m.watch && m'.shards == m.shards
    ensures WatchRight(m', owed, disk) <==> WatchRight(m, owed, disk)
  {
    hide WatchFits, Covered;
  }

  lemma KeepsTick(s: State, e: Event, s': State)
    requires Right(s) && (e.Tick? || e.Begin?) && TickerStep(s, e, s')
    ensures Right(s')
  {
    hide OpeningRight, WatchRight, Reads;
    SameOpeningRight(s.mem, s'.mem, Marks(s.mem.dirty, s.owed), s.disk);
    SameWatch(s.mem, s'.mem, s.owed, s.disk);
  }

  lemma SameReads(c: Cycle, disk: Disk, p: Bytes)
    ensures Reads(c.(disk := disk), p) <==> Reads(c, p)
  {
    hide Home, CountPath;
    var c' := c.(disk := disk);
    forall i ensures DirtyIn(c', i) == DirtyIn(c, i) {}
    forall i ensures Affected(c', i) <==> Affected(c, i) {}
    var n := |c.shards|;
    if InAffected(c, n, p) { var i :| 0 <= i < n && Affected(c, i) && CountPath(c.shards[i].rows, p) > 0; assert Affected(c', i); }
    if InAffected(c', n, p) { var i :| 0 <= i < n && Affected(c', i) && CountPath(c.shards[i].rows, p) > 0; assert Affected(c, i); }
  }

  /** A path has been looked at: `seen` is what the cycle has of the files so far. */
  lemma OneMoreRead(c: Cycle, first: Disk, first': Disk, done: set<Bytes>, p: Bytes, seen: Disk, marks: Dirty, disk: Disk)
    requires OnlyReads(c, first, done) && ReadRight(c, done, marks, disk) && Reads(c, p) && p !in done
    requires forall q :: q in first' ==> q in first || q == p
    requires (p !in seen && seen == c.disk && p !in disk) || (p in seen && seen == c.disk[p := seen[p]])
    requires p in c.dirty || ContentAt(seen, p) == ContentAt(disk, p)
    ensures OnlyReads(c.(disk := seen), first', done + {p}) && ReadRight(c.(disk := seen), done + {p}, marks, disk)
  {
    hide Reads;
    forall q ensures Reads(c.(disk := seen), q) <==> Reads(c, q) { SameReads(c, seen, q); }
  }

  lemma KeepsLook(s: State, e: Event, s': State)
    requires Right(s) && e.Look? && TickerStep(s, e, s')
    ensures Right(s')
  {
    hide OpeningRight, WatchRight, Reads, ReadRight;
    SameOpeningRight(s.mem, s'.mem, Marks(s.mem.dirty, s.owed), s.disk);
    SameWatch(s.mem, s'.mem, s.owed, s.disk);
    var w, p, marks := s.mem.work, e.path, Marks(s.mem.dirty, s.owed);
    assert p !in w.c.disk.Keys;
    if p !in s.disk {
      OneMoreRead(w.c, w.first, w.first, w.done, p, w.c.disk, marks, s.disk);
    } else if p !in w.c.dirty {
      OneMoreRead(w.c, w.first, w.first, w.done, p, w.c.disk[p := s.disk[p]], marks, s.disk);
    }
  }

  lemma KeepsLookAgain(s: State, e: Event, s': State)
    requires Right(s) && Consistent(s.mem) && s.mem.Up? && s.mem.opening.Open? && e.LookAgain? && TickerStep(s, e, s')
    ensures Right(s')
  {
    hide OpeningRight, WatchRight, Reads, ReadRight, Mixed;
    SameOpeningRight(s.mem, s'.mem, Marks(s.mem.dirty, s.owed), s.disk);
    SameWatch(s.mem, s'.mem, s.owed, s.disk);
    var w, p, marks := s.mem.work, e.path, Marks(s.mem.dirty, s.owed);
    assert p !in w.c.disk.Keys && p in w.first.Keys;
    if p !in s.disk {
      OneMoreRead(w.c, w.first, w.first, w.done, p, w.c.disk, marks, s.disk);
    } else {
      OneMoreRead(w.c, w.first, w.first, w.done, p, w.c.disk[p := Mixed(w.c, p, w.first[p], s.disk[p])], marks, s.disk);
    }
  }

  lemma KeepsFiles(s: State, e: Event, s': State)
    requires Right(s) && (e.WriteShard? || e.WriteManifest? || e.Clean?) && TickerStep(s, e, s')
    ensures Right(s')
  {
    hide OpeningRight, WatchRight, Written, SeenRight, ReadRight, OnlyReads, Names;
    SameOpeningRight(s.mem, s'.mem, Marks(s.mem.dirty, s.owed), s.disk);
    SameWatch(s.mem, s'.mem, s.owed, s.disk);
  }

  // ---- publishing ----

  /** A shard to be rewritten has the files it reads. */
  lemma ReadsOf(c: Cycle, i: nat, p: Bytes)
    requires i < |c.shards| && Affected(c, i) && CountPath(c.shards[i].rows, p) > 0 && !(p in c.dirty && c.dirty[p])
    ensures Reads(c, p)
  {
    hide CountPath, Affected, Home;
  }

  /** A row read again for a file that is not dirty still agrees with it. */
  lemma RereadAgrees(c: Cycle, was: Row, disk: Disk)
    requires Keeps(c, was.path) && was.path !in c.dirty && Agrees(was, disk) && ContentAt(c.disk, was.path) == ContentAt(disk, was.path)
    ensures Agrees(RebuildRow(c, was), disk) && RebuildRow(c, was).path == was.path
  {
    hide Tris, IsBinary;
  }

  /** The rows published for paths that are not marked agree with the disk. */
  lemma PublishedRow(c: Cycle, newRows: seq<Row>, done: set<Bytes>, marks: Dirty, disk: Disk, r: Row)
    requires NewRowsOf(c, newRows) && Coherent(AllRows(c.shards), marks, disk)
    requires c.dirty.Keys <= marks.Keys && AllRead(c, done) && ReadRight(c, done, marks, disk)
    requires r in AllRows(ShardsAfter(c, newRows)) && r.path !in marks
    ensures Agrees(r, disk)
  {
    hide AllRows, CountPath, Replaced, ShardsAfter, Affected, Agrees, SortedRows, FreshRow, RebuildRows, RebuildRow, Keeps, Reads, Unique, Home;
    RowsAreThose(c, newRows);
    assert r.path !in c.dirty.Keys;
    if r !in newRows {
      var i := OriginOf(c, |c.shards|, r);
      if Affected(c, i) {
        var was := RebuildOrigin(c, c.shards[i].rows, r);
        InAllRows(c.shards, i, was);
        SamePath(c, was);
        RowCounted(c.shards[i].rows, was);
        ReadsOf(c, i, was.path);
        RereadAgrees(c, was, disk);
      } else {
        InAllRows(c.shards, i, r);
      }
    }
  }

  /** No text is without a row or a mark. */
  lemma PublishedFile(c: Cycle, newRows: seq<Row>, done: set<Bytes>, marks: Dirty, disk: Disk, p: Bytes)
    requires NewRowsOf(c, newRows) && OrderedShards(c.shards) && Coherent(AllRows(c.shards), marks, disk)
    requires c.dirty.Keys <= marks.Keys && AllRead(c, done) && ReadRight(c, done, marks, disk)
    requires p in disk && Visible(disk[p]) && p !in marks
    ensures CountPath(AllRows(ShardsAfter(c, newRows)), p) > 0
  {
    hide AllRows, CountPath, ShardsAfter, Affected, Agrees, Reads, Unique, Home, IsBinary, OrderedShards, NewRowsOf;
    assert p !in c.dirty.Keys;
    CountsAfter(c, newRows, p);
    CountAtHome(c.shards, |c.shards|, p);
    assert c.shards[..|c.shards|] == c.shards;
    var h := Home(c.shards, p);
    if Affected(c, h) { ReadsOf(c, h, p); }
  }

  lemma PublishedIsCoherent(c: Cycle, newRows: seq<Row>, done: set<Bytes>, marks: Dirty, disk: Disk)
    requires NewRowsOf(c, newRows) && OrderedShards(c.shards) && Coherent(AllRows(c.shards), marks, disk)
    requires c.dirty.Keys <= marks.Keys && AllRead(c, done) && ReadRight(c, done, marks, disk)
    ensures Coherent(AllRows(ShardsAfter(c, newRows)), marks, disk)
  {
    var rows := AllRows(ShardsAfter(c, newRows));
    hide AllRows, CountPath, ShardsAfter, Agrees, OrderedShards, NewRowsOf, AllRead, ReadRight, Visible;
    forall r | r in rows ensures r.path in marks || Agrees(r, disk) {
      if r.path !in marks { PublishedRow(c, newRows, done, marks, disk, r); }
    }
    forall p | p in disk && Visible(disk[p]) ensures p in marks || CountPath(rows, p) > 0 {
      if p !in marks { PublishedFile(c, newRows, done, marks, disk, p); }
    }
    forall p ensures CountPath(rows, p) <= 1 { CountsAfter(c, newRows, p); }
  }

  /** A processed path that was marked deleted has no row any more. */
  lemma DeletedHasNoRow(c: Cycle, newRows: seq<Row>, p: Bytes)
    requires NewRowsOf(c, newRows) && OrderedShards(c.shards) && p in c.dirty && c.dirty[p] && !Deferred(c, p)
    ensures CountPath(AllRows(ShardsAfter(c, newRows)), p) == 0
  {
    hide AllRows, CountPath, ShardsAfter, Affected, OrderedShards, NewRowsOf, Home, IsBinary;
    CountsAfter(c, newRows, p);
  }

  lemma SeenWhenRead(c: Cycle, disk: Disk, p: Bytes)
    requires Reads(c, p)
    ensures (p in Seen(c, disk) <==> p in c.disk) && (p in c.disk ==> Seen(c, disk)[p] == c.disk[p])
  {
    hide Reads;
  }

  lemma AgreesWhenRead(c: Cycle, disk: Disk, r: Row)
    requires Reads(c, r.path) && Agrees(r, c.disk)
    ensures Agrees(r, Seen(c, disk))
  {
    hide Reads, Tris, Seen;
    SeenWhenRead(c, disk, r.path);
  }

  lemma NewIsRead(c: Cycle, p: Bytes)
    requires IsNew(c, p)
    ensures Reads(c, p)
  {
    hide Home, IsBinary, InAffected;
  }

  /** What a cycle publishes for a path it processed, it has read. */
  lemma CountedIsRead(c: Cycle, p: Bytes)
    requires p in c.dirty && !Deferred(c, p) && CountAfter(c, p) > 0
    ensures Reads(c, p)
  {
    hide CountPath, Affected, IsBinary, Reads, IsNew;
    var h := Home(c.shards, p);
    if h >= 0 { KeptIsLive(c, p); ReadsOf(c, h, p); } else { NewIsRead(c, p); }
  }

  lemma KeptIsLive(c: Cycle, p: Bytes)
    requires p in c.dirty && Home(c.shards, p) >= 0 && Affected(c, Home(c.shards, p)) && CountAfter(c, p) > 0
    ensures !c.dirty[p] && CountPath(c.shards[Home(c.shards, p)].rows, p) > 0
  {
    hide CountPath, Affected, IsBinary, Home;
  }

  /** The rows for a processed live path are those of the file seen. */
  lemma LiveRow(c: Cycle, newRows: seq<Row>, disk: Disk, r: Row)
    requires NewRowsOf(c, newRows) && OrderedShards(c.shards) && r in AllRows(ShardsAfter(c, newRows))
    requires r.path in c.dirty && !Deferred(c, r.path)
    ensures Agrees(r, Seen(c, disk))
  {
    hide AllRows, ShardsAfter, Deferred, Agrees, FreshRow, Reads, OrderedShards, Seen, CountAfter, NewRowsOf;
    ProcessedRow(c, newRows, r);
    CountedIsRead(c, r.path);
    FreshAgrees(c, r.path);
    AgreesWhenRead(c, disk, r);
  }

  /** A processed live path whose file was seen with text in it has a row, unless lost. */
  lemma LiveCounted(c: Cycle, newRows: seq<Row>, disk: Disk, p: Bytes)
    requires NewRowsOf(c, newRows) && OrderedShards(c.shards) && NoneLost(c.(disk := Seen(c, disk)))
    requires p in c.dirty && !c.dirty[p] && !Deferred(c, p) && p in Seen(c, disk) && Visible(Seen(c, disk)[p])
    ensures CountPath(AllRows(ShardsAfter(c, newRows)), p) > 0
  {
    hide AllRows, CountPath, ShardsAfter, Affected, OrderedShards, NewRowsOf, Home, IsBinary, Reads, Seen, Lost;
    CountsAfter(c, newRows, p);
    var h := Home(c.shards, p);
    if h == -1 {
      UnhousedIsRead(c, p);
      SeenWhenRead(c, disk, p);
    } else {
      if CountPath(c.shards[h].rows, p) > 0 {
        ReadsOf(c, h, p);
        SeenWhenRead(c, disk, p);
      } else {
        LostThen(c, Seen(c, disk), p);
      }
    }
  }

  lemma UnhousedIsRead(c: Cycle, p: Bytes)
    requires p in c.dirty && !c.dirty[p] && Home(c.shards, p) == -1
    ensures Reads(c, p)
  {
    hide Home, InAffected;
  }

  lemma LostThen(c: Cycle, seen: Disk, p: Bytes)
    requires p in c.dirty && !c.dirty[p] && p in seen && Visible(seen[p]) && Home(c.shards, p) >= 0
    requires Affected(c, Home(c.shards, p)) && CountPath(c.shards[Home(c.shards, p)].rows, p) == 0
    ensures Lost(c.(disk := seen), p)
  {
    hide Home, CountPath, IsBinary;
    var c' := c.(disk := seen);
    forall i ensures DirtyIn(c', i) == DirtyIn(c, i) {}
  }

  lemma PlanSeesRight(c: Cycle, newRows: seq<Row>, disk: Disk)
    requires NewRowsOf(c, newRows) && OrderedShards(c.shards) && NoneLost(c.(disk := Seen(c, disk)))
    ensures SeenRight(CyclePlan(c, newRows, disk))
  {
    hide AllRows, CountPath, ShardsAfter, OrderedShards, NewRowsOf, Seen, NoneLost, Agrees, Visible, SeqAfter, OldFiles, Deferred;
    var plan := CyclePlan(c, newRows, disk);
    forall p | p in plan.processed && p in plan.dirty ensures SeenRightAt(plan, p) {
      assert !Deferred(c, p);
      if plan.dirty[p] {
        DeletedHasNoRow(c, newRows, p);
      } else {
        forall r | r in AllRows(plan.next) && r.path == p ensures Agrees(r, plan.disk) { LiveRow(c, newRows, disk, r); }
        if p in plan.disk && Visible(plan.disk[p]) { LiveCounted(c, newRows, disk, p); }
      }
    }
  }

  lemma KeepsPublish(s: State, e: Event, s': State)
    requires Right(s) && Consistent(s.mem) && s.mem.Up? && s.mem.opening.Open?
    requires e.Publish? && TickerStep(s, e, s') && Harmless(s, e)
    ensures Right(s')
  {
    hide AllRows, ShardsAfter, OrderedShards, NewRowsOf, Seen, NoneLost, SeqAfter, OldFiles, DeferredSet, Coherent, AllRead, ReadRight, OnlyReads, SeenRight, WatchFits, Covered, Stored;
    var c := s.mem.work.c;
    PublishedIsCoherent(c, e.newRows, s.mem.work.done, Marks(s.mem.dirty, s.owed), s.disk);
    PlanSeesRight(c, e.newRows, s.disk);
  }

  // ---- dropping marks ----

  /** Dropping marks that stand for no later change keeps the engine coherent. */
  lemma DroppingIsSafe(plan: Plan, dirty: Dirty, owed: set<Bytes>, disk: Disk)
    requires Coherent(AllRows(plan.next), Marks(dirty, owed), disk) && SeenRight(plan) && NoneSwallowed(plan, dirty, owed, disk)
    ensures Coherent(AllRows(plan.next), Marks(Dropped(plan, dirty), owed), disk)
  {
    hide AllRows, CountPath, Tris, IsBinary, Unique;
    var rows, marks, left := AllRows(plan.next), Marks(dirty, owed), Marks(Dropped(plan, dirty), owed);
    forall r | r in rows ensures r.path in left || Agrees(r, disk) {
      RowCounted(rows, r);
      assert r.path in marks || Agrees(r, disk);
      if r.path in marks && r.path !in left { assert SeenRightAt(plan, r.path); }
    }
    forall p | p in disk && Visible(disk[p]) ensures p in left || CountPath(rows, p) > 0 {
      assert p in marks || CountPath(rows, p) > 0;
      if p in marks && p !in left { assert SeenRightAt(plan, p); }
    }
  }

  lemma KeepsFinish(s: State, e: Event, s': State)
    requires Right(s) && Consistent(s.mem) && s.mem.Up? && s.mem.opening.Open? && e.Finish? && TickerStep(s, e, s') && Harmless(s, e)
    ensures Right(s')
  {
    hide AllRows, Coherent, SeenRight, NoneSwallowed, Dropped, Names, Marks, WatchRight;
    SameWatch(s.mem, s'.mem, s.owed, s.disk);
    DroppingIsSafe(s.mem.work.plan, s.mem.dirty, s.owed, s.disk);
  }

  // ---- any step ----

  lemma KeepsRightWork(s: State, e: Event, s': State)
    requires Right(s) && Consistent(s.mem) && TickerStep(s, e, s') && !e.Tick? && Harmless(s, e)
    ensures Right(s')
  {
    hide Consistent, Right, Harmless;
    WorkGoesOn(s, e, s');
    AtWorkIsOpen(s.mem);
    match e
    case Begin(_, _) => KeepsTick(s, e, s');
    case Look(_) => KeepsLook(s, e, s');
    case LookAgain(_) => KeepsLookAgain(s, e, s');
    case WriteShard(_) => KeepsFiles(s, e, s');
    case Publish(_) => KeepsPublish(s, e, s');
    case WriteManifest(_) => KeepsFiles(s, e, s');
    case Clean(_) => KeepsFiles(s, e, s');
    case Finish => KeepsFinish(s, e, s');
    case _ =>
  }

  lemma KeepsRightWorld(s: State, e: Event, s': State)
    requires Right(s) && Consistent(s.mem) && WorldStep(s, e, s') && Harmless(s, e)
    ensures Right(s')
  {
    hide Right, Consistent, Harmless, MarksUnder, NotThere, Settled;
    match e
    case Change(_, _) => KeepsChange(s, e, s');
    case Mark(_) => KeepsChange(s, e, s');
    case Gone(_, _) => KeepsChange(s, e, s');
    case MarkBelow => KeepsMarkBelow(s, e, s');
    case Crash => DownIsRight(s');
    case _ =>
  }

  lemma DownIsRight(s: State)
    requires s.mem.Down?
    ensures Right(s)
  {
  }

  lemma KeepsRight(s: State, e: Event, s': State)
    requires Right(s) && Consistent(s.mem) && Step(s, e, s') && Harmless(s, e)
    ensures Right(s')
  {
    hide Right, Consistent, WorldStep, OpenerStep, TickerStep, Harmless;
    if WorldStep(s, e, s') {
      KeepsRightWorld(s, e, s');
    } else {
      NotOfTheWorld(s, e, s');
      match e
      case Boot => KeepsBoot(s, e, s');
      case List(_) => KeepsBoot(s, e, s');
      case Load(_, _) => KeepsLoad(s, e, s');
      case Sweep(_) => KeepsSweep(s, e, s');
      case SweepDone => KeepsSweep(s, e, s');
      case MarkStale(_) => KeepsMarkStale(s, e, s');
      case Install => KeepsInstall(s, e, s');
      case StartFirst(_) => KeepsStartFirst(s, e, s');
      case ReadFirst(_) => KeepsReadFirst(s, e, s');
      case WriteFirst(_) => KeepsReadFirst(s, e, s');
      case PublishFirst => KeepsPublishFirst(s, e, s');
      case ManifestFirst(_) => KeepsManifestFirst(s, e, s');
      case Tick => KeepsTick(s, e, s');
      case _ => KeepsRightWork(s, e, s');
    }
  }

  // ---- a search while all this goes on ----

  /** Settling a removed directory forgets a path below it that `rows` know of: it was not
      among the rows in use when the removal was noticed, and is marked in no other way. */
  ghost predicate Forgets(rows: seq<Row>, s: State, e: Event) {
    && e.MarkBelow? && s.mem.Up? && s.mem.watch.Removing?
    && exists p :: p in Settled(s, s.mem.watch.dir) && p !in s.mem.dirty && p !in s.mem.watch.marked && CountPath(rows, p) > 0
  }

  ghost predicate Fits(s: State) {
    s.mem.Up? ==> WatchFits(s.mem.watch, s.owed, s.disk)
  }

  lemma RightFits(s: State)
    requires Right(s)
    ensures Fits(s)
  {
    hide OpeningRight, WorkRight, WatchFits, Covered, AllRows;
  }

  lemma KeepsFit(s: State, e: Event, s': State)
    requires Fits(s) && Step(s, e, s')
    ensures Fits(s')
  {
    hide WorldStep, OpenerStep, TickerStep, NotThere;
    if WorldStep(s, e, s') {
      FitsInWorld(s, e, s');
    } else if OpenerStep(s, e, s') {
      OpenedInWorld(s, e, s');
    } else {
      TickedInWorld(s, e, s');
    }
  }

  lemma FitsInWorld(s: State, e: Event, s': State)
    requires Fits(s) && WorldStep(s, e, s')
    ensures Fits(s')
  {
    hide Settled, AllRows;
  }

  lemma OpenedInWorld(s: State, e: Event, s': State)
    requires OpenerStep(s, e, s')
    ensures s'.disk == s.disk && s'.mem.Up? && (s.mem.Up? ==> s'.owed == s.owed && s'.mem.watch == s.mem.watch)
    ensures s.mem.Down? ==> s'.mem.watch.Quiet?
  {
    hide Reconciled, Saved, AllRows, IsFirstRow, AllBuilt, SortedRows, ContentAt, Names;
  }

  lemma TickedInWorld(s: State, e: Event, s': State)
    requires TickerStep(s, e, s')
    ensures s.mem.Up? && s'.mem.Up? && s'.disk == s.disk && s'.owed == s.owed && s'.mem.watch == s.mem.watch
  {
    hide Reads, Mixed, Written, AllRead, CyclePlan, NewRowsOf, Dropped, Names, Stored;
  }

  /** What is stored below a directory when its removal is noticed is not forgotten. */
  lemma StoredIsMarked(s: State, e: Event)
    requires s.mem.Up? && WatchRight(s.mem, s.owed, s.disk)
    ensures !Forgets(AllRows(s.mem.shards), s, e)
  {
    hide AllRows, CountPath, NotThere;
  }

  lemma ForgottenAt(rows: seq<Row>, s: State, s': State, p: Bytes)
    requires WorldStep(s, MarkBelow, s') && s.mem.Up? && Fits(s) && !Forgets(rows, s, MarkBelow)
    requires FlagsRight(Marks(s.mem.dirty, s.owed), s.disk)
    ensures MarkedOrForgotten(rows, Marks(s.mem.dirty, s.owed), Marks(s'.mem.dirty, s'.owed), s.disk, p)
  {
    hide AllRows, CountPath;
  }

  /** Rows that were coherent once stay so, with the marks as they are by then, as long as
      no marks are dropped and no path they know of is forgotten. */
  lemma RowsStayCoherent(rows: seq<Row>, s: State, e: Event, s': State)
    requires s.mem.Up? && s.mem.opening.Open? && Step(s, e, s') && !e.Crash? && !e.Finish? && !Forgets(rows, s, e)
    requires Fits(s) && Coherent(rows, Marks(s.mem.dirty, s.owed), s.disk)
    ensures s'.mem.Up? && s'.mem.opening.Open? && Coherent(rows, Marks(s'.mem.dirty, s'.owed), s'.disk)
  {
    hide Coherent, WorldStep, TickerStep, OpenerStep, Marks, Forgets, Fits, MarkedOrForgotten, FlagsRight;
    if WorldStep(s, e, s') {
      StillOpen(s, e, s');
      if e.MarkBelow? {
        CoherentFlags(rows, Marks(s.mem.dirty, s.owed), s.disk);
        forall p ensures MarkedOrForgotten(rows, Marks(s.mem.dirty, s.owed), Marks(s'.mem.dirty, s'.owed), s.disk, p) {
          ForgottenAt(rows, s, s', p);
        }
        ForgettingKeepsCoherent(rows, Marks(s.mem.dirty, s.owed), Marks(s'.mem.dirty, s'.owed), s.disk);
      } else {
        MovesMarks(s, e, s');
        MarkingKeepsCoherent(rows, Marks(s.mem.dirty, s.owed), s.disk, Marks(s'.mem.dirty, s'.owed), s'.disk);
      }
    } else {
      OnlyTicks(s, e, s');
      SameMarks(s, e, s');
    }
  }

  lemma StillOpen(s: State, e: Event, s': State)
    requires s.mem.Up? && s.mem.opening.Open? && WorldStep(s, e, s') && !e.Crash?
    ensures e.Change? || e.Mark? || e.Gone? || e.MarkBelow?
    ensures s'.mem.Up? && s'.mem.opening.Open? && (e.MarkBelow? ==> s'.disk == s.disk)
  {
    hide MarksUnder, NotThere, Put, Settled;
  }

  /** Nothing is left to open. */
  lemma OnlyTicks(s: State, e: Event, s': State)
    requires s.mem.Up? && s.mem.opening.Open?
    ensures !OpenerStep(s, e, s')
  {
    hide Reconciled, Saved, AllRows, IsFirstRow, AllBuilt, SortedRows, ContentAt, Names;
  }

  lemma SameMarks(s: State, e: Event, s': State)
    requires s.mem.Up? && s.mem.opening.Open? && TickerStep(s, e, s') && !e.Finish?
    ensures s'.mem.Up? && s'.mem.opening.Open? && s'.mem.dirty == s.mem.dirty && s'.owed == s.owed && s'.disk == s.disk
  {
    hide Reads, Mixed, Written, AllRead, CyclePlan, NewRowsOf, Dropped, Names, Stored;
  }
}
