/** What is on disk and what names it, kept by every step of Recovery. */
module Naming {
  // The manifest names only shard files that exist, and no number in use is written again.
  // No condition on what files change, or when, plays a part.

  import opened Prelude
  import opened Bytes
  import opened EngineSpec
  import opened Rebuild
  import opened EngineSteps
  import opened Engine
  import opened Recovery
  import opened Consistency

  lemma KeepsWorld(s: State, e: Event, s': State)
    requires Named(s) && WorldStep(s, e, s')
    ensures Named(s')
  {
    hide NamesOk, Blank, FoundOk, BuiltOk, SortedRows, AllRows, Backed, AllUnused, Retired, IsFirstRow, MarksUnder, NotThere, Settled;
    if s'.mem.Up? { SameWork(s.mem, s'.mem, s.manifest); SameConsistent(s.mem, s'.mem); }
  }

  lemma SameWork(m: Memory, m': Memory, manifest: Option<Manifest>)
    requires m.Up? && m'.Up? && m'.shards == m.shards && m'.seqNo == m.seqNo && m'.work == m.work
    ensures WorkNamed(m', manifest) <==> WorkNamed(m, manifest)
  {
    hide AllUnused, Retired;
  }

  // ---- opening ----

  lemma KeepsBoot(s: State, e: Event, s': State)
    requires Named(s) && e.Boot? && OpenerStep(s, e, s')
    ensures Named(s')
  {
    hide NamesOk;
  }

  lemma KeepsList(s: State, e: Event, s': State)
    requires Named(s) && e.List? && OpenerStep(s, e, s')
    ensures Named(s')
  {
    hide NamesOk, Blank;
    SameBlank(s.mem, s'.mem);
  }

  lemma KeepsLoad(s: State, e: Event, s': State)
    requires Named(s) && e.Load? && OpenerStep(s, e, s')
    ensures Named(s')
  {
    hide Blank, Opened, Reconciled, AllRows, Names, NoTwice;
    SameBlank(s.mem, s'.mem);
    if s.manifest.Some? { OpenedNamed(s.manifest.value.names, s.files, e.bad); } else { NothingTwice(); }
  }

  /** Removing files the manifest does not name keeps those it does, and those found. */
  lemma KeepsSweep(s: State, e: Event, s': State)
    requires Named(s) && e.Sweep? && OpenerStep(s, e, s')
    ensures Named(s')
  {
    hide Blank, Names, NoTwice;
    SameBlank(s.mem, s'.mem);
    var o := s.mem.opening;
    forall t | t in o.found ensures Stored(t, s'.files) { assert t.seqNo != e.orphan; }
  }

  lemma KeepsMarking(s: State, e: Event, s': State)
    requires Named(s) && (e.SweepDone? || e.MarkStale?) && OpenerStep(s, e, s')
    ensures Named(s')
  {
    hide NamesOk, Blank, FoundOk;
    SameBlank(s.mem, s'.mem);
  }

  lemma KeepsInstall(s: State, e: Event, s': State)
    requires Named(s) && e.Install? && OpenerStep(s, e, s')
    ensures Named(s')
  {
    hide Names, NoTwice;
  }

  lemma KeepsStartFirst(s: State, e: Event, s': State)
    requires Named(s) && e.StartFirst? && OpenerStep(s, e, s')
    ensures Named(s')
  {
    hide Blank, NoTwice;
    SameBlank(s.mem, s'.mem);
    NoShardRows();
    if s.manifest.Some? { FirstOf(s.manifest.value.names); }
  }

  lemma FirstOf(ns: seq<nat>)
    ensures ns == [] || ns[0] in ns
  {
  }

  lemma KeepsReadFirst(s: State, e: Event, s': State)
    requires Named(s) && e.ReadFirst? && OpenerStep(s, e, s')
    ensures Named(s')
  {
    hide NamesOk, Blank, BuiltOk, SortedRows, AllRows, FirstRow;
    SameBlank(s.mem, s'.mem);
  }

  lemma NamesUnaffected(manifest: Option<Manifest>, files: map<nat, seq<Row>>, n: nat, rows: seq<Row>)
    requires NamesOk(manifest, files)
    ensures NamesOk(manifest, files[n := rows])
  {
  }

  /** A shard of the first build goes into a file of its own. */
  lemma KeepsWriteFirst(s: State, e: Event, s': State)
    requires Named(s) && e.WriteFirst? && OpenerStep(s, e, s')
    ensures Named(s')
  {
    hide NamesOk, Blank, SortedRows, AllRows, FirstRow;
    var o := s.mem.opening;
    SameBlank(s.mem, s'.mem);
    NamesUnaffected(s.manifest, s.files, |o.built|, e.rows);
    AllRowsSnoc(o.built, Shard(|o.built|, e.rows));
    forall r | r in AllRows(s'.mem.opening.built) ensures IsFirstRow(s'.mem.opening, r) {
      if r in AllRows(o.built) { assert IsFirstRow(o, r); } else { assert IsFirstRow(o, r); }
    }
  }

  lemma KeepsPublishFirst(s: State, e: Event, s': State)
    requires Named(s) && e.PublishFirst? && OpenerStep(s, e, s')
    ensures Named(s')
  {
    hide NamesOk, SortedRows, AllRows, BuiltOk, AllBuilt, IsFirstRow;
  }

  lemma BuiltIsBacked(built: seq<Shard>, files: map<nat, seq<Row>>)
    requires BuiltOk(built, files)
    ensures Backed(built, files, |built|)
    ensures forall n :: n in Names(built) ==> n in files && n < |built|
  {
    hide Stored;
    forall t | t in built ensures Stored(t, files) && t.seqNo < |built| {
      var i :| 0 <= i < |built| && built[i] == t;
    }
    BackedNames(built, files, |built|);
  }

  lemma BackedNames(shards: seq<Shard>, files: map<nat, seq<Row>>, seqNo: nat)
    requires forall t :: t in shards ==> Stored(t, files) && t.seqNo < seqNo
    ensures forall n :: n in Names(shards) ==> n in files && n < seqNo
  {
    forall n | n in Names(shards) ensures n in files && n < seqNo { NamedShard(shards, n); }
  }

  lemma KeepsManifestFirst(s: State, e: Event, s': State)
    requires Named(s) && e.ManifestFirst? && OpenerStep(s, e, s')
    ensures Named(s')
  {
    hide BuiltOk, Names, NoTwice, Stored;
    BuiltIsBacked(s.mem.opening.built, s.files);
  }

  // ---- the rebuild loop ----

  /** A fresh number is no file's in use or named. */
  lemma FreshIsSafe(s: State, n: nat, rows: seq<Row>)
    requires Named(s) && s.mem.Up? && s.mem.opening.Open? && n >= s.mem.seqNo
    ensures NamesOk(s.manifest, s.files[n := rows]) && Backed(s.mem.shards, s.files[n := rows], s.mem.seqNo)
  {
    hide AllUnused, WorkNamed, NoTwice, Names;
  }

  lemma WrittenIsFresh(c: Cycle, done: set<Bytes>, t: Shard)
    requires Written(c, done, t)
    ensures t.seqNo >= c.seqNo
  {
    hide NewRowsOf, Affected, AllRead, Reads, RebuildRows, SeqAfter;
    ReplacedNumbers(c, |c.shards|);
    if i :| 0 <= i < |c.shards| && Affected(c, i) && t in Replacement(c, i) {
      ReplacedNumbers(c, i);
      ReplacedNext(c, i);
    }
  }

  lemma KeepsTick(s: State, e: Event, s': State)
    requires Named(s) && (e.Tick? || e.Begin?) && TickerStep(s, e, s') && InTurn(s, e)
    ensures Named(s')
  {
    hide NamesOk, FoundOk, BuiltOk, SortedRows, AllRows, Backed, AllUnused, IsFirstRow;
  }

  lemma KeepsLook(s: State, e: Event, s': State)
    requires Named(s) && (e.Look? || e.LookAgain?) && TickerStep(s, e, s')
    ensures Named(s')
  {
    hide NamesOk, FoundOk, BuiltOk, SortedRows, AllRows, Backed, AllUnused, IsFirstRow, Reads, Mixed;
  }

  /** Writing one shard file overwrites none in use or named. */
  lemma KeepsWriteShard(s: State, e: Event, s': State)
    requires Named(s) && e.WriteShard? && TickerStep(s, e, s')
    ensures Named(s')
  {
    hide NamesOk, FoundOk, BuiltOk, SortedRows, AllRows, Backed, AllUnused, IsFirstRow, Written;
    WrittenIsFresh(s.mem.work.c, s.mem.work.done, e.shard);
    FreshIsSafe(s, e.shard.seqNo, e.shard.rows);
  }

  /** The new list is stored under numbers of its own, and retires only files it replaces. */
  lemma KeepsPublish(s: State, e: Event, s': State)
    requires Named(s) && e.Publish? && TickerStep(s, e, s')
    ensures Named(s')
  {
    hide NamesOk, FoundOk, BuiltOk, SortedRows, AllRows, Backed, AllUnused, Retired, IsFirstRow, AllRead, NewRowsOf, ShardsAfter, SeqAfter, OldFiles, DeferredSet, Seen, Stored;
    var c := s.mem.work.c;
    CycleBacked(c, e.newRows, s.files);
    CycleRetires(c, e.newRows, s.files);
    StillRetired(c, e.newRows, s.files, s.mem.pending);
    ReplacedNumbers(c, |c.shards|);
  }

  /** Every shard the new manifest names is on disk when it is written, and of the files to
      be removed next it names none; nor does the old one if no new one could be written. */
  lemma KeepsWriteManifest(s: State, e: Event, s': State)
    requires Named(s) && e.WriteManifest? && TickerStep(s, e, s') && NoneStranded(s, e)
    ensures Named(s')
  {
    hide FoundOk, BuiltOk, SortedRows, AllRows, IsFirstRow, Names, NoTwice, Stored;
    BackedNames(s.mem.shards, s.files, s.mem.seqNo);
    forall n | n in s.mem.pending ensures Unused(n, s'.manifest, s.mem.shards, s.mem.seqNo) { NamedShard(s.mem.shards, n); }
  }

  /** Removing an earlier cycle's files removes none in use or named. */
  lemma KeepsClean(s: State, e: Event, s': State)
    requires Named(s) && e.Clean? && TickerStep(s, e, s')
    ensures Named(s')
  {
    hide FoundOk, BuiltOk, SortedRows, AllRows, IsFirstRow, Names, NoTwice;
    var n := s.mem.work.queue[0];
    assert n in s.mem.work.queue;
    assert Unused(n, s.manifest, s.mem.shards, s.mem.seqNo);
  }

  lemma KeepsFinish(s: State, e: Event, s': State)
    requires Named(s) && e.Finish? && TickerStep(s, e, s')
    ensures Named(s')
  {
    hide NamesOk, FoundOk, BuiltOk, SortedRows, AllRows, Backed, IsFirstRow, Names, Dropped, AllUnused;
  }

  // ---- any step ----

  /** Every step, whatever comes after it, keeps the shard files in use. */
  lemma KeepsNamed(s: State, e: Event, s': State)
    requires Named(s) && Step(s, e, s') && InTurn(s, e) && NoneStranded(s, e)
    ensures Named(s')
  {
    hide Named, WorldStep, OpenerStep, TickerStep, NoneStranded;
    if WorldStep(s, e, s') {
      KeepsWorld(s, e, s');
    } else {
      NotOfTheWorld(s, e, s');
      match e
      case Boot => KeepsBoot(s, e, s');
      case List(_) => KeepsList(s, e, s');
      case Load(_, _) => KeepsLoad(s, e, s');
      case Sweep(_) => KeepsSweep(s, e, s');
      case SweepDone => KeepsMarking(s, e, s');
      case MarkStale(_) => KeepsMarking(s, e, s');
      case Install => KeepsInstall(s, e, s');
      case StartFirst(_) => KeepsStartFirst(s, e, s');
      case ReadFirst(_) => KeepsReadFirst(s, e, s');
      case WriteFirst(_) => KeepsWriteFirst(s, e, s');
      case PublishFirst => KeepsPublishFirst(s, e, s');
      case ManifestFirst(_) => KeepsManifestFirst(s, e, s');
      case Tick => KeepsTick(s, e, s');
      case Begin(_, _) => KeepsTick(s, e, s');
      case Look(_) => KeepsLook(s, e, s');
      case LookAgain(_) => KeepsLook(s, e, s');
      case WriteShard(_) => KeepsWriteShard(s, e, s');
      case Publish(_) => KeepsPublish(s, e, s');
      case WriteManifest(_) => KeepsWriteManifest(s, e, s');
      case Clean(_) => KeepsClean(s, e, s');
      case Finish => KeepsFinish(s, e, s');
      case _ =>
    }
  }

  // ---- manifests that cannot be written ----

  /** No file to be removed is named by the manifest on disk, which is the latest when a
      cycle cleans up. */
  ghost predicate Held(s: State) {
    s.mem.Up? && s.mem.opening.Open? ==>
      && Unnamed(s.mem.pending, s.manifest)
      && (s.mem.work.Cleaning? ==> s.manifest == Some(Manifest(s.mem.seqNo, Names(s.mem.shards))) && Unnamed(s.mem.work.kept, s.manifest))
  }

  lemma HeldInWorld(s: State, e: Event, s': State)
    requires Held(s) && WorldStep(s, e, s')
    ensures Held(s')
  {
    hide Unnamed, Names, MarksUnder, NotThere, Settled, AllDeleted, Put;
  }

  lemma HeldOpening(s: State, e: Event, s': State)
    requires Consistent(s.mem) && OpenerStep(s, e, s')
    ensures Held(s')
  {
    hide FirstRows, Names, Reconciled, Saved, AllRows, IsFirstRow, AllBuilt, SortedRows, ContentAt;
  }

  lemma RetiredUnnamed(ns: seq<nat>, shards: seq<Shard>, seqNo: nat)
    requires Retired(ns, shards, seqNo)
    ensures Unnamed(ns, Some(Manifest(seqNo, Names(shards))))
  {
    hide Names;
    forall n | n in ns ensures n !in Names(shards) { NamedShard(shards, n); }
  }

  /** Once a manifest is written, whatever came before is forgotten. */
  lemma WritingHolds(s: State, e: Event, s': State)
    requires Named(s) && s.mem.Up? && s.mem.opening.Open? && e.WriteManifest? && e.written && TickerStep(s, e, s')
    ensures Held(s')
  {
    hide NamesOk, Backed, AllUnused, Retired, Names, Unnamed;
    RetiredUnnamed(s.mem.pending, s.mem.shards, s.mem.seqNo);
    NothingUnnamed(s'.manifest);
  }

  lemma NothingUnnamed(manifest: Option<Manifest>)
    ensures Unnamed([], manifest)
  {
  }

  lemma CleaningHolds(s: State, e: Event, s': State)
    requires Named(s) && Held(s) && s.mem.Up? && s.mem.opening.Open? && e.Clean? && TickerStep(s, e, s')
    ensures Held(s')
  {
    hide NamesOk, Backed, Retired, Names;
    assert s.mem.work.queue[0] in s.mem.work.queue;
    assert Unused(s.mem.work.queue[0], s.manifest, s.mem.shards, s.mem.seqNo);
  }

  lemma FinishHolds(s: State, e: Event, s': State)
    requires Named(s) && Held(s) && s.mem.Up? && s.mem.opening.Open? && e.Finish? && TickerStep(s, e, s')
    ensures Held(s')
  {
    hide NamesOk, Backed, AllUnused, Retired, Names, Dropped;
    RetiredUnnamed(s.mem.work.plan.replaced, s.mem.shards, s.mem.seqNo);
  }

  lemma TickingHolds(s: State, e: Event, s': State)
    requires Held(s) && s.mem.Up? && s.mem.opening.Open? && !e.WriteManifest? && !e.Clean? && !e.Finish? && TickerStep(s, e, s')
    ensures Held(s')
  {
    hide Unnamed, Names, Reads, Mixed, Written, AllRead, CyclePlan, NewRowsOf, Stored;
  }

  /** Every other step keeps it. */
  lemma KeepsHeld(s: State, e: Event, s': State)
    requires Named(s) && Held(s) && Step(s, e, s') && InTurn(s, e) && !Unwritten(e)
    ensures Held(s')
  {
    hide Held, WorldStep, OpenerStep, TickerStep, NamesOk, MemNamed, Consistent;
    if WorldStep(s, e, s') {
      HeldInWorld(s, e, s');
    } else if OpenerStep(s, e, s') {
      HeldOpening(s, e, s');
    } else {
      TicksWhenOpen(s, e, s');
      match e
      case WriteManifest(_) => WritingHolds(s, e, s');
      case Clean(_) => CleaningHolds(s, e, s');
      case Finish => FinishHolds(s, e, s');
      case _ => TickingHolds(s, e, s');
    }
  }

  lemma TicksWhenOpen(s: State, e: Event, s': State)
    requires Consistent(s.mem) && TickerStep(s, e, s') && InTurn(s, e)
    ensures s.mem.Up? && s.mem.opening.Open?
  {
    hide Consistent, Reads, Mixed, Written, AllRead, CyclePlan, NewRowsOf, Dropped, Names, Stored;
    if !e.Tick? { WorkGoesOn(s, e, s'); AtWorkIsOpen(s.mem); }
  }

  lemma HeldIsSafe(s: State, e: Event, s': State)
    requires Consistent(s.mem) && Held(s) && Unwritten(e) && Step(s, e, s')
    ensures NoneStranded(s, e)
  {
    hide Consistent, Unnamed, WorldStep, OpenerStep, TickerStep, Names;
    FromACycle(s, e, s');
    AtWorkIsOpen(s.mem);
  }

  lemma FromACycle(s: State, e: Event, s': State)
    requires Unwritten(e) && Step(s, e, s')
    ensures s.mem.Up? && !s.mem.work.Idle?
  {
    hide Names;
  }

  // ---- what a restart would find ----

  lemma NamedExist(manifest: Option<Manifest>, files: map<nat, seq<Row>>)
    requires NamesOk(manifest, files)
    ensures manifest.Some? ==> forall n :: n in manifest.value.names ==> n in files && n < manifest.value.seqNo
  {
    hide NoTwice;
  }

  lemma SavedFrame(s: State, s': State)
    requires NamesOk(s.manifest, s.files) && s'.manifest == s.manifest
    requires s.manifest.Some? ==> forall n :: n in s.manifest.value.names ==> n in s'.files && s'.files[n] == s.files[n]
    ensures Saved(s', {}) == Saved(s, {})
  {
    hide NoTwice;
    if s.manifest.Some? { OpenedAlike(s.manifest.value.names, s.files, s'.files, {}); }
  }

  lemma SavedOnWriting(s: State, e: Event, s': State)
    requires Named(s) && (e.Sweep? || e.WriteFirst?) && OpenerStep(s, e, s')
    ensures Saved(s', {}) == Saved(s, {})
  {
    hide NamesOk, Consistent, FoundOk, BuiltOk, SortedRows, AllRows, IsFirstRow, Saved;
    NamedExist(s.manifest, s.files);
    SavedFrame(s, s');
  }

  predicate Manifested(e: Event) {
    (e.ManifestFirst? || e.WriteManifest?) && e.written
  }

  lemma SavedOnManifest(s: State, e: Event, s': State)
    requires Named(s) && Manifested(e) && (OpenerStep(s, e, s') || TickerStep(s, e, s'))
    ensures s.mem.Up? && Saved(s', {}) == s.mem.shards
  {
    hide NamesOk, FoundOk, BuiltOk, NoTwice, Names, AllUnused, Retired, FirstRows, Stored;
    if e.ManifestFirst? { BuiltIsBacked(s.mem.opening.built, s.files); }
    OpenedBack(s.mem.shards, s'.files);
  }

  lemma SavedOnShard(s: State, e: Event, s': State)
    requires Named(s) && (e.WriteShard? || e.Clean?) && TickerStep(s, e, s')
    ensures Saved(s', {}) == Saved(s, {})
  {
    hide NamesOk, FoundOk, BuiltOk, FirstRows, Backed, Retired, Written, Saved;
    NamedExist(s.manifest, s.files);
    if e.WriteShard? {
      WrittenIsFresh(s.mem.work.c, s.mem.work.done, e.shard);
    } else {
      assert s.mem.work.queue[0] in s.mem.work.queue;
      assert Unused(s.mem.work.queue[0], s.manifest, s.mem.shards, s.mem.seqNo);
    }
    SavedFrame(s, s');
  }

  lemma FilesInWorld(s: State, e: Event, s': State)
    requires WorldStep(s, e, s')
    ensures e.Change? || e.Crash? || e.Mark? || e.Gone? || e.MarkBelow?
    ensures s'.files == s.files && s'.manifest == s.manifest
  {
    hide MarksUnder, NotThere, Settled, Put, AllDeleted;
  }

  lemma FilesOtherwise(s: State, e: Event, s': State)
    requires !e.Sweep? && !e.WriteFirst? && !Manifested(e) && !e.WriteShard? && !e.Clean?
    requires OpenerStep(s, e, s') || TickerStep(s, e, s')
    ensures s'.files == s.files && s'.manifest == s.manifest
  {
    hide Saved, Reconciled, AllRows, AllBuilt, Reads, Mixed, AllRead, CyclePlan, NewRowsOf, Dropped, Stored, ContentAt;
  }

  lemma SameSaved(s: State, s': State)
    requires s'.files == s.files && s'.manifest == s.manifest
    ensures Saved(s', {}) == Saved(s, {})
  {
    hide Opened;
  }

  /** What a restart would open changes only when a manifest is written, and then to the
      list in use: neither orphans removed, nor shards written, nor old files cleaned away
      make a difference. */
  lemma KeepsSaved(s: State, e: Event, s': State)
    requires Named(s) && Step(s, e, s')
    ensures if Manifested(e) then s.mem.Up? && Saved(s', {}) == s.mem.shards else Saved(s', {}) == Saved(s, {})
  {
    hide Named, WorldStep, OpenerStep, TickerStep, Saved;
    if Manifested(e) && !WorldStep(s, e, s') {
      NotOfTheWorld(s, e, s');
      SavedOnManifest(s, e, s');
    } else if WorldStep(s, e, s') {
      FilesInWorld(s, e, s');
      SameSaved(s, s');
    } else {
      NotOfTheWorld(s, e, s');
      match e
      case Sweep(_) => SavedOnWriting(s, e, s');
      case WriteFirst(_) => SavedOnWriting(s, e, s');
      case WriteShard(_) => SavedOnShard(s, e, s');
      case Clean(_) => SavedOnShard(s, e, s');
      case _ =>
        FilesOtherwise(s, e, s');
        SameSaved(s, s');
    }
  }
}
