/** Crash recovery of the disk engine (internal/shard/engine.go, manifest.go) as single
    steps of those who take part, in any interleaving, with a crash possible at any
    point: programs that change files, the watcher that marks the changes, the goroutine
    that opens the engine, and the rebuild loop, which starts with the engine and shares
    no lock with the one opening it. What the durable state keeps in spite of crashes is
    at the end. */
module Recovery {
  import opened Prelude
  import opened Bytes
  import opened Lines
  import opened EngineSpec
  import opened Rebuild
  import opened EngineSteps
  import opened Engine

  // ---- the state ----

  /** The goroutine that opens the engine: walking the tree; with the saved shards loaded,
      removing orphans and then marking what is stale; or building for the first time. */
  datatype Opening =
    | Listing(listed: Disk, done: set<Bytes>)
    | Loaded(listed: Disk, saved: Option<Manifest>, found: seq<Shard>, todo: Dirty, sweeping: bool)
    | Building(listed: Disk, inlineKB: int, texts: map<Bytes, Option<Bytes>>, built: seq<Shard>)
    | Built(built: seq<Shard>)
    | Open

  /** What a cycle is about to publish: the new list, the next free number, the files it
      replaces, the marks it took, what it saw of their files, and the marks to drop. */
  datatype Plan = Plan(next: seq<Shard>, seqNo: nat, replaced: seq<nat>, dirty: Dirty, disk: Disk, processed: set<Bytes>)

  /** The rebuild loop. A cycle looks at each file for itself; `c.disk` is what it has seen
      so far, and `first` holds files looked at once of twice. */
  datatype Work =
    | Idle
    | Taken(dirty: Dirty)
    | Reading(c: Cycle, first: Disk, done: set<Bytes>)
    | Published(plan: Plan)
    | Cleaning(plan: Plan, queue: seq<nat>, kept: seq<nat>)

  /** The watcher's consumer: a removed directory is marked, then what was stored below it. */
  datatype Watch = Quiet | Removing(dir: Bytes, marked: set<Bytes>)

  datatype Memory =
    | Down
    | Up(shards: seq<Shard>, seqNo: nat, dirty: Dirty, pending: seq<nat>, watch: Watch, opening: Opening, work: Work)

  /** `owed` are the paths changed since they were last marked. */
  datatype State = State(disk: Disk, owed: set<Bytes>, files: map<nat, seq<Row>>, manifest: Option<Manifest>, mem: Memory)

  datatype Event =
    | Change(path: Bytes, file: Option<DiskFile>)
    | Crash
    | Mark(path: Bytes)
    | Gone(dir: Bytes, marked: set<Bytes>)
    | MarkBelow
    | Boot
    | List(path: Bytes)
    | Load(bad: set<nat>, todo: Dirty)
    | Sweep(orphan: nat)
    | SweepDone
    | MarkStale(path: Bytes)
    | Install
    | StartFirst(inlineKB: int)
    | ReadFirst(path: Bytes)
    | WriteFirst(rows: seq<Row>)
    | PublishFirst
    | ManifestFirst(written: bool)
    | Tick
    | Begin(threshold: int, inlineKB: int)
    | Look(path: Bytes)
    | LookAgain(path: Bytes)
    | WriteShard(shard: Shard)
    | Publish(newRows: seq<Row>)
    | WriteManifest(written: bool)
    | Clean(removed: bool)
    | Finish

  // ---- programs, crashes and the watcher ----

  function Put(disk: Disk, p: Bytes, file: Option<DiskFile>): Disk {
    if file.Some? then disk[p := file.value] else disk - {p}
  }

  /** Paths below `dir` that are gone: marking what is stored below it settles them. */
  function Settled(s: State, dir: Bytes): set<Bytes> {
    set p | p in s.owed && dir + [SLASH] <= p && p !in s.disk
  }

  /** The directory was not there a moment ago: what is there now has come since. */
  ghost predicate NotThere(dir: Bytes, owed: set<Bytes>, disk: Disk) {
    forall p :: p in disk && Under(dir, p) ==> p in owed
  }

  ghost predicate WorldStep(s: State, e: Event, s': State) {
    match e
    case Change(p, f) =>
      s' == s.(disk := Put(s.disk, p, f), owed := if s.mem.Up? then s.owed + {p} else s.owed)
    case Crash => s' == s.(owed := {}, mem := Down)
    case Mark(p) =>
      && s.mem.Up? && s.mem.watch.Quiet?
      && s' == s.(owed := s.owed - {p}, mem := s.mem.(dirty := s.mem.dirty[p := false]))
    case Gone(dir, marked) =>
      && s.mem.Up? && s.mem.watch.Quiet? && NotThere(dir, s.owed, s.disk) && MarksUnder(s.mem.shards, dir, marked)
      && s' == s.(owed := if dir in s.disk then s.owed else s.owed - {dir},
                  mem := s.mem.(dirty := s.mem.dirty[dir := true], watch := Removing(dir, marked)))
    case MarkBelow =>
      && s.mem.Up? && s.mem.watch.Removing?
      && var w := s.mem.watch;
      && s' == s.(owed := s.owed - Settled(s, w.dir), mem := s.mem.(dirty := s.mem.dirty + AllDeleted(w.marked), watch := Quiet))
    case _ => false
  }

  // ---- opening ----

  /** The row of a file listed and then read. */
  function FirstRow(listed: Disk, inlineKB: int, p: Bytes, content: Bytes): Row
    requires p in listed
  {
    Row(p, listed[p].size, listed[p].mtime, Tris(content), InlineOf(inlineKB, content))
  }

  ghost predicate IsFirstRow(o: Opening, r: Row)
    requires o.Building?
  {
    && r.path in o.listed && r.path in o.texts && o.texts[r.path].Some?
    && r == FirstRow(o.listed, o.inlineKB, r.path, o.texts[r.path].value)
  }

  /** All files listed were read, and those that are text and still there have a row. */
  ghost predicate AllBuilt(o: Opening)
    requires o.Building?
  {
    && (forall p :: p in o.listed ==> p in o.texts)
    && (forall p :: p in o.texts && o.texts[p].Some? && !IsBinary(o.texts[p].value) ==> CountPath(AllRows(o.built), p) > 0)
  }

  function ContentAt(disk: Disk, p: Bytes): Option<Bytes> {
    if p in disk then Some(disk[p].content) else None
  }

  function Saved(s: State, bad: set<nat>): seq<Shard> {
    match s.manifest case None => [] case Some(m) => Opened(m.names, s.files, bad)
  }

  ghost predicate OpenerStep(s: State, e: Event, s': State) {
    match e
    case Boot => s.mem.Down? && s' == s.(owed := {}, mem := Up([], 0, map[], [], Quiet, Listing(map[], {}), Idle))
    case List(p) =>
      && s.mem.Up? && s.mem.opening.Listing? && p !in s.mem.opening.done
      && var o := s.mem.opening;
      && s' == s.(mem := s.mem.(opening := Listing(if p in s.disk then o.listed[p := s.disk[p]] else o.listed, o.done + {p})))
    case Load(bad, todo) =>
      && s.mem.Up? && s.mem.opening.Listing? && s.disk.Keys <= s.mem.opening.done && s.files != map[]
      && var o := s.mem.opening;
      && Reconciled(AllRows(Saved(s, bad)), o.listed, todo)
      && s' == s.(mem := s.mem.(opening := Loaded(o.listed, s.manifest, Saved(s, bad), todo, true)))
    case Sweep(n) =>
      && s.mem.Up? && s.mem.opening.Loaded? && s.mem.opening.sweeping
      && (s.mem.opening.saved.Some? ==> n !in s.mem.opening.saved.value.names)
      && s' == s.(files := s.files - {n})
    case SweepDone =>
      && s.mem.Up? && s.mem.opening.Loaded? && s.mem.opening.sweeping
      && s' == s.(mem := s.mem.(opening := s.mem.opening.(sweeping := false)))
    case MarkStale(p) =>
      && s.mem.Up? && s.mem.opening.Loaded? && !s.mem.opening.sweeping && p in s.mem.opening.todo
      && var o := s.mem.opening;
      && s' == s.(mem := s.mem.(dirty := s.mem.dirty[p := o.todo[p]], opening := o.(todo := o.todo - {p})))
    case Install =>
      && s.mem.Up? && s.mem.opening.Loaded? && !s.mem.opening.sweeping && s.mem.opening.todo == map[]
      && var o := s.mem.opening;
      && s' == s.(mem := s.mem.(shards := o.found, seqNo := if o.saved.Some? then o.saved.value.seqNo else 0, opening := Open))
    case StartFirst(inlineKB) =>
      && s.mem.Up? && s.mem.opening.Listing? && s.disk.Keys <= s.mem.opening.done && s.files == map[]
      && s' == s.(mem := s.mem.(opening := Building(s.mem.opening.listed, inlineKB, map[], [])))
    case ReadFirst(p) =>
      && s.mem.Up? && s.mem.opening.Building? && p in s.mem.opening.listed && p !in s.mem.opening.texts
      && var o := s.mem.opening;
      && s' == s.(mem := s.mem.(opening := o.(texts := o.texts[p := ContentAt(s.disk, p)])))
    case WriteFirst(rows) =>
      && s.mem.Up? && s.mem.opening.Building? && rows != []
      && var o := s.mem.opening;
      && SortedRows(AllRows(o.built) + rows) && (forall r :: r in rows ==> IsFirstRow(o, r))
      && s' == s.(files := s.files[|o.built| := rows], mem := s.mem.(opening := o.(built := o.built + [Shard(|o.built|, rows)])))
    case PublishFirst =>
      && s.mem.Up? && s.mem.opening.Building? && AllBuilt(s.mem.opening)
      && var built := s.mem.opening.built;
      && s' == s.(mem := s.mem.(shards := built, seqNo := |built|, opening := Built(built)))
    case ManifestFirst(written) =>
      && s.mem.Up? && s.mem.opening.Built?
      && var built := s.mem.opening.built;
      && s' == s.(manifest := if written then Some(Manifest(|built|, Names(built))) else s.manifest, mem := s.mem.(opening := Open))
    case _ => false
  }

  // ---- the rebuild loop ----

  /** The cycle reads `p`: it is in a shard to be rewritten, or live and in no shard. */
  ghost predicate Reads(c: Cycle, p: Bytes) {
    && !(p in c.dirty && c.dirty[p])
    && ((p in c.dirty && Home(c.shards, p) == -1) || InAffected(c, |c.shards|, p))
  }

  /** One of the first `n` shards is to be rewritten and has a row for `p`. */
  ghost predicate InAffected(c: Cycle, n: nat, p: Bytes) {
    exists i :: 0 <= i < n && i < |c.shards| && Affected(c, i) && CountPath(c.shards[i].rows, p) > 0
  }

  /** Two looks at a dirty file make one row: a stored file's content is read before its
      size and time, a new file's after them. */
  function Mixed(c: Cycle, p: Bytes, first: DiskFile, now: DiskFile): DiskFile {
    if Home(c.shards, p) < 0 then first.(content := now.content) else now.(content := first.content)
  }

  ghost predicate AllRead(c: Cycle, done: set<Bytes>) {
    forall p :: Reads(c, p) ==> p in done
  }

  /** A shard the cycle has read all the files for, in the order it goes through them. */
  ghost predicate Written(c: Cycle, done: set<Bytes>, t: Shard) {
    || (AllRead(c, done) && t.seqNo == SeqAfter(c, |c.shards|) && t.rows != [] && NewRowsOf(c, t.rows))
    || exists i :: 0 <= i < |c.shards| && Affected(c, i) && t in Replacement(c, i)
         && forall p :: InAffected(c, i + 1, p) && Reads(c, p) ==> p in done
  }

  /** What the cycle saw of the marked files, and those on disk that it had no need to see. */
  ghost function Seen(c: Cycle, disk: Disk): Disk {
    c.disk + map p | p in c.dirty && p in disk && !Reads(c, p) :: disk[p]
  }

  ghost function CyclePlan(c: Cycle, newRows: seq<Row>, disk: Disk): Plan {
    var n := |c.shards|;
    Plan(ShardsAfter(c, newRows), SeqAfter(c, n) + OneIf(newRows != []), OldFiles(c, n), c.dirty, Seen(c, disk), c.dirty.Keys - DeferredSet(c))
  }

  /** The marks a cycle leaves: those it did not process, and those that look different now. */
  function Dropped(plan: Plan, dirty: Dirty): Dirty {
    map p | p in dirty && !(p in plan.processed && p in plan.dirty && dirty[p] == plan.dirty[p]) :: dirty[p]
  }

  predicate Stored(s: Shard, files: map<nat, seq<Row>>) {
    s.seqNo in files && files[s.seqNo] == s.rows
  }

  ghost predicate TickerStep(s: State, e: Event, s': State) {
    match e
    case Tick =>
      && s.mem.Up? && s.mem.work.Idle? && |s.mem.dirty| > 0
      && s' == s.(mem := s.mem.(work := Taken(s.mem.dirty)))
    case Begin(threshold, inlineKB) =>
      && s.mem.Up? && s.mem.work.Taken?
      && s' == s.(mem := s.mem.(work := Reading(Cycle(s.mem.shards, s.mem.seqNo, s.mem.work.dirty, map[], threshold, inlineKB), map[], {})))
    case Look(p) =>
      && s.mem.Up? && s.mem.work.Reading? && p !in s.mem.work.done && p !in s.mem.work.first && Reads(s.mem.work.c, p)
      && var w := s.mem.work;
      && s' == s.(mem := s.mem.(work :=
           if p !in s.disk then w.(done := w.done + {p})
           else if p in w.c.dirty then w.(first := w.first[p := s.disk[p]])
           else w.(c := w.c.(disk := w.c.disk[p := s.disk[p]]), done := w.done + {p})))
    case LookAgain(p) =>
      && s.mem.Up? && s.mem.work.Reading? && p !in s.mem.work.done && p in s.mem.work.first
      && var w := s.mem.work;
      && s' == s.(mem := s.mem.(work :=
           if p !in s.disk then w.(done := w.done + {p})
           else w.(c := w.c.(disk := w.c.disk[p := Mixed(w.c, p, w.first[p], s.disk[p])]), done := w.done + {p})))
    case WriteShard(t) =>
      && s.mem.Up? && s.mem.work.Reading? && Written(s.mem.work.c, s.mem.work.done, t)
      && s' == s.(files := s.files[t.seqNo := t.rows])
    case Publish(newRows) =>
      && s.mem.Up? && s.mem.work.Reading? && AllRead(s.mem.work.c, s.mem.work.done)
      && var c := s.mem.work.c; var plan := CyclePlan(c, newRows, s.disk);
      && NewRowsOf(c, newRows) && (forall t :: t in plan.next && t.seqNo >= c.seqNo ==> Stored(t, s.files))
      && s' == s.(mem := s.mem.(shards := plan.next, seqNo := plan.seqNo, work := Published(plan)))
    case WriteManifest(written) =>
      && s.mem.Up? && s.mem.work.Published?
      && var plan := s.mem.work.plan;
      && s' == s.(manifest := if written then Some(Manifest(plan.seqNo, Names(plan.next))) else s.manifest, mem := s.mem.(work := Cleaning(plan, s.mem.pending, [])))
    case Clean(removed) =>
      && s.mem.Up? && s.mem.work.Cleaning? && s.mem.work.queue != []
      && var w := s.mem.work; var n := w.queue[0];
      && s' == s.(files := if removed then s.files - {n} else s.files,
                  mem := s.mem.(work := Cleaning(w.plan, w.queue[1..], w.kept + (if removed then [] else [n]))))
    case Finish =>
      && s.mem.Up? && s.mem.work.Cleaning? && s.mem.work.queue == []
      && var w := s.mem.work;
      && s' == s.(mem := s.mem.(dirty := Dropped(w.plan, s.mem.dirty), pending := w.kept + w.plan.replaced, work := Idle))
    case _ => false
  }

  ghost predicate Step(s: State, e: Event, s': State) {
    WorldStep(s, e, s') || OpenerStep(s, e, s') || TickerStep(s, e, s')
  }

  /** One condition that naming needs, and that the code does not see to: no cycle starts
      before the engine is open. */
  predicate InTurn(s: State, e: Event) {
    e.Tick? && s.mem.Up? ==> s.mem.opening.Open?
  }

  predicate Unnamed(ns: seq<nat>, manifest: Option<Manifest>) {
    manifest.Some? ==> forall n :: n in ns ==> n !in manifest.value.names
  }

  /** A manifest that cannot be written. */
  predicate Unwritten(e: Event) {
    e.WriteManifest? && !e.written
  }

  /** The other: when a manifest cannot be written, the one on disk names no file that is
      about to be removed. */
  predicate NoneStranded(s: State, e: Event) {
    Unwritten(e) && s.mem.Up? ==> Unnamed(s.mem.pending, s.manifest)
  }

  // ---- what the durable state keeps ----

  /** Each named shard file exists, under a number already used. */
  ghost predicate NamesOk(manifest: Option<Manifest>, files: map<nat, seq<Row>>) {
    manifest.Some? ==>
      (forall n :: n in manifest.value.names ==> n in files && n < manifest.value.seqNo) && NoTwice(manifest.value.names)
  }

  predicate NoNames(manifest: Option<Manifest>) {
    manifest.Some? ==> manifest.value.names == []
  }

  /** Each shard in memory is on disk, under a number of its own below `seqNo`. */
  ghost predicate Backed(shards: seq<Shard>, files: map<nat, seq<Row>>, seqNo: nat) {
    (forall t :: t in shards ==> Stored(t, files) && t.seqNo < seqNo) && NoTwice(Names(shards))
  }

  /** A number that neither the manifest nor the shard list uses, nor ever will. */
  ghost predicate Unused(n: nat, manifest: Option<Manifest>, shards: seq<Shard>, seqNo: nat) {
    && n < seqNo
    && (manifest.Some? ==> n !in manifest.value.names)
    && (forall t :: t in shards ==> t.seqNo != n)
  }

  ghost predicate AllUnused(ns: seq<nat>, manifest: Option<Manifest>, shards: seq<Shard>, seqNo: nat) {
    forall n :: n in ns ==> Unused(n, manifest, shards, seqNo)
  }

  /** Numbers out of use: old ones, of no shard in the list. */
  ghost predicate Retired(ns: seq<nat>, next: seq<Shard>, seqNo: nat) {
    forall n :: n in ns ==> n < seqNo && forall t :: t in next ==> t.seqNo != n
  }

  /** Nothing has been installed yet. */
  predicate Blank(m: Memory) {
    m.Up? && m.shards == [] && m.seqNo == 0 && m.pending == [] && m.work.Idle?
  }

  ghost predicate FoundOk(found: seq<Shard>, saved: Option<Manifest>, files: map<nat, seq<Row>>) {
    && (forall t :: t in found ==> Stored(t, files) && saved.Some? && t.seqNo in saved.value.names)
    && NoTwice(Names(found))
  }

  /** The rows of a first build are in order, and come from what was listed and read. */
  ghost predicate FirstRows(o: Opening)
    requires o.Building?
  {
    && (forall t :: t in o.built ==> t.rows != [])
    && SortedRows(AllRows(o.built)) && forall r :: r in AllRows(o.built) ==> IsFirstRow(o, r)
  }

  ghost predicate WorkConsistent(m: Memory)
    requires m.Up?
  {
    match m.work
    case Idle => true
    case Taken(d) => |d| > 0
    case Reading(c, first, _) => c.shards == m.shards && c.seqNo == m.seqNo && |c.dirty| > 0 && first.Keys <= c.dirty.Keys
    case Published(plan) => plan.next == m.shards && plan.seqNo == m.seqNo
    case Cleaning(plan, _, _) => plan.next == m.shards && plan.seqNo == m.seqNo
  }

  /** How the parts of memory go together, whatever is on disk. */
  ghost predicate Consistent(m: Memory) {
    m.Up? ==>
      match m.opening
      case Listing(_, _) => Blank(m)
      case Loaded(_, _, _, _, _) => Blank(m)
      case Building(_, _, _, _) => Blank(m) && FirstRows(m.opening)
      case Built(built) => m.shards == built && m.seqNo == |built| && m.pending == [] && m.work.Idle?
      case Open => WorkConsistent(m)
  }

  /** Shards of a first build: numbered from zero and stored. */
  ghost predicate BuiltOk(built: seq<Shard>, files: map<nat, seq<Row>>) {
    forall i :: 0 <= i < |built| ==> built[i].seqNo == i && Stored(built[i], files)
  }

  ghost predicate WorkNamed(m: Memory, manifest: Option<Manifest>)
    requires m.Up?
  {
    match m.work
    case Idle => true
    case Taken(_) => true
    case Reading(_, _, _) => true
    case Published(plan) => Retired(plan.replaced, m.shards, m.seqNo)
    case Cleaning(plan, queue, kept) =>
      && Retired(plan.replaced, m.shards, m.seqNo)
      && AllUnused(queue, manifest, m.shards, m.seqNo) && Retired(kept, m.shards, m.seqNo)
  }

  ghost predicate MemNamed(m: Memory, manifest: Option<Manifest>, files: map<nat, seq<Row>>)
    requires m.Up?
  {
    match m.opening
    case Listing(_, _) => true
    case Loaded(_, saved, found, _, _) => saved == manifest && FoundOk(found, saved, files)
    case Building(_, _, _, built) => NoNames(manifest) && BuiltOk(built, files)
    case Built(built) => NoNames(manifest) && BuiltOk(built, files)
    case Open =>
      && Backed(m.shards, files, m.seqNo) && (manifest.Some? ==> forall n :: n in manifest.value.names ==> n < m.seqNo)
      && Retired(m.pending, m.shards, m.seqNo) && WorkNamed(m, manifest)
  }

  ghost predicate Named(s: State) {
    NamesOk(s.manifest, s.files) && Consistent(s.mem) && (s.mem.Up? ==> MemNamed(s.mem, s.manifest, s.files))
  }

  // ---- shard files and the names for them ----

  /** Opening the shards named after a list that is stored gives the list back. */
  lemma {:induction false} OpenedBack(shards: seq<Shard>, files: map<nat, seq<Row>>)
    requires forall t :: t in shards ==> Stored(t, files)
    ensures Opened(Names(shards), files, {}) == shards
  {
    if |shards| > 0 {
      var k := |shards| - 1;
      assert shards[k] in shards;
      OpenedBack(shards[..k], files);
      assert Names(shards)[..k] == Names(shards[..k]);
      assert shards == shards[..k] + [shards[k]];
    }
  }

  lemma NamesSnoc(l: seq<Shard>, t: Shard)
    ensures Names(l + [t]) == Names(l) + [t.seqNo]
  {
  }

  lemma NoTwiceSnoc(s: seq<nat>, x: nat)
    ensures NoTwice(s + [x]) <==> NoTwice(s) && x !in s
  {
    if NoTwice(s + [x]) {
      forall i, j | 0 <= i < j < |s| ensures s[i] != s[j] { assert (s + [x])[i] == s[i] && (s + [x])[j] == s[j]; }
      forall i | 0 <= i < |s| ensures s[i] != x { assert (s + [x])[i] == s[i] && (s + [x])[|s|] == x; }
    }
  }

  lemma NamedShard(shards: seq<Shard>, n: nat)
    ensures n in Names(shards) <==> exists t :: t in shards && t.seqNo == n
  {
    if n in Names(shards) {
      var i :| 0 <= i < |shards| && Names(shards)[i] == n;
      assert shards[i] in shards;
    }
    if t :| t in shards && t.seqNo == n {
      var i :| 0 <= i < |shards| && shards[i] == t;
      assert Names(shards)[i] == n;
    }
  }

  /** Opening gives stored shards under names on the list, none twice. */
  lemma {:induction false} OpenedNamed(names: seq<nat>, files: map<nat, seq<Row>>, bad: set<nat>)
    requires NoTwice(names)
    ensures NoTwice(Names(Opened(names, files, bad)))
    ensures forall t :: t in Opened(names, files, bad) ==> t.seqNo in names && Stored(t, files)
  {
    hide NoTwice;
    if |names| == 0 {
      NothingTwice();
    } else {
      var k := |names| - 1;
      var n := names[k];
      assert names == names[..k] + [n];
      NoTwiceSnoc(names[..k], n);
      OpenedNamed(names[..k], files, bad);
      var some := Opened(names[..k], files, bad);
      assert some + [] == some;
      if n in files && n !in bad {
        var t := Shard(n, files[n]);
        assert Opened(names, files, bad) == some + [t];
        NamesSnoc(some, t);
        NamedShard(some, n);
        NoTwiceSnoc(Names(some), n);
      }
    }
  }

  lemma NothingTwice()
    ensures NoTwice(Names([]))
  {
  }

  // ---- how a cycle numbers its shards ----

  /** A shard the cycle left alone. */
  ghost predicate Untouched(c: Cycle, n: nat, t: Shard)
    requires n <= |c.shards|
  {
    exists i :: 0 <= i < n && !Affected(c, i) && t == c.shards[i]
  }

  lemma {:induction false} ReplacedNumbers(c: Cycle, n: nat)
    requires n <= |c.shards|
    ensures c.seqNo <= SeqAfter(c, n)
    ensures forall t :: t in Replaced(c, n) ==> Untouched(c, n, t) || c.seqNo <= t.seqNo < SeqAfter(c, n)
  {
    hide Affected, RebuildRows;
    if n > 0 {
      ReplacedNumbers(c, n - 1);
      forall t | t in Replaced(c, n) ensures Untouched(c, n, t) || c.seqNo <= t.seqNo < SeqAfter(c, n) {
        if t in Replaced(c, n - 1) {
          if Untouched(c, n - 1, t) {
            var i :| 0 <= i < n - 1 && !Affected(c, i) && t == c.shards[i];
            assert Untouched(c, n, t);
          }
        } else if !Affected(c, n - 1) {
          assert t == c.shards[n - 1];
        }
      }
    }
  }

  lemma OtherNumber(shards: seq<Shard>, i: nat, j: nat)
    requires NoTwice(Names(shards)) && i < |shards| && j < |shards| && i != j
    ensures shards[i].seqNo != shards[j].seqNo
  {
    assert Names(shards)[i] != Names(shards)[j];
  }

  /** What remains is under old numbers, none twice, or under fresh ones. */
  lemma {:induction false} ReplacedNoTwice(c: Cycle, n: nat, files: map<nat, seq<Row>>)
    requires n <= |c.shards| && Backed(c.shards, files, c.seqNo)
    ensures NoTwice(Names(Replaced(c, n)))
  {
    hide Affected, RebuildRows, NoTwice, Replaced, Replacement, SeqAfter, Names;
    if n == 0 {
      NoneReplaced(c);
      NothingTwice();
    } else {
      ReplacedNoTwice(c, n - 1, files);
      ReplacedNext(c, n - 1);
      if Replacement(c, n - 1) != [] {
        var t := Replacement(c, n - 1)[0];
        NamesSnoc(Replaced(c, n - 1), t);
        NamedShard(Replaced(c, n - 1), t.seqNo);
        NumberNotBefore(c, n - 1, files);
        NoTwiceSnoc(Names(Replaced(c, n - 1)), t.seqNo);
      }
    }
  }

  lemma NoneReplaced(c: Cycle)
    ensures Replaced(c, 0) == []
  {
  }

  lemma ReplacedNext(c: Cycle, i: nat)
    requires i < |c.shards|
    ensures Replacement(c, i) == [] ==> Replaced(c, i + 1) == Replaced(c, i)
    ensures Replacement(c, i) != [] ==> Replaced(c, i + 1) == Replaced(c, i) + [Replacement(c, i)[0]]
    ensures Replacement(c, i) != [] ==>
      if Affected(c, i) then Replacement(c, i)[0].seqNo == SeqAfter(c, i) else Replacement(c, i)[0] == c.shards[i]
  {
    hide Affected, RebuildRows;
  }

  lemma NumberNotBefore(c: Cycle, i: nat, files: map<nat, seq<Row>>)
    requires i < |c.shards| && Backed(c.shards, files, c.seqNo) && Replacement(c, i) != []
    ensures forall t :: t in Replaced(c, i) ==> t.seqNo != Replacement(c, i)[0].seqNo
  {
    hide Affected, RebuildRows, Replaced, Replacement, NoTwice, SeqAfter;
    ReplacedNumbers(c, i);
    ReplacedNext(c, i);
    assert c.shards[i] in c.shards;
    forall t | t in Replaced(c, i) ensures t.seqNo != Replacement(c, i)[0].seqNo {
      if Untouched(c, i, t) {
        var j :| 0 <= j < i && !Affected(c, j) && t == c.shards[j];
        assert c.shards[j] in c.shards;
        OtherNumber(c.shards, i, j);
      }
    }
  }

  lemma {:induction false} InsertNumbers(l: seq<Shard>, s: Shard)
    ensures multiset(Names(InsertShard(l, s))) == multiset(Names(l)) + multiset{s.seqNo}
  {
    hide ShardRange, LessEq, Names;
    var n := |l| - 1;
    if n < 0 || LessEq(ShardRange(l[n]).min, ShardRange(s).min) {
      NamesSnoc(l, s);
    } else {
      InsertNumbers(l[..n], s);
      NamesSnoc(InsertShard(l[..n], s), l[n]);
      NamesSnoc(l[..n], l[n]);
      assert l == l[..n] + [l[n]];
    }
  }

  lemma {:induction false} SortNumbers(l: seq<Shard>)
    ensures multiset(Names(SortShards(l))) == multiset(Names(l))
  {
    hide InsertShard, Names;
    if |l| > 0 {
      var n := |l| - 1;
      SortNumbers(l[..n]);
      InsertNumbers(SortShards(l[..n]), l[n]);
      NamesSnoc(l[..n], l[n]);
      assert l == l[..n] + [l[n]];
    } else {
      assert l == [];
    }
  }

  lemma SortNoTwice(l: seq<Shard>)
    requires NoTwice(Names(l))
    ensures NoTwice(Names(SortShards(l)))
  {
    hide NoTwice, SortShards, Names;
    SortNumbers(l);
    NoTwiceCounts(Names(l));
    NoTwiceCounts(Names(SortShards(l)));
  }

  lemma {:induction false} InInserted(l: seq<Shard>, s: Shard, t: Shard)
    ensures t in InsertShard(l, s) <==> t in l || t == s
  {
    hide ShardRange, LessEq;
    var n := |l| - 1;
    if n < 0 || LessEq(ShardRange(l[n]).min, ShardRange(s).min) {
    } else {
      InInserted(l[..n], s, t);
      assert l == l[..n] + [l[n]];
    }
  }

  lemma {:induction false} InSorted(l: seq<Shard>, t: Shard)
    ensures t in SortShards(l) <==> t in l
  {
    hide InsertShard;
    if |l| > 0 {
      var n := |l| - 1;
      InSorted(l[..n], t);
      InInserted(SortShards(l[..n]), l[n], t);
      assert l == l[..n] + [l[n]];
    }
  }

  /** The new list holds what remains of the old one and the shard for new files. */
  lemma NextMember(c: Cycle, newRows: seq<Row>, t: Shard)
    requires |c.dirty| > 0
    ensures t in ShardsAfter(c, newRows) <==>
      t in Replaced(c, |c.shards|) || (newRows != [] && t == Shard(SeqAfter(c, |c.shards|), newRows))
  {
    hide Replaced, SeqAfter, SortShards;
    InSorted(Unsorted(c, newRows), t);
  }

  /** Numbers of the new list: those of old shards left alone, and fresh ones. */
  lemma NextNumbers(c: Cycle, newRows: seq<Row>, t: Shard)
    requires |c.dirty| > 0 && t in ShardsAfter(c, newRows)
    ensures Untouched(c, |c.shards|, t) || c.seqNo <= t.seqNo
    ensures Untouched(c, |c.shards|, t) || t.seqNo < SeqAfter(c, |c.shards|) + OneIf(newRows != [])
    ensures c.seqNo <= SeqAfter(c, |c.shards|)
  {
    hide Affected, Replaced, SeqAfter, ShardsAfter;
    NextMember(c, newRows, t);
    ReplacedNumbers(c, |c.shards|);
  }

  lemma NextNoTwice(c: Cycle, newRows: seq<Row>, files: map<nat, seq<Row>>)
    requires |c.dirty| > 0 && Backed(c.shards, files, c.seqNo)
    ensures NoTwice(Names(ShardsAfter(c, newRows)))
  {
    hide Affected, Replaced, SeqAfter, NoTwice, Names, SortShards;
    var n := |c.shards|;
    ReplacedNoTwice(c, n, files);
    if newRows != [] {
      var t := Shard(SeqAfter(c, n), newRows);
      ReplacedNumbers(c, n);
      forall u | u in Replaced(c, n) ensures u.seqNo != t.seqNo { OldIsBelow(c, files, u); }
      NamedShard(Replaced(c, n), t.seqNo);
      NamesSnoc(Replaced(c, n), t);
      NoTwiceSnoc(Names(Replaced(c, n)), t.seqNo);
    } else {
      assert Replaced(c, n) + [] == Replaced(c, n);
    }
    SortNoTwice(Unsorted(c, newRows));
  }

  lemma OldIsBelow(c: Cycle, files: map<nat, seq<Row>>, t: Shard)
    requires Backed(c.shards, files, c.seqNo)
    ensures Untouched(c, |c.shards|, t) ==> t in c.shards && t.seqNo < c.seqNo && Stored(t, files)
  {
    hide Affected, NoTwice;
  }

  lemma {:induction false} OldFileOf(c: Cycle, n: nat, k: nat) returns (i: nat)
    requires n <= |c.shards| && k in OldFiles(c, n)
    ensures i < n && Affected(c, i) && c.shards[i].seqNo == k
  {
    hide Affected;
    if Affected(c, n - 1) && c.shards[n - 1].seqNo == k { i := n - 1; } else { i := OldFileOf(c, n - 1, k); }
  }

  /** The files a cycle replaces are none of those it publishes: their numbers are old, and
      a shard left alone has a number of its own. */
  lemma CycleRetires(c: Cycle, newRows: seq<Row>, files: map<nat, seq<Row>>)
    requires |c.dirty| > 0 && Backed(c.shards, files, c.seqNo)
    ensures Retired(OldFiles(c, |c.shards|), ShardsAfter(c, newRows), SeqAfter(c, |c.shards|) + OneIf(newRows != []))
  {
    hide ShardsAfter, Replaced, SeqAfter, OldFiles, Affected, NoTwice;
    var n := |c.shards|;
    ReplacedNumbers(c, n);
    forall k | k in OldFiles(c, n) ensures k < c.seqNo && forall t :: t in ShardsAfter(c, newRows) ==> t.seqNo != k {
      var i := OldFileOf(c, n, k);
      assert c.shards[i] in c.shards;
      forall t | t in ShardsAfter(c, newRows) ensures t.seqNo != k {
        NextNumbers(c, newRows, t);
        if Untouched(c, n, t) {
          var j :| 0 <= j < n && !Affected(c, j) && t == c.shards[j];
          OtherNumber(c.shards, i, j);
        }
      }
    }
  }

  lemma CycleBacked(c: Cycle, newRows: seq<Row>, files: map<nat, seq<Row>>)
    requires |c.dirty| > 0 && Backed(c.shards, files, c.seqNo)
    requires forall t :: t in ShardsAfter(c, newRows) && t.seqNo >= c.seqNo ==> Stored(t, files)
    ensures Backed(ShardsAfter(c, newRows), files, SeqAfter(c, |c.shards|) + OneIf(newRows != []))
  {
    hide ShardsAfter, Replaced, SeqAfter, Affected, NoTwice, Names, Stored;
    NextNoTwice(c, newRows, files);
    forall t | t in ShardsAfter(c, newRows) ensures Stored(t, files) && t.seqNo < SeqAfter(c, |c.shards|) + OneIf(newRows != []) {
      NextNumbers(c, newRows, t);
      OldIsBelow(c, files, t);
    }
  }

  /** Numbers that were out of use before a cycle stay so. */
  lemma StillRetired(c: Cycle, newRows: seq<Row>, files: map<nat, seq<Row>>, ns: seq<nat>)
    requires |c.dirty| > 0 && Backed(c.shards, files, c.seqNo) && Retired(ns, c.shards, c.seqNo)
    ensures Retired(ns, ShardsAfter(c, newRows), SeqAfter(c, |c.shards|) + OneIf(newRows != []))
  {
    hide ShardsAfter, Replaced, SeqAfter, Affected, NoTwice, Names, Stored;
    ReplacedNumbers(c, |c.shards|);
    forall n | n in ns ensures n < SeqAfter(c, |c.shards|) + OneIf(newRows != []) && forall t :: t in ShardsAfter(c, newRows) ==> t.seqNo != n {
      forall t | t in ShardsAfter(c, newRows) ensures t.seqNo != n {
        NextNumbers(c, newRows, t);
        OldIsBelow(c, files, t);
      }
    }
  }
}
