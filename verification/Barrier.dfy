/** The read-after-write barrier (internal/watch/watch.go, internal/daemon/store.go) as
    atomic steps of four parties: programs writing files, the watcher's loop, the
    consumer that applies batches, and a caller of the barrier. */
module Barrier {
  import opened Prelude

  /** Components of a path below the root, which is the empty path. */
  type Path = seq<nat>

  /** Events of the operating system, in order. */
  datatype Ev = Changed(path: Path) | Created(dir: Path) | Cookie(id: nat)

  /** Paths to look at again; `done` is closed when the batch is applied. */
  datatype Batch = Batch(paths: set<Path>, done: Option<nat>)

  /** The watcher's goroutine: at its select, walking a new directory to watch it and
      all below, or handing over a batch. */
  datatype Loop = Selecting | Registering(origin: Path, toAdd: set<Path>, toList: set<Path>) | Emitting(batch: Batch)

  /** The goroutine that applies batches: paths and files still to do, and a file read
      at some version but not stored yet. */
  datatype Consumer = Resting | Working(todo: set<Path>, files: set<Path>, read: Option<(Path, nat)>, done: Option<nat>)

  /** A caller: `floor` has the versions at the time of the call, `gone` the files
      deleted since. */
  datatype Caller =
    | Away
    | Called(floor: map<Path, nat>, gone: set<Path>)
    | Waiting(floor: map<Path, nat>, gone: set<Path>, cookie: nat)
    | Asking(floor: map<Path, nat>, gone: set<Path>, req: nat)
    | Awaiting(floor: map<Path, nat>, gone: set<Path>, req: nat)

  const CAPACITY := 16

  /** `version` counts the writes to each path and `applied` has the version last read
      and stored in the index; a path without an entry counts as zero. */
  datatype State = State(
    version: map<Path, nat>, live: set<Path>, dirs: set<Path>,
    watched: set<Path>, queue: seq<Ev>,
    pending: set<Path>, loop: Loop, out: seq<Batch>, cookies: seq<nat>,
    consumer: Consumer, applied: map<Path, nat>, closed: set<nat>,
    used: nat, caller: Caller)

  function At(m: map<Path, nat>, p: Path): nat { if p in m then m[p] else 0 }

  function Parent(p: Path): Path
    requires p != []
  {
    p[..|p| - 1]
  }

  predicate Below(p: Path, d: Path) { d < p }

  function Gone(c: Caller, p: Path): Caller {
    if c.Away? then c else c.(gone := c.gone + {p})
  }

  function FilesIn(live: set<Path>, d: Path): set<Path> {
    set f | f in live && f != [] && Parent(f) == d
  }

  function Children(dirs: set<Path>, d: Path): set<Path> {
    set x | x in dirs && x != [] && Parent(x) == d
  }

  // ---- the steps ----

  datatype Step =
    | Write(p: Path) | Delete(p: Path) | MkDir(d: Path)
    | Dequeue | Add(d: Path) | List(d: Path) | Registered | Fire | Accept | Send
    | Take | PickFile(p: Path) | PickDir(d: Path) | Store | EndBatch
    | Call | Drain | WriteCookie | GetCookie | Ask(r: nat) | Return | GiveUp

  /** A file is created or changed; its directory reports it if it is watched. */
  ghost predicate Writes(s: State, p: Path, s': State) {
    && p != [] && p !in s.dirs && Parent(p) in s.dirs
    && s' == s.(version := s.version[p := At(s.version, p) + 1], live := s.live + {p},
                queue := s.queue + if Parent(p) in s.watched then [Changed(p)] else [])
  }

  ghost predicate Deletes(s: State, p: Path, s': State) {
    && p in s.live && p != [] && Parent(p) in s.watched
    && s' == s.(version := s.version[p := At(s.version, p) + 1], live := s.live - {p},
                queue := s.queue + [Changed(p)], caller := Gone(s.caller, p))
  }

  ghost predicate MakesDir(s: State, d: Path, s': State) {
    && d != [] && d !in s.dirs && At(s.version, d) == 0 && Parent(d) in s.dirs
    && s' == s.(dirs := s.dirs + {d}, queue := s.queue + if Parent(d) in s.watched then [Created(d)] else [])
  }

  /** The loop takes one event: cookies go straight to the barrier, if there is room. */
  ghost predicate Dequeues(s: State, s': State) {
    && s.loop == Selecting && s.queue != []
    && var rest := s.(queue := s.queue[1..]);
    match s.queue[0]
    case Changed(p) => s' == rest.(pending := s.pending + {p})
    case Created(d) => s' == rest.(pending := s.pending + {d}, loop := Registering(d, {d}, {}))
    case Cookie(n) => s' == if |s.cookies| < CAPACITY then rest.(cookies := s.cookies + [n]) else rest
  }

  ghost predicate Adds(s: State, d: Path, s': State) {
    && s.loop.Registering? && d in s.loop.toAdd
    && s' == s.(watched := s.watched + {d}, loop := s.loop.(toAdd := s.loop.toAdd - {d}, toList := s.loop.toList + {d}))
  }

  ghost predicate Lists(s: State, d: Path, s': State) {
    && s.loop.Registering? && d in s.loop.toList
    && s' == s.(loop := s.loop.(toAdd := s.loop.toAdd + Children(s.dirs, d), toList := s.loop.toList - {d}))
  }

  ghost predicate Accepts(s: State, s': State) {
    && s.loop == Selecting && s.caller.Asking?
    && s' == s.(loop := Emitting(Batch(s.pending, Some(s.caller.req))), pending := {},
                caller := Awaiting(s.caller.floor, s.caller.gone, s.caller.req))
  }

  ghost predicate Sends(s: State, s': State) {
    && s.loop.Emitting? && |s.out| < CAPACITY
    && s' == s.(out := s.out + [s.loop.batch], loop := Selecting)
  }

  ghost predicate Takes(s: State, s': State) {
    && s.consumer.Resting? && s.out != []
    && s' == s.(out := s.out[1..], consumer := Working(s.out[0].paths, {}, None, s.out[0].done))
  }

  /** Reads a file, or finds that it is gone. */
  ghost predicate PicksFile(s: State, p: Path, s': State) {
    && s.consumer.Working? && s.consumer.read == None && p in s.consumer.todo + s.consumer.files && p !in s.dirs
    && s' == s.(consumer := s.consumer.(todo := s.consumer.todo - {p}, files := s.consumer.files - {p}, read := Some((p, At(s.version, p)))))
  }

  /** Lists one directory: its files are to be read, its subdirectories to be listed. */
  ghost predicate PicksDir(s: State, d: Path, s': State) {
    && s.consumer.Working? && s.consumer.read == None && d in s.consumer.todo && d in s.dirs
    && s' == s.(consumer := s.consumer.(todo := s.consumer.todo - {d} + Children(s.dirs, d), files := s.consumer.files + FilesIn(s.live, d)))
  }

  ghost predicate Stores(s: State, s': State) {
    && s.consumer.Working? && s.consumer.read.Some?
    && s' == s.(consumer := s.consumer.(read := None), applied := s.applied[s.consumer.read.value.0 := s.consumer.read.value.1])
  }

  ghost predicate EndsBatch(s: State, s': State) {
    && s.consumer.Working? && s.consumer.todo == {} && s.consumer.files == {} && s.consumer.read == None
    && s' == s.(consumer := Resting, closed := s.closed + match s.consumer.done case None => {} case Some(r) => {r})
  }

  ghost predicate Next(s: State, e: Step, s': State) {
    match e
    case Write(p) => Writes(s, p, s')
    case Delete(p) => Deletes(s, p, s')
    case MkDir(d) => MakesDir(s, d, s')
    case Dequeue => Dequeues(s, s')
    case Add(d) => Adds(s, d, s')
    case List(d) => Lists(s, d, s')
    case Registered => s.loop.Registering? && s.loop.toAdd == {} == s.loop.toList && s' == s.(loop := Selecting)
    case Fire => s.loop == Selecting && s' == s.(loop := Emitting(Batch(s.pending, None)), pending := {})
    case Accept => Accepts(s, s')
    case Send => Sends(s, s')
    case Take => Takes(s, s')
    case PickFile(p) => PicksFile(s, p, s')
    case PickDir(d) => PicksDir(s, d, s')
    case Store => Stores(s, s')
    case EndBatch => EndsBatch(s, s')
    case Call => s.caller.Away? && s' == s.(caller := Called(s.version, {}))
    case Drain => s.caller.Called? && s.cookies != [] && s' == s.(cookies := s.cookies[1..])
    case WriteCookie =>
      && s.caller.Called?
      && s' == s.(used := s.used + 1, queue := s.queue + [Cookie(s.used + 1)], caller := Waiting(s.caller.floor, s.caller.gone, s.used + 1))
    case GetCookie => s.caller.Waiting? && s.cookies != [] && s.cookies[0] != s.caller.cookie && s' == s.(cookies := s.cookies[1..])
    case Ask(r) =>
      && s.caller.Waiting? && s.cookies != [] && s.cookies[0] == s.caller.cookie && FreshReq(s, r)
      && s' == s.(cookies := s.cookies[1..], caller := Asking(s.caller.floor, s.caller.gone, r))
    case Return => s.caller.Awaiting? && s.caller.req in s.closed && s' == s.(caller := Away)
    case GiveUp => s' == s.(caller := Away)
  }

  /** A channel of one's own: nobody else holds or has closed it. */
  ghost predicate FreshReq(s: State, r: nat) {
    && r !in s.closed && !(s.loop.Emitting? && s.loop.batch.done == Some(r))
    && !(s.consumer.Working? && s.consumer.done == Some(r))
    && forall i :: 0 <= i < |s.out| ==> s.out[i].done != Some(r)
  }

  // ---- where a stale path can be ----

  function QueueItems(q: seq<Ev>): set<Path> {
    (set i | 0 <= i < |q| && q[i].Changed? :: q[i].path) + (set i | 0 <= i < |q| && q[i].Created? :: q[i].dir)
  }

  function LoopItems(l: Loop): set<Path> { if l.Emitting? then l.batch.paths else {} }

  function OutItems(out: seq<Batch>): set<Path> {
    set i, p | 0 <= i < |out| && p in out[i].paths :: p
  }

  function ConsumerItems(c: Consumer): set<Path> { if c.Working? then c.todo + c.files else {} }

  /** Looking at `c` will read `p`: it is `p`, or a directory in which `p` is listed. */
  predicate Finds(c: Path, p: Path, live: set<Path>) {
    c == p || (Below(p, c) && p in live)
  }

  function ReadOf(c: Consumer): Option<(Path, nat)> { if c.Working? then c.read else None }

  predicate ReadAs(r: Option<(Path, nat)>, p: Path, need: nat) {
    r.Some? && r.value.0 == p && r.value.1 >= need
  }

  /** `p` was applied as of version `need`, or is about to be, or will be looked at
      again through one of the items. */
  ghost predicate Safe(s: State, p: Path, need: nat, items: set<Path>) {
    || At(s.applied, p) >= need
    || ReadAs(ReadOf(s.consumer), p, need)
    || exists c :: c in items && Finds(c, p, s.live)
  }

  function Everywhere(s: State): set<Path> {
    QueueItems(s.queue) + s.pending + LoopItems(s.loop) + OutItems(s.out) + ConsumerItems(s.consumer)
  }

  /** The part of the queue before a cookie; nothing once the cookie is out. */
  function Ahead(q: seq<Ev>, n: nat): seq<Ev> {
    if Cookie(n) !in q || q[0] == Cookie(n) then [] else [q[0]] + Ahead(q[1..], n)
  }

  predicate HasReq(out: seq<Batch>, r: nat) {
    exists i | 0 <= i < |out| :: out[i].done == Some(r)
  }

  /** The batches up to the one that answers request `r`. */
  function UpTo(out: seq<Batch>, r: nat): seq<Batch> {
    if |out| == 0 then [] else if out[0].done == Some(r) then [out[0]] else [out[0]] + UpTo(out[1..], r)
  }

  /** Where a path written before the call can still be, by the caller's progress: ahead
      of its cookie, then out of the queue, then in or ahead of its own batch. */
  function Front(s: State): set<Path> {
    match s.caller
    case Away => {}
    case Called(_, _) => Everywhere(s)
    case Waiting(_, _, n) => QueueItems(Ahead(s.queue, n)) + s.pending + LoopItems(s.loop) + OutItems(s.out) + ConsumerItems(s.consumer)
    case Asking(_, _, _) => s.pending + LoopItems(s.loop) + OutItems(s.out) + ConsumerItems(s.consumer)
    case Awaiting(_, _, r) =>
      if s.consumer.Working? && s.consumer.done == Some(r) then ConsumerItems(s.consumer)
      else if HasReq(s.out, r) then OutItems(UpTo(s.out, r)) + ConsumerItems(s.consumer)
      else LoopItems(s.loop) + OutItems(s.out) + ConsumerItems(s.consumer)
  }

  // ---- the invariant ----

  /** Every path whose newest write is not applied is somewhere on its way. */
  ghost predicate AllCovered(s: State) {
    forall p :: Safe(s, p, At(s.version, p), Everywhere(s))
  }

  /** And every path written before the call is ahead of the caller. */
  ghost predicate FloorCovered(s: State) {
    s.caller.Away? || forall p :: p !in s.caller.gone ==> FloorAt(s, p, At(s.caller.floor, p))
  }

  ghost predicate FloorAt(s: State, p: Path, need: nat) {
    if s.caller.Awaiting? && s.caller.req in s.closed then At(s.applied, p) >= need else Safe(s, p, need, Front(s))
  }

  /** A directory that is not watched yet will be: its own creation or that of one above
      it is still in the queue, or the walk that registers it has not passed it. */
  ghost predicate WillWatch(s: State, d: Path) {
    || (exists i :: 0 <= i < |s.queue| && s.queue[i].Created? && s.queue[i].dir <= d)
    || (s.loop.Registering? && exists x :: x in s.loop.toAdd && x <= d)
    || (s.loop.Registering? && exists x :: x in s.loop.toList && x < d)
  }

  ghost predicate TreeOk(s: State) {
    && [] in s.watched && s.watched <= s.dirs
    && (forall d :: d in s.dirs && d != [] ==> Parent(d) in s.dirs)
    && (forall d :: d in s.dirs ==> d in s.watched || WillWatch(s, d))
    && (forall d :: d in s.dirs ==> At(s.version, d) == 0)
    && (forall i :: 0 <= i < |s.queue| && s.queue[i].Created? ==> s.queue[i].dir in s.dirs)
    && (forall f :: f in s.live ==> f != [] && Parent(f) in s.dirs && f !in s.dirs && At(s.version, f) > 0)
    && (s.loop.Registering? ==> WalkOk(s.loop, s.pending, s.dirs))
  }

  /** The directory being registered waits to be looked at, and the walk stays below it. */
  ghost predicate WalkOk(l: Loop, pending: set<Path>, dirs: set<Path>)
    requires l.Registering?
  {
    l.origin in pending && l.toAdd + l.toList <= dirs && forall x :: x in l.toAdd + l.toList ==> l.origin <= x
  }

  ghost predicate ReadBetween(s: State, r: (Path, nat)) {
    At(s.applied, r.0) <= r.1 <= At(s.version, r.0)
  }

  ghost predicate VersionsOk(s: State) {
    && (forall p :: At(s.applied, p) <= At(s.version, p))
    && (ReadOf(s.consumer).Some? ==> ReadBetween(s, ReadOf(s.consumer).value))
    && (!s.caller.Away? ==> forall p :: At(s.caller.floor, p) <= At(s.version, p))
  }

  ghost predicate CookiesOk(s: State) {
    && (forall i :: 0 <= i < |s.queue| && s.queue[i].Cookie? ==> s.queue[i].id <= s.used)
    && (forall i :: 0 <= i < |s.cookies| ==> s.cookies[i] <= s.used)
    && (forall i, j :: 0 <= i < j < |s.queue| && s.queue[i].Cookie? ==> s.queue[i] != s.queue[j])
    && (forall i :: 0 <= i < |s.cookies| ==> Cookie(s.cookies[i]) !in s.queue)
    && (s.caller.Waiting? ==> s.caller.cookie <= s.used)
  }

  ghost predicate RequestsOk(s: State) {
    && (s.caller.Asking? ==> FreshReq(s, s.caller.req))
    && (s.caller.Awaiting? && s.caller.req !in s.closed ==>
        || (s.consumer.Working? && s.consumer.done == Some(s.caller.req))
        || HasReq(s.out, s.caller.req)
        || (s.loop.Emitting? && s.loop.batch.done == Some(s.caller.req)))
  }

  ghost predicate Inv(s: State) {
    TreeOk(s) && VersionsOk(s) && CookiesOk(s) && RequestsOk(s) && AllCovered(s) && FloorCovered(s)
  }

  // ---- items and how they move ----

  function ItemOf(e: Ev): set<Path> {
    match e
    case Changed(p) => {p}
    case Created(d) => {d}
    case Cookie(_) => {}
  }

  lemma QueuePush(q: seq<Ev>, e: Ev)
    ensures QueueItems(q + [e]) == QueueItems(q) + ItemOf(e)
  {
    var r := q + [e];
    assert r[|q|] == e;
    forall x | x in QueueItems(q) ensures x in QueueItems(r) {
      var i :| 0 <= i < |q| && ((q[i].Changed? && q[i].path == x) || (q[i].Created? && q[i].dir == x));
      assert r[i] == q[i];
    }
    forall x | x in QueueItems(r) ensures x in QueueItems(q) + ItemOf(e) {
      var i :| 0 <= i < |r| && ((r[i].Changed? && r[i].path == x) || (r[i].Created? && r[i].dir == x));
      if i < |q| { assert r[i] == q[i]; }
    }
  }

  lemma QueuePop(q: seq<Ev>)
    requires q != []
    ensures QueueItems(q) == ItemOf(q[0]) + QueueItems(q[1..])
  {
    forall x | x in QueueItems(q) ensures x in ItemOf(q[0]) + QueueItems(q[1..]) {
      var i :| 0 <= i < |q| && ((q[i].Changed? && q[i].path == x) || (q[i].Created? && q[i].dir == x));
      if i > 0 { assert q[1..][i - 1] == q[i]; }
    }
    forall x | x in QueueItems(q[1..]) ensures x in QueueItems(q) {
      var i :| 0 <= i < |q[1..]| && ((q[1..][i].Changed? && q[1..][i].path == x) || (q[1..][i].Created? && q[1..][i].dir == x));
      assert q[1..][i] == q[i + 1];
    }
  }

  lemma OutPush(out: seq<Batch>, b: Batch)
    ensures OutItems(out + [b]) == OutItems(out) + b.paths
  {
    var r := out + [b];
    assert r[|out|] == b;
    forall x | x in OutItems(out) ensures x in OutItems(r) {
      var i :| 0 <= i < |out| && x in out[i].paths;
      assert r[i] == out[i];
    }
    forall x | x in OutItems(r) ensures x in OutItems(out) + b.paths {
      var i :| 0 <= i < |r| && x in r[i].paths;
      if i < |out| { assert r[i] == out[i]; }
    }
  }

  lemma OutPop(out: seq<Batch>)
    requires out != []
    ensures OutItems(out) == out[0].paths + OutItems(out[1..])
  {
    forall x | x in OutItems(out) ensures x in out[0].paths + OutItems(out[1..]) {
      var i :| 0 <= i < |out| && x in out[i].paths;
      if i > 0 { assert out[1..][i - 1] == out[i]; }
    }
    forall x | x in OutItems(out[1..]) ensures x in OutItems(out) {
      var i :| 0 <= i < |out[1..]| && x in out[1..][i].paths;
      assert out[1..][i] == out[i + 1];
    }
  }

  /** New events do not get ahead of a cookie. */
  lemma {:induction false} AheadPush(q: seq<Ev>, e: Ev, n: nat)
    ensures e != Cookie(n) ==> Ahead(q + [e], n) == Ahead(q, n)
    ensures e == Cookie(n) && Cookie(n) !in q ==> Ahead(q + [e], n) == q
  {
    var r := q + [e];
    if |q| == 0 {
      assert r == [e];
    } else {
      assert r[0] == q[0] && r[1..] == q[1..] + [e];
      AheadPush(q[1..], e, n);
      assert e != Cookie(n) ==> (Cookie(n) in r <==> Cookie(n) in q);
    }
  }

  /** What leaves the queue was ahead, unless it is the cookie. */
  lemma AheadPop(q: seq<Ev>, n: nat)
    requires q != [] && forall i :: 0 < i < |q| && q[0].Cookie? ==> q[i] != q[0]
    ensures QueueItems(Ahead(q, n)) <= ItemOf(q[0]) + QueueItems(Ahead(q[1..], n))
  {
    if Cookie(n) in q && q[0] != Cookie(n) {
      var a := Ahead(q, n);
      assert a[1..] == Ahead(q[1..], n);
      QueuePop(a);
    }
  }

  lemma {:induction false} UpToPush(out: seq<Batch>, b: Batch, r: nat)
    ensures HasReq(out, r) ==> HasReq(out + [b], r) && UpTo(out + [b], r) == UpTo(out, r)
    ensures !HasReq(out, r) ==> UpTo(out + [b], r) == out + [b]
    ensures b.done == Some(r) ==> HasReq(out + [b], r)
    ensures !HasReq(out, r) && b.done != Some(r) ==> !HasReq(out + [b], r)
  {
    var o := out + [b];
    assert o[|out|] == b;
    if |out| > 0 {
      assert o[0] == out[0] && o[1..] == out[1..] + [b];
      UpToPush(out[1..], b, r);
      HasReqPop(out, r);
      HasReqPop(o, r);
    }
  }

  lemma HasReqPop(out: seq<Batch>, r: nat)
    requires out != []
    ensures HasReq(out, r) <==> out[0].done == Some(r) || HasReq(out[1..], r)
  {
    if HasReq(out, r) && out[0].done != Some(r) {
      var i :| 0 <= i < |out| && out[i].done == Some(r);
      assert out[1..][i - 1] == out[i];
    }
    if HasReq(out[1..], r) {
      var i :| 0 <= i < |out[1..]| && out[1..][i].done == Some(r);
      assert out[i + 1] == out[1..][i];
    }
  }

  lemma UpToPop(out: seq<Batch>, r: nat)
    requires out != []
    ensures OutItems(UpTo(out, r)) == out[0].paths + if out[0].done == Some(r) then {} else OutItems(UpTo(out[1..], r))
  {
    var u := UpTo(out, r);
    OutPop(u);
    assert u[1..] == if out[0].done == Some(r) then [] else UpTo(out[1..], r);
    assert OutItems([]) == {};
  }

  lemma UpToWithin(out: seq<Batch>, r: nat)
    ensures OutItems(UpTo(out, r)) <= OutItems(out)
  {
    if |out| > 0 {
      UpToWithin(out[1..], r);
      UpToPop(out, r);
      OutPop(out);
    }
  }

  // ---- safety only grows ----

  lemma SafeMore(s: State, s': State, p: Path, need: nat, items: set<Path>, items': set<Path>)
    requires Safe(s, p, need, items) && items <= items'
    requires s'.applied == s.applied && ReadOf(s'.consumer) == ReadOf(s.consumer) && (p in s.live ==> p in s'.live)
    ensures Safe(s', p, need, items')
  {
  }

  /** A step that moves items on without losing any keeps every stale path covered. */
  lemma CoverMore(s: State, s': State)
    requires AllCovered(s) && s'.version == s.version && s'.live == s.live
    requires s'.applied == s.applied && ReadOf(s'.consumer) == ReadOf(s.consumer)
    requires Everywhere(s) <= Everywhere(s')
    ensures AllCovered(s')
  {
    hide Safe, Everywhere;
    forall p ensures Safe(s', p, At(s'.version, p), Everywhere(s')) {
      SafeMore(s, s', p, At(s.version, p), Everywhere(s), Everywhere(s'));
    }
  }

  ghost predicate SameCall(c: Caller, c': Caller) {
    !c.Away? && !c'.Away? && c'.floor == c.floor && c'.gone == c.gone
  }

  ghost predicate Answered(s: State) { s.caller.Awaiting? && s.caller.req in s.closed }

  /** And one that loses none in front of the caller keeps its paths ahead of it. */
  lemma FloorMore(s: State, s': State)
    requires FloorCovered(s) && SameCall(s.caller, s'.caller) && s'.live == s.live
    requires s'.applied == s.applied && ReadOf(s'.consumer) == ReadOf(s.consumer)
    requires if Answered(s) then true else !Answered(s') && Front(s) <= Front(s')
    ensures FloorCovered(s')
  {
    hide Safe, Front;
    forall p | p !in s'.caller.gone ensures FloorAt(s', p, At(s'.caller.floor, p)) {
      assert FloorAt(s, p, At(s.caller.floor, p));
      if Answered(s) {
        AppliedIsSafe(s', p, At(s'.caller.floor, p), Front(s'));
      } else {
        SafeMore(s, s', p, At(s.caller.floor, p), Front(s), Front(s'));
      }
    }
  }

  lemma AppliedIsSafe(s: State, p: Path, need: nat, items: set<Path>)
    requires At(s.applied, p) >= need
    ensures Safe(s, p, need, items)
  {
  }

  // ---- each step keeps the invariant ----

  ghost predicate Tidy(s: State) {
    TreeOk(s) && VersionsOk(s) && CookiesOk(s) && RequestsOk(s)
  }

  lemma DequeueMoves(s: State, s': State)
    requires CookiesOk(s) && Dequeues(s, s')
    ensures Everywhere(s) <= Everywhere(s') && (!s.caller.Away? ==> Front(s) <= Front(s'))
  {
    hide QueueItems, OutItems, Ahead, UpTo, HasReq, CookiesOk;
    QueuePop(s.queue);
    OnceAhead(s);
    if s.caller.Waiting? { AheadPop(s.queue, s.caller.cookie); }
  }

  lemma OnceAhead(s: State)
    requires CookiesOk(s) && s.queue != []
    ensures forall i :: 0 < i < |s.queue| && s.queue[0].Cookie? ==> s.queue[i] != s.queue[0]
  {
  }

  lemma DequeueTree(s: State, s': State)
    requires TreeOk(s) && Dequeues(s, s')
    ensures TreeOk(s')
  {
    hide At;
    forall d | d in s'.dirs ensures d in s'.watched || WillWatch(s', d) {
      if d !in s.watched { StillWatched(s, s', d); }
    }
  }

  lemma StillWatched(s: State, s': State, d: Path)
    requires WillWatch(s, d) && Dequeues(s, s')
    ensures WillWatch(s', d)
  {
    var i :| 0 <= i < |s.queue| && s.queue[i].Created? && s.queue[i].dir <= d;
    if i > 0 {
      assert s.queue[1..][i - 1] == s.queue[i];
      assert s'.queue[i - 1].Created? && s'.queue[i - 1].dir <= d;
    } else {
      assert s'.loop.Registering? && s.queue[0].dir in s'.loop.toAdd;
    }
  }

  lemma DequeueTidy(s: State, s': State)
    requires Tidy(s) && Dequeues(s, s')
    ensures Tidy(s')
  {
    hide TreeOk, HasReq, At, CookiesOk, FreshReq;
    DequeueTree(s, s');
    DequeueCookies(s, s');
    if s.caller.Asking? { DequeueFresh(s, s'); }
  }

  lemma DequeueFresh(s: State, s': State)
    requires Dequeues(s, s') && s.caller.Asking?
    ensures FreshReq(s, s.caller.req) ==> FreshReq(s', s.caller.req)
  {
  }

  lemma DequeueCookies(s: State, s': State)
    requires CookiesOk(s) && Dequeues(s, s')
    ensures CookiesOk(s')
  {
    assert forall i :: 0 <= i < |s.queue[1..]| ==> s.queue[1..][i] == s.queue[i + 1];
    forall x | x in s'.queue ensures x in s.queue {}
    if s.queue[0].Cookie? { assert s.queue[0] !in s.queue[1..]; }
  }

  lemma KeepsDequeue(s: State, s': State)
    requires Inv(s) && Dequeues(s, s')
    ensures Inv(s')
  {
    hide TreeOk, VersionsOk, CookiesOk, RequestsOk, AllCovered, FloorCovered, Everywhere, Front;
    DequeueTidy(s, s');
    DequeueMoves(s, s');
    CoverMore(s, s');
    if !s.caller.Away? { FloorMore(s, s'); }
    CallerAway(s');
  }

  lemma CallerAway(s: State)
    ensures s.caller.Away? ==> FloorCovered(s)
  {
  }

  /** Steps that only move items on, from one place to the next. */
  lemma MovesOn(s: State, s': State)
    requires Inv(s) && Tidy(s') && s'.version == s.version && s'.live == s.live && s'.applied == s.applied
    requires ReadOf(s'.consumer) == ReadOf(s.consumer) && Everywhere(s) <= Everywhere(s')
    requires s'.caller.Away? || (SameCall(s.caller, s'.caller) && (Answered(s) || (!Answered(s') && Front(s) <= Front(s'))))
    ensures Inv(s')
  {
    hide Tidy, TreeOk, VersionsOk, CookiesOk, RequestsOk, AllCovered, FloorCovered, Everywhere, Front;
    TidyIs(s');
    CoverMore(s, s');
    if !s'.caller.Away? { FloorMore(s, s'); }
    CallerAway(s');
  }

  lemma TidyIs(s: State)
    ensures Tidy(s) <==> TreeOk(s) && VersionsOk(s) && CookiesOk(s) && RequestsOk(s)
  {
  }

  // ---- registering directories ----

  lemma WatchedByAdd(s: State, x: Path, s': State, d: Path)
    requires Adds(s, x, s') && WillWatch(s, d)
    ensures d in s'.watched || WillWatch(s', d)
  {
    if i :| 0 <= i < |s.queue| && s.queue[i].Created? && s.queue[i].dir <= d {
      assert s'.queue[i].Created? && s'.queue[i].dir <= d;
    } else if y :| y in s.loop.toAdd && y <= d {
      if y != x { assert y in s'.loop.toAdd; } else if d != x { assert x in s'.loop.toList && x < d; }
    } else {
      var y :| y in s.loop.toList && y < d;
      assert y in s'.loop.toList;
    }
  }

  lemma WatchedByList(s: State, x: Path, s': State, d: Path)
    requires TreeOk(s) && Lists(s, x, s') && WillWatch(s, d) && d in s.dirs
    ensures WillWatch(s', d)
  {
    if i :| 0 <= i < |s.queue| && s.queue[i].Created? && s.queue[i].dir <= d {
      assert s'.queue[i].Created? && s'.queue[i].dir <= d;
    } else if y :| y in s.loop.toAdd && y <= d {
      assert y in s'.loop.toAdd;
    } else {
      var y :| y in s.loop.toList && y < d;
      if y == x {
        NextDown(s.dirs, x, d);
        var c :| c in Children(s.dirs, x) && c <= d;
        assert c in s'.loop.toAdd;
      } else {
        assert y in s'.loop.toList;
      }
    }
  }

  /** The directory right below `x` on the way to `d`. */
  lemma {:induction false} NextDown(dirs: set<Path>, x: Path, d: Path)
    requires d in dirs && x < d && forall y :: y in dirs && y != [] ==> Parent(y) in dirs
    ensures exists c :: c in Children(dirs, x) && c <= d
    decreases |d|
  {
    if |d| == |x| + 1 {
      assert Parent(d) == x;
      assert d in Children(dirs, x);
    } else {
      assert x < Parent(d);
      NextDown(dirs, x, Parent(d));
      var c :| c in Children(dirs, x) && c <= Parent(d);
      assert c <= d;
    }
  }

  lemma KeepsAdd(s: State, d: Path, s': State)
    requires Inv(s) && Adds(s, d, s')
    ensures Inv(s')
  {
    hide AllCovered, FloorCovered, WillWatch, At, HasReq, QueueItems, OutItems, Ahead, UpTo, ConsumerItems;
    forall x | x in s'.dirs ensures x in s'.watched || WillWatch(s', x) {
      if x !in s.watched { WatchedByAdd(s, d, s', x); }
    }
    MovesOn(s, s');
  }

  lemma KeepsList(s: State, d: Path, s': State)
    requires Inv(s) && Lists(s, d, s')
    ensures Inv(s')
  {
    hide AllCovered, FloorCovered, WillWatch, At, HasReq, QueueItems, OutItems, Ahead, UpTo, ConsumerItems;
    forall x | x in s'.dirs ensures x in s'.watched || WillWatch(s', x) {
      if x !in s.watched { WatchedByList(s, d, s', x); }
    }
    MovesOn(s, s');
  }

  lemma KeepsRegistered(s: State, s': State)
    requires Inv(s) && s.loop.Registering? && s.loop.toAdd == {} == s.loop.toList && s' == s.(loop := Selecting)
    ensures Inv(s')
  {
    hide AllCovered, FloorCovered, At, HasReq, QueueItems, OutItems, Ahead, UpTo, ConsumerItems;
    MovesOn(s, s');
  }

  lemma NewDirWatched(s: State, d: Path, s': State)
    requires TreeOk(s) && MakesDir(s, d, s')
    ensures d in s'.watched || WillWatch(s', d)
    ensures forall x :: WillWatch(s, x) ==> WillWatch(s', x)
  {
    var e := s'.queue[|s.queue|..];
    assert forall i :: 0 <= i < |s.queue| ==> s'.queue[i] == s.queue[i];
    forall x | WillWatch(s, x) ensures WillWatch(s', x) {
      if i :| 0 <= i < |s.queue| && s.queue[i].Created? && s.queue[i].dir <= x {
        assert s'.queue[i].Created? && s'.queue[i].dir <= x;
      }
    }
    if Parent(d) in s.watched {
      assert s'.queue[|s.queue|] == Created(d);
    } else {
      assert WillWatch(s, Parent(d));
      WatchDown(s', Parent(d), d);
    }
  }

  lemma WatchDown(s: State, d: Path, x: Path)
    requires WillWatch(s, d) && d <= x
    ensures WillWatch(s, x)
  {
    if i :| 0 <= i < |s.queue| && s.queue[i].Created? && s.queue[i].dir <= d {
      assert s.queue[i].dir <= x;
    } else if s.loop.Registering? {
      if y :| y in s.loop.toAdd && y <= d {
        assert y <= x;
      } else {
        var y :| y in s.loop.toList && y < d;
        assert y < x;
      }
    }
  }

  lemma KeepsMkDir(s: State, d: Path, s': State)
    requires Inv(s) && MakesDir(s, d, s')
    ensures Inv(s')
  {
    hide AllCovered, FloorCovered, WillWatch, At, HasReq, QueueItems, OutItems, Ahead, UpTo, ConsumerItems;
    NewDirWatched(s, d, s');
    if Parent(d) in s.watched { Enqueued(s, Created(d), s'); } else { assert s'.queue == s.queue; }
    MovesOn(s, s');
  }

  /** An event joins the queue at the end. */
  lemma Enqueued(s: State, e: Ev, s': State)
    requires s'.queue == s.queue + [e] && s'.pending == s.pending && s'.loop == s.loop && s'.out == s.out && s'.consumer == s.consumer
    requires SameCaller(s.caller, s'.caller)
    ensures Everywhere(s) + ItemOf(e) == Everywhere(s')
    ensures s.caller.Waiting? && e != Cookie(s.caller.cookie) ==> Front(s) <= Front(s')
    ensures !s.caller.Waiting? ==> Front(s) <= Front(s')
  {
    hide QueueItems, OutItems, Ahead, UpTo, ConsumerItems, HasReq;
    QueuePush(s.queue, e);
    if s.caller.Waiting? { AheadPush(s.queue, e, s.caller.cookie); }
  }

  /** The same caller at the same place, perhaps having seen a file go. */
  predicate SameCaller(c: Caller, c': Caller) {
    match c
    case Away => c'.Away?
    case Called(f, _) => c'.Called? && c'.floor == f
    case Waiting(f, _, n) => c'.Waiting? && c'.floor == f && c'.cookie == n
    case Asking(f, _, r) => c'.Asking? && c'.floor == f && c'.req == r
    case Awaiting(f, _, r) => c'.Awaiting? && c'.floor == f && c'.req == r
  }

  // ---- batches ----

  lemma KeepsFire(s: State, s': State)
    requires Inv(s) && Next(s, Fire, s')
    ensures Inv(s')
  {
    hide AllCovered, FloorCovered, WillWatch, At, HasReq, QueueItems, OutItems, Ahead, UpTo, ConsumerItems;
    StillWillWatch(s, s');
    MovesOn(s, s');
  }

  /** Nothing about watching changes while the queue and the walk stay as they are. */
  lemma StillWillWatch(s: State, s': State)
    requires s'.queue == s.queue && (s'.loop == s.loop || (!s.loop.Registering? && !s'.loop.Registering?))
    ensures forall d :: WillWatch(s', d) <==> WillWatch(s, d)
  {
  }

  lemma KeepsAccept(s: State, s': State)
    requires Inv(s) && Accepts(s, s')
    ensures Inv(s')
  {
    hide AllCovered, FloorCovered, WillWatch, At, QueueItems, OutItems, Ahead, UpTo, ConsumerItems;
    StillWillWatch(s, s');
    MovesOn(s, s');
  }

  lemma SendMoves(s: State, s': State)
    requires Sends(s, s') && RequestsOk(s)
    ensures Everywhere(s) <= Everywhere(s') && RequestsOk(s')
    ensures Front(s) <= Front(s')
  {
    hide QueueItems, OutItems, Ahead, UpTo, HasReq, ConsumerItems;
    OutPush(s.out, s.loop.batch);
    if s.caller.Awaiting? { UpToPush(s.out, s.loop.batch, s.caller.req); }
    if s.caller.Asking? { FreshStays(s, s'); }
  }

  lemma FreshStays(s: State, s': State)
    requires Sends(s, s') && s.caller.Asking? && FreshReq(s, s.caller.req)
    ensures FreshReq(s', s.caller.req)
  {
  }

  lemma KeepsSend(s: State, s': State)
    requires Inv(s) && Sends(s, s')
    ensures Inv(s')
  {
    hide AllCovered, FloorCovered, WillWatch, At, HasReq, QueueItems, OutItems, Ahead, UpTo, ConsumerItems, FreshReq;
    StillWillWatch(s, s');
    SendMoves(s, s');
    MovesOn(s, s');
  }

  lemma TakeMoves(s: State, s': State)
    requires Takes(s, s') && RequestsOk(s)
    ensures Everywhere(s) <= Everywhere(s') && RequestsOk(s')
    ensures Front(s) <= Front(s')
  {
    hide QueueItems, OutItems, Ahead, UpTo, HasReq;
    OutPop(s.out);
    if s.caller.Awaiting? {
      HasReqPop(s.out, s.caller.req);
      UpToPop(s.out, s.caller.req);
      UpToWithin(s.out, s.caller.req);
    }
    if s.caller.Asking? { TakenFresh(s, s'); }
  }

  lemma TakenFresh(s: State, s': State)
    requires Takes(s, s') && s.caller.Asking? && FreshReq(s, s.caller.req)
    ensures FreshReq(s', s.caller.req)
  {
  }

  lemma KeepsTake(s: State, s': State)
    requires Inv(s) && Takes(s, s')
    ensures Inv(s')
  {
    hide AllCovered, FloorCovered, WillWatch, At, HasReq, QueueItems, OutItems, Ahead, UpTo, FreshReq, Front, Everywhere;
    StillWillWatch(s, s');
    TakeMoves(s, s');
    MovesOn(s, s');
  }

  /** With its batch at an end, the caller's paths have all been applied. */
  lemma BatchDone(s: State, s': State)
    requires FloorCovered(s) && EndsBatch(s, s') && !s.caller.Away?
    ensures FloorCovered(s')
  {
    hide Safe, QueueItems, OutItems, Ahead, UpTo, HasReq;
    forall p | p !in s'.caller.gone ensures FloorAt(s', p, At(s'.caller.floor, p)) {
      var need := At(s.caller.floor, p);
      assert FloorAt(s, p, need);
      if Answered(s) {
      } else if Answered(s') {
        assert Front(s) == {};
        OnlyApplied(s, p, need);
      } else {
        SafeMore(s, s', p, need, Front(s), Front(s'));
      }
    }
  }

  lemma OnlyApplied(s: State, p: Path, need: nat)
    requires Safe(s, p, need, {}) && ReadOf(s.consumer) == None
    ensures At(s.applied, p) >= need
  {
  }

  lemma KeepsEndBatch(s: State, s': State)
    requires Inv(s) && EndsBatch(s, s')
    ensures Inv(s')
  {
    hide AllCovered, FloorCovered, WillWatch, At, QueueItems, OutItems, Ahead, UpTo, Front;
    StillWillWatch(s, s');
    CoverMore(s, s');
    if !s.caller.Away? { BatchDone(s, s'); }
    CallerAway(s');
  }

  // ---- the caller ----

  lemma KeepsCall(s: State, s': State)
    requires Inv(s) && Next(s, Call, s')
    ensures Inv(s')
  {
    hide FloorCovered, WillWatch, At, QueueItems, OutItems, ConsumerItems, Safe, Everywhere;
    StillWillWatch(s, s');
    SameEverywhere(s, s');
    CoverMore(s, s');
    CalledNow(s, s');
  }

  lemma SameEverywhere(s: State, s': State)
    requires s'.queue == s.queue && s'.pending == s.pending && s'.loop == s.loop && s'.out == s.out && s'.consumer == s.consumer
    ensures Everywhere(s') == Everywhere(s)
  {
  }

  lemma CalledNow(s: State, s': State)
    requires AllCovered(s') && s'.caller == Called(s'.version, {})
    ensures FloorCovered(s')
  {
    hide Safe, Everywhere, At;
    forall p ensures FloorAt(s', p, At(s'.caller.floor, p)) {
      assert Safe(s', p, At(s'.version, p), Everywhere(s'));
    }
  }

  lemma KeepsDrain(s: State, s': State)
    requires Inv(s) && Next(s, Drain, s')
    ensures Inv(s')
  {
    hide AllCovered, FloorCovered, WillWatch, At, QueueItems, OutItems, ConsumerItems;
    StillWillWatch(s, s');
    MovesOn(s, s');
  }

  lemma KeepsGetCookie(s: State, s': State)
    requires Inv(s) && Next(s, GetCookie, s')
    ensures Inv(s')
  {
    hide AllCovered, FloorCovered, WillWatch, At, QueueItems, OutItems, ConsumerItems, Ahead;
    StillWillWatch(s, s');
    MovesOn(s, s');
  }

  lemma CookieWatched(s: State, s': State)
    requires Next(s, WriteCookie, s')
    ensures forall d :: WillWatch(s, d) ==> WillWatch(s', d)
  {
    assert forall i :: 0 <= i < |s.queue| ==> s'.queue[i] == s.queue[i];
    forall x | WillWatch(s, x) ensures WillWatch(s', x) {
      if i :| 0 <= i < |s.queue| && s.queue[i].Created? && s.queue[i].dir <= x {
        assert s'.queue[i].Created? && s'.queue[i].dir <= x;
      }
    }
  }

  /** The cookie is written behind everything on its way at that time. */
  lemma CookieBehind(s: State, s': State)
    requires Next(s, WriteCookie, s') && CookiesOk(s)
    ensures CookiesOk(s') && Everywhere(s) == Everywhere(s') && Front(s) == Everywhere(s) == Front(s')
  {
    hide QueueItems, OutItems, ConsumerItems, Ahead;
    var e := Cookie(s.used + 1);
    assert e !in s.queue;
    QueuePush(s.queue, e);
    AheadPush(s.queue, e, s.used + 1);
    assert forall i :: 0 <= i < |s.queue| ==> s'.queue[i] == s.queue[i];
  }

  lemma KeepsWriteCookie(s: State, s': State)
    requires Inv(s) && Next(s, WriteCookie, s')
    ensures Inv(s')
  {
    hide AllCovered, FloorCovered, WillWatch, At, QueueItems, OutItems, ConsumerItems, Ahead, CookiesOk, Everywhere, Front;
    CookieWatched(s, s');
    CookieBehind(s, s');
    TreeGrows(s, s');
    MovesOn(s, s');
  }

  lemma TreeGrows(s: State, s': State)
    requires TreeOk(s) && Next(s, WriteCookie, s') && forall d :: WillWatch(s, d) ==> WillWatch(s', d)
    ensures TreeOk(s')
  {
    hide WillWatch, At;
  }

  /** Getting its own cookie back, the caller knows the queue is drained up to it. */
  lemma KeepsAsk(s: State, r: nat, s': State)
    requires Inv(s) && Next(s, Ask(r), s')
    ensures Inv(s')
  {
    hide AllCovered, FloorCovered, WillWatch, At, QueueItems, OutItems, ConsumerItems, FreshReq;
    StillWillWatch(s, s');
    assert Cookie(s.cookies[0]) !in s.queue;
    NoItems();
    AskFresh(s, r, s');
    MovesOn(s, s');
  }

  lemma AskFresh(s: State, r: nat, s': State)
    requires Next(s, Ask(r), s')
    ensures FreshReq(s', r)
  {
  }

  lemma NoItems()
    ensures QueueItems([]) == {}
  {
  }

  lemma KeepsLeave(s: State, s': State)
    requires Inv(s) && s' == s.(caller := Away)
    ensures Inv(s')
  {
    hide AllCovered, FloorCovered, WillWatch, At, QueueItems, OutItems, ConsumerItems;
    StillWillWatch(s, s');
    MovesOn(s, s');
  }

  // ---- writes ----

  /** Every directory above a file is known. */
  lemma {:induction false} AboveFile(dirs: set<Path>, d: Path, p: Path)
    requires p != [] && Parent(p) in dirs && d < p && forall y :: y in dirs && y != [] ==> Parent(y) in dirs
    ensures d in dirs
    decreases |p|
  {
    if |d| == |p| - 1 {
      assert d == Parent(p);
    } else {
      assert d < Parent(p);
      AboveFile(dirs, d, Parent(p));
    }
  }

  /** A file in a directory not yet watched will be found through what creates it. */
  lemma UnwatchedIsCovered(s: State, p: Path) returns (c: Path)
    requires TreeOk(s) && p != [] && Parent(p) in s.dirs && Parent(p) !in s.watched
    ensures c in Everywhere(s) && Below(p, c)
  {
    hide OutItems, ConsumerItems, LoopItems, At;
    assert WillWatch(s, Parent(p));
    if i :| 0 <= i < |s.queue| && s.queue[i].Created? && s.queue[i].dir <= Parent(p) {
      c := s.queue[i].dir;
      assert c in QueueItems(s.queue);
    } else {
      c := s.loop.origin;
    }
  }

  lemma WriteCovers(s: State, p: Path, s': State)
    requires Inv(s) && Writes(s, p, s')
    ensures AllCovered(s')
  {
    hide FloorCovered, FloorAt, Everywhere, TreeOk, CookiesOk, RequestsOk, VersionsOk;
    var e: seq<Ev> := if Parent(p) in s.watched then [Changed(p)] else [];
    if e != [] { Enqueued(s, Changed(p), s'); } else { SameEverywhere(s, s'); }
    forall q ensures Safe(s', q, At(s'.version, q), Everywhere(s')) {
      assert Safe(s, q, At(s.version, q), Everywhere(s));
      if q != p {
        SafeMore(s, s', q, At(s.version, q), Everywhere(s), Everywhere(s'));
      } else if e != [] {
        assert p in Everywhere(s') && Finds(p, p, s'.live);
      } else {
        var c := UnwatchedIsCovered(s, p);
        assert c in Everywhere(s') && Finds(c, p, s'.live);
      }
    }
  }

  lemma WriteFloor(s: State, p: Path, s': State)
    requires Inv(s) && Writes(s, p, s')
    ensures FloorCovered(s')
  {
    hide AllCovered, Everywhere, TreeOk, CookiesOk, RequestsOk, VersionsOk, Front, Safe, At;
    if !s.caller.Away? {
      if Parent(p) in s.watched { Enqueued(s, Changed(p), s'); } else { assert s'.queue == s.queue; SameFront(s, s'); }
      forall q | q !in s'.caller.gone ensures FloorAt(s', q, At(s'.caller.floor, q)) {
        var need := At(s.caller.floor, q);
        assert FloorAt(s, q, need);
        if !Answered(s) { SafeMore(s, s', q, need, Front(s), Front(s')); }
      }
    }
  }

  lemma SameFront(s: State, s': State)
    requires s'.queue == s.queue && s'.pending == s.pending && s'.loop == s.loop && s'.out == s.out && s'.consumer == s.consumer
    requires SameCaller(s.caller, s'.caller)
    ensures Front(s') == Front(s)
  {
  }

  lemma GrowsWatched(s: State, s': State)
    requires s.queue <= s'.queue && s'.loop == s.loop
    ensures forall d :: WillWatch(s, d) ==> WillWatch(s', d)
  {
    forall x | WillWatch(s, x) ensures WillWatch(s', x) {
      if i :| 0 <= i < |s.queue| && s.queue[i].Created? && s.queue[i].dir <= x {
        assert s'.queue[i].Created? && s'.queue[i].dir <= x;
      }
    }
  }

  lemma WriteTree(s: State, p: Path, s': State)
    requires TreeOk(s) && Writes(s, p, s')
    ensures TreeOk(s')
  {
    hide WillWatch;
    GrowsWatched(s, s');
    forall i | 0 <= i < |s'.queue| && s'.queue[i].Created? ensures s'.queue[i].dir in s'.dirs {
      assert s'.queue[i] == s.queue[i];
    }
  }

  lemma WriteRest(s: State, p: Path, s': State)
    requires VersionsOk(s) && CookiesOk(s) && RequestsOk(s) && (Writes(s, p, s') || Deletes(s, p, s'))
    ensures VersionsOk(s') && CookiesOk(s') && RequestsOk(s')
  {
    hide HasReq;
    var e := Changed(p);
    assert forall i :: 0 <= i < |s'.queue| ==> s'.queue[i] == if i < |s.queue| then s.queue[i] else e;
    forall x: Ev | x in s'.queue && x.Cookie? ensures x in s.queue {}
  }

  lemma KeepsWrite(s: State, p: Path, s': State)
    requires Inv(s) && Writes(s, p, s')
    ensures Inv(s')
  {
    hide TreeOk, VersionsOk, CookiesOk, RequestsOk, AllCovered, FloorCovered;
    WriteTree(s, p, s');
    WriteRest(s, p, s');
    WriteCovers(s, p, s');
    WriteFloor(s, p, s');
  }

  lemma DeleteTree(s: State, p: Path, s': State)
    requires TreeOk(s) && Deletes(s, p, s') && p !in s.dirs
    ensures TreeOk(s')
  {
    hide WillWatch;
    GrowsWatched(s, s');
    forall i | 0 <= i < |s'.queue| && s'.queue[i].Created? ensures s'.queue[i].dir in s'.dirs {
      assert s'.queue[i] == s.queue[i];
    }
  }

  lemma DeleteCovers(s: State, p: Path, s': State)
    requires Inv(s) && Deletes(s, p, s')
    ensures AllCovered(s')
  {
    hide FloorCovered, FloorAt, Everywhere, TreeOk, CookiesOk, RequestsOk, VersionsOk;
    Enqueued(s, Changed(p), s');
    forall q ensures Safe(s', q, At(s'.version, q), Everywhere(s')) {
      assert Safe(s, q, At(s.version, q), Everywhere(s));
      if q != p {
        SafeMore(s, s', q, At(s.version, q), Everywhere(s), Everywhere(s'));
      } else {
        assert p in Everywhere(s') && Finds(p, p, s'.live);
      }
    }
  }

  lemma DeleteFloor(s: State, p: Path, s': State)
    requires Inv(s) && Deletes(s, p, s')
    ensures FloorCovered(s')
  {
    hide AllCovered, Everywhere, TreeOk, CookiesOk, RequestsOk, VersionsOk, Front, Safe, At;
    if !s.caller.Away? {
      Enqueued(s, Changed(p), s');
      forall q | q !in s'.caller.gone ensures FloorAt(s', q, At(s'.caller.floor, q)) {
        var need := At(s.caller.floor, q);
        assert FloorAt(s, q, need);
        if !Answered(s) { SafeMore(s, s', q, need, Front(s), Front(s')); }
      }
    }
  }

  lemma KeepsDelete(s: State, p: Path, s': State)
    requires Inv(s) && Deletes(s, p, s')
    ensures Inv(s')
  {
    hide VersionsOk, CookiesOk, RequestsOk, AllCovered, FloorCovered, WillWatch, At;
    DeleteTree(s, p, s');
    WriteRest(s, p, s');
    DeleteCovers(s, p, s');
    DeleteFloor(s, p, s');
  }

  // ---- applying a batch ----

  /** Looking at a file takes nothing from any other path. */
  lemma OtherFinds(s: State, p: Path, q: Path)
    requires TreeOk(s) && p !in s.dirs && q != p
    ensures !Finds(p, q, s.live)
  {
    hide WillWatch, At;
    if q in s.live && p < q { AboveFile(s.dirs, p, q); }
  }

  lemma PickedFile(s: State, p: Path, s': State, q: Path, need: nat, items: set<Path>, items': set<Path>)
    requires TreeOk(s) && PicksFile(s, p, s') && Safe(s, q, need, items) && need <= At(s.version, q) && items - {p} <= items'
    ensures Safe(s', q, need, items')
  {
    hide TreeOk, At;
    if q == p {
      assert ReadAs(ReadOf(s'.consumer), p, need);
    } else {
      OtherFinds(s, p, q);
      if c :| c in items && Finds(c, q, s.live) { assert c in items'; }
    }
  }

  lemma PickFileMoves(s: State, p: Path, s': State)
    requires PicksFile(s, p, s')
    ensures Everywhere(s) - {p} <= Everywhere(s') && Front(s) - {p} <= Front(s')
  {
    hide QueueItems, OutItems, Ahead, UpTo, HasReq;
  }

  lemma KeepsPickFile(s: State, p: Path, s': State)
    requires Inv(s) && PicksFile(s, p, s')
    ensures Inv(s')
  {
    hide Safe, Everywhere, Front, WillWatch, At, HasReq;
    StillWillWatch(s, s');
    PickFileMoves(s, p, s');
    forall q ensures Safe(s', q, At(s'.version, q), Everywhere(s')) {
      PickedFile(s, p, s', q, At(s.version, q), Everywhere(s), Everywhere(s'));
    }
    forall q | !s.caller.Away? && q !in s'.caller.gone ensures FloorAt(s', q, At(s'.caller.floor, q)) {
      assert FloorAt(s, q, At(s.caller.floor, q));
      if !Answered(s) { PickedFile(s, p, s', q, At(s.caller.floor, q), Front(s), Front(s')); }
    }
  }

  /** What listing a directory hands on. */
  function Listed(s: State, d: Path): set<Path> { Children(s.dirs, d) + FilesIn(s.live, d) }

  /** A file below a directory is in it, or below one of its subdirectories. */
  lemma ListedFinds(s: State, d: Path, q: Path)
    requires TreeOk(s) && q in s.live && Below(q, d)
    ensures exists c :: c in Listed(s, d) && Finds(c, q, s.live)
  {
    hide WillWatch, At, Children;
    if Parent(q) == d {
      assert q in Listed(s, d) && Finds(q, q, s.live);
    } else {
      NextDown(s.dirs, d, Parent(q));
      var c :| c in Children(s.dirs, d) && c <= Parent(q);
      assert c in Listed(s, d) && Finds(c, q, s.live);
    }
  }

  lemma PickedDir(s: State, d: Path, s': State, q: Path, need: nat, items: set<Path>, items': set<Path>)
    requires TreeOk(s) && PicksDir(s, d, s') && Safe(s, q, need, items) && need <= At(s.version, q)
    requires items - {d} <= items' && (d in items ==> Listed(s, d) <= items')
    ensures Safe(s', q, need, items')
  {
    hide WillWatch, Listed;
    if c :| c in items && Finds(c, q, s.live) {
      if c != d {
        assert c in items';
      } else if q != d {
        ListedFinds(s, d, q);
        var x :| x in Listed(s, d) && Finds(x, q, s.live);
        assert x in items' && Finds(x, q, s'.live);
      }
    }
  }

  lemma PickDirMoves(s: State, d: Path, s': State)
    requires PicksDir(s, d, s')
    ensures Everywhere(s) - {d} <= Everywhere(s') && Listed(s, d) <= Everywhere(s')
    ensures Front(s) - {d} <= Front(s') && (d in Front(s) ==> s.caller.Away? || Listed(s, d) <= Front(s'))
  {
    hide QueueItems, OutItems, Ahead, UpTo, HasReq, FilesIn, Children;
  }

  lemma KeepsPickDir(s: State, d: Path, s': State)
    requires Inv(s) && PicksDir(s, d, s')
    ensures Inv(s')
  {
    hide Safe, Everywhere, Front, WillWatch, At, HasReq, FilesIn, Children, Listed;
    StillWillWatch(s, s');
    PickDirMoves(s, d, s');
    forall q ensures Safe(s', q, At(s'.version, q), Everywhere(s')) {
      PickedDir(s, d, s', q, At(s.version, q), Everywhere(s), Everywhere(s'));
    }
    forall q | !s.caller.Away? && q !in s'.caller.gone ensures FloorAt(s', q, At(s'.caller.floor, q)) {
      assert FloorAt(s, q, At(s.caller.floor, q));
      if !Answered(s) { PickedDir(s, d, s', q, At(s.caller.floor, q), Front(s), Front(s')); }
    }
  }

  lemma StoredNow(s: State, s': State, q: Path, need: nat, items: set<Path>)
    requires VersionsOk(s) && Stores(s, s') && Safe(s, q, need, items)
    ensures Safe(s', q, need, items)
  {
  }

  lemma AppliedGrows(s: State, s': State, q: Path)
    requires VersionsOk(s) && Stores(s, s')
    ensures At(s.applied, q) <= At(s'.applied, q) <= At(s'.version, q)
  {
  }

  lemma KeepsStore(s: State, s': State)
    requires Inv(s) && Stores(s, s')
    ensures Inv(s')
  {
    hide Safe, WillWatch, At, HasReq, QueueItems, OutItems, Ahead, UpTo;
    StillWillWatch(s, s');
    forall q ensures Safe(s', q, At(s'.version, q), Everywhere(s')) {
      StoredNow(s, s', q, At(s.version, q), Everywhere(s));
    }
    forall q ensures At(s'.applied, q) <= At(s'.version, q) { AppliedGrows(s, s', q); }
    forall q | !s.caller.Away? && q !in s'.caller.gone ensures FloorAt(s', q, At(s'.caller.floor, q)) {
      assert FloorAt(s, q, At(s.caller.floor, q));
      AppliedGrows(s, s', q);
      if !Answered(s) { StoredNow(s, s', q, At(s.caller.floor, q), Front(s)); }
    }
  }

  // ---- any step ----

  lemma KeepsStep(s: State, e: Step, s': State)
    requires Inv(s) && Next(s, e, s')
    ensures Inv(s')
  {
    hide Inv;
    match e
    case Write(p) => KeepsWrite(s, p, s');
    case Delete(p) => KeepsDelete(s, p, s');
    case MkDir(d) => KeepsMkDir(s, d, s');
    case Dequeue => KeepsDequeue(s, s');
    case Add(d) => KeepsAdd(s, d, s');
    case List(d) => KeepsList(s, d, s');
    case Registered => KeepsRegistered(s, s');
    case Fire => KeepsFire(s, s');
    case Accept => KeepsAccept(s, s');
    case Send => KeepsSend(s, s');
    case Take => KeepsTake(s, s');
    case PickFile(p) => KeepsPickFile(s, p, s');
    case PickDir(d) => KeepsPickDir(s, d, s');
    case Store => KeepsStore(s, s');
    case EndBatch => KeepsEndBatch(s, s');
    case Call => KeepsCall(s, s');
    case Drain => KeepsDrain(s, s');
    case WriteCookie => KeepsWriteCookie(s, s');
    case GetCookie => KeepsGetCookie(s, s');
    case Ask(r) => KeepsAsk(s, r, s');
    case Return => KeepsLeave(s, s');
    case GiveUp => KeepsLeave(s, s');
  }
}
