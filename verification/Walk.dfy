/** The directory walker (internal/walkdir/walkdir.go) over a finite graph of directories
    with symbolic links, and the listing built on it (internal/daemon/store.go). */
module Walk {
  import opened Prelude
  import opened Ignore

  /** A real directory. */
  type Dir = nat

  /** What ReadDir shows; links are shown with what they resolve to. */
  datatype Entry =
    | File(name: Text) | Special(name: Text) | Sub(name: Text, dir: Dir)
    | LinkFile(name: Text) | LinkDir(name: Text, dir: Dir) | LinkBroken(name: Text)

  /** Entries of the directories that can be read. `height` bounds how deep the real
      directories below one go; links may lead anywhere. */
  datatype FS = FS(dirs: set<Dir>, entries: map<Dir, seq<Entry>>, height: map<Dir, nat>)

  ghost predicate EntryOk(fs: FS, d: Dir, e: Entry) {
    && e.name != []
    && (e.Sub? ==> d in fs.height && e.dir in fs.dirs && e.dir in fs.height && fs.height[e.dir] < fs.height[d])
    && (e.LinkDir? ==> e.dir in fs.dirs && e.dir in fs.height)
  }

  ghost predicate ValidFS(fs: FS) {
    forall d, i :: d in fs.entries && 0 <= i < |fs.entries[d]| ==> EntryOk(fs, d, fs.entries[d][i])
  }

  datatype Visit = Visit(path: Text, isDir: bool)

  /** A directory whose entries were read, and the path it was read under. */
  datatype Entered = Entered(dir: Dir, path: Text)

  /** What a walk reports, which directories it entered and which of them through links,
      and the link targets seen when it is over. */
  datatype Trace = Trace(visits: seq<Visit>, entered: seq<Entered>, links: seq<Dir>, seen: set<Dir>)

  function Join(path: Text, name: Text): Text { if path == [] then name else Child(path, name) }

  function Then(a: Trace, b: Trace): Trace {
    Trace(a.visits + b.visits, a.entered + b.entered, a.links + b.links, b.seen)
  }

  function HeightOf(fs: FS, d: Dir): nat { if d in fs.height then fs.height[d] else 0 }

  // ---- the walk as a function ----

  /** The walk of one directory. It ends because every link entered takes a directory
      off those unseen, and in between real directories only get lower. */
  function WalkDir(fs: FS, follow: bool, skip: Text -> bool, d: Dir, path: Text, seen: set<Dir>): (r: Trace)
    requires ValidFS(fs)
    ensures seen <= r.seen
    decreases fs.dirs - seen, HeightOf(fs, d), 1, 0
  {
    if d !in fs.entries then Trace([], [], [], seen)
    else Then(Trace([], [Entered(d, path)], [], seen), WalkFrom(fs, follow, skip, d, path, 0, seen))
  }

  /** The entries of a directory from the `i`-th on. */
  function WalkFrom(fs: FS, follow: bool, skip: Text -> bool, d: Dir, path: Text, i: nat, seen: set<Dir>): (r: Trace)
    requires ValidFS(fs) && d in fs.entries && i <= |fs.entries[d]|
    ensures seen <= r.seen
    decreases fs.dirs - seen, HeightOf(fs, d), 0, |fs.entries[d]| - i
  {
    if i == |fs.entries[d]| then Trace([], [], [], seen)
    else
      assert EntryOk(fs, d, fs.entries[d][i]);
      var first := WalkEntry(fs, follow, skip, d, path, i, seen);
      assert fs.dirs - first.seen <= fs.dirs - seen;
      Then(first, WalkFrom(fs, follow, skip, d, path, i + 1, first.seen))
  }

  function WalkEntry(fs: FS, follow: bool, skip: Text -> bool, d: Dir, path: Text, i: nat, seen: set<Dir>): (r: Trace)
    requires ValidFS(fs) && d in fs.entries && i < |fs.entries[d]|
    ensures seen <= r.seen
    decreases fs.dirs - seen, HeightOf(fs, d), 0, |fs.entries[d]| - i, 0
  {
    assert EntryOk(fs, d, fs.entries[d][i]);
    var p := Join(path, fs.entries[d][i].name);
    match fs.entries[d][i]
    case File(_) => Trace([Visit(p, false)], [], [], seen)
    case LinkFile(_) => Trace(if follow then [Visit(p, false)] else [], [], [], seen)
    case Sub(_, sub) =>
      Then(Trace([Visit(p, true)], [], [], seen), if skip(p) then Trace([], [], [], seen) else WalkDir(fs, follow, skip, sub, p, seen))
    case LinkDir(_, to) =>
      if !follow || to in seen then Trace([], [], [], seen)
      else
        assert to in fs.dirs - seen && fs.dirs - (seen + {to}) < fs.dirs - seen;
        Then(Trace([Visit(p, true)], [], [to], seen + {to}),
             if skip(p) then Trace([], [], [], seen + {to}) else WalkDir(fs, follow, skip, to, p, seen + {to}))
    case _ => Trace([], [], [], seen)
  }

  /** The whole walk; with links followed the root counts as seen. */
  function WalkRoot(fs: FS, follow: bool, skip: Text -> bool, root: Dir): Trace
    requires ValidFS(fs)
  {
    WalkDir(fs, follow, skip, root, [], if follow then {root} else {})
  }

  // ---- the walk as written ----

  /** The recursion shares one set of seen directories and reports as it goes. */
  class Walker {
    const fs: FS
    const follow: bool
    const skip: Text -> bool
    var seen: set<Dir>
    var visits: seq<Visit>

    constructor (fs: FS, follow: bool, skip: Text -> bool)
      ensures this.fs == fs && this.follow == follow && this.skip == skip && visits == [] && seen == {}
    {
      this.fs, this.follow, this.skip := fs, follow, skip;
      seen, visits := {}, [];
    }

    method Walk(root: Dir)
      requires ValidFS(fs) && visits == [] && seen == {}
      modifies this
      ensures visits == WalkRoot(fs, follow, skip, root).visits && seen == WalkRoot(fs, follow, skip, root).seen
    {
      if follow { seen := seen + {root}; }
      assert seen == if follow then {root} else {};
      WalkInto(root, []);
    }

    method WalkInto(d: Dir, path: Text)
      requires ValidFS(fs)
      modifies this
      ensures var t := WalkDir(fs, follow, skip, d, path, old(seen)); visits == old(visits) + t.visits && seen == t.seen
      decreases fs.dirs - seen, HeightOf(fs, d), 1, 0
    {
      if d !in fs.entries { return; }
      ghost var all := WalkFrom(fs, follow, skip, d, path, 0, seen);
      hide WalkFrom, WalkEntry, EntryOk;
      for i := 0 to |fs.entries[d]|
        invariant old(seen) <= seen
        invariant visits + WalkFrom(fs, follow, skip, d, path, i, seen).visits == old(visits) + all.visits
        invariant WalkFrom(fs, follow, skip, d, path, i, seen).seen == all.seen
      {
        assert fs.dirs - seen <= fs.dirs - old(seen);
        FromStep(fs, follow, skip, d, path, i, seen, visits);
        WalkOne(d, path, i);
      }
      FromEnd(fs, follow, skip, d, path, seen, visits);
      assert [] + all.visits == all.visits;
    }

    /** One entry of a directory. */
    method WalkOne(d: Dir, path: Text, i: nat)
      requires ValidFS(fs) && d in fs.entries && i < |fs.entries[d]|
      modifies this
      ensures var t := WalkEntry(fs, follow, skip, d, path, i, old(seen)); visits == old(visits) + t.visits && seen == t.seen
      decreases fs.dirs - seen, HeightOf(fs, d), 0, 0
    {
      assert EntryOk(fs, d, fs.entries[d][i]);
      var p := Join(path, fs.entries[d][i].name);
      match fs.entries[d][i] {
        case File(_) => visits := visits + [Visit(p, false)];
        case LinkFile(_) => if follow { visits := visits + [Visit(p, false)]; }
        case Sub(_, sub) =>
          visits := visits + [Visit(p, true)];
          if !skip(p) { WalkInto(sub, p); }
        case LinkDir(_, to) =>
          if follow && to !in seen {
            assert to in fs.dirs - seen;
            seen := seen + {to};
            visits := visits + [Visit(p, true)];
            if !skip(p) { WalkInto(to, p); }
          }
        case _ =>
      }
    }
  }

  lemma FromStep(fs: FS, follow: bool, skip: Text -> bool, d: Dir, path: Text, i: nat, seen: set<Dir>, visits: seq<Visit>)
    requires ValidFS(fs) && d in fs.entries && i < |fs.entries[d]|
    ensures var first := WalkEntry(fs, follow, skip, d, path, i, seen);
      var rest := WalkFrom(fs, follow, skip, d, path, i + 1, first.seen);
      var t := WalkFrom(fs, follow, skip, d, path, i, seen);
      t.seen == rest.seen && visits + t.visits == (visits + first.visits) + rest.visits
  {
    hide WalkEntry, EntryOk;
    var first := WalkEntry(fs, follow, skip, d, path, i, seen);
    var rest := WalkFrom(fs, follow, skip, d, path, i + 1, first.seen);
    assert visits + (first.visits + rest.visits) == (visits + first.visits) + rest.visits;
  }

  lemma FromEnd(fs: FS, follow: bool, skip: Text -> bool, d: Dir, path: Text, seen: set<Dir>, visits: seq<Visit>)
    requires ValidFS(fs) && d in fs.entries
    ensures var t := WalkFrom(fs, follow, skip, d, path, |fs.entries[d]|, seen); t.seen == seen && visits + t.visits == visits
  {
  }

  // ---- links are entered once ----

  /** The links entered are new, all different, and are what is seen afterwards. */
  ghost predicate LinksOk(t: Trace, seen: set<Dir>) {
    NoTwice(t.links) && (forall x :: x in t.links ==> x !in seen) && (forall x :: x in t.seen <==> x in seen || x in t.links)
  }

  lemma LinksJoin(a: Trace, b: Trace, seen: set<Dir>)
    requires LinksOk(a, seen) && LinksOk(b, a.seen)
    ensures LinksOk(Then(a, b), seen)
  {
    var l := a.links + b.links;
    forall i, j | 0 <= i < j < |l| ensures l[i] != l[j] {
      if i < |a.links| <= j {
        assert l[i] in a.links && l[j] in b.links;
      }
    }
  }

  lemma {:induction false} DirLinks(fs: FS, follow: bool, skip: Text -> bool, d: Dir, path: Text, seen: set<Dir>)
    requires ValidFS(fs)
    ensures LinksOk(WalkDir(fs, follow, skip, d, path, seen), seen)
    decreases fs.dirs - seen, HeightOf(fs, d), 1, 0
  {
    if d in fs.entries {
      FromLinks(fs, follow, skip, d, path, 0, seen);
      LinksJoin(Trace([], [Entered(d, path)], [], seen), WalkFrom(fs, follow, skip, d, path, 0, seen), seen);
    }
  }

  lemma {:induction false} FromLinks(fs: FS, follow: bool, skip: Text -> bool, d: Dir, path: Text, i: nat, seen: set<Dir>)
    requires ValidFS(fs) && d in fs.entries && i <= |fs.entries[d]|
    ensures LinksOk(WalkFrom(fs, follow, skip, d, path, i, seen), seen)
    decreases fs.dirs - seen, HeightOf(fs, d), 0, |fs.entries[d]| - i
  {
    if i < |fs.entries[d]| {
      EntryLinks(fs, follow, skip, d, path, i, seen);
      var first := WalkEntry(fs, follow, skip, d, path, i, seen);
      assert fs.dirs - first.seen <= fs.dirs - seen;
      FromLinks(fs, follow, skip, d, path, i + 1, first.seen);
      LinksJoin(first, WalkFrom(fs, follow, skip, d, path, i + 1, first.seen), seen);
    }
  }

  lemma {:induction false} EntryLinks(fs: FS, follow: bool, skip: Text -> bool, d: Dir, path: Text, i: nat, seen: set<Dir>)
    requires ValidFS(fs) && d in fs.entries && i < |fs.entries[d]|
    ensures LinksOk(WalkEntry(fs, follow, skip, d, path, i, seen), seen)
    decreases fs.dirs - seen, HeightOf(fs, d), 0, |fs.entries[d]| - i, 0
  {
    assert EntryOk(fs, d, fs.entries[d][i]);
    var p := Join(path, fs.entries[d][i].name);
    match fs.entries[d][i]
    case Sub(_, sub) =>
      if !skip(p) {
        DirLinks(fs, follow, skip, sub, p, seen);
        LinksJoin(Trace([Visit(p, true)], [], [], seen), WalkDir(fs, follow, skip, sub, p, seen), seen);
      }
    case LinkDir(_, to) =>
      if follow && to !in seen && !skip(p) {
        assert to in fs.dirs - seen && fs.dirs - (seen + {to}) < fs.dirs - seen;
        DirLinks(fs, follow, skip, to, p, seen + {to});
        LinksJoin(Trace([Visit(p, true)], [], [to], seen + {to}), WalkDir(fs, follow, skip, to, p, seen + {to}), seen);
      }
    case _ =>
  }

  /** However links lead in circles, the walk ends, enters each target through a link
      once at most, and the root through none. */
  lemma LinksOnce(fs: FS, skip: Text -> bool, root: Dir)
    requires ValidFS(fs)
    ensures var t := WalkRoot(fs, true, skip, root);
      NoTwice(t.links) && root !in t.links && forall x :: x in t.seen <==> x == root || x in t.links
  {
    DirLinks(fs, true, skip, root, [], {root});
  }

  // ---- nothing is missed ----

  /** One step down: into a real directory or through a link. */
  ghost predicate Edge(fs: FS, follow: bool, a: Dir, b: Dir) {
    a in fs.entries && exists i :: 0 <= i < |fs.entries[a]| && Leads(fs.entries[a][i], follow, b)
  }

  predicate Leads(e: Entry, follow: bool, b: Dir) {
    (e.Sub? && e.dir == b) || (follow && e.LinkDir? && e.dir == b)
  }

  ghost predicate Chain(fs: FS, follow: bool, ds: seq<Dir>) {
    |ds| > 0 && forall k :: 0 <= k < |ds| - 1 ==> Edge(fs, follow, ds[k], ds[k + 1])
  }

  ghost predicate Reaches(fs: FS, follow: bool, a: Dir, b: Dir) {
    exists ds :: Chain(fs, follow, ds) && ds[0] == a && ds[|ds| - 1] == b
  }

  predicate HasEntered(t: Trace, d: Dir) {
    exists k | 0 <= k < |t.entered| :: t.entered[k].dir == d
  }

  ghost predicate EntryDone(fs: FS, follow: bool, t: Trace, e: Entry, path: Text) {
    match e
    case File(name) => Visit(Join(path, name), false) in t.visits
    case LinkFile(name) => follow ==> Visit(Join(path, name), false) in t.visits
    case Sub(_, sub) => HasEntered(t, sub) || sub !in fs.entries
    case LinkDir(_, to) => follow ==> to in t.seen
    case _ => true
  }

  /** Each directory entered has all its entries dealt with; each link target newly seen
      was entered. */
  ghost predicate Complete(fs: FS, follow: bool, t: Trace, seen: set<Dir>) {
    && (forall k :: 0 <= k < |t.entered| ==> DirDone(fs, follow, t, t.entered[k]))
    && (forall x :: x in t.seen && x !in seen ==> HasEntered(t, x) || x !in fs.entries)
  }

  ghost predicate DirDone(fs: FS, follow: bool, t: Trace, o: Entered) {
    o.dir in fs.entries && forall i :: 0 <= i < |fs.entries[o.dir]| ==> EntryDone(fs, follow, t, fs.entries[o.dir][i], o.path)
  }

  /** A longer trace still has everything done. */
  lemma StillDone(fs: FS, follow: bool, a: Trace, b: Trace, e: Entry, path: Text)
    requires a.seen <= b.seen
    ensures EntryDone(fs, follow, a, e, path) ==> EntryDone(fs, follow, Then(a, b), e, path)
    ensures EntryDone(fs, follow, b, e, path) ==> EntryDone(fs, follow, Then(a, b), e, path)
  {
    hide Join;
    if e.Sub? {
      EnteredJoin(a, b, e.dir);
    }
  }

  lemma EnteredJoin(a: Trace, b: Trace, d: Dir)
    ensures HasEntered(Then(a, b), d) <==> HasEntered(a, d) || HasEntered(b, d)
  {
    var t := Then(a, b);
    if HasEntered(a, d) {
      var k :| 0 <= k < |a.entered| && a.entered[k].dir == d;
      assert t.entered[k].dir == d;
    }
    if HasEntered(b, d) {
      var k :| 0 <= k < |b.entered| && b.entered[k].dir == d;
      assert t.entered[|a.entered| + k].dir == d;
    }
  }

  lemma CompleteJoin(fs: FS, follow: bool, a: Trace, b: Trace, seen: set<Dir>)
    requires Complete(fs, follow, a, seen) && Complete(fs, follow, b, a.seen) && a.seen <= b.seen
    ensures Complete(fs, follow, Then(a, b), seen)
  {
    hide EntryDone, HasEntered;
    var t := Then(a, b);
    forall k | 0 <= k < |t.entered| ensures DirDone(fs, follow, t, t.entered[k]) {
      var o := t.entered[k];
      assert DirDone(fs, follow, if k < |a.entered| then a else b, o);
      forall i | 0 <= i < |fs.entries[o.dir]| ensures EntryDone(fs, follow, t, fs.entries[o.dir][i], o.path) {
        StillDone(fs, follow, a, b, fs.entries[o.dir][i], o.path);
      }
    }
    forall x | x in t.seen && x !in seen ensures HasEntered(t, x) || x !in fs.entries { EnteredJoin(a, b, x); }
  }

  function Never(): Text -> bool { (p: Text) => false }

  lemma {:induction false} DirComplete(fs: FS, follow: bool, d: Dir, path: Text, seen: set<Dir>)
    requires ValidFS(fs)
    ensures Complete(fs, follow, WalkDir(fs, follow, Never(), d, path, seen), seen)
    ensures d in fs.entries ==> HasEntered(WalkDir(fs, follow, Never(), d, path, seen), d)
    decreases fs.dirs - seen, HeightOf(fs, d), 1, 0
  {
    hide EntryDone;
    if d in fs.entries {
      FromComplete(fs, follow, d, path, 0, seen);
      var rest := WalkFrom(fs, follow, Never(), d, path, 0, seen);
      var t := Then(Trace([], [Entered(d, path)], [], seen), rest);
      assert t.entered[0].dir == d;
      assert t.visits == rest.visits;
      forall k | 0 <= k < |t.entered| ensures DirDone(fs, follow, t, t.entered[k]) {
        var o := t.entered[k];
        if k > 0 { assert o == rest.entered[k - 1]; assert DirDone(fs, follow, rest, o); }
        forall i | 0 <= i < |fs.entries[o.dir]| ensures EntryDone(fs, follow, t, fs.entries[o.dir][i], o.path) {
          StillDone(fs, follow, Trace([], [Entered(d, path)], [], seen), rest, fs.entries[o.dir][i], o.path);
        }
      }
      forall x | x in t.seen && x !in seen ensures HasEntered(t, x) || x !in fs.entries {
        EnteredJoin(Trace([], [Entered(d, path)], [], seen), rest, x);
      }
    }
  }

  lemma {:induction false} FromComplete(fs: FS, follow: bool, d: Dir, path: Text, i: nat, seen: set<Dir>)
    requires ValidFS(fs) && d in fs.entries && i <= |fs.entries[d]|
    ensures var t := WalkFrom(fs, follow, Never(), d, path, i, seen);
      Complete(fs, follow, t, seen) && forall k :: i <= k < |fs.entries[d]| ==> EntryDone(fs, follow, t, fs.entries[d][k], path)
    decreases fs.dirs - seen, HeightOf(fs, d), 0, |fs.entries[d]| - i
  {
    hide EntryDone, Complete;
    if i < |fs.entries[d]| {
      EntryComplete(fs, follow, d, path, i, seen);
      var first := WalkEntry(fs, follow, Never(), d, path, i, seen);
      assert fs.dirs - first.seen <= fs.dirs - seen;
      FromComplete(fs, follow, d, path, i + 1, first.seen);
      var rest := WalkFrom(fs, follow, Never(), d, path, i + 1, first.seen);
      CompleteJoin(fs, follow, first, rest, seen);
      forall k | i <= k < |fs.entries[d]| ensures EntryDone(fs, follow, Then(first, rest), fs.entries[d][k], path) {
        StillDone(fs, follow, first, rest, fs.entries[d][k], path);
      }
    } else {
      NothingComplete(fs, follow, seen);
    }
  }

  lemma NothingComplete(fs: FS, follow: bool, seen: set<Dir>)
    ensures Complete(fs, follow, Trace([], [], [], seen), seen)
    ensures forall v :: Complete(fs, follow, Trace([v], [], [], seen), seen)
  {
  }

  lemma {:induction false} EntryComplete(fs: FS, follow: bool, d: Dir, path: Text, i: nat, seen: set<Dir>)
    requires ValidFS(fs) && d in fs.entries && i < |fs.entries[d]|
    ensures var t := WalkEntry(fs, follow, Never(), d, path, i, seen);
      Complete(fs, follow, t, seen) && EntryDone(fs, follow, t, fs.entries[d][i], path)
    decreases fs.dirs - seen, HeightOf(fs, d), 0, |fs.entries[d]| - i, 0
  {
    hide Complete, HasEntered;
    assert EntryOk(fs, d, fs.entries[d][i]);
    var p := Join(path, fs.entries[d][i].name);
    NothingComplete(fs, follow, seen);
    match fs.entries[d][i]
    case Sub(_, sub) =>
      DirComplete(fs, follow, sub, p, seen);
      var inside := WalkDir(fs, follow, Never(), sub, p, seen);
      CompleteJoin(fs, follow, Trace([Visit(p, true)], [], [], seen), inside, seen);
      EnteredJoin(Trace([Visit(p, true)], [], [], seen), inside, sub);
    case LinkDir(_, to) =>
      if follow && to !in seen {
        assert to in fs.dirs - seen && fs.dirs - (seen + {to}) < fs.dirs - seen;
        DirComplete(fs, follow, to, p, seen + {to});
        LinkComplete(fs, follow, p, to, seen);
      }
    case _ =>
  }

  lemma LinkComplete(fs: FS, follow: bool, p: Text, to: Dir, seen: set<Dir>)
    requires ValidFS(fs)
    requires var inside := WalkDir(fs, follow, Never(), to, p, seen + {to});
      Complete(fs, follow, inside, seen + {to}) && (to in fs.entries ==> HasEntered(inside, to))
    ensures Complete(fs, follow, Then(Trace([Visit(p, true)], [], [to], seen + {to}), WalkDir(fs, follow, Never(), to, p, seen + {to})), seen)
  {
    hide EntryDone, HasEntered;
    var head := Trace([Visit(p, true)], [], [to], seen + {to});
    var inside := WalkDir(fs, follow, Never(), to, p, seen + {to});
    var t := Then(head, inside);
    assert t.entered == inside.entered;
    forall k | 0 <= k < |t.entered| ensures DirDone(fs, follow, t, t.entered[k]) {
      var o := t.entered[k];
      assert DirDone(fs, follow, inside, o);
      forall i | 0 <= i < |fs.entries[o.dir]| ensures EntryDone(fs, follow, t, fs.entries[o.dir][i], o.path) {
        StillDone(fs, follow, head, inside, fs.entries[o.dir][i], o.path);
      }
    }
    forall x | x in t.seen && x !in seen ensures HasEntered(t, x) || x !in fs.entries { EnteredJoin(head, inside, x); }
  }

  lemma {:induction false} ReachedIsEntered(fs: FS, follow: bool, t: Trace, seen: set<Dir>, ds: seq<Dir>, k: nat)
    requires Complete(fs, follow, t, seen) && Chain(fs, follow, ds) && k < |ds|
    requires HasEntered(t, ds[0]) && ds[k] in fs.entries && forall x :: x in seen ==> x == ds[0]
    ensures HasEntered(t, ds[k])
  {
    if k > 0 {
      assert Edge(fs, follow, ds[k - 1], ds[k - 1 + 1]);
      ReachedIsEntered(fs, follow, t, seen, ds, k - 1);
      var j :| 0 <= j < |t.entered| && t.entered[j].dir == ds[k - 1];
      assert DirDone(fs, follow, t, t.entered[j]);
      var i :| 0 <= i < |fs.entries[ds[k - 1]]| && Leads(fs.entries[ds[k - 1]][i], follow, ds[k]);
      assert EntryDone(fs, follow, t, fs.entries[ds[k - 1]][i], t.entered[j].path);
    }
  }

  /** Every file of every readable directory reachable from the root is reported, under
      a path that leads to its directory. */
  lemma NothingMissed(fs: FS, follow: bool, root: Dir, d: Dir, i: nat)
    requires ValidFS(fs) && Reaches(fs, follow, root, d) && root in fs.entries
    requires d in fs.entries && i < |fs.entries[d]| && (fs.entries[d][i].File? || (follow && fs.entries[d][i].LinkFile?))
    ensures var t := WalkRoot(fs, follow, Never(), root);
      exists k :: 0 <= k < |t.entered| && t.entered[k].dir == d && Visit(Join(t.entered[k].path, fs.entries[d][i].name), false) in t.visits
  {
    var seen := if follow then {root} else {};
    var t := WalkRoot(fs, follow, Never(), root);
    DirComplete(fs, follow, root, [], seen);
    var ds :| Chain(fs, follow, ds) && ds[0] == root && ds[|ds| - 1] == d;
    ReachedIsEntered(fs, follow, t, seen, ds, |ds| - 1);
    var k :| 0 <= k < |t.entered| && t.entered[k].dir == d;
    assert DirDone(fs, follow, t, t.entered[k]);
    assert EntryDone(fs, follow, t, fs.entries[d][i], t.entered[k].path);
  }

  // ---- listing with pruning ----

  function CookiePrefix(): Text { [46, 103, 99, 103, 114, 101, 112, 45, 99, 111, 111, 107, 105, 101, 45] }

  /** The name of a barrier's cookie file. */
  predicate IsCookie(rel: Text) {
    CookiePrefix() <= rel[BaseStart(rel)..]
  }

  predicate Keep(ignored: (Text, bool) -> bool, v: Visit) {
    !v.isDir && !ignored(v.path, false) && !IsCookie(v.path)
  }

  /** The files that are not ignored, each taken by itself. */
  function Filtered(visits: seq<Visit>, ignored: (Text, bool) -> bool): seq<Text> {
    if |visits| == 0 then []
    else Filtered(visits[..|visits| - 1], ignored) + (if Keep(ignored, visits[|visits| - 1]) then [visits[|visits| - 1].path] else [])
  }

  function DirIgnored(ignored: (Text, bool) -> bool): Text -> bool { (p: Text) => ignored(p, true) }

  /** Walks the root, skips ignored directories and lists the other files. */
  method ListFiles(fs: FS, follow: bool, ignored: (Text, bool) -> bool, root: Dir) returns (out: seq<Text>)
    requires ValidFS(fs)
    ensures out == Filtered(WalkRoot(fs, follow, DirIgnored(ignored), root).visits, ignored)
  {
    hide Keep;
    var w := new Walker(fs, follow, DirIgnored(ignored));
    w.Walk(root);
    var visits := w.visits;
    out := [];
    for i := 0 to |visits|
      invariant out == Filtered(visits[..i], ignored)
    {
      assert visits[..i + 1][..i] == visits[..i];
      if Keep(ignored, visits[i]) { out := out + [visits[i].path]; }
    }
    assert visits[..|visits|] == visits;
  }

  lemma {:induction false} FilteredJoin(a: seq<Visit>, b: seq<Visit>, ignored: (Text, bool) -> bool)
    ensures Filtered(a + b, ignored) == Filtered(a, ignored) + Filtered(b, ignored)
  {
    hide Keep;
    if |b| == 0 {
      assert a + b == a;
    } else {
      assert (a + b)[..|a + b| - 1] == a + b[..|b| - 1];
      FilteredJoin(a, b[..|b| - 1], ignored);
    }
  }

  lemma {:induction false} AllIgnored(visits: seq<Visit>, ignored: (Text, bool) -> bool)
    requires forall k :: 0 <= k < |visits| ==> ignored(visits[k].path, visits[k].isDir)
    ensures Filtered(visits, ignored) == []
  {
    if |visits| > 0 { AllIgnored(visits[..|visits| - 1], ignored); }
  }

  /** What is below an ignored directory is ignored. */
  ghost predicate Closed(ignored: (Text, bool) -> bool) {
    forall d, name, isDir :: ignored(d, true) ==> ignored(Child(d, name), isDir)
  }

  ghost predicate Covers(ignored: (Text, bool) -> bool, visits: seq<Visit>) {
    forall k :: 0 <= k < |visits| ==> ignored(visits[k].path, visits[k].isDir)
  }

  lemma CoversJoin(ignored: (Text, bool) -> bool, a: seq<Visit>, b: seq<Visit>)
    requires Covers(ignored, a) && Covers(ignored, b)
    ensures Covers(ignored, a + b)
  {
  }

  /** Everything visited below an ignored directory is ignored. */
  lemma {:induction false} BelowIgnored(fs: FS, follow: bool, ignored: (Text, bool) -> bool, d: Dir, path: Text, seen: set<Dir>)
    requires ValidFS(fs) && Closed(ignored) && path != [] && ignored(path, true)
    ensures Covers(ignored, WalkDir(fs, follow, Never(), d, path, seen).visits)
    decreases fs.dirs - seen, HeightOf(fs, d), 1, 0
  {
    hide Closed;
    if d in fs.entries {
      FromIgnored(fs, follow, ignored, d, path, 0, seen);
      CoversJoin(ignored, [], WalkFrom(fs, follow, Never(), d, path, 0, seen).visits);
    }
  }

  lemma {:induction false} FromIgnored(fs: FS, follow: bool, ignored: (Text, bool) -> bool, d: Dir, path: Text, i: nat, seen: set<Dir>)
    requires ValidFS(fs) && Closed(ignored) && path != [] && ignored(path, true) && d in fs.entries && i <= |fs.entries[d]|
    ensures Covers(ignored, WalkFrom(fs, follow, Never(), d, path, i, seen).visits)
    decreases fs.dirs - seen, HeightOf(fs, d), 0, |fs.entries[d]| - i
  {
    hide Closed;
    if i < |fs.entries[d]| {
      EntryIgnored(fs, follow, ignored, d, path, i, seen);
      var first := WalkEntry(fs, follow, Never(), d, path, i, seen);
      assert fs.dirs - first.seen <= fs.dirs - seen;
      FromIgnored(fs, follow, ignored, d, path, i + 1, first.seen);
      CoversJoin(ignored, first.visits, WalkFrom(fs, follow, Never(), d, path, i + 1, first.seen).visits);
    }
  }

  lemma {:induction false} EntryIgnored(fs: FS, follow: bool, ignored: (Text, bool) -> bool, d: Dir, path: Text, i: nat, seen: set<Dir>)
    requires ValidFS(fs) && Closed(ignored) && path != [] && ignored(path, true) && d in fs.entries && i < |fs.entries[d]|
    ensures Covers(ignored, WalkEntry(fs, follow, Never(), d, path, i, seen).visits)
    decreases fs.dirs - seen, HeightOf(fs, d), 0, |fs.entries[d]| - i, 0
  {
    assert EntryOk(fs, d, fs.entries[d][i]);
    var p := Join(path, fs.entries[d][i].name);
    assert ignored(p, true) && ignored(p, false);
    match fs.entries[d][i]
    case Sub(_, sub) =>
      BelowIgnored(fs, follow, ignored, sub, p, seen);
      CoversJoin(ignored, [Visit(p, true)], WalkDir(fs, follow, Never(), sub, p, seen).visits);
    case LinkDir(_, to) =>
      if follow && to !in seen {
        assert to in fs.dirs - seen && fs.dirs - (seen + {to}) < fs.dirs - seen;
        BelowIgnored(fs, follow, ignored, to, p, seen + {to});
        CoversJoin(ignored, [Visit(p, true)], WalkDir(fs, follow, Never(), to, p, seen + {to}).visits);
      }
    case _ =>
  }

  /** Without links nothing ever counts as seen. */
  lemma {:induction false} DirPruned(fs: FS, ignored: (Text, bool) -> bool, d: Dir, path: Text)
    requires ValidFS(fs) && Closed(ignored)
    ensures var a, b := WalkDir(fs, false, DirIgnored(ignored), d, path, {}), WalkDir(fs, false, Never(), d, path, {});
      a.seen == b.seen == {} && Filtered(a.visits, ignored) == Filtered(b.visits, ignored)
    decreases HeightOf(fs, d), 1, 0
  {
    hide Closed, Filtered;
    if d in fs.entries {
      FromPruned(fs, ignored, d, path, 0);
      FilteredJoin([], WalkFrom(fs, false, DirIgnored(ignored), d, path, 0, {}).visits, ignored);
      FilteredJoin([], WalkFrom(fs, false, Never(), d, path, 0, {}).visits, ignored);
    }
  }

  lemma {:induction false} FromPruned(fs: FS, ignored: (Text, bool) -> bool, d: Dir, path: Text, i: nat)
    requires ValidFS(fs) && Closed(ignored) && d in fs.entries && i <= |fs.entries[d]|
    ensures var a, b := WalkFrom(fs, false, DirIgnored(ignored), d, path, i, {}), WalkFrom(fs, false, Never(), d, path, i, {});
      a.seen == b.seen == {} && Filtered(a.visits, ignored) == Filtered(b.visits, ignored)
    decreases HeightOf(fs, d), 0, |fs.entries[d]| - i
  {
    hide Closed, Filtered;
    if i < |fs.entries[d]| {
      EntryPruned(fs, ignored, d, path, i);
      FromPruned(fs, ignored, d, path, i + 1);
      FilteredJoin(WalkEntry(fs, false, DirIgnored(ignored), d, path, i, {}).visits, WalkFrom(fs, false, DirIgnored(ignored), d, path, i + 1, {}).visits, ignored);
      FilteredJoin(WalkEntry(fs, false, Never(), d, path, i, {}).visits, WalkFrom(fs, false, Never(), d, path, i + 1, {}).visits, ignored);
    }
  }

  lemma {:induction false} EntryPruned(fs: FS, ignored: (Text, bool) -> bool, d: Dir, path: Text, i: nat)
    requires ValidFS(fs) && Closed(ignored) && d in fs.entries && i < |fs.entries[d]|
    ensures var a, b := WalkEntry(fs, false, DirIgnored(ignored), d, path, i, {}), WalkEntry(fs, false, Never(), d, path, i, {});
      a.seen == b.seen == {} && Filtered(a.visits, ignored) == Filtered(b.visits, ignored)
    decreases HeightOf(fs, d), 0, |fs.entries[d]| - i, 0
  {
    hide Closed, Filtered;
    assert EntryOk(fs, d, fs.entries[d][i]);
    if fs.entries[d][i].Sub? {
      var p, sub := Join(path, fs.entries[d][i].name), fs.entries[d][i].dir;
      DirPruned(fs, ignored, sub, p);
      var below := WalkDir(fs, false, Never(), sub, p, {}).visits;
      FilteredJoin([Visit(p, true)], WalkDir(fs, false, DirIgnored(ignored), sub, p, {}).visits, ignored);
      FilteredJoin([Visit(p, true)], below, ignored);
      if ignored(p, true) {
        BelowIgnored(fs, false, ignored, sub, p, {});
        AllIgnored(below, ignored);
        assert [Visit(p, true)] + [] == [Visit(p, true)];
      }
    }
  }

  /** With links not followed, skipping ignored directories lists exactly the files that
      are not ignored themselves. */
  lemma PrunedIsFiltered(fs: FS, ignored: (Text, bool) -> bool, root: Dir)
    requires ValidFS(fs) && Closed(ignored)
    ensures Filtered(WalkRoot(fs, false, DirIgnored(ignored), root).visits, ignored) == Filtered(WalkRoot(fs, false, Never(), root).visits, ignored)
  {
    DirPruned(fs, ignored, root, []);
  }

  /** What the store ignores: its own rules and those of the .gitignore files. */
  function StoreIgnored(rules: seq<Rule>, load: Text -> seq<Rule>): (Text, bool) -> bool {
    (p: Text, isDir: bool) => Ignored(rules, p, isDir) || TreeIgnored(load, p, isDir)
  }

  lemma StoreClosed(rules: seq<Rule>, load: Text -> seq<Rule>)
    ensures Closed(StoreIgnored(rules, load))
  {
    hide Ignored, TreeIgnored, Child;
    forall d, name, isDir | Ignored(rules, d, true) || TreeIgnored(load, d, true)
      ensures Ignored(rules, Child(d, name), isDir) || TreeIgnored(load, Child(d, name), isDir)
    {
      if Ignored(rules, d, true) { IgnoredClosed(rules, d, name, isDir); } else { TreeClosed(load, d, name, isDir); }
    }
  }

  // ---- with links followed, pruning can list more ----

  function Linked(): FS {
    FS({0, 1, 2}, map[0 := [Sub([97], 1), LinkDir([98], 2)], 1 := [LinkDir([99], 2)], 2 := [File([102])]], map[0 := 1, 1 := 0, 2 := 0])
  }

  function IgnoreA(): (Text, bool) -> bool { (p: Text, isDir: bool) => p == [97] || [97, SLASH] <= p }

  lemma LinkedStep(skip: Text -> bool, d: Dir, path: Text, i: nat, seen: set<Dir>)
    requires ValidFS(Linked()) && d in Linked().entries && i < |Linked().entries[d]|
    ensures var first := WalkEntry(Linked(), true, skip, d, path, i, seen);
      var rest := WalkFrom(Linked(), true, skip, d, path, i + 1, first.seen);
      var t := WalkFrom(Linked(), true, skip, d, path, i, seen); t.visits == first.visits + rest.visits && t.seen == rest.seen
  {
  }

  lemma LinkedEnd(skip: Text -> bool, d: Dir, path: Text, seen: set<Dir>)
    requires ValidFS(Linked()) && d in Linked().entries
    ensures var t := WalkFrom(Linked(), true, skip, d, path, |Linked().entries[d]|, seen); t.visits == [] && t.seen == seen
    ensures var t, u := WalkDir(Linked(), true, skip, d, path, seen), WalkFrom(Linked(), true, skip, d, path, 0, seen);
      t.visits == u.visits && t.seen == u.seen
  {
    var rest := WalkFrom(Linked(), true, skip, d, path, 0, seen).visits;
    assert [] + rest == rest;
  }

  lemma LinkedValid()
    ensures ValidFS(Linked())
  {
  }

  /** The directory with the file. */
  lemma LinkedTwo(skip: Text -> bool, path: Text, seen: set<Dir>)
    requires ValidFS(Linked())
    ensures var t := WalkDir(Linked(), true, skip, 2, path, seen); t.visits == [Visit(Join(path, [102]), false)] && t.seen == seen
  {
    LinkedEnd(skip, 2, path, seen);
    LinkedStep(skip, 2, path, 0, seen);
  }

  lemma LinkedOne()
    requires ValidFS(Linked())
    ensures var t := WalkDir(Linked(), true, Never(), 1, [97], {0});
      t.visits == [Visit([97, SLASH, 99], true), Visit([97, SLASH, 99, SLASH, 102], false)] && t.seen == {0, 2}
  {
    var p: Text := [97, SLASH, 99];
    LinkedTwo(Never(), p, {0, 2});
    assert Join([97], [99]) == p && Join(p, [102]) == [97, SLASH, 99, SLASH, 102] && {0} + {2} == {0, 2};
    LinkedEnd(Never(), 1, [97], {0});
    LinkedEnd(Never(), 1, [97], {0, 2});
    LinkedStep(Never(), 1, [97], 0, {0});
  }

  lemma LinkedFull()
    requires ValidFS(Linked())
    ensures WalkRoot(Linked(), true, Never(), 0).visits ==
      [Visit([97], true), Visit([97, SLASH, 99], true), Visit([97, SLASH, 99, SLASH, 102], false)]
  {
    LinkedOne();
    LinkedEnd(Never(), 0, [], {0});
    LinkedEnd(Never(), 0, [], {0, 2});
    LinkedStep(Never(), 0, [], 0, {0});
    LinkedStep(Never(), 0, [], 1, {0, 2});
  }

  lemma LinkedPruned()
    requires ValidFS(Linked())
    ensures WalkRoot(Linked(), true, DirIgnored(IgnoreA()), 0).visits == [Visit([97], true), Visit([98], true), Visit([98, SLASH, 102], false)]
  {
    hide WalkFrom, WalkDir;
    var skip := DirIgnored(IgnoreA());
    LinkedTwo(skip, [98], {0, 2});
    assert Join([98], [102]) == [98, SLASH, 102] && {0} + {2} == {0, 2};
    LinkedEnd(skip, 0, [], {0});
    LinkedEnd(skip, 0, [], {0, 2});
    LinkedStep(skip, 0, [], 0, {0});
    LinkedStep(skip, 0, [], 1, {0});
  }

  /** A directory linked from inside an ignored one and from outside: skipping leaves it
      to be found outside, filtering afterwards finds it only inside. */
  lemma PrunedDiffersWithLinks()
    ensures ValidFS(Linked()) && Closed(IgnoreA())
    ensures Filtered(WalkRoot(Linked(), true, Never(), 0).visits, IgnoreA()) == []
    ensures Filtered(WalkRoot(Linked(), true, DirIgnored(IgnoreA()), 0).visits, IgnoreA()) == [[98, SLASH, 102]]
  {
    LinkedValid();
    LinkedFull();
    LinkedPruned();
    var a, b := Visit([97], true), Visit([98], true);
    var f, g := Visit([97, SLASH, 99, SLASH, 102], false), Visit([98, SLASH, 102], false);
    FilteredThree(a, Visit([97, SLASH, 99], true), f, IgnoreA());
    FilteredThree(a, b, g, IgnoreA());
    NotACookie(g.path);
    assert g.path[0] == 98;
    assert Keep(IgnoreA(), g);
  }

  lemma FilteredThree(a: Visit, b: Visit, c: Visit, ignored: (Text, bool) -> bool)
    requires a.isDir && b.isDir
    ensures Filtered([a, b, c], ignored) == if Keep(ignored, c) then [c.path] else []
  {
    assert [a, b, c][..2] == [a, b] && [a, b][..1] == [a] && [a][..0] == [];
    assert Filtered([a], ignored) == [];
    assert Filtered([a, b], ignored) == [];
  }

  lemma NotACookie(p: Text)
    requires |p| < 15
    ensures !IsCookie(p)
  {
  }
}
