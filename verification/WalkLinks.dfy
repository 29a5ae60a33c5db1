/** Skipping ignored directories while links are followed. */
module WalkLinks {
  // internal/daemon/store.go over internal/walkdir/walkdir.go: exactly what the walk that
  // skips lists beyond filtering the walk that does not. Both go through the tree side by
  // side. The full walk has seen more: the targets of links below ignored directories. A
  // link elsewhere to one of these it passes by, and the skipping walk enters.

  import opened Ignore
  import opened Walk

  /** All links in the tree of `d` lead to directories already seen. */
  ghost predicate Shut(fs: FS, d: Dir, seen: set<Dir>)
    requires ValidFS(fs)
    decreases HeightOf(fs, d)
  {
    d in fs.entries ==> forall i :: 0 <= i < |fs.entries[d]| ==> EntryShut(fs, d, i, seen)
  }

  ghost predicate EntryShut(fs: FS, d: Dir, i: nat, seen: set<Dir>)
    requires ValidFS(fs) && d in fs.entries && i < |fs.entries[d]|
    decreases HeightOf(fs, d), 0
  {
    assert EntryOk(fs, d, fs.entries[d][i]);
    match fs.entries[d][i]
    case Sub(_, sub) => Shut(fs, sub, seen)
    case LinkDir(_, target) => target in seen
    case _ => true
  }

  /** Whatever the full walk has seen and the skipping walk has not, it is through with. */
  ghost predicate AllShut(fs: FS, few: set<Dir>, seen: set<Dir>)
    requires ValidFS(fs)
  {
    forall x :: x in seen && x !in few ==> Shut(fs, x, seen)
  }

  lemma {:induction false} ShutMore(fs: FS, d: Dir, seen: set<Dir>, more: set<Dir>)
    requires ValidFS(fs) && Shut(fs, d, seen) && seen <= more
    ensures Shut(fs, d, more)
    decreases HeightOf(fs, d)
  {
    if d in fs.entries {
      forall i | 0 <= i < |fs.entries[d]| ensures EntryShut(fs, d, i, more) {
        assert EntryOk(fs, d, fs.entries[d][i]);
        assert EntryShut(fs, d, i, seen);
        if fs.entries[d][i].Sub? { ShutMore(fs, fs.entries[d][i].dir, seen, more); }
      }
    }
  }

  /** A directory entered by a full walk is shut when the walk is over. */
  lemma {:induction false} EnteredIsShut(fs: FS, t: Trace, seen: set<Dir>, d: Dir)
    requires ValidFS(fs) && Complete(fs, true, t, seen) && (HasEntered(t, d) || d !in fs.entries)
    ensures Shut(fs, d, t.seen)
    decreases HeightOf(fs, d)
  {
    hide HasEntered;
    if d in fs.entries {
      forall i | 0 <= i < |fs.entries[d]| ensures EntryShut(fs, d, i, t.seen) {
        assert EntryOk(fs, d, fs.entries[d][i]);
        EnteredIsDone(fs, t, seen, d, i);
        if fs.entries[d][i].Sub? { EnteredIsShut(fs, t, seen, fs.entries[d][i].dir); }
      }
    }
  }

  lemma EnteredIsDone(fs: FS, t: Trace, seen: set<Dir>, d: Dir, i: nat)
    requires Complete(fs, true, t, seen) && HasEntered(t, d) && d in fs.entries && i < |fs.entries[d]|
    ensures exists path :: EntryDone(fs, true, t, fs.entries[d][i], path)
  {
    hide EntryDone;
    var k :| 0 <= k < |t.entered| && t.entered[k].dir == d;
    assert DirDone(fs, true, t, t.entered[k]);
    assert EntryDone(fs, true, t, fs.entries[d][i], t.entered[k].path);
  }

  /** What a full walk has newly seen is shut. */
  lemma SeenIsShut(fs: FS, d: Dir, path: Text, seen: set<Dir>, x: Dir)
    requires ValidFS(fs) && x !in seen
    ensures var t := WalkDir(fs, true, Never(), d, path, seen); x in t.seen ==> Shut(fs, x, t.seen)
  {
    hide Shut, Complete, WalkDir;
    var t := WalkDir(fs, true, Never(), d, path, seen);
    DirComplete(fs, true, d, path, seen);
    if x in t.seen {
      NewlyEntered(fs, t, seen, x);
      EnteredIsShut(fs, t, seen, x);
    }
  }

  lemma NewlyEntered(fs: FS, t: Trace, seen: set<Dir>, x: Dir)
    requires Complete(fs, true, t, seen) && x in t.seen && x !in seen
    ensures HasEntered(t, x) || x !in fs.entries
  {
    hide HasEntered, DirDone;
  }

  // ---- a skipping walk of what is shut ----

  /** It enters only links to directories already seen. */
  lemma {:induction false} DirStaysShut(fs: FS, skip: Text -> bool, d: Dir, path: Text, few: set<Dir>, seen: set<Dir>)
    requires ValidFS(fs) && few <= seen && AllShut(fs, few, seen) && Shut(fs, d, seen)
    ensures WalkDir(fs, true, skip, d, path, few).seen <= seen
    decreases fs.dirs - few, HeightOf(fs, d), 1, 0
  {
    hide Shut, AllShut;
    if d in fs.entries { FromStaysShut(fs, skip, d, path, 0, few, seen); }
  }

  lemma {:induction false} FromStaysShut(fs: FS, skip: Text -> bool, d: Dir, path: Text, i: nat, few: set<Dir>, seen: set<Dir>)
    requires ValidFS(fs) && few <= seen && AllShut(fs, few, seen) && Shut(fs, d, seen) && d in fs.entries && i <= |fs.entries[d]|
    ensures WalkFrom(fs, true, skip, d, path, i, few).seen <= seen
    decreases fs.dirs - few, HeightOf(fs, d), 0, |fs.entries[d]| - i
  {
    hide Shut;
    if i < |fs.entries[d]| {
      EntryStaysShut(fs, skip, d, path, i, few, seen);
      var first := WalkEntry(fs, true, skip, d, path, i, few);
      assert fs.dirs - first.seen <= fs.dirs - few;
      FromStaysShut(fs, skip, d, path, i + 1, first.seen, seen);
    }
  }

  lemma {:induction false} EntryStaysShut(fs: FS, skip: Text -> bool, d: Dir, path: Text, i: nat, few: set<Dir>, seen: set<Dir>)
    requires ValidFS(fs) && few <= seen && AllShut(fs, few, seen) && Shut(fs, d, seen) && d in fs.entries && i < |fs.entries[d]|
    ensures WalkEntry(fs, true, skip, d, path, i, few).seen <= seen
    decreases fs.dirs - few, HeightOf(fs, d), 0, |fs.entries[d]| - i, 0
  {
    assert EntryOk(fs, d, fs.entries[d][i]);
    assert EntryShut(fs, d, i, seen);
    var p := Join(path, fs.entries[d][i].name);
    match fs.entries[d][i]
    case Sub(_, sub) => if !skip(p) { DirStaysShut(fs, skip, sub, p, few, seen); }
    case LinkDir(_, target) =>
      if target !in few && !skip(p) {
        assert target in fs.dirs - few && fs.dirs - (few + {target}) < fs.dirs - few;
        DirStaysShut(fs, skip, target, p, few + {target}, seen);
      }
    case _ =>
  }

  // ---- the gap between the two walks ----

  /** The files only the skipping walk keeps, and the link targets that only the full walk
      sees, below directories that the other skips. */
  datatype Gap = Gap(extra: seq<Text>, hidden: set<Dir>)

  function Both(a: Gap, b: Gap): Gap { Gap(a.extra + b.extra, a.hidden + b.hidden) }

  function GapDir(fs: FS, ignored: (Text, bool) -> bool, d: Dir, path: Text, few: set<Dir>, seen: set<Dir>): Gap
    requires ValidFS(fs)
    decreases fs.dirs - few, HeightOf(fs, d), 1, 0
  {
    if d !in fs.entries then Gap([], {}) else GapFrom(fs, ignored, d, path, 0, few, seen)
  }

  function GapFrom(fs: FS, ignored: (Text, bool) -> bool, d: Dir, path: Text, i: nat, few: set<Dir>, seen: set<Dir>): Gap
    requires ValidFS(fs) && d in fs.entries && i <= |fs.entries[d]|
    decreases fs.dirs - few, HeightOf(fs, d), 0, |fs.entries[d]| - i
  {
    if i == |fs.entries[d]| then Gap([], {})
    else
      var few' := WalkEntry(fs, true, DirIgnored(ignored), d, path, i, few).seen;
      var seen' := WalkEntry(fs, true, Never(), d, path, i, seen).seen;
      assert fs.dirs - few' <= fs.dirs - few;
      Both(GapEntry(fs, ignored, d, path, i, few, seen), GapFrom(fs, ignored, d, path, i + 1, few', seen'))
  }

  function GapEntry(fs: FS, ignored: (Text, bool) -> bool, d: Dir, path: Text, i: nat, few: set<Dir>, seen: set<Dir>): Gap
    requires ValidFS(fs) && d in fs.entries && i < |fs.entries[d]|
    decreases fs.dirs - few, HeightOf(fs, d), 0, |fs.entries[d]| - i, 0
  {
    assert EntryOk(fs, d, fs.entries[d][i]);
    var p := Join(path, fs.entries[d][i].name);
    match fs.entries[d][i]
    case Sub(_, sub) =>
      if ignored(p, true) then Gap([], WalkDir(fs, true, Never(), sub, p, seen).seen - seen)
      else GapDir(fs, ignored, sub, p, few, seen)
    case LinkDir(_, target) =>
      if target in few then Gap([], {})
      else
        assert target in fs.dirs - few && fs.dirs - (few + {target}) < fs.dirs - few;
        if target in seen then
          Gap(if ignored(p, true) then [] else Filtered(WalkDir(fs, true, DirIgnored(ignored), target, p, few + {target}).visits, ignored), {})
        else if ignored(p, true) then Gap([], WalkDir(fs, true, Never(), target, p, seen + {target}).seen - (seen + {target}))
        else GapDir(fs, ignored, target, p, few + {target}, seen + {target})
    case _ => Gap([], {})
  }

  /** A target the skipping walk may enter though the full walk has seen it. */
  predicate Behind(x: Dir, few: set<Dir>, seen: set<Dir>, g: Gap) {
    (x in seen && x !in few) || x in g.hidden
  }

  /** A directory read under an ignored path, with a link to a directory in it. */
  ghost predicate LinkIgnored(fs: FS, ignored: (Text, bool) -> bool, e: Entered) {
    ignored(e.path, true) && e.dir in fs.entries && exists i :: 0 <= i < |fs.entries[e.dir]| && fs.entries[e.dir][i].LinkDir?
  }

  ghost predicate SomeLinkIgnored(fs: FS, ignored: (Text, bool) -> bool, es: seq<Entered>) {
    exists e :: e in es && LinkIgnored(fs, ignored, e)
  }

  /** Below an ignored directory the full walk sees more only through such a link. */
  lemma {:induction false} DirSees(fs: FS, ignored: (Text, bool) -> bool, d: Dir, path: Text, seen: set<Dir>)
    requires ValidFS(fs) && Closed(ignored) && path != [] && ignored(path, true)
    ensures var t := WalkDir(fs, true, Never(), d, path, seen); t.seen == seen || SomeLinkIgnored(fs, ignored, t.entered)
    decreases fs.dirs - seen, HeightOf(fs, d), 1, 0
  {
    hide Closed, LinkIgnored;
    if d in fs.entries {
      var t, rest := WalkDir(fs, true, Never(), d, path, seen), WalkFrom(fs, true, Never(), d, path, 0, seen);
      FromSees(fs, ignored, d, path, 0, seen);
      assert t.entered == [Entered(d, path)] + rest.entered;
      if t.seen != seen { LinksOfOne(fs, ignored, [Entered(d, path)], rest.entered, Entered(d, path)); }
    }
  }

  lemma LinksOfOne(fs: FS, ignored: (Text, bool) -> bool, a: seq<Entered>, b: seq<Entered>, e: Entered)
    ensures SomeLinkIgnored(fs, ignored, a + b) <==> SomeLinkIgnored(fs, ignored, a) || SomeLinkIgnored(fs, ignored, b)
    ensures e in a && LinkIgnored(fs, ignored, e) ==> SomeLinkIgnored(fs, ignored, a)
  {
    hide LinkIgnored;
    if SomeLinkIgnored(fs, ignored, a) { var x :| x in a && LinkIgnored(fs, ignored, x); assert x in a + b; }
    if SomeLinkIgnored(fs, ignored, b) { var x :| x in b && LinkIgnored(fs, ignored, x); assert x in a + b; }
  }

  lemma {:induction false} FromSees(fs: FS, ignored: (Text, bool) -> bool, d: Dir, path: Text, i: nat, seen: set<Dir>)
    requires ValidFS(fs) && Closed(ignored) && path != [] && ignored(path, true) && d in fs.entries && i <= |fs.entries[d]|
    ensures var t := WalkFrom(fs, true, Never(), d, path, i, seen);
      t.seen == seen || SomeLinkIgnored(fs, ignored, t.entered) || LinkIgnored(fs, ignored, Entered(d, path))
    decreases fs.dirs - seen, HeightOf(fs, d), 0, |fs.entries[d]| - i
  {
    hide Closed, SomeLinkIgnored;
    if i < |fs.entries[d]| {
      var first := WalkEntry(fs, true, Never(), d, path, i, seen);
      EntrySees(fs, ignored, d, path, i, seen);
      assert fs.dirs - first.seen <= fs.dirs - seen;
      FromSees(fs, ignored, d, path, i + 1, first.seen);
      LinksOfOne(fs, ignored, first.entered, WalkFrom(fs, true, Never(), d, path, i + 1, first.seen).entered, Entered(d, path));
    }
  }

  lemma {:induction false} EntrySees(fs: FS, ignored: (Text, bool) -> bool, d: Dir, path: Text, i: nat, seen: set<Dir>)
    requires ValidFS(fs) && Closed(ignored) && path != [] && ignored(path, true) && d in fs.entries && i < |fs.entries[d]|
    ensures var t := WalkEntry(fs, true, Never(), d, path, i, seen);
      t.seen == seen || SomeLinkIgnored(fs, ignored, t.entered) || LinkIgnored(fs, ignored, Entered(d, path))
    decreases fs.dirs - seen, HeightOf(fs, d), 0, |fs.entries[d]| - i, 0
  {
    hide Closed, SomeLinkIgnored;
    assert EntryOk(fs, d, fs.entries[d][i]);
    if fs.entries[d][i].Sub? {
      var p, sub := Join(path, fs.entries[d][i].name), fs.entries[d][i].dir;
      BelowToo(ignored, path, fs.entries[d][i].name);
      DirSees(fs, ignored, sub, p, seen);
      var inside := WalkDir(fs, true, Never(), sub, p, seen).entered;
      assert [] + inside == inside;
    }
  }

  lemma BelowToo(ignored: (Text, bool) -> bool, path: Text, name: Text)
    requires Closed(ignored) && path != [] && ignored(path, true) && name != []
    ensures Join(path, name) != [] && ignored(Join(path, name), true)
  {
  }

  /** How the two walks of one place compare: `a` skips, `b` does not. */
  ghost predicate Paired(fs: FS, ignored: (Text, bool) -> bool, a: Trace, b: Trace, g: Gap, few: set<Dir>, seen: set<Dir>)
    requires ValidFS(fs)
  {
    && a.seen <= b.seen && AllShut(fs, a.seen, b.seen)
    && |Filtered(a.visits, ignored)| == |Filtered(b.visits, ignored)| + |g.extra|
    && (g.extra == [] ==> Filtered(a.visits, ignored) == Filtered(b.visits, ignored))
    && (forall x :: x in b.seen && x !in a.seen ==> Behind(x, few, seen, g))
    && (g.extra != [] ==> exists x :: x in a.links && Behind(x, few, seen, g))
    && (g.hidden != {} ==> SomeLinkIgnored(fs, ignored, b.entered))
  }

  lemma PairedJoin(fs: FS, ignored: (Text, bool) -> bool, a: Trace, b: Trace, g: Gap, a': Trace, b': Trace, g': Gap, few: set<Dir>, seen: set<Dir>)
    requires ValidFS(fs) && Paired(fs, ignored, a, b, g, few, seen) && Paired(fs, ignored, a', b', g', a.seen, b.seen)
    ensures Paired(fs, ignored, Then(a, a'), Then(b, b'), Both(g, g'), few, seen)
  {
    hide Filtered, AllShut, LinkIgnored;
    FilteredJoin(a.visits, a'.visits, ignored);
    FilteredJoin(b.visits, b'.visits, ignored);
    LinksOfOne(fs, ignored, b.entered, b'.entered, Entered(0, []));
    var all := Both(g, g');
    forall x | x in b'.seen && x !in a'.seen ensures Behind(x, few, seen, all) {
      assert Behind(x, a.seen, b.seen, g');
    }
    if g.extra != [] {
      var x :| x in a.links && Behind(x, few, seen, g);
      assert x in Then(a, a').links && Behind(x, few, seen, all);
    } else if g'.extra != [] {
      var x :| x in a'.links && Behind(x, a.seen, b.seen, g');
      assert x in Then(a, a').links && Behind(x, few, seen, all);
    }
  }

  lemma PairedNothing(fs: FS, ignored: (Text, bool) -> bool, few: set<Dir>, seen: set<Dir>)
    requires ValidFS(fs) && few <= seen && AllShut(fs, few, seen)
    ensures Paired(fs, ignored, Trace([], [], [], few), Trace([], [], [], seen), Gap([], {}), few, seen)
  {
    hide AllShut, Shut;
  }

  /** The same visit and the same link on both sides change nothing about the comparison. */
  lemma PairedHead(fs: FS, ignored: (Text, bool) -> bool, v: seq<Visit>, a: Trace, b: Trace, a': Trace, b': Trace, g: Gap, few: set<Dir>, seen: set<Dir>)
    requires ValidFS(fs) && Paired(fs, ignored, a, b, g, few, seen)
    requires a'.visits == v + a.visits && b'.visits == v + b.visits && a'.seen == a.seen && b'.seen == b.seen
    requires forall x :: x in a.links ==> x in a'.links
    requires forall e :: e in b.entered ==> e in b'.entered
    ensures Paired(fs, ignored, a', b', g, few, seen)
  {
    hide Filtered, AllShut, Behind, LinkIgnored;
    FilteredJoin(v, a.visits, ignored);
    FilteredJoin(v, b.visits, ignored);
    if g.extra != [] {
      var x :| x in a.links && Behind(x, few, seen, g);
      assert x in a'.links;
    }
  }

  lemma {:induction false} DirPaired(fs: FS, ignored: (Text, bool) -> bool, d: Dir, path: Text, few: set<Dir>, seen: set<Dir>)
    requires ValidFS(fs) && Closed(ignored) && few <= seen && AllShut(fs, few, seen)
    ensures Paired(fs, ignored, WalkDir(fs, true, DirIgnored(ignored), d, path, few), WalkDir(fs, true, Never(), d, path, seen),
                   GapDir(fs, ignored, d, path, few, seen), few, seen)
    decreases fs.dirs - few, HeightOf(fs, d), 1, 0
  {
    hide Closed, Filtered, AllShut, Paired;
    if d in fs.entries {
      FromPaired(fs, ignored, d, path, 0, few, seen);
      var a, b := WalkFrom(fs, true, DirIgnored(ignored), d, path, 0, few), WalkFrom(fs, true, Never(), d, path, 0, seen);
      PairedHead(fs, ignored, [], a, b, WalkDir(fs, true, DirIgnored(ignored), d, path, few), WalkDir(fs, true, Never(), d, path, seen),
                 GapDir(fs, ignored, d, path, few, seen), few, seen);
    } else {
      PairedNothing(fs, ignored, few, seen);
    }
  }

  lemma {:induction false} FromPaired(fs: FS, ignored: (Text, bool) -> bool, d: Dir, path: Text, i: nat, few: set<Dir>, seen: set<Dir>)
    requires ValidFS(fs) && Closed(ignored) && few <= seen && AllShut(fs, few, seen) && d in fs.entries && i <= |fs.entries[d]|
    ensures Paired(fs, ignored, WalkFrom(fs, true, DirIgnored(ignored), d, path, i, few), WalkFrom(fs, true, Never(), d, path, i, seen),
                   GapFrom(fs, ignored, d, path, i, few, seen), few, seen)
    decreases fs.dirs - few, HeightOf(fs, d), 0, |fs.entries[d]| - i
  {
    hide Closed, Filtered, AllShut, Paired;
    if i < |fs.entries[d]| {
      var a, b := WalkEntry(fs, true, DirIgnored(ignored), d, path, i, few), WalkEntry(fs, true, Never(), d, path, i, seen);
      EntryPaired(fs, ignored, d, path, i, few, seen);
      PairedStands(fs, ignored, a, b, GapEntry(fs, ignored, d, path, i, few, seen), few, seen);
      assert fs.dirs - a.seen <= fs.dirs - few;
      FromPaired(fs, ignored, d, path, i + 1, a.seen, b.seen);
      PairedJoin(fs, ignored, a, b, GapEntry(fs, ignored, d, path, i, few, seen),
                 WalkFrom(fs, true, DirIgnored(ignored), d, path, i + 1, a.seen), WalkFrom(fs, true, Never(), d, path, i + 1, b.seen),
                 GapFrom(fs, ignored, d, path, i + 1, a.seen, b.seen), few, seen);
    } else {
      PairedNothing(fs, ignored, few, seen);
    }
  }

  lemma PairedStands(fs: FS, ignored: (Text, bool) -> bool, a: Trace, b: Trace, g: Gap, few: set<Dir>, seen: set<Dir>)
    requires ValidFS(fs) && Paired(fs, ignored, a, b, g, few, seen)
    ensures a.seen <= b.seen && AllShut(fs, a.seen, b.seen)
  {
    hide AllShut, Filtered, Behind, SomeLinkIgnored;
  }

  /** Below a directory that is skipped, the full walk lists nothing that is kept, and is
      through with all it sees. */
  lemma SkippedPaired(fs: FS, ignored: (Text, bool) -> bool, d: Dir, p: Text, few: set<Dir>, seen: set<Dir>)
    requires ValidFS(fs) && Closed(ignored) && few <= seen && AllShut(fs, few, seen) && p != [] && ignored(p, true)
    ensures var b := WalkDir(fs, true, Never(), d, p, seen);
      Paired(fs, ignored, Trace([], [], [], few), b, Gap([], b.seen - seen), few, seen)
  {
    hide Shut, Closed, WalkDir;
    var b := WalkDir(fs, true, Never(), d, p, seen);
    BelowIgnored(fs, true, ignored, d, p, seen);
    AllIgnored(b.visits, ignored);
    DirSees(fs, ignored, d, p, seen);
    forall x | x in b.seen && x !in few ensures Shut(fs, x, b.seen) {
      if x in seen { ShutMore(fs, x, seen, b.seen); } else { SeenIsShut(fs, d, p, seen, x); }
    }
  }

  lemma FilteredNone(ignored: (Text, bool) -> bool)
    ensures Filtered([], ignored) == []
  {
  }

  lemma DirHead(p: Text, ignored: (Text, bool) -> bool)
    ensures Filtered([Visit(p, true)], ignored) == [] && [Visit(p, true)] + [] == [Visit(p, true)]
  {
    assert [Visit(p, true)][..0] == [];
  }

  /** A link to what only the full walk has seen: all that the skipping walk keeps there
      is extra. */
  lemma BehindPaired(fs: FS, ignored: (Text, bool) -> bool, d: Dir, path: Text, i: nat, few: set<Dir>, seen: set<Dir>)
    requires ValidFS(fs) && few <= seen && AllShut(fs, few, seen) && d in fs.entries && i < |fs.entries[d]|
    requires fs.entries[d][i].LinkDir? && fs.entries[d][i].dir in seen && fs.entries[d][i].dir !in few
    ensures Paired(fs, ignored, WalkEntry(fs, true, DirIgnored(ignored), d, path, i, few), WalkEntry(fs, true, Never(), d, path, i, seen),
                   GapEntry(fs, ignored, d, path, i, few, seen), few, seen)
  {
    hide Shut, WalkDir, Closed, Filtered, SomeLinkIgnored;
    assert EntryOk(fs, d, fs.entries[d][i]);
    var p, target := Join(path, fs.entries[d][i].name), fs.entries[d][i].dir;
    var a := WalkEntry(fs, true, DirIgnored(ignored), d, path, i, few);
    DirHead(p, ignored);
    FilteredNone(ignored);
    assert target in a.links && Behind(target, few, seen, GapEntry(fs, ignored, d, path, i, few, seen));
    if ignored(p, true) {
      assert a.visits == [Visit(p, true)] + [];
    } else {
      var inside := WalkDir(fs, true, DirIgnored(ignored), target, p, few + {target});
      DirStaysShut(fs, DirIgnored(ignored), target, p, few + {target}, seen);
      FilteredJoin([Visit(p, true)], inside.visits, ignored);
    }
  }

  /** Both walks enter the link: what each has beyond the other is as before. */
  lemma SameTarget(fs: FS, ignored: (Text, bool) -> bool, a: Trace, b: Trace, g: Gap, few: set<Dir>, seen: set<Dir>, target: Dir)
    requires ValidFS(fs) && Paired(fs, ignored, a, b, g, few + {target}, seen + {target})
    ensures Paired(fs, ignored, a, b, g, few, seen)
  {
    hide Filtered, AllShut;
    forall x | Behind(x, few + {target}, seen + {target}, g) ensures Behind(x, few, seen, g) {}
  }

  lemma TargetShut(fs: FS, few: set<Dir>, seen: set<Dir>, target: Dir)
    requires ValidFS(fs) && AllShut(fs, few, seen)
    ensures AllShut(fs, few + {target}, seen + {target})
  {
    hide Shut;
    forall x | x in seen + {target} && x !in few + {target} ensures Shut(fs, x, seen + {target}) { ShutMore(fs, x, seen, seen + {target}); }
  }

  lemma {:induction false} EntryPaired(fs: FS, ignored: (Text, bool) -> bool, d: Dir, path: Text, i: nat, few: set<Dir>, seen: set<Dir>)
    requires ValidFS(fs) && Closed(ignored) && few <= seen && AllShut(fs, few, seen) && d in fs.entries && i < |fs.entries[d]|
    ensures Paired(fs, ignored, WalkEntry(fs, true, DirIgnored(ignored), d, path, i, few), WalkEntry(fs, true, Never(), d, path, i, seen),
                   GapEntry(fs, ignored, d, path, i, few, seen), few, seen)
    decreases fs.dirs - few, HeightOf(fs, d), 0, |fs.entries[d]| - i, 0
  {
    hide Closed, Filtered, AllShut, Paired, WalkDir;
    assert EntryOk(fs, d, fs.entries[d][i]);
    var p := Join(path, fs.entries[d][i].name);
    var a, b := WalkEntry(fs, true, DirIgnored(ignored), d, path, i, few), WalkEntry(fs, true, Never(), d, path, i, seen);
    var g := GapEntry(fs, ignored, d, path, i, few, seen);
    PairedNothing(fs, ignored, few, seen);
    match fs.entries[d][i]
    case File(_) => PairedHead(fs, ignored, [Visit(p, false)], Trace([], [], [], few), Trace([], [], [], seen), a, b, g, few, seen);
    case LinkFile(_) => PairedHead(fs, ignored, [Visit(p, false)], Trace([], [], [], few), Trace([], [], [], seen), a, b, g, few, seen);
    case Sub(_, sub) =>
      if ignored(p, true) {
        SkippedPaired(fs, ignored, sub, p, few, seen);
        PairedHead(fs, ignored, [Visit(p, true)], Trace([], [], [], few), WalkDir(fs, true, Never(), sub, p, seen), a, b, g, few, seen);
      } else {
        DirPaired(fs, ignored, sub, p, few, seen);
        PairedHead(fs, ignored, [Visit(p, true)], WalkDir(fs, true, DirIgnored(ignored), sub, p, few), WalkDir(fs, true, Never(), sub, p, seen), a, b, g, few, seen);
      }
    case LinkDir(_, target) =>
      if target !in few {
        if target in seen {
          BehindPaired(fs, ignored, d, path, i, few, seen);
        } else {
          assert target in fs.dirs - few && fs.dirs - (few + {target}) < fs.dirs - few;
          TargetShut(fs, few, seen, target);
          var inA := if ignored(p, true) then Trace([], [], [], few + {target}) else WalkDir(fs, true, DirIgnored(ignored), target, p, few + {target});
          var inB := WalkDir(fs, true, Never(), target, p, seen + {target});
          if ignored(p, true) {
            SkippedPaired(fs, ignored, target, p, few + {target}, seen + {target});
          } else {
            DirPaired(fs, ignored, target, p, few + {target}, seen + {target});
          }
          SameTarget(fs, ignored, inA, inB, g, few, seen, target);
          PairedHead(fs, ignored, [Visit(p, true)], inA, inB, a, b, g, few, seen);
        }
      }
    case _ =>
  }

  // ---- the whole walk ----

  function GapOf(fs: FS, ignored: (Text, bool) -> bool, root: Dir): Gap
    requires ValidFS(fs)
  {
    GapDir(fs, ignored, root, [], {root}, {root})
  }

  lemma RootPaired(fs: FS, ignored: (Text, bool) -> bool, root: Dir)
    requires ValidFS(fs) && Closed(ignored)
    ensures Paired(fs, ignored, WalkRoot(fs, true, DirIgnored(ignored), root), WalkRoot(fs, true, Never(), root), GapOf(fs, ignored, root), {root}, {root})
  {
    hide Paired, Closed, WalkDir, GapDir, Shut;
    DirPaired(fs, ignored, root, [], {root}, {root});
  }

  /** With links followed, skipping ignored directories lists at least what filtering would,
      and lists the same exactly if nothing is kept below a link to a directory that the
      full walk has entered, or passed a link to, below an ignored one. */
  lemma PrunedIsFilteredUnless(fs: FS, ignored: (Text, bool) -> bool, root: Dir)
    requires ValidFS(fs) && Closed(ignored)
    ensures var a, b := Filtered(WalkRoot(fs, true, DirIgnored(ignored), root).visits, ignored), Filtered(WalkRoot(fs, true, Never(), root).visits, ignored);
      |a| == |b| + |GapOf(fs, ignored, root).extra| && (a == b <==> GapOf(fs, ignored, root).extra == [])
  {
    hide Closed, WalkRoot, GapOf, AllShut, Filtered, Behind, SomeLinkIgnored;
    RootPaired(fs, ignored, root);
  }

  /** In particular the lists are equal if the skipping walk enters no link to a directory
      that is hidden from it: one that the full walk first enters through a link below an
      ignored directory. */
  lemma EqualUnlessHidden(fs: FS, ignored: (Text, bool) -> bool, root: Dir)
    requires ValidFS(fs) && Closed(ignored)
    requires forall x :: x in WalkRoot(fs, true, DirIgnored(ignored), root).links ==> x !in GapOf(fs, ignored, root).hidden
    ensures Filtered(WalkRoot(fs, true, DirIgnored(ignored), root).visits, ignored) == Filtered(WalkRoot(fs, true, Never(), root).visits, ignored)
  {
    hide Closed, WalkRoot, GapOf, AllShut, Filtered, SomeLinkIgnored;
    RootPaired(fs, ignored, root);
  }

  /** And nothing is hidden if no directory with a link to a directory in it lies at or
      below an ignored one. */
  lemma EqualUnlessLinkIgnored(fs: FS, ignored: (Text, bool) -> bool, root: Dir)
    requires ValidFS(fs) && Closed(ignored) && !SomeLinkIgnored(fs, ignored, WalkRoot(fs, true, Never(), root).entered)
    ensures Filtered(WalkRoot(fs, true, DirIgnored(ignored), root).visits, ignored) == Filtered(WalkRoot(fs, true, Never(), root).visits, ignored)
  {
    hide Closed, WalkRoot, GapOf, AllShut, Filtered, SomeLinkIgnored;
    RootPaired(fs, ignored, root);
    EqualUnlessHidden(fs, ignored, root);
  }
}
