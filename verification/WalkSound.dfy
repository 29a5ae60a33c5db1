/** What a walk reports is there (internal/walkdir/walkdir.go): nothing is made up, and
    nothing is reported twice. */
module WalkSound {
  import opened Prelude
  import opened Ignore
  import opened Walk

  // ---- nothing is made up ----

  /** The entry is what is reported: a file or a directory, or with links followed a link
      to one, under the path of the directory it stands in. */
  predicate TellsOf(e: Entry, follow: bool, path: Text, v: Visit) {
    && v.path == Join(path, e.name)
    && if v.isDir then e.Sub? || (follow && e.LinkDir?) else e.File? || (follow && e.LinkFile?)
  }

  ghost predicate Shows(fs: FS, follow: bool, o: Entered, v: Visit) {
    o.dir in fs.entries && exists i :: 0 <= i < |fs.entries[o.dir]| && TellsOf(fs.entries[o.dir][i], follow, o.path, v)
  }

  /** One step of the walk: into a directory that is not to be skipped. */
  ghost predicate LeadsOn(fs: FS, follow: bool, skip: Text -> bool, a: Entered, b: Entered) {
    && a.dir in fs.entries && !skip(b.path)
    && exists i :: 0 <= i < |fs.entries[a.dir]| && LeadsBy(fs.entries[a.dir][i], follow, a, b)
  }

  predicate LeadsBy(e: Entry, follow: bool, a: Entered, b: Entered) {
    Leads(e, follow, b.dir) && b.path == Join(a.path, e.name)
  }

  ghost predicate IsWay(fs: FS, follow: bool, skip: Text -> bool, way: seq<Entered>) {
    |way| > 0 && forall k :: 0 <= k < |way| - 1 ==> LeadsOn(fs, follow, skip, way[k], way[k + 1])
  }

  ghost predicate WayFrom(fs: FS, follow: bool, skip: Text -> bool, a: Entered, b: Entered) {
    exists way :: IsWay(fs, follow, skip, way) && way[0] == a && way[|way| - 1] == b
  }

  lemma WayHere(fs: FS, follow: bool, skip: Text -> bool, a: Entered)
    ensures WayFrom(fs, follow, skip, a, a)
  {
    assert IsWay(fs, follow, skip, [a]);
  }

  lemma WayOn(fs: FS, follow: bool, skip: Text -> bool, a: Entered, b: Entered, c: Entered)
    requires LeadsOn(fs, follow, skip, a, b) && WayFrom(fs, follow, skip, b, c)
    ensures WayFrom(fs, follow, skip, a, c)
  {
    hide LeadsOn;
    var way :| IsWay(fs, follow, skip, way) && way[0] == b && way[|way| - 1] == c;
    var longer := [a] + way;
    forall k | 0 <= k < |longer| - 1 ensures LeadsOn(fs, follow, skip, longer[k], longer[k + 1]) {
      assert k > 0 ==> longer[k] == way[k - 1] && longer[k + 1] == way[k - 1 + 1];
    }
    assert IsWay(fs, follow, skip, longer);
  }

  /** Someone at home, or in a directory entered, shows what is visited. */
  ghost predicate Shown(fs: FS, follow: bool, t: Trace, home: Entered, v: Visit) {
    Shows(fs, follow, home, v) || exists o :: o in t.entered && Shows(fs, follow, o, v)
  }

  ghost predicate Real(fs: FS, follow: bool, skip: Text -> bool, t: Trace, home: Entered) {
    && (forall v :: v in t.visits ==> Shown(fs, follow, t, home, v))
    && (forall o :: o in t.entered ==> WayFrom(fs, follow, skip, home, o))
  }

  lemma RealJoin(fs: FS, follow: bool, skip: Text -> bool, a: Trace, b: Trace, home: Entered)
    requires Real(fs, follow, skip, a, home) && Real(fs, follow, skip, b, home)
    ensures Real(fs, follow, skip, Then(a, b), home)
  {
    hide Shows, WayFrom;
    var t := Then(a, b);
    forall v | v in t.visits ensures Shown(fs, follow, t, home, v) {
      assert v in a.visits || v in b.visits;
      assert v in a.visits ==> Shown(fs, follow, a, home, v);
      assert v in b.visits ==> Shown(fs, follow, b, home, v);
    }
  }

  /** The trace of a directory one step further, seen from here. */
  lemma RealFrom(fs: FS, follow: bool, skip: Text -> bool, t: Trace, home: Entered, next: Entered)
    requires LeadsOn(fs, follow, skip, home, next) && Real(fs, follow, skip, t, next)
    requires t.visits != [] ==> next in t.entered
    ensures Real(fs, follow, skip, t, home)
  {
    hide Shows, WayFrom, LeadsOn;
    forall v | v in t.visits ensures Shown(fs, follow, t, home, v) { assert Shown(fs, follow, t, next, v); }
    forall o | o in t.entered ensures WayFrom(fs, follow, skip, home, o) { WayOn(fs, follow, skip, home, next, o); }
  }

  lemma {:induction false} DirReal(fs: FS, follow: bool, skip: Text -> bool, d: Dir, path: Text, seen: set<Dir>)
    requires ValidFS(fs)
    ensures var t := WalkDir(fs, follow, skip, d, path, seen);
      Real(fs, follow, skip, t, Entered(d, path)) && (t.visits != [] ==> Entered(d, path) in t.entered)
    decreases fs.dirs - seen, HeightOf(fs, d), 1, 0
  {
    hide Real, WalkFrom;
    var home := Entered(d, path);
    if d in fs.entries {
      var head := Trace([], [home], [], seen);
      FromReal(fs, follow, skip, d, path, 0, seen);
      HeadReal(fs, follow, skip, home, seen);
      RealJoin(fs, follow, skip, head, WalkFrom(fs, follow, skip, d, path, 0, seen), home);
      assert home in head.entered;
    } else {
      NothingReal(fs, follow, skip, home, seen);
    }
  }

  lemma HeadReal(fs: FS, follow: bool, skip: Text -> bool, home: Entered, seen: set<Dir>)
    ensures Real(fs, follow, skip, Trace([], [home], [], seen), home)
  {
    WayHere(fs, follow, skip, home);
  }

  lemma NothingReal(fs: FS, follow: bool, skip: Text -> bool, home: Entered, seen: set<Dir>)
    ensures Real(fs, follow, skip, Trace([], [], [], seen), home)
  {
  }

  lemma {:induction false} FromReal(fs: FS, follow: bool, skip: Text -> bool, d: Dir, path: Text, i: nat, seen: set<Dir>)
    requires ValidFS(fs) && d in fs.entries && i <= |fs.entries[d]|
    ensures Real(fs, follow, skip, WalkFrom(fs, follow, skip, d, path, i, seen), Entered(d, path))
    decreases fs.dirs - seen, HeightOf(fs, d), 0, |fs.entries[d]| - i
  {
    hide Real, WalkEntry;
    if i < |fs.entries[d]| {
      EntryReal(fs, follow, skip, d, path, i, seen);
      var first := WalkEntry(fs, follow, skip, d, path, i, seen);
      assert fs.dirs - first.seen <= fs.dirs - seen;
      FromReal(fs, follow, skip, d, path, i + 1, first.seen);
      RealJoin(fs, follow, skip, first, WalkFrom(fs, follow, skip, d, path, i + 1, first.seen), Entered(d, path));
    } else {
      NothingReal(fs, follow, skip, Entered(d, path), seen);
    }
  }

  lemma OneReal(fs: FS, follow: bool, skip: Text -> bool, home: Entered, i: nat, v: Visit, links: seq<Dir>, seen: set<Dir>)
    requires home.dir in fs.entries && i < |fs.entries[home.dir]| && TellsOf(fs.entries[home.dir][i], follow, home.path, v)
    ensures Real(fs, follow, skip, Trace([v], [], links, seen), home)
  {
    hide TellsOf;
    assert Shows(fs, follow, home, v);
  }

  lemma {:induction false} EntryReal(fs: FS, follow: bool, skip: Text -> bool, d: Dir, path: Text, i: nat, seen: set<Dir>)
    requires ValidFS(fs) && d in fs.entries && i < |fs.entries[d]|
    ensures Real(fs, follow, skip, WalkEntry(fs, follow, skip, d, path, i, seen), Entered(d, path))
    decreases fs.dirs - seen, HeightOf(fs, d), 0, |fs.entries[d]| - i, 0
  {
    hide Real, WalkDir, Shows;
    assert EntryOk(fs, d, fs.entries[d][i]);
    var home, p := Entered(d, path), Join(path, fs.entries[d][i].name);
    NothingReal(fs, follow, skip, home, seen);
    match fs.entries[d][i]
    case File(_) => OneReal(fs, follow, skip, home, i, Visit(p, false), [], seen);
    case LinkFile(_) => if follow { OneReal(fs, follow, skip, home, i, Visit(p, false), [], seen); }
    case Sub(_, sub) => {
      OneReal(fs, follow, skip, home, i, Visit(p, true), [], seen);
      if !skip(p) {
        DirReal(fs, follow, skip, sub, p, seen);
        assert LeadsBy(fs.entries[d][i], follow, home, Entered(sub, p));
        RealFrom(fs, follow, skip, WalkDir(fs, follow, skip, sub, p, seen), home, Entered(sub, p));
        RealJoin(fs, follow, skip, Trace([Visit(p, true)], [], [], seen), WalkDir(fs, follow, skip, sub, p, seen), home);
      } else {
        RealJoin(fs, follow, skip, Trace([Visit(p, true)], [], [], seen), Trace([], [], [], seen), home);
      }
    }
    case LinkDir(_, to) => {
      if follow && to !in seen {
        assert to in fs.dirs - seen && fs.dirs - (seen + {to}) < fs.dirs - seen;
        var first := Trace([Visit(p, true)], [], [to], seen + {to});
        OneReal(fs, follow, skip, home, i, Visit(p, true), [to], seen + {to});
        if !skip(p) {
          DirReal(fs, follow, skip, to, p, seen + {to});
          assert LeadsBy(fs.entries[d][i], follow, home, Entered(to, p));
          RealFrom(fs, follow, skip, WalkDir(fs, follow, skip, to, p, seen + {to}), home, Entered(to, p));
          RealJoin(fs, follow, skip, first, WalkDir(fs, follow, skip, to, p, seen + {to}), home);
        } else {
          NothingReal(fs, follow, skip, home, seen + {to});
          RealJoin(fs, follow, skip, first, Trace([], [], [], seen + {to}), home);
        }
      }
    }
    case _ =>
  }

  /** All a walk reports is an entry of a directory it entered, under that directory's
      path; and it entered none but by a way from the root, step by step, into real
      directories or with `follow` through links, and into none that is to be skipped. */
  lemma NothingMadeUp(fs: FS, follow: bool, skip: Text -> bool, root: Dir)
    requires ValidFS(fs)
    ensures var t := WalkRoot(fs, follow, skip, root);
      && (forall v :: v in t.visits ==> exists o :: o in t.entered && Shows(fs, follow, o, v))
      && (forall o :: o in t.entered ==> WayFrom(fs, follow, skip, Entered(root, []), o))
  {
    hide Shows, WayFrom;
    var seen := if follow then {root} else {};
    DirReal(fs, follow, skip, root, [], seen);
    var t, home := WalkRoot(fs, follow, skip, root), Entered(root, []);
    forall v | v in t.visits ensures exists o :: o in t.entered && Shows(fs, follow, o, v) {
      assert Shown(fs, follow, t, home, v);
      assert t.visits != [];
    }
  }

  // ---- nothing is reported twice ----

  /** The names in a directory are different, and no name has a slash in it. */
  ghost predicate ProperNames(fs: FS) {
    && (forall d, i :: d in fs.entries && 0 <= i < |fs.entries[d]| ==> SLASH !in fs.entries[d][i].name)
    && (forall d, i, j :: d in fs.entries && 0 <= i < j < |fs.entries[d]| ==> fs.entries[d][i].name != fs.entries[d][j].name)
  }

  predicate AtOrBelow(p: Text, q: Text) {
    q == p || p + [SLASH] <= q
  }

  lemma BelowJoin(p: Text, name: Text, q: Text)
    requires p != [] && name != [] && AtOrBelow(Join(p, name), q)
    ensures AtOrBelow(p, q) && q != p
  {
    var long := p + [SLASH] + name;
    assert long <= q by { if q != long { assert long == (long + [SLASH])[..|long|] == q[..|long|]; } }
    assert p + [SLASH] == long[..|p| + 1] == q[..|p| + 1];
  }

  /** Nothing is below two entries of one directory. */
  lemma NamesApart(path: Text, a: Text, b: Text, q: Text)
    requires SLASH !in a && SLASH !in b && AtOrBelow(Join(path, a), q) && AtOrBelow(Join(path, b), q)
    ensures a == b
  {
    var o := if path == [] then 0 else |path| + 1;
    NameAt(path, a, q);
    NameAt(path, b, q);
    var u := q[o..];
    PrefixHasNone(u, a);
    PrefixHasNone(u, b);
    assert |a| == |b|;
  }

  lemma PrefixHasNone(u: Text, a: Text)
    requires a <= u && SLASH !in a
    ensures forall k :: 0 <= k < |a| ==> u[k] != SLASH
  {
    assert forall k :: 0 <= k < |a| ==> u[k] == a[k] && a[k] in a;
  }

  lemma NameAt(path: Text, a: Text, q: Text)
    requires AtOrBelow(Join(path, a), q)
    ensures var o := if path == [] then 0 else |path| + 1;
      o + |a| <= |q| && q[o..][..|a|] == a && (o + |a| < |q| ==> q[o..][|a|] == SLASH)
  {
    var o, p := if path == [] then 0 else |path| + 1, Join(path, a);
    assert p[o..] == a && |p| == o + |a|;
    assert q[..|p|] == p by { if q != p { assert q[..|p|] == (p + [SLASH])[..|p|]; } }
    assert q[o..][..|a|] == q[..|p|][o..];
    if q != p { assert q[|p|] == (p + [SLASH])[|p|]; }
  }

  /** All visits are at or below entries from the `i`-th on. */
  ghost predicate BelowFrom(fs: FS, d: Dir, path: Text, i: nat, t: Trace)
    requires d in fs.entries
  {
    forall v :: v in t.visits ==> BelowOneOf(fs, d, path, i, v)
  }

  ghost predicate BelowOneOf(fs: FS, d: Dir, path: Text, i: nat, v: Visit)
    requires d in fs.entries
  {
    exists j :: i <= j < |fs.entries[d]| && AtOrBelow(Join(path, fs.entries[d][j].name), v.path)
  }

  ghost predicate OncePath(t: Trace) {
    forall i, j :: 0 <= i < j < |t.visits| ==> t.visits[i].path != t.visits[j].path
  }

  lemma OnceJoin(a: Trace, b: Trace)
    requires OncePath(a) && OncePath(b)
    requires forall v, w :: v in a.visits && w in b.visits ==> v.path != w.path
    ensures OncePath(Then(a, b))
  {
    var s := a.visits + b.visits;
    forall i, j | 0 <= i < j < |s| ensures s[i].path != s[j].path {
      if i < |a.visits| <= j { assert s[i] in a.visits && s[j] in b.visits; }
    }
  }

  ghost predicate OnceDir(fs: FS, d: Dir, path: Text, t: Trace) {
    OncePath(t) && if d in fs.entries then BelowFrom(fs, d, path, 0, t) else t.visits == []
  }

  ghost predicate OnceEntry(p: Text, t: Trace) {
    OncePath(t) && forall v :: v in t.visits ==> AtOrBelow(p, v.path)
  }

  lemma {:induction false} DirOnce(fs: FS, follow: bool, skip: Text -> bool, d: Dir, path: Text, seen: set<Dir>)
    requires ValidFS(fs) && ProperNames(fs)
    ensures OnceDir(fs, d, path, WalkDir(fs, follow, skip, d, path, seen))
    decreases fs.dirs - seen, HeightOf(fs, d), 1, 0
  {
    hide WalkFrom;
    if d in fs.entries {
      FromOnce(fs, follow, skip, d, path, 0, seen);
      var t := WalkFrom(fs, follow, skip, d, path, 0, seen);
      assert [] + t.visits == t.visits;
    }
  }

  lemma {:induction false} FromOnce(fs: FS, follow: bool, skip: Text -> bool, d: Dir, path: Text, i: nat, seen: set<Dir>)
    requires ValidFS(fs) && ProperNames(fs) && d in fs.entries && i <= |fs.entries[d]|
    ensures var t := WalkFrom(fs, follow, skip, d, path, i, seen); OncePath(t) && BelowFrom(fs, d, path, i, t)
    decreases fs.dirs - seen, HeightOf(fs, d), 0, |fs.entries[d]| - i
  {
    hide WalkEntry, OncePath, ProperNames, AtOrBelow;
    if i < |fs.entries[d]| {
      EntryOnce(fs, follow, skip, d, path, i, seen);
      var first := WalkEntry(fs, follow, skip, d, path, i, seen);
      assert fs.dirs - first.seen <= fs.dirs - seen;
      FromOnce(fs, follow, skip, d, path, i + 1, first.seen);
      EntryThenRest(fs, d, path, i, first, WalkFrom(fs, follow, skip, d, path, i + 1, first.seen));
    } else {
      assert OncePath(WalkFrom(fs, follow, skip, d, path, i, seen)) by { NothingOnce(seen); }
    }
  }

  lemma NothingOnce(seen: set<Dir>)
    ensures OncePath(Trace([], [], [], seen))
  {
  }

  lemma EntryThenRest(fs: FS, d: Dir, path: Text, i: nat, a: Trace, b: Trace)
    requires ProperNames(fs) && d in fs.entries && i < |fs.entries[d]|
    requires OnceEntry(Join(path, fs.entries[d][i].name), a) && OncePath(b) && BelowFrom(fs, d, path, i + 1, b)
    ensures OncePath(Then(a, b)) && BelowFrom(fs, d, path, i, Then(a, b))
  {
    hide OncePath, AtOrBelow;
    var es := fs.entries[d];
    forall v, w | v in a.visits && w in b.visits ensures v.path != w.path {
      assert BelowOneOf(fs, d, path, i + 1, w);
      var j :| i + 1 <= j < |es| && AtOrBelow(Join(path, es[j].name), w.path);
      if AtOrBelow(Join(path, es[i].name), w.path) { NamesApart(path, es[i].name, es[j].name, w.path); }
    }
    OnceJoin(a, b);
    forall v | v in Then(a, b).visits ensures BelowOneOf(fs, d, path, i, v) {
      assert v in b.visits ==> BelowOneOf(fs, d, path, i + 1, v);
    }
  }

  /** A directory's own visit, and those below it. */
  lemma HeadThenBelow(fs: FS, d: Dir, p: Text, head: Trace, t: Trace)
    requires ValidFS(fs) && p != [] && head.visits == [Visit(p, true)] && OnceDir(fs, d, p, t)
    ensures OnceEntry(p, Then(head, t))
  {
    hide OncePath, AtOrBelow;
    forall v | v in t.visits ensures AtOrBelow(p, v.path) && v.path != p {
      assert BelowOneOf(fs, d, p, 0, v);
      var j :| 0 <= j < |fs.entries[d]| && AtOrBelow(Join(p, fs.entries[d][j].name), v.path);
      assert EntryOk(fs, d, fs.entries[d][j]);
      BelowJoin(p, fs.entries[d][j].name, v.path);
    }
    OneOnce(head, p);
    OnceJoin(head, t);
  }

  lemma OneOnce(t: Trace, p: Text)
    requires t.visits == [] || (|t.visits| == 1 && t.visits[0].path == p)
    ensures OnceEntry(p, t)
  {
  }

  lemma {:induction false} EntryOnce(fs: FS, follow: bool, skip: Text -> bool, d: Dir, path: Text, i: nat, seen: set<Dir>)
    requires ValidFS(fs) && ProperNames(fs) && d in fs.entries && i < |fs.entries[d]|
    ensures OnceEntry(Join(path, fs.entries[d][i].name), WalkEntry(fs, follow, skip, d, path, i, seen))
    decreases fs.dirs - seen, HeightOf(fs, d), 0, |fs.entries[d]| - i, 0
  {
    hide WalkDir, OnceEntry, OnceDir, ProperNames;
    assert EntryOk(fs, d, fs.entries[d][i]);
    var p, t := Join(path, fs.entries[d][i].name), WalkEntry(fs, follow, skip, d, path, i, seen);
    assert p != [];
    match fs.entries[d][i]
    case Sub(_, sub) => {
      var head := Trace([Visit(p, true)], [], [], seen);
      if !skip(p) {
        DirOnce(fs, follow, skip, sub, p, seen);
        HeadThenBelow(fs, sub, p, head, WalkDir(fs, follow, skip, sub, p, seen));
      } else { OneOnce(t, p); }
    }
    case LinkDir(_, to) => {
      if follow && to !in seen && !skip(p) {
        assert to in fs.dirs - seen && fs.dirs - (seen + {to}) < fs.dirs - seen;
        var head := Trace([Visit(p, true)], [], [to], seen + {to});
        DirOnce(fs, follow, skip, to, p, seen + {to});
        HeadThenBelow(fs, to, p, head, WalkDir(fs, follow, skip, to, p, seen + {to}));
      } else { OneOnce(t, p); }
    }
    case _ => OneOnce(t, p);
  }

  /** No path is reported twice, whatever links there are, nor listed twice. */
  lemma NothingTwice(fs: FS, follow: bool, skip: Text -> bool, ignored: (Text, bool) -> bool, root: Dir)
    requires ValidFS(fs) && ProperNames(fs)
    ensures var t := WalkRoot(fs, follow, skip, root); OncePath(t) && NoTwice(Filtered(t.visits, ignored))
  {
    DirOnce(fs, follow, skip, root, [], if follow then {root} else {});
    ListedOnce(WalkRoot(fs, follow, skip, root).visits, ignored);
  }

  /** What is listed: the files that are neither ignored nor cookies. */
  predicate IsListed(visits: seq<Visit>, ignored: (Text, bool) -> bool, p: Text) {
    exists k :: 0 <= k < |visits| && visits[k] == Visit(p, false) && !ignored(p, false) && !IsCookie(p)
  }

  lemma {:induction false} ListedIs(visits: seq<Visit>, ignored: (Text, bool) -> bool)
    ensures forall p :: p in Filtered(visits, ignored) <==> IsListed(visits, ignored, p)
  {
    hide IsCookie;
    if |visits| > 0 {
      var n := |visits| - 1;
      var before := visits[..n];
      ListedIs(before, ignored);
      forall p ensures IsListed(visits, ignored, p) <==> IsListed(before, ignored, p) || IsListed([visits[n]], ignored, p) {
        ListedMore(before, visits[n], ignored, p);
        assert before + [visits[n]] == visits;
      }
      LastListed(visits[n], ignored);
    }
  }

  lemma ListedMore(before: seq<Visit>, v: Visit, ignored: (Text, bool) -> bool, p: Text)
    ensures IsListed(before + [v], ignored, p) <==> IsListed(before, ignored, p) || IsListed([v], ignored, p)
  {
    hide IsCookie;
    var all := before + [v];
    assert all[|before|] == v && [v][0] == v;
    assert forall k :: 0 <= k < |before| ==> all[k] == before[k];
  }

  lemma LastListed(v: Visit, ignored: (Text, bool) -> bool)
    ensures forall p :: IsListed([v], ignored, p) <==> Keep(ignored, v) && p == v.path
  {
    hide IsCookie;
    assert [v][0] == v;
    forall p ensures IsListed([v], ignored, p) <==> Keep(ignored, v) && p == v.path {
      assert IsListed([v], ignored, p) <==> v == Visit(p, false) && !ignored(p, false) && !IsCookie(p);
    }
  }

  lemma {:induction false} ListedOnce(visits: seq<Visit>, ignored: (Text, bool) -> bool)
    requires OncePath(Trace(visits, [], [], {}))
    ensures NoTwice(Filtered(visits, ignored))
  {
    hide IsCookie, Keep;
    if |visits| > 0 {
      var n := |visits| - 1;
      var before := visits[..n];
      assert OncePath(Trace(before, [], [], {}));
      ListedOnce(before, ignored);
      ListedIs(before, ignored);
      var list := Filtered(before, ignored);
      forall i | 0 <= i < |list| ensures list[i] != visits[n].path {
        assert list[i] in list && IsListed(before, ignored, list[i]);
        var k :| 0 <= k < n && before[k] == Visit(list[i], false);
        assert Trace(visits, [], [], {}).visits[k].path != Trace(visits, [], [], {}).visits[n].path;
      }
    }
  }
}
