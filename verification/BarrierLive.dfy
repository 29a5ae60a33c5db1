/** A call of the read-after-write barrier can always return, but for one accident: from
    every state that a run can come to, the watcher, the consumer and the caller can by
    themselves go on to the call's return, unless its cookie was dropped at a full channel. */
module BarrierLive {
  import opened Prelude
  import opened Barrier
  import opened BarrierRuns

  // ---- going on without the outside ----

  /** Steps of the watcher, of the consumer, and of a caller that does not give up. */
  predicate Own(e: Step) {
    !e.Write? && !e.Delete? && !e.MkDir? && !e.Call? && !e.GiveUp?
  }

  /** The steps lead from one state to another. */
  ghost predicate Ways(s: State, es: seq<Step>, t: State)
    decreases |es|
  {
    if |es| == 0 then s == t
    else Own(es[0]) && exists m :: Next(s, es[0], m) && Ways(m, es[1..], t)
  }

  ghost predicate Goes(s: State, t: State) {
    exists es :: Ways(s, es, t)
  }

  lemma Stays(s: State)
    ensures Goes(s, s)
  {
    assert Ways(s, [], s);
  }

  lemma StepGoes(s: State, e: Step, m: State)
    requires Own(e) && Next(s, e, m)
    ensures Goes(s, m)
  {
    hide Next, Own;
    assert [e][1..] == [];
    assert Ways(m, [], m);
    assert Ways(s, [e], m);
  }

  lemma {:induction false} WaysJoin(s: State, es: seq<Step>, m: State, fs: seq<Step>, t: State)
    requires Ways(s, es, m) && Ways(m, fs, t)
    ensures Ways(s, es + fs, t)
    decreases |es|
  {
    hide Next, Own;
    if |es| == 0 {
      assert es + fs == fs;
    } else {
      var n :| Next(s, es[0], n) && Ways(n, es[1..], m);
      WaysJoin(n, es[1..], m, fs, t);
      assert (es + fs)[1..] == es[1..] + fs;
    }
  }

  lemma GoesOn(s: State, m: State, t: State)
    requires Goes(s, m) && Goes(m, t)
    ensures Goes(s, t)
  {
    hide Ways;
    var es :| Ways(s, es, m);
    var fs :| Ways(m, fs, t);
    WaysJoin(s, es, m, fs, t);
  }

  // ---- what a run keeps ----

  /** Files waiting to be read have been written. */
  ghost predicate FilesWritten(s: State) {
    s.consumer.Working? ==> forall f :: f in s.consumer.files ==> At(s.version, f) > 0
  }

  ghost predicate Good(s: State) {
    Inv(s) && FilesWritten(s)
  }

  lemma VersionsGrow(s: State, e: Step, s': State)
    requires Next(s, e, s')
    ensures forall p :: At(s.version, p) <= At(s'.version, p)
  {
    hide FreshReq, FilesIn, Children;
  }

  lemma ListedAreWritten(s: State, d: Path)
    requires TreeOk(s)
    ensures forall f :: f in FilesIn(s.live, d) ==> At(s.version, f) > 0
  {
  }

  /** Files to read come from listings and go by being read. */
  lemma FilesComeListed(s: State, e: Step, s': State)
    requires Next(s, e, s') && s'.consumer.Working?
    ensures forall f :: f in s'.consumer.files ==>
      (s.consumer.Working? && f in s.consumer.files) || (e.PickDir? && f in FilesIn(s.live, e.d))
  {
    hide FreshReq, FilesIn, Children, At;
  }

  lemma KeepsGood(s: State, e: Step, s': State)
    requires Good(s) && Next(s, e, s')
    ensures Good(s')
  {
    KeepsStep(s, e, s');
    VersionsGrow(s, e, s');
    if s'.consumer.Working? { FilesComeListed(s, e, s'); }
    if e.PickDir? { ListedAreWritten(s, e.d); }
    hide Next, Inv, At, FilesIn;
  }

  lemma {:induction false} WaysKeepGood(s: State, es: seq<Step>, t: State)
    requires Good(s) && Ways(s, es, t)
    ensures Good(t)
    decreases |es|
  {
    hide Good, Next;
    if |es| > 0 {
      var m :| Next(s, es[0], m) && Ways(m, es[1..], t);
      KeepsGood(s, es[0], m);
      WaysKeepGood(m, es[1..], t);
    }
  }

  lemma GoesKeepsGood(s: State, t: State)
    requires Good(s) && Goes(s, t)
    ensures Good(t)
  {
    hide Good, Ways;
    var es :| Ways(s, es, t);
    WaysKeepGood(s, es, t);
  }

  lemma {:induction false} GoodHolds(ss: seq<State>, es: seq<Step>, k: nat)
    requires Run(ss, es) && k < |ss|
    ensures Good(ss[k])
  {
    hide Good, Start, Next;
    if k == 0 { StartsGood(ss[0]); } else {
      GoodHolds(ss, es, k - 1);
      KeepsGood(ss[k - 1], es[k - 1], ss[k - 1 + 1]);
    }
  }

  lemma StartsGood(s: State)
    requires Start(s)
    ensures Good(s)
  {
    hide Inv;
    StartsWell(s);
  }

  // ---- levels of the tree ----

  predicate AllFrom(ps: set<Path>, level: nat) {
    forall p :: p in ps ==> |p| >= level
  }

  function LevelOf(ps: set<Path>, level: nat): set<Path> {
    set p | p in ps && |p| == level
  }

  lemma {:induction false} Deepest(ps: set<Path>) returns (depth: nat)
    ensures forall p :: p in ps ==> |p| <= depth
    decreases |ps|
  {
    if ps == {} { return 0; }
    var p :| p in ps;
    depth := Deepest(ps - {p});
    if depth < |p| { depth := |p|; }
  }

  lemma NoneAtLevel(ps: set<Path>, level: nat)
    requires AllFrom(ps, level) && LevelOf(ps, level) == {}
    ensures AllFrom(ps, level + 1)
  {
    forall p | p in ps ensures |p| >= level + 1 { assert p !in LevelOf(ps, level); }
  }

  /** One path goes and others of a lower level come. */
  lemma LevelShrinks(ps: set<Path>, p: Path, more: set<Path>, level: nat)
    requires AllFrom(ps, level) && p in LevelOf(ps, level) && AllFrom(more, level + 1)
    ensures AllFrom(ps - {p} + more, level) && LevelOf(ps - {p} + more, level) < LevelOf(ps, level)
    ensures |LevelOf(ps - {p} + more, level)| < |LevelOf(ps, level)|
  {
    var next := LevelOf(ps - {p} + more, level);
    assert next <= LevelOf(ps, level) - {p};
    SmallerSet(next, LevelOf(ps, level) - {p});
  }

  lemma SmallerSet<T>(a: set<T>, b: set<T>)
    requires a <= b
    ensures |a| <= |b|
  {
    var more := b - a;
    assert b == a + more && a !! more;
  }

  lemma ChildrenAreDeeper(dirs: set<Path>, d: Path)
    ensures AllFrom(Children(dirs, d), |d| + 1)
  {
  }

  // ---- the consumer comes to rest ----

  /** Only the consumer went on. */
  ghost predicate ConsumerWent(s: State, t: State) {
    t == s.(consumer := t.consumer, applied := t.applied, closed := t.closed) && s.closed <= t.closed
  }

  /** Nothing read and not stored, and the same batch still at work. */
  ghost predicate StillAt(s: State, t: State) {
    && s.consumer.Working? && t.consumer.Working? && t.consumer.done == s.consumer.done
    && ConsumerWent(s, t) && t.closed == s.closed
  }

  lemma StoresRead(s: State) returns (t: State)
    requires s.consumer.Working?
    ensures Goes(s, t) && StillAt(s, t) && t.consumer == s.consumer.(read := None)
  {
    if s.consumer.read == None { Stays(s); return s; }
    t := s.(consumer := s.consumer.(read := None), applied := s.applied[s.consumer.read.value.0 := s.consumer.read.value.1]);
    assert Next(s, Step.Store, t);
    StepGoes(s, Step.Store, t);
  }

  /** One path that is no directory is read and stored. */
  lemma ReadsOne(s: State, p: Path) returns (t: State)
    requires s.consumer.Working? && s.consumer.read == None && p in s.consumer.todo + s.consumer.files && p !in s.dirs
    ensures Goes(s, t) && StillAt(s, t)
    ensures t.consumer == s.consumer.(todo := s.consumer.todo - {p}, files := s.consumer.files - {p})
  {
    var m := s.(consumer := s.consumer.(todo := s.consumer.todo - {p}, files := s.consumer.files - {p}, read := Some((p, At(s.version, p)))));
    assert Next(s, PickFile(p), m);
    StepGoes(s, PickFile(p), m);
    t := StoresRead(m);
    GoesOn(s, m, t);
  }

  lemma {:induction false} ReadsFiles(s: State) returns (t: State)
    requires Good(s) && s.consumer.Working? && s.consumer.read == None
    ensures Goes(s, t) && StillAt(s, t) && t.consumer == s.consumer.(todo := t.consumer.todo, files := {}) && t.consumer.todo <= s.consumer.todo
    decreases |if s.consumer.Working? then s.consumer.files else {}|
  {
    if s.consumer.files == {} { Stays(s); return s; }
    var f :| f in s.consumer.files;
    assert f !in s.dirs by { assert At(s.version, f) > 0; }
    hide Inv, Goes, Ways, Own, Next;
    var m := ReadsOne(s, f);
    GoesKeepsGood(s, m);
    t := ReadsFiles(m);
    GoesOn(s, m, t);
  }

  lemma ListsOne(s: State, d: Path) returns (t: State)
    requires s.consumer.Working? && s.consumer.read == None && d in s.consumer.todo && d in s.dirs
    ensures Goes(s, t) && StillAt(s, t) && t.consumer.read == None
    ensures t.consumer.todo == s.consumer.todo - {d} + Children(s.dirs, d)
  {
    t := s.(consumer := s.consumer.(todo := s.consumer.todo - {d} + Children(s.dirs, d), files := s.consumer.files + FilesIn(s.live, d)));
    assert Next(s, PickDir(d), t);
    StepGoes(s, PickDir(d), t);
  }

  /** Deals with the paths of one level. */
  lemma {:induction false} DoesLevel(s: State, level: nat) returns (t: State)
    requires s.consumer.Working? && s.consumer.read == None && AllFrom(s.consumer.todo, level)
    ensures Goes(s, t) && StillAt(s, t) && t.consumer.read == None && AllFrom(t.consumer.todo, level + 1)
    decreases |LevelOf(if s.consumer.Working? then s.consumer.todo else {}, level)|
  {
    var todo := s.consumer.todo;
    if LevelOf(todo, level) == {} {
      NoneAtLevel(todo, level);
      Stays(s);
      return s;
    }
    var p :| p in LevelOf(todo, level);
    hide Goes, Children, AllFrom, LevelOf;
    var m: State;
    assert p in todo && |p| == level by { InLevel(todo, level, p); }
    if p in s.dirs {
      m := ListsOne(s, p);
      ChildrenAreDeeper(s.dirs, p);
      LevelShrinks(todo, p, Children(s.dirs, p), level);
    } else {
      m := ReadsOne(s, p);
      NoneFrom(level + 1);
      LevelShrinks(todo, p, {}, level);
      assert todo - {p} + {} == todo - {p};
    }
    t := DoesLevel(m, level);
    GoesOn(s, m, t);
  }

  lemma InLevel(ps: set<Path>, level: nat, p: Path)
    ensures p in LevelOf(ps, level) <==> p in ps && |p| == level
  {
  }

  lemma NoneFrom(level: nat)
    ensures AllFrom({}, level)
  {
  }

  /** Level after level, down to below the deepest directory. */
  lemma {:induction false} DoesLevels(s: State, level: nat, depth: nat) returns (t: State)
    requires s.consumer.Working? && s.consumer.read == None && AllFrom(s.consumer.todo, level) && level <= depth + 1
    ensures Goes(s, t) && StillAt(s, t) && t.consumer.read == None && AllFrom(t.consumer.todo, depth + 1)
    decreases depth + 1 - level
  {
    hide Goes, AllFrom;
    if level == depth + 1 { Stays(s); return s; }
    var m := DoesLevel(s, level);
    t := DoesLevels(m, level + 1, depth);
    GoesOn(s, m, t);
  }

  /** Where there are no directories any more, everything is read. */
  lemma {:induction false} DoesRest(s: State) returns (t: State)
    requires s.consumer.Working? && s.consumer.read == None && s.consumer.todo !! s.dirs
    ensures Goes(s, t) && StillAt(s, t) && t.consumer.read == None && t.consumer.todo == {}
    decreases |if s.consumer.Working? then s.consumer.todo else {}|
  {
    hide Goes;
    if s.consumer.todo == {} { Stays(s); return s; }
    var p :| p in s.consumer.todo;
    var m := ReadsOne(s, p);
    t := DoesRest(m);
    GoesOn(s, m, t);
  }

  lemma DeepAreNoDirs(todo: set<Path>, dirs: set<Path>, depth: nat)
    requires AllFrom(todo, depth + 1) && forall d :: d in dirs ==> |d| <= depth
    ensures todo !! dirs
  {
  }

  /** A batch at work is done in the end, and its channel closed. */
  lemma Rests(s: State) returns (t: State)
    requires Good(s)
    ensures Goes(s, t) && ConsumerWent(s, t) && t.consumer == Resting
    ensures s.consumer.Working? && s.consumer.done.Some? ==> s.consumer.done.value in t.closed
  {
    hide Goes, Good, Next;
    if s.consumer.Resting? { Stays(s); return s; }
    var depth := Deepest(s.dirs);
    var a := StoresRead(s);
    assert AllFrom(a.consumer.todo, 0);
    var b := DoesLevels(a, 0, depth);
    GoesOn(s, a, b);
    DeepAreNoDirs(b.consumer.todo, b.dirs, depth);
    var c := DoesRest(b);
    GoesOn(s, b, c);
    GoesKeepsGood(s, c);
    var d := ReadsFiles(c);
    GoesOn(s, c, d);
    t := d.(consumer := Resting, closed := d.closed + match d.consumer.done case None => {} case Some(r) => {r});
    EndsNow(d, t);
    GoesOn(s, d, t);
  }

  lemma EndsNow(s: State, t: State)
    requires EndsBatch(s, t)
    ensures Goes(s, t)
  {
    assert Next(s, EndBatch, t);
    StepGoes(s, EndBatch, t);
  }

  // ---- the batches go out ----

  /** The consumer works off all the batches handed over. */
  lemma {:induction false} EmptiesOut(s: State) returns (t: State)
    requires Good(s)
    ensures Goes(s, t) && t.consumer == Resting && t.out == []
    ensures t == s.(consumer := Resting, applied := t.applied, closed := t.closed, out := []) && s.closed <= t.closed
    ensures forall r: nat :: HasReq(s.out, r) || (s.consumer.Working? && s.consumer.done == Some(r)) ==> r in t.closed
    decreases |s.out|
  {
    hide Goes, Good, Next;
    var a := Rests(s);
    if a.out == [] { return a; }
    var b := a.(out := a.out[1..], consumer := Working(a.out[0].paths, {}, None, a.out[0].done));
    TakesNow(a, b);
    GoesOn(s, a, b);
    GoesKeepsGood(s, b);
    t := EmptiesOut(b);
    GoesOn(s, b, t);
    forall r: nat | HasReq(s.out, r) ensures r in t.closed {
      var i :| 0 <= i < |s.out| && s.out[i].done == Some(r);
      if i > 0 { assert b.out[i - 1] == s.out[i]; }
    }
  }

  lemma TakesNow(s: State, t: State)
    requires Takes(s, t)
    ensures Goes(s, t)
  {
    assert Next(s, Take, t);
    StepGoes(s, Take, t);
  }

  // ---- the loop comes back to its select ----

  /** Registers what a walk has still to do on one level. */
  lemma {:induction false} RegistersLevel(s: State, level: nat) returns (t: State)
    requires s.loop.Registering? && AllFrom(s.loop.toAdd, level) && AllFrom(s.loop.toList, level)
    ensures Goes(s, t) && t.loop.Registering? && t == s.(watched := t.watched, loop := t.loop)
    ensures AllFrom(t.loop.toAdd, level + 1) && AllFrom(t.loop.toList, level + 1)
    decreases if s.loop.Registering? then 2 * |LevelOf(s.loop.toAdd, level)| + |LevelOf(s.loop.toList, level)| else 0
  {
    hide Goes, Children, AllFrom, LevelOf, Next;
    var add, list := s.loop.toAdd, s.loop.toList;
    if LevelOf(add, level) != {} {
      var p :| p in LevelOf(add, level);
      InLevel(add, level, p);
      var m := s.(watched := s.watched + {p}, loop := s.loop.(toAdd := add - {p}, toList := list + {p}));
      AddsNow(s, p, m);
      LevelLoses(add, p, level);
      LevelGains(list, p, level);
      t := RegistersLevel(m, level);
      GoesOn(s, m, t);
    } else if LevelOf(list, level) != {} {
      var p :| p in LevelOf(list, level);
      InLevel(list, level, p);
      var m := s.(loop := s.loop.(toAdd := add + Children(s.dirs, p), toList := list - {p}));
      ListsNow(s, p, m);
      ChildrenAreDeeper(s.dirs, p);
      LevelSame(add, Children(s.dirs, p), level);
      LevelLoses(list, p, level);
      t := RegistersLevel(m, level);
      GoesOn(s, m, t);
    } else {
      NoneAtLevel(add, level);
      NoneAtLevel(list, level);
      Stays(s);
      t := s;
    }
  }

  lemma LevelLoses(ps: set<Path>, p: Path, level: nat)
    requires AllFrom(ps, level) && p in LevelOf(ps, level)
    ensures AllFrom(ps - {p}, level) && |LevelOf(ps - {p}, level)| < |LevelOf(ps, level)|
  {
    assert AllFrom({}, level + 1);
    LevelShrinks(ps, p, {}, level);
    assert ps - {p} + {} == ps - {p};
  }

  lemma LevelGains(ps: set<Path>, p: Path, level: nat)
    requires AllFrom(ps, level) && |p| == level
    ensures AllFrom(ps + {p}, level) && |LevelOf(ps + {p}, level)| <= |LevelOf(ps, level)| + 1
  {
    var more := LevelOf(ps, level) + {p};
    SmallerSet(LevelOf(ps + {p}, level), more);
  }

  lemma LevelSame(ps: set<Path>, more: set<Path>, level: nat)
    requires AllFrom(ps, level) && AllFrom(more, level + 1)
    ensures AllFrom(ps + more, level) && LevelOf(ps + more, level) == LevelOf(ps, level)
  {
  }

  lemma AddsNow(s: State, d: Path, t: State)
    requires Adds(s, d, t)
    ensures Goes(s, t)
  {
    assert Next(s, Add(d), t);
    StepGoes(s, Add(d), t);
  }

  lemma ListsNow(s: State, d: Path, t: State)
    requires Lists(s, d, t)
    ensures Goes(s, t)
  {
    assert Next(s, List(d), t);
    StepGoes(s, List(d), t);
  }

  lemma {:induction false} RegistersLevels(s: State, level: nat, depth: nat) returns (t: State)
    requires s.loop.Registering? && AllFrom(s.loop.toAdd, level) && AllFrom(s.loop.toList, level) && level <= depth + 1
    ensures Goes(s, t) && t.loop.Registering? && t == s.(watched := t.watched, loop := t.loop)
    ensures AllFrom(t.loop.toAdd, depth + 1) && AllFrom(t.loop.toList, depth + 1)
    decreases depth + 1 - level
  {
    hide Goes, AllFrom;
    if level == depth + 1 { Stays(s); return s; }
    var m := RegistersLevel(s, level);
    t := RegistersLevels(m, level + 1, depth);
    GoesOn(s, m, t);
  }

  /** A walk ends, with nothing but directories watched more. */
  lemma RegistersAll(s: State) returns (t: State)
    requires Good(s) && s.loop.Registering?
    ensures Goes(s, t) && t == s.(watched := t.watched, loop := Selecting)
  {
    hide Goes, Good, Next;
    var depth := Deepest(s.dirs);
    assert AllFrom(s.loop.toAdd, 0) && AllFrom(s.loop.toList, 0);
    var a := RegistersLevels(s, 0, depth);
    GoesKeepsGood(s, a);
    WalksInTree(a);
    DeepAreNoDirs(a.loop.toAdd, a.dirs, depth);
    DeepAreNoDirs(a.loop.toList, a.dirs, depth);
    t := a.(loop := Selecting);
    RegisteredNow(a, t);
    GoesOn(s, a, t);
  }

  lemma WalksInTree(s: State)
    requires Good(s) && s.loop.Registering?
    ensures s.loop.toAdd <= s.dirs && s.loop.toList <= s.dirs
  {
    assert s.loop.toAdd <= s.loop.toAdd + s.loop.toList;
    assert s.loop.toList <= s.loop.toAdd + s.loop.toList;
  }

  lemma RegisteredNow(s: State, t: State)
    requires s.loop.Registering? && s.loop.toAdd <= {} && s.loop.toList <= {} && t == s.(loop := Selecting)
    ensures Goes(s, t)
  {
    assert Next(s, Registered, t);
    StepGoes(s, Registered, t);
  }

  /** The loop is at its select again, nothing is handed over, and no batch at work. */
  lemma Selects(s: State) returns (t: State)
    requires Good(s)
    ensures Goes(s, t) && t.loop == Selecting && t.out == [] && t.consumer == Resting && s.closed <= t.closed
    ensures t.queue == s.queue && t.cookies == s.cookies && t.caller == s.caller && t.used == s.used
    ensures forall r: nat :: OnItsWay(s, r) ==> r in t.closed
  {
    hide Goes, Good, Next;
    var a := EmptiesOut(s);
    GoesKeepsGood(s, a);
    match a.loop
    case Selecting => t := a;
    case Registering(_, _, _) =>
      t := RegistersAll(a);
      GoesOn(s, a, t);
    case Emitting(b) =>
      var m := a.(out := [b], loop := Selecting);
      assert a.out + [b] == [b];
      SendsNow(a, m);
      GoesOn(s, a, m);
      GoesKeepsGood(s, m);
      t := EmptiesOut(m);
      GoesOn(s, m, t);
      forall r: nat | b.done == Some(r) ensures r in t.closed { assert m.out[0].done == Some(r); }
  }

  /** The batch that answers a request is with the consumer, handed over or about to be. */
  ghost predicate OnItsWay(s: State, r: nat) {
    || HasReq(s.out, r) || (s.consumer.Working? && s.consumer.done == Some(r))
    || (s.loop.Emitting? && s.loop.batch.done == Some(r))
  }

  lemma SendsNow(s: State, t: State)
    requires Sends(s, t)
    ensures Goes(s, t)
  {
    assert Next(s, Send, t);
    StepGoes(s, Send, t);
  }

  // ---- the caller returns ----

  /** By own steps the call comes to its return. */
  ghost predicate CanReturn(s: State) {
    exists t, u :: Goes(s, t) && Next(t, Return, u)
  }

  lemma LaterCanReturn(s: State, m: State)
    requires Goes(s, m) && CanReturn(m)
    ensures CanReturn(s)
  {
    hide Goes, Next;
    var t, u :| Goes(m, t) && Next(t, Return, u);
    GoesOn(s, m, t);
  }

  lemma ReturnsNow(s: State)
    requires s.caller.Awaiting? && s.caller.req in s.closed
    ensures CanReturn(s)
  {
    hide Goes;
    Stays(s);
    assert Next(s, Return, s.(caller := Away));
  }

  lemma AwaitingReturns(s: State)
    requires Good(s) && s.caller.Awaiting?
    ensures CanReturn(s)
  {
    hide CanReturn, Goes;
    assert s.caller.req in s.closed || OnItsWay(s, s.caller.req);
    hide Good, Next;
    var t := Selects(s);
    ReturnsNow(t);
    LaterCanReturn(s, t);
  }

  lemma AskingReturns(s: State)
    requires Good(s) && s.caller.Asking?
    ensures CanReturn(s)
  {
    hide CanReturn, Goes, Good, Next;
    var a := Selects(s);
    var c := a.caller;
    var b := a.(loop := Emitting(Batch(a.pending, Some(c.req))), pending := {}, caller := Awaiting(c.floor, c.gone, c.req));
    AcceptsNow(a, b);
    GoesOn(s, a, b);
    GoesKeepsGood(s, b);
    AwaitingReturns(b);
    LaterCanReturn(s, b);
  }

  lemma AcceptsNow(s: State, t: State)
    requires Accepts(s, t)
    ensures Goes(s, t)
  {
    assert Next(s, Accept, t);
    StepGoes(s, Accept, t);
  }

  lemma {:induction false} OneMore(ns: set<nat>) returns (r: nat)
    ensures forall n :: n in ns ==> n < r
    decreases |ns|
  {
    if ns == {} { return 0; }
    var n :| n in ns;
    r := OneMore(ns - {n});
    assert ns == ns - {n} + {n};
    if r <= n { r := n + 1; }
  }

  lemma FreshOne(s: State) returns (r: nat)
    ensures FreshReq(s, r)
  {
    var outs := set i | 0 <= i < |s.out| && s.out[i].done.Some? :: s.out[i].done.value;
    var here := (if s.loop.Emitting? && s.loop.batch.done.Some? then {s.loop.batch.done.value} else {})
      + if s.consumer.Working? && s.consumer.done.Some? then {s.consumer.done.value} else {};
    r := OneMore(s.closed + outs + here);
    assert r !in s.closed + outs + here;
    forall i | 0 <= i < |s.out| ensures s.out[i].done != Some(r) { assert s.out[i].done == Some(r) ==> r in outs; }
  }

  /** With the cookie among those in the channel, the others are passed over. */
  lemma {:induction false} CookieOutReturns(s: State)
    requires Good(s) && s.caller.Waiting? && s.caller.cookie in s.cookies
    ensures CanReturn(s)
    decreases |s.cookies|
  {
    hide CanReturn, Goes, Good, FreshReq;
    var c := s.caller;
    if s.cookies[0] == c.cookie {
      var r := FreshOne(s);
      var b := s.(cookies := s.cookies[1..], caller := Asking(c.floor, c.gone, r));
      assert Next(s, Ask(r), b);
      StepGoes(s, Ask(r), b);
      GoesKeepsGood(s, b);
      AskingReturns(b);
      LaterCanReturn(s, b);
    } else {
      var b := s.(cookies := s.cookies[1..]);
      assert Next(s, GetCookie, b);
      StepGoes(s, GetCookie, b);
      GoesKeepsGood(s, b);
      CookieOutReturns(b);
      LaterCanReturn(s, b);
    }
  }

  /** Passes over the cookies of others, when one's own is not among them. */
  lemma {:induction false} PassesOver(s: State) returns (t: State)
    requires s.caller.Waiting? && s.caller.cookie !in s.cookies
    ensures Goes(s, t) && t == s.(cookies := [])
    decreases |s.cookies|
  {
    hide Goes;
    if s.cookies == [] { Stays(s); return s; }
    assert s.cookies[0] in s.cookies;
    var b := s.(cookies := s.cookies[1..]);
    assert Next(s, GetCookie, b);
    StepGoes(s, GetCookie, b);
    t := PassesOver(b);
    GoesOn(s, b, t);
  }

  lemma Dequeued(s: State) returns (t: State)
    requires s.loop == Selecting && s.queue != [] && s.cookies == []
    ensures Goes(s, t) && t.queue == s.queue[1..] && t.caller == s.caller
    ensures s.queue[0].Cookie? ==> t.cookies == [s.queue[0].id]
    ensures !s.queue[0].Cookie? ==> t.cookies == []
  {
    var rest := s.(queue := s.queue[1..]);
    match s.queue[0] {
      case Changed(p) => t := rest.(pending := s.pending + {p});
      case Created(d) => t := rest.(pending := s.pending + {d}, loop := Registering(d, {d}, {}));
      case Cookie(n) => t := rest.(cookies := s.cookies + [n]);
    }
    assert Next(s, Dequeue, t);
    StepGoes(s, Dequeue, t);
  }

  /** With the cookie in the queue, all before it is taken out. */
  lemma {:induction false} CookieQueuedReturns(s: State)
    requires Good(s) && s.caller.Waiting? && Cookie(s.caller.cookie) in s.queue
    ensures CanReturn(s)
    decreases |s.queue|
  {
    hide CanReturn, Goes, Good, Next;
    if s.caller.cookie in s.cookies { CookieOutReturns(s); return; }
    var a := Selects(s);
    var b := PassesOver(a);
    GoesOn(s, a, b);
    var d := Dequeued(b);
    GoesOn(s, b, d);
    GoesKeepsGood(s, d);
    if s.queue[0] == Cookie(s.caller.cookie) { CookieOutReturns(d); } else {
      QueueRest(s.queue, Cookie(s.caller.cookie));
      CookieQueuedReturns(d);
    }
    LaterCanReturn(s, d);
  }

  lemma QueueRest(q: seq<Ev>, e: Ev)
    requires e in q && q[0] != e
    ensures e in q[1..]
  {
    assert q == [q[0]] + q[1..];
  }

  lemma CalledReturns(s: State)
    requires Good(s) && s.caller.Called?
    ensures CanReturn(s)
  {
    hide CanReturn, Goes, Good;
    var c, n := s.caller, s.used + 1;
    var b := s.(used := n, queue := s.queue + [Cookie(n)], caller := Waiting(c.floor, c.gone, n));
    assert b.queue[|s.queue|] == Cookie(n);
    assert Next(s, WriteCookie, b);
    StepGoes(s, WriteCookie, b);
    GoesKeepsGood(s, b);
    CookieQueuedReturns(b);
    LaterCanReturn(s, b);
  }

  // ---- and only a lost cookie keeps it from returning ----

  /** The cookie waited for is neither in the queue nor in the channel. */
  ghost predicate CookieLost(s: State) {
    s.caller.Waiting? && Cookie(s.caller.cookie) !in s.queue && s.caller.cookie !in s.cookies
  }

  lemma StaysLost(s: State, e: Step, s': State)
    requires CookieLost(s) && Own(e) && Next(s, e, s')
    ensures CookieLost(s') && !e.Return?
  {
    hide At, FreshReq, FilesIn, Children;
    assert s.queue != [] ==> s.queue[0] in s.queue && forall x :: x in s.queue[1..] ==> x in s.queue;
    assert forall x :: x in s.cookies[if s.cookies == [] then 0 else 1..] ==> x in s.cookies;
  }

  lemma {:induction false} WaysStayLost(s: State, es: seq<Step>, t: State)
    requires CookieLost(s) && Ways(s, es, t)
    ensures CookieLost(t)
    decreases |es|
  {
    hide CookieLost, Next, Own;
    if |es| > 0 {
      var m :| Next(s, es[0], m) && Ways(m, es[1..], t);
      StaysLost(s, es[0], m);
      WaysStayLost(m, es[1..], t);
    }
  }

  /** From wherever a run has come to, a call at work can go on to its return, whatever
      the watcher and the consumer are at, exactly if its cookie is not lost. */
  lemma ReturnsUnlessLost(ss: seq<State>, es: seq<Step>, k: nat)
    requires Run(ss, es) && k < |ss| && !ss[k].caller.Away?
    ensures CanReturn(ss[k]) <==> !CookieLost(ss[k])
  {
    hide CanReturn, Good, Run, Goes;
    var s := ss[k];
    GoodHolds(ss, es, k);
    match s.caller
    case Called(_, _) => CalledReturns(s);
    case Waiting(_, _, n) =>
      if n in s.cookies { CookieOutReturns(s); }
      else if Cookie(n) in s.queue { CookieQueuedReturns(s); }
      else { LostCannot(s); }
    case Asking(_, _, _) => AskingReturns(s);
    case Awaiting(_, _, _) => AwaitingReturns(s);
  }

  lemma LostCannot(s: State)
    requires CookieLost(s)
    ensures !CanReturn(s)
  {
    hide CookieLost, Ways;
    if t, u :| Goes(s, t) && Next(t, Return, u) {
      var es :| Ways(s, es, t);
      WaysStayLost(s, es, t);
      StaysLost(t, Return, u);
    }
  }

  lemma JustWritten(s: State, s': State)
    requires Next(s, WriteCookie, s')
    ensures !CookieLost(s')
  {
    assert s'.queue[|s.queue|] == Cookie(s.used + 1);
  }

  lemma NotLostBy(s: State, e: Step, s': State)
    requires Next(s, e, s') && !e.Dequeue? && !e.WriteCookie? && CookieLost(s')
    ensures CookieLost(s)
  {
    hide At, FreshReq, FilesIn, Children;
    assert s.cookies != [] ==> s.cookies == [s.cookies[0]] + s.cookies[1..];
  }

  /** A cookie is lost only to a channel that is full. */
  lemma LostWhenFull(s: State, e: Step, s': State)
    requires Next(s, e, s') && !CookieLost(s) && CookieLost(s')
    ensures e == Dequeue && |s.cookies| >= CAPACITY && s.queue != [] && s.queue[0] == Cookie(s'.caller.cookie)
  {
    hide CookieLost;
    match e
    case Dequeue => LostByDequeue(s, s');
    case WriteCookie => JustWritten(s, s');
    case _ => NotLostBy(s, e, s');
  }

  lemma LostByDequeue(s: State, s': State)
    requires Dequeues(s, s') && !CookieLost(s) && CookieLost(s')
    ensures |s.cookies| >= CAPACITY && s.queue != [] && s.queue[0] == Cookie(s'.caller.cookie)
  {
    assert s.queue == [s.queue[0]] + s.queue[1..];
    assert forall n :: n in s.cookies ==> n in s.cookies + [s'.caller.cookie];
  }
}
