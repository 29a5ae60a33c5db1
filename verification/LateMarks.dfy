/** Runs that show what is asked of a restart to be needed. In one, a file is missing when
    the tree is walked and back when reconciling marks it deleted, which overwrites the
    mark the watcher has made. In the other, a directory is removed before the engine is
    open: nothing is stored yet, so nothing below it is marked, and the shards found later
    are taken to be right about it. */
module LateMarks {
  import opened Prelude
  import opened Bytes
  import opened EngineSpec
  import opened Rebuild
  import opened Engine
  import opened Changes
  import opened Recovery
  import opened Healing
  import opened RecoveryRuns
  import T = TornReads

  function Name(): Bytes { T.Name() }

  function Dir(): Bytes { [97] }

  function Empty(): Disk { map[] }

  /** The engine starting again over the shard of the first build. */
  function Again(disk: Disk, owed: set<Bytes>, dirty: Dirty, watch: Watch, op: Opening): State {
    State(disk, owed, T.Files(1), T.First(), Up([], 0, dirty, [], watch, op, Idle))
  }

  function Done(disk: Disk, dirty: Dirty): State {
    State(disk, {}, T.Files(1), T.First(), Up([T.Old()], 1, dirty, [], Quiet, Open, Idle))
  }

  function Found(listed: Disk, todo: Dirty, sweeping: bool): Opening { Loaded(listed, T.First(), [T.Old()], todo, sweeping) }

  lemma Displays()
    ensures Put(T.DiskAt(0), Name(), None) == Empty() && Put(Empty(), Name(), Some(DiskFile(1, 1, [121]))) == T.DiskAt(1)
    ensures Name() in T.DiskAt(0) && Name() in T.DiskAt(1) && Name() !in Empty()
    ensures T.DiskAt(0).Keys == T.DiskAt(1).Keys == {Name()} && Empty().Keys == {} && {} + {Name()} == {Name()} && {Name()} - {Name()} == {}
    ensures Empty()[Name() := T.DiskAt(0)[Name()]] == T.DiskAt(0)
    ensures T.Files(1) != map[]
  {
    assert 0 in T.Files(1);
  }

  lemma FoundOld()
    ensures Opened([0], T.Files(1), {}) == [T.Old()] && AllRows([T.Old()]) == [T.RowAt(0)]
    ensures Reconciled([T.RowAt(0)], T.DiskAt(0), map[]) && Reconciled([T.RowAt(0)], Empty(), map[Name() := true])
  {
    hide Reconciled, Opened, AllRows, T.RowAt, T.DiskAt;
    OpensOld();
    OneShard(T.Old());
    OldReconciled();
  }

  lemma OpensOld()
    ensures Opened([0], T.Files(1), {}) == [T.Old()]
  {
    hide T.RowAt;
    assert [0][..0] == [];
    assert Opened([], T.Files(1), {}) == [];
  }

  lemma OldReconciled()
    ensures Reconciled([T.RowAt(0)], T.DiskAt(0), map[]) && Reconciled([T.RowAt(0)], Empty(), map[Name() := true])
  {
    hide CountPath;
    OneRowCount(T.RowAt(0), Name());
    assert T.RowAt(0) in [T.RowAt(0)];
  }

  // ---- a file that was missing from the listing ----

  /** The file is gone when the tree is walked, back and marked a little later, and then
      marked deleted, since the walk did not find it. */
  function Missing(k: nat): State {
    if k <= 7 then T.StateNo(k)
    else if k == 8 then State(T.DiskAt(0), {}, T.Files(1), T.First(), Down)
    else if k == 9 then State(Empty(), {}, T.Files(1), T.First(), Down)
    else if k == 10 then Again(Empty(), {}, map[], Quiet, Listing(Empty(), {}))
    else if k == 11 then Again(Empty(), {}, map[], Quiet, Listing(Empty(), {Name()}))
    else if k == 12 then Again(T.DiskAt(1), {Name()}, map[], Quiet, Listing(Empty(), {Name()}))
    else if k == 13 then Again(T.DiskAt(1), {}, map[Name() := false], Quiet, Listing(Empty(), {Name()}))
    else if k == 14 then Again(T.DiskAt(1), {}, map[Name() := false], Quiet, Found(Empty(), map[Name() := true], true))
    else if k == 15 then Again(T.DiskAt(1), {}, map[Name() := false], Quiet, Found(Empty(), map[Name() := true], false))
    else if k == 16 then Again(T.DiskAt(1), {}, map[Name() := true], Quiet, Found(Empty(), map[], false))
    else Done(T.DiskAt(1), map[Name() := true])
  }

  function MissingEvent(k: nat): Event {
    if k < 7 then T.EventNo(k)
    else if k == 7 then Crash
    else if k == 8 then Change(Name(), None)
    else if k == 9 then Boot
    else if k == 10 then List(Name())
    else if k == 11 then Change(Name(), Some(DiskFile(1, 1, [121])))
    else if k == 12 then Mark(Name())
    else if k == 13 then Load({}, map[Name() := true])
    else if k == 14 then SweepDone
    else if k == 15 then MarkStale(Name())
    else Install
  }

  lemma MissingWorld()
    ensures WorldStep(Missing(7), MissingEvent(7), Missing(8)) && WorldStep(Missing(8), MissingEvent(8), Missing(9))
    ensures WorldStep(Missing(11), MissingEvent(11), Missing(12)) && WorldStep(Missing(12), MissingEvent(12), Missing(13))
  {
    hide T.DiskAt, T.Old, T.Files, T.First, Put, Empty, T.Name;
    Displays();
    var none: Dirty := map[];
    assert none[Name() := false] == map[Name() := false];
  }

  lemma MissingLists()
    ensures OpenerStep(Missing(9), MissingEvent(9), Missing(10)) && OpenerStep(Missing(10), MissingEvent(10), Missing(11))
  {
    hide T.DiskAt, T.Old, T.Files, T.First, T.Name;
    Displays();
  }

  lemma MissingLoads()
    ensures OpenerStep(Missing(13), MissingEvent(13), Missing(14)) && OpenerStep(Missing(14), MissingEvent(14), Missing(15))
  {
    hide T.DiskAt, T.Old, T.Files, T.Name, T.RowAt, Empty, AllRows, Reconciled, Opened;
    Displays();
    FoundOld();
  }

  lemma MissingMarks()
    ensures OpenerStep(Missing(15), MissingEvent(15), Missing(16)) && OpenerStep(Missing(16), MissingEvent(16), Missing(17))
  {
    hide T.DiskAt, T.Old, T.Files, T.Name, Empty;
    var todo, dirty: Dirty := map[Name() := true], map[Name() := false];
    assert todo - {Name()} == map[] && dirty[Name() := true] == todo;
  }

  lemma FirstSteps(k: nat)
    requires k < 7
    ensures Step(T.StateNo(k), T.EventNo(k), T.StateNo(k + 1))
  {
    hide T.StateNo, T.EventNo, Step;
    T.EachStep(k);
  }

  lemma MissingSteps(k: nat)
    requires k < 17
    ensures Step(Missing(k), MissingEvent(k), Missing(k + 1))
  {
    hide T.StateNo, T.EventNo, WorldStep, OpenerStep, TickerStep, Again, Done, T.DiskAt, T.Files;
    if k < 7 { FirstSteps(k); }
    MissingWorld();
    MissingLists();
    MissingLoads();
    MissingMarks();
  }

  lemma OnlyTheMark(k: nat)
    requires k < 17
    ensures InTurn(Missing(k), MissingEvent(k))
    ensures k >= 8 ==> Reliable(Missing(k), MissingEvent(k)) && (Careful(Missing(k), MissingEvent(k)) <==> k != 15)
  {
    hide InTurn, Reliable, Careful, Missing;
    MostAreFree(Missing(k), MissingEvent(k));
    MissingHarm();
    MissingInstalls();
  }

  lemma MissingHarm()
    ensures !Careful(Missing(15), MissingEvent(15)) && Careful(Missing(16), MissingEvent(16))
  {
    hide T.Old, T.Files, T.First;
  }

  lemma MissingInstalls()
    ensures Reliable(Missing(16), MissingEvent(16))
  {
    hide T.Files, T.First, Unique, T.RowAt, T.DiskAt, Agrees, SameStat, Opened, AllRows;
    FoundOld();
    OldUnique();
    OldPath();
  }

  lemma OldUnique()
    ensures Unique([T.RowAt(0)])
  {
    hide T.RowAt, CountPath;
    forall p ensures CountPath([T.RowAt(0)], p) <= 1 { OneRowCount(T.RowAt(0), p); }
  }

  lemma MissingWrong()
    ensures WrongAbout(Missing(17), EveryLine(), Name())
  {
    hide T.Old, T.Files, T.First, AllRows, DiskScan, PruningOk, EveryLine;
    T.OneLine(1);
    EveryLineReports(T.DiskAt(1), Name());
  }

  lemma Starts()
    ensures T.StateNo(0).files == map[] && T.StateNo(0).manifest == None && T.StateNo(0).mem == Down
  {
    T.Ends();
  }

  /** Nothing happens but a write, and its mark, between the walk and the marking of what
      is stale: the file is marked deleted, and no search finds it. */
  lemma MarkOverwritten() returns (ss: seq<State>, es: seq<Event>, j: nat, q: Query, p: Bytes)
    ensures Run(ss, es) && InTurnBetween(ss, es, 0, |es|)
    ensures j <= |es| && ss[j].mem.Down?
    ensures forall k :: j <= k < |es| ==> Reliable(ss[k], es[k]) && (Careful(ss[k], es[k]) <==> !es[k].MarkStale?)
    ensures WrongAbout(ss[|es|], q, p)
  {
    hide Step, Missing, MissingEvent, InTurn, Reliable, Careful, WrongAbout, EveryLine, T.StateNo;
    ss, es := seq(18, k requires 0 <= k < 18 => Missing(k)), seq(17, k requires 0 <= k < 17 => MissingEvent(k));
    j, q, p := 8, EveryLine(), Name();
    forall k | 0 <= k < |es| ensures Step(ss[k], es[k], ss[k + 1]) { MissingSteps(k); }
    Starts();
    MissingEnds();
    MissingWrong();
    forall k | 0 <= k < |es|
      ensures InTurn(ss[k], es[k]) && (k >= 8 ==> Reliable(ss[k], es[k]) && (Careful(ss[k], es[k]) <==> !es[k].MarkStale?))
    {
      OnlyTheMark(k);
      if k >= 8 { MarksAt(k); }
    }
  }

  lemma MarksAt(k: nat)
    requires 8 <= k < 17
    ensures MissingEvent(k).MarkStale? <==> k == 15
  {
  }

  lemma MissingEnds()
    ensures Missing(0) == T.StateNo(0) && Missing(8).mem == Down
  {
    hide T.StateNo, T.DiskAt, T.Files, T.First;
  }

  // ---- a directory removed early ----

  /** A directory goes after it was walked; nothing is stored yet, so its removal marks
      nothing below it, and the shards found later are taken to be right. */
  function Early(k: nat): State {
    if k <= 7 then T.StateNo(k)
    else if k == 8 then State(T.DiskAt(0), {}, T.Files(1), T.First(), Down)
    else if k == 9 then Again(T.DiskAt(0), {}, map[], Quiet, Listing(Empty(), {}))
    else if k == 10 then Again(T.DiskAt(0), {}, map[], Quiet, Listing(T.DiskAt(0), {Name()}))
    else if k == 11 then Again(Empty(), {Name()}, map[], Quiet, Listing(T.DiskAt(0), {Name()}))
    else if k == 12 then Again(Empty(), {Name()}, map[Dir() := true], Removing(Dir(), {}), Listing(T.DiskAt(0), {Name()}))
    else if k == 13 then Again(Empty(), {}, map[Dir() := true], Quiet, Listing(T.DiskAt(0), {Name()}))
    else if k == 14 then Again(Empty(), {}, map[Dir() := true], Quiet, Found(T.DiskAt(0), map[], true))
    else if k == 15 then Again(Empty(), {}, map[Dir() := true], Quiet, Found(T.DiskAt(0), map[], false))
    else Done(Empty(), map[Dir() := true])
  }

  function EarlyEvent(k: nat): Event {
    if k < 7 then T.EventNo(k)
    else if k == 7 then Crash
    else if k == 8 then Boot
    else if k == 9 then List(Name())
    else if k == 10 then Change(Name(), None)
    else if k == 11 then Gone(Dir(), {})
    else if k == 12 then MarkBelow
    else if k == 13 then Load({}, map[])
    else if k == 14 then SweepDone
    else Install
  }

  lemma EarlyWorld()
    ensures WorldStep(Early(7), EarlyEvent(7), Early(8)) && WorldStep(Early(10), EarlyEvent(10), Early(11))
  {
    hide T.DiskAt, T.Old, T.Files, T.First, Put, Empty, T.Name;
    Displays();
  }

  lemma EarlyGone()
    ensures WorldStep(Early(11), EarlyEvent(11), Early(12))
  {
    hide T.DiskAt, T.Old, T.Files, T.First;
    NoShardRows();
    var none: Dirty := map[];
    assert none[Dir() := true] == map[Dir() := true];
  }

  lemma EarlyBelow()
    ensures WorldStep(Early(12), EarlyEvent(12), Early(13))
    ensures !Careful(Early(12), EarlyEvent(12))
  {
    hide T.DiskAt, T.Old, T.Files, T.First;
    assert Dir() + [SLASH] <= Name();
    assert Settled(Early(12), Dir()) == {Name()};
    assert AllDeleted({}) == map[];
    var d: Dirty := map[Dir() := true];
    assert d + map[] == d && {Name()} - {Name()} == {};
  }

  lemma EarlyOpens()
    ensures OpenerStep(Early(8), EarlyEvent(8), Early(9)) && OpenerStep(Early(9), EarlyEvent(9), Early(10))
  {
    hide T.DiskAt, T.Old, T.Files, T.First, T.Name;
    Displays();
  }

  lemma EarlyLoads()
    ensures OpenerStep(Early(13), EarlyEvent(13), Early(14))
  {
    hide T.DiskAt, T.Old, T.Files, T.Name, T.RowAt, Empty, AllRows, Reconciled, Opened;
    Displays();
    FoundOld();
  }

  lemma EarlyInstalls()
    ensures OpenerStep(Early(14), EarlyEvent(14), Early(15)) && OpenerStep(Early(15), EarlyEvent(15), Early(16))
  {
    hide T.DiskAt, T.Old, T.Files, T.Name, T.RowAt, Empty;
  }

  lemma EarlySteps(k: nat)
    requires k < 16
    ensures Step(Early(k), EarlyEvent(k), Early(k + 1))
  {
    hide T.StateNo, T.EventNo, WorldStep, OpenerStep, TickerStep, Again, Done, T.DiskAt, T.Files, Careful;
    if k < 7 { FirstSteps(k); }
    EarlyWorld();
    EarlyGone();
    EarlyBelow();
    EarlyOpens();
    EarlyLoads();
    EarlyInstalls();
  }

  lemma OnlyTheRemoval(k: nat)
    requires k < 16
    ensures InTurn(Early(k), EarlyEvent(k))
    ensures k >= 8 ==> Reliable(Early(k), EarlyEvent(k)) && (Careful(Early(k), EarlyEvent(k)) <==> k != 12)
  {
    hide InTurn, Reliable, Careful, Early;
    MostAreFree(Early(k), EarlyEvent(k));
    EarlyInstall();
    EarlyBelow();
  }

  lemma EarlyInstall()
    ensures Harmless(Early(15), EarlyEvent(15))
  {
    hide T.Files, T.First, Unique, T.RowAt, T.DiskAt, Agrees, Opened, AllRows;
    FoundOld();
    OldUnique();
    assert forall r :: !SameStat(r, Empty());
  }

  /** The row of a file that is gone, its directory alone being marked. */
  lemma GoneAnswer()
    ensures Answer([T.RowAt(0)], map[Dir() := true], Empty(), EveryLine(), Name()) == FileLines(EveryLine(), Name(), [120])
    ensures DiskScan(Empty(), EveryLine(), Name()) == []
  {
    hide FileLines, EveryLine, RowsAnswer, RowAnswer, T.RowAt;
    OneRowCount(T.RowAt(0), Name());
    OldPath();
    OneRow([T.RowAt(0)], Empty(), EveryLine(), T.RowAt(0));
    OldAsked();
  }

  lemma OldPath()
    ensures T.RowAt(0).path == Name()
  {
  }

  lemma EarlyWrong()
    ensures WrongAbout(Early(16), EveryLine(), Name())
  {
    hide T.Files, T.First, FileLines, EveryLine, PruningOk, Answer, DiskScan, T.DiskAt, T.RowAt, Empty, AllRows, T.StateNo, Visible;
    T.OneLine(0);
    T.OneLine(1);
    SeenOne();
    EveryLineReports(T.DiskAt(1), Name());
    FoundOld();
    GoneAnswer();
    OldAsked();
  }

  lemma SeenOne()
    ensures Name() in T.DiskAt(1) && T.DiskAt(1)[Name()] == DiskFile(1, 1, T.Text(1))
  {
  }

  lemma OldAsked()
    ensures RowAnswer(Empty(), EveryLine(), T.RowAt(0)) == FileLines(EveryLine(), Name(), [120]) && T.Text(0) == [120]
  {
    hide FileLines, Tris;
  }

  lemma EarlyEnds()
    ensures Early(0) == T.StateNo(0) && Early(8).mem == Down
  {
    hide T.StateNo, T.DiskAt, T.Files, T.First;
  }

  lemma BelowAt12(k: nat)
    requires 8 <= k < 16
    ensures EarlyEvent(k).MarkBelow? <==> k == 12
  {
  }

  /** A directory is removed while the engine opens, and nothing else happens: a search
      goes on reporting lines of a file that was in it. */
  lemma RemovalForgotten() returns (ss: seq<State>, es: seq<Event>, j: nat, q: Query, p: Bytes)
    ensures Run(ss, es) && InTurnBetween(ss, es, 0, |es|)
    ensures j <= |es| && ss[j].mem.Down?
    ensures forall k :: j <= k < |es| ==> Reliable(ss[k], es[k]) && (Careful(ss[k], es[k]) <==> !es[k].MarkBelow?)
    ensures WrongAbout(ss[|es|], q, p)
  {
    hide Step, Early, EarlyEvent, InTurn, Reliable, Careful, WrongAbout, EveryLine, T.StateNo;
    ss, es := seq(17, k requires 0 <= k < 17 => Early(k)), seq(16, k requires 0 <= k < 16 => EarlyEvent(k));
    j, q, p := 8, EveryLine(), Name();
    forall k | 0 <= k < |es| ensures Step(ss[k], es[k], ss[k + 1]) { EarlySteps(k); }
    Starts();
    EarlyEnds();
    EarlyWrong();
    forall k | 0 <= k < |es|
      ensures InTurn(ss[k], es[k]) && (k >= 8 ==> Reliable(ss[k], es[k]) && (Careful(ss[k], es[k]) <==> !es[k].MarkBelow?))
    {
      OnlyTheRemoval(k);
      if k >= 8 { BelowAt12(k); }
    }
  }
}
