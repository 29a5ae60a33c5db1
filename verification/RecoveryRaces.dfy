/** Runs that show the conditions on recovery to be needed. A tick of the rebuild loop
    before the engine is open leaves a manifest that names a file removed as an orphan, or
    drops the marks that reconciling has just made; and a search that straddles the end of
    a cycle sees neither the shards nor the marks. */
module RecoveryRaces {
  import opened Prelude
  import opened Bytes
  import opened Lines
  import opened EngineSpec
  import opened Rebuild
  import opened EngineSteps
  import opened Engine
  import opened Changes
  import opened Recovery
  import opened Healing
  import opened RecoveryRuns
  import T = TornReads

  // ---- one file, not stored; a cycle that stores it ----

  function Name(): Bytes { T.Name() }

  function OneFile(): Disk { map[Name() := FileNo(120)] }

  function OneRow(): Row { T.RowAt(0) }

  function OneMark(): Dirty { map[Name() := false] }

  function NoCycle(disk: Disk): Cycle { Cycle([], 0, OneMark(), disk, 1, 1) }

  function OnePlan(): Plan { Plan([Shard(0, [OneRow()])], 1, [], OneMark(), OneFile(), {Name()}) }

  lemma EmptyHome(disk: Disk, p: Bytes)
    ensures Home([], p) == -1 && !Deferred(NoCycle(disk), p)
    ensures Reads(NoCycle(disk), p) <==> p == Name()
    ensures AllRead(NoCycle(disk), {Name()})
  {
    var rs := RangesOf([]);
    assert rs == [];
  }

  lemma SmallText()
    ensures Tris([120]) == {} && InlineOf(1, [120]) == Some([120]) && !IsBinary([120]) && Visible(FileNo(120))
  {
    assert Tris([120]) == {};
    assert [120][..1] == [120];
  }

  lemma OneNewRow()
    ensures NewRowsOf(NoCycle(OneFile()), [OneRow()])
  {
    hide Less, CountPath, Home, Tris, IsBinary;
    EmptyHome(OneFile(), Name());
    SmallText();
    forall p ensures CountPath([OneRow()], p) == OneIf(Name() == p) { OneRowCount(OneRow(), p); }
    assert IsNew(NoCycle(OneFile()), Name());
    assert FreshRow(NoCycle(OneFile()), Name()) == OneRow();
  }

  lemma OnePlanIs(disk: Disk)
    ensures CyclePlan(NoCycle(OneFile()), [OneRow()], disk) == OnePlan()
  {
    hide Home, Reads, T.RowAt;
    var c := NoCycle(OneFile());
    EmptyHome(OneFile(), Name());
    assert DeferredSet(c) == {} by { forall p ensures !Deferred(c, p) { EmptyHome(OneFile(), p); } }
    assert Seen(c, disk) == OneFile();
    var t := Shard(0, [OneRow()]);
    assert [] + [t] == [t] && [t][..0] == [];
    assert SortShards([]) == [];
    assert SortShards([t]) == InsertShard([], t) == [t];
    assert Unsorted(c, [OneRow()]) == [t];
  }

  /** The cycle, step by step, whatever the opening is at. */
  function Ticking(op: Opening, k: nat): State {
    var w :=
      if k == 0 then Idle
      else if k == 1 then Taken(OneMark())
      else if k == 2 then Reading(NoCycle(map[]), map[], {})
      else if k == 3 then Reading(NoCycle(map[]), OneFile(), {})
      else if k <= 5 then Reading(NoCycle(OneFile()), OneFile(), {Name()})
      else if k == 6 then Published(OnePlan())
      else Cleaning(OnePlan(), [], []);
    State(OneFile(), {}, map[0 := [OneRow()]], if k <= 6 then None else Some(Manifest(1, [0])),
          Up(if k <= 5 then [] else [Shard(0, [OneRow()])], if k <= 5 then 0 else 1, OneMark(), [], Quiet, op, w))
  }

  function TickEvent(k: nat): Event {
    match k
    case 0 => Tick
    case 1 => Begin(1, 1)
    case 2 => Look(Name())
    case 3 => LookAgain(Name())
    case 4 => WriteShard(Shard(0, [OneRow()]))
    case 5 => Publish([OneRow()])
    case _ => WriteManifest(true)
  }

  lemma TickSteps(op: Opening, k: nat)
    requires k < 7
    ensures TickerStep(Ticking(op, k), TickEvent(k), Ticking(op, k + 1))
  {
    hide TickerStep, Ticking, TickEvent;
    match k
    case 0 => Takes(op);
    case 1 => Begins(op);
    case 2 => Looks(op);
    case 3 => LooksAgain(op);
    case 4 => Writes(op);
    case 5 => Publishes(op);
    case _ => Names1(op);
  }

  lemma Takes(op: Opening)
    ensures TickerStep(Ticking(op, 0), TickEvent(0), Ticking(op, 1))
  {
    hide OneFile, OneRow, OnePlan, Reads;
    assert |OneMark()| == 1;
  }

  lemma Begins(op: Opening)
    ensures TickerStep(Ticking(op, 1), TickEvent(1), Ticking(op, 2))
  {
    hide OneFile, OneRow, OnePlan, OneMark, Reads;
  }

  lemma Looks(op: Opening)
    ensures TickerStep(Ticking(op, 2), TickEvent(2), Ticking(op, 3))
  {
    hide OneRow, OnePlan, Reads;
    EmptyHome(map[], Name());
    var none: Disk := map[];
    assert none[Name() := OneFile()[Name()]] == OneFile();
  }

  lemma LooksAgain(op: Opening)
    ensures TickerStep(Ticking(op, 3), TickEvent(3), Ticking(op, 4))
  {
    hide OneRow, OnePlan, Reads, Mixed, OneMark;
    MixedIs();
    assert Name() in OneFile();
    assert {} + {Name()} == {Name()};
  }

  lemma Writes(op: Opening)
    ensures TickerStep(Ticking(op, 4), TickEvent(4), Ticking(op, 5))
  {
    hide OneRow, OneFile, OnePlan, Reads, NewRowsOf, AllRead, SeqAfter, OneMark;
    EmptyHome(OneFile(), Name());
    FirstNumber();
    OneNewRow();
  }

  lemma Publishes(op: Opening)
    ensures TickerStep(Ticking(op, 5), TickEvent(5), Ticking(op, 6))
  {
    hide OneRow, OneFile, Reads, NewRowsOf, AllRead, CyclePlan, OneMark;
    EmptyHome(OneFile(), Name());
    OneNewRow();
    OnePlanIs(OneFile());
  }

  lemma Names1(op: Opening)
    ensures TickerStep(Ticking(op, 6), TickEvent(6), Ticking(op, 7))
  {
    hide OneRow, OneFile, Reads, OneMark;
    assert Names([Shard(0, [OneRow()])]) == [0];
  }

  lemma FirstNumber()
    ensures SeqAfter(NoCycle(OneFile()), 0) == 0
  {
  }

  lemma MixedIs()
    ensures Mixed(NoCycle(map[]), Name(), OneFile()[Name()], OneFile()[Name()]) == FileNo(120)
    ensures OneFile()[Name()] == FileNo(120) && map[][Name() := FileNo(120)] == OneFile()
  {
  }

  // ---- up to a crash in the first build ----

  function Fresh(disk: Disk, owed: set<Bytes>, files: map<nat, seq<Row>>, dirty: Dirty, op: Opening): State {
    State(disk, owed, files, None, Up([], 0, dirty, [], Quiet, op, Idle))
  }

  /** A first build that crashes with one shard file written and no manifest yet. */
  function Early(k: nat): State {
    if k == 0 then State(OneFile(), {}, map[], None, Down)
    else if k == 1 then Fresh(OneFile(), {}, map[], map[], Listing(map[], {}))
    else if k == 2 then Fresh(OneFile(), {}, map[], map[], Listing(OneFile(), {Name()}))
    else if k == 3 then Fresh(OneFile(), {}, map[], map[], Building(OneFile(), 1, map[], []))
    else if k == 4 then Fresh(OneFile(), {}, map[], map[], Building(OneFile(), 1, map[Name() := Some([120])], []))
    else if k == 5 then Fresh(OneFile(), {}, map[0 := [OneRow()]], map[], Building(OneFile(), 1, map[Name() := Some([120])], [Shard(0, [OneRow()])]))
    else if k == 6 then State(OneFile(), {}, map[0 := [OneRow()]], None, Down)
    else Fresh(OneFile(), {}, map[0 := [OneRow()]], map[], Listing(map[], {}))
  }

  function EarlyEvent(k: nat): Event {
    match k
    case 0 => Boot
    case 1 => List(Name())
    case 2 => StartFirst(1)
    case 3 => ReadFirst(Name())
    case 4 => WriteFirst([OneRow()])
    case 5 => Crash
    case _ => Boot
  }

  lemma Listed()
    ensures var none: Disk := map[]; none[Name() := OneFile()[Name()]] == OneFile()
    ensures Name() in OneFile() && OneFile().Keys == {Name()} && {} + {Name()} == {Name()}
    ensures ContentAt(OneFile(), Name()) == Some([120])
  {
  }

  lemma FirstRows()
    ensures AllRows([]) == [] && [] + [OneRow()] == [OneRow()] && SortedRows([OneRow()])
    ensures FirstRow(OneFile(), 1, Name(), [120]) == OneRow() && OneRow().path == Name()
  {
    SmallText();
  }

  lemma FirstFiles()
    ensures var none: map<nat, seq<Row>> := map[]; none[0 := [OneRow()]] == map[0 := [OneRow()]]
    ensures var none: seq<Shard> := []; |none| == 0 && none + [Shard(0, [OneRow()])] == [Shard(0, [OneRow()])]
  {
  }

  lemma EarlySteps(k: nat)
    requires k < 7
    ensures Step(Early(k), EarlyEvent(k), Early(k + 1))
  {
    hide OneFile, OneRow, AllRows, SortedRows, FirstRow, ContentAt, MarksUnder, NotThere, Settled, Reconciled, AllBuilt;
    Listed();
    if k == 4 { FirstRows(); FirstFiles(); }
    if k == 5 { assert WorldStep(Early(k), EarlyEvent(k), Early(k + 1)); } else { assert OpenerStep(Early(k), EarlyEvent(k), Early(k + 1)); }
  }

  // ---- a named file is removed ----

  /** Orphans are still being removed, with no manifest read. */
  function StillSweeping(): Opening { Loaded(OneFile(), None, [], OneMark(), true) }

  /** After the restart the file is written and marked, the rebuild loop ticks before the
      engine is open, and the orphans are removed by the list that was read before. */
  function Orphaned(k: nat): State {
    if k <= 7 then Early(k)
    else if k == 8 then Fresh(OneFile(), {Name()}, map[0 := [OneRow()]], map[], Listing(map[], {}))
    else if k == 9 then Fresh(OneFile(), {Name()}, map[0 := [OneRow()]], map[], Listing(OneFile(), {Name()}))
    else if k == 10 then Fresh(OneFile(), {Name()}, map[0 := [OneRow()]], map[], StillSweeping())
    else if k <= 18 then Ticking(StillSweeping(), k - 11)
    else Ticking(StillSweeping(), 7).(files := map[])
  }

  function OrphanedEvent(k: nat): Event {
    if k < 7 then EarlyEvent(k)
    else if k == 7 then Change(Name(), Some(FileNo(120)))
    else if k == 8 then List(Name())
    else if k == 9 then Load({}, OneMark())
    else if k == 10 then Mark(Name())
    else if k <= 17 then TickEvent(k - 11)
    else Sweep(0)
  }

  lemma Rewritten()
    ensures Put(OneFile(), Name(), Some(FileNo(120))) == OneFile() && {} + {Name()} == {Name()} && {Name()} - {Name()} == {}
    ensures var none: Dirty := map[]; none[Name() := false] == OneMark()
  {
  }

  lemma NothingFound()
    ensures Reconciled([], OneFile(), OneMark())
    ensures var files: map<nat, seq<Row>> := map[0 := [OneRow()]]; files != map[]
  {
    var files: map<nat, seq<Row>> := map[0 := [OneRow()]];
    assert 0 in files;
  }

  lemma OrphanedSteps(k: nat)
    requires k < 19
    ensures Step(Orphaned(k), OrphanedEvent(k), Orphaned(k + 1))
  {
    hide OneFile, OneRow, OneMark, Early, Ticking, EarlyEvent, TickEvent, Step, WorldStep, OpenerStep, TickerStep, Put, Reconciled;
    if k < 7 {
      EarlySteps(k);
    } else if k < 11 {
      WritesAgain();
      ListsAgain();
      LoadsAgain();
      MarksAgain();
      IsStep(Orphaned(k), OrphanedEvent(k), Orphaned(k + 1));
    } else if k < 18 {
      TickSteps(StillSweeping(), k - 11);
      IsStep(Orphaned(k), OrphanedEvent(k), Orphaned(k + 1));
    } else {
      SweepsNamed();
      IsStep(Orphaned(k), OrphanedEvent(k), Orphaned(k + 1));
    }
  }

  lemma IsStep(s: State, e: Event, s': State)
    ensures WorldStep(s, e, s') || OpenerStep(s, e, s') || TickerStep(s, e, s') ==> Step(s, e, s')
  {
  }

  lemma WritesAgain()
    ensures WorldStep(Orphaned(7), OrphanedEvent(7), Orphaned(8))
  {
    hide OneFile, OneRow, OneMark, Put, Ticking;
    Rewritten();
  }

  lemma ListsAgain()
    ensures OpenerStep(Orphaned(8), OrphanedEvent(8), Orphaned(9))
  {
    hide OneFile, OneRow, OneMark, Ticking, Early;
    Listed();
  }

  lemma LoadsAgain()
    ensures OpenerStep(Orphaned(9), OrphanedEvent(9), Orphaned(10))
  {
    hide OneFile, OneRow, OneMark, Reconciled, AllRows, Ticking, Early;
    Listed();
    NothingFound();
    NoShardRows();
  }

  lemma MarksAgain()
    ensures WorldStep(Orphaned(10), OrphanedEvent(10), Orphaned(11))
  {
    hide OneFile, OneRow, OneMark, OnePlan, NoCycle;
    Rewritten();
  }

  lemma SweepsNamed()
    ensures OpenerStep(Orphaned(18), OrphanedEvent(18), Orphaned(19))
  {
    hide OneFile, OneRow, OneMark, OnePlan, NoCycle;
    assert map[0 := [OneRow()]] - {0} == map[];
  }

  /** A cycle that starts before the engine is open can leave a manifest on disk that
      names a file which is not there: the orphans it is swept with are those of the
      manifest before. */
  lemma NamedFileMissing() returns (ss: seq<State>, es: seq<Event>)
    ensures Run(ss, es) && |ss| > 0
    ensures var s := ss[|ss| - 1]; s.manifest.Some? && exists n :: n in s.manifest.value.names && n !in s.files
    ensures forall k :: 0 <= k < |es| ==> NoneStranded(ss[k], es[k]) && (InTurn(ss[k], es[k]) <==> !es[k].Tick?)
  {
    hide Step, Orphaned, OrphanedEvent, InTurn, NoneStranded;
    ss, es := seq(20, k requires 0 <= k < 20 => Orphaned(k)), seq(19, k requires 0 <= k < 19 => OrphanedEvent(k));
    forall k | 0 <= k < |es| ensures Step(ss[k], es[k], ss[k + 1]) { OrphanedSteps(k); }
    OrphanedEnds();
    forall k | 0 <= k < |es| ensures NoneStranded(ss[k], es[k]) && (InTurn(ss[k], es[k]) <==> !es[k].Tick?) { OrphanedTurn(k); }
    assert 0 in ss[19].manifest.value.names;
  }

  lemma OrphanedEnds()
    ensures Orphaned(0).files == map[] && Orphaned(0).manifest == None && Orphaned(0).mem == Down
    ensures Orphaned(19).files == map[] && Orphaned(19).manifest == Some(Manifest(1, [0]))
  {
    hide OneFile, OneRow, OneMark, OnePlan, NoCycle;
  }

  lemma OrphanedTurn(k: nat)
    requires k < 19
    ensures InTurn(Orphaned(k), OrphanedEvent(k)) <==> !OrphanedEvent(k).Tick?
    ensures NoneStranded(Orphaned(k), OrphanedEvent(k))
  {
    hide OneFile, OneRow, OneMark, OnePlan, NoCycle;
  }

  // ---- marks are dropped ----

  /** Everything stale is marked; the list of shards is not yet in place. */
  function Marked(): Opening { Loaded(OneFile(), None, [], map[], false) }

  /** After the restart the rebuild loop ticks between the marking and the installing of
      the shards found: its own list is thrown away, and the marks with it. */
  function Forgotten(k: nat): State {
    if k <= 7 then Early(k)
    else if k == 8 then Fresh(OneFile(), {}, map[0 := [OneRow()]], map[], Listing(OneFile(), {Name()}))
    else if k == 9 then Fresh(OneFile(), {}, map[0 := [OneRow()]], map[], StillSweeping())
    else if k == 10 then Fresh(OneFile(), {}, map[0 := [OneRow()]], map[], Loaded(OneFile(), None, [], OneMark(), false))
    else if k <= 18 then Ticking(Marked(), k - 11)
    else if k == 19 then Ticking(Marked(), 7).(mem := Up([Shard(0, [OneRow()])], 1, map[], [], Quiet, Marked(), Idle))
    else Ticking(Marked(), 7).(mem := Up([], 0, map[], [], Quiet, Open, Idle))
  }

  function ForgottenEvent(k: nat): Event {
    if k < 7 then EarlyEvent(k)
    else if k == 7 then List(Name())
    else if k == 8 then Load({}, OneMark())
    else if k == 9 then SweepDone
    else if k == 10 then MarkStale(Name())
    else if k <= 17 then TickEvent(k - 11)
    else if k == 18 then Finish
    else Install
  }

  lemma ForgottenSteps(k: nat)
    requires k < 20
    ensures Step(Forgotten(k), ForgottenEvent(k), Forgotten(k + 1))
  {
    hide OneFile, OneRow, OneMark, Early, Ticking, EarlyEvent, TickEvent, Step, WorldStep, OpenerStep, TickerStep, Put, Reconciled;
    if k < 7 {
      EarlySteps(k);
    } else if k < 11 {
      ListsOnce();
      LoadsOnce();
      MarksStale();
      IsStep(Forgotten(k), ForgottenEvent(k), Forgotten(k + 1));
    } else if k < 18 {
      TickSteps(Marked(), k - 11);
      IsStep(Forgotten(k), ForgottenEvent(k), Forgotten(k + 1));
    } else if k == 18 {
      Finishes();
      IsStep(Forgotten(k), ForgottenEvent(k), Forgotten(k + 1));
    } else {
      Installs();
      IsStep(Forgotten(k), ForgottenEvent(k), Forgotten(k + 1));
    }
  }

  lemma ListsOnce()
    ensures OpenerStep(Forgotten(7), ForgottenEvent(7), Forgotten(8))
  {
    hide OneFile, OneRow, OneMark, Ticking;
    Listed();
  }

  lemma LoadsOnce()
    ensures OpenerStep(Forgotten(8), ForgottenEvent(8), Forgotten(9)) && OpenerStep(Forgotten(9), ForgottenEvent(9), Forgotten(10))
  {
    hide OneFile, OneRow, OneMark, Reconciled, AllRows, Ticking, Early;
    Listed();
    NothingFound();
    NoShardRows();
  }

  lemma MarksStale()
    ensures OpenerStep(Forgotten(10), ForgottenEvent(10), Forgotten(11))
  {
    hide OneFile, OneRow, OnePlan, NoCycle;
    Rewritten();
    assert OneMark() - {Name()} == map[];
  }

  lemma Finishes()
    ensures TickerStep(Forgotten(18), ForgottenEvent(18), Forgotten(19))
  {
    hide OneFile, OneRow, NoCycle;
    assert Dropped(OnePlan(), OneMark()) == map[];
    var none: seq<nat> := [];
    assert none + none == none;
  }

  lemma Installs()
    ensures OpenerStep(Forgotten(19), ForgottenEvent(19), Forgotten(20))
  {
    hide OneFile, OneRow, NoCycle, OnePlan, OneMark;
  }

  lemma NoneLostHere(disk: Disk)
    ensures NoneLost(NoCycle(disk))
  {
    forall p ensures !Lost(NoCycle(disk), p) { EmptyHome(disk, p); }
  }

  /** Everything else is as asked: the tick is what goes wrong. */
  lemma ForgottenAllowed(k: nat)
    requires k < 20
    ensures Harmless(Forgotten(k), ForgottenEvent(k))
    ensures InTurn(Forgotten(k), ForgottenEvent(k)) <==> !ForgottenEvent(k).Tick?
  {
    hide Reliable, Careful, InTurn, Forgotten;
    MostAreFree(Forgotten(k), ForgottenEvent(k));
    TickTooEarly();
    OpeningAllowed();
    PublishAllowed();
    FinishAllowed();
  }

  lemma TickTooEarly()
    ensures !InTurn(Forgotten(11), Tick)
  {
    hide OnePlan, NoCycle, OneRow, OneFile, OneMark;
  }

  lemma OpeningAllowed()
    ensures Harmless(Forgotten(10), MarkStale(Name())) && Harmless(Forgotten(19), Install)
  {
    hide OnePlan, NoCycle, OneRow, Settled, Seen, NoneLost, NoneSwallowed;
  }

  lemma PublishAllowed()
    ensures Harmless(Forgotten(16), ForgottenEvent(16))
  {
    hide OnePlan, OneRow, OneMark, AllRows, Settled, Seen, NoneLost, NoneSwallowed;
    NoneLostHere(Seen(NoCycle(OneFile()), OneFile()));
    NoRanges();
  }

  lemma FinishAllowed()
    ensures Harmless(Forgotten(18), ForgottenEvent(18))
  {
    hide OneRow, AllRows, Settled, Seen, NoneLost;
  }

  /** A cycle that starts before the engine is open can drop marks it had no right to:
      the engine opens with a file that no search finds, although nothing changed and no
      cycle lost, swallowed or misread anything. */
  lemma MarksForgotten() returns (ss: seq<State>, es: seq<Event>, q: Query, p: Bytes)
    ensures Run(ss, es) && |ss| > 0
    ensures HarmlessBetween(ss, es, 0, |es|)
    ensures forall k :: 0 <= k < |es| ==> (InTurn(ss[k], es[k]) <==> !es[k].Tick?)
    ensures WrongAbout(ss[|ss| - 1], q, p)
  {
    hide Step, Forgotten, ForgottenEvent, InTurn, Harmless, WrongAbout, EveryLine;
    ss, es := seq(21, k requires 0 <= k < 21 => Forgotten(k)), seq(20, k requires 0 <= k < 20 => ForgottenEvent(k));
    q, p := EveryLine(), Name();
    forall k | 0 <= k < |es| ensures Step(ss[k], es[k], ss[k + 1]) { ForgottenSteps(k); }
    ForgottenEnds();
    forall k | 0 <= k < |es|
      ensures Harmless(ss[k], es[k]) && (InTurn(ss[k], es[k]) <==> !es[k].Tick?)
    {
      ForgottenAllowed(k);
    }
  }

  lemma ForgottenEnds()
    ensures Forgotten(0).files == map[] && Forgotten(0).manifest == None && Forgotten(0).mem == Down
    ensures WrongAbout(Forgotten(20), EveryLine(), Name())
  {
    hide OneRow, OneMark, OnePlan, NoCycle, PruningOk, EveryLine, DiskScan, IsBinary;
    NoShardRows();
    SmallText();
    EveryLineReports(OneFile(), Name());
  }

  // ---- a search that straddles the end of a cycle ----

  /** The same without the early tick: the engine opens with the file marked, and then a
      cycle stores it and drops the mark. */
  function Straddled(k: nat): State {
    if k <= 10 then Forgotten(k)
    else if k == 11 then Ticking(Marked(), 0)
    else if k <= 19 then Ticking(Open, k - 12)
    else Ticking(Open, 7).(mem := Up([Shard(0, [OneRow()])], 1, map[], [], Quiet, Open, Idle))
  }

  function StraddledEvent(k: nat): Event {
    if k <= 10 then ForgottenEvent(k)
    else if k == 11 then Install
    else if k <= 18 then TickEvent(k - 12)
    else Finish
  }

  lemma StraddledOpens()
    ensures OpenerStep(Straddled(11), StraddledEvent(11), Straddled(12))
  {
    hide OneFile, OneRow, NoCycle, OnePlan, OneMark;
  }

  lemma StraddledFinish()
    ensures TickerStep(Straddled(19), StraddledEvent(19), Straddled(20))
  {
    hide OneFile, OneRow, NoCycle;
    assert Dropped(OnePlan(), OneMark()) == map[];
    var none: seq<nat> := [];
    assert none + none == none;
  }

  lemma StraddledSteps(k: nat)
    requires k < 20
    ensures Step(Straddled(k), StraddledEvent(k), Straddled(k + 1))
  {
    hide OneFile, OneRow, OneMark, Ticking, TickEvent, Step, WorldStep, OpenerStep, TickerStep, Forgotten, ForgottenEvent;
    if k < 11 {
      ForgottenSteps(k);
      ElevenIsTicking();
    } else if k == 11 {
      StraddledOpens();
      IsStep(Straddled(k), StraddledEvent(k), Straddled(k + 1));
    } else if k < 19 {
      TickSteps(Open, k - 12);
      IsStep(Straddled(k), StraddledEvent(k), Straddled(k + 1));
    } else {
      StraddledFinish();
      IsStep(Straddled(k), StraddledEvent(k), Straddled(k + 1));
    }
  }

  lemma ElevenIsTicking()
    ensures Forgotten(11) == Ticking(Marked(), 0)
  {
    hide Ticking;
  }

  /** Up to where the search loads the shards, everything is as asked. */
  lemma StraddledAllowed(k: nat)
    requires k < 12
    ensures Harmless(Straddled(k), StraddledEvent(k)) && InTurn(Straddled(k), StraddledEvent(k))
  {
    hide Reliable, Careful, InTurn, Forgotten, Ticking;
    MostAreFree(Straddled(k), StraddledEvent(k));
    OpeningAllowed();
    InstallAllowed();
  }

  lemma InstallAllowed()
    ensures Harmless(Straddled(11), Install)
  {
    hide OneFile, OneRow, NoCycle, OnePlan, OneMark;
    NoShardRows();
  }

  lemma StraddledEnds()
    ensures Straddled(0).files == map[] && Straddled(0).manifest == None && Straddled(0).mem == Down
    ensures WrongAcross(Straddled(12), Straddled(20), EveryLine(), Name())
  {
    hide OneRow, OneMark, OnePlan, NoCycle, PruningOk, EveryLine, DiskScan, IsBinary;
    NoShardRows();
    SmallText();
    EveryLineReports(OneFile(), Name());
  }

  lemma FinishesLast(k: nat)
    requires 12 <= k < 20
    ensures StraddledEvent(k).Finish? <==> k == 19
    ensures !StraddledEvent(k).Crash? && !StraddledEvent(k).MarkBelow?
  {
  }

  /** A search that loads the shards before a cycle publishes and copies the dirty list
      after the cycle has dropped its marks misses the file altogether. */
  lemma SearchStraddles() returns (ss: seq<State>, es: seq<Event>, i: nat, q: Query, p: Bytes)
    ensures Run(ss, es) && i <= |es| && InTurnBetween(ss, es, 0, i) && HarmlessBetween(ss, es, 0, i)
    ensures forall n :: i <= n < |es| ==> !es[n].Crash? && !es[n].MarkBelow? && (es[n].Finish? <==> n == |es| - 1)
    ensures WrongAcross(ss[i], ss[|es|], q, p)
  {
    hide Step, Straddled, StraddledEvent, InTurn, Harmless, WrongAcross, EveryLine;
    ss, es := seq(21, k requires 0 <= k < 21 => Straddled(k)), seq(20, k requires 0 <= k < 20 => StraddledEvent(k));
    i, q, p := 12, EveryLine(), Name();
    forall k | 0 <= k < |es| ensures Step(ss[k], es[k], ss[k + 1]) { StraddledSteps(k); }
    StraddledEnds();
    forall k | 0 <= k < i ensures Harmless(ss[k], es[k]) && InTurn(ss[k], es[k]) { StraddledAllowed(k); }
    forall n | i <= n < |es| ensures !es[n].Crash? && !es[n].MarkBelow? && (es[n].Finish? <==> n == |es| - 1) { FinishesLast(n); }
  }
}
