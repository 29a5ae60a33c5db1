/** A run that shows why the shards a restart installs have to be trusted, and one way to
    lose that trust: the rebuild reads the content of a stored file before its size and
    time, so a write between the two leaves the old content under the new size and time,
    which the restart then takes for the file's. */
module TornReads {
  import opened Prelude
  import opened Bytes
  import opened Lines
  import opened EngineSpec
  import opened Rebuild
  import opened EngineSteps
  import opened Engine
  import opened Changes
  import opened Recovery
  import opened Ordering
  import opened Truthful
  import opened Healing
  import opened RecoveryRuns

  /** A file in a directory. */
  function Name(): Bytes { [97, SLASH, 98] }

  /** The file as written at time `t`, 0 or 1; only its text and time differ. */
  function Text(t: int): Bytes { if t == 0 then [120] else [121] }

  function DiskAt(t: int): Disk { map[Name() := DiskFile(1, t, Text(t))] }

  /** A row of time `t` with the text of time 0. */
  function RowAt(t: int): Row { Row(Name(), 1, t, {}, Some([120])) }

  function Old(): Shard { Shard(0, [RowAt(0)]) }

  function Torn(): Shard { Shard(1, [RowAt(1)]) }

  function OneMark(): Dirty { map[Name() := false] }

  function Seen1(): Disk { map[Name() := DiskFile(1, 1, [120])] }

  function CycleAt(disk: Disk): Cycle { Cycle([Old()], 1, OneMark(), disk, 1, 1) }

  function TornPlan(): Plan { Plan([Torn()], 2, [0], OneMark(), Seen1(), {Name()}) }

  function Files(n: nat): map<nat, seq<Row>> { if n == 1 then map[0 := [RowAt(0)]] else map[0 := [RowAt(0)], 1 := [RowAt(1)]] }

  // ---- the cycle ----

  lemma OldHome(p: Bytes)
    ensures Home([Old()], Name()) == 0 && CountPath([RowAt(0)], p) == OneIf(p == Name())
  {
    hide Less;
    OneShardHome(Old(), Name());
    LessIrreflexive(Name());
    OneRowCount(RowAt(0), p);
  }

  lemma OldAffected(disk: Disk)
    ensures Affected(CycleAt(disk), 0) && !Deferred(CycleAt(disk), Name())
  {
    hide Home;
    OldHome(Name());
    OnlyDirty(CycleAt(disk), Name());
  }

  lemma ReadsOne(disk: Disk, p: Bytes)
    ensures Reads(CycleAt(disk), p) <==> p == Name()
  {
    hide Home, Affected, CountPath;
    OldHome(p);
    OldAffected(disk);
    if p == Name() { assert InAffected(CycleAt(disk), 1, p); }
  }

  lemma TornRow()
    ensures RowsAfter(CycleAt(Seen1()), 0) == [RowAt(1)] && SeqAfter(CycleAt(Seen1()), 0) == 1
    ensures Replacement(CycleAt(Seen1()), 0) == [Torn()]
  {
    hide Home, Affected;
    var c := CycleAt(Seen1());
    OldAffected(Seen1());
    assert [RowAt(0)][..0] == [];
    assert Tris([120]) == {};
    assert InlineOf(1, [120]) == Some([120]);
    assert Keeps(c, Name()) && RebuildRow(c, RowAt(0)) == RowAt(1);
    assert RebuildRows(c, []) == [] && RebuildRows(c, [RowAt(0)]) == [] + [RowAt(1)];
  }

  lemma NothingIsNew()
    ensures NewRowsOf(CycleAt(Seen1()), [])
  {
    hide Home, CountPath, IsBinary;
    OldHome(Name());
  }

  lemma TornPlanIs()
    ensures CyclePlan(CycleAt(Seen1()), [], DiskAt(1)) == TornPlan()
  {
    hide Home, Reads, Affected, RowsAfter, InsertShard;
    var c := CycleAt(Seen1());
    OldAffected(Seen1());
    TornRow();
    ReadsOne(Seen1(), Name());
    assert DeferredSet(c) == {};
    assert Seen(c, DiskAt(1)) == Seen1();
    TornList();
    assert OldFiles(c, 1) == OldFiles(c, 0) + [0];
    assert SeqAfter(c, 1) == 2;
  }

  lemma TornList()
    ensures ShardsAfter(CycleAt(Seen1()), []) == [Torn()]
  {
    hide Home, Affected, RowsAfter, Replacement;
    var c := CycleAt(Seen1());
    TornRow();
    assert Replaced(c, 1) == Replaced(c, 0) + [Torn()];
    assert Unsorted(c, []) == [Torn()];
    assert [Torn()][..0] == [] && SortShards([]) == [];
    assert SortShards([Torn()]) == InsertShard([], Torn()) == [Torn()];
    assert |c.dirty| == 1;
  }

  // ---- the run ----

  function Mem(shards: seq<Shard>, seqNo: nat, dirty: Dirty, pending: seq<nat>, op: Opening, work: Work): Memory {
    Up(shards, seqNo, dirty, pending, Quiet, op, work)
  }

  function First(): Option<Manifest> { Some(Manifest(1, [0])) }

  function Second(): Option<Manifest> { Some(Manifest(2, [1])) }

  /** A first build, with the file inlined. */
  function BuildState(k: nat): State {
    if k == 0 then State(DiskAt(0), {}, map[], None, Down)
    else if k == 1 then State(DiskAt(0), {}, map[], None, Mem([], 0, map[], [], Listing(map[], {}), Idle))
    else if k == 2 then State(DiskAt(0), {}, map[], None, Mem([], 0, map[], [], Listing(DiskAt(0), {Name()}), Idle))
    else if k == 3 then State(DiskAt(0), {}, map[], None, Mem([], 0, map[], [], Building(DiskAt(0), 1, map[], []), Idle))
    else if k == 4 then State(DiskAt(0), {}, map[], None, Mem([], 0, map[], [], Building(DiskAt(0), 1, map[Name() := Some([120])], []), Idle))
    else if k == 5 then State(DiskAt(0), {}, Files(1), None, Mem([], 0, map[], [], Building(DiskAt(0), 1, map[Name() := Some([120])], [Old()]), Idle))
    else if k == 6 then State(DiskAt(0), {}, Files(1), None, Mem([Old()], 1, map[], [], Built([Old()]), Idle))
    else State(DiskAt(0), {}, Files(1), First(), Mem([Old()], 1, map[], [], Open, Idle))
  }

  /** A cycle, with a write between its two looks at the file. */
  function TearState(k: nat): State {
    if k == 8 then State(DiskAt(0), {}, Files(1), First(), Mem([Old()], 1, OneMark(), [], Open, Idle))
    else if k == 9 then State(DiskAt(0), {}, Files(1), First(), Mem([Old()], 1, OneMark(), [], Open, Taken(OneMark())))
    else if k == 10 then State(DiskAt(0), {}, Files(1), First(), Mem([Old()], 1, OneMark(), [], Open, Reading(CycleAt(map[]), map[], {})))
    else if k == 11 then State(DiskAt(0), {}, Files(1), First(), Mem([Old()], 1, OneMark(), [], Open, Reading(CycleAt(map[]), DiskAt(0), {})))
    else if k == 12 then State(DiskAt(1), {Name()}, Files(1), First(), Mem([Old()], 1, OneMark(), [], Open, Reading(CycleAt(map[]), DiskAt(0), {})))
    else if k == 13 then State(DiskAt(1), {Name()}, Files(1), First(), Mem([Old()], 1, OneMark(), [], Open, Reading(CycleAt(Seen1()), DiskAt(0), {Name()})))
    else if k == 14 then State(DiskAt(1), {Name()}, Files(2), First(), Mem([Old()], 1, OneMark(), [], Open, Reading(CycleAt(Seen1()), DiskAt(0), {Name()})))
    else if k == 15 then State(DiskAt(1), {Name()}, Files(2), First(), Mem([Torn()], 2, OneMark(), [], Open, Published(TornPlan())))
    else State(DiskAt(1), {Name()}, Files(2), Second(), Mem([Torn()], 2, OneMark(), [], Open, Cleaning(TornPlan(), [], [])))
  }

  /** A crash, and a start that finds the row's size and time unchanged. */
  function RestartState(k: nat): State {
    if k == 17 then State(DiskAt(1), {Name()}, Files(2), Second(), Mem([Torn()], 2, map[], [0], Open, Idle))
    else if k == 18 then State(DiskAt(1), {}, Files(2), Second(), Down)
    else if k == 19 then State(DiskAt(1), {}, Files(2), Second(), Mem([], 0, map[], [], Listing(map[], {}), Idle))
    else if k == 20 then State(DiskAt(1), {}, Files(2), Second(), Mem([], 0, map[], [], Listing(DiskAt(1), {Name()}), Idle))
    else if k == 21 then State(DiskAt(1), {}, Files(2), Second(), Mem([], 0, map[], [], Loaded(DiskAt(1), Second(), [Torn()], map[], true), Idle))
    else if k == 22 then State(DiskAt(1), {}, Files(2), Second(), Mem([], 0, map[], [], Loaded(DiskAt(1), Second(), [Torn()], map[], false), Idle))
    else State(DiskAt(1), {}, Files(2), Second(), Mem([Torn()], 2, map[], [], Open, Idle))
  }

  function StateNo(k: nat): State {
    if k <= 7 then BuildState(k) else if k <= 16 then TearState(k) else RestartState(k)
  }

  function EventNo(k: nat): Event {
    match k
    case 0 => Boot
    case 1 => List(Name())
    case 2 => StartFirst(1)
    case 3 => ReadFirst(Name())
    case 4 => WriteFirst([RowAt(0)])
    case 5 => PublishFirst
    case 6 => ManifestFirst(true)
    case 7 => Mark(Name())
    case 8 => Tick
    case 9 => Begin(1, 1)
    case 10 => Look(Name())
    case 11 => Change(Name(), Some(DiskFile(1, 1, [121])))
    case 12 => LookAgain(Name())
    case 13 => WriteShard(Torn())
    case 14 => Publish([])
    case 15 => WriteManifest(true)
    case 16 => Finish
    case 17 => Crash
    case 18 => Boot
    case 19 => List(Name())
    case 20 => Load({}, map[])
    case 21 => SweepDone
    case _ => Install
  }

  // ---- small facts about maps and lists ----

  lemma Displays()
    ensures var none: Disk := map[]; none[Name() := DiskAt(0)[Name()]] == DiskAt(0) && none[Name() := DiskAt(1)[Name()]] == DiskAt(1)
    ensures var none: Disk := map[]; none[Name() := DiskFile(1, 1, [120])] == Seen1()
    ensures Name() in DiskAt(0) && Name() in DiskAt(1) && DiskAt(0).Keys == DiskAt(1).Keys == {Name()} && {} + {Name()} == {Name()}
    ensures ContentAt(DiskAt(0), Name()) == Some([120]) && Put(DiskAt(0), Name(), Some(DiskFile(1, 1, [121]))) == DiskAt(1)
    ensures var none: Dirty := map[]; none[Name() := false] == OneMark()
  {
  }

  lemma FileDisplays()
    ensures var none: map<nat, seq<Row>> := map[]; none[0 := [RowAt(0)]] == Files(1)
    ensures Files(1)[1 := [RowAt(1)]] == Files(2)
    ensures Files(2) != map[]
    ensures var none: seq<Shard> := []; |none| == 0 && none + [Old()] == [Old()]
    ensures Names([Old()]) == [0] && Names([Torn()]) == [1]
  {
    assert 0 in Files(2);
  }

  lemma FirstRows()
    ensures AllRows([]) == [] && [] + [RowAt(0)] == [RowAt(0)] && SortedRows([RowAt(0)]) && AllRows([Old()]) == [RowAt(0)]
    ensures FirstRow(DiskAt(0), 1, Name(), [120]) == RowAt(0) && RowAt(0).path == Name()
    ensures CountPath(AllRows([Old()]), Name()) > 0
  {
    assert Tris([120]) == {};
    OneShard(Old());
    OneRowCount(RowAt(0), Name());
  }

  lemma ListSteps(k: nat)
    requires k < 4
    ensures OpenerStep(StateNo(k), EventNo(k), StateNo(k + 1))
  {
    hide DiskAt, RowAt, Old, Torn, Files, ContentAt, TearState, RestartState;
    Displays();
  }

  lemma BuildSteps(k: nat)
    requires 4 <= k < 7
    ensures OpenerStep(StateNo(k), EventNo(k), StateNo(k + 1))
  {
    hide DiskAt, RowAt, Torn, Files, AllRows, SortedRows, FirstRow, ContentAt, Reconciled, CountPath, IsBinary, TearState, RestartState;
    Displays();
    FileDisplays();
    FirstRows();
  }

  lemma MarkStep()
    ensures WorldStep(StateNo(7), EventNo(7), StateNo(8)) && WorldStep(StateNo(11), EventNo(11), StateNo(12)) && WorldStep(StateNo(17), EventNo(17), StateNo(18))
  {
    hide DiskAt, Old, Torn, Files, CycleAt, TornPlan, Put, OneMark;
    Displays();
    assert {} - {Name()} == {};
  }

  lemma TickSteps()
    ensures TickerStep(StateNo(8), EventNo(8), StateNo(9)) && TickerStep(StateNo(9), EventNo(9), StateNo(10))
  {
    hide DiskAt, Old, Torn, Files, TornPlan, Reads;
    assert |OneMark()| == 1;
  }

  lemma LookStep()
    ensures TickerStep(StateNo(10), EventNo(10), StateNo(11))
  {
    hide DiskAt, Old, Torn, Files, TornPlan, Reads;
    Displays();
    ReadsOne(map[], Name());
  }

  lemma TearStep()
    ensures TickerStep(StateNo(12), EventNo(12), StateNo(13))
  {
    hide Old, Torn, Files, TornPlan, Reads, Home;
    Displays();
    OldHome(Name());
    assert Mixed(CycleAt(map[]), Name(), DiskAt(0)[Name()], DiskAt(1)[Name()]) == DiskFile(1, 1, [120]);
  }

  lemma WriteStep()
    ensures TickerStep(StateNo(13), EventNo(13), StateNo(14))
  {
    hide DiskAt, Old, Files, TornPlan, Reads, Replacement, Affected, InAffected, SeqAfter, NewRowsOf, Seen1, RowAt;
    FileDisplays();
    TornRow();
    OldAffected(Seen1());
    forall p ensures Reads(CycleAt(Seen1()), p) <==> p == Name() { ReadsOne(Seen1(), p); }
    assert Torn() in Replacement(CycleAt(Seen1()), 0);
  }

  lemma PublishStep()
    ensures TickerStep(StateNo(14), EventNo(14), StateNo(15))
  {
    hide DiskAt, Old, Reads, CyclePlan, NewRowsOf, Seen1, RowAt;
    NothingIsNew();
    TornPlanIs();
    forall p ensures Reads(CycleAt(Seen1()), p) <==> p == Name() { ReadsOne(Seen1(), p); }
  }

  lemma FinishSteps()
    ensures TickerStep(StateNo(15), EventNo(15), StateNo(16)) && TickerStep(StateNo(16), EventNo(16), StateNo(17))
  {
    hide DiskAt, Old, Torn, Files, CycleAt, RowAt;
    FileDisplays();
    assert Dropped(TornPlan(), OneMark()) == map[];
    var none: seq<nat> := [];
    assert none + [0] == [0];
  }

  lemma FoundAgain()
    ensures Opened([1], Files(2), {}) == [Torn()] && Reconciled(AllRows([Torn()]), DiskAt(1), map[])
  {
    assert [1][..0] == [];
    assert Opened([], Files(2), {}) == [];
    OneShard(Torn());
    OneRowCount(RowAt(1), Name());
    RowCounted([RowAt(1)], RowAt(1));
  }

  lemma RestartSteps(k: nat)
    requires 18 <= k < 23
    ensures OpenerStep(StateNo(k), EventNo(k), StateNo(k + 1))
  {
    hide DiskAt, Old, Torn, Files, AllRows, Reconciled, Opened, TearState, BuildState;
    Displays();
    FileDisplays();
    FoundAgain();
  }

  lemma EachStep(k: nat)
    requires k < 23
    ensures Step(StateNo(k), EventNo(k), StateNo(k + 1))
  {
    hide StateNo, EventNo, WorldStep, OpenerStep, TickerStep;
    MarkStep();
    if k < 4 { ListSteps(k); } else if k < 7 { BuildSteps(k); }
    TickSteps();
    LookStep();
    TearStep();
    WriteStep();
    PublishStep();
    FinishSteps();
    if k >= 18 { RestartSteps(k); }
  }

  // ---- what is wrong with it ----

  /** Content goes by time. */
  function ByTime(): Oracle { (p, size, mtime) => Text(mtime) }

  lemma OneLine(t: int)
    requires t == 0 || t == 1
    ensures FileLines(EveryLine(), Name(), Text(t)) == [Match(Name(), 1, 0, 1, Text(t))]
    ensures Visible(DiskFile(1, t, Text(t)))
  {
    var c := Text(t);
    assert c[..1] == c && LineEnd(c, 0) == 1;
    var find := FinderOf(EveryLine().m);
    assert FindIn(c, 0, 1, find) == 0;
    assert ScanLines(Name(), c, 2, 1, find, 0) == [];
    assert ScanLines(Name(), c, 0, 0, find, 0) == [Report(Name(), c, 0, 1, 1, 0, 0)] + [];
  }

  lemma EndsWrong()
    ensures WrongAbout(StateNo(23), EveryLine(), Name())
  {
    hide FileLines, EveryLine, IsBinary, Tris, PruningOk, RowsAnswer, Text;
    OneLine(0);
    OneLine(1);
    EveryLineReports(DiskAt(1), Name());
    OneShard(Torn());
    OneRowCount(RowAt(1), Name());
    OneRow([RowAt(1)], DiskAt(1), EveryLine(), RowAt(1));
    AlwaysAsked(DiskAt(1));
  }

  lemma AlwaysAsked(disk: Disk)
    ensures RowAnswer(disk, EveryLine(), RowAt(1)) == FileLines(EveryLine(), Name(), [120]) && Text(0) == [120] && Text(1) == [121]
    ensures Wanted(EveryLine(), Name(), 1)
  {
    hide FileLines, Tris;
  }

  lemma OnlyTheTear(k: nat)
    requires k < 23
    ensures Steady(ByTime(), StateNo(k), EventNo(k)) <==> k != 12
    ensures InTurn(StateNo(k), EventNo(k)) && NoneSpanned(StateNo(k), EventNo(k)) && NoneStranded(StateNo(k), EventNo(k))
    ensures k >= 18 ==> Careful(StateNo(k), EventNo(k)) && (Reliable(StateNo(k), EventNo(k)) <==> k != 22)
  {
    hide Steady, InTurn, Reliable, Careful, StateNo, NoneSpanned, NoneStranded;
    MostAreFree(StateNo(k), EventNo(k));
    MostAreSteady(ByTime(), StateNo(k), EventNo(k));
    LooksSteadily();
    TearIsUnsteady();
    InstallsStale();
  }

  lemma LooksSteadily()
    ensures Steady(ByTime(), StateNo(3), EventNo(3)) && Steady(ByTime(), StateNo(10), EventNo(10)) && Steady(ByTime(), StateNo(11), EventNo(11))
    ensures InTurn(StateNo(8), EventNo(8)) && Careful(StateNo(22), EventNo(22))
  {
    hide Old, Torn, TornPlan, RowAt, AllRows, Files, Seen1, Settled, Seen, NoneLost, NoneSwallowed, First, Second;
  }

  lemma TearIsUnsteady()
    ensures !Steady(ByTime(), StateNo(12), EventNo(12)) && NoneSpanned(StateNo(14), EventNo(14))
  {
    hide Old, Torn, CycleAt, TornPlan, RowAt, AllRows, Files, RowsAfter, Seen1;
  }

  /** The row has the size and time of the file, and not its text. */
  lemma InstallsStale()
    ensures !Reliable(StateNo(22), EventNo(22))
  {
    hide Old, Files, First, Second, Unique, Trusted;
    OneShard(Torn());
    Untrusted();
  }

  lemma Untrusted()
    ensures !Trusted([RowAt(1)], Marks(map[], {}), DiskAt(1))
  {
    var r := RowAt(1);
    assert r in [r] && SameStat(r, DiskAt(1)) && !Agrees(r, DiskAt(1));
  }

  lemma MostAreSteady(o: Oracle, s: State, e: Event)
    ensures !e.Change? && !e.ReadFirst? && !e.Look? && !e.LookAgain? ==> Steady(o, s, e)
    ensures !e.Publish? ==> NoneSpanned(s, e)
  {
    hide AllRows;
  }

  /** A write between the two looks of a cycle, then a restart: the engine serves the old
      text of a file that no mark is owed for. Since the restart every other condition is
      met, and before it the write between the looks is the one read that is not steady. */
  lemma StaleAfterRestart() returns (o: Oracle, ss: seq<State>, es: seq<Event>, j: nat, q: Query, p: Bytes)
    ensures Run(ss, es) && InTurnBetween(ss, es, 0, |es|) && NoneStrandedUntil(ss, es, |es|) && NoneSpannedUntil(ss, es, |es|)
    ensures TrueDisk(o, ss[0].disk)
    ensures j <= |es| && ss[j].mem.Down?
    ensures forall k :: j <= k < |es| ==> Careful(ss[k], es[k]) && (Reliable(ss[k], es[k]) <==> !es[k].Install?)
    ensures forall k :: 0 <= k < |es| ==> (Steady(o, ss[k], es[k]) <==> !es[k].LookAgain?)
    ensures WrongAbout(ss[|es|], q, p)
  {
    hide Step, StateNo, EventNo, InTurn, Steady, Reliable, Careful, NoneSpanned, NoneStranded, TrueDisk, WrongAbout, EveryLine, ByTime;
    ss, es := seq(24, k requires 0 <= k < 24 => StateNo(k)), seq(23, k requires 0 <= k < 23 => EventNo(k));
    o, j, q, p := ByTime(), 18, EveryLine(), Name();
    forall k | 0 <= k < |es| ensures Step(ss[k], es[k], ss[k + 1]) { EachStep(k); }
    Ends();
    EndsWrong();
    forall k | 0 <= k < |es|
      ensures InTurn(ss[k], es[k]) && NoneSpanned(ss[k], es[k]) && NoneStranded(ss[k], es[k]) && (Steady(o, ss[k], es[k]) <==> !es[k].LookAgain?)
      ensures k >= 18 ==> Careful(ss[k], es[k]) && (Reliable(ss[k], es[k]) <==> !es[k].Install?)
    {
      OnlyTheTear(k);
      LooksTwice(k);
    }
  }

  lemma LooksTwice(k: nat)
    requires k < 23
    ensures (EventNo(k).LookAgain? <==> k == 12) && (EventNo(k).Install? <==> k == 22)
  {
  }

  lemma Ends()
    ensures StateNo(0).files == map[] && StateNo(0).manifest == None && StateNo(0).mem == Down && StateNo(18).mem == Down
    ensures TrueDisk(ByTime(), StateNo(0).disk)
  {
    hide Old, Torn, CycleAt, TornPlan, RowAt, Files;
  }
}
