/** A run that shows why a list of shards that comes into use while a removed directory is
    being marked must bring no file below it. What is stored below the directory is looked
    up in the list before; a file that a cycle is just bringing into the shards is not
    among it, and the mark the file had is dropped when the cycle ends. The file is gone,
    and searches go on reporting it. */
module RemovalRace {
  import opened Prelude
  import opened Bytes
  import opened EngineSpec
  import opened Rebuild
  import opened Engine
  import opened Changes
  import opened Recovery
  import opened Healing
  import opened RecoveryRuns
  import T = TornReads
  import R = RecoveryRaces
  import L = LateMarks

  /** The engine with no file on disk, just built. */
  function Fresh(op: Opening): State { State(map[], {}, map[], None, Up([], 0, map[], [], Quiet, op, Idle)) }

  function Up0(disk: Disk, owed: set<Bytes>, files: map<nat, seq<Row>>, dirty: Dirty, watch: Watch, work: Work): State {
    State(disk, owed, files, Some(Manifest(0, [])), Up([], 0, dirty, [], watch, Open, work))
  }

  function Up1(owed: set<Bytes>, m: Manifest, dirty: Dirty, watch: Watch, work: Work): State {
    State(map[], owed, map[0 := [T.RowAt(0)]], Some(m), Up([T.Old()], 1, dirty, [], watch, Open, work))
  }

  function TwoMarks(): Dirty { map[T.Name() := false, L.Dir() := true] }

  /** A file is written, taken up by a cycle, and removed with its directory; the shard
      with the file comes into use between the two halves of marking the removal. */
  function StateNo(k: nat): State {
    if k == 0 then State(map[], {}, map[], None, Down)
    else if k == 1 then Fresh(Listing(map[], {}))
    else if k == 2 then Fresh(Building(map[], 1, map[], []))
    else if k == 3 then Fresh(Built([]))
    else if k == 4 then Up0(map[], {}, map[], map[], Quiet, Idle)
    else if k == 5 then Up0(R.OneFile(), {T.Name()}, map[], map[], Quiet, Idle)
    else if k == 6 then Up0(R.OneFile(), {}, map[], R.OneMark(), Quiet, Idle)
    else if k == 7 then Up0(R.OneFile(), {}, map[], R.OneMark(), Quiet, Taken(R.OneMark()))
    else if k == 8 then Up0(R.OneFile(), {}, map[], R.OneMark(), Quiet, Reading(R.NoCycle(map[]), map[], {}))
    else if k == 9 then Up0(R.OneFile(), {}, map[], R.OneMark(), Quiet, Reading(R.NoCycle(map[]), R.OneFile(), {}))
    else if k == 10 then Up0(R.OneFile(), {}, map[], R.OneMark(), Quiet, Reading(R.NoCycle(R.OneFile()), R.OneFile(), {T.Name()}))
    else if k == 11 then Up0(R.OneFile(), {}, T.Files(1), R.OneMark(), Quiet, Reading(R.NoCycle(R.OneFile()), R.OneFile(), {T.Name()}))
    else if k == 12 then Up0(map[], {T.Name()}, T.Files(1), R.OneMark(), Quiet, Reading(R.NoCycle(R.OneFile()), R.OneFile(), {T.Name()}))
    else if k == 13 then Up0(map[], {T.Name()}, T.Files(1), TwoMarks(), Removing(L.Dir(), {}), Reading(R.NoCycle(R.OneFile()), R.OneFile(), {T.Name()}))
    else if k == 14 then Up1({T.Name()}, Manifest(0, []), TwoMarks(), Removing(L.Dir(), {}), Published(R.OnePlan()))
    else if k == 15 then Up1({T.Name()}, Manifest(1, [0]), TwoMarks(), Removing(L.Dir(), {}), Cleaning(R.OnePlan(), [], []))
    else if k == 16 then Up1({T.Name()}, Manifest(1, [0]), map[L.Dir() := true], Removing(L.Dir(), {}), Idle)
    else Up1({}, Manifest(1, [0]), map[L.Dir() := true], Quiet, Idle)
  }

  function EventNo(k: nat): Event {
    match k
    case 0 => Boot
    case 1 => StartFirst(1)
    case 2 => PublishFirst
    case 3 => ManifestFirst(true)
    case 4 => Change(T.Name(), Some(FileNo(120)))
    case 5 => Mark(T.Name())
    case 6 => Tick
    case 7 => Begin(1, 1)
    case 8 => Look(T.Name())
    case 9 => LookAgain(T.Name())
    case 10 => WriteShard(T.Old())
    case 11 => Change(T.Name(), None)
    case 12 => Gone(L.Dir(), {})
    case 13 => Publish([T.RowAt(0)])
    case 14 => WriteManifest(true)
    case 15 => Finish
    case _ => MarkBelow
  }

  lemma Opens(k: nat)
    requires k < 4
    ensures OpenerStep(StateNo(k), EventNo(k), StateNo(k + 1))
  {
    hide T.Name, T.RowAt, R.OneFile, R.OneMark, L.Dir;
    var none: Disk := map[];
    assert none.Keys == {};
    assert AllRows([]) == [];
  }

  lemma Displays()
    ensures Put(map[], T.Name(), Some(FileNo(120))) == R.OneFile() && Put(R.OneFile(), T.Name(), None) == map[]
    ensures var none: Dirty := map[]; none[T.Name() := false] == R.OneMark() && none[L.Dir() := true] == map[L.Dir() := true]
    ensures R.OneMark()[L.Dir() := true] == TwoMarks() && L.Dir() != T.Name()
    ensures {} + {T.Name()} == {T.Name()} && {T.Name()} - {T.Name()} == {} && {T.Name()} - {L.Dir()} == {T.Name()}
  {
  }

  lemma WritesAndGoes(k: nat)
    requires k == 4 || k == 5 || k == 11
    ensures WorldStep(StateNo(k), EventNo(k), StateNo(k + 1))
  {
    hide T.RowAt, T.Name, R.OneFile, R.OneMark, T.Files, R.NoCycle, Put, L.Dir;
    Displays();
  }

  lemma Removes()
    ensures WorldStep(StateNo(12), EventNo(12), StateNo(13))
  {
    hide T.RowAt, R.OneFile, R.OneMark, T.Files, R.NoCycle, TwoMarks, T.Name, L.Dir;
    Displays();
    NoShardRows();
  }

  lemma Settles()
    ensures WorldStep(StateNo(16), EventNo(16), StateNo(17))
  {
    hide T.RowAt, R.OneFile, R.OneMark, T.Files;
    assert L.Dir() + [SLASH] <= T.Name();
    assert Settled(StateNo(16), L.Dir()) == {T.Name()};
    assert AllDeleted({}) == map[];
    var d: Dirty := map[L.Dir() := true];
    assert d + map[] == d && {T.Name()} - {T.Name()} == {};
  }

  lemma Takes()
    ensures TickerStep(StateNo(6), EventNo(6), StateNo(7)) && TickerStep(StateNo(7), EventNo(7), StateNo(8))
  {
    hide T.RowAt, R.OneFile, T.Files, T.Name;
    assert |R.OneMark()| == 1;
  }

  lemma Looks()
    ensures TickerStep(StateNo(8), EventNo(8), StateNo(9))
  {
    hide T.RowAt, T.Files, Reads;
    R.EmptyHome(map[], T.Name());
    var none: Disk := map[];
    assert none[T.Name() := R.OneFile()[T.Name()]] == R.OneFile();
  }

  lemma LooksAgain()
    ensures TickerStep(StateNo(9), EventNo(9), StateNo(10))
  {
    hide T.RowAt, T.Files, Mixed, R.OneMark;
    R.MixedIs();
    assert T.Name() in R.OneFile();
    assert {} + {T.Name()} == {T.Name()};
  }

  lemma Writes()
    ensures TickerStep(StateNo(10), EventNo(10), StateNo(11))
  {
    hide T.RowAt, R.OneFile, Reads, NewRowsOf, AllRead, SeqAfter, R.OneMark, T.Name;
    R.EmptyHome(R.OneFile(), R.Name());
    R.FirstNumber();
    R.OneNewRow();
    var none: map<nat, seq<Row>> := map[];
    assert none[0 := [T.RowAt(0)]] == T.Files(1);
  }

  lemma Publishes()
    ensures TickerStep(StateNo(13), EventNo(13), StateNo(14))
  {
    hide T.RowAt, R.OneFile, Reads, NewRowsOf, AllRead, CyclePlan, R.OneMark, T.Name, TwoMarks, L.Dir;
    R.EmptyHome(R.OneFile(), R.Name());
    R.OneNewRow();
    R.OnePlanIs(map[]);
  }

  lemma WritesManifest()
    ensures TickerStep(StateNo(14), EventNo(14), StateNo(15))
  {
    hide T.RowAt, R.OneFile, TwoMarks, L.Dir, T.Name;
    assert Names([T.Old()]) == [0];
  }

  lemma Finishes()
    ensures TickerStep(StateNo(15), EventNo(15), StateNo(16))
  {
    hide T.RowAt, R.OneFile;
    DropsOne();
    var none: seq<nat> := [];
    assert none + none == none;
  }

  lemma DropsOne()
    ensures Dropped(R.OnePlan(), TwoMarks()) == map[L.Dir() := true]
  {
    hide T.RowAt, R.OneFile;
    assert L.Dir() != T.Name();
  }

  lemma EachStep(k: nat)
    requires k < 17
    ensures Step(StateNo(k), EventNo(k), StateNo(k + 1))
  {
    hide StateNo, EventNo, WorldStep, OpenerStep, TickerStep;
    if k < 4 { Opens(k); }
    WritesAndGoes(4);
    WritesAndGoes(5);
    WritesAndGoes(11);
    Removes();
    Settles();
    Takes();
    Looks();
    LooksAgain();
    Writes();
    Publishes();
    WritesManifest();
    Finishes();
  }

  // ---- what is wrong with it ----

  lemma OnlyThePublish(k: nat)
    requires k < 17
    ensures InTurn(StateNo(k), EventNo(k)) && Reliable(StateNo(k), EventNo(k))
    ensures Careful(StateNo(k), EventNo(k)) <==> k != 13
  {
    hide InTurn, Reliable, Careful, StateNo;
    MostAreFree(StateNo(k), EventNo(k));
    Unharmed();
    PublishHarms();
    FinishHarmless();
  }

  lemma Unharmed()
    ensures InTurn(StateNo(6), EventNo(6)) && Careful(StateNo(2), EventNo(2)) && Careful(StateNo(16), EventNo(16))
  {
    hide T.RowAt, T.Files, AllRows, Settled, R.OnePlan, R.OneFile, R.OneMark, R.NoCycle, TwoMarks, T.Name, L.Dir;
  }

  lemma PublishHarms()
    ensures !Careful(StateNo(13), EventNo(13)) && Reliable(StateNo(13), EventNo(13))
  {
    hide T.RowAt, T.Files, AllRows, R.OnePlan, R.OneFile, R.OneMark, R.NoCycle, Seen, NoneLost, TwoMarks, ShardsAfter, Covered, L.Dir, CyclePlan;
    NoCycleShards();
    R.OnePlanIs(map[]);
    PlanList();
    NotCovered();
  }

  lemma NoCycleShards()
    ensures OrderedShards([]) && R.NoCycle(R.OneFile()).shards == []
  {
    NoRanges();
  }

  lemma PlanList()
    ensures CyclePlan(R.NoCycle(R.OneFile()), [T.RowAt(0)], map[]).next == ShardsAfter(R.NoCycle(R.OneFile()), [T.RowAt(0)])
    ensures R.OnePlan().next == [T.Old()]
  {
    hide ShardsAfter, SeqAfter, Seen, T.RowAt;
  }

  lemma NotCovered()
    ensures !Covered(AllRows([T.Old()]), Removing(L.Dir(), {}))
  {
    hide CountPath, AllRows;
    OneShard(T.Old());
    OneRowCount(T.RowAt(0), T.Name());
    assert L.Dir() + [SLASH] <= T.Name();
  }

  lemma FinishHarmless()
    ensures Careful(StateNo(15), EventNo(15))
  {
    hide T.RowAt, T.Files, R.OneFile;
  }

  lemma EndsWrong()
    ensures WrongAbout(StateNo(17), EveryLine(), T.Name())
  {
    hide FileLines, EveryLine, PruningOk, Answer, DiskScan, T.DiskAt, T.RowAt, AllRows, Visible;
    T.OneLine(0);
    T.OneLine(1);
    L.SeenOne();
    EveryLineReports(T.DiskAt(1), T.Name());
    L.FoundOld();
    L.GoneAnswer();
    L.OldAsked();
  }

  lemma Ends()
    ensures StateNo(0).files == map[] && StateNo(0).manifest == None && StateNo(0).mem == Down
  {
    hide T.RowAt, R.OneFile;
  }

  lemma PublishAt(k: nat)
    requires k < 17
    ensures EventNo(k).Publish? <==> k == 13
  {
  }

  /** A file is removed with its directory while a cycle brings it into the shards: the
      removal finds it in none, the cycle drops its mark, and searches go on reporting it. */
  lemma RemovalMissed() returns (ss: seq<State>, es: seq<Event>, q: Query, p: Bytes)
    ensures Run(ss, es) && InTurnBetween(ss, es, 0, |es|)
    ensures forall k :: 0 <= k < |es| ==> Reliable(ss[k], es[k]) && (Careful(ss[k], es[k]) <==> !es[k].Publish?)
    ensures WrongAbout(ss[|es|], q, p)
  {
    hide Step, StateNo, EventNo, InTurn, Reliable, Careful, WrongAbout, EveryLine;
    ss, es := seq(18, k requires 0 <= k < 18 => StateNo(k)), seq(17, k requires 0 <= k < 17 => EventNo(k));
    q, p := EveryLine(), T.Name();
    forall k | 0 <= k < |es| ensures Step(ss[k], es[k], ss[k + 1]) { EachStep(k); }
    Ends();
    EndsWrong();
    forall k | 0 <= k < |es| ensures InTurn(ss[k], es[k]) && Reliable(ss[k], es[k]) && (Careful(ss[k], es[k]) <==> !es[k].Publish?) {
      OnlyThePublish(k);
      PublishAt(k);
    }
  }
}
