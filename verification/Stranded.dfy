/** A run that shows why a manifest that cannot be written must not follow another. The
    first leaves the manifest on disk naming the files its cycle replaced; the cycle after
    removes them, having tried, and failed, to write a manifest that no longer names them. */
module Stranded {
  import opened Prelude
  import opened Bytes
  import opened Lines
  import opened EngineSpec
  import opened Rebuild
  import opened EngineSteps
  import opened Engine
  import opened Changes
  import opened Recovery
  import opened Healing
  import opened RecoveryRuns
  import T = TornReads

  function RowNow(): Row { Row(T.Name(), 1, 1, {}, Some([121])) }

  function Third(): Shard { Shard(2, [RowNow()]) }

  function Files3(): map<nat, seq<Row>> { T.Files(2)[2 := [RowNow()]] }

  function CycleAt(disk: Disk): Cycle { Cycle([T.Torn()], 2, T.OneMark(), disk, 1, 1) }

  function TheCycle(): Cycle { CycleAt(T.DiskAt(1)) }

  function ThePlan(): Plan { Plan([Third()], 3, [1], T.OneMark(), T.DiskAt(1), {T.Name()}) }

  // ---- the second cycle ----

  lemma TornHome(p: Bytes)
    ensures Home([T.Torn()], T.Name()) == 0 && CountPath([T.RowAt(1)], p) == OneIf(p == T.Name())
  {
    hide Less;
    OneShardHome(T.Torn(), T.Name());
    LessIrreflexive(T.Name());
    OneRowCount(T.RowAt(1), p);
  }

  lemma TornAffected(disk: Disk)
    ensures Affected(CycleAt(disk), 0) && !Deferred(CycleAt(disk), T.Name())
  {
    hide Home;
    TornHome(T.Name());
    OnlyDirty(CycleAt(disk), T.Name());
  }

  lemma ReadsOne(disk: Disk, p: Bytes)
    ensures Reads(CycleAt(disk), p) <==> p == T.Name()
  {
    hide Home, Affected, CountPath, T.Name;
    TornHome(p);
    TornAffected(disk);
    if p == T.Name() { assert InAffected(CycleAt(disk), 1, p); }
  }

  lemma AllReadOne()
    ensures AllRead(TheCycle(), {T.Name()})
  {
    hide Reads, T.Name, T.DiskAt;
    forall p | Reads(TheCycle(), p) ensures p in {T.Name()} { ReadsOne(T.DiskAt(1), p); }
  }

  lemma RowsNow()
    ensures RowsAfter(TheCycle(), 0) == [RowNow()] && SeqAfter(TheCycle(), 0) == 2
  {
    hide Home, Affected;
    var c := TheCycle();
    TornAffected(T.DiskAt(1));
    assert [T.RowAt(1)][..0] == [];
    assert Tris([121]) == {};
    assert InlineOf(1, [121]) == Some([121]);
    assert [121][..1] == [121];
    assert Keeps(c, T.Name()) && RebuildRow(c, T.RowAt(1)) == RowNow();
    assert RebuildRows(c, []) == [] && RebuildRows(c, [T.RowAt(1)]) == [] + [RowNow()];
  }

  lemma ThirdReplaces()
    ensures Replacement(TheCycle(), 0) == [Third()]
  {
    hide Affected, RowsAfter, SeqAfter, T.Name, T.DiskAt;
    TornAffected(T.DiskAt(1));
    RowsNow();
  }

  lemma NothingIsNew()
    ensures NewRowsOf(TheCycle(), [])
  {
    hide Home, CountPath, IsBinary, T.Name, T.DiskAt;
    TornHome(T.Name());
  }

  lemma ThirdList()
    ensures ShardsAfter(TheCycle(), []) == [Third()] && SeqAfter(TheCycle(), 1) == 3 && OldFiles(TheCycle(), 1) == [1]
  {
    hide Affected, RowsAfter, Replacement, T.Name, T.DiskAt, Third, SortShards;
    var c := TheCycle();
    ThirdReplaces();
    RowsNow();
    TornAffected(T.DiskAt(1));
    assert Replaced(c, 1) == Replaced(c, 0) + [Third()] == [Third()];
    assert Unsorted(c, []) == [Third()];
    ThirdSorted();
    assert T.Name() in T.OneMark() && |T.OneMark()| > 0;
    assert OldFiles(c, 1) == OldFiles(c, 0) + [1];
  }

  lemma ThirdSorted()
    ensures SortShards([Third()]) == [Third()]
  {
    assert [Third()][..0] == [] && SortShards([]) == [];
    assert SortShards([Third()]) == InsertShard([], Third()) == [Third()];
  }

  lemma PlanIs()
    ensures CyclePlan(TheCycle(), [], T.DiskAt(1)) == ThePlan()
  {
    hide Affected, Reads, T.Name, Third, ShardsAfter, SeqAfter, OldFiles;
    var c := TheCycle();
    ThirdList();
    TornAffected(T.DiskAt(1));
    ReadsOne(T.DiskAt(1), T.Name());
    assert forall p :: p in T.OneMark() <==> p == T.Name();
    assert DeferredSet(c) == {};
    assert T.OneMark().Keys == {T.Name()};
    assert Seen(c, T.DiskAt(1)) == T.DiskAt(1);
    assert {T.Name()} - {} == {T.Name()};
  }

  lemma MixedIs()
    ensures Mixed(CycleAt(map[]), T.Name(), T.DiskAt(1)[T.Name()], T.DiskAt(1)[T.Name()]) == T.DiskAt(1)[T.Name()]
  {
    hide Home;
  }

  // ---- the run ----

  /** With the manifest of the first build on disk all along. */
  function With(owed: set<Bytes>, files: map<nat, seq<Row>>, shard: Shard, seqNo: nat, dirty: Dirty, pending: seq<nat>, work: Work): State {
    State(T.DiskAt(1), owed, files, T.First(), Up([shard], seqNo, dirty, pending, Quiet, Open, work))
  }

  function StateNo(k: nat): State {
    if k <= 15 then T.StateNo(k)
    else if k == 16 then With({T.Name()}, T.Files(2), T.Torn(), 2, T.OneMark(), [], Cleaning(T.TornPlan(), [], []))
    else if k == 17 then With({T.Name()}, T.Files(2), T.Torn(), 2, map[], [0], Idle)
    else if k == 18 then With({}, T.Files(2), T.Torn(), 2, T.OneMark(), [0], Idle)
    else if k == 19 then With({}, T.Files(2), T.Torn(), 2, T.OneMark(), [0], Taken(T.OneMark()))
    else if k == 20 then With({}, T.Files(2), T.Torn(), 2, T.OneMark(), [0], Reading(CycleAt(map[]), map[], {}))
    else if k == 21 then With({}, T.Files(2), T.Torn(), 2, T.OneMark(), [0], Reading(CycleAt(map[]), T.DiskAt(1), {}))
    else if k == 22 then With({}, T.Files(2), T.Torn(), 2, T.OneMark(), [0], Reading(TheCycle(), T.DiskAt(1), {T.Name()}))
    else if k == 23 then With({}, Files3(), T.Torn(), 2, T.OneMark(), [0], Reading(TheCycle(), T.DiskAt(1), {T.Name()}))
    else if k == 24 then With({}, Files3(), Third(), 3, T.OneMark(), [0], Published(ThePlan()))
    else if k == 25 then With({}, Files3(), Third(), 3, T.OneMark(), [0], Cleaning(ThePlan(), [0], []))
    else With({}, Files3() - {0}, Third(), 3, T.OneMark(), [0], Cleaning(ThePlan(), [], []))
  }

  function EventNo(k: nat): Event {
    if k < 15 then T.EventNo(k)
    else match k
      case 15 => WriteManifest(false)
      case 16 => Finish
      case 17 => Mark(T.Name())
      case 18 => Tick
      case 19 => Begin(1, 1)
      case 20 => Look(T.Name())
      case 21 => LookAgain(T.Name())
      case 22 => WriteShard(Third())
      case 23 => Publish([])
      case 24 => WriteManifest(false)
      case _ => Clean(true)
  }

  lemma Before(k: nat)
    requires k < 15
    ensures Step(StateNo(k), EventNo(k), StateNo(k + 1))
  {
    hide T.StateNo, T.EventNo, Step;
    T.EachStep(k);
  }

  lemma Unwritten1()
    ensures TickerStep(StateNo(15), EventNo(15), StateNo(16))
  {
    hide T.DiskAt, T.Files, T.Old, T.CycleAt, T.OneMark;
  }

  lemma Unwritten2()
    ensures TickerStep(StateNo(24), EventNo(24), StateNo(25))
  {
    hide T.DiskAt, T.Torn, T.Files, T.Old, T.CycleAt, Third, Files3, T.OneMark;
  }

  lemma Finishes()
    ensures TickerStep(StateNo(16), EventNo(16), StateNo(17))
  {
    hide T.DiskAt, T.Torn, T.Files, T.First;
    assert Dropped(T.TornPlan(), T.OneMark()) == map[];
    var none: seq<nat> := [];
    assert none + [0] == [0];
  }

  lemma Marks1()
    ensures WorldStep(StateNo(17), EventNo(17), StateNo(18))
  {
    hide T.DiskAt, T.Torn, T.Files, T.First, T.Name;
    T.Displays();
    assert {T.Name()} - {T.Name()} == {};
  }

  lemma Takes()
    ensures TickerStep(StateNo(18), EventNo(18), StateNo(19)) && TickerStep(StateNo(19), EventNo(19), StateNo(20))
  {
    hide T.DiskAt, T.Torn, T.Files, T.First, Reads;
    assert |T.OneMark()| == 1;
  }

  lemma Looks()
    ensures TickerStep(StateNo(20), EventNo(20), StateNo(21))
  {
    hide T.DiskAt, T.Torn, T.Files, T.First, Reads, T.Name;
    T.Displays();
    ReadsOne(map[], T.Name());
    assert T.Name() in T.OneMark();
  }

  lemma LooksAgain()
    ensures TickerStep(StateNo(21), EventNo(21), StateNo(22))
  {
    hide T.DiskAt, T.Torn, T.Files, T.First, Mixed, T.Name, T.OneMark;
    T.Displays();
    MixedIs();
  }

  lemma Writes()
    ensures TickerStep(StateNo(22), EventNo(22), StateNo(23))
  {
    hide T.DiskAt, T.Torn, T.Files, T.First, T.Name, T.OneMark, Reads, InAffected, Affected, Replacement, NewRowsOf, AllRead, SeqAfter;
    ThirdReplaces();
    TornAffected(T.DiskAt(1));
    forall p | Reads(TheCycle(), p) ensures p in {T.Name()} { ReadsOne(T.DiskAt(1), p); }
    assert Third() in Replacement(TheCycle(), 0);
  }

  lemma Publishes()
    ensures TickerStep(StateNo(23), EventNo(23), StateNo(24))
  {
    hide T.DiskAt, T.Torn, T.Files, T.First, T.Name, T.OneMark, NewRowsOf, AllRead, CyclePlan;
    AllReadOne();
    NothingIsNew();
    PlanIs();
  }

  lemma Cleans()
    ensures TickerStep(StateNo(25), EventNo(25), StateNo(26))
  {
    hide T.DiskAt, T.Torn, T.Files, T.First, T.OneMark, Files3, Third;
    var queue: seq<nat> := [0];
    assert queue[1..] == [];
    var none: seq<nat> := [];
    assert none + none == none;
  }

  lemma EachStep(k: nat)
    requires k < 26
    ensures Step(StateNo(k), EventNo(k), StateNo(k + 1))
  {
    hide StateNo, EventNo, WorldStep, OpenerStep, TickerStep;
    if k < 15 { Before(k); }
    Unwritten1();
    Unwritten2();
    Finishes();
    Marks1();
    Takes();
    Looks();
    LooksAgain();
    Writes();
    Publishes();
    Cleans();
  }

  // ---- what is wrong with it ----

  lemma OnlyTheSecond(k: nat)
    requires k < 26
    ensures InTurn(StateNo(k), EventNo(k)) && (NoneStranded(StateNo(k), EventNo(k)) <==> k != 24)
  {
    hide InTurn, NoneStranded, StateNo, T.EventNo;
    if k < 15 {
      EarlyAllowed(k);
    } else {
      MostAreFree(StateNo(k), EventNo(k));
      SecondStrands();
    }
  }

  lemma EarlyAllowed(k: nat)
    requires k < 15
    ensures InTurn(StateNo(k), EventNo(k)) && NoneStranded(StateNo(k), EventNo(k))
  {
    hide T.StateNo, T.EventNo, InTurn, NoneStranded;
    T.OnlyTheTear(k);
  }

  lemma SecondStrands()
    ensures NoneStranded(StateNo(15), EventNo(15)) && !NoneStranded(StateNo(24), EventNo(24)) && InTurn(StateNo(18), EventNo(18))
  {
    hide T.DiskAt, T.Torn, T.Files, T.OneMark, Files3, Third, T.TornPlan, T.CycleAt, T.Old;
    assert 0 in StateNo(24).mem.pending && 0 in StateNo(24).manifest.value.names;
  }

  lemma Ends()
    ensures StateNo(0).files == map[] && StateNo(0).manifest == None && StateNo(0).mem == Down
    ensures StateNo(26).manifest == Some(Manifest(1, [0])) && 0 !in StateNo(26).files
  {
    hide T.DiskAt, T.Torn, Third, T.StateNo, Files3;
    T.Ends();
    var files := Files3() - {0};
    assert 0 !in files;
  }

  /** Two manifests in a row that cannot be written: the one on disk ends up naming a file
      that is not there. */
  lemma FileStranded() returns (ss: seq<State>, es: seq<Event>, i: nat, j: nat)
    ensures Run(ss, es) && InTurnBetween(ss, es, 0, |es|) && i < j < |es|
    ensures es[i] == es[j] == WriteManifest(false)
    ensures forall k :: 0 <= k < |es| ==> (NoneStranded(ss[k], es[k]) <==> k != j)
    ensures var s := ss[|es|]; s.manifest.Some? && exists n :: n in s.manifest.value.names && n !in s.files
  {
    hide Step, StateNo, T.EventNo, InTurn, NoneStranded, T.Name;
    ss, es := seq(27, k requires 0 <= k < 27 => StateNo(k)), seq(26, k requires 0 <= k < 26 => EventNo(k));
    i, j := 15, 24;
    forall k | 0 <= k < |es| ensures Step(ss[k], es[k], ss[k + 1]) { EachStep(k); }
    Ends();
    forall k | 0 <= k < |es| ensures InTurn(ss[k], es[k]) && (NoneStranded(ss[k], es[k]) <==> k != j) { OnlyTheSecond(k); }
    assert 0 in ss[26].manifest.value.names;
  }
}
