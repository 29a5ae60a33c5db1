/** A run that shows why a search may not straddle the settling of a removed directory that
    forgets a path it has loaded. A cycle finds a neighbour of a dirty file gone and drops
    its row; then their directory is removed. What is stored below it by then is marked,
    and that no longer includes the neighbour; but a search that loaded the shards before
    still has its row, and reports it. */
module Settling {
  import opened Prelude
  import opened Bytes
  import opened Lines
  import opened Ranges
  import opened EngineSpec
  import opened Rebuild
  import opened EngineSteps
  import opened Engine
  import opened Changes
  import opened Recovery
  import opened Healing
  import opened RecoveryRuns

  // ---- two files in a directory ----

  function D(): Bytes { [97] }

  function B(): Bytes { [97, SLASH, 98] }

  function X(): Bytes { [97, SLASH, 99] }

  function Small(): DiskFile { DiskFile(1, 0, [120]) }

  function OnlyB(): Disk { map[B() := Small()] }

  function Both(): Disk { OnlyB()[X() := Small()] }

  function TextB(): map<Bytes, Option<Bytes>> { map[B() := Some([120])] }

  function Texts(): map<Bytes, Option<Bytes>> { TextB()[X() := Some([120])] }

  function RowOf(p: Bytes): Row { Row(p, 1, 0, {}, Some([120])) }

  function TwoRows(): seq<Row> { [RowOf(B()), RowOf(X())] }

  function Pair(): Shard { Shard(0, TwoRows()) }

  function Single(): Shard { Shard(1, [RowOf(B())]) }

  function Files1(): map<nat, seq<Row>> { map[0 := TwoRows()] }

  function Files2(): map<nat, seq<Row>> { Files1()[1 := [RowOf(B())]] }

  function MarkB(): Dirty { map[B() := false] }

  function MarkD(): Dirty { MarkB()[D() := true] }

  function GoneB(): Dirty { map[B() := true, D() := true] }

  function CycleAt(disk: Disk): Cycle { Cycle([Pair()], 1, MarkB(), disk, 1, 1) }

  function TheCycle(): Cycle { CycleAt(OnlyB()) }

  function ThePlan(): Plan { Plan([Single()], 2, [0], MarkB(), OnlyB(), {B()}) }

  lemma InOrder()
    ensures Less(B(), X()) && B() != X() && D() != B() && D() != X()
    ensures D() + [SLASH] <= B() && D() + [SLASH] <= X()
  {
  }

  lemma PairHome()
    ensures Home([Pair()], B()) == 0 && ShardRange(Pair()) == Range(B(), X())
  {
    hide Less, RangesOf, ShardFor, B, X;
    InOrder();
    OneShardHome(Pair(), B());
    LessIrreflexive(B());
  }

  lemma PairCounts(p: Bytes)
    ensures CountPath(TwoRows(), p) == OneIf(B() == p) + OneIf(X() == p)
  {
    hide B, X, CountPath;
    TwoRowCount(RowOf(B()), RowOf(X()), p);
  }

  lemma PairAffected(disk: Disk)
    ensures Affected(CycleAt(disk), 0) && !Deferred(CycleAt(disk), B())
  {
    hide Home, B, X;
    PairHome();
    OnlyDirty(CycleAt(disk), B());
  }

  lemma ReadsBoth(disk: Disk, p: Bytes)
    ensures Reads(CycleAt(disk), p) <==> p == B() || p == X()
  {
    hide Home, Affected, CountPath, B, X;
    PairHome();
    PairCounts(p);
    PairAffected(disk);
    if p == B() || p == X() { assert InAffected(CycleAt(disk), 1, p); }
  }

  lemma AllReadBoth()
    ensures AllRead(TheCycle(), {B(), X()})
  {
    hide Reads, B, X;
    forall p | Reads(TheCycle(), p) ensures p in {B(), X()} { ReadsBoth(OnlyB(), p); }
  }

  lemma SmallText()
    ensures Tris([120]) == {} && InlineOf(1, [120]) == Some([120]) && !IsBinary([120])
  {
    assert Tris([120]) == {};
    assert [120][..1] == [120];
  }

  /** The neighbour's row is gone. */
  lemma RowsLeft()
    ensures RowsAfter(TheCycle(), 0) == [RowOf(B())] && SeqAfter(TheCycle(), 0) == 1
  {
    hide Home, Affected, Tris, IsBinary, InlineOf;
    var c := TheCycle();
    InOrder();
    PairAffected(OnlyB());
    SmallText();
    var rb, rx := RowOf(B()), RowOf(X());
    assert TwoRows()[..1] == [rb] && [rb][..0] == [];
    assert Keeps(c, B()) && !Keeps(c, X()) && RebuildRow(c, rb) == rb;
    assert RebuildRows(c, []) == [] && RebuildRows(c, [rb]) == [] + [rb];
    assert RebuildRows(c, TwoRows()) == RebuildRows(c, [rb]);
  }

  lemma SingleReplaces()
    ensures Replacement(TheCycle(), 0) == [Single()]
  {
    hide Affected, RowsAfter, SeqAfter, B;
    PairAffected(OnlyB());
    RowsLeft();
  }

  lemma NothingIsNew()
    ensures NewRowsOf(TheCycle(), [])
  {
    hide Home, CountPath, IsBinary, B, X;
    PairHome();
  }

  lemma SingleList()
    ensures ShardsAfter(TheCycle(), []) == [Single()] && SeqAfter(TheCycle(), 1) == 2 && OldFiles(TheCycle(), 1) == [0]
  {
    hide Affected, RowsAfter, Replacement, B, Single, SortShards;
    var c := TheCycle();
    SingleReplaces();
    RowsLeft();
    PairAffected(OnlyB());
    assert Replaced(c, 1) == Replaced(c, 0) + [Single()] == [Single()];
    assert Unsorted(c, []) == [Single()];
    SortOne();
    assert B() in MarkB() && |MarkB()| > 0;
    assert OldFiles(c, 1) == OldFiles(c, 0) + [0];
  }

  lemma SortOne()
    ensures SortShards([Single()]) == [Single()]
  {
    assert [Single()][..0] == [] && SortShards([]) == [];
    assert SortShards([Single()]) == InsertShard([], Single()) == [Single()];
  }

  lemma PlanIs()
    ensures CyclePlan(TheCycle(), [], OnlyB()) == ThePlan()
  {
    hide Affected, Reads, B, X, Single, ShardsAfter, SeqAfter, OldFiles, Small;
    var c := TheCycle();
    SingleList();
    PairAffected(OnlyB());
    ReadsBoth(OnlyB(), B());
    assert forall p :: p in MarkB() <==> p == B();
    assert DeferredSet(c) == {};
    assert MarkB().Keys == {B()};
    assert Seen(c, OnlyB()) == OnlyB();
    assert {B()} - {} == {B()};
  }

  // ---- the run ----

  function Building1(texts: map<Bytes, Option<Bytes>>, built: seq<Shard>): Opening { Building(Both(), 1, texts, built) }

  function Starting(files: map<nat, seq<Row>>, shards: seq<Shard>, op: Opening): State {
    State(Both(), {}, files, None, Up(shards, |shards|, map[], [], Quiet, op, Idle))
  }

  /** A first build of the two files. */
  function BuildState(k: nat): State {
    if k == 0 then State(Both(), {}, map[], None, Down)
    else if k == 1 then Starting(map[], [], Listing(map[], {}))
    else if k == 2 then Starting(map[], [], Listing(OnlyB(), {B()}))
    else if k == 3 then Starting(map[], [], Listing(Both(), {B(), X()}))
    else if k == 4 then Starting(map[], [], Building1(map[], []))
    else if k == 5 then Starting(map[], [], Building1(TextB(), []))
    else if k == 6 then Starting(map[], [], Building1(Texts(), []))
    else if k == 7 then Starting(Files1(), [], Building1(Texts(), [Pair()]))
    else Starting(Files1(), [Pair()], Built([Pair()]))
  }

  function First(): Option<Manifest> { Some(Manifest(1, [0])) }

  function At(disk: Disk, owed: set<Bytes>, files: map<nat, seq<Row>>, dirty: Dirty, work: Work): State {
    State(disk, owed, files, First(), Up([Pair()], 1, dirty, [], Quiet, Open, work))
  }

  function Late(disk: Disk, owed: set<Bytes>, dirty: Dirty, watch: Watch): State {
    State(disk, owed, Files2(), First(), Up([Single()], 2, dirty, [], watch, Open, Published(ThePlan())))
  }

  function CycleState(k: nat): State {
    if k == 9 then At(Both(), {}, Files1(), map[], Idle)
    else if k == 10 then At(Both(), {}, Files1(), MarkB(), Idle)
    else if k == 11 then At(Both(), {}, Files1(), MarkB(), Taken(MarkB()))
    else if k == 12 then At(Both(), {}, Files1(), MarkB(), Reading(CycleAt(map[]), map[], {}))
    else if k == 13 then At(Both(), {}, Files1(), MarkB(), Reading(CycleAt(map[]), OnlyB(), {}))
    else if k == 14 then At(Both(), {}, Files1(), MarkB(), Reading(TheCycle(), OnlyB(), {B()}))
    else if k == 15 then At(OnlyB(), {X()}, Files1(), MarkB(), Reading(TheCycle(), OnlyB(), {B()}))
    else if k == 16 then At(OnlyB(), {X()}, Files1(), MarkB(), Reading(TheCycle(), OnlyB(), {B(), X()}))
    else if k == 17 then At(OnlyB(), {X()}, Files2(), MarkB(), Reading(TheCycle(), OnlyB(), {B(), X()}))
    else if k == 18 then Late(OnlyB(), {X()}, MarkB(), Quiet)
    else if k == 19 then Late(map[], {B(), X()}, MarkB(), Quiet)
    else if k == 20 then Late(map[], {B(), X()}, MarkD(), Removing(D(), {B()}))
    else Late(map[], {}, GoneB(), Quiet)
  }

  function StateNo(k: nat): State {
    if k <= 8 then BuildState(k) else CycleState(k)
  }

  function EventNo(k: nat): Event {
    match k
    case 0 => Boot
    case 1 => List(B())
    case 2 => List(X())
    case 3 => StartFirst(1)
    case 4 => ReadFirst(B())
    case 5 => ReadFirst(X())
    case 6 => WriteFirst(TwoRows())
    case 7 => PublishFirst
    case 8 => ManifestFirst(true)
    case 9 => Mark(B())
    case 10 => Tick
    case 11 => Begin(1, 1)
    case 12 => Look(B())
    case 13 => LookAgain(B())
    case 14 => Change(X(), None)
    case 15 => Look(X())
    case 16 => WriteShard(Single())
    case 17 => Publish([])
    case 18 => Change(B(), None)
    case 19 => Gone(D(), {B()})
    case _ => MarkBelow
  }

  lemma Displays()
    ensures var none: Disk := map[]; none[B() := Small()] == OnlyB()
    ensures B() in OnlyB() && X() !in OnlyB() && OnlyB()[B()] == Small() && OnlyB().Keys == {B()}
    ensures B() in Both() && X() in Both() && Both()[B()] == Small() && Both()[X()] == Small() && Both().Keys == {B(), X()}
    ensures {} + {B()} == {B()} && {B()} + {X()} == {B(), X()} && {} + {X()} == {X()} && {X()} + {B()} == {B(), X()}
    ensures var none: Dirty := map[]; none[B() := false] == MarkB()
  {
    hide Small, B, X;
    InOrder();
  }

  lemma Removals()
    ensures Put(Both(), X(), None) == OnlyB() && Put(OnlyB(), B(), None) == map[]
  {
    hide Small, B, X;
    InOrder();
    assert OnlyB()[X() := Small()] - {X()} == OnlyB();
    assert OnlyB() - {B()} == map[];
  }

  lemma ListsSteps(k: nat)
    requires k < 4
    ensures OpenerStep(StateNo(k), EventNo(k), StateNo(k + 1))
  {
    hide B, X, Small, OnlyB, CycleState, TextB, Texts, Pair, Files1;
    Displays();
    ListBoth();
  }

  lemma ListBoth()
    ensures OnlyB()[X() := Both()[X()]] == Both()
  {
  }

  lemma ReadsSteps(k: nat)
    requires k == 4 || k == 5
    ensures OpenerStep(StateNo(k), EventNo(k), StateNo(k + 1))
  {
    hide B, X, Small, OnlyB, Both, CycleState, Pair, Files1, ContentAt;
    InOrder();
    Displays();
    ReadTexts();
    var none: map<Bytes, Option<Bytes>> := map[];
    assert none[B() := Some([120])] == TextB();
  }

  lemma ReadTexts()
    ensures ContentAt(Both(), B()) == Some([120]) && ContentAt(Both(), X()) == Some([120])
    ensures B() in Texts() && X() in Texts() && Texts()[B()] == Some([120]) && Texts()[X()] == Some([120]) && X() !in TextB()
    ensures forall p :: p in Texts() <==> p == B() || p == X()
  {
    hide B, X;
    InOrder();
    Displays();
  }

  lemma WritesFirst()
    ensures OpenerStep(StateNo(6), EventNo(6), StateNo(7))
  {
    hide B, X, Small, OnlyB, Both, CycleState, AllRows, Texts, SortedRows, FirstRow, TwoRows;
    FirstSorted();
    FirstDisplays();
    forall r | r in TwoRows() ensures IsFirstRow(Building1(Texts(), []), r) { FirstFrom(r); }
  }

  lemma FirstSorted()
    ensures AllRows([]) == [] && [] + TwoRows() == TwoRows() && SortedRows(TwoRows()) && TwoRows() != []
  {
    hide B, X, Less, TwoRows, SortedRows;
    TwoSorted();
    assert [] + TwoRows() == TwoRows();
  }

  lemma TwoSorted()
    ensures SortedRows(TwoRows()) && TwoRows() != []
  {
    hide B, X, Less, AllRows;
    InOrder();
  }

  lemma FirstFrom(r: Row)
    requires r in TwoRows()
    ensures IsFirstRow(Building1(Texts(), []), r)
  {
    hide B, X, Texts, Both;
    Displays();
    ReadTexts();
    SmallText();
  }

  lemma FirstDisplays()
    ensures var none: map<nat, seq<Row>> := map[]; none[0 := TwoRows()] == Files1()
    ensures var none: seq<Shard> := []; |none| == 0 && none + [Pair()] == [Pair()]
    ensures Names([Pair()]) == [0]
  {
    hide TwoRows;
  }

  lemma PublishesFirst()
    ensures OpenerStep(StateNo(7), EventNo(7), StateNo(8)) && OpenerStep(StateNo(8), EventNo(8), StateNo(9))
  {
    hide B, X, Small, OnlyB, AllRows, Texts, CountPath, IsBinary, Both, Files1, Pair;
    FirstDisplays();
    BuildsAll();
  }

  lemma BuildsAll()
    ensures AllBuilt(Building1(Texts(), [Pair()]))
  {
    hide B, X, Texts, CountPath, AllRows, IsBinary, Both, TwoRows;
    Displays();
    ReadTexts();
    OneShard(Pair());
    PairCounts(B());
    PairCounts(X());
  }

  lemma Marks0()
    ensures WorldStep(StateNo(9), EventNo(9), StateNo(10)) && WorldStep(StateNo(14), EventNo(14), StateNo(15)) && WorldStep(StateNo(18), EventNo(18), StateNo(19))
  {
    hide B, X, Small, OnlyB, Both, Pair, Files1, Files2, Put, Single, BuildState;
    Displays();
    Removals();
    assert {} - {B()} == {};
  }

  lemma Takes()
    ensures TickerStep(StateNo(10), EventNo(10), StateNo(11)) && TickerStep(StateNo(11), EventNo(11), StateNo(12))
  {
    hide B, X, OnlyB, Both, Pair, Files1, BuildState, Reads;
    assert B() in MarkB() && |MarkB()| > 0;
  }

  lemma LooksB()
    ensures TickerStep(StateNo(12), EventNo(12), StateNo(13))
  {
    hide B, X, Small, OnlyB, Both, Pair, Files1, BuildState, Reads;
    Displays();
    ReadsBoth(map[], B());
  }

  lemma LooksAgainB()
    ensures TickerStep(StateNo(13), EventNo(13), StateNo(14))
  {
    hide B, X, Small, OnlyB, Both, Pair, Files1, BuildState, Mixed;
    Displays();
    MixedIs();
  }

  lemma MixedIs()
    ensures Mixed(CycleAt(map[]), B(), Small(), Small()) == Small()
  {
    hide Home;
  }

  lemma LooksX()
    ensures TickerStep(StateNo(15), EventNo(15), StateNo(16))
  {
    hide B, X, Small, OnlyB, Both, Pair, Files1, BuildState, Reads, MarkB, CycleAt;
    InOrder();
    Displays();
    ReadsBoth(OnlyB(), X());
  }

  lemma Writes()
    ensures TickerStep(StateNo(16), EventNo(16), StateNo(17))
  {
    hide B, X, Small, OnlyB, Both, Files1, BuildState, Reads, InAffected, Affected, Replacement, NewRowsOf, AllRead, SeqAfter;
    SingleReplaces();
    PairAffected(OnlyB());
    forall p | Reads(TheCycle(), p) ensures p in {B(), X()} { ReadsBoth(OnlyB(), p); }
    assert Single() in Replacement(TheCycle(), 0);
  }

  lemma Publishes()
    ensures TickerStep(StateNo(17), EventNo(17), StateNo(18))
  {
    hide B, X, Small, OnlyB, Both, Files1, BuildState, NewRowsOf, AllRead, CyclePlan, Pair;
    AllReadBoth();
    NothingIsNew();
    PlanIs();
  }

  lemma IsGone()
    ensures WorldStep(StateNo(19), EventNo(19), StateNo(20))
  {
    hide B, X, Files2, BuildState, Single, D, ThePlan, MarksUnder, NotThere, MarkB;
    InOrder();
    BelowIsB();
    assert {B(), X()} - {D()} == {B(), X()};
  }

  lemma BelowIsB()
    ensures MarksUnder([Single()], D(), {B()}) && NotThere(D(), {B(), X()}, map[])
  {
    hide CountPath, AllRows, B;
    InOrder();
    OneShard(Single());
    forall p ensures CountPath(AllRows([Single()]), p) == OneIf(B() == p) { OneRowCount(RowOf(B()), p); }
    assert Under(D(), B());
  }

  lemma SettlesBoth()
    ensures Settled(StateNo(20), D()) == {B(), X()}
  {
    hide B, X, Files2, BuildState, Single, D;
    InOrder();
  }

  lemma Settles()
    ensures WorldStep(StateNo(20), EventNo(20), StateNo(21))
  {
    hide B, X, Files2, BuildState, Single, D, Settled, ThePlan;
    SettlesBoth();
    MarksBoth();
    assert {B(), X()} - {B(), X()} == {};
  }

  lemma MarksBoth()
    ensures MarkD() + AllDeleted({B()}) == GoneB()
  {
    hide B, D;
    InOrder();
  }

  lemma EachStep(k: nat)
    requires k < 21
    ensures Step(StateNo(k), EventNo(k), StateNo(k + 1))
  {
    hide StateNo, EventNo, WorldStep, OpenerStep, TickerStep;
    if k < 4 { ListsSteps(k); }
    ReadsSteps(4);
    ReadsSteps(5);
    WritesFirst();
    PublishesFirst();
    Marks0();
    Takes();
    LooksB();
    LooksAgainB();
    LooksX();
    Writes();
    Publishes();
    IsGone();
    Settles();
  }

  // ---- what is wrong with it ----

  /** Up to where the search loads the shards, everything is as asked. */
  lemma Allowed(k: nat)
    requires k < 9
    ensures InTurn(StateNo(k), EventNo(k)) && Harmless(StateNo(k), EventNo(k))
  {
    hide InTurn, Reliable, Careful, StateNo;
    MostAreFree(StateNo(k), EventNo(k));
    FirstAllowed();
  }

  lemma FirstAllowed()
    ensures Careful(StateNo(7), EventNo(7))
  {
    hide Both, Files1, Pair, Texts, AllRows, CycleState;
  }

  lemma OnlyTheSettling(k: nat)
    requires 9 <= k < 21
    ensures !EventNo(k).Crash? && !EventNo(k).Finish? && (Goes(StateNo(9), StateNo(k), EventNo(k)) <==> k != 20)
  {
    hide StateNo, AllRows, Forgets;
    Loaded();
    if k < 20 { NotBelow(k); } else { SettlingForgets(); }
  }

  lemma NotBelow(k: nat)
    requires 9 <= k < 20
    ensures !EventNo(k).MarkBelow? && !Forgets(AllRows([Pair()]), StateNo(k), EventNo(k))
  {
    hide AllRows, StateNo;
  }

  lemma Loaded()
    ensures StateNo(9).mem.Up? && StateNo(9).mem.opening.Open? && StateNo(9).mem.shards == [Pair()]
  {
    hide Both, Files1, Pair;
  }

  lemma SettlingForgets()
    ensures Forgets(AllRows([Pair()]), StateNo(20), EventNo(20))
  {
    hide AllRows, CountPath, B, X, Files2, Single, D, Settled;
    InOrder();
    SettlesBoth();
    OneShard(Pair());
    PairCounts(X());
    assert X() in Settled(StateNo(20), D());
  }

  lemma EndsWrong()
    ensures WrongAcross(StateNo(9), StateNo(21), EveryLine(), X())
  {
    hide B, X, D, Files1, Files2, EveryLine, AllRows, BuildState, ThePlan, MarkB, PruningOk, RowsAnswer, FileLines, CountPath, Wanted, Single, Both;
    InOrder();
    Loaded();
    Reported();
    OneShard(Pair());
    PairCounts(X());
    assert RowOf(X()) == TwoRows()[1];
    OneRow(TwoRows(), map[], EveryLine(), RowOf(X()));
  }

  lemma Reported()
    ensures FileLines(EveryLine(), X(), [120]) != [] && PruningOk(EveryLine())
    ensures RowAnswer(map[], EveryLine(), RowOf(X())) == FileLines(EveryLine(), X(), [120])
  {
    hide FileLines, B, X;
    SmallText();
    Displays();
    EveryLineReports(Both(), X());
  }

  /** A cycle drops the row of a file that is gone, and then its directory is removed: a
      search that loaded the shards before the cycle published goes on reporting it. */
  lemma SettledTooSoon() returns (ss: seq<State>, es: seq<Event>, i: nat, q: Query, p: Bytes)
    ensures Run(ss, es) && i <= |es| && InTurnBetween(ss, es, 0, i) && HarmlessBetween(ss, es, 0, i)
    ensures forall n :: i <= n < |es| ==> !es[n].Crash? && !es[n].Finish? && (Goes(ss[i], ss[n], es[n]) <==> !es[n].MarkBelow?)
    ensures WrongAcross(ss[i], ss[|es|], q, p)
  {
    hide Step, StateNo, InTurn, Harmless, WrongAcross, EveryLine, Goes, B, X, D;
    ss, es := seq(22, k requires 0 <= k < 22 => StateNo(k)), seq(21, k requires 0 <= k < 21 => EventNo(k));
    i, q, p := 9, EveryLine(), X();
    forall k | 0 <= k < |es| ensures Step(ss[k], es[k], ss[k + 1]) { EachStep(k); }
    Starts();
    EndsWrong();
    forall k | 0 <= k < i ensures InTurn(ss[k], es[k]) && Harmless(ss[k], es[k]) { Allowed(k); }
    forall n | i <= n < |es| ensures !es[n].Crash? && !es[n].Finish? && (Goes(ss[i], ss[n], es[n]) <==> !es[n].MarkBelow?) {
      OnlyTheSettling(n);
    }
  }

  lemma Starts()
    ensures StateNo(0).files == map[] && StateNo(0).manifest == None && StateNo(0).mem == Down
  {
    hide Both;
  }
}
