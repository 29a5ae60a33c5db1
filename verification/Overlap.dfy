/** A run that shows why the ranges of shards have to be in order when a cycle publishes.
    Two files are written on either side of a shard that stays, and a first cycle stores
    both in one shard that spans it. When one of them is removed, a second cycle looks its
    path up among ranges that overlap, finds no shard to be rewritten, and drops the mark;
    the row stays, and searches go on reporting the file. */
module Overlap {
  import opened Prelude
  import opened Bytes
  import opened Lines
  import opened Ranges
  import opened EngineSpec
  import opened Rebuild
  import opened EngineSteps
  import opened Engine
  import opened Changes
  import opened Recovery
  import opened Ordering
  import opened Healing
  import opened RecoveryRuns
  import T = TornReads

  // ---- the files and the shards ----

  function A(): Bytes { [65] }

  function C(): Bytes { [98] }

  function Small(): DiskFile { DiskFile(1, 0, [120]) }

  function WithA(): Disk { T.DiskAt(0)[A() := Small()] }

  function WithBoth(): Disk { WithA()[C() := Small()] }

  function Looked(): Disk { map[A() := Small()] }

  function Both(): Disk { Looked()[C() := Small()] }

  function MarkA(): Dirty { map[A() := false] }

  function Marks2(): Dirty { MarkA()[C() := false] }

  function MarkC(): Dirty { map[C() := true] }

  function RowOf(p: Bytes): Row { Row(p, 1, 0, {}, Some([120])) }

  function TwoRows(): seq<Row> { [RowOf(A()), RowOf(C())] }

  /** The shard for the two new files, around the one of the first build. */
  function Wide(): Shard { Shard(1, TwoRows()) }

  function Shards(): seq<Shard> { [Wide(), T.Old()] }

  function Files2(): map<nat, seq<Row>> { T.Files(1)[1 := TwoRows()] }

  function Cycle1(disk: Disk): Cycle { Cycle([T.Old()], 1, Marks2(), disk, 1, 1) }

  function Plan1(): Plan { Plan(Shards(), 2, [], Marks2(), Both(), {A(), C()}) }

  function Cycle2(): Cycle { Cycle(Shards(), 2, MarkC(), map[], 1, 1) }

  function Plan2(): Plan { Plan(Shards(), 2, [], MarkC(), map[], {C()}) }

  function Second(): Option<Manifest> { Some(Manifest(2, [1, 0])) }

  // ---- where paths are looked up ----

  lemma InOrder()
    ensures Less(A(), T.Name()) && Less(T.Name(), C()) && Less(A(), C())
    ensures A() != T.Name() && C() != T.Name() && A() != C()
  {
  }

  lemma OldEnds()
    ensures ShardRange(T.Old()) == Range(T.Name(), T.Name()) && ShardRange(Wide()) == Range(A(), C())
  {
  }

  /** Both new files are outside the old shard. */
  lemma NoHome1(p: Bytes)
    requires p == A() || p == C()
    ensures Home([T.Old()], p) == -1
  {
    hide Less, A, C, T.Name, T.Old, ShardRange;
    InOrder();
    OldEnds();
    OneShardHome(T.Old(), p);
    LessOrGeq(A(), T.Name());
    LessOrGeq(T.Name(), C());
  }

  /** The path of the file removed is looked up in the last shard that starts before it. */
  lemma NoHome2()
    ensures Home(Shards(), C()) == -1
  {
    hide Less, A, C, T.Name, T.Old, Wide, ShardRange;
    InOrder();
    OldEnds();
    LessOrGeq(T.Name(), C());
    var rs := RangesOf(Shards());
    assert |rs| == 2 && rs[1] == ShardRange(T.Old());
  }

  lemma Unordered()
    ensures !OrderedShards(Shards())
  {
    hide Less, A, C, T.Name, T.Old, Wide, ShardRange, OrderedRanges, RangesOf;
    InOrder();
    OldEnds();
    LessOrGeq(T.Name(), C());
    assert Shards() == [Wide()] + [T.Old()];
    OrderedSnoc([Wide()], T.Old());
    assert [Wide()][0] == Wide();
  }

  // ---- the first cycle ----

  lemma Unaffected1(disk: Disk)
    ensures DirtyIn(Cycle1(disk), 0) == {} && !Affected(Cycle1(disk), 0) && DeferredSet(Cycle1(disk)) == {}
  {
    hide Home, A, C;
    NoHome1(A());
    NoHome1(C());
    assert forall p :: p in Marks2() <==> p == A() || p == C();
  }

  lemma Reads1(disk: Disk, p: Bytes)
    ensures Reads(Cycle1(disk), p) <==> p == A() || p == C()
  {
    hide Home, Affected, CountPath, A, C;
    NoHome1(A());
    NoHome1(C());
    Unaffected1(disk);
    MarksAre();
  }

  lemma MarksAre()
    ensures forall p :: p in Marks2() <==> p == A() || p == C()
    ensures A() in Marks2() && C() in Marks2() && !Marks2()[A()] && !Marks2()[C()] && |Marks2()| > 0
    ensures Marks2().Keys == {A(), C()}
  {
    hide A, C;
    assert A() in Marks2();
  }

  lemma AllRead1()
    ensures AllRead(Cycle1(Both()), {A(), C()})
  {
    hide Reads;
    forall p | Reads(Cycle1(Both()), p) ensures p in {A(), C()} { Reads1(Both(), p); }
  }

  lemma Fresh1()
    ensures A() in Both() && C() in Both() && Both()[A()] == Small() && Both()[C()] == Small() && Both().Keys == {A(), C()}
    ensures FreshRow(Cycle1(Both()), A()) == RowOf(A()) && FreshRow(Cycle1(Both()), C()) == RowOf(C()) && !IsBinary([120])
  {
    assert Tris([120]) == {};
    assert InlineOf(1, [120]) == Some([120]);
    assert [120][..1] == [120];
  }

  lemma NewRows1()
    ensures NewRowsOf(Cycle1(Both()), TwoRows())
  {
    hide Less, Home, FreshRow, IsBinary, A, C, CountPath;
    InOrder();
    NoHome1(A());
    NoHome1(C());
    MarksAre();
    Fresh1();
    forall p ensures CountPath(TwoRows(), p) == OneIf(A() == p) + OneIf(C() == p) { TwoRowCount(RowOf(A()), RowOf(C()), p); }
  }

  lemma Kept1()
    ensures var c := Cycle1(Both()); Replaced(c, 1) == [T.Old()] && SeqAfter(c, 1) == 1 && SeqAfter(c, 0) == 1 && OldFiles(c, 1) == []
  {
    hide Affected, T.Old;
    Unaffected1(Both());
    var c := Cycle1(Both());
    assert Replaced(c, 0) == [];
    assert Replacement(c, 0) == [T.Old()];
  }

  lemma InsertIntoOne(x: Shard, y: Shard)
    ensures InsertShard([x], y) == if LessEq(ShardRange(x).min, ShardRange(y).min) then [x, y] else [y, x]
  {
    hide LessEq, ShardRange;
    assert [x][..0] == [];
    assert InsertShard([], y) == [y];
  }

  lemma SortTwo(x: Shard, y: Shard)
    ensures SortShards([x, y]) == InsertShard([x], y)
  {
    hide InsertShard;
    assert [x, y][..1] == [x] && [x][..0] == [];
    assert SortShards([]) == [];
    assert SortShards([x]) == InsertShard([], x);
    InsertIntoNone(x);
  }

  lemma InsertIntoNone(x: Shard)
    ensures InsertShard([], x) == [x]
  {
  }

  lemma Sorted2(l: seq<Shard>)
    requires l == [T.Old(), Wide()] || l == [Wide(), T.Old()]
    ensures SortShards(l) == Shards()
  {
    hide Less, A, C, T.Name, T.Old, Wide, ShardRange, InsertShard, SortShards;
    InOrder();
    OldEnds();
    LessOrGeq(A(), T.Name());
    SortTwo(l[0], l[1]);
    InsertIntoOne(l[0], l[1]);
  }

  lemma PlanIs1()
    ensures CyclePlan(Cycle1(Both()), TwoRows(), WithBoth()) == Plan1()
  {
    hide Affected, Reads, T.Old, Replaced, SeqAfter, OldFiles, SortShards, DeferredSet;
    var c := Cycle1(Both());
    Kept1();
    Unaffected1(Both());
    MarksAre();
    assert Unsorted(c, TwoRows()) == [T.Old(), Wide()];
    Sorted2([T.Old(), Wide()]);
    SeenIs1();
    assert {A(), C()} - {} == {A(), C()};
  }

  lemma SeenIs1()
    ensures Seen(Cycle1(Both()), WithBoth()) == Both()
  {
    hide Reads, A, C, Both, WithBoth, Marks2, T.Old;
    MarksAre();
    Reads1(Both(), A());
    Reads1(Both(), C());
  }

  lemma MixedIs(p: Bytes, disk: Disk)
    requires p == A() || p == C()
    ensures Mixed(Cycle1(disk), p, Small(), Small()) == Small()
  {
    hide Home;
  }

  // ---- the second cycle ----

  lemma Unaffected2(i: int)
    requires i >= 0
    ensures DirtyIn(Cycle2(), i) == {} && !Affected(Cycle2(), i)
  {
    hide Home, C, Wide, T.Old;
    NoHome2();
    assert forall p :: p in MarkC() <==> p == C();
  }

  lemma Nothing2(p: Bytes)
    ensures !Reads(Cycle2(), p) && !IsNew(Cycle2(), p) && (p in MarkC() ==> !Deferred(Cycle2(), p)) && !Lost(Cycle2(), p)
  {
    hide Home, Affected, CountPath, C, Wide, T.Old, IsBinary;
    NoHome2();
    assert forall q :: q in MarkC() <==> q == C();
    forall i: int | i >= 0 ensures !Affected(Cycle2(), i) { Unaffected2(i); }
  }

  lemma AllRead2()
    ensures AllRead(Cycle2(), {}) && NewRowsOf(Cycle2(), []) && DeferredSet(Cycle2()) == {} && NoneLost(Cycle2())
  {
    hide Reads, IsNew, Deferred, Lost;
    forall p ensures !Reads(Cycle2(), p) && !IsNew(Cycle2(), p) && (p in MarkC() ==> !Deferred(Cycle2(), p)) && !Lost(Cycle2(), p) { Nothing2(p); }
  }

  lemma Kept2()
    ensures var c := Cycle2(); Replaced(c, 2) == Shards() && SeqAfter(c, 2) == 2 && OldFiles(c, 2) == []
  {
    hide Affected, T.Old, Wide;
    Unaffected2(0);
    Unaffected2(1);
    var c := Cycle2();
    assert Replaced(c, 0) == [];
    assert Replacement(c, 0) == [Wide()] && Replacement(c, 1) == [T.Old()];
    assert Replaced(c, 1) == [Wide()];
    assert SeqAfter(c, 0) == 2 && SeqAfter(c, 1) == 2;
    assert OldFiles(c, 0) == [] && OldFiles(c, 1) == [];
  }

  lemma PlanIs2()
    ensures CyclePlan(Cycle2(), [], WithA()) == Plan2() && Seen(Cycle2(), WithA()) == map[]
  {
    hide Affected, Reads, Replaced, SeqAfter, OldFiles, DeferredSet, C, Shards, MarkC, WithA, Seen, ShardsAfter;
    Kept2();
    AllRead2();
    MarkCIs();
    SeenIs2();
    List2();
    assert {C()} - {} == {C()};
  }

  lemma MarkCIs()
    ensures |MarkC()| > 0 && MarkC().Keys == {C()} && forall p :: p in MarkC() <==> p == C()
  {
    hide C;
    assert C() in MarkC();
  }

  lemma SeenIs2()
    ensures Seen(Cycle2(), WithA()) == map[]
  {
    hide Reads, C, MarkC, WithA, Shards;
    MarkCIs();
    GoneC();
  }

  lemma List2()
    ensures ShardsAfter(Cycle2(), []) == Shards() && |Shards()| == 2
  {
    hide Replaced, C, MarkC, T.Old, Wide, SortShards;
    Kept2();
    MarkCIs();
    assert Unsorted(Cycle2(), []) == Shards();
    Sorted2([Wide(), T.Old()]);
  }

  lemma GoneC()
    ensures C() !in WithA() && A() in WithA() && Put(WithBoth(), C(), None) == WithA()
    ensures Put(T.DiskAt(0), A(), Some(Small())) == WithA() && Put(WithA(), C(), Some(Small())) == WithBoth()
    ensures C() in WithBoth() && WithBoth()[C()] == Small() && WithBoth()[A()] == Small()
  {
    hide A, C, Small, T.Name;
    InOrder();
    assert C() !in T.DiskAt(0);
    TakenBack(WithA(), C(), Small());
  }

  lemma TakenBack(disk: Disk, p: Bytes, f: DiskFile)
    requires p !in disk
    ensures Put(disk[p := f], p, None) == disk
  {
    assert disk[p := f] - {p} == disk;
  }

  // ---- the run ----

  function At(disk: Disk, owed: set<Bytes>, dirty: Dirty, work: Work): State {
    State(disk, owed, T.Files(1), T.First(), Up([T.Old()], 1, dirty, [], Quiet, Open, work))
  }

  function Then(disk: Disk, owed: set<Bytes>, m: Option<Manifest>, dirty: Dirty, watch: Watch, work: Work): State {
    State(disk, owed, Files2(), m, Up(Shards(), 2, dirty, [], watch, Open, work))
  }

  /** The new files are written and marked, and a cycle stores them. */
  function StoreState(k: nat): State {
    if k == 8 then At(WithA(), {A()}, map[], Idle)
    else if k == 9 then At(WithA(), {}, MarkA(), Idle)
    else if k == 10 then At(WithBoth(), {C()}, MarkA(), Idle)
    else if k == 11 then At(WithBoth(), {}, Marks2(), Idle)
    else if k == 12 then At(WithBoth(), {}, Marks2(), Taken(Marks2()))
    else if k == 13 then At(WithBoth(), {}, Marks2(), Reading(Cycle1(map[]), map[], {}))
    else if k == 14 then At(WithBoth(), {}, Marks2(), Reading(Cycle1(map[]), Looked(), {}))
    else if k == 15 then At(WithBoth(), {}, Marks2(), Reading(Cycle1(map[]), Both(), {}))
    else if k == 16 then At(WithBoth(), {}, Marks2(), Reading(Cycle1(Looked()), Both(), {A()}))
    else if k == 17 then At(WithBoth(), {}, Marks2(), Reading(Cycle1(Both()), Both(), {A(), C()}))
    else if k == 18 then At(WithBoth(), {}, Marks2(), Reading(Cycle1(Both()), Both(), {A(), C()})).(files := Files2())
    else if k == 19 then Then(WithBoth(), {}, T.First(), Marks2(), Quiet, Published(Plan1()))
    else if k == 20 then Then(WithBoth(), {}, Second(), Marks2(), Quiet, Cleaning(Plan1(), [], []))
    else Then(WithBoth(), {}, Second(), map[], Quiet, Idle)
  }

  /** One of them is removed and marked, and a cycle drops the mark. */
  function DropState(k: nat): State {
    if k == 22 then Then(WithA(), {C()}, Second(), map[], Quiet, Idle)
    else if k == 23 then Then(WithA(), {}, Second(), MarkC(), Removing(C(), {}), Idle)
    else if k == 24 then Then(WithA(), {}, Second(), MarkC(), Quiet, Idle)
    else if k == 25 then Then(WithA(), {}, Second(), MarkC(), Quiet, Taken(MarkC()))
    else if k == 26 then Then(WithA(), {}, Second(), MarkC(), Quiet, Reading(Cycle2(), map[], {}))
    else if k == 27 then Then(WithA(), {}, Second(), MarkC(), Quiet, Published(Plan2()))
    else if k == 28 then Then(WithA(), {}, Second(), MarkC(), Quiet, Cleaning(Plan2(), [], []))
    else Then(WithA(), {}, Second(), map[], Quiet, Idle)
  }

  function StateNo(k: nat): State {
    if k <= 7 then T.StateNo(k) else if k <= 21 then StoreState(k) else DropState(k)
  }

  function EventNo(k: nat): Event {
    if k < 7 then T.EventNo(k)
    else match k
      case 7 => Change(A(), Some(Small()))
      case 8 => Mark(A())
      case 9 => Change(C(), Some(Small()))
      case 10 => Mark(C())
      case 11 => Tick
      case 12 => Begin(1, 1)
      case 13 => Look(A())
      case 14 => Look(C())
      case 15 => LookAgain(A())
      case 16 => LookAgain(C())
      case 17 => WriteShard(Wide())
      case 18 => Publish(TwoRows())
      case 19 => WriteManifest(true)
      case 20 => Finish
      case 21 => Change(C(), None)
      case 22 => Gone(C(), {})
      case 23 => MarkBelow
      case 24 => Tick
      case 25 => Begin(1, 1)
      case 26 => Publish([])
      case 27 => WriteManifest(true)
      case _ => Finish
  }

  lemma Built(k: nat)
    requires k < 7
    ensures Step(StateNo(k), EventNo(k), StateNo(k + 1))
  {
    hide T.StateNo, T.EventNo, Step, StoreState, DropState;
    T.EachStep(k);
  }

  lemma Displays()
    ensures var none: Dirty := map[]; none[A() := false] == MarkA() && none[C() := true] == MarkC()
    ensures {} + {A()} == {A()} && {} + {C()} == {C()} && {A()} - {A()} == {} && {C()} - {C()} == {} && {A()} + {C()} == {A(), C()}
    ensures var none: Disk := map[]; none[A() := Small()] == Looked()
  {
    hide A, C, Small;
  }

  lemma WritesNew(k: nat)
    requires 7 <= k < 11
    ensures WorldStep(StateNo(k), EventNo(k), StateNo(k + 1))
  {
    hide A, C, Small, T.Old, T.Files, T.First, T.DiskAt, WithA, WithBoth, MarkA, Put, DropState;
    Displays();
    GoneC();
    FirstBuilt();
  }

  lemma FirstBuilt()
    ensures T.StateNo(7) == At(T.DiskAt(0), {}, map[], Idle)
  {
    hide T.Old, T.Files, T.First, T.DiskAt;
  }

  lemma Takes1()
    ensures TickerStep(StateNo(11), EventNo(11), StateNo(12)) && TickerStep(StateNo(12), EventNo(12), StateNo(13))
  {
    hide A, C, Small, T.Old, T.Files, T.First, WithBoth, Marks2, Reads, DropState;
    MarksAre();
  }

  lemma LooksA()
    ensures TickerStep(StateNo(13), EventNo(13), StateNo(14))
  {
    hide A, C, Small, T.Old, T.Files, T.First, WithA, WithBoth, Marks2, Reads, DropState, Looked;
    MarksAre();
    GoneC();
    Displays();
    Reads1(map[], A());
  }

  lemma LooksC()
    ensures TickerStep(StateNo(14), EventNo(14), StateNo(15))
  {
    hide A, C, Small, T.Old, T.Files, T.First, WithA, WithBoth, Marks2, Reads, DropState, Looked;
    MarksAre();
    GoneC();
    InBoth();
    Reads1(map[], C());
  }

  lemma InBoth()
    ensures A() in WithBoth() && C() in WithBoth() && C() !in Looked() && A() in Looked()
    ensures Looked()[A()] == Small() && A() in Both() && C() in Both() && Both()[A()] == Small() && Both()[C()] == Small()
  {
    hide Small;
  }

  lemma LooksAgainA()
    ensures TickerStep(StateNo(15), EventNo(15), StateNo(16))
  {
    hide A, C, Small, T.Old, T.Files, T.First, WithA, WithBoth, Marks2, Mixed, DropState, Both;
    GoneC();
    InBoth();
    Displays();
    MixedIs(A(), map[]);
  }

  lemma LooksAgainC()
    ensures TickerStep(StateNo(16), EventNo(16), StateNo(17))
  {
    hide A, C, Small, T.Old, T.Files, T.First, WithA, WithBoth, Marks2, Mixed, DropState, Looked, Both;
    GoneC();
    InBoth();
    Displays();
    InOrder();
    MixedIs(C(), Looked());
    BothIs();
  }

  lemma BothIs()
    ensures Looked()[C() := Small()] == Both()
  {
  }

  lemma Writes1()
    ensures TickerStep(StateNo(17), EventNo(17), StateNo(18))
  {
    hide A, C, Small, T.Old, T.Files, T.First, WithA, WithBoth, Marks2, DropState, Both, NewRowsOf, AllRead, SeqAfter, TwoRows;
    AllRead1();
    NewRows1();
    Kept1();
    TwoOfThem();
  }

  lemma TwoOfThem()
    ensures TwoRows() != []
  {
  }

  lemma Publishes1()
    ensures TickerStep(StateNo(18), EventNo(18), StateNo(19))
  {
    hide A, C, Small, T.Old, T.Files, T.First, WithA, WithBoth, Marks2, DropState, Both, NewRowsOf, AllRead, CyclePlan, TwoRows, Stored;
    AllRead1();
    NewRows1();
    PlanIs1();
    WideStored();
  }

  lemma WideStored()
    ensures forall t :: t in Shards() && t.seqNo >= 1 ==> Stored(t, Files2())
  {
  }

  lemma Names2()
    ensures Names(Shards()) == [1, 0]
  {
  }

  lemma Manifest1()
    ensures TickerStep(StateNo(19), EventNo(19), StateNo(20))
  {
    hide A, C, Small, T.Old, T.First, WithA, WithBoth, Marks2, DropState, Both, TwoRows, Shards, Files2;
    Names2();
  }

  lemma Ends1()
    ensures TickerStep(StateNo(20), EventNo(20), StateNo(21))
  {
    hide A, C, Small, T.Old, T.First, WithA, WithBoth, Marks2, DropState, Both, TwoRows, Shards, Files2;
    MarksAre();
    assert Dropped(Plan1(), Marks2()) == map[];
    var none: seq<nat> := [];
    assert none + none == none;
  }

  lemma Removed()
    ensures WorldStep(StateNo(21), EventNo(21), StateNo(22))
  {
    hide A, C, Small, T.First, WithA, WithBoth, Shards, Files2, Put;
    Displays();
    GoneC();
  }

  lemma IsGone()
    ensures WorldStep(StateNo(22), EventNo(22), StateNo(23))
  {
    hide T.First, WithA, Shards, Files2, AllRows, StoreState, C;
    Displays();
    GoneC();
    NoneBelow();
  }

  lemma NoneBelow()
    ensures MarksUnder(Shards(), C(), {}) && NotThere(C(), {C()}, WithA())
  {
    hide AllRows, CountPath, A, Small;
    ShardRows();
    InOrder();
    forall p | C() + [SLASH] <= p ensures CountPath(AllRows(Shards()), p) == 0 {
      assert p[0] == 98 && p[1] == SLASH;
      Counts(p);
    }
    assert forall p :: p in WithA() ==> p == A() || p == T.Name();
    assert !Under(C(), T.Name()) && !Under(C(), A()) by { NotUnder(); }
  }

  lemma NotUnder()
    ensures !Under(C(), T.Name()) && !Under(C(), A())
  {
    assert !(C() + [SLASH] <= T.Name()) by { assert (C() + [SLASH])[0] != T.Name()[0]; }
    assert !(C() + [SLASH] <= A());
  }

  lemma ShardRows()
    ensures AllRows(Shards()) == TwoRows() + [T.RowAt(0)]
  {
    hide TwoRows, T.RowAt;
    assert Shards()[..1] == [Wide()];
    OneShard(Wide());
  }

  lemma Counts(p: Bytes)
    ensures CountPath(AllRows(Shards()), p) == OneIf(A() == p) + OneIf(C() == p) + OneIf(T.Name() == p)
  {
    hide CountPath, AllRows, A, C, T.Name;
    ShardRows();
    CountAppend(TwoRows(), [T.RowAt(0)], p);
    TwoRowCount(RowOf(A()), RowOf(C()), p);
    OneRowCount(T.RowAt(0), p);
  }

  lemma NothingBelow()
    ensures WorldStep(StateNo(23), EventNo(23), StateNo(24))
  {
    hide T.First, WithA, Shards, Files2, C, StoreState;
    assert Settled(StateNo(23), C()) == {};
    assert AllDeleted({}) == map[];
    assert MarkC() + map[] == MarkC();
    var none: set<Bytes> := {};
    assert none - none == none;
  }

  lemma Takes2()
    ensures TickerStep(StateNo(24), EventNo(24), StateNo(25)) && TickerStep(StateNo(25), EventNo(25), StateNo(26))
  {
    hide C, T.First, WithA, Shards, Files2, StoreState, Reads;
    assert C() in MarkC() && |MarkC()| > 0;
  }

  lemma Publishes2()
    ensures TickerStep(StateNo(26), EventNo(26), StateNo(27))
  {
    hide C, T.First, WithA, Shards, Files2, StoreState, NewRowsOf, AllRead, CyclePlan, Stored, MarkC, T.Old, Wide;
    AllRead2();
    PlanIs2();
    BelowTwo();
  }

  lemma BelowTwo()
    ensures forall t :: t in Shards() ==> t.seqNo < 2
  {
  }

  lemma Manifest2()
    ensures TickerStep(StateNo(27), EventNo(27), StateNo(28))
  {
    hide C, T.First, WithA, Shards, Files2, StoreState;
    Names2();
  }

  lemma Ends2()
    ensures TickerStep(StateNo(28), EventNo(28), StateNo(29))
  {
    hide C, T.First, WithA, Shards, Files2, StoreState;
    assert Dropped(Plan2(), MarkC()) == map[];
    var none: seq<nat> := [];
    assert none + none == none;
  }

  lemma EachStep(k: nat)
    requires k < 29
    ensures Step(StateNo(k), EventNo(k), StateNo(k + 1))
  {
    hide StateNo, EventNo, WorldStep, OpenerStep, TickerStep;
    if k < 7 { Built(k); } else if k < 11 { WritesNew(k); }
    Takes1();
    LooksA();
    LooksC();
    LooksAgainA();
    LooksAgainC();
    Writes1();
    Publishes1();
    Manifest1();
    Ends1();
    Removed();
    IsGone();
    NothingBelow();
    Takes2();
    Publishes2();
    Manifest2();
    Ends2();
  }

  // ---- what is wrong with it ----

  lemma OnlyTheOrder(k: nat)
    requires k < 29
    ensures InTurn(StateNo(k), EventNo(k)) && Careful(StateNo(k), EventNo(k))
    ensures (Reliable(StateNo(k), EventNo(k)) <==> k != 26) && (NoneSpanned(StateNo(k), EventNo(k)) <==> k != 18)
  {
    hide InTurn, Reliable, Careful, StateNo, Spanned;
    SpansOld();
    SpansNone(k);
    MostAreFree(StateNo(k), EventNo(k));
    Turns();
    Opens();
    Publish1Allowed();
    FinishAllowed();
    BelowAllowed();
    Publish2Fails();
  }

  lemma SpansOld()
    ensures !NoneSpanned(StateNo(18), EventNo(18))
  {
    hide Less, T.Name, T.Old, A, C, T.Files, T.First, WithBoth, Files2, DropState, Both, Marks2;
    InOrder();
    OldEnds();
    Unaffected1(Both());
    WideRange();
    assert Spanned(Cycle1(Both()), TwoRows(), 0);
  }

  lemma WideRange()
    ensures ShardRange(Shard(0, TwoRows())) == Range(A(), C()) && T.Old().rows != []
  {
  }

  lemma SpansNone(k: nat)
    requires k < 29
    ensures k != 18 ==> NoneSpanned(StateNo(k), EventNo(k))
  {
    hide StateNo, T.EventNo;
    if k < 7 { BuildsOnly(k); }
  }

  lemma BuildsOnly(k: nat)
    requires k < 7
    ensures !T.EventNo(k).Publish?
  {
  }

  lemma Turns()
    ensures InTurn(StateNo(11), EventNo(11)) && InTurn(StateNo(24), EventNo(24))
  {
    hide A, C, Small, T.Old, T.Files, T.First, WithA, WithBoth, Marks2, Shards, Files2;
  }

  lemma Opens()
    ensures Careful(StateNo(5), EventNo(5))
  {
    hide T.Old, T.Files, T.DiskAt, StoreState, DropState, AllRows;
  }

  lemma Publish1Allowed()
    ensures Careful(StateNo(18), EventNo(18)) && Reliable(StateNo(18), EventNo(18))
  {
    hide A, C, Small, T.Files, T.First, WithA, WithBoth, DropState, Both, TwoRows, Seen, NoneLost, AllRows, ShardsAfter, OrderedShards, T.Old;
    OldOrdered();
    NoneLost1(Seen(Cycle1(Both()), WithBoth()));
  }

  lemma OldOrdered()
    ensures OrderedShards([T.Old()])
  {
    hide Less, OrderedRanges, RangesOf, T.Name;
    OneShardHome(T.Old(), T.Name());
    OldEnds();
  }

  lemma NoneLost1(disk: Disk)
    ensures NoneLost(Cycle1(disk))
  {
    hide Home, A, C, CountPath, IsBinary;
    NoHome1(A());
    NoHome1(C());
    MarksAre();
  }

  lemma FinishAllowed()
    ensures Careful(StateNo(20), EventNo(20)) && Careful(StateNo(28), EventNo(28))
  {
    hide A, C, T.First, Shards, Files2, WithA, WithBoth, Both, NoneSwallowed, Marks2;
    NothingSwallowed1();
    NothingSwallowed2();
  }

  lemma NothingSwallowed1()
    ensures NoneSwallowed(Plan1(), Marks2(), {}, WithBoth())
  {
    hide A, C, Shards, WithA, WithBoth, Both;
    MarksAre();
    SeenSame();
  }

  lemma NothingSwallowed2()
    ensures NoneSwallowed(Plan2(), MarkC(), {}, WithA())
  {
    hide C, Shards, WithA;
  }

  lemma SeenSame()
    ensures SameAt(Both(), WithBoth(), A()) && SameAt(Both(), WithBoth(), C())
  {
    hide Small, A, C, WithA, WithBoth, Both;
    GoneC();
    InBoth();
  }

  lemma BelowAllowed()
    ensures Careful(StateNo(23), EventNo(23))
  {
    hide C, T.First, WithA, Shards, Files2, StoreState, Settled;
  }

  lemma Publish2Fails()
    ensures Careful(StateNo(26), EventNo(26)) && !Reliable(StateNo(26), EventNo(26))
  {
    hide C, T.First, WithA, Shards, Files2, StoreState, NoneLost, AllRows, ShardsAfter, OrderedShards, MarkC, Seen;
    Unordered();
    SeenIs2();
    AllRead2();
    SameCycle2();
  }

  lemma SameCycle2()
    ensures var none: Disk := map[]; Cycle2().(disk := none) == Cycle2()
  {
    hide MarkC, Shards;
  }

  lemma EndsWrong()
    ensures WrongAbout(StateNo(29), EveryLine(), C())
  {
    hide T.First, Files2, EveryLine, AllRows, WithA, StoreState, PruningOk, RowsAnswer, FileLines, C, A, Shards, CountPath, Wanted;
    GoneC();
    Reported();
    InOrder();
    Counts(C());
    ShardRows();
    var rows := AllRows(Shards());
    assert RowOf(C()) == TwoRows()[1] && RowOf(C()) in rows;
    OneRow(rows, WithA(), EveryLine(), RowOf(C()));
  }

  lemma Reported()
    ensures FileLines(EveryLine(), C(), [120]) != [] && PruningOk(EveryLine())
    ensures RowAnswer(WithA(), EveryLine(), RowOf(C())) == FileLines(EveryLine(), C(), [120])
  {
    hide FileLines, C, A;
    SmallFile(98, 120, map[[98] := FileNo(120)]);
    GoneC();
    EveryLineReports(WithBoth(), C());
  }

  lemma Starts()
    ensures StateNo(0).files == map[] && StateNo(0).manifest == None && StateNo(0).mem == Down
  {
    T.Ends();
  }

  /** Two new files on either side of a shard are stored around it by a publish at `n`, and
      then one of them is removed: after the publish at `i` searches go on reporting it,
      although every other condition is met. */
  lemma RemovedStays() returns (ss: seq<State>, es: seq<Event>, n: nat, i: nat, q: Query, p: Bytes)
    ensures Run(ss, es) && InTurnBetween(ss, es, 0, |es|) && n < i < |es| && es[n].Publish? && es[i].Publish?
    ensures forall k :: 0 <= k < |es| ==> (NoneSpanned(ss[k], es[k]) <==> k != n)
    ensures forall k :: 0 <= k < |es| ==> Careful(ss[k], es[k]) && (Reliable(ss[k], es[k]) <==> k != i)
    ensures WrongAbout(ss[|es|], q, p)
  {
    hide Step, StateNo, T.EventNo, InTurn, Reliable, Careful, WrongAbout, EveryLine, NoneSpanned, A, C;
    ss, es := seq(30, k requires 0 <= k < 30 => StateNo(k)), seq(29, k requires 0 <= k < 29 => EventNo(k));
    n, i, q, p := 18, 26, EveryLine(), C();
    forall k | 0 <= k < |es| ensures Step(ss[k], es[k], ss[k + 1]) { EachStep(k); }
    Starts();
    EndsWrong();
    forall k | 0 <= k < |es|
      ensures InTurn(ss[k], es[k]) && Careful(ss[k], es[k]) && (Reliable(ss[k], es[k]) <==> k != i) && (NoneSpanned(ss[k], es[k]) <==> k != n)
    {
      OnlyTheOrder(k);
    }
  }
}
