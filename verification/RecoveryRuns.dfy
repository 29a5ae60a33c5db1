/** Runs of the disk engine with crashes. */
module RecoveryRuns {
  import opened Prelude
  import opened Bytes
  import opened EngineSpec
  import opened Rebuild
  import opened Engine
  import opened Recovery
  import opened Consistency
  import opened Ordering
  import opened Truthful
  import opened Healing
  import Naming

  /** Any run, from anything on disk and in memory. */
  ghost predicate Steps(ss: seq<State>, es: seq<Event>) {
    |ss| == |es| + 1 && forall k :: 0 <= k < |es| ==> Step(ss[k], es[k], ss[k + 1])
  }

  /** A run from an empty shard directory, whatever changes on disk and whenever it crashes. */
  ghost predicate Run(ss: seq<State>, es: seq<Event>) {
    Steps(ss, es) && ss[0].files == map[] && ss[0].manifest == None && ss[0].mem == Down
  }

  /** From step `j` and before step `k` no cycle started until the engine was open. */
  predicate InTurnBetween(ss: seq<State>, es: seq<Event>, j: nat, k: nat) {
    forall i :: j <= i < k && i < |es| && i < |ss| ==> InTurn(ss[i], es[i])
  }

  /** Nor, before step `k`, did a manifest that cannot be written leave one that names files
      about to be removed. */
  predicate NoneStrandedUntil(ss: seq<State>, es: seq<Event>, k: nat) {
    forall i :: 0 <= i < k && i < |es| && i < |ss| ==> NoneStranded(ss[i], es[i])
  }

  ghost predicate HarmlessBetween(ss: seq<State>, es: seq<Event>, j: nat, k: nat) {
    forall i :: j <= i < k && i < |es| && i < |ss| ==> Harmless(ss[i], es[i])
  }

  ghost predicate NoneSpannedUntil(ss: seq<State>, es: seq<Event>, k: nat) {
    forall i :: 0 <= i < k && i < |es| && i < |ss| ==> NoneSpanned(ss[i], es[i])
  }

  ghost predicate SteadyUntil(o: Oracle, ss: seq<State>, es: seq<Event>, k: nat) {
    && (|ss| > 0 ==> TrueDisk(o, ss[0].disk))
    && forall i :: 0 <= i < k && i < |es| && i < |ss| ==> Steady(o, ss[i], es[i])
  }

  /** Only a few kinds of step have conditions to meet. */
  lemma MostAreFree(s: State, e: Event)
    ensures !e.Tick? ==> InTurn(s, e)
    ensures !(e.WriteManifest? && !e.written) ==> NoneStranded(s, e)
    ensures !e.Install? && !e.Publish? ==> Reliable(s, e)
    ensures !e.MarkBelow? && !e.MarkStale? && !e.Install? && !e.PublishFirst? && !e.Publish? && !e.Finish? ==> Careful(s, e)
  {
    hide AllRows, Settled, Seen, NoneLost, NoneSwallowed, Unique, Trusted, OrderedShards, Covered, ShardsAfter;
  }

  // ---- what is on disk ----

  lemma StartsNamed(s: State)
    requires s.manifest == None && s.mem == Down
    ensures Named(s)
  {
  }

  lemma {:induction false} NamedHolds(ss: seq<State>, es: seq<Event>, k: nat)
    requires Run(ss, es) && k < |ss| && InTurnBetween(ss, es, 0, k) && NoneStrandedUntil(ss, es, k)
    ensures Named(ss[k])
  {
    hide Named, Step, InTurn, NoneStranded;
    if k == 0 {
      StartsNamed(ss[0]);
    } else {
      NamedHolds(ss, es, k - 1);
      assert InTurn(ss[k - 1], es[k - 1]) && NoneStranded(ss[k - 1], es[k - 1]);
      Naming.KeepsNamed(ss[k - 1], es[k - 1], ss[k]);
    }
  }

  /** Every shard file the manifest names exists, at every point a crash can hit. */
  lemma NamedFilesExist(ss: seq<State>, es: seq<Event>, k: nat)
    requires Run(ss, es) && k < |ss| && InTurnBetween(ss, es, 0, k) && NoneStrandedUntil(ss, es, k)
    ensures ss[k].manifest.Some? ==> forall n :: n in ss[k].manifest.value.names ==> n in ss[k].files
  {
    hide Run, MemNamed, InTurnBetween, NoneStrandedUntil;
    NamedHolds(ss, es, k);
  }

  /** A manifest written, or a start from what is on disk. */
  predicate Resets(e: Event) {
    e.Crash? || (e.WriteManifest? && e.written)
  }

  /** Between `j` and `i` there is a reset. */
  predicate ResetBetween(es: seq<Event>, j: nat, i: nat) {
    exists m :: j < m < i && m < |es| && Resets(es[m])
  }

  /** Up to `k` no two manifests in a row could not be written. */
  predicate NeverTwice(es: seq<Event>, k: nat) {
    forall j, i :: 0 <= j < i < k && i < |es| && Unwritten(es[j]) && Unwritten(es[i]) ==> ResetBetween(es, j, i)
  }

  /** A manifest that could not be written is made good by `k`. */
  predicate MadeGood(es: seq<Event>, k: nat) {
    forall j :: 0 <= j < k && j < |es| && Unwritten(es[j]) ==> ResetBetween(es, j, k)
  }

  lemma MadeGoodBefore(es: seq<Event>, k: nat)
    requires k < |es| && MadeGood(es, k + 1) && !Resets(es[k])
    ensures MadeGood(es, k)
  {
    hide Resets, Unwritten;
    forall j | 0 <= j < k && Unwritten(es[j]) ensures ResetBetween(es, j, k) {
      assert ResetBetween(es, j, k + 1);
    }
  }

  lemma StartsHeld(s: State, e: Event, s': State)
    requires Named(s) && Step(s, e, s') && Resets(e) && InTurn(s, e)
    ensures Naming.Held(s')
  {
    hide NamesOk, MemNamed, Consistent, OpenerStep, WorldStep, TickerStep, Naming.Held;
    if e.Crash? {
      CrashIsDown(s, e, s');
    } else {
      ManifestTicks(s, e, s');
      Naming.TicksWhenOpen(s, e, s');
      Naming.WritingHolds(s, e, s');
    }
  }

  lemma CrashIsDown(s: State, e: Event, s': State)
    requires e.Crash? && Step(s, e, s')
    ensures Naming.Held(s')
  {
  }

  lemma ManifestTicks(s: State, e: Event, s': State)
    requires e.WriteManifest? && Step(s, e, s')
    ensures TickerStep(s, e, s')
  {
    hide Names;
  }

  /** It is enough that no two manifests in a row cannot be written. */
  lemma {:induction false} NeverTwiceIsSafe(ss: seq<State>, es: seq<Event>, k: nat)
    requires Run(ss, es) && k < |ss| && InTurnBetween(ss, es, 0, k) && NeverTwice(es, k)
    ensures NoneStrandedUntil(ss, es, k) && (MadeGood(es, k) ==> Naming.Held(ss[k]))
  {
    hide Named, Step, InTurn, NoneStranded, Naming.Held, ResetBetween, Resets, Unwritten, MadeGood;
    if k == 0 {
      EmptyHeld(ss[0]);
    } else {
      var e := es[k - 1];
      NeverTwiceIsSafe(ss, es, k - 1);
      NamedHolds(ss, es, k - 1);
      assert InTurn(ss[k - 1], e);
      NamedFits(ss[k - 1]);
      if Unwritten(e) {
        NoneBefore(es, k);
        Naming.HeldIsSafe(ss[k - 1], e, ss[k]);
        NotMadeGood(es, k - 1);
      } else {
        WrittenIsSafe(ss[k - 1], e);
        if Resets(e) {
          StartsHeld(ss[k - 1], e, ss[k]);
        } else if MadeGood(es, k) {
          MadeGoodBefore(es, k - 1);
          Naming.KeepsHeld(ss[k - 1], e, ss[k]);
        }
      }
    }
  }

  lemma EmptyHeld(s: State)
    requires s.mem == Down
    ensures Naming.Held(s)
  {
  }

  lemma NamedFits(s: State)
    requires Named(s)
    ensures Consistent(s.mem)
  {
    hide NamesOk, MemNamed;
  }

  lemma WrittenIsSafe(s: State, e: Event)
    requires !Unwritten(e)
    ensures NoneStranded(s, e)
  {
  }

  lemma NoneBefore(es: seq<Event>, k: nat)
    requires 0 < k <= |es| && NeverTwice(es, k) && Unwritten(es[k - 1])
    ensures MadeGood(es, k - 1)
  {
    hide ResetBetween, Unwritten;
  }

  lemma NotMadeGood(es: seq<Event>, k: nat)
    requires k < |es| && Unwritten(es[k])
    ensures !MadeGood(es, k + 1)
  {
    assert !ResetBetween(es, k, k + 1);
  }

  // ---- answers ----

  lemma {:induction false} RightHolds(ss: seq<State>, es: seq<Event>, j: nat, k: nat)
    requires Steps(ss, es) && j <= k < |ss| && ss[j].mem.Down?
    requires InTurnBetween(ss, es, j, k) && HarmlessBetween(ss, es, j, k)
    ensures Right(ss[k]) && Consistent(ss[k].mem)
  {
    hide Consistent, Right, Step, InTurn, Harmless;
    if k == j {
      DownIsRight(ss[j]);
      DownIsConsistent(ss[j].mem);
    } else {
      RightHolds(ss, es, j, k - 1);
      assert Harmless(ss[k - 1], es[k - 1]) && InTurn(ss[k - 1], es[k - 1]);
      KeepsConsistent(ss[k - 1], es[k - 1], ss[k]);
      KeepsRight(ss[k - 1], es[k - 1], ss[k]);
    }
  }

  /** The engine is open and not owed a mark for `p`, yet answers wrongly about it. */
  ghost predicate WrongAbout(s: State, q: Query, p: Bytes) {
    && s.mem.Up? && s.mem.opening.Open? && p !in s.owed && PruningOk(q)
    && Answer(AllRows(s.mem.shards), s.mem.dirty, s.disk, q, p) != DiskScan(s.disk, q, p)
  }

  /** Once the engine is open, each path not owed a mark is answered for as a scan of the
      files on disk would. Nothing is asked of what happened before the engine was last
      started, at `j`, nor of what it found on disk then, but that the shards it installs
      can be told from stale ones: whatever was lost before, a restart heals. */
  lemma ReadyMeansRight(ss: seq<State>, es: seq<Event>, j: nat, k: nat, q: Query, p: Bytes)
    requires Steps(ss, es) && j <= k < |ss| && ss[j].mem.Down?
    requires InTurnBetween(ss, es, j, k) && HarmlessBetween(ss, es, j, k)
    ensures !WrongAbout(ss[k], q, p)
  {
    hide Steps, WorkRight, WatchRight, AllRows, Coherent, PruningOk, DiskScan, InTurnBetween, HarmlessBetween, RowsAnswer, FileLines, Wanted, Consistent;
    RightHolds(ss, es, j, k);
    if ss[k].mem.Up? && ss[k].mem.opening.Open? && PruningOk(q) {
      CoherentAnswers(AllRows(ss[k].mem.shards), Marks(ss[k].mem.dirty, ss[k].owed), ss[k].disk, q, p);
    }
  }

  // ---- searches in flight ----

  /** A search has loaded the shards at `loaded` and copies the dirty list at `s`. */
  ghost predicate WrongAcross(loaded: State, s: State, q: Query, p: Bytes) {
    && loaded.mem.Up? && loaded.mem.opening.Open? && s.mem.Up? && p !in s.owed && PruningOk(q)
    && Answer(AllRows(loaded.mem.shards), s.mem.dirty, s.disk, q, p) != DiskScan(s.disk, q, p)
  }

  /** Between the two no cycle comes to its end, and no removed directory is settled with
      a path below it forgotten that is stored in the shards loaded. */
  ghost predicate NothingEnds(ss: seq<State>, es: seq<Event>, i: nat, k: nat) {
    forall n :: i <= n < k && n < |es| && n < |ss| ==> Goes(ss[i], ss[n], es[n])
  }

  ghost predicate Goes(loaded: State, s: State, e: Event) {
    !e.Crash? && !e.Finish? && (loaded.mem.Up? ==> !Forgets(AllRows(loaded.mem.shards), s, e))
  }

  lemma {:induction false} RowsHold(ss: seq<State>, es: seq<Event>, i: nat, k: nat)
    requires Steps(ss, es) && i <= k < |ss| && NothingEnds(ss, es, i, k) && ss[i].mem.Up? && ss[i].mem.opening.Open?
    requires Fits(ss[i]) && Coherent(AllRows(ss[i].mem.shards), Marks(ss[i].mem.dirty, ss[i].owed), ss[i].disk)
    ensures ss[k].mem.Up? && ss[k].mem.opening.Open? && Fits(ss[k])
    ensures Coherent(AllRows(ss[i].mem.shards), Marks(ss[k].mem.dirty, ss[k].owed), ss[k].disk)
  {
    hide Coherent, Step, AllRows, Marks, Fits, Forgets;
    if k > i {
      RowsHold(ss, es, i, k - 1);
      assert Goes(ss[i], ss[k - 1], es[k - 1]);
      KeepsFit(ss[k - 1], es[k - 1], ss[k]);
      RowsStayCoherent(AllRows(ss[i].mem.shards), ss[k - 1], es[k - 1], ss[k]);
    }
  }

  /** The dirty list as copied hides what the shards as loaded have out of date, even if
      they have been replaced in between, as long as no cycle has come to its end. */
  lemma SearchAcross(ss: seq<State>, es: seq<Event>, j: nat, i: nat, k: nat, q: Query, p: Bytes)
    requires Steps(ss, es) && j <= i <= k < |ss| && ss[j].mem.Down? && NothingEnds(ss, es, i, k)
    requires InTurnBetween(ss, es, j, i) && HarmlessBetween(ss, es, j, i)
    ensures !WrongAcross(ss[i], ss[k], q, p)
  {
    hide Steps, WorkRight, WatchRight, AllRows, Coherent, PruningOk, DiskScan, InTurnBetween, HarmlessBetween, NothingEnds, RowsAnswer, FileLines, Wanted, Consistent, Fits;
    RightHolds(ss, es, j, i);
    RightFits(ss[i]);
    if ss[i].mem.Up? && ss[i].mem.opening.Open? && PruningOk(q) {
      RowsHold(ss, es, i, k);
      CoherentAnswers(AllRows(ss[i].mem.shards), Marks(ss[k].mem.dirty, ss[k].owed), ss[k].disk, q, p);
    }
  }

  // ---- when shards are reliable ----

  lemma StartsOrdered(o: Oracle, s: State)
    requires s.manifest == None && s.mem == Down
    ensures Ordered(s) && (TrueDisk(o, s.disk) ==> True(o, s))
  {
    hide TrueDisk;
    NoRanges();
    NoShardRows();
  }

  lemma {:induction false} OrderedHolds(ss: seq<State>, es: seq<Event>, k: nat)
    requires Run(ss, es) && k < |ss| && InTurnBetween(ss, es, 0, k) && NoneStrandedUntil(ss, es, k) && NoneSpannedUntil(ss, es, k)
    ensures Ordered(ss[k])
  {
    hide Named, Ordered, Step, InTurn, NoneSpanned, NoneStranded;
    if k == 0 {
      StartsOrdered((p, n, t) => [], ss[0]);
    } else {
      OrderedHolds(ss, es, k - 1);
      NamedHolds(ss, es, k - 1);
      assert NoneSpanned(ss[k - 1], es[k - 1]);
      KeepsOrdered(ss[k - 1], es[k - 1], ss[k]);
    }
  }

  lemma {:induction false} TrueHolds(o: Oracle, ss: seq<State>, es: seq<Event>, k: nat)
    requires Run(ss, es) && k < |ss| && InTurnBetween(ss, es, 0, k) && NoneStrandedUntil(ss, es, k) && SteadyUntil(o, ss, es, k)
    ensures True(o, ss[k])
  {
    hide Named, True, Step, Steady, TrueDisk, InTurn, NoneStranded;
    if k == 0 {
      StartsOrdered(o, ss[0]);
    } else {
      TrueHolds(o, ss, es, k - 1);
      NamedHolds(ss, es, k - 1);
      assert Steady(o, ss[k - 1], es[k - 1]);
      KeepsTrue(o, ss[k - 1], es[k - 1], ss[k]);
    }
  }

  /** What is taken for granted of the shards holds if, from the empty directory on, no
      new shard spans an old one and reads are steady; of a cycle that publishes, the
      first is enough. */
  lemma SteadyIsReliable(o: Oracle, ss: seq<State>, es: seq<Event>, k: nat)
    requires Run(ss, es) && k < |es| && InTurnBetween(ss, es, 0, k) && NoneStrandedUntil(ss, es, k) && NoneSpannedUntil(ss, es, k)
    ensures (es[k].Install? ==> SteadyUntil(o, ss, es, k)) ==> Reliable(ss[k], es[k])
  {
    hide Step, Named, InTurnBetween, NoneStrandedUntil, NoneSpannedUntil, SteadyUntil, Ordered, True, Reliable;
    OrderedHolds(ss, es, k);
    NamedHolds(ss, es, k);
    PublishesOrdered(ss[k], es[k]);
    if es[k].Install? && SteadyUntil(o, ss, es, k) {
      TrueHolds(o, ss, es, k);
      InstallsTrusted(o, ss[k], es[k]);
    }
  }

  lemma PublishesOrdered(s: State, e: Event)
    requires Ordered(s) && Named(s)
    ensures !e.Install? ==> Reliable(s, e)
  {
    hide OrderedShards, Saved, NamesOk, MemNamed, FirstRows;
  }

  lemma InstallsTrusted(o: Oracle, s: State, e: Event)
    requires Ordered(s) && True(o, s) && e.Install?
    ensures Reliable(s, e)
  {
    hide OrderedShards, Saved, AllRows, Unique, TrueRow, SameStat, Agrees, TrueDisk, WorkTrue;
    if s.mem.Up? && s.mem.opening.Loaded? {
      OrderedUnique(s.mem.opening.found);
      forall r | r in AllRows(s.mem.opening.found) && SameStat(r, s.disk) ensures Agrees(r, s.disk) { SameStatAgrees(o, r, s.disk); }
    }
  }
}
