/** Runs of the read-after-write protocol, from a coherent start. */
module BarrierRuns {
  import opened Prelude
  import opened Barrier

  /** Ready and coherent: everything on disk is applied, every directory watched, and
      nothing is on its way. */
  ghost predicate Start(s: State) {
    && [] in s.dirs && s.watched == s.dirs && (forall d :: d in s.dirs && d != [] ==> Parent(d) in s.dirs)
    && (forall d :: d in s.dirs ==> At(s.version, d) == 0)
    && (forall f :: f in s.live ==> f != [] && Parent(f) in s.dirs && f !in s.dirs && At(s.version, f) > 0)
    && s.applied == s.version && s.queue == [] && s.pending == {} && s.loop == Selecting && s.out == [] && s.cookies == []
    && s.consumer == Resting && s.caller == Away
  }

  lemma StartsWell(s: State)
    requires Start(s)
    ensures Inv(s)
  {
  }

  ghost predicate Run(ss: seq<State>, es: seq<Step>) {
    |ss| == |es| + 1 && Start(ss[0]) && forall k :: 0 <= k < |es| ==> Next(ss[k], es[k], ss[k + 1])
  }

  lemma {:induction false} InvHolds(ss: seq<State>, es: seq<Step>, k: nat)
    requires Run(ss, es) && k < |ss|
    ensures Inv(ss[k])
  {
    hide Inv, Start, Next;
    if k == 0 {
      StartsWell(ss[0]);
    } else {
      InvHolds(ss, es, k - 1);
      KeepsStep(ss[k - 1], es[k - 1], ss[k]);
    }
  }

  /** While the caller is at it, its floor stays what the versions were when it called. */
  ghost predicate CalledAt(ss: seq<State>, es: seq<Step>, i: nat, k: nat)
    requires |ss| == |es| + 1
  {
    && i < k < |ss| && es[i] == Call
    && forall j :: i < j < k ==> !es[j].Call? && !es[j].GiveUp? && !es[j].Return?
  }

  predicate DeletedBetween(es: seq<Step>, i: nat, k: nat, p: Path)
    requires k <= |es|
  {
    exists j | i < j < k :: es[j] == Delete(p)
  }

  lemma {:induction false} FloorStays(ss: seq<State>, es: seq<Step>, i: nat, k: nat)
    requires Run(ss, es) && CalledAt(ss, es, i, k)
    ensures !ss[k].caller.Away? && ss[k].caller.floor == ss[i].version
    ensures forall p :: p in ss[k].caller.gone <==> DeletedBetween(es, i, k, p)
  {
    hide Start, Next, DeletedBetween;
    if k == i + 1 {
      JustCalled(ss[i], es[i], ss[i + 1]);
      forall p ensures !DeletedBetween(es, i, k, p) { NoneYet(es, i, p); }
    } else {
      FloorStays(ss, es, i, k - 1);
      StepKeepsCall(ss[k - 1], es[k - 1], ss[k - 1 + 1]);
      forall p ensures DeletedBetween(es, i, k, p) <==> DeletedBetween(es, i, k - 1, p) || es[k - 1] == Delete(p) { OneMoreStep(es, i, k, p); }
    }
  }

  lemma JustCalled(s: State, e: Step, s': State)
    requires Next(s, e, s') && e == Call
    ensures s'.caller == Called(s.version, {})
  {
  }

  lemma NoneYet(es: seq<Step>, i: nat, p: Path)
    requires i + 1 <= |es|
    ensures !DeletedBetween(es, i, i + 1, p)
  {
  }

  lemma OneMoreStep(es: seq<Step>, i: nat, k: nat, p: Path)
    requires i + 1 < k <= |es|
    ensures DeletedBetween(es, i, k, p) <==> DeletedBetween(es, i, k - 1, p) || es[k - 1] == Delete(p)
  {
  }

  lemma StepKeepsCall(s: State, e: Step, s': State)
    requires Next(s, e, s') && !s.caller.Away? && !e.Call? && !e.GiveUp? && !e.Return?
    ensures !s'.caller.Away? && s'.caller.floor == s.caller.floor
    ensures s'.caller.gone == s.caller.gone + if e.Delete? then {e.p} else {}
  {
    hide At, FreshReq, FilesIn, Children;
  }

  /** Read after write: when the barrier returns, having seen its own cookie and its
      flush through, every write made before the call has been applied from a read made
      after that write, unless the file was deleted since. */
  lemma ReadAfterWrite(ss: seq<State>, es: seq<Step>, i: nat, k: nat, p: Path)
    requires Run(ss, es) && k < |es| && CalledAt(ss, es, i, k) && es[k] == Return && !DeletedBetween(es, i, k, p)
    ensures At(ss[k].applied, p) >= At(ss[i].version, p)
  {
    InvHolds(ss, es, k);
    FloorStays(ss, es, i, k);
    hide Start, At, TreeOk, VersionsOk, CookiesOk, RequestsOk, AllCovered, DeletedBetween;
    assert Next(ss[k], es[k], ss[k + 1]);
    assert FloorAt(ss[k], p, At(ss[k].caller.floor, p));
  }

  // ---- a run in which the barrier returns ----

  function Fresh(): State {
    State(map[], {}, {[]}, {[]}, [], {}, Selecting, [], [], Resting, map[], {}, 0, Away)
  }

  function Written(): State {
    Fresh().(version := map[[1] := 1], live := {[1]}, queue := [Changed([1])])
  }

  function CallMade(): State { Written().(caller := Called(map[[1] := 1], {})) }

  function CookieOut(): State {
    Written().(used := 1, queue := [Changed([1]), Cookie(1)], caller := Waiting(map[[1] := 1], {}, 1))
  }

  function EventTaken(): State { CookieOut().(queue := [Cookie(1)], pending := {[1]}) }

  function CookieBack(): State {
    CookieOut().(queue := [], pending := {[1]}, cookies := [1])
  }

  function FlushAsked(): State { CookieBack().(cookies := [], caller := Asking(map[[1] := 1], {}, 7)) }

  function Flushing(): State {
    CookieBack().(cookies := [], pending := {}, loop := Emitting(Batch({[1]}, Some(7))), caller := Awaiting(map[[1] := 1], {}, 7))
  }

  function BatchSent(): State { Flushing().(loop := Selecting, out := [Batch({[1]}, Some(7))]) }

  function Taken(): State {
    Flushing().(loop := Selecting, consumer := Working({[1]}, {}, None, Some(7)))
  }

  function FileRead(): State { Taken().(consumer := Working({}, {}, Some(([1], 1)), Some(7))) }

  function Applied(): State {
    Taken().(consumer := Working({}, {}, None, Some(7)), applied := map[[1] := 1])
  }

  function Ended(): State { Applied().(consumer := Resting, closed := {7}) }

  function Returned(): State { Ended().(caller := Away) }

  lemma WriteAndCall()
    ensures Start(Fresh()) && Next(Fresh(), Write([1]), Written())
    ensures Next(Written(), Call, CallMade()) && Next(CallMade(), WriteCookie, CookieOut())
  {
    assert Parent([1]) == [];
  }

  lemma TwoEvents()
    ensures Next(CookieOut(), Dequeue, EventTaken()) && Next(EventTaken(), Dequeue, CookieBack())
  {
    assert CookieOut().queue[1..] == [Cookie(1)] && [Cookie(1)][1..] == [];
  }

  lemma AskAndAccept()
    ensures Next(CookieBack(), Ask(7), FlushAsked()) && Next(FlushAsked(), Accept, Flushing())
  {
  }

  lemma SendAndTake()
    ensures Next(Flushing(), Send, BatchSent()) && Next(BatchSent(), Take, Taken())
  {
  }

  lemma ReadAndStore()
    ensures Next(Taken(), PickFile([1]), FileRead()) && Next(FileRead(), Store, Applied())
  {
    assert Taken().consumer.todo - {[1]} == {} && Taken().consumer.files - {[1]} == {};
    assert [1] in Taken().consumer.todo + Taken().consumer.files;
  }

  lemma EndAndReturn()
    ensures Next(Applied(), EndBatch, Ended()) && Next(Ended(), Return, Returned())
  {
  }

  function StateNo(k: nat): State {
    if k == 0 then Fresh() else if k == 1 then Written() else if k == 2 then CallMade() else if k == 3 then CookieOut()
    else if k == 4 then EventTaken() else if k == 5 then CookieBack() else if k == 6 then FlushAsked() else if k == 7 then Flushing()
    else if k == 8 then BatchSent() else if k == 9 then Taken() else if k == 10 then FileRead() else if k == 11 then Applied()
    else if k == 12 then Ended() else Returned()
  }

  function StepNo(k: nat): Step {
    if k == 0 then Write([1]) else if k == 1 then Call else if k == 2 then WriteCookie else if k == 3 || k == 4 then Dequeue
    else if k == 5 then Ask(7) else if k == 6 then Accept else if k == 7 then Send else if k == 8 then Take else if k == 9 then PickFile([1])
    else if k == 10 then Store else if k == 11 then EndBatch else Return
  }

  lemma EachStep(k: nat)
    requires k < 13
    ensures Next(StateNo(k), StepNo(k), StateNo(k + 1))
  {
    hide Next, Fresh, Written, CallMade, CookieOut, EventTaken, CookieBack, FlushAsked, Flushing, BatchSent, Taken, FileRead, Applied, Ended, Returned;
    WriteAndCall();
    TwoEvents();
    AskAndAccept();
    SendAndTake();
    ReadAndStore();
    EndAndReturn();
  }

  /** The guarantee is not empty: there is a run with a write, a call and a return. */
  lemma BarrierReturns() returns (ss: seq<State>, es: seq<Step>)
    ensures Run(ss, es) && |es| == 13 && es[0] == Write([1]) && CalledAt(ss, es, 1, 12) && es[12] == Return
  {
    WriteAndCall();
    hide Next, Start, Fresh, Written, CallMade, CookieOut, EventTaken, CookieBack, FlushAsked, Flushing, BatchSent, Taken, FileRead, Applied, Ended, Returned;
    ss := seq(14, k requires 0 <= k < 14 => StateNo(k));
    es := seq(13, k requires 0 <= k < 13 => StepNo(k));
    forall k | 0 <= k < 13 ensures Next(ss[k], es[k], ss[k + 1]) { EachStep(k); }
  }
}
