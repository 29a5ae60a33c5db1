/** Where the worker on a file leaves it, told from what the disk answered. */
module Routing {
  // A worker asks the disk about its file once or twice: for its size, and, if the size is
  // within the limit and the budget has room, for its content. What it was told decides
  // where the file ends up, however many other workers are at it.

  import opened Bytes
  import opened Budget

  /** The disk's answers about `p` among the steps from `i` to `k`. */
  function Told(es: seq<Step>, i: nat, k: nat, p: Bytes): seq<Step>
    requires i <= k <= |es|
  {
    if k == i then []
    else Told(es, i, k - 1, p) + (if (es[k - 1].Stats? || es[k - 1].Reads?) && es[k - 1].p == p then [es[k - 1]] else [])
  }

  ghost predicate InIndexOnly(s: State, p: Bytes, n: nat) {
    p in s.index && s.index[p] == n && p !in s.stream
  }

  ghost predicate InStreamOnly(s: State, p: Bytes, n: nat) {
    p in s.stream && s.stream[p] == n && p !in s.index
  }

  ghost predicate InNeither(s: State, p: Bytes) {
    p !in s.index && p !in s.stream
  }

  /** The budget has no room for `n` more bytes. */
  predicate Full(s: State, n: nat) {
    s.budget > 0 && s.total + n > s.budget
  }

  /** The step takes `n` bytes of the budget, which has room for them. */
  predicate Takes(s: State, s': State, n: nat) {
    s'.total == s.total + n && (s.budget > 0 ==> s'.total <= s.budget)
  }

  ghost predicate WasFull(ss: seq<State>, b: nat, k: nat, n: nat) {
    exists j :: b < j < k && j < |ss| && Full(ss[j], n)
  }

  ghost predicate HasTaken(ss: seq<State>, b: nat, k: nat, n: nat) {
    exists j :: b < j < k && j + 1 < |ss| && Takes(ss[j], ss[j + 1], n)
  }

  /** Where the file belongs, given what the disk said and whether there was room: not found
      or not read, nowhere; too large, refused or binary, in the stream set; else in the
      index, with its size. */
  ghost predicate Belongs(ss: seq<State>, b: nat, k: nat, p: Bytes, told: seq<Step>)
    requires k < |ss|
  {
    && 1 <= |told| <= 2 && told[0].Stats?
    && var n := told[0].size; var s := ss[k];
    if !told[0].found then |told| == 1 && InNeither(s, p)
    else if n > s.maxFile then |told| == 1 && InStreamOnly(s, p, n)
    else if |told| == 1 then WasFull(ss, b, k, n) && InStreamOnly(s, p, n)
    else
      && told[1].Reads? && HasTaken(ss, b, k, n)
      && if !told[1].ok then InNeither(s, p) else if told[1].binary then InStreamOnly(s, p, n) else InIndexOnly(s, p, n)
  }

  // ---- what each phase goes by ----

  ghost predicate Sized(told: seq<Step>, p: Bytes, n: nat) {
    told == [Stats(p, true, n)]
  }

  ghost predicate Read(told: seq<Step>, p: Bytes, n: nat, ok: bool, binary: bool) {
    told == [Stats(p, true, n), Reads(p, ok, binary)]
  }

  ghost predicate ToStream(ss: seq<State>, b: nat, k: nat, p: Bytes, maxFile: nat, told: seq<Step>, n: nat) {
    || (Sized(told, p, n) && (n > maxFile || WasFull(ss, b, k, n)))
    || (n <= maxFile && Read(told, p, n, true, true) && HasTaken(ss, b, k, n))
  }

  ghost predicate ToNowhere(ss: seq<State>, b: nat, k: nat, p: Bytes, maxFile: nat, told: seq<Step>) {
    || (exists n: nat :: told == [Stats(p, false, n)])
    || (exists n: nat, binary :: n <= maxFile && Read(told, p, n, false, binary) && HasTaken(ss, b, k, n))
  }

  ghost predicate ToIndex(ss: seq<State>, b: nat, k: nat, p: Bytes, maxFile: nat, told: seq<Step>, n: nat) {
    n <= maxFile && Read(told, p, n, true, false) && HasTaken(ss, b, k, n)
  }

  ghost predicate GoesBy(ss: seq<State>, b: nat, k: nat, p: Bytes, maxFile: nat, told: seq<Step>, f: Phase) {
    match f
    case Stat => told == []
    case Loading(n) => n <= maxFile && Sized(told, p, n)
    case Trying(n, _) => n <= maxFile && Sized(told, p, n)
    case Reserved(n) => n <= maxFile && Sized(told, p, n) && HasTaken(ss, b, k, n)
    case Releasing(n, toStream) =>
      n <= maxFile && HasTaken(ss, b, k, n)
      && if toStream then Read(told, p, n, true, true) else exists binary :: Read(told, p, n, false, binary)
    case StreamMeta(n) => ToStream(ss, b, k, p, maxFile, told, n)
    case StreamSub(n, _) => ToStream(ss, b, k, p, maxFile, told, n)
    case StreamRemove(n, _) => ToStream(ss, b, k, p, maxFile, told, n)
    case StreamPut(n) => ToStream(ss, b, k, p, maxFile, told, n)
    case RemoveMeta => ToNowhere(ss, b, k, p, maxFile, told)
    case RemoveSub(_) => ToNowhere(ss, b, k, p, maxFile, told)
    case RemoveIndex(_) => ToNowhere(ss, b, k, p, maxFile, told)
    case RemoveStream => ToNowhere(ss, b, k, p, maxFile, told)
    case AddMeta(n) => ToIndex(ss, b, k, p, maxFile, told, n)
    case AddSub(n, _) => ToIndex(ss, b, k, p, maxFile, told, n)
    case AddUnstream(n, _) => ToIndex(ss, b, k, p, maxFile, told, n)
    case AddIndex(n, _) => ToIndex(ss, b, k, p, maxFile, told, n)
  }

  lemma LaterFull(ss: seq<State>, b: nat, k: nat, n: nat)
    ensures WasFull(ss, b, k, n) ==> WasFull(ss, b, k + 1, n)
    ensures HasTaken(ss, b, k, n) ==> HasTaken(ss, b, k + 1, n)
    ensures b < k < |ss| && Full(ss[k], n) ==> WasFull(ss, b, k + 1, n)
    ensures b < k && k + 1 < |ss| && Takes(ss[k], ss[k + 1], n) ==> HasTaken(ss, b, k + 1, n)
  {
    hide Full, Takes;
  }

  lemma AllLaterFull(ss: seq<State>, b: nat, k: nat)
    ensures forall n :: WasFull(ss, b, k, n) ==> WasFull(ss, b, k + 1, n)
    ensures forall n :: HasTaken(ss, b, k, n) ==> HasTaken(ss, b, k + 1, n)
  {
    hide WasFull, HasTaken;
    forall n: nat ensures (WasFull(ss, b, k, n) ==> WasFull(ss, b, k + 1, n)) && (HasTaken(ss, b, k, n) ==> HasTaken(ss, b, k + 1, n)) {
      LaterFull(ss, b, k, n);
    }
  }

  /** What was gone by before is gone by still. */
  lemma StillGoesBy(ss: seq<State>, b: nat, k: nat, p: Bytes, maxFile: nat, told: seq<Step>, f: Phase)
    requires GoesBy(ss, b, k, p, maxFile, told, f)
    ensures GoesBy(ss, b, k + 1, p, maxFile, told, f)
  {
    hide WasFull, HasTaken, Sized, Read;
    AllLaterFull(ss, b, k);
  }

  // ---- one step ----

  lemma ToldNext(es: seq<Step>, b: nat, k: nat, p: Bytes)
    requires b < k < |es|
    ensures Told(es, b + 1, k + 1, p) == Told(es, b + 1, k, p) + (if (es[k].Stats? || es[k].Reads?) && es[k].p == p then [es[k]] else [])
  {
  }

  lemma OthersLeave(s: State, e: Step, s': State, p: Bytes)
    requires Next(s, e, s') && e.p != p && p in s.tasks
    ensures p in s'.tasks && s'.tasks[p] == s.tasks[p] && s'.maxFile == s.maxFile
  {
    hide Works, SizeIn;
    if e.Work? { WorkLeaves(s, e.p, s', p); }
  }

  lemma WorkLeaves(s: State, q: Bytes, s': State, p: Bytes)
    requires q in s.tasks && Works(s, q, s') && q != p && p in s.tasks
    ensures p in s'.tasks && s'.tasks[p] == s.tasks[p] && s'.maxFile == s.maxFile
  {
    hide SizeIn;
  }

  lemma SameMax(s: State, e: Step, s': State)
    requires Next(s, e, s')
    ensures s'.maxFile == s.maxFile
  {
  }

  lemma StatsStep(ss: seq<State>, b: nat, k: nat, p: Bytes, e: Step, told: seq<Step>)
    requires b < k && k + 1 < |ss| && p in ss[k].tasks && e.Stats? && e.p == p && Next(ss[k], e, ss[k + 1])
    requires GoesBy(ss, b, k, p, ss[k].maxFile, told, ss[k].tasks[p])
    ensures p in ss[k + 1].tasks && GoesBy(ss, b, k + 1, p, ss[k].maxFile, told + [e], ss[k + 1].tasks[p])
  {
    hide WasFull, HasTaken;
    assert told + [e] == [e];
  }

  lemma ReadsStep(ss: seq<State>, b: nat, k: nat, p: Bytes, e: Step, told: seq<Step>)
    requires b < k && k + 1 < |ss| && p in ss[k].tasks && e.Reads? && e.p == p && Next(ss[k], e, ss[k + 1])
    requires GoesBy(ss, b, k, p, ss[k].maxFile, told, ss[k].tasks[p])
    ensures p in ss[k + 1].tasks && GoesBy(ss, b, k + 1, p, ss[k].maxFile, told + [e], ss[k + 1].tasks[p])
  {
    hide WasFull, HasTaken;
    var n := ss[k].tasks[p].size;
    LaterFull(ss, b, k, n);
    assert told + [e] == [Stats(p, true, n), Reads(p, e.ok, e.binary)];
    assert Read(told + [e], p, n, e.ok, e.binary);
  }

  lemma ReserveStep(ss: seq<State>, b: nat, k: nat, p: Bytes, f: Phase, told: seq<Step>)
    requires b < k && k + 1 < |ss| && p in ss[k].tasks && ss[k].tasks[p] == f && PhaseOk(ss[k], p, f)
    requires (f.Loading? || f.Trying? || f.Releasing?) && Reserves(ss[k], p, f, ss[k + 1])
    requires GoesBy(ss, b, k, p, ss[k].maxFile, told, f)
    ensures p in ss[k + 1].tasks && GoesBy(ss, b, k + 1, p, ss[k].maxFile, told, ss[k + 1].tasks[p])
  {
    hide WasFull, HasTaken, Sized, Read;
    LaterFull(ss, b, k, f.size);
  }

  lemma LaterStep(ss: seq<State>, b: nat, k: nat, p: Bytes, f: Phase, told: seq<Step>)
    requires b < k && k + 1 < |ss| && p in ss[k].tasks && ss[k].tasks[p] == f
    requires !f.Loading? && !f.Trying? && !f.Releasing? && Works(ss[k], p, ss[k + 1])
    requires GoesBy(ss, b, k, p, ss[k].maxFile, told, f)
    ensures p in ss[k + 1].tasks ==> GoesBy(ss, b, k + 1, p, ss[k].maxFile, told, ss[k + 1].tasks[p])
  {
    hide ToStream, ToNowhere, ToIndex;
    StillAll(ss, b, k, p, ss[k].maxFile, told);
  }

  lemma StillAll(ss: seq<State>, b: nat, k: nat, p: Bytes, maxFile: nat, told: seq<Step>)
    ensures forall n :: ToStream(ss, b, k, p, maxFile, told, n) ==> ToStream(ss, b, k + 1, p, maxFile, told, n)
    ensures forall n :: ToIndex(ss, b, k, p, maxFile, told, n) ==> ToIndex(ss, b, k + 1, p, maxFile, told, n)
    ensures ToNowhere(ss, b, k, p, maxFile, told) ==> ToNowhere(ss, b, k + 1, p, maxFile, told)
  {
    hide WasFull, HasTaken, Sized, Read;
    AllLaterFull(ss, b, k);
  }

  /** The worker's own step keeps to what it was told. */
  lemma OwnStep(ss: seq<State>, es: seq<Step>, b: nat, k: nat, p: Bytes)
    requires b < k < |es| && k + 1 < |ss| && es[k].p == p && Next(ss[k], es[k], ss[k + 1])
    requires p in ss[k].tasks && PhaseOk(ss[k], p, ss[k].tasks[p])
    requires GoesBy(ss, b, k, p, ss[k].maxFile, Told(es, b + 1, k, p), ss[k].tasks[p])
    ensures p in ss[k + 1].tasks ==> GoesBy(ss, b, k + 1, p, ss[k].maxFile, Told(es, b + 1, k + 1, p), ss[k + 1].tasks[p])
  {
    hide GoesBy, PhaseOk, Works, Told;
    ToldNext(es, b, k, p);
    var told, f := Told(es, b + 1, k, p), ss[k].tasks[p];
    assert told + [] == told;
    match es[k]
    case Stats(_, _, _) => StatsStep(ss, b, k, p, es[k], told);
    case Reads(_, _, _) => ReadsStep(ss, b, k, p, es[k], told);
    case Work(_) =>
      if f.Loading? || f.Trying? || f.Releasing? {
        WorksReserves(ss[k], p, ss[k + 1]);
        ReserveStep(ss, b, k, p, f, told);
      } else {
        LaterStep(ss, b, k, p, f, told);
      }
    case _ =>
  }

  lemma WorksReserves(s: State, p: Bytes, s': State)
    requires p in s.tasks && Works(s, p, s') && (s.tasks[p].Loading? || s.tasks[p].Trying? || s.tasks[p].Releasing?)
    ensures Reserves(s, p, s.tasks[p], s')
  {
  }

  /** From the start of the worker on, and until it is done, its phase goes by what the
      disk has said. */
  lemma {:induction false} PhaseGoesBy(ss: seq<State>, es: seq<Step>, b: nat, k: nat, p: Bytes)
    requires Run(ss, es) && b < k < |ss| && es[b] == Begin(p) && forall i :: b < i <= k ==> p in ss[i].tasks
    ensures GoesBy(ss, b, k, p, ss[k].maxFile, Told(es, b + 1, k, p), ss[k].tasks[p])
  {
    hide Start, Next, GoesBy, Told, PhaseOk, Inv;
    if k == b + 1 {
      Begins(ss, es, b, p);
    } else {
      PhaseGoesBy(ss, es, b, k - 1, p);
      InvHolds(ss, es, k - 1);
      KnownPhase(ss[k - 1], p);
      SameMax(ss[k - 1], es[k - 1], ss[k]);
      if es[k - 1].p == p {
        OwnStep(ss, es, b, k - 1, p);
      } else {
        OthersLeave(ss[k - 1], es[k - 1], ss[k], p);
        ToldNext(es, b, k - 1, p);
        assert Told(es, b + 1, k - 1, p) + [] == Told(es, b + 1, k - 1, p);
        StillGoesBy(ss, b, k - 1, p, ss[k].maxFile, Told(es, b + 1, k - 1, p), ss[k].tasks[p]);
      }
    }
  }

  lemma KnownPhase(s: State, p: Bytes)
    requires Inv(s) && p in s.tasks
    ensures PhaseOk(s, p, s.tasks[p])
  {
    hide PhaseOk, Balanced;
  }

  lemma Begins(ss: seq<State>, es: seq<Step>, b: nat, p: Bytes)
    requires b < |es| && b + 1 < |ss| && es[b] == Begin(p) && Next(ss[b], es[b], ss[b + 1])
    ensures p in ss[b + 1].tasks && GoesBy(ss, b, b + 1, p, ss[b + 1].maxFile, Told(es, b + 1, b + 1, p), ss[b + 1].tasks[p])
  {
  }

  /** The last step puts the file where it belongs. */
  lemma LastStep(ss: seq<State>, b: nat, k: nat, p: Bytes, told: seq<Step>)
    requires b < k && k + 1 < |ss| && p in ss[k].tasks && Works(ss[k], p, ss[k + 1]) && p !in ss[k + 1].tasks
    requires PhaseOk(ss[k], p, ss[k].tasks[p]) && GoesBy(ss, b, k, p, ss[k].maxFile, told, ss[k].tasks[p])
    ensures ss[k + 1].maxFile == ss[k].maxFile && Belongs(ss, b, k + 1, p, told)
  {
    hide WasFull, HasTaken, Works;
    WhoEnds(ss[k], p, ss[k + 1]);
    AllLaterFull(ss, b, k);
  }

  /** The three last steps, and what they do. */
  lemma WhoEnds(s: State, p: Bytes, s': State)
    requires p in s.tasks && Works(s, p, s') && p !in s'.tasks
    ensures match s.tasks[p]
      case StreamPut(n) => s' == s.(stream := s.stream[p := n], tasks := s.tasks - {p}, routed := s.routed + {p})
      case RemoveStream => s' == s.(stream := s.stream - {p}, tasks := s.tasks - {p})
      case AddIndex(n, _) => s' == s.(index := s.index[p := n], tasks := s.tasks - {p}, routed := s.routed + {p})
      case _ => false
  {
    hide SizeIn;
  }

  lemma FinishesByWork(s: State, e: Step, s': State, p: Bytes)
    requires Next(s, e, s') && p in s.tasks && p !in s'.tasks
    ensures e == Work(p) && Works(s, p, s')
  {
  }

  /** In every interleaving, a file ends up where it belongs by what the disk said of it. */
  lemma FinishedWhereItBelongs(ss: seq<State>, es: seq<Step>, b: nat, k: nat, p: Bytes)
    requires Run(ss, es) && b < k < |es| && es[b] == Begin(p)
    requires (forall i :: b < i <= k ==> p in ss[i].tasks) && p !in ss[k + 1].tasks
    ensures Belongs(ss, b, k + 1, p, Told(es, b + 1, k + 1, p))
  {
    hide Start, Next, GoesBy, Told, PhaseOk, Inv, Belongs, Works;
    PhaseGoesBy(ss, es, b, k, p);
    InvHolds(ss, es, k);
    KnownPhase(ss[k], p);
    assert Next(ss[k], es[k], ss[k + 1]);
    FinishesByWork(ss[k], es[k], ss[k + 1], p);
    ToldNext(es, b, k, p);
    assert Told(es, b + 1, k, p) + [] == Told(es, b + 1, k, p);
    LastStep(ss, b, k, p, Told(es, b + 1, k, p));
  }

  // ---- with no other worker at it ----

  /** No step between is of another worker. */
  predicate Alone(es: seq<Step>, b: nat, k: nat, p: Bytes) {
    forall i :: b < i < k && i < |es| ==> es[i].p == p
  }

  /** If the file was of a size to be read, it was read exactly if `total` left room for it. */
  ghost predicate Decided(s: State, total: int, told: seq<Step>) {
    |told| > 0 && told[0].Stats? && told[0].found && told[0].size <= s.maxFile ==>
      (|told| == 1 <==> s.budget > 0 && total + told[0].size > s.budget)
  }

  /** Until it has been decided, the total is what it was. */
  ghost predicate Steady(s: State, total: int, told: seq<Step>, f: Phase) {
    match f
    case Stat => s.total == total
    case Loading(_) => s.total == total
    case Trying(n, seen) => s.total == total == seen && s.budget > 0 && total + n <= s.budget
    case Reserved(n) => s.budget > 0 ==> total + n <= s.budget
    case _ => Decided(s, total, told)
  }

  lemma AloneStep(s: State, e: Step, s': State, p: Bytes, total: int, ss: seq<State>, b: nat, k: nat, told: seq<Step>)
    requires Next(s, e, s') && e.p == p && p in s.tasks && Steady(s, total, told, s.tasks[p])
    requires GoesBy(ss, b, k, p, s.maxFile, told, s.tasks[p])
    ensures s'.budget == s.budget && s'.maxFile == s.maxFile
    ensures var told' := if e.Stats? || e.Reads? then told + [e] else told;
      if p in s'.tasks then Steady(s', total, told', s'.tasks[p]) else Decided(s', total, told')
  {
    hide WasFull, HasTaken, Works, SizeIn;
    match e
    case Work(_) => AloneWorks(s, s', p, total, told, ss, b, k);
    case _ =>
  }

  lemma AloneWorks(s: State, s': State, p: Bytes, total: int, told: seq<Step>, ss: seq<State>, b: nat, k: nat)
    requires p in s.tasks && Works(s, p, s') && Steady(s, total, told, s.tasks[p])
    requires GoesBy(ss, b, k, p, s.maxFile, told, s.tasks[p])
    ensures s'.budget == s.budget && s'.maxFile == s.maxFile
    ensures if p in s'.tasks then Steady(s', total, told, s'.tasks[p]) else Decided(s', total, told)
  {
    hide WasFull, HasTaken, SizeIn;
  }

  lemma {:induction false} AloneHolds(ss: seq<State>, es: seq<Step>, b: nat, k: nat, p: Bytes)
    requires Run(ss, es) && b < k < |ss| && es[b] == Begin(p) && (forall i :: b < i < k ==> p in ss[i].tasks) && Alone(es, b, k, p)
    ensures var told := Told(es, b + 1, k, p);
      ss[k].budget == ss[b].budget && ss[k].maxFile == ss[b].maxFile
      && if p in ss[k].tasks then Steady(ss[k], ss[b].total, told, ss[k].tasks[p]) else Decided(ss[k], ss[b].total, told)
  {
    hide Start, GoesBy, Told, Steady, Decided, Next;
    if k == b + 1 {
      AloneBegins(ss, es, b, p);
    } else {
      AloneHolds(ss, es, b, k - 1, p);
      PhaseGoesBy(ss, es, b, k - 1, p);
      ToldNext(es, b, k - 1, p);
      assert es[k - 1].p == p;
      assert Told(es, b + 1, k - 1, p) + [] == Told(es, b + 1, k - 1, p);
      AloneStep(ss[k - 1], es[k - 1], ss[k], p, ss[b].total, ss, b, k - 1, Told(es, b + 1, k - 1, p));
    }
  }

  lemma AloneBegins(ss: seq<State>, es: seq<Step>, b: nat, p: Bytes)
    requires b < |es| && b + 1 < |ss| && es[b] == Begin(p) && Next(ss[b], es[b], ss[b + 1])
    ensures p in ss[b + 1].tasks && ss[b + 1].budget == ss[b].budget && ss[b + 1].maxFile == ss[b].maxFile
    ensures Steady(ss[b + 1], ss[b].total, Told(es, b + 1, b + 1, p), ss[b + 1].tasks[p])
  {
  }

  /** With no other worker at it, a file of a size to be indexed is refused, without being
      read, exactly if the budget has no room for it when the worker starts. */
  lemma RefusedIfFull(ss: seq<State>, es: seq<Step>, b: nat, k: nat, p: Bytes)
    requires Run(ss, es) && b < k < |es| && es[b] == Begin(p) && Alone(es, b, k + 1, p)
    requires (forall i :: b < i <= k ==> p in ss[i].tasks) && p !in ss[k + 1].tasks
    ensures var told := Told(es, b + 1, k + 1, p);
      |told| > 0 && told[0].Stats? && (told[0].found && told[0].size <= ss[b].maxFile ==> (|told| == 1 <==> Full(ss[b], told[0].size)))
  {
    hide Start, Next, Told, Belongs;
    AloneHolds(ss, es, b, k + 1, p);
    FinishedWhereItBelongs(ss, es, b, k, p);
    BelongsTold(ss, b, k + 1, p, Told(es, b + 1, k + 1, p));
  }

  lemma BelongsTold(ss: seq<State>, b: nat, k: nat, p: Bytes, told: seq<Step>)
    requires k < |ss| && Belongs(ss, b, k, p, told)
    ensures |told| > 0 && told[0].Stats?
  {
    hide WasFull, HasTaken;
  }
}
