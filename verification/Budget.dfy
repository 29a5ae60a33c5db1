/** Routing files to the index or the stream set under a byte budget
    (internal/daemon/store.go, stream.go), as workers' single steps. */
module Budget {
  import opened Bytes

  /** Where a worker is with its file. Sizes reserved or subtracted but not yet backed
      by the index are the worker's claim on the total. */
  datatype Phase =
    | Stat
    | Loading(size: nat)
    | Trying(size: nat, seen: int)
    | Reserved(size: nat)
    | Releasing(size: nat, toStream: bool)
    | StreamMeta(size: nat) | StreamSub(size: nat, was: nat) | StreamRemove(size: nat, was: nat) | StreamPut(size: nat)
    | RemoveMeta | RemoveSub(was: nat) | RemoveIndex(was: nat) | RemoveStream
    | AddMeta(size: nat) | AddSub(size: nat, was: nat) | AddUnstream(size: nat, was: nat) | AddIndex(size: nat, was: nat)

  /** `budget` of zero or less means none. `routed` has the readable regular files whose
      worker has finished and that were not deleted since; `leaked` the bytes still in
      the total of files deleted without releasing them. */
  datatype State = State(
    budget: int, maxFile: nat, total: int,
    index: map<Bytes, nat>, stream: map<Bytes, nat>,
    tasks: map<Bytes, Phase>, routed: set<Bytes>, leaked: int)

  // ---- sums over maps ----

  ghost function Sum(m: map<Bytes, int>): int {
    if m == map[] then 0
    else
      var k :| k in m;
      m[k] + Sum(m - {k})
  }

  lemma {:induction false} SumRemove(m: map<Bytes, int>, k: Bytes)
    requires k in m
    ensures Sum(m) == m[k] + Sum(m - {k})
    decreases |m|
  {
    var j :| j in m && Sum(m) == m[j] + Sum(m - {j});
    if j != k {
      SumRemove(m - {j}, k);
      SumRemove(m - {k}, j);
      assert m - {j} - {k} == m - {k} - {j};
    }
  }

  lemma SumUpdate(m: map<Bytes, int>, k: Bytes, v: int)
    ensures Sum(m[k := v]) == Sum(m) - (if k in m then m[k] else 0) + v
  {
    SumRemove(m[k := v], k);
    if k in m {
      SumRemove(m, k);
      assert m[k := v] - {k} == m - {k};
    } else {
      assert m[k := v] - {k} == m;
    }
  }

  lemma SumDrop(m: map<Bytes, int>, k: Bytes)
    ensures Sum(m - {k}) == Sum(m) - (if k in m then m[k] else 0)
  {
    if k in m { SumRemove(m, k); } else { assert m - {k} == m; }
  }

  /** What a worker has added to the total, or taken from it, ahead of the index. */
  function Claim(f: Phase): int {
    match f
    case Reserved(n) => n
    case Releasing(n, _) => n
    case StreamRemove(_, was) => 0 - (was as int)
    case RemoveIndex(was) => 0 - (was as int)
    case AddMeta(n) => n
    case AddSub(n, _) => n
    case AddUnstream(n, was) => n - was
    case AddIndex(n, was) => n - was
    case _ => 0
  }

  function Claims(tasks: map<Bytes, Phase>): map<Bytes, int> {
    map p | p in tasks :: Claim(tasks[p])
  }

  function Sizes(index: map<Bytes, nat>): map<Bytes, int> {
    map p | p in index :: index[p]
  }

  function SizeIn(index: map<Bytes, nat>, p: Bytes): nat { if p in index then index[p] else 0 }

  // ---- the steps ----

  datatype Step =
    | Begin(p: Bytes)
    | Stats(p: Bytes, found: bool, size: nat)
    | Work(p: Bytes)
    | Reads(p: Bytes, ok: bool, binary: bool)
    | Deleted(p: Bytes)

  /** One more step of the worker on `p`; what the disk says comes with the step. */
  ghost predicate Next(s: State, e: Step, s': State) {
    match e
    case Begin(p) => p !in s.tasks && s' == s.(tasks := s.tasks[p := Stat], routed := s.routed - {p})
    case Stats(p, found, size) =>
      && p in s.tasks && s.tasks[p] == Stat
      && s' == s.(tasks := s.tasks[p := if !found then RemoveMeta else if size > s.maxFile then StreamMeta(size) else Loading(size)])
    case Work(p) => p in s.tasks && Works(s, p, s')
    case Reads(p, ok, binary) =>
      && p in s.tasks && s.tasks[p].Reserved?
      && var n := s.tasks[p].size;
      && s' == s.(tasks := s.tasks[p := if !ok then Releasing(n, false) else if binary then Releasing(n, true) else AddMeta(n)])
    case Deleted(p) =>
      && p !in s.tasks
      && s' == s.(index := s.index - {p}, stream := s.stream - {p}, routed := s.routed - {p}, leaked := s.leaked + SizeIn(s.index, p))
  }

  ghost predicate Works(s: State, p: Bytes, s': State)
    requires p in s.tasks
  {
    var f := s.tasks[p];
    if f.Loading? || f.Trying? || f.Releasing? then Reserves(s, p, f, s')
    else if f.StreamMeta? || f.StreamSub? || f.StreamRemove? || f.StreamPut? then Streams(s, p, f, s')
    else if f.RemoveMeta? || f.RemoveSub? || f.RemoveIndex? || f.RemoveStream? then Removes(s, p, f, s')
    else if f.AddMeta? || f.AddSub? || f.AddUnstream? || f.AddIndex? then Indexes(s, p, f, s')
    else false
  }

  /** The compare-and-swap loop, and giving a reservation back. */
  ghost predicate Reserves(s: State, p: Bytes, f: Phase, s': State)
    requires f.Loading? || f.Trying? || f.Releasing?
  {
    match f
    case Loading(n) =>
      if s.budget <= 0 then s' == s.(total := s.total + n, tasks := s.tasks[p := Reserved(n)])
      else s' == s.(tasks := s.tasks[p := if s.total + n > s.budget then StreamMeta(n) else Trying(n, s.total)])
    case Trying(n, seen) =>
      if s.total == seen then s' == s.(total := seen + n, tasks := s.tasks[p := Reserved(n)])
      else s' == s.(tasks := s.tasks[p := Loading(n)])
    case Releasing(n, toStream) =>
      s' == s.(total := s.total - n, tasks := s.tasks[p := if toStream then StreamMeta(n) else RemoveMeta])
  }

  /** From the index to the stream set. */
  ghost predicate Streams(s: State, p: Bytes, f: Phase, s': State)
    requires f.StreamMeta? || f.StreamSub? || f.StreamRemove? || f.StreamPut?
  {
    match f
    case StreamMeta(n) => s' == s.(tasks := s.tasks[p := StreamSub(n, SizeIn(s.index, p))])
    case StreamSub(n, was) => s' == s.(total := s.total - was, tasks := s.tasks[p := StreamRemove(n, was)])
    case StreamRemove(n, was) => s' == s.(index := s.index - {p}, tasks := s.tasks[p := StreamPut(n)])
    case StreamPut(n) => s' == s.(stream := s.stream[p := n], tasks := s.tasks - {p}, routed := s.routed + {p})
  }

  /** Out of both. */
  ghost predicate Removes(s: State, p: Bytes, f: Phase, s': State)
    requires f.RemoveMeta? || f.RemoveSub? || f.RemoveIndex? || f.RemoveStream?
  {
    match f
    case RemoveMeta => s' == s.(tasks := s.tasks[p := RemoveSub(SizeIn(s.index, p))])
    case RemoveSub(was) => s' == s.(total := s.total - was, tasks := s.tasks[p := RemoveIndex(was)])
    case RemoveIndex(was) => s' == s.(index := s.index - {p}, tasks := s.tasks[p := RemoveStream])
    case RemoveStream => s' == s.(stream := s.stream - {p}, tasks := s.tasks - {p})
  }

  /** Into the index, under the reservation. */
  ghost predicate Indexes(s: State, p: Bytes, f: Phase, s': State)
    requires f.AddMeta? || f.AddSub? || f.AddUnstream? || f.AddIndex?
  {
    match f
    case AddMeta(n) => s' == s.(tasks := s.tasks[p := AddSub(n, SizeIn(s.index, p))])
    case AddSub(n, was) => s' == s.(total := s.total - was, tasks := s.tasks[p := AddUnstream(n, was)])
    case AddUnstream(n, was) => s' == s.(stream := s.stream - {p}, tasks := s.tasks[p := AddIndex(n, was)])
    case AddIndex(n, was) => s' == s.(index := s.index[p := n], tasks := s.tasks - {p}, routed := s.routed + {p})
  }

  // ---- the invariant ----

  /** What a phase knows of its file: the size the index has for it, and where it no longer is. */
  ghost predicate PhaseOk(s: State, p: Bytes, f: Phase) {
    match f
    case StreamSub(_, was) => was == SizeIn(s.index, p)
    case StreamRemove(_, was) => was == SizeIn(s.index, p)
    case StreamPut(_) => p !in s.index
    case RemoveSub(was) => was == SizeIn(s.index, p)
    case RemoveIndex(was) => was == SizeIn(s.index, p)
    case RemoveStream => p !in s.index
    case AddSub(_, was) => was == SizeIn(s.index, p)
    case AddUnstream(_, was) => was == SizeIn(s.index, p)
    case AddIndex(_, was) => was == SizeIn(s.index, p) && p !in s.stream
    case Trying(n, seen) => s.budget > 0 && seen + n <= s.budget
    case _ => true
  }

  /** The total is exactly what is indexed, plus what workers have claimed ahead of it,
      plus what deletions left behind. */
  ghost predicate Balanced(s: State) {
    s.total == Sum(Sizes(s.index)) + Sum(Claims(s.tasks)) + s.leaked
  }

  ghost predicate InOneOf(s: State, p: Bytes) {
    (p in s.index) != (p in s.stream)
  }

  ghost predicate Inv(s: State) {
    && (s.budget > 0 ==> s.total <= s.budget)
    && Balanced(s) && s.leaked >= 0
    && (forall p :: p in s.index ==> p !in s.stream)
    && (forall p :: p in s.tasks ==> PhaseOk(s, p, s.tasks[p]))
    && (forall p :: p in s.routed ==> InOneOf(s, p) && p !in s.tasks)
  }

  // ---- each step keeps it ----

  lemma Reclaimed(tasks: map<Bytes, Phase>, p: Bytes, f: Phase)
    ensures Sum(Claims(tasks[p := f])) == Sum(Claims(tasks)) - (if p in tasks then Claim(tasks[p]) else 0) + Claim(f)
  {
    hide Claim;
    assert Claims(tasks[p := f]) == Claims(tasks)[p := Claim(f)];
    SumUpdate(Claims(tasks), p, Claim(f));
  }

  lemma Dismissed(tasks: map<Bytes, Phase>, p: Bytes)
    requires p in tasks
    ensures Sum(Claims(tasks - {p})) == Sum(Claims(tasks)) - Claim(tasks[p])
  {
    hide Claim;
    assert Claims(tasks - {p}) == Claims(tasks) - {p};
    SumDrop(Claims(tasks), p);
  }

  lemma Unindexed(index: map<Bytes, nat>, p: Bytes)
    ensures Sum(Sizes(index - {p})) == Sum(Sizes(index)) - SizeIn(index, p)
  {
    assert Sizes(index - {p}) == Sizes(index) - {p};
    SumDrop(Sizes(index), p);
  }

  lemma Indexed(index: map<Bytes, nat>, p: Bytes, n: nat)
    ensures Sum(Sizes(index[p := n])) == Sum(Sizes(index)) - SizeIn(index, p) + n
  {
    assert Sizes(index[p := n]) == Sizes(index)[p := n];
    SumUpdate(Sizes(index), p, n);
  }

  /** Other workers' files are left alone. */
  lemma Untouched(s: State, s': State, p: Bytes, q: Bytes)
    requires q != p && q in s.tasks && PhaseOk(s, q, s.tasks[q]) && s'.budget == s.budget
    requires (q in s'.index <==> q in s.index) && (q in s.index ==> s'.index[q] == s.index[q]) && (q in s'.stream <==> q in s.stream)
    ensures PhaseOk(s', q, s.tasks[q])
  {
  }

  function ClaimIn(tasks: map<Bytes, Phase>, p: Bytes): int { if p in tasks then Claim(tasks[p]) else 0 }

  /** A step of the worker on `p` touches that entry of the tasks and of the index at most. */
  lemma WorkIsLocal(s: State, p: Bytes, s': State)
    requires p in s.tasks && Works(s, p, s')
    ensures s'.tasks == s.tasks - {p} || (p in s'.tasks && s'.tasks == s.tasks[p := s'.tasks[p]])
    ensures s'.index == s.index || s'.index == s.index - {p} || (p in s'.index && s'.index == s.index[p := s'.index[p]])
    ensures s'.leaked == s.leaked && s'.budget == s.budget
  {
  }

  /** What it adds to the total is what it adds to its claim and its index entry. */
  ghost predicate Delta(s: State, p: Bytes, s': State)
    requires p in s.tasks
  {
    && s'.total - s.total == SizeIn(s'.index, p) - SizeIn(s.index, p) + ClaimIn(s'.tasks, p) - Claim(s.tasks[p])
    && (s.budget > 0 && s.total <= s.budget ==> s'.total <= s.budget)
  }

  lemma ReserveDelta(s: State, p: Bytes, f: Phase, s': State)
    requires p in s.tasks && s.tasks[p] == f && PhaseOk(s, p, f) && (f.Loading? || f.Trying? || f.Releasing?)
    requires Reserves(s, p, f, s')
    ensures Delta(s, p, s')
  {
  }

  lemma StreamDelta(s: State, p: Bytes, f: Phase, s': State)
    requires p in s.tasks && s.tasks[p] == f && PhaseOk(s, p, f) && (f.StreamMeta? || f.StreamSub? || f.StreamRemove? || f.StreamPut?)
    requires Streams(s, p, f, s')
    ensures Delta(s, p, s')
  {
  }

  lemma RemoveDelta(s: State, p: Bytes, f: Phase, s': State)
    requires p in s.tasks && s.tasks[p] == f && PhaseOk(s, p, f) && (f.RemoveMeta? || f.RemoveSub? || f.RemoveIndex? || f.RemoveStream?)
    requires Removes(s, p, f, s')
    ensures Delta(s, p, s')
  {
  }

  lemma IndexDelta(s: State, p: Bytes, f: Phase, s': State)
    requires p in s.tasks && s.tasks[p] == f && PhaseOk(s, p, f) && (f.AddMeta? || f.AddSub? || f.AddUnstream? || f.AddIndex?)
    requires Indexes(s, p, f, s')
    ensures Delta(s, p, s')
  {
  }

  lemma WorkDelta(s: State, p: Bytes, s': State)
    requires p in s.tasks && Works(s, p, s') && PhaseOk(s, p, s.tasks[p])
    ensures Delta(s, p, s')
  {
    hide Delta, Reserves, Streams, Removes, Indexes, PhaseOk;
    var f := s.tasks[p];
    if f.Loading? || f.Trying? || f.Releasing? { ReserveDelta(s, p, f, s'); }
    else if f.StreamMeta? || f.StreamSub? || f.StreamRemove? || f.StreamPut? { StreamDelta(s, p, f, s'); }
    else if f.RemoveMeta? || f.RemoveSub? || f.RemoveIndex? || f.RemoveStream? { RemoveDelta(s, p, f, s'); }
    else { IndexDelta(s, p, f, s'); }
  }

  lemma WorkBalances(s: State, p: Bytes, s': State)
    requires Inv(s) && p in s.tasks && Works(s, p, s')
    ensures Balanced(s') && s'.leaked == s.leaked && (s.budget > 0 ==> s'.total <= s.budget)
  {
    hide Sum, Sizes, Claims, Works, Claim, PhaseOk;
    WorkIsLocal(s, p, s');
    WorkDelta(s, p, s');
    if p in s'.tasks { Reclaimed(s.tasks, p, s'.tasks[p]); } else { Dismissed(s.tasks, p); }
    if p in s'.index { Indexed(s.index, p, s'.index[p]); } else { Unindexed(s.index, p); }
    if s'.index == s.index { SameIndex(s.index, s'.index, p); }
  }

  lemma SameIndex(index: map<Bytes, nat>, index': map<Bytes, nat>, p: Bytes)
    requires index' == index
    ensures p in index ==> index[p := index[p]] == index
    ensures p !in index ==> index - {p} == index
  {
  }

  /** No other file's place changes. */
  lemma OthersStay(s: State, p: Bytes, s': State, q: Bytes)
    requires p in s.tasks && Works(s, p, s') && q != p
    ensures (q in s'.index <==> q in s.index) && (q in s.index ==> s'.index[q] == s.index[q]) && (q in s'.stream <==> q in s.stream)
    ensures (q in s'.tasks <==> q in s.tasks) && (q in s.tasks ==> s'.tasks[q] == s.tasks[q]) && (q in s'.routed <==> q in s.routed)
    ensures s'.budget == s.budget
  {
  }

  lemma OwnRouted(s: State, p: Bytes, s': State)
    requires p in s.tasks && Works(s, p, s') && p !in s.routed
    ensures p in s'.routed ==> p !in s'.tasks
  {
  }

  lemma WorkKeepsPlaces(s: State, p: Bytes, s': State)
    requires Inv(s) && p in s.tasks && Works(s, p, s')
    ensures forall q :: q in s'.index ==> q !in s'.stream
    ensures forall q :: q in s'.tasks ==> PhaseOk(s', q, s'.tasks[q])
    ensures forall q :: q in s'.routed ==> InOneOf(s', q) && q !in s'.tasks
  {
    hide Balanced, PhaseOk, Works;
    OwnPhase(s, p, s');
    StillDisjoint(s, p, s');
    OwnRouted(s, p, s');
    forall q | q in s'.tasks && q != p ensures PhaseOk(s', q, s'.tasks[q]) {
      OthersStay(s, p, s', q);
      Untouched(s, s', p, q);
    }
    forall q | q in s'.routed && q != p ensures InOneOf(s', q) && q !in s'.tasks { OthersStay(s, p, s', q); }
  }

  lemma OwnPhase(s: State, p: Bytes, s': State)
    requires p in s.tasks && PhaseOk(s, p, s.tasks[p]) && Works(s, p, s')
    ensures p in s'.tasks ==> PhaseOk(s', p, s'.tasks[p])
  {
  }

  lemma StillDisjoint(s: State, p: Bytes, s': State)
    requires p in s.tasks && PhaseOk(s, p, s.tasks[p]) && Works(s, p, s') && forall q :: q in s.index ==> q !in s.stream
    requires p !in s.routed
    ensures forall q :: q in s'.index ==> q !in s'.stream
    ensures p !in s'.tasks && p in s'.routed ==> InOneOf(s', p)
  {
  }

  lemma KeepsStep(s: State, e: Step, s': State)
    requires Inv(s) && Next(s, e, s')
    ensures Inv(s')
  {
    hide Sum, Sizes, Claims, Works, PhaseOk;
    match e
    case Work(p) =>
      WorkBalances(s, p, s');
      WorkKeepsPlaces(s, p, s');
      SameBudget(s, p, s');
    case Deleted(p) =>
      Unindexed(s.index, p);
      forall q | q in s.tasks ensures PhaseOk(s', q, s.tasks[q]) { Untouched(s, s', p, q); }
    case Begin(p) => Reclaimed(s.tasks, p, Stat); OthersKeep(s, p, s'); QuietPhase(s', p, Stat);
    case Stats(p, _, _) => Reclaimed(s.tasks, p, s'.tasks[p]); OthersKeep(s, p, s'); QuietPhase(s', p, s'.tasks[p]);
    case Reads(p, _, _) => Reclaimed(s.tasks, p, s'.tasks[p]); OthersKeep(s, p, s'); QuietPhase(s', p, s'.tasks[p]);
  }

  /** Phases that know nothing yet of the index. */
  lemma QuietPhase(s: State, p: Bytes, f: Phase)
    requires f.Stat? || f.RemoveMeta? || f.StreamMeta? || f.Loading? || f.Releasing? || f.AddMeta?
    ensures PhaseOk(s, p, f)
  {
  }

  lemma SameBudget(s: State, p: Bytes, s': State)
    requires p in s.tasks && Works(s, p, s')
    ensures s'.budget == s.budget
  {
  }

  lemma OthersKeep(s: State, p: Bytes, s': State)
    requires s'.index == s.index && s'.stream == s.stream && s'.budget == s.budget && forall q :: q in s.tasks ==> PhaseOk(s, q, s.tasks[q])
    ensures forall q :: q in s.tasks && q != p ==> PhaseOk(s', q, s.tasks[q])
  {
    hide PhaseOk;
    forall q | q in s.tasks && q != p ensures PhaseOk(s', q, s.tasks[q]) { Untouched(s, s', p, q); }
  }

  // ---- runs ----

  /** No worker at work, the total within the budget and not below what is indexed. */
  ghost predicate Start(s: State) {
    && s.tasks == map[] && s.routed == {} && (forall p :: p in s.index ==> p !in s.stream)
    && (s.budget > 0 ==> s.total <= s.budget)
    && s.leaked == s.total - Sum(Sizes(s.index)) >= 0
  }

  ghost predicate Run(ss: seq<State>, es: seq<Step>) {
    |ss| == |es| + 1 && Start(ss[0]) && forall k :: 0 <= k < |es| ==> Next(ss[k], es[k], ss[k + 1])
  }

  lemma StartsWell(s: State)
    requires Start(s)
    ensures Inv(s)
  {
    assert Claims(s.tasks) == map[];
  }

  lemma {:induction false} InvHolds(ss: seq<State>, es: seq<Step>, k: nat)
    requires Run(ss, es) && k < |ss|
    ensures Inv(ss[k])
  {
    hide Inv, Start, Next;
    if k == 0 {
      StartsWell(ss[0]);
    } else {
      InvHolds(ss, es, k - 1);
      KeepsStep(ss[k - 1], es[k - 1], ss[k]);
    }
  }

  lemma {:induction false} SameLimits(ss: seq<State>, es: seq<Step>, k: nat)
    requires Run(ss, es) && k < |ss|
    ensures ss[k].budget == ss[0].budget && ss[0].leaked <= ss[k].leaked
  {
    hide Start;
    if k > 0 {
      SameLimits(ss, es, k - 1);
      assert Next(ss[k - 1], es[k - 1], ss[k]);
    }
  }

  /** However the workers interleave: the budget is never exceeded, no file is in both
      places, and every readable file that is finished is in exactly one. */
  lemma RoutingIsSafe(ss: seq<State>, es: seq<Step>, k: nat)
    requires Run(ss, es) && k < |ss|
    ensures ss[0].budget > 0 ==> ss[k].total <= ss[0].budget
    ensures forall p :: !(p in ss[k].index && p in ss[k].stream)
    ensures forall p :: p in ss[k].routed ==> InOneOf(ss[k], p)
  {
    hide Run, Balanced, PhaseOk;
    InvHolds(ss, es, k);
    SameLimits(ss, es, k);
  }

  /** At rest, the total is the indexed sizes plus exactly what it was off by at the
      start and what deletions have left in it since: it never runs below. */
  lemma RestIsBalanced(ss: seq<State>, es: seq<Step>, k: nat)
    requires Run(ss, es) && k < |ss| && ss[k].tasks == map[]
    ensures ss[k].total == Sum(Sizes(ss[k].index)) + ss[k].leaked && ss[k].leaked >= ss[0].leaked >= 0
  {
    InvHolds(ss, es, k);
    InvHolds(ss, es, 0);
    SameLimits(ss, es, k);
    hide Run, PhaseOk;
    assert Claims(ss[k].tasks) == map[];
  }

  /** A finished readable file stays where it was put until it is handled or deleted again. */
  lemma FinishedIsRouted(s: State, p: Bytes, s': State)
    requires Inv(s) && p in s.tasks && Works(s, p, s') && p !in s'.tasks && !s.tasks[p].RemoveStream?
    ensures p in s'.routed && InOneOf(s', p) && SizeIn(if p in s'.index then s'.index else s'.stream, p) == s.tasks[p].size
  {
    hide Balanced;
    assert PhaseOk(s, p, s.tasks[p]);
  }
}
