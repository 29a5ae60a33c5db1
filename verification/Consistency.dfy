/** How the parts of memory go together, kept by every step of Recovery. */
module Consistency {
  // What is on disk plays no part, nor what was there when the engine started.

  import opened Prelude
  import opened Bytes
  import opened EngineSpec
  import opened Rebuild
  import opened EngineSteps
  import opened Engine
  import opened Recovery

  /** Each event is of one of the three kinds of step. */
  lemma NotOfTheWorld(s: State, e: Event, s': State)
    requires Step(s, e, s') && !WorldStep(s, e, s')
    ensures !e.Change? && !e.Crash? && !e.Mark? && !e.Gone? && !e.MarkBelow?
    ensures if e.Tick? || e.Begin? || e.Look? || e.LookAgain? || e.WriteShard? || e.Publish? || e.WriteManifest? || e.Clean? || e.Finish?
            then TickerStep(s, e, s') else OpenerStep(s, e, s')
  {
    hide MarksUnder, NotThere, Settled, Put, AllDeleted, Reconciled, Saved, AllRows, IsFirstRow, AllBuilt, SortedRows, Reads, Mixed, Written, AllRead, CyclePlan, NewRowsOf, Dropped, Names, Stored, ContentAt;
  }

  /** The rebuild loop is at work only when the engine is open. */
  lemma AtWorkIsOpen(m: Memory)
    requires Consistent(m) && m.Up? && !m.work.Idle?
    ensures m.opening.Open?
  {
    hide FirstRows;
  }

  lemma WorkGoesOn(s: State, e: Event, s': State)
    requires TickerStep(s, e, s') && !e.Tick?
    ensures s.mem.Up? && !s.mem.work.Idle?
    ensures e.Begin? || e.Look? || e.LookAgain? || e.WriteShard? || e.Publish? || e.WriteManifest? || e.Clean? || e.Finish?
  {
    hide Reads, Mixed, Written, AllRead, CyclePlan, NewRowsOf, Dropped, Names, Stored;
  }

  lemma SameBlank(m: Memory, m': Memory)
    requires m.Up? && m'.Up? && m'.shards == m.shards && m'.seqNo == m.seqNo && m'.pending == m.pending && m'.work == m.work
    ensures Blank(m') <==> Blank(m)
  {
  }

  lemma SameConsistent(m: Memory, m': Memory)
    requires m.Up? && m'.Up? && m'.shards == m.shards && m'.seqNo == m.seqNo && m'.pending == m.pending && m'.work == m.work
    requires m'.opening == m.opening
    ensures Consistent(m') <==> Consistent(m)
  {
    hide FirstRows;
  }

  lemma ConsistentInWorld(s: State, e: Event, s': State)
    requires Consistent(s.mem) && WorldStep(s, e, s')
    ensures Consistent(s'.mem)
  {
    hide Consistent, MarksUnder, NotThere, Settled, AllDeleted, Put;
    if s'.mem.Up? { SameConsistent(s.mem, s'.mem); } else { DownIsConsistent(s'.mem); }
  }

  lemma DownIsConsistent(m: Memory)
    requires m.Down?
    ensures Consistent(m)
  {
  }

  lemma ConsistentFound(s: State, e: Event, s': State)
    requires Consistent(s.mem) && (e.Boot? || e.List? || e.Load? || e.Sweep? || e.SweepDone? || e.MarkStale? || e.Install?)
    requires OpenerStep(s, e, s')
    ensures Consistent(s'.mem)
  {
    hide FirstRows, Saved, Reconciled, AllRows;
  }

  lemma ConsistentFirst(s: State, e: Event, s': State)
    requires Consistent(s.mem) && (e.StartFirst? || e.PublishFirst? || e.ManifestFirst?) && OpenerStep(s, e, s')
    ensures Consistent(s'.mem)
  {
    hide AllRows, AllBuilt, Names;
    NoShardRows();
  }

  lemma ConsistentReadFirst(s: State, e: Event, s': State)
    requires Consistent(s.mem) && e.ReadFirst? && OpenerStep(s, e, s')
    ensures Consistent(s'.mem)
  {
    hide SortedRows, AllRows, FirstRow;
  }

  lemma ConsistentWriteFirst(s: State, e: Event, s': State)
    requires Consistent(s.mem) && e.WriteFirst? && OpenerStep(s, e, s')
    ensures Consistent(s'.mem)
  {
    hide SortedRows, AllRows, FirstRow;
    var o := s.mem.opening;
    AllRowsSnoc(o.built, Shard(|o.built|, e.rows));
    forall r | r in AllRows(s'.mem.opening.built) ensures IsFirstRow(s'.mem.opening, r) {
      if r in AllRows(o.built) { assert IsFirstRow(o, r); } else { assert IsFirstRow(o, r); }
    }
  }

  lemma ConsistentWork(s: State, e: Event, s': State)
    requires Consistent(s.mem) && TickerStep(s, e, s') && InTurn(s, e)
    ensures Consistent(s'.mem)
  {
    hide FirstRows, Reads, Mixed, Written, AllRead, NewRowsOf, Dropped, Names, Stored, ShardsAfter, SeqAfter, OldFiles, DeferredSet, Seen;
  }

  lemma KeepsConsistent(s: State, e: Event, s': State)
    requires Consistent(s.mem) && Step(s, e, s') && InTurn(s, e)
    ensures Consistent(s'.mem)
  {
    hide Consistent, WorldStep, OpenerStep, TickerStep, InTurn;
    if WorldStep(s, e, s') {
      ConsistentInWorld(s, e, s');
    } else {
      NotOfTheWorld(s, e, s');
      match e
      case StartFirst(_) => ConsistentFirst(s, e, s');
      case PublishFirst => ConsistentFirst(s, e, s');
      case ManifestFirst(_) => ConsistentFirst(s, e, s');
      case ReadFirst(_) => ConsistentReadFirst(s, e, s');
      case WriteFirst(_) => ConsistentWriteFirst(s, e, s');
      case _ =>
        if OpenerStep(s, e, s') { OpensSomehow(s, e, s'); ConsistentFound(s, e, s'); } else { ConsistentWork(s, e, s'); }
    }
  }

  lemma OpensSomehow(s: State, e: Event, s': State)
    requires OpenerStep(s, e, s') && !e.StartFirst? && !e.PublishFirst? && !e.ManifestFirst? && !e.ReadFirst? && !e.WriteFirst?
    ensures e.Boot? || e.List? || e.Load? || e.Sweep? || e.SweepDone? || e.MarkStale? || e.Install?
  {
    hide Reconciled, Saved, AllRows;
  }
}
