/** Shards whose ranges of paths stay in order, crash or no crash. */
module Ordering {
  // All it takes is that no shard for new files spans one that stays.

  import opened Prelude
  import opened Bytes
  import opened Ranges
  import opened EngineSpec
  import opened Rebuild
  import opened EngineSteps
  import opened Engine
  import opened Recovery
  import opened Consistency
  import opened Naming

  /** A cycle that publishes puts no shard for new files around one that stays. */
  ghost predicate NoneSpanned(s: State, e: Event) {
    e.Publish? && s.mem.Up? && s.mem.work.Reading? ==> forall i :: !Spanned(s.mem.work.c, e.newRows, i)
  }

  ghost predicate MemOrdered(m: Memory) {
    m.Up? ==>
      match m.opening
      case Listing(_, _) => true
      case Loaded(_, _, found, _, _) => OrderedShards(found)
      case Building(_, _, _, _) => true
      case Built(_) => OrderedShards(m.shards)
      case Open => OrderedShards(m.shards)
  }

  /** The shards in use are in order, and so are those a restart would find. */
  ghost predicate Ordered(s: State) {
    OrderedShards(Saved(s, {})) && MemOrdered(s.mem)
  }

  // ---- shards opened ----

  lemma OrderedShardsSnoc(l: seq<Shard>, s: Shard)
    ensures OrderedShards(l + [s]) <==> OrderedShards(l) && WellFormed(s) && Before(l, s)
  {
    hide OrderedRanges, RangesOf, Before, WellFormed, Sound;
    OrderedIs(l);
    OrderedIs(l + [s]);
    OrderedSnoc(l, s);
    WellFormedSnoc(l, s);
    if WellFormed(s) { OneSound(s); }
  }

  /** Shards that cannot be opened leave the others in order. */
  lemma {:induction false} OpenedOrdered(names: seq<nat>, files: map<nat, seq<Row>>, bad: set<nat>)
    requires OrderedShards(Opened(names, files, {}))
    ensures OrderedShards(Opened(names, files, bad))
    ensures forall t :: Before(Opened(names, files, {}), t) ==> Before(Opened(names, files, bad), t)
  {
    hide OrderedShards, Before;
    if |names| == 0 {
    } else {
      var k := |names| - 1;
      var n := names[k];
      var all, some := Opened(names[..k], files, {}), Opened(names[..k], files, bad);
      if n in files {
        var t := Shard(n, files[n]);
        OrderedShardsSnoc(all, t);
        OpenedOrdered(names[..k], files, bad);
        OrderedShardsSnoc(some, t);
        assert Opened(names, files, bad) == if n in bad then some else some + [t];
        forall u | Before(all + [t], u) ensures Before(some + [t], u) && Before(some, u) {
          BeforeSnoc(all, t, u);
          BeforeSnoc(some, t, u);
        }
      } else {
        assert Opened(names, files, {}) == all && Opened(names, files, bad) == some;
        OpenedOrdered(names[..k], files, bad);
      }
    }
  }

  lemma FoundOrdered(s: State, bad: set<nat>)
    requires OrderedShards(Saved(s, {}))
    ensures OrderedShards(Saved(s, bad))
  {
    hide OrderedShards;
    if s.manifest.Some? { OpenedOrdered(s.manifest.value.names, s.files, bad); }
  }

  /** The shards of a first build are in order. */
  lemma BuiltOrdered(op: Opening)
    requires op.Building? && FirstRows(op)
    ensures OrderedShards(op.built)
  {
    hide AllRows, SortedRows, OrderedRanges, RangesOf, IsFirstRow;
    SortedThroughout(op.built);
    OrderedIs(op.built);
  }

  // ---- any step ----

  lemma SameOrdered(m: Memory, m': Memory)
    requires m.Up? && m'.Up? && m'.opening == m.opening && m'.shards == m.shards
    ensures MemOrdered(m') <==> MemOrdered(m)
  {
    hide OrderedShards;
  }

  lemma OrderedInWorld(s: State, e: Event, s': State)
    requires MemOrdered(s.mem) && WorldStep(s, e, s')
    ensures MemOrdered(s'.mem)
  {
    hide MemOrdered, MarksUnder, NotThere, Settled, AllDeleted, Put;
    if s'.mem.Up? { SameOrdered(s.mem, s'.mem); } else { DownIsOrdered(s'.mem); }
  }

  lemma DownIsOrdered(m: Memory)
    requires m.Down?
    ensures MemOrdered(m)
  {
  }

  lemma OrderedOpening(s: State, e: Event, s': State)
    requires OrderedShards(Saved(s, {})) && MemOrdered(s.mem) && Consistent(s.mem) && OpenerStep(s, e, s')
    ensures MemOrdered(s'.mem)
  {
    hide OrderedShards, FirstRows, AllBuilt, AllRows, Names, Reconciled, SortedRows, IsFirstRow, Saved, ContentAt;
    if e.Load? { FoundOrdered(s, e.bad); }
    if e.PublishFirst? { BuiltOrdered(s.mem.opening); }
  }

  /** A cycle leaves its shards in order exactly if it spans none. */
  lemma OrderedWork(s: State, e: Event, s': State)
    requires MemOrdered(s.mem) && Consistent(s.mem) && s.mem.Up? && s.mem.opening.Open? && e.Publish? && TickerStep(s, e, s')
    ensures MemOrdered(s'.mem) <==> NoneSpanned(s, e)
  {
    hide OrderedShards, NewRowsOf, ShardsAfter, Spanned, AllRead, Stored, SeqAfter, OldFiles, DeferredSet, Seen;
    RangesStayOrdered(s.mem.work.c, e.newRows);
  }

  lemma OrderedIdle(s: State, e: Event, s': State)
    requires MemOrdered(s.mem) && !e.Publish? && TickerStep(s, e, s')
    ensures MemOrdered(s'.mem)
  {
    hide MemOrdered, Reads, Mixed, Written, Dropped, Names;
    SameOrdered(s.mem, s'.mem);
  }

  /** One step, without what is on disk. */
  lemma KeepsMemOrdered(s: State, e: Event, s': State)
    requires OrderedShards(Saved(s, {})) && MemOrdered(s.mem) && Consistent(s.mem) && Step(s, e, s') && NoneSpanned(s, e)
    ensures MemOrdered(s'.mem)
  {
    hide OrderedShards, Saved, MemOrdered, Consistent, WorldStep, OpenerStep, TickerStep, NoneSpanned;
    if WorldStep(s, e, s') {
      OrderedInWorld(s, e, s');
    } else if OpenerStep(s, e, s') {
      OrderedOpening(s, e, s');
    } else if e.Publish? {
      WorkGoesOn(s, e, s');
      AtWorkIsOpen(s.mem);
      OrderedWork(s, e, s');
    } else {
      OrderedIdle(s, e, s');
    }
  }

  /** Every step keeps the ranges in order, in use and on disk. */
  lemma KeepsOrdered(s: State, e: Event, s': State)
    requires Ordered(s) && Named(s) && Step(s, e, s') && NoneSpanned(s, e)
    ensures Ordered(s')
  {
    hide OrderedShards, Saved, Step, NoneSpanned, Consistent, MemNamed, NamesOk, MemOrdered;
    KeepsMemOrdered(s, e, s');
    KeepsSaved(s, e, s');
    if Manifested(e) { InUseIsOrdered(s, e, s'); }
  }

  lemma InUseIsOrdered(s: State, e: Event, s': State)
    requires MemOrdered(s.mem) && Consistent(s.mem) && Manifested(e) && Step(s, e, s')
    ensures s.mem.Up? && OrderedShards(s.mem.shards)
  {
    hide OrderedShards, MarksUnder, NotThere, FirstRows, Names;
    NotOfTheWorld(s, e, s');
  }
}
