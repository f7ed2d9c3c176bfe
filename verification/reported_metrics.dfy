/** What a composite collector reports after a whole run of lookups. */
module ReportedMetrics {
  import opened Keys
  import opened Metrics
  import opened Cache
  import opened CachedDatabase
  import opened UserRepository
  import opened Refinement
  import opened Accounting
  import opened CompositeMetricsCollector
  import Codec

  function BumpAll(c: Counts, events: seq<Event>): Counts
    decreases |events|
  {
    if events == [] then c else BumpAll(Bump(c, events[0]), events[1..])
  }

  lemma {:induction false} BumpAllAppend(c: Counts, first: seq<Event>, later: seq<Event>)
    ensures BumpAll(c, first + later) == BumpAll(BumpAll(c, first), later)
    decreases |first|
  {
    if first == [] {
      assert first + later == later;
    } else {
      assert (first + later)[1..] == first[1..] + later;
      BumpAllAppend(Bump(c, first[0]), first[1..], later);
    }
  }

  lemma BumpAllNext(c: Counts, events: seq<Event>, e: Event)
    ensures BumpAll(c, events + [e]) == Bump(BumpAll(c, events), e)
  {
    BumpAllAppend(c, events, [e]);
    assert [e][1..] == [];
  }

  // -------- the events of a lookup, in order

  function QueryEvents(query: Reply): seq<Event> {
    [DBOpEvent, SingleFlightEvent] + if query.Failed? then [DbFailEvent] else []
  }

  function TakeEvents(s: State, key: string, query: Reply, l: TakeLinks): seq<Event> {
    var data := Get(s.store, key, l.get);
    if data == "" then [MissEvent] + QueryEvents(query)
    else if data != NOT_FOUND && Codec.Decode(data).None? then [MissEvent, HitEvent] + QueryEvents(query)
    else [MissEvent, HitEvent]
  }

  function IndexEvents(s: State, indexKey: string, query: Reply, il: IndexLinks, l: TakeLinks): seq<Event> {
    var index := ReadIndex(s, indexKey, query, il);
    if Get(s.store, indexKey, il.get) == "" then [MissEvent] + QueryEvents(IndexAnswer(query))
    else [MissEvent, HitEvent] + if index.reply.Pointer? then TakeEvents(index.state, index.reply.key, query, l) else []
  }

  function OpEvents(s: System, op: Op): seq<Event> {
    match op
    case Modify(_, _, _, _) => []
    case Evict(_) => []
    case Read(q, error, il, l) =>
      if q.ById? then TakeEvents(s.cache, Key(q), Ask(s.rows, q, error), l)
      else IndexEvents(s.cache, Key(q), Ask(s.rows, q, error), il, l)
  }

  function RunEvents(s: System, ops: seq<Op>): seq<Event>
    decreases |ops|
  {
    if ops == [] then [] else OpEvents(s, ops[0]) + RunEvents(Step(s, ops[0]).0, ops[1..])
  }

  lemma TwoEvents(c: Counts, a: Event, b: Event)
    ensures BumpAll(c, [a]) == Bump(c, a) && BumpAll(c, [a, b]) == Bump(Bump(c, a), b)
  {
    assert [a][1..] == [] && [a, b][1..] == [b] && [b][1..] == [];
    assert BumpAll(Bump(c, a), [b]) == Bump(Bump(c, a), b);
  }

  lemma QueryCounts(c: Counts, query: Reply)
    ensures BumpAll(c, QueryEvents(query)) == if query.Failed? then Bump(Asked(c), DbFailEvent) else Asked(c)
  {
    TwoEvents(c, DBOpEvent, SingleFlightEvent);
    if query.Failed? {
      BumpAllNext(c, [DBOpEvent, SingleFlightEvent], DbFailEvent);
    } else {
      assert QueryEvents(query) == [DBOpEvent, SingleFlightEvent];
    }
  }

  lemma FillCounts(s: State, key: string, query: Reply, put: Link)
    ensures Fill(s, key, query, put).state.counts == BumpAll(s.counts, QueryEvents(query))
  {
    QueryCounts(s.counts, query);
  }

  lemma TakeCounts(s: State, key: string, query: Reply, l: TakeLinks)
    ensures ReadThrough(s, key, query, l).state.counts == BumpAll(s.counts, TakeEvents(s, key, query, l))
  {
    var missed := Bump(s.counts, MissEvent);
    TwoEvents(s.counts, MissEvent, HitEvent);
    FillCounts(State(s.store, missed), key, query, l.put);
    FillCounts(State(Del(s.store, [key], l.del), Bump(missed, HitEvent)), key, query, l.put);
    BumpAllAppend(s.counts, [MissEvent], QueryEvents(query));
    BumpAllAppend(s.counts, [MissEvent, HitEvent], QueryEvents(query));
  }

  lemma FillIndexCounts(s: State, indexKey: string, query: Reply, l: IndexLinks)
    ensures FillIndex(s, indexKey, query, l).state.counts == BumpAll(s.counts, QueryEvents(IndexAnswer(query)))
  {
    QueryCounts(s.counts, IndexAnswer(query));
  }

  lemma IndexCounts(s: State, indexKey: string, query: Reply, il: IndexLinks, l: TakeLinks)
    ensures ReadThroughIndex(s, indexKey, query, il, l).state.counts == BumpAll(s.counts, IndexEvents(s, indexKey, query, il, l))
  {
    var index := ReadIndex(s, indexKey, query, il);
    TwoEvents(s.counts, MissEvent, HitEvent);
    if Get(s.store, indexKey, il.get) == "" {
      FillIndexCounts(State(s.store, Bump(s.counts, MissEvent)), indexKey, query, il);
      BumpAllAppend(s.counts, [MissEvent], QueryEvents(IndexAnswer(query)));
    } else if index.reply.Pointer? {
      TakeCounts(index.state, index.reply.key, query, l);
      BumpAllAppend(s.counts, [MissEvent, HitEvent], TakeEvents(index.state, index.reply.key, query, l));
    } else {
      assert [MissEvent, HitEvent] + [] == [MissEvent, HitEvent];
    }
  }

  lemma OpCounts(s: System, op: Op)
    ensures Step(s, op).0.cache.counts == BumpAll(s.cache.counts, OpEvents(s, op))
  {
    if op.Read? {
      var query := Ask(s.rows, op.q, op.error);
      if op.q.ById? {
        TakeCounts(s.cache, Key(op.q), query, op.l);
      } else {
        IndexCounts(s.cache, Key(op.q), query, op.il, op.l);
      }
    }
  }

  /** The counters of a run are those of its events. */
  lemma {:induction false} RunCounts(s: System, t: Tally, ops: seq<Op>)
    ensures Counted(s, t, ops).0.cache.counts == BumpAll(s.cache.counts, RunEvents(s, ops))
    decreases |ops|
  {
    if ops != [] {
      var next := Step(s, ops[0]).0;
      OpCounts(s, ops[0]);
      RunCounts(next, Add(t, OpTally(s, ops[0])), ops[1..]);
      BumpAllAppend(s.cache.counts, OpEvents(s, ops[0]), RunEvents(next, ops[1..]));
    }
  }

  /** Passes a run's events to a composite, one by one. */
  method Replay(m: CompositeMetrics, events: seq<Event>)
    requires m.reader != null && Occurrences(m.collectors, |m.collectors|, m.reader) == 1
    modifies set c | c in m.collectors
    ensures m.Read() == BumpAll(old(m.Read()), events)
  {
    assert events[..0] == [];
    for i := 0 to |events|
      invariant m.Read() == BumpAll(old(m.Read()), events[..i])
    {
      m.Record(events[i], "");
      assert events[..i + 1] == events[..i] + [events[i]];
      BumpAllNext(old(m.Read()), events[..i], events[i]);
    }
    assert events[..|events|] == events;
  }

  /**
   A composite that is told the events of a run reports what `LookupAccounting` says of it, if
   its reader was given to it once.
   */
  method Report(m: CompositeMetrics, s: System, t: Tally, ops: seq<Op>)
    requires m.reader != null && Occurrences(m.collectors, |m.collectors|, m.reader) == 1
    requires m.Read() == s.cache.counts && Balanced(s.cache.counts, t)
    modifies set c | c in m.collectors
    ensures m.Read() == Counted(s, t, ops).0.cache.counts
    ensures Balanced(m.Read(), Counted(s, t, ops).1) && HitRate(m.Read()) <= 0.5
  {
    RunCounts(s, t, ops);
    LookupAccounting(s, t, ops);
    Replay(m, RunEvents(s, ops));
  }
}
