/** What the lookup counters add up to over any sequential run. */
module Accounting {
  import opened Keys
  import opened Metrics
  import opened Cache
  import opened CachedDatabase
  import opened UserRepository
  import opened Refinement
  import Codec

  /** Lookups made so far, and how many of them found bytes that are no row. */
  datatype Tally = Tally(lookups: nat, undecodable: nat)

  predicate Undecodable(s: State, key: string, get: Link) {
    var data := Get(s.store, key, get);
    data != "" && data != NOT_FOUND && Codec.Decode(data).None?
  }

  function TakeTally(s: State, key: string, l: TakeLinks): Tally {
    Tally(1, if Undecodable(s, key, l.get) then 1 else 0)
  }

  /** An index lookup that hits a pointer is followed by a row lookup. */
  function OpTally(s: System, op: Op): Tally {
    match op
    case Modify(_, _, _, _) => Tally(0, 0)
    case Evict(_) => Tally(0, 0)
    case Read(q, error, il, l) =>
      if q.ById? then TakeTally(s.cache, Key(q), l)
      else
        var index := ReadIndex(s.cache, Key(q), Ask(s.rows, q, error), il);
        if index.reply.Pointer? then
          var row := TakeTally(index.state, index.reply.key, l);
          Tally(1 + row.lookups, row.undecodable)
        else Tally(1, 0)
  }

  /** The counters agree with the tally. */
  predicate Balanced(c: Counts, t: Tally) {
    && c.misses == t.lookups
    && c.hits <= c.misses
    && c.singleFlights == c.dbOps
    && c.dbFails <= c.dbOps
    && c.hits + c.dbOps == c.misses + t.undecodable
  }

  function Add(a: Tally, b: Tally): Tally {
    Tally(a.lookups + b.lookups, a.undecodable + b.undecodable)
  }

  /** A query makes up for the hit that a lookup has not had. */
  lemma FillBalanced(s: State, key: string, query: Reply, put: Link)
    ensures var (c, after) := (s.counts, Fill(s, key, query, put).state.counts);
      && after.hits == c.hits && after.misses == c.misses && after.dbOps == c.dbOps + 1
      && after.singleFlights == c.singleFlights + 1 && c.dbFails <= after.dbFails <= c.dbFails + 1
  {
  }

  lemma TakeBalanced(s: State, key: string, query: Reply, l: TakeLinks, t: Tally)
    requires Balanced(s.counts, t)
    ensures Balanced(ReadThrough(s, key, query, l).state.counts, Add(t, TakeTally(s, key, l)))
  {
    var missed := Bump(s.counts, MissEvent);
    FillBalanced(State(s.store, missed), key, query, l.put);
    FillBalanced(State(Del(s.store, [key], l.del), Bump(missed, HitEvent)), key, query, l.put);
  }

  lemma StepBalanced(s: System, op: Op, t: Tally)
    requires Balanced(s.cache.counts, t)
    ensures Balanced(Step(s, op).0.cache.counts, Add(t, OpTally(s, op)))
  {
    match op
    case Modify(_, _, _, _) =>
    case Evict(_) =>
    case Read(q, error, il, l) =>
      var query := Ask(s.rows, q, error);
      if q.ById? {
        TakeBalanced(s.cache, Key(q), query, l, t);
      } else {
        var index := ReadIndex(s.cache, Key(q), query, il);
        assert Balanced(index.state.counts, Add(t, Tally(1, 0)));
        if index.reply.Pointer? {
          TakeBalanced(index.state, index.reply.key, query, l, Add(t, Tally(1, 0)));
        }
      }
  }

  function Counted(s: System, t: Tally, ops: seq<Op>): (System, Tally)
    decreases |ops|
  {
    if ops == [] then (s, t) else Counted(Step(s, ops[0]).0, Add(t, OpTally(s, ops[0])), ops[1..])
  }

  /** Every lookup is one miss, and one hit or one database query, or both when its bytes were no row. */
  lemma {:induction false} LookupAccounting(s: System, t: Tally, ops: seq<Op>)
    requires Balanced(s.cache.counts, t)
    ensures var (end, tally) := Counted(s, t, ops);
      Balanced(end.cache.counts, tally) && HitRate(end.cache.counts) <= 0.5
    decreases |ops|
  {
    if ops == [] {
      HitRateAtMostHalf(s.cache.counts);
    } else {
      StepBalanced(s, ops[0], t);
      LookupAccounting(Step(s, ops[0]).0, Add(t, OpTally(s, ops[0])), ops[1..]);
    }
  }
}
