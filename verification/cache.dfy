/**
 The Redis wrapper (cache.go): single cache calls, each of which may be refused or fail, and
 the read-through `Take`. The functions say what a call does to the stored entries and the
 counters; the class does it in place.
 */
module Cache {
  import opened Users
  import opened Keys
  import opened Metrics
  import Codec

  type Store = map<string, string>

  /** How a call to Redis ends: done, no client configured, rejected by the circuit breaker, or failed. */
  datatype Link = Done | NoClient | Rejected | Errored

  /** The result of a lookup, of a database query as well as of a cached one. */
  datatype Reply = Found(user: User) | NotFound | Failed(error: string)

  datatype State = State(store: Store, counts: Counts)

  datatype Outcome = Outcome(state: State, reply: Reply)

  /** The fate of the Redis calls one `Take` makes. */
  datatype TakeLinks = TakeLinks(get: Link, del: Link, put: Link)

  function Get(store: Store, key: string, l: Link): string {
    if l.Done? && key in store then store[key] else ""
  }

  function Set(store: Store, key: string, data: string, l: Link): Store {
    if l.Done? then store[key := data] else store
  }

  /** `SETNX`: a placeholder never replaces an entry. */
  function SetNotFound(store: Store, key: string, l: Link): Store {
    if l.Done? && key !in store then store[key := NOT_FOUND] else store
  }

  function Without(store: Store, keys: seq<string>): Store {
    map k | k in store && k !in keys :: store[k]
  }

  function Del(store: Store, keys: seq<string>, l: Link): Store {
    if l.Done? then Without(store, keys) else store
  }

  /** Only a Redis error is reported; a rejected delete looks like a successful one. */
  predicate DelFails(keys: seq<string>, l: Link) {
    keys != [] && l.Errored?
  }

  function Asked(c: Counts): Counts {
    Bump(Bump(c, DBOpEvent), SingleFlightEvent)
  }

  /** The database query of a lookup that missed, and the entry it leaves behind. */
  function Fill(s: State, key: string, query: Reply, put: Link): Outcome {
    match query
    case Found(u) => Outcome(State(Set(s.store, key, Codec.Encode(u), put), Asked(s.counts)), query)
    case NotFound => Outcome(State(SetNotFound(s.store, key, put), Asked(s.counts)), query)
    case Failed(_) => Outcome(State(s.store, Bump(Asked(s.counts), DbFailEvent)), query)
  }

  function ReadThrough(s: State, key: string, query: Reply, l: TakeLinks): Outcome {
    var data := Get(s.store, key, l.get);
    var missed := Bump(s.counts, MissEvent);
    var hit := Bump(missed, HitEvent);
    if data == "" then Fill(State(s.store, missed), key, query, l.put)
    else if data == NOT_FOUND then Outcome(State(s.store, hit), NotFound)
    else
      match Codec.Decode(data)
      case Some(u) => Outcome(State(s.store, hit), Found(u))
      case None => Fill(State(Del(s.store, [key], l.del), hit), key, query, l.put)
  }

  /** With Redis reachable, a lookup repeated at once is answered from the cache and leaves the database alone. */
  lemma SecondTakeIsFree(s: State, key: string, query: Reply, l: TakeLinks, again: Reply, l2: TakeLinks)
    requires l.get.Done? && l.del.Done? && l.put.Done? && l2.get.Done?
    requires key in s.store ==> s.store[key] != ""
    ensures var first := ReadThrough(s, key, query, l);
      var second := ReadThrough(first.state, key, again, l2);
      !first.reply.Failed? ==>
        second.reply == first.reply && second.state.store == first.state.store && second.state.counts.dbOps == first.state.counts.dbOps
  {
    if query.Found? {
      KindsOfEntry(ById(0), query.user);
    }
  }

  class Redis {
    var store: Store
    const collector: LocalMetrics

    constructor (collector: LocalMetrics)
      ensures this.collector == collector && store == map[]
    {
      this.collector := collector;
      store := map[];
    }

    function Now(): State
      reads this, collector
    {
      State(store, collector.Read())
    }

    method CacheGet(key: string, l: Link) returns (data: string)
      ensures data == Get(store, key, l)
      ensures data == if l == Done && key in store then store[key] else ""
    {
      if l.NoClient? {
        return "";
      }
      if l.Rejected? {
        return "";
      }
      if l.Errored? || key !in store {
        return "";
      }
      data := store[key];
    }

    method CacheSet(key: string, data: string, l: Link)
      modifies `store
      ensures store == Set(old(store), key, data, l)
      ensures store == if l == Done then old(store)[key := data] else old(store)
    {
      if l.NoClient? || l.Rejected? || l.Errored? {
        return;
      }
      store := store[key := data];
    }

    method CacheSetNotFound(key: string, l: Link)
      modifies `store
      ensures store == SetNotFound(old(store), key, l)
      ensures store == if l == Done && key !in old(store) then old(store)[key := "*"] else old(store)
    {
      if l.NoClient? || l.Rejected? || l.Errored? {
        return;
      }
      if key !in store {
        store := store[key := NOT_FOUND];
      }
    }

    method CacheDel(keys: seq<string>, l: Link) returns (failed: bool)
      modifies `store
      ensures store == Del(old(store), keys, l)
      ensures l != Done ==> store == old(store)
      ensures l == Done ==> store.Keys == old(store).Keys - (set k | k in keys) && forall k | k in store :: store[k] == old(store)[k]
      ensures failed == DelFails(keys, l) && (failed <==> keys != [] && l == Errored)
    {
      if l.NoClient? || keys == [] {
        assert Without(store, []) == store;
        return false;
      }
      if l.Rejected? {
        return false;
      }
      if l.Errored? {
        return true;
      }
      store := Without(store, keys);
      failed := false;
    }

    method Take(key: string, queryFn: () -> Reply, l: TakeLinks) returns (reply: Reply)
      modifies `store, collector
      ensures Outcome(Now(), reply) == ReadThrough(old(Now()), key, queryFn(), l)
    {
      collector.Miss(key);
      var data := CacheGet(key, l.get);
      if data != "" {
        if data == NOT_FOUND {
          collector.Hit(key);
          return NotFound;
        }
        collector.Hit(key);
        var row := Codec.Decode(data);
        if row.Some? {
          return Found(row.value);
        }
        var _ := CacheDel([key], l.del);
      }

      collector.DBOp(key);
      collector.SingleFlight(key);
      var answer := queryFn();
      match answer
      case NotFound =>
        CacheSetNotFound(key, l.put);
        return NotFound;
      case Failed(e) =>
        collector.DbFail(key);
        return Failed(e);
      case Found(u) =>
        var bytes := Codec.Encode(u);
        CacheSet(key, bytes, l.put);
        Codec.DecodeEncode(u);
        return Found(Codec.Decode(bytes).value);
    }
  }
}
