/** The cached database (cached_db.go): lookups by id, lookups by a unique column, and writes that invalidate. */
module CachedDatabase {
  import opened Users
  import opened Keys
  import opened Metrics
  import opened Cache
  import opened Writes
  import Codec

  /** The fate of the Redis calls one index lookup makes. */
  datatype IndexLinks = IndexLinks(get: Link, put: Link, putRow: Link)

  /** What the index step leaves for the caller: a primary key to look up, a row already at hand, or the final answer. */
  datatype IndexReply = Pointer(key: string) | Fresh(user: User) | Missing | Broken(error: string)

  datatype IndexOutcome = IndexOutcome(state: State, reply: IndexReply)

  /** A row without an id counts as not found. */
  function IndexAnswer(query: Reply): Reply {
    if query.Found? && query.user.id == 0 then NotFound else query
  }

  function FillIndex(s: State, indexKey: string, query: Reply, l: IndexLinks): IndexOutcome {
    match IndexAnswer(query)
    case NotFound => IndexOutcome(State(SetNotFound(s.store, indexKey, l.put), Asked(s.counts)), Missing)
    case Failed(e) => IndexOutcome(State(s.store, Bump(Asked(s.counts), DbFailEvent)), Broken(e))
    case Found(u) =>
      var key := Key(ById(u.id));
      var store := Set(Set(s.store, indexKey, key, l.put), key, Codec.Encode(u), l.putRow);
      IndexOutcome(State(store, Asked(s.counts)), Fresh(u))
  }

  function ReadIndex(s: State, indexKey: string, query: Reply, l: IndexLinks): IndexOutcome {
    var data := Get(s.store, indexKey, l.get);
    var missed := Bump(s.counts, MissEvent);
    if data == "" then FillIndex(State(s.store, missed), indexKey, query, l)
    else
      IndexOutcome(State(s.store, Bump(missed, HitEvent)), if data == NOT_FOUND then Missing else Pointer(data))
  }

  /** A lookup by a unique column; on an index hit the row query still searches by that column. */
  function ReadThroughIndex(s: State, indexKey: string, query: Reply, il: IndexLinks, l: TakeLinks): Outcome {
    var index := ReadIndex(s, indexKey, query, il);
    match index.reply
    case Missing => Outcome(index.state, NotFound)
    case Broken(e) => Outcome(index.state, Failed(e))
    case Fresh(u) => Outcome(index.state, Found(u))
    case Pointer(key) => ReadThrough(index.state, key, query, l)
  }

  lemma PointerThenRow(s: State, indexKey: string, key: string, u: User, again: Reply, il: IndexLinks, l: TakeLinks)
    requires indexKey in s.store && s.store[indexKey] == key && key != "" && key != NOT_FOUND
    requires key in s.store && s.store[key] == Codec.Encode(u) && il.get.Done? && l.get.Done?
    ensures var out := ReadThroughIndex(s, indexKey, again, il, l);
      out.reply == Found(u) && out.state.store == s.store && out.state.counts.dbOps == s.counts.dbOps
  {
    KindsOfEntry(ById(0), u);
  }

  /** The same for lookups by a unique column: pointer and row are both there after the first lookup found its row in the database. */
  lemma SecondIndexLookupIsFree(s: State, q: Query, u: User, il: IndexLinks, l: TakeLinks, again: Reply, il2: IndexLinks, l2: TakeLinks)
    requires il.put.Done? && il.putRow.Done? && il2.get.Done? && l2.get.Done? && !q.ById? && u.id != 0
    requires Get(s.store, Key(q), il.get) == ""
    ensures var first := ReadThroughIndex(s, Key(q), Found(u), il, l);
      var second := ReadThroughIndex(first.state, Key(q), again, il2, l2);
      second.reply == first.reply && second.state.store == first.state.store && second.state.counts.dbOps == first.state.counts.dbOps
  {
    KeyOnly(q);
    KindsOfEntry(ById(u.id), u);
    PointerThenRow(ReadThroughIndex(s, Key(q), Found(u), il, l).state, Key(q), Key(ById(u.id)), u, again, il2, l2);
  }

  /** What an index step that misses leaves: pointer and row each by its own call, the placeholder for a missing row, nothing after an error. */
  lemma MissedIndexStores(s: State, q: Query, query: Reply, il: IndexLinks, l: TakeLinks)
    requires !q.ById? && Key(q) !in s.store && (query.Found? ==> query.user.id != 0)
    ensures var out := ReadThroughIndex(s, Key(q), query, il, l);
      && out.reply == query
      && match query {
           case Failed(_) => out.state.store == s.store
           case NotFound => out.state.store == if il.put == Done then s.store[Key(q) := "*"] else s.store
           case Found(u) =>
             var pointed := if il.put == Done then s.store[Key(q) := Key(ById(u.id))] else s.store;
             out.state.store == if il.putRow == Done then pointed[Key(ById(u.id)) := Codec.Encode(u)] else pointed
         }
  {
  }

  /** A row without an id is stored and reported as not found. */
  lemma RowWithoutId(s: State, indexKey: string, u: User, il: IndexLinks, l: TakeLinks)
    requires u.id == 0 && indexKey !in s.store && il.put.Done?
    ensures var out := ReadThroughIndex(s, indexKey, Found(u), il, l);
      out.reply == NotFound && out.state.store == s.store[indexKey := NOT_FOUND]
  {
  }

  class CachedDB {
    var rows: Table
    /** Key lists whose background deletion has been started. */
    var retries: seq<seq<string>>
    const cache: Redis

    constructor (rows: Table, cache: Redis)
      ensures this.rows == rows && this.cache == cache && retries == []
    {
      this.rows := rows;
      this.cache := cache;
      retries := [];
    }

    method QueryRow(key: string, queryFn: () -> Reply, l: TakeLinks) returns (reply: Reply)
      modifies cache`store, cache.collector
      ensures Outcome(cache.Now(), reply) == ReadThrough(old(cache.Now()), key, queryFn(), l)
    {
      reply := cache.Take(key, queryFn, l);
    }

    method CacheTakeWithIndex(indexKey: string, indexQuery: () -> Reply, l: IndexLinks) returns (reply: IndexReply)
      modifies cache`store, cache.collector
      ensures IndexOutcome(cache.Now(), reply) == ReadIndex(old(cache.Now()), indexKey, indexQuery(), l)
    {
      cache.collector.Miss(indexKey);
      var data := cache.CacheGet(indexKey, l.get);
      if data != "" {
        if data == NOT_FOUND {
          cache.collector.Hit(indexKey);
          return Missing;
        }
        cache.collector.Hit(indexKey);
        return Pointer(data);
      }

      cache.collector.DBOp(indexKey);
      cache.collector.SingleFlight(indexKey);
      var answer := IndexAnswer(indexQuery());
      match answer
      case NotFound =>
        cache.CacheSetNotFound(indexKey, l.put);
        return Missing;
      case Failed(e) =>
        cache.collector.DbFail(indexKey);
        return Broken(e);
      case Found(u) =>
        var key := Key(ById(u.id));
        cache.CacheSet(indexKey, key, l.put);
        cache.CacheSet(key, Codec.Encode(u), l.putRow);
        return Fresh(u);
    }

    method QueryRowIndex(indexKey: string, query: () -> Reply, il: IndexLinks, l: TakeLinks) returns (reply: Reply)
      modifies cache`store, cache.collector
      ensures Outcome(cache.Now(), reply) == ReadThroughIndex(old(cache.Now()), indexKey, query(), il, l)
    {
      var index := CacheTakeWithIndex(indexKey, query, il);
      match index
      case Missing => return NotFound;
      case Broken(e) => return Failed(e);
      case Fresh(u) => return Found(u);
      case Pointer(key) => reply := cache.Take(key, query, l);
    }

    /** The write first; then, only if it committed, the deletion of its keys, retried in the background on a Redis error. */
    method Exec(execFn: () -> Written, keys: seq<string>, l: Link) returns (done: Written)
      modifies `rows, `retries, cache`store
      ensures done == execFn()
      ensures rows == (if done.Committed? then done.rows else old(rows))
      ensures cache.store == (if done.Committed? then Del(old(cache.store), keys, l) else old(cache.store))
      ensures done.Committed? && keys != [] && l.Errored? ==> retries == old(retries) + [keys]
      ensures !(done.Committed? && keys != [] && l.Errored?) ==> retries == old(retries)
    {
      done := execFn();
      if done.Refused? {
        return;
      }
      rows := done.rows;
      if keys != [] {
        var failed := cache.CacheDel(keys, l);
        if failed {
          retries := retries + [keys];
        }
      } else {
        assert Without(cache.store, []) == cache.store;
      }
    }
  }
}
