/**
 How a lookup can make a cached row wrong, exactly, and what deletions that arrive late do to
 the lookups after them.
 */
module Misdirection {
  import opened Wrappers
  import opened Users
  import opened Keys
  import opened Metrics
  import opened Cache
  import opened CachedDatabase
  import opened UserRepository
  import opened Refinement
  import opened Transparency
  import opened Staleness
  import Codec

  predicate Readable(v: string) {
    v == NOT_FOUND || Codec.Decode(v).Some?
  }

  /**
   The lookup reads an index entry that names `id`, finds nothing readable there, and stores the
   column query's answer although that is not the answer for `id`.
   */
  predicate Misdirects(s: System, q: Query, error: Option<string>, il: IndexLinks, l: TakeLinks, id: int) {
    var store, key, answer := s.cache.store, Key(ById(id)), First(s.rows, q);
    var data := Get(store, key, l.get);
    && !q.ById? && Get(store, Key(q), il.get) == key
    && error.None? && answer != First(s.rows, ById(id))
    && (data == "" || !Readable(data))
    && l.put.Done?
    && (answer.None? ==> key !in store || (data != "" && l.del.Done?))
  }

  /** A state whose index entries are pointers and placeholders, over a well-formed table. */
  ghost predicate Shaped(s: System) {
    TableOk(s.rows) && PositiveIds(s.rows) && IndexEntries(s.cache.store)
  }

  const NOBODY := User(0, "", "", NO_PROFILE, 0, false)

  function Answered(answer: Option<User>): Reply {
    match answer
    case None => NotFound
    case Some(u) => Found(u)
  }

  lemma FillSpoils(t: Table, s: State, id: int, answer: Option<User>, put: Link)
    requires !Stale(t, s.store, ById(id)) && Tracked(ById(id))
    ensures Stale(t, Fill(s, Key(ById(id)), Answered(answer), put).state.store, ById(id)) <==>
      answer != First(t, ById(id)) && put.Done? && (answer.None? ==> Key(ById(id)) !in s.store)
  {
    KindsOfEntry(ById(id), if answer.Some? then answer.value else NOBODY);
  }

  lemma ReadThroughSpoils(t: Table, s: State, id: int, answer: Option<User>, l: TakeLinks)
    requires !Stale(t, s.store, ById(id)) && Tracked(ById(id))
    ensures var data := Get(s.store, Key(ById(id)), l.get);
      Stale(t, ReadThrough(s, Key(ById(id)), Answered(answer), l).state.store, ById(id)) <==>
      answer != First(t, ById(id)) && l.put.Done? && (data == "" || !Readable(data)) &&
      (answer.None? ==> Key(ById(id)) !in s.store || (data != "" && l.del.Done?))
  {
    var missed := Bump(s.counts, MissEvent);
    FillSpoils(t, State(s.store, missed), id, answer, l.put);
    FillSpoils(t, State(Del(s.store, [Key(ById(id))], l.del), Bump(missed, HitEvent)), id, answer, l.put);
  }

  lemma FailedSpoilsNothing(t: Table, s: State, key: string, error: string, l: TakeLinks, q: Query)
    requires !Stale(t, s.store, q)
    ensures !Stale(t, ReadThrough(s, key, Failed(error), l).state.store, q)
  {
  }

  lemma OtherEntryStays(s: State, key: string, query: Reply, l: TakeLinks, other: string)
    requires other != key
    ensures var store := ReadThrough(s, key, query, l).state.store;
      (other in store <==> other in s.store) && (other in store ==> store[other] == s.store[other])
  {
  }

  /** The entries an index step may write: its own key's, and that of the row it found. */
  lemma FillIndexWrites(s: State, indexKey: string, query: Reply, l: IndexLinks, k: string)
    ensures var store := FillIndex(s, indexKey, query, l).state.store;
      k in store ==>
        || (k in s.store && store[k] == s.store[k])
        || (k == indexKey && store[k] == NOT_FOUND)
        || (query.Found? && k == indexKey && store[k] == Key(ById(query.user.id)))
        || (query.Found? && k == Key(ById(query.user.id)) && store[k] == Codec.Encode(query.user))
  {
    var store := FillIndex(s, indexKey, query, l).state.store;
    match IndexAnswer(query)
    case NotFound =>
      assert store == SetNotFound(s.store, indexKey, l.put);
    case Failed(_) =>
      assert store == s.store;
    case Found(u) =>
      assert store == Set(Set(s.store, indexKey, Key(ById(u.id)), l.put), Key(ById(u.id)), Codec.Encode(u), l.putRow);
  }

  lemma FillIndexSpoilsNothing(t: Table, q: Query, error: Option<string>, s: State, l: IndexLinks, id: int)
    requires TableOk(t) && !q.ById? && !Stale(t, s.store, ById(id))
    ensures !Stale(t, FillIndex(s, Key(q), Ask(t, q, error), l).state.store, ById(id))
  {
    FillIndexWrites(s, Key(q), Ask(t, q, error), l, Key(ById(id)));
    KeyOnly(ById(id));
    if error.None? && First(t, q).Some? {
      SameRow(t, q);
      KindsOfEntry(ById(id), First(t, q).value);
    }
  }

  lemma ByIdSpoilsNothing(s: System, j: int, error: Option<string>, l: TakeLinks, id: int)
    requires !Stale(s.rows, s.cache.store, ById(id)) && Tracked(ById(id))
    ensures !Stale(s.rows, ReadThrough(s.cache, Key(ById(j)), Ask(s.rows, ById(j), error), l).state.store, ById(id))
  {
    if error.Some? {
      FailedSpoilsNothing(s.rows, s.cache, Key(ById(j)), error.value, l, ById(id));
    } else if j == id {
      ReadThroughSpoils(s.rows, s.cache, id, First(s.rows, ById(id)), l);
    } else {
      KeyOnly(ById(id));
      OtherEntryStays(s.cache, Key(ById(j)), Ask(s.rows, ById(j), error), l, Key(ById(id)));
    }
  }

  lemma FollowSpoils(s: System, q: Query, error: Option<string>, il: IndexLinks, l: TakeLinks, j: int, id: int)
    requires !q.ById? && Get(s.cache.store, Key(q), il.get) == Key(ById(j))
    requires !Stale(s.rows, s.cache.store, ById(id)) && Tracked(ById(id))
    ensures Stale(s.rows, Lookup(s, q, error, il, l).state.store, ById(id)) <==> Misdirects(s, q, error, il, l, id)
  {
    var query := Ask(s.rows, q, error);
    KindsOfEntry(ById(j), NOBODY);
    var index := ReadIndex(s.cache, Key(q), query, il);
    assert index.state.store == s.cache.store && index.reply == Pointer(Key(ById(j)));
    if error.Some? {
      FailedSpoilsNothing(s.rows, index.state, Key(ById(j)), error.value, l, ById(id));
    } else if j == id {
      ReadThroughSpoils(s.rows, index.state, id, First(s.rows, q), l);
    } else {
      KeyOnly(ById(id));
      OtherEntryStays(index.state, Key(ById(j)), query, l, Key(ById(id)));
    }
  }

  lemma UnpointedSpoilsNothing(s: System, q: Query, error: Option<string>, il: IndexLinks, l: TakeLinks, id: int)
    requires TableOk(s.rows) && !q.ById? && !Stale(s.rows, s.cache.store, ById(id))
    requires Get(s.cache.store, Key(q), il.get) == "" || Get(s.cache.store, Key(q), il.get) == NOT_FOUND
    ensures !Stale(s.rows, Lookup(s, q, error, il, l).state.store, ById(id))
  {
    FillIndexSpoilsNothing(s.rows, q, error, State(s.cache.store, Bump(s.cache.counts, MissEvent)), il, id);
  }

  lemma IndexSpoils(s: System, q: Query, error: Option<string>, il: IndexLinks, l: TakeLinks, id: int)
    requires Shaped(s) && Tracked(q) && !q.ById? && Tracked(ById(id)) && !Stale(s.rows, s.cache.store, ById(id))
    ensures Stale(s.rows, Lookup(s, q, error, il, l).state.store, ById(id)) <==> Misdirects(s, q, error, il, l, id)
  {
    KindsOfEntry(ById(id), NOBODY);
    var data := Get(s.cache.store, Key(q), il.get);
    if data == "" || data == NOT_FOUND {
      UnpointedSpoilsNothing(s, q, error, il, l, id);
    } else {
      var j :| data == Key(ById(j));
      FollowSpoils(s, q, error, il, l, j, id);
    }
  }

  /** A lookup makes the entry of an id wrong if and only if it is misdirected there. */
  lemma LookupSpoilsExactly(s: System, q: Query, error: Option<string>, il: IndexLinks, l: TakeLinks, id: int)
    requires Shaped(s) && Tracked(q) && Tracked(ById(id)) && !Stale(s.rows, s.cache.store, ById(id))
    ensures Stale(s.rows, Lookup(s, q, error, il, l).state.store, ById(id)) <==> Misdirects(s, q, error, il, l, id)
  {
    if q.ById? {
      ByIdSpoilsNothing(s, q.id, error, l, id);
    } else {
      IndexSpoils(s, q, error, il, l, id);
    }
  }

  // -------- what late deletions do to later lookups

  /** A lookup, or entries leaving Redis by expiry or by a deletion that arrives late. */
  predicate ReadOrEvict(op: Op) {
    match op
    case Read(q, _, _, _) => Tracked(q)
    case Modify(_, _, _, _) => false
    case Evict(_) => true
  }

  function After(s: System, ops: seq<Op>): System
    decreases |ops|
  {
    if ops == [] then s else After(Step(s, ops[0]).0, ops[1..])
  }

  /** Some run of lookups and expiries leaves a wrong entry under the key of `id`. */
  ghost predicate CanSpoil(s: System, id: int) {
    exists ops :: (forall op | op in ops :: ReadOrEvict(op)) && Stale(s.rows, After(s, ops).cache.store, ById(id))
  }

  /** An index entry that names `id` while its column query answers something else. */
  ghost predicate Misnames(s: System, q: Query, id: int) {
    && Tracked(q) && !q.ById? && Key(q) in s.cache.store && s.cache.store[Key(q)] == Key(ById(id))
    && First(s.rows, q) != First(s.rows, ById(id))
  }

  /** The entry of `id` is wrong or some index entry misnames `id`. */
  ghost predicate AtRisk(s: System, id: int) {
    Tracked(ById(id)) && (Stale(s.rows, s.cache.store, ById(id)) || exists q :: Misnames(s, q, id))
  }

  /** Everything is suspect: the bound that holds in any well-shaped state. */
  lemma ShapedIsConfined(s: System) returns (a: Audit)
    requires Shaped(s)
    ensures Confined(s, a)
  {
    a := Audit(s.cache.store.Keys, Held(s.cache.store, s.cache.store.Keys));
  }

  lemma StepShaped(s: System, op: Op)
    requires Shaped(s) && ReadOrEvict(op)
    ensures Shaped(Step(s, op).0) && Step(s, op).0.rows == s.rows
  {
    var a := ShapedIsConfined(s);
    StepConfined(s, a, op);
  }

  /** A lookup leaves no index entry that misnames an id unless it was there before. */
  lemma LookupMisnamesNothing(s: System, q: Query, error: Option<string>, il: IndexLinks, l: TakeLinks, other: Query, id: int)
    requires Shaped(s) && Tracked(q)
    requires var next := Step(s, Read(q, error, il, l)).0; Misnames(next, other, id)
    ensures Misnames(s, other, id)
  {
    if q.ById? {
      KeyOnly(other);
      OtherEntryStays(s.cache, Key(q), Ask(s.rows, q, error), l, Key(other));
    } else {
      IndexMisnamesNothing(s, q, error, il, l, other, id);
    }
  }

  lemma FillIndexMisnamesNothing(s: System, q: Query, error: Option<string>, c: Counts, l: IndexLinks, other: Query, id: int)
    requires TableOk(s.rows) && !q.ById?
    requires Misnames(System(s.rows, FillIndex(State(s.cache.store, c), Key(q), Ask(s.rows, q, error), l).state), other, id)
    ensures Misnames(s, other, id)
  {
    FillIndexWrites(State(s.cache.store, c), Key(q), Ask(s.rows, q, error), l, Key(other));
    KeyOnly(other);
    KeyOnly(ById(id));
    KindsOfEntry(ById(id), NOBODY);
    if error.None? && First(s.rows, q).Some? {
      SameRow(s.rows, q);
    }
  }

  lemma IndexMisnamesNothing(s: System, q: Query, error: Option<string>, il: IndexLinks, l: TakeLinks, other: Query, id: int)
    requires Shaped(s) && Tracked(q) && !q.ById?
    requires Misnames(s.(cache := Lookup(s, q, error, il, l).state), other, id)
    ensures Misnames(s, other, id)
  {
    var data := Get(s.cache.store, Key(q), il.get);
    if data == "" {
      FillIndexMisnamesNothing(s, q, error, Bump(s.cache.counts, MissEvent), il, other, id);
    } else if data != NOT_FOUND {
      var j :| data == Key(ById(j));
      KeyOnly(other);
      OtherEntryStays(ReadIndex(s.cache, Key(q), Ask(s.rows, q, error), il).state, Key(ById(j)), Ask(s.rows, q, error), l, Key(other));
    }
  }

  lemma StepNoRisk(s: System, op: Op, id: int)
    requires Shaped(s) && ReadOrEvict(op) && !AtRisk(s, id)
    ensures !AtRisk(Step(s, op).0, id)
  {
    var next := Step(s, op).0;
    if AtRisk(next, id) {
      match op
      case Read(q, error, il, l) =>
        LookupSpoilsExactly(s, q, error, il, l, id);
        if Misdirects(s, q, error, il, l, id) {
          assert Misnames(s, q, id);
        } else {
          var other :| Misnames(next, other, id);
          LookupMisnamesNothing(s, q, error, il, l, other, id);
        }
      case Evict(keys) =>
        if q :| Misnames(next, q, id) {
          assert Misnames(s, q, id);
        }
    }
  }

  lemma {:induction false} RunNoRisk(s: System, ops: seq<Op>, id: int)
    requires Shaped(s) && !AtRisk(s, id) && forall op | op in ops :: ReadOrEvict(op)
    ensures After(s, ops).rows == s.rows && !AtRisk(After(s, ops), id)
    decreases |ops|
  {
    if ops != [] {
      StepShaped(s, ops[0]);
      StepNoRisk(s, ops[0], id);
      RunNoRisk(Step(s, ops[0]).0, ops[1..], id);
    }
  }

  /** A misnaming index entry is a trap: once the entry of the id has expired, following it spoils that entry. */
  lemma TrapSprings(s: System, q: Query, id: int)
    requires Shaped(s) && Misnames(s, q, id) && Tracked(ById(id))
    ensures Stale(s.rows, After(s, [Evict([Key(ById(id))]), Look(q)]).cache.store, ById(id))
  {
    var next := Step(s, Evict([Key(ById(id))])).0;
    KeyOnly(q);
    assert next.cache.store[Key(q)] == Key(ById(id));
    StepShaped(s, Evict([Key(ById(id))]));
    LookupSpoilsExactly(next, q, None, INDEX_UP, UP, id);
    var ops := [Evict([Key(ById(id))]), Look(q)];
    assert ops[1..] == [Look(q)] && [Look(q)][1..] == [];
    assert After(s, ops) == After(next, [Look(q)]) == Step(next, Look(q)).0;
  }

  lemma RiskSpoils(s: System, id: int)
    requires Shaped(s) && AtRisk(s, id)
    ensures CanSpoil(s, id)
  {
    if Stale(s.rows, s.cache.store, ById(id)) {
      assert After(s, []) == s;
    } else {
      var q :| Misnames(s, q, id);
      TrapSprings(s, q, id);
      assert forall op | op in [Evict([Key(ById(id))]), Look(q)] :: ReadOrEvict(op);
    }
  }

  /** Lookups and expiries can lead to a wrong entry for an id if and only if it is wrong already or some index entry misnames the id. */
  lemma SpoilableExactly(s: System, id: int)
    requires Shaped(s)
    ensures CanSpoil(s, id) <==> AtRisk(s, id)
  {
    if AtRisk(s, id) {
      RiskSpoils(s, id);
    } else if CanSpoil(s, id) {
      var ops :| (forall op | op in ops :: ReadOrEvict(op)) && Stale(s.rows, After(s, ops).cache.store, ById(id));
      RunNoRisk(s, ops, id);
    }
  }

  /**
   A deletion of `keys` that arrives late, exactly: afterwards the entry of an id can still go
   wrong if and only if it was wrong and is not deleted, or some index entry that misnames the id
   is not deleted with it. At that moment it adds no wrong entry and no suspect.
   */
  lemma LateDeletionExactly(s: System, a: Audit, keys: seq<string>, id: int)
    requires Confined(s, a) && Tracked(ById(id))
    ensures var (next, b) := (Step(s, Evict(keys)).0, Track(a, s, Evict(keys)));
      && (CanSpoil(next, id) <==>
            (Stale(s.rows, s.cache.store, ById(id)) && Key(ById(id)) !in keys) || exists q :: Misnames(s, q, id) && Key(q) !in keys)
      && (forall q | Stale(next.rows, next.cache.store, q) :: Stale(s.rows, s.cache.store, q))
      && b.lost <= a.lost && b.tainted <= a.tainted
  {
    var next := Step(s, Evict(keys)).0;
    StepShaped(s, Evict(keys));
    SpoilableExactly(next, id);
    forall q ensures Misnames(next, q, id) <==> Misnames(s, q, id) && Key(q) !in keys {
    }
  }

  /** An entry that a lookup leaves alone which would store `answer` if there were none. */
  predicate Shields(v: string, answer: Option<User>) {
    (v != "" && Readable(v)) || (v == "" && answer.None?)
  }

  // -------- runs of lookups without expiries and failures

  function AfterLooks(s: System, qs: seq<Query>): System
    decreases |qs|
  {
    if qs == [] then s else AfterLooks(Step(s, Look(qs[0])).0, qs[1..])
  }

  /** Some run of lookups, every call of which goes through, leaves a wrong entry under the key of `id`. */
  ghost predicate LooksSpoil(s: System, id: int) {
    exists qs :: (forall q | q in qs :: Tracked(q)) && Stale(s.rows, AfterLooks(s, qs).cache.store, ById(id))
  }

  /** The entry of `id` keeps a lookup of `q` that is misdirected there from storing its answer. */
  predicate Shielded(s: System, q: Query, id: int) {
    Key(ById(id)) in s.cache.store && Shields(s.cache.store[Key(ById(id))], First(s.rows, q))
  }

  /** The entry of `id` is wrong, or some index entry misnames `id` and nothing shields it. */
  ghost predicate Exposed(s: System, id: int) {
    Stale(s.rows, s.cache.store, ById(id)) || exists q :: Misnames(s, q, id) && !Shielded(s, q, id)
  }

  /** With every call going through, a lookup is misdirected exactly if its index entry misnames the id and the id is not shielded. */
  lemma LookMisdirected(s: System, q: Query, id: int)
    requires Tracked(q)
    ensures Misdirects(s, q, None, INDEX_UP, UP, id) <==> Misnames(s, q, id) && !Shielded(s, q, id)
  {
    KindsOfEntry(ById(id), NOBODY);
  }

  /**
   Without expiries and failures a late deletion can still hurt: the next lookup of `q` spoils the
   entry of `id` because of the deletion if and only if that deletes the entry which shielded the
   id and leaves the index entry of `q` which misnames it.
   */
  lemma LateDeletionHurtsExactly(s: System, keys: seq<string>, q: Query, id: int)
    requires Shaped(s) && Tracked(q) && Tracked(ById(id)) && !Stale(s.rows, s.cache.store, ById(id))
    ensures var (direct, late) := (Step(s, Look(q)).0, Step(Step(s, Evict(keys)).0, Look(q)).0);
      Stale(late.rows, late.cache.store, ById(id)) && !Stale(direct.rows, direct.cache.store, ById(id)) <==>
      Misnames(s, q, id) && Key(q) !in keys && Key(ById(id)) in keys && Shielded(s, q, id)
  {
    var next := Step(s, Evict(keys)).0;
    StepShaped(s, Evict(keys));
    LookupSpoilsExactly(s, q, None, INDEX_UP, UP, id);
    LookupSpoilsExactly(next, q, None, INDEX_UP, UP, id);
    LookMisdirected(s, q, id);
    LookMisdirected(next, q, id);
  }

  lemma FillKeepsShield(s: State, key: string, query: Reply, put: Link, answer: Option<User>)
    requires !query.Failed? && key in s.store && Shields(s.store[key], answer)
    ensures var store := Fill(s, key, query, put).state.store; key in store && Shields(store[key], answer)
  {
    if query.Found? {
      KindsOfEntry(ById(0), query.user);
    }
  }

  /** A lookup that goes through replaces an entry only by one that can be read. */
  lemma ReadThroughKeepsShield(s: State, key: string, query: Reply, answer: Option<User>)
    requires !query.Failed? && key in s.store && Shields(s.store[key], answer)
    ensures var store := ReadThrough(s, key, query, UP).state.store; key in store && Shields(store[key], answer)
  {
    FillKeepsShield(State(s.store, Bump(s.counts, MissEvent)), key, query, Done, answer);
  }

  lemma FillIndexKeepsShield(s: State, indexKey: string, query: Reply, id: int, answer: Option<User>)
    requires !query.Failed? && Key(ById(id)) in s.store && Shields(s.store[Key(ById(id))], answer) && indexKey != Key(ById(id))
    ensures var store := FillIndex(s, indexKey, query, INDEX_UP).state.store; Key(ById(id)) in store && Shields(store[Key(ById(id))], answer)
  {
    FillIndexWrites(s, indexKey, query, INDEX_UP, Key(ById(id)));
    FillIndexKeeps(s, indexKey, query, INDEX_UP, Key(ById(id)));
    if query.Found? {
      KindsOfEntry(ById(id), query.user);
    }
  }

  lemma FillIndexKeeps(s: State, indexKey: string, query: Reply, l: IndexLinks, k: string)
    requires k in s.store
    ensures k in FillIndex(s, indexKey, query, l).state.store
  {
  }

  lemma LookKeepsShield(s: System, q: Query, other: Query, id: int)
    requires Shaped(s) && Tracked(q) && Shielded(s, other, id)
    ensures Shielded(Step(s, Look(q)).0, other, id)
  {
    var key, answer, query := Key(ById(id)), First(s.rows, other), Ask(s.rows, q, None);
    KeyOnly(ById(id));
    if q.ById? {
      if q.id == id {
        ReadThroughKeepsShield(s.cache, key, query, answer);
      } else {
        OtherEntryStays(s.cache, Key(q), query, UP, key);
      }
    } else {
      IndexLookKeepsShield(s, q, other, id);
    }
  }

  lemma IndexLookKeepsShield(s: System, q: Query, other: Query, id: int)
    requires Shaped(s) && Tracked(q) && !q.ById? && Shielded(s, other, id)
    ensures Shielded(s.(cache := Lookup(s, q, None, INDEX_UP, UP).state), other, id)
  {
    var key, answer, query := Key(ById(id)), First(s.rows, other), Ask(s.rows, q, None);
    KeyOnly(ById(id));
    var data := Get(s.cache.store, Key(q), Done);
    if data == "" {
      FillIndexKeepsShield(State(s.cache.store, Bump(s.cache.counts, MissEvent)), Key(q), query, id, answer);
    } else if data != NOT_FOUND {
      var j :| data == Key(ById(j));
      var index := ReadIndex(s.cache, Key(q), query, INDEX_UP);
      if j == id {
        ReadThroughKeepsShield(index.state, key, query, answer);
      } else {
        OtherEntryStays(index.state, Key(ById(j)), query, UP, key);
      }
    }
  }

  lemma LookNotExposed(s: System, q: Query, id: int)
    requires Shaped(s) && Tracked(q) && Tracked(ById(id)) && !Exposed(s, id)
    ensures Shaped(Step(s, Look(q)).0) && Step(s, Look(q)).0.rows == s.rows && !Exposed(Step(s, Look(q)).0, id)
  {
    var next := Step(s, Look(q)).0;
    StepShaped(s, Look(q));
    LookupSpoilsExactly(s, q, None, INDEX_UP, UP, id);
    LookMisdirected(s, q, id);
    if other :| Misnames(next, other, id) && !Shielded(next, other, id) {
      LookupMisnamesNothing(s, q, None, INDEX_UP, UP, other, id);
      LookKeepsShield(s, q, other, id);
    }
  }

  lemma {:induction false} LooksNotExposed(s: System, qs: seq<Query>, id: int)
    requires Shaped(s) && Tracked(ById(id)) && !Exposed(s, id) && forall q | q in qs :: Tracked(q)
    ensures AfterLooks(s, qs).rows == s.rows && !Exposed(AfterLooks(s, qs), id)
    decreases |qs|
  {
    if qs != [] {
      LookNotExposed(s, qs[0], id);
      LooksNotExposed(Step(s, Look(qs[0])).0, qs[1..], id);
    }
  }

  lemma AfterOneLook(s: System, q: Query)
    ensures AfterLooks(s, [q]) == Step(s, Look(q)).0
  {
    assert [q][1..] == [];
  }

  lemma UnshieldedSpoils(s: System, q: Query, id: int)
    requires Shaped(s) && Tracked(ById(id)) && Misnames(s, q, id) && !Shielded(s, q, id) && !Stale(s.rows, s.cache.store, ById(id))
    ensures Stale(s.rows, AfterLooks(s, [q]).cache.store, ById(id))
  {
    LookMisdirected(s, q, id);
    LookupSpoilsExactly(s, q, None, INDEX_UP, UP, id);
    AfterOneLook(s, q);
  }

  lemma LooksSpoilBy(s: System, qs: seq<Query>, id: int)
    requires (forall q | q in qs :: Tracked(q)) && Stale(s.rows, AfterLooks(s, qs).cache.store, ById(id))
    ensures LooksSpoil(s, id)
  {
  }

  lemma ExposedSpoils(s: System, id: int)
    requires Shaped(s) && Tracked(ById(id)) && Exposed(s, id)
    ensures LooksSpoil(s, id)
  {
    if Stale(s.rows, s.cache.store, ById(id)) {
      LooksSpoilBy(s, [], id);
    } else {
      var q :| Misnames(s, q, id) && !Shielded(s, q, id);
      UnshieldedSpoils(s, q, id);
      LooksSpoilBy(s, [q], id);
    }
  }

  /** With every call going through, lookups can make an entry wrong if and only if it is wrong already or an index entry misnames the id unshielded. */
  lemma LooksSpoilExactly(s: System, id: int)
    requires Shaped(s) && Tracked(ById(id))
    ensures LooksSpoil(s, id) <==> Exposed(s, id)
  {
    if Exposed(s, id) {
      ExposedSpoils(s, id);
    } else if LooksSpoil(s, id) {
      var qs :| (forall q | q in qs :: Tracked(q)) && Stale(s.rows, AfterLooks(s, qs).cache.store, ById(id));
      LooksNotExposed(s, qs, id);
    }
  }

  /**
   What a late deletion can do, exactly: lookups that all go through can spoil the entry of an id
   after it and could not before if and only if the entry was right, it is deleted, an index
   entry that misnames the id is not, and the entry had shielded the id from every such entry.
   */
  lemma LateDeletionSpoilsExactly(s: System, keys: seq<string>, id: int)
    requires Shaped(s) && Tracked(ById(id))
    ensures LooksSpoil(Step(s, Evict(keys)).0, id) && !LooksSpoil(s, id) <==>
      && !Stale(s.rows, s.cache.store, ById(id)) && Key(ById(id)) in keys
      && (exists q :: Misnames(s, q, id) && Key(q) !in keys)
      && (forall q | Misnames(s, q, id) :: Shielded(s, q, id))
  {
    var next := Step(s, Evict(keys)).0;
    StepShaped(s, Evict(keys));
    LooksSpoilExactly(s, id);
    LooksSpoilExactly(next, id);
    forall q ensures Misnames(next, q, id) <==> Misnames(s, q, id) && Key(q) !in keys {
    }
    forall q ensures Shielded(next, q, id) <==> Shielded(s, q, id) && Key(ById(id)) !in keys {
    }
  }
}
