/** What goes wrong when deletions are lost, and how far it can spread. */
module Staleness {
  import opened Wrappers
  import opened Users
  import opened Keys
  import opened Metrics
  import opened Cache
  import opened CachedDatabase
  import opened Writes
  import opened UserRepository
  import opened Refinement
  import opened Transparency
  import Codec

  /** Which entries are under suspicion: those whose deletion was lost, and those a lost pointer names. */
  datatype Audit = Audit(lost: set<string>, tainted: set<string>)

  const CLEAN := Audit({}, {})

  /** Admissible except that deletions may be skipped or fail. */
  predicate Careful(op: Op) {
    match op
    case Read(q, _, _, _) => Tracked(q)
    case Modify(w, _, _, _) => w.Create? ==> NewId(w.user, w.autoId) >= 0
    case Evict(_) => true
  }

  function Elems(keys: seq<string>): set<string> {
    set k | k in keys
  }

  /** The entries a committed write should have deleted and did not. */
  function LostBy(s: System, op: Op): set<string> {
    if op.Modify? && Attempt(s.rows, op.w, op.up).Committed? then
      var done := Attempt(s.rows, op.w, op.up);
      s.cache.store.Keys *
        ((if op.del.Done? then {} else Elems(done.keys)) + (if op.delId.Done? then {} else Elems(done.idKeys)))
    else {}
  }

  /** The keys that are certainly absent after the operation. */
  function RemovedBy(s: System, op: Op): set<string> {
    match op
    case Read(_, _, _, _) => {}
    case Evict(keys) => Elems(keys)
    case Modify(w, up, del, delId) =>
      match Attempt(s.rows, w, up) {
        case Refused(_) => {}
        case Committed(_, _, keys, idKeys) =>
          (if del.Done? then Elems(keys) else {}) + (if delId.Done? then Elems(idKeys) else {})
      }
  }

  function Held(store: Store, keys: set<string>): set<string> {
    set k | k in keys && k in store :: store[k]
  }

  function Track(a: Audit, s: System, op: Op): Audit {
    var lost := a.lost - RemovedBy(s, op) + LostBy(s, op);
    Audit(lost, a.tainted - RemovedBy(s, op) + Held(Step(s, op).0.cache.store, lost))
  }

  ghost predicate Suspect(a: Audit, q: Query) {
    Key(q) in a.lost || (q.ById? && Key(q) in a.tainted)
  }

  ghost predicate Stale(t: Table, store: Store, q: Query) {
    Tracked(q) && Key(q) in store && !Fits(t, q, store[Key(q)])
  }

  ghost predicate IsPointer(v: string) {
    exists id :: v == Key(ById(id))
  }

  /** Under the keys of unique columns there are only pointers and placeholders. */
  ghost predicate IndexEntries(store: Store) {
    forall q | Tracked(q) && !q.ById? && Key(q) in store ::
      var v := store[Key(q)]; v == "" || v == NOT_FOUND || IsPointer(v)
  }

  /** Only suspects are stale, and whatever a lost index entry names is a suspect. */
  ghost predicate Confined(s: System, a: Audit) {
    && TableOk(s.rows) && PositiveIds(s.rows)
    && (forall q | Stale(s.rows, s.cache.store, q) :: Suspect(a, q))
    && IndexEntries(s.cache.store)
    && Held(s.cache.store, a.lost) <= a.tainted
  }

  /** The part of `Confined` that speaks of the entries. */
  ghost predicate Bounded(t: Table, store: Store, a: Audit) {
    && (forall q | Stale(t, store, q) :: Suspect(a, q))
    && IndexEntries(store)
  }

  lemma PutBounded(t: Table, store: Store, a: Audit, q: Query, v: string)
    requires Bounded(t, store, a)
    requires Fits(t, q, v) || (q.ById? && Suspect(a, q))
    requires !q.ById? ==> v == "" || v == NOT_FOUND || IsPointer(v)
    ensures Bounded(t, store[Key(q) := v], a)
  {
    KeyOnly(q);
  }

  lemma WithoutBounded(t: Table, store: Store, a: Audit, keys: seq<string>)
    requires Bounded(t, store, a)
    ensures Bounded(t, Without(store, keys), a)
  {
  }

  /** Filling an id key from any query: right if the query was right, a suspect otherwise. */
  lemma FillBounded(t: Table, a: Audit, id: int, query: Reply, s: State, put: Link)
    requires Bounded(t, s.store, a)
    requires Suspect(a, ById(id)) || query.Failed? || query == Ask(t, ById(id), None)
    ensures Bounded(t, Fill(s, Key(ById(id)), query, put).state.store, a)
  {
    match query
    case Found(u) =>
      KindsOfEntry(ById(id), u);
      PutBounded(t, s.store, a, ById(id), Codec.Encode(u));
    case NotFound =>
      PutBounded(t, s.store, a, ById(id), NOT_FOUND);
    case Failed(_) =>
  }

  lemma ReadThroughBounded(t: Table, a: Audit, id: int, query: Reply, s: State, l: TakeLinks)
    requires Bounded(t, s.store, a)
    requires Suspect(a, ById(id)) || query.Failed? || query == Ask(t, ById(id), None)
    ensures Bounded(t, ReadThrough(s, Key(ById(id)), query, l).state.store, a)
  {
    var missed := Bump(s.counts, MissEvent);
    FillBounded(t, a, id, query, State(s.store, missed), l.put);
    WithoutBounded(t, s.store, a, [Key(ById(id))]);
    FillBounded(t, a, id, query, State(Del(s.store, [Key(ById(id))], l.del), Bump(missed, HitEvent)), l.put);
  }

  lemma FillIndexBounded(t: Table, a: Audit, q: Query, error: Option<string>, s: State, l: IndexLinks)
    requires TableOk(t) && PositiveIds(t) && Bounded(t, s.store, a) && !q.ById?
    ensures Bounded(t, FillIndex(s, Key(q), Ask(t, q, error), l).state.store, a)
  {
    match Ask(t, q, error)
    case Found(u) =>
      FirstSome(t, q);
      SameRow(t, q);
      KindsOfEntry(ById(u.id), u);
      PutBounded(t, s.store, a, q, Key(ById(u.id)));
      PutBounded(t, Set(s.store, Key(q), Key(ById(u.id)), l.put), a, ById(u.id), Codec.Encode(u));
    case NotFound =>
      PutBounded(t, s.store, a, q, NOT_FOUND);
    case Failed(_) =>
  }

  lemma LookupBounded(s: System, a: Audit, q: Query, error: Option<string>, il: IndexLinks, l: TakeLinks)
    requires Confined(s, a) && Tracked(q)
    ensures Bounded(s.rows, Lookup(s, q, error, il, l).state.store, a)
  {
    var t, store := s.rows, s.cache.store;
    if q.ById? {
      ReadThroughBounded(t, a, q.id, Ask(t, q, error), s.cache, l);
    } else {
      FillIndexBounded(t, a, q, error, State(store, Bump(s.cache.counts, MissEvent)), il);
      var index := ReadIndex(s.cache, Key(q), Ask(t, q, error), il);
      if index.reply.Pointer? {
        var id :| store[Key(q)] == Key(ById(id));
        if Key(q) in a.lost {
          assert store[Key(q)] in Held(store, a.lost);
        } else {
          assert !Stale(t, store, q);
          SameRow(t, q);
          KeyInjective(ById(id), ById(First(t, q).value.id));
        }
        ReadThroughBounded(t, a, id, Ask(t, q, error), index.state, l);
      }
    }
  }

  lemma ModifyBounded(s: System, a: Audit, op: Op)
    requires Confined(s, a) && op.Modify? && Careful(op) && Attempt(s.rows, op.w, op.up).Committed?
    ensures Bounded(Step(s, op).0.rows, Step(s, op).0.cache.store, Track(a, s, op))
  {
    var done := Apply(s.rows, op.w);
    ApplyKeepsTable(s.rows, op.w);
    var before, after := s.cache.store, Step(s, op).0.cache.store;
    var b := Track(a, s, op);
    forall q | Stale(done.rows, after, q) ensures Suspect(b, q) {
      assert Key(q) in before && after[Key(q)] == before[Key(q)];
      if First(s.rows, q) != First(done.rows, q) {
        Coverage(s.rows, op.w, q);
      } else {
        assert Stale(s.rows, before, q);
      }
    }
  }

  lemma ModifyConfined(s: System, a: Audit, op: Op)
    requires Confined(s, a) && op.Modify? && Careful(op)
    ensures Confined(Step(s, op).0, Track(a, s, op))
    ensures Step(s, op).0.rows == PlainStep(s.rows, op).0
  {
    if Attempt(s.rows, op.w, op.up).Committed? {
      ModifyBounded(s, a, op);
      ApplyKeepsTable(s.rows, op.w);
      if op.w.Update? {
        FirstSome(s.rows, ById(op.w.user.id));
      }
      if op.w.Remove? {
        FirstSome(s.rows, ById(op.w.id));
      }
    } else {
      assert Step(s, op).0 == s && Track(a, s, op).lost == a.lost;
    }
  }

  lemma EvictConfined(s: System, a: Audit, keys: seq<string>)
    requires Confined(s, a)
    ensures Confined(Step(s, Evict(keys)).0, Track(a, s, Evict(keys)))
  {
    WithoutBounded(s.rows, s.cache.store, a, keys);
  }

  lemma StepConfined(s: System, a: Audit, op: Op)
    requires Confined(s, a) && Careful(op)
    ensures Confined(Step(s, op).0, Track(a, s, op))
    ensures Step(s, op).0.rows == PlainStep(s.rows, op).0
  {
    match op
    case Read(q, error, il, l) =>
      LookupBounded(s, a, q, error, il, l);
      assert Track(a, s, op).lost == a.lost;
    case Modify(w, up, del, delId) =>
      ModifyConfined(s, a, op);
    case Evict(keys) =>
      EvictConfined(s, a, keys);
  }

  function Audited(s: System, a: Audit, ops: seq<Op>): (System, Audit)
    decreases |ops|
  {
    if ops == [] then (s, a) else Audited(Step(s, ops[0]).0, Track(a, s, ops[0]), ops[1..])
  }

  lemma {:induction false} RunConfined(s: System, a: Audit, ops: seq<Op>)
    requires Confined(s, a) && forall op | op in ops :: Careful(op)
    ensures Confined(Audited(s, a, ops).0, Audited(s, a, ops).1)
    decreases |ops|
  {
    if ops != [] {
      StepConfined(s, a, ops[0]);
      RunConfined(Step(s, ops[0]).0, Track(a, s, ops[0]), ops[1..]);
    }
  }

  lemma HealthyIsConfined(s: System)
    requires Healthy(s)
    ensures Confined(s, CLEAN)
  {
    forall q | Tracked(q) && !q.ById? && Key(q) in s.cache.store
      ensures var v := s.cache.store[Key(q)]; v == "" || v == NOT_FOUND || IsPointer(v)
    {
      assert Fits(s.rows, q, s.cache.store[Key(q)]);
    }
  }

  /**
   Staleness is confined. Whatever deletions a run loses, an entry that disagrees with the
   table is one whose own deletion was lost, or the id key a lost index entry has named.
   */
  lemma StalenessConfined(s: System, ops: seq<Op>, q: Query)
    requires Healthy(s) && forall op | op in ops :: Careful(op)
    ensures var (end, a) := Audited(s, CLEAN, ops);
      Stale(end.rows, end.cache.store, q) ==> Key(q) in a.lost || (q.ById? && Key(q) in a.tainted)
  {
    HealthyIsConfined(s);
    RunConfined(s, CLEAN, ops);
  }

  /** A lookup that meets no suspect answers like the table. */
  lemma UnsuspectedAnswer(s: System, a: Audit, q: Query, error: Option<string>, il: IndexLinks, l: TakeLinks)
    requires Confined(s, a) && Tracked(q) && !Suspect(a, q)
    requires !q.ById? && First(s.rows, q).Some? ==> !Suspect(a, ById(First(s.rows, q).value.id))
    ensures var op := Read(q, error, il, l); Agrees(op, Step(s, op).1, PlainStep(s.rows, op).1)
  {
    assert !Stale(s.rows, s.cache.store, q);
    if First(s.rows, q).Some? {
      FirstSome(s.rows, q);
      SameRow(s.rows, q);
      assert !Stale(s.rows, s.cache.store, ById(First(s.rows, q).value.id));
    }
  }

  /** Deleting every suspect that has an entry, whenever that happens, makes the cache right again. */
  lemma Recovery(s: System, a: Audit, keys: seq<string>)
    requires Confined(s, a) && (forall k | k in s.cache.store && (k in a.lost || k in a.tainted) :: k in keys)
    ensures Healthy(Step(s, Evict(keys)).0)
  {
    var next := Step(s, Evict(keys)).0;
    forall q | Tracked(q) && Key(q) in next.cache.store ensures Fits(next.rows, q, next.cache.store[Key(q)]) {
      assert Stale(next.rows, next.cache.store, q) ==> Stale(s.rows, s.cache.store, q);
    }
  }

  /** The bound is reached: a lost index entry that is followed really leaves a wrong row under the id key it names. */
  lemma LostPointerTaints(s: System, q: Query, id: int, u: User)
    requires !q.ById? && Tracked(ById(id)) && Key(q) in s.cache.store && s.cache.store[Key(q)] == Key(ById(id))
    requires Key(ById(id)) !in s.cache.store && First(s.rows, q) == Some(u) && First(s.rows, ById(id)) != Some(u)
    ensures var (next, _) := Step(s, Look(q)); Stale(next.rows, next.cache.store, ById(id))
  {
    LookFollows(s, q, id, u);
    KindsOfEntry(ById(id), u);
  }
}
