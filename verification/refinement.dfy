/** The cached repository refines the plain table: over any run the cache cannot be noticed. */
module Refinement {
  import opened Wrappers
  import opened Users
  import opened Keys
  import opened Cache
  import opened CachedDatabase
  import opened Writes
  import opened UserRepository
  import Codec

  /** One whole operation with the fate of its calls, or entries leaving Redis on their own. */
  datatype Op =
    | Read(q: Query, error: Option<string>, il: IndexLinks, l: TakeLinks)
    | Modify(w: Write, up: bool, del: Link, delId: Link)
    | Evict(keys: seq<string>)

  datatype Response = Got(reply: Reply) | Changed(outcome: WriteReply) | Quiet

  function Step(s: System, op: Op): (System, Response) {
    match op
    case Read(q, error, il, l) =>
      var out := Lookup(s, q, error, il, l);
      (s.(cache := out.state), Got(out.reply))
    case Modify(w, up, del, delId) =>
      var (next, reply) := Change(s, w, up, del, delId);
      (next, Changed(reply))
    case Evict(keys) =>
      (s.(cache := s.cache.(store := Without(s.cache.store, keys))), Quiet)
  }

  /** The same operation on the table alone. */
  function PlainStep(t: Table, op: Op): (Table, Response) {
    match op
    case Read(q, _, _, _) => (t, Got(Ask(t, q, None)))
    case Modify(w, up, _, _) =>
      (match Attempt(t, w, up) {
        case Refused(e) => (t, Changed(NotWritten(e)))
        case Committed(rows, id, _, _) => (rows, Changed(Wrote(id)))
      })
    case Evict(_) => (t, Quiet)
  }

  /** The answer is the plain one; a lookup whose database query fails may report that failure instead. */
  ghost predicate Agrees(op: Op, got: Response, plain: Response) {
    got == plain || (op.Read? && op.error.Some? && got == Got(Failed(op.error.value)))
  }

  /** Every answer in the run of `ops` agrees with the plain one. */
  ghost predicate Unnoticed(s: System, t: Table, ops: seq<Op>)
    decreases |ops|
  {
    ops == [] ||
    (Agrees(ops[0], Step(s, ops[0]).1, PlainStep(t, ops[0]).1) &&
     Unnoticed(Step(s, ops[0]).0, PlainStep(t, ops[0]).0, ops[1..]))
  }

  // -------- the invariant

  /** Reading entry `v` under the key of `q` leads to the table's answer to `q`. */
  ghost predicate Fits(t: Table, q: Query, v: string) {
    if v == "" then true
    else if v == NOT_FOUND then First(t, q).None?
    else if q.ById? then Codec.Decode(v).Some? ==> First(t, q) == Codec.Decode(v)
    else First(t, q).Some? && v == Key(ById(First(t, q).value.id))
  }

  ghost predicate Coherent(t: Table, store: Store) {
    forall q | Tracked(q) && Key(q) in store :: Fits(t, q, store[Key(q)])
  }

  ghost predicate PositiveIds(t: Table) {
    forall k | k in t :: k > 0
  }

  ghost predicate Healthy(s: System) {
    TableOk(s.rows) && PositiveIds(s.rows) && Coherent(s.rows, s.cache.store)
  }

  /** What a caller has to observe: tracked lookups only, no negative ids, and deletions that take effect. */
  predicate Admissible(op: Op) {
    match op
    case Read(q, _, _, _) => Tracked(q)
    case Modify(w, _, del, delId) =>
      del.Done? && (w.Create? ==> delId.Done? && NewId(w.user, w.autoId) >= 0)
    case Evict(_) => true
  }

  // -------- lookups

  lemma SetFits(t: Table, store: Store, q: Query, v: string)
    requires Coherent(t, store) && Fits(t, q, v)
    ensures Coherent(t, store[Key(q) := v])
  {
    KeyOnly(q);
  }

  lemma FillFits(t: Table, q: Query, error: Option<string>, s: State, put: Link)
    requires TableOk(t) && Coherent(t, s.store) && q.ById?
    ensures Coherent(t, Fill(s, Key(q), Ask(t, q, error), put).state.store)
  {
    match Ask(t, q, error)
    case Found(u) =>
      KindsOfEntry(q, u);
      SetFits(t, s.store, q, Codec.Encode(u));
    case NotFound =>
      SetFits(t, s.store, q, NOT_FOUND);
    case Failed(_) =>
  }

  lemma ReadById(t: Table, q: Query, error: Option<string>, s: State, l: TakeLinks)
    requires TableOk(t) && Coherent(t, s.store) && q.ById? && Tracked(q)
    ensures var out := ReadThrough(s, Key(q), Ask(t, q, error), l);
      Coherent(t, out.state.store) && (out.reply == Ask(t, q, None) || out.reply == Ask(t, q, error))
  {
    FillFits(t, q, error, State(s.store, Metrics.Bump(s.counts, Metrics.MissEvent)), l.put);
    var hit := Metrics.Bump(Metrics.Bump(s.counts, Metrics.MissEvent), Metrics.HitEvent);
    FillFits(t, q, error, State(Del(s.store, [Key(q)], l.del), hit), l.put);
  }

  lemma FillIndexFits(t: Table, q: Query, error: Option<string>, s: State, l: IndexLinks)
    requires TableOk(t) && PositiveIds(t) && Coherent(t, s.store) && !q.ById?
    ensures Coherent(t, FillIndex(s, Key(q), Ask(t, q, error), l).state.store)
  {
    match Ask(t, q, error)
    case Found(u) =>
      FirstSome(t, q);
      SameRow(t, q);
      KindsOfEntry(ById(u.id), u);
      SetFits(t, s.store, q, Key(ById(u.id)));
      SetFits(t, Set(s.store, Key(q), Key(ById(u.id)), l.put), ById(u.id), Codec.Encode(u));
    case NotFound =>
      SetFits(t, s.store, q, NOT_FOUND);
    case Failed(_) =>
  }

  lemma ReadByIndex(t: Table, q: Query, error: Option<string>, s: State, il: IndexLinks, l: TakeLinks)
    requires TableOk(t) && PositiveIds(t) && Coherent(t, s.store) && !q.ById? && Tracked(q)
    ensures var out := ReadThroughIndex(s, Key(q), Ask(t, q, error), il, l);
      Coherent(t, out.state.store) && (out.reply == Ask(t, q, None) || out.reply == Ask(t, q, error))
  {
    var data := Get(s.store, Key(q), il.get);
    if First(t, q).Some? {
      FirstSome(t, q);
    }
    FillIndexFits(t, q, error, State(s.store, Metrics.Bump(s.counts, Metrics.MissEvent)), il);
    if data != "" && data != NOT_FOUND {
      SameRow(t, q);
      ReadById(t, ById(First(t, q).value.id), error, ReadIndex(s, Key(q), Ask(t, q, error), il).state, l);
    }
  }

  // -------- writes

  /** A committed write that deletes its keys leaves no wrong entry behind. */
  lemma WriteFits(t: Table, store: Store, w: Write)
    requires TableOk(t) && Coherent(t, store) && Apply(t, w).Committed?
    ensures var done := Apply(t, w); Coherent(done.rows, Without(Without(store, done.keys), done.idKeys))
  {
    var done := Apply(t, w);
    var after := Without(Without(store, done.keys), done.idKeys);
    forall q | Tracked(q) && Key(q) in after ensures Fits(done.rows, q, after[Key(q)]) {
      if First(t, q) != First(done.rows, q) {
        Coverage(t, w, q);
      }
    }
  }

  /** No committed write but a create brings a new id into the table. */
  lemma ApplyKeepsPositive(t: Table, w: Write)
    requires TableOk(t) && PositiveIds(t) && Apply(t, w).Committed? && (w.Create? ==> NewId(w.user, w.autoId) >= 0)
    ensures PositiveIds(Apply(t, w).rows)
  {
    ApplyKeepsTable(t, w);
    if w.Update? {
      FirstSome(t, ById(w.user.id));
    }
    if w.Remove? {
      FirstSome(t, ById(w.id));
    }
  }

  lemma ModifyHealthy(s: System, w: Write, del: Link, delId: Link)
    requires Healthy(s) && Admissible(Modify(w, true, del, delId)) && Apply(s.rows, w).Committed?
    ensures var (next, reply) := Change(s, w, true, del, delId);
      Healthy(next) && next.rows == Apply(s.rows, w).rows && reply == Wrote(Apply(s.rows, w).id)
  {
    var done := Apply(s.rows, w);
    ApplyKeepsTable(s.rows, w);
    ApplyKeepsPositive(s.rows, w);
    WriteFits(s.rows, s.cache.store, w);
    assert Without(Without(s.cache.store, done.keys), []) == Without(s.cache.store, done.keys);
    assert !w.Create? ==> done.idKeys == [];
  }

  lemma StepHealthy(s: System, op: Op)
    requires Healthy(s) && Admissible(op)
    ensures Healthy(Step(s, op).0)
    ensures Step(s, op).0.rows == PlainStep(s.rows, op).0
    ensures Agrees(op, Step(s, op).1, PlainStep(s.rows, op).1)
  {
    match op
    case Read(q, error, il, l) =>
      if q.ById? {
        ReadById(s.rows, q, error, s.cache, l);
      } else {
        ReadByIndex(s.rows, q, error, s.cache, il, l);
      }
    case Modify(w, up, del, delId) =>
      if up && Apply(s.rows, w).Committed? {
        ModifyHealthy(s, w, del, delId);
      }
    case Evict(keys) =>
  }

  /** Refinement: from a healthy state, no run of admissible operations can tell the cache from the table. */
  lemma {:induction false} CacheUnnoticed(s: System, ops: seq<Op>)
    requires Healthy(s) && forall op | op in ops :: Admissible(op)
    ensures Unnoticed(s, s.rows, ops)
    decreases |ops|
  {
    if ops != [] {
      StepHealthy(s, ops[0]);
      CacheUnnoticed(Step(s, ops[0]).0, ops[1..]);
    }
  }
}
