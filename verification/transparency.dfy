/** Which lookups the cache can be noticed through: exactly the untracked ones. */
module Transparency {
  import opened Wrappers
  import opened Users
  import opened Keys
  import opened Metrics
  import opened Cache
  import opened CachedDatabase
  import opened Writes
  import opened UserRepository
  import opened Refinement
  import Codec

  /** Admissible, or a lookup of `q`, or the creation of the very row `q` names by id. */
  predicate AllowedWith(q: Query, op: Op) {
    || Admissible(op)
    || (op.Read? && op.q == q)
    || (op.Modify? && op.w.Create? && op.del.Done? && op.delId.Done? && q == ById(NewId(op.w.user, op.w.autoId)))
  }

  /** No run that adds lookups of `q` to admissible operations ever answers differently from the table. */
  ghost predicate Transparent(q: Query) {
    forall s, ops | Healthy(s) && forall op | op in ops :: AllowedWith(q, op) :: Unnoticed(s, s.rows, ops)
  }

  const NOTHING := System(map[], State(map[], NO_COUNTS))
  const NO_PROFILE := Profile("", "", "", 0)
  const UP := TakeLinks(Done, Done, Done)
  const INDEX_UP := IndexLinks(Done, Done, Done)

  function Look(q: Query): Op {
    Read(q, None, INDEX_UP, UP)
  }

  // -------- single steps with everything reachable

  lemma LookMissesNothing(s: System, q: Query)
    requires Key(q) !in s.cache.store && First(s.rows, q) == None
    ensures var (next, _) := Step(s, Look(q));
      next.rows == s.rows && next.cache.store == s.cache.store[Key(q) := NOT_FOUND]
  {
  }

  lemma LookHitsNothing(s: System, q: Query)
    requires Key(q) in s.cache.store && s.cache.store[Key(q)] == NOT_FOUND
    ensures Step(s, Look(q)).1 == Got(NotFound)
  {
  }

  lemma LookMissesIndex(s: System, q: Query, u: User)
    requires !q.ById? && Key(q) !in s.cache.store && First(s.rows, q) == Some(u) && u.id != 0
    ensures var (next, _) := Step(s, Look(q));
      next.rows == s.rows && next.cache.store == s.cache.store[Key(q) := Key(ById(u.id))][Key(ById(u.id)) := Codec.Encode(u)]
  {
  }

  lemma LookFollows(s: System, q: Query, id: int, u: User)
    requires !q.ById? && Key(q) in s.cache.store && s.cache.store[Key(q)] == Key(ById(id))
    requires Key(ById(id)) !in s.cache.store && First(s.rows, q) == Some(u)
    ensures var (next, _) := Step(s, Look(q));
      next.rows == s.rows && next.cache.store == s.cache.store[Key(ById(id)) := Codec.Encode(u)]
  {
    KindsOfEntry(ById(id), u);
  }

  lemma LookHitsRow(s: System, id: int, u: User)
    requires Key(ById(id)) in s.cache.store && s.cache.store[Key(ById(id))] == Codec.Encode(u)
    ensures Step(s, Look(ById(id))).1 == Got(Found(u))
  {
    KindsOfEntry(ById(id), u);
  }

  function Make(u: User, autoId: int): Op {
    Modify(Create(u, autoId), true, Done, Done)
  }

  lemma MakeStep(s: System, u: User, autoId: int)
    requires Apply(s.rows, Create(u, autoId)).Committed?
    ensures var (next, _) := Step(s, Make(u, autoId));
      next.rows == s.rows[NewId(u, autoId) := u.(id := NewId(u, autoId), deleted := false)] &&
      next.cache.store == Without(Without(s.cache.store, UniqueKeys(u)), IdKeys(NewId(u, autoId)))
  {
    assert forall store: Store :: Without(store, []) == store;
  }

  lemma NotFoundStays(s: System, q: Query, u: User, autoId: int)
    requires !Tracked(q) && s.rows == map[] && s.cache.store == map[Key(q) := NOT_FOUND] && NewId(u, autoId) != 0
    ensures var next := Step(s, Make(u, autoId)).0;
      next.rows == map[NewId(u, autoId) := u.(id := NewId(u, autoId), deleted := false)] && next.cache.store == s.cache.store
  {
    var row := u.(id := NewId(u, autoId), deleted := false);
    MakeStep(s, u, autoId);
    ModelKeysAre(row, q);
    assert UniqueKeys(u) == UniqueKeys(row);
  }

  /** A row that the untracked lookup `q` finds. */
  function RowFor(q: Query): User
    requires !Tracked(q)
  {
    User(if q.ById? then q.id else 1, "", "", NO_PROFILE, 0, false)
  }

  /** A not-found answer of an untracked lookup survives the creation of the row. */
  lemma UntrackedStays(s: System, q: Query)
    requires !Tracked(q) && s.rows == map[] && s.cache.store == map[Key(q) := NOT_FOUND]
    ensures var next := Step(s, Make(RowFor(q), 0)).0;
      next.rows == PlainStep(map[], Make(RowFor(q), 0)).0 &&
      !Agrees(Look(q), Step(next, Look(q)).1, PlainStep(next.rows, Look(q)).1)
  {
    var u := RowFor(q);
    NotFoundStays(s, q, u, 0);
    var next := Step(s, Make(u, 0)).0;
    assert TableOk(next.rows);
    FirstIs(next.rows, q, u);
    LookHitsNothing(next, q);
  }

  lemma NoticedNow(s: System, t: Table, op: Op)
    requires !Agrees(op, Step(s, op).1, PlainStep(t, op).1)
    ensures !Unnoticed(s, t, [op])
  {
  }

  lemma NoticedLater(s: System, t: Table, op: Op, rest: seq<Op>)
    requires !Unnoticed(Step(s, op).0, PlainStep(t, op).0, rest)
    ensures !Unnoticed(s, t, [op] + rest)
  {
    assert ([op] + rest)[1..] == rest;
  }

  lemma NotTransparent(q: Query, s: System, ops: seq<Op>)
    requires Healthy(s) && (forall op | op in ops :: AllowedWith(q, op)) && !Unnoticed(s, s.rows, ops)
    ensures !Transparent(q)
  {
  }

  lemma TailNoticed(q: Query, s: System)
    requires !Tracked(q) && s.rows == map[] && s.cache.store == map[Key(q) := NOT_FOUND]
    ensures !Unnoticed(s, s.rows, [Make(RowFor(q), 0), Look(q)])
  {
    var look, make := Look(q), Make(RowFor(q), 0);
    UntrackedStays(s, q);
    var next := Step(s, make).0;
    NoticedNow(next, next.rows, look);
    NoticedLater(s, s.rows, make, [look]);
    assert [make] + [look] == [make, look];
  }

  lemma RunNoticed(q: Query, s: System)
    requires !Tracked(q) && s.rows == map[] && s.cache.store == map[]
    ensures !Unnoticed(s, s.rows, [Look(q), Make(RowFor(q), 0), Look(q)])
  {
    var look, make := Look(q), Make(RowFor(q), 0);
    LookMissesNothing(s, q);
    TailNoticed(q, Step(s, look).0);
    NoticedLater(s, s.rows, look, [make, look]);
    assert [look] + [make, look] == [look, make, look];
  }

  lemma StoryAllowed(q: Query)
    requires !Tracked(q)
    ensures forall op | op in [Look(q), Make(RowFor(q), 0), Look(q)] :: AllowedWith(q, op)
  {
    assert AllowedWith(q, Look(q)) && AllowedWith(q, Make(RowFor(q), 0));
  }

  lemma UntrackedNoticed(q: Query)
    requires !Tracked(q)
    ensures !Transparent(q)
  {
    RunNoticed(q, NOTHING);
    StoryAllowed(q);
    NotTransparent(q, NOTHING, [Look(q), Make(RowFor(q), 0), Look(q)]);
  }

  lemma TransparentExactly(q: Query)
    ensures Transparent(q) <==> Tracked(q)
  {
    if Tracked(q) {
      forall s, ops | Healthy(s) && forall op | op in ops :: AllowedWith(q, op) ensures Unnoticed(s, s.rows, ops) {
        assert forall op | op in ops :: Admissible(op);
        CacheUnnoticed(s, ops);
      }
    } else {
      UntrackedNoticed(q);
    }
  }

  lemma UpdateStep(s: System, u: User, was: User)
    requires First(s.rows, ById(u.id)) == Some(was) && was.id == u.id && s.rows[u.id := was] == s.rows
    requires !Taken(s.rows, u.id, u.username, u.email)
    ensures var (next, _) := Step(s, Modify(Update(u), true, Done, Done));
      next.rows == s.rows[u.id := was.(username := u.username, email := u.email, profile := u.profile, version := was.version + 1)] &&
      next.cache.store == Without(s.cache.store, ModelKeys(was) + ModelKeys(u))
  {
    assert s.rows[u.id := was][u.id] == was;
    assert u.(id := was.id) == u;
  }

  /** A row with an empty username, its owner's update to another one, and a later row that takes the empty one. */
  ghost predicate Story(first: User, update: User, second: User) {
    && first.id > 0 && first.username == "" && !first.deleted
    && update.id == first.id && update.username != ""
    && second.id > 0 && second.id != first.id && second.username == "" && !second.deleted
    && second.email != first.email && second.email != update.email
  }

  function Renamed(first: User, update: User): User {
    first.(username := update.username, email := update.email, profile := update.profile, version := first.version + 1)
  }

  lemma OnlyFirstLeft(a: string, b: string, c: string, keys: seq<string>)
    requires a !in keys && b in keys && a != b
    ensures Without(map[a := b, b := c], keys) == map[a := b]
  {
  }

  lemma RenameKeys(first: User, update: User, second: User)
    requires Story(first, update, second)
    ensures var keys := ModelKeys(first) + ModelKeys(update);
      Key(ByUsername("")) !in keys && Key(ById(first.id)) in keys && Key(ByUsername("")) != Key(ById(first.id))
  {
    ModelKeysAre(first, ById(first.id));
    ModelKeysAre(first, ByUsername(""));
    ModelKeysAre(update, ByUsername(""));
    KeyOnly(ByUsername(""));
  }

  lemma OnlyRow(first: User, update: User)
    requires first.id > 0 && !first.deleted && update.id == first.id
    ensures var t := map[first.id := first];
      First(t, ById(first.id)) == Some(first) && t[update.id := first] == t && !Taken(t, update.id, update.username, update.email)
  {
    FirstIs(map[first.id := first], ById(first.id), first);
  }

  lemma RenamedRow(s: System, first: User, update: User)
    requires first.id > 0 && !first.deleted && update.id == first.id && s.rows == map[first.id := first]
    ensures var (next, _) := Step(s, Modify(Update(update), true, Done, Done));
      next.rows == map[first.id := Renamed(first, update)] &&
      next.cache.store == Without(s.cache.store, ModelKeys(first) + ModelKeys(update))
  {
    OnlyRow(first, update);
    UpdateStep(s, update, first);
  }

  lemma RenameStep(s: System, first: User, update: User, second: User)
    requires Story(first, update, second) && s.rows == map[first.id := first]
    requires s.cache.store == map[Key(ByUsername("")) := Key(ById(first.id)), Key(ById(first.id)) := Codec.Encode(first)]
    ensures var (next, _) := Step(s, Modify(Update(update), true, Done, Done));
      next.rows == map[first.id := Renamed(first, update)] && next.cache.store == map[Key(ByUsername("")) := Key(ById(first.id))]
  {
    RenamedRow(s, first, update);
    RenameKeys(first, update, second);
    OnlyFirstLeft(Key(ByUsername("")), Key(ById(first.id)), Codec.Encode(first), ModelKeys(first) + ModelKeys(update));
  }

  /** The pointer left by a lookup of the empty username outlives the renaming. */
  lemma PointerStays(first: User, update: User, second: User)
    requires Story(first, update, second)
    ensures var s1 := Step(System(map[first.id := first], State(map[], NO_COUNTS)), Look(ByUsername(""))).0;
      var s2 := Step(s1, Modify(Update(update), true, Done, Done)).0;
      s2.rows == map[first.id := Renamed(first, update)] && s2.cache.store == map[Key(ByUsername("")) := Key(ById(first.id))]
  {
    var s := System(map[first.id := first], State(map[], NO_COUNTS));
    FirstIs(s.rows, ByUsername(""), first);
    LookMissesIndex(s, ByUsername(""), first);
    RenameStep(Step(s, Look(ByUsername(""))).0, first, update, second);
  }

  lemma SecondRow(s: System, first: User, update: User, second: User)
    requires Story(first, update, second)
    requires s.rows == map[first.id := Renamed(first, update)]
    requires s.cache.store == map[Key(ByUsername("")) := Key(ById(first.id))]
    ensures var next := Step(s, Make(second, 0)).0;
      next.rows == map[first.id := Renamed(first, update), second.id := second] && next.cache.store == s.cache.store
  {
    MakeStep(s, second, 0);
    ModelKeysAre(second, ByUsername(""));
  }

  lemma FollowPoison(s: System, first: User, update: User, second: User)
    requires Story(first, update, second)
    requires s.rows == map[first.id := Renamed(first, update), second.id := second]
    requires s.cache.store == map[Key(ByUsername("")) := Key(ById(first.id))]
    ensures var next := Step(s, Look(ByUsername(""))).0;
      First(next.rows, ById(first.id)) == Some(Renamed(first, update)) && Step(next, Look(ById(first.id))).1 == Got(Found(second))
  {
    KeyOnly(ById(first.id));
    assert TableOk(s.rows);
    FirstIs(s.rows, ByUsername(""), second);
    FirstIs(s.rows, ById(first.id), Renamed(first, update));
    LookFollows(s, ByUsername(""), first.id, second);
    LookHitsRow(Step(s, Look(ByUsername(""))).0, first.id, second);
  }

  /**
   Lookups of an empty username also harm other lookups: the pointer they leave is never
   deleted, and following it later stores a different row under an id key. Here a user is
   renamed, another takes the empty username, and reading the first by id returns the second.
   */
  lemma EmptyLookupPoisonsId(first: User, update: User, second: User)
    requires Story(first, update, second)
    ensures var s1 := Step(System(map[first.id := first], State(map[], NO_COUNTS)), Look(ByUsername(""))).0;
      var s2 := Step(s1, Modify(Update(update), true, Done, Done)).0;
      var s3 := Step(s2, Make(second, 0)).0;
      var s4 := Step(s3, Look(ByUsername(""))).0;
      First(s4.rows, ById(first.id)) == Some(Renamed(first, update)) && Step(s4, Look(ById(first.id))).1 == Got(Found(second))
  {
    PointerStays(first, update, second);
    var s1 := Step(System(map[first.id := first], State(map[], NO_COUNTS)), Look(ByUsername(""))).0;
    var s2 := Step(s1, Modify(Update(update), true, Done, Done)).0;
    SecondRow(s2, first, update, second);
    FollowPoison(Step(s2, Make(second, 0)).0, first, update, second);
  }
}
