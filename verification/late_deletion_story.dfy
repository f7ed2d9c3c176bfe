/**
 A story in which a late deletion hurts: two rejected deletions leave a username's pointer to a
 user who no longer has the name, and that user's entry, being right, hides it until it goes.
 */
module LateDeletionStory {
  import opened Wrappers
  import opened Users
  import opened Keys
  import opened Metrics
  import opened Cache
  import opened UserRepository
  import opened Refinement
  import opened Transparency
  import opened Staleness
  import opened Misdirection
  import Writes
  import Codec

  /** Two users; the second has taken over the first one's former username. */
  const RENAMED := User(1, "b", "b@", NO_PROFILE, 1, false)
  const SUCCESSOR := User(2, "a", "a@", NO_PROFILE, 0, false)

  const TWO_USERS: Table := map[1 := RENAMED, 2 := SUCCESSOR]

  /** The name's entry still points to the first user, whose own entry is right. */
  const SHIELDED := System(TWO_USERS, State(map[Key(ByUsername("a")) := Key(ById(1)), Key(ById(1)) := Codec.Encode(RENAMED)], NO_COUNTS))

  lemma ShieldedAnswers()
    ensures TableOk(TWO_USERS) && PositiveIds(TWO_USERS)
    ensures First(TWO_USERS, ById(1)) == Some(RENAMED) && First(TWO_USERS, ByUsername("a")) == Some(SUCCESSOR)
  {
    FirstIs(TWO_USERS, ById(1), RENAMED);
    FirstIs(TWO_USERS, ByUsername("a"), SUCCESSOR);
  }

  lemma ShieldedEntries()
    ensures var (name, id, store) := (Key(ByUsername("a")), Key(ById(1)), SHIELDED.cache.store);
      name in store && store[name] == id && id in store && store[id] == Codec.Encode(RENAMED)
    ensures IndexEntries(SHIELDED.cache.store)
  {
    KeyOnly(ByUsername("a"));
    KeyOnly(ById(1));
  }

  /** The first user before the renaming. */
  const ORIGINAL := User(1, "a", "b@", NO_PROFILE, 0, false)

  const START := System(map[1 := ORIGINAL], State(map[], NO_COUNTS))

  /** A write that goes through while the breaker rejects its deletion. */
  function Undeleted(w: Writes.Write): Op {
    Modify(w, true, Rejected, Done)
  }

  /** How it gets there: the name is looked up, two deletions are rejected, and an entry expires and is read again. */
  const PATH := [Look(ByUsername("a")), Undeleted(Writes.Update(RENAMED)), Evict([Key(ById(1))]), Look(ById(1)), Undeleted(Writes.Create(SUCCESSOR, 0))]

  lemma NameLookedUp(s: System)
    requires s.rows == map[1 := ORIGINAL] && s.cache.store == map[]
    ensures var next := Step(s, Look(ByUsername("a"))).0;
      next.rows == s.rows &&
      next.cache.store == map[Key(ByUsername("a")) := Key(ById(1)), Key(ById(1)) := Codec.Encode(ORIGINAL)]
  {
    FirstIs(s.rows, ByUsername("a"), ORIGINAL);
    LookMissesIndex(s, ByUsername("a"), ORIGINAL);
  }

  lemma RenamedUndeleted(s: System)
    requires s.rows == map[1 := ORIGINAL]
    ensures var next := Step(s, Undeleted(Writes.Update(RENAMED))).0; next.rows == map[1 := RENAMED] && next.cache.store == s.cache.store
  {
    OnlyRow(ORIGINAL, RENAMED);
    Writes.UpdateExactly(s.rows, RENAMED);
  }

  lemma EntryExpires(s: System, row: string)
    requires s.cache.store == map[Key(ByUsername("a")) := Key(ById(1)), Key(ById(1)) := row]
    ensures var next := Step(s, Evict([Key(ById(1))])).0;
      next.rows == s.rows && next.cache.store == map[Key(ByUsername("a")) := Key(ById(1))]
  {
    KeyOnly(ById(1));
  }

  lemma ReadAgain(s: System)
    requires s.rows == map[1 := RENAMED] && s.cache.store == map[Key(ByUsername("a")) := Key(ById(1))]
    ensures var next := Step(s, Look(ById(1))).0; next.rows == s.rows && next.cache.store == SHIELDED.cache.store
  {
    FirstIs(s.rows, ById(1), RENAMED);
    KeyOnly(ById(1));
  }

  lemma SuccessorStored(t: Table)
    requires t == map[1 := RENAMED]
    ensures Writes.Apply(t, Writes.Create(SUCCESSOR, 0)) == Writes.Committed(TWO_USERS, 2, UniqueKeys(SUCCESSOR), [Key(ById(2))])
  {
    assert !Taken(t, 2, "a", "a@");
  }

  lemma UndeletedStep(s: System, w: Writes.Write, rows: Table, id: int, keys: seq<string>, idKeys: seq<string>)
    requires Writes.Apply(s.rows, w) == Writes.Committed(rows, id, keys, idKeys)
    ensures var next := Step(s, Undeleted(w)).0;
      next.rows == rows && next.cache.store == if idKeys == [] then s.cache.store else Without(s.cache.store, idKeys)
  {
  }

  lemma WithoutAbsent(store: Store, key: string)
    requires key !in store
    ensures Without(store, [key]) == store
  {
  }

  lemma SuccessorUndeleted(s: System)
    requires s.rows == map[1 := RENAMED] && s.cache.store == SHIELDED.cache.store
    ensures var next := Step(s, Undeleted(Writes.Create(SUCCESSOR, 0))).0;
      next.rows == SHIELDED.rows && next.cache.store == SHIELDED.cache.store
  {
    SuccessorStored(s.rows);
    UndeletedStep(s, Writes.Create(SUCCESSOR, 0), TWO_USERS, 2, UniqueKeys(SUCCESSOR), [Key(ById(2))]);
    KeyOnly(ById(2));
    WithoutAbsent(s.cache.store, Key(ById(2)));
  }

  lemma AfterFive(s: System, a: Op, b: Op, c: Op, d: Op, e: Op)
    ensures After(s, [a, b, c, d, e]) == After(Step(Step(Step(s, a).0, b).0, c).0, [d, e])
    ensures After(s, [d, e]) == Step(Step(s, d).0, e).0
  {
    assert [a, b, c, d, e][1..] == [b, c, d, e] && [b, c, d, e][1..] == [c, d, e] && [c, d, e][1..] == [d, e];
    var s1 := Step(s, a).0;
    assert After(s, [a, b, c, d, e]) == After(s1, [b, c, d, e]);
    assert After(s1, [b, c, d, e]) == After(Step(s1, b).0, [c, d, e]);
    assert [d, e][1..] == [e] && After(Step(s, d).0, [e]) == Step(Step(s, d).0, e).0;
  }

  lemma StartHealthy()
    ensures Healthy(START) && forall op | op in PATH :: Careful(op)
  {
    assert TableOk(START.rows);
  }

  /** The state is reachable: careful operations lead there from one user and an empty cache. */
  lemma ShieldedReachable()
    ensures Healthy(START) && forall op | op in PATH :: Careful(op)
    ensures After(START, PATH).rows == SHIELDED.rows && After(START, PATH).cache.store == SHIELDED.cache.store
  {
    StartHealthy();
    AfterFive(START, PATH[0], PATH[1], PATH[2], PATH[3], PATH[4]);
    NameLookedUp(START);
    var s1 := Step(START, PATH[0]).0;
    RenamedUndeleted(s1);
    var s2 := Step(s1, PATH[1]).0;
    EntryExpires(s2, Codec.Encode(ORIGINAL));
    var s3 := Step(s2, PATH[2]).0;
    AfterFive(s3, PATH[0], PATH[1], PATH[2], PATH[3], PATH[4]);
    ReadAgain(s3);
    SuccessorUndeleted(Step(s3, PATH[3]).0);
  }

  /** A late deletion that hurts: it removes the first user's entry, and a lookup of the name then stores the second user there. */
  lemma LateDeletionCanHurt()
    ensures var keys := [Key(ById(1))];
      var (direct, late) := (Step(SHIELDED, Look(ByUsername("a"))).0, Step(Step(SHIELDED, Evict(keys)).0, Look(ByUsername("a"))).0);
      Stale(late.rows, late.cache.store, ById(1)) && !Stale(direct.rows, direct.cache.store, ById(1))
  {
    ShieldedAnswers();
    ShieldedEntries();
    KeyOnly(ById(1));
    KindsOfEntry(ById(1), RENAMED);
    LateDeletionHurtsExactly(SHIELDED, [Key(ById(1))], ByUsername("a"), 1);
  }
}
