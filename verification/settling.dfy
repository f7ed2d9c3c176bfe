/** Which committed writes settle the cache entry of their row, exactly. */
module Settling {
  import opened Wrappers
  import opened Users
  import opened Interleaving
  import opened Freshness
  import Unused
  import Writes

  /** The client has committed the row of `id` and not yet deleted its id key. */
  predicate Pending(p: Client, id: int) {
    (p.Dirty? || p.Born?) && p.id == id
  }

  predicate Deletes(p: Client, id: int) {
    p.Dirty? && p.id == id
  }

  /** The k-th call of the run is the writer's deletion of the id key. */
  predicate DeletesAt(s: World, acts: seq<Act>, k: nat, c: nat, id: int) {
    k < |acts| && acts[k] == Purge(c) && Deletes(At(Run(s, acts[..k]), c), id)
  }

  /** From the writer's deletion on, and until the row is committed again, its entry is absent or current. */
  ghost predicate StaysFresh(s: World, c: nat, id: int) {
    forall acts, k: nat | DeletesAt(s, acts, k, c, id) && Undisturbed(s, acts, id) :: Current(Run(s, acts), id)
  }

  lemma PurgeStep(s: World, c: nat, id: int)
    requires Deletes(At(s, c), id)
    ensures var next := Step(s, Purge(c));
      next.rows == s.rows && next.cache == s.cache - PurgedIds(id) && next.clients == s.clients[c := Idle]
  {
  }

  /** Right after the deletion the entry is absent or current, and everything is clean. */
  lemma CleanPurged(s: World, c: nat, id: int, before: seq<Act>)
    requires Inv(s) && id in s.rows && Clean(s, id) && (id > 0 || Current(s, id))
    requires Deletes(At(Run(s, before), c), id) && Undisturbed(s, before + [Purge(c)], id)
    ensures var next := Run(s, before + [Purge(c)]); Inv(next) && id in next.rows && Clean(next, id) && Current(next, id)
  {
    UndisturbedParts(s, before, [Purge(c)], id);
    RunFresh(s, before, id);
    RunFresh(s, before + [Purge(c)], id);
    RunLast(s, before, Purge(c));
    PurgeStep(Run(s, before), c, id);
  }

  lemma CleanJoined(s: World, c: nat, id: int, before: seq<Act>, after: seq<Act>)
    requires Inv(s) && id in s.rows && Clean(s, id) && (id > 0 || Current(s, id))
    requires Deletes(At(Run(s, before), c), id) && Undisturbed(s, (before + [Purge(c)]) + after, id)
    ensures Current(Run(s, (before + [Purge(c)]) + after), id)
  {
    UndisturbedParts(s, before + [Purge(c)], after, id);
    CleanPurged(s, c, id, before);
    RunFresh(Run(s, before + [Purge(c)]), after, id);
    RunAppend(s, before + [Purge(c)], after);
  }

  lemma SplitAt(acts: seq<Act>, k: nat, a: Act)
    requires k < |acts| && acts[k] == a
    ensures acts == (acts[..k] + [a]) + acts[k + 1..]
  {
  }

  lemma CleanStaysFresh(s: World, c: nat, id: int, acts: seq<Act>, k: nat)
    requires Inv(s) && id in s.rows && Clean(s, id) && (id > 0 || Current(s, id))
    requires DeletesAt(s, acts, k, c, id) && Undisturbed(s, acts, id)
    ensures Current(Run(s, acts), id)
  {
    SplitAt(acts, k, Purge(c));
    CleanJoined(s, c, id, acts[..k], acts[k + 1..]);
  }

  // -------- every other state can go wrong

  lemma RunCons(s: World, a: Act, rest: seq<Act>)
    ensures Run(s, [a] + rest) == Run(Step(s, a), rest)
  {
    RunOne(s, a);
    RunAppend(s, [a], rest);
  }

  lemma UndisturbedCons(s: World, a: Act, rest: seq<Act>, id: int)
    requires !Touches(s, a, id) && Undisturbed(Step(s, a), rest, id)
    ensures Undisturbed(s, [a] + rest, id)
  {
    RunOne(s, a);
    assert [a][..0] == [];
    UndisturbedParts(s, [a], rest, id);
  }

  lemma DeletesLater(s: World, a: Act, acts: seq<Act>, k: nat, c: nat, id: int)
    requires DeletesAt(Step(s, a), acts, k, c, id)
    ensures DeletesAt(s, [a] + acts, k + 1, c, id)
  {
    assert ([a] + acts)[..k + 1] == [a] + acts[..k];
    RunCons(s, a, acts[..k]);
  }

  /** If the entry can go wrong after an undisturbed step it can go wrong before it. */
  lemma StepSpoils(s: World, a: Act, c: nat, id: int)
    requires !Touches(s, a, id) && !StaysFresh(Step(s, a), c, id)
    ensures !StaysFresh(s, c, id)
  {
    var next := Step(s, a);
    var acts, k :| DeletesAt(next, acts, k, c, id) && Undisturbed(next, acts, id) && !Current(Run(next, acts), id);
    DeletesLater(s, a, acts, k, c, id);
    UndisturbedCons(s, a, acts, id);
    RunCons(s, a, acts);
  }

  lemma LateStore(s: World, c: nat, id: int, reader: nat)
    requires Deletes(At(s, c), id) && At(s, reader).Holding? && At(s, reader).id == id
    ensures var end := Step(Step(Step(s, Purge(c)), Evict(id)), CacheSet(reader, true));
      end.rows == s.rows && id in end.cache && end.cache[id] == At(s, reader).got
  {
    PurgeStep(s, c, id);
    OthersStay(s, Purge(c), reader);
    OthersStay(Step(s, Purge(c)), Evict(id), reader);
  }

  lemma RunThree(s: World, a: Act, b: Act, c: Act)
    ensures Run(s, [a, b, c]) == Step(Step(Step(s, a), b), c)
  {
    assert [a, b, c][..2] == [a, b] && [a, b][..1] == [a];
    RunOne(s, a);
  }

  lemma NothingTouched(s: World, acts: seq<Act>, id: int)
    requires forall a | a in acts :: !a.Commit? && !a.Create?
    ensures Undisturbed(s, acts, id)
  {
    forall n | 0 <= n < |acts| ensures !Touches(Run(s, acts[..n]), acts[n], id) {
      assert acts[n] in acts;
    }
  }

  /** A reader that holds anything else stores it after the deletion. */
  lemma HolderSpoils(s: World, c: nat, id: int, reader: nat)
    requires Pending(At(s, c), id)
    requires At(s, reader).Holding? && At(s, reader).id == id && At(s, reader).got != Live(s.rows, id)
    ensures !StaysFresh(s, c, id)
    decreases At(s, c).Born?
  {
    if At(s, c).Born? {
      OthersStay(s, PurgeColumns(c), reader);
      HolderSpoils(Step(s, PurgeColumns(c)), c, id, reader);
      StepSpoils(s, PurgeColumns(c), c, id);
    } else {
      var acts := [Purge(c), Evict(id), CacheSet(reader, true)];
      assert acts[..0] == [];
      NothingTouched(s, acts, id);
      RunThree(s, Purge(c), Evict(id), CacheSet(reader, true));
      LateStore(s, c, id, reader);
      assert DeletesAt(s, acts, 0, c, id);
    }
  }

  /** So does one that has found an answer for `id` by a column and is about to store pointer and row. */
  lemma FoundSpoils(s: World, c: nat, id: int, reader: nat)
    requires Pending(At(s, c), id)
    requires At(s, reader).Found? && At(s, reader).got.Some? && At(s, reader).got.value.id == id
    requires At(s, reader).got != Live(s.rows, id)
    ensures !StaysFresh(s, c, id)
  {
    var a := IndexSet(reader, true);
    OthersStay(s, a, c);
    HolderSpoils(Step(s, a), c, id, reader);
    StepSpoils(s, a, c, id);
  }

  /** So does one whose pending query answers something else. */
  lemma QuerySpoils(s: World, c: nat, id: int, reader: nat)
    requires Pending(At(s, c), id)
    requires At(s, reader).Missed? && At(s, reader).id == id && AnswerTo(s.rows, At(s, reader).q) != Live(s.rows, id)
    ensures !StaysFresh(s, c, id)
  {
    var a := Query(reader, true);
    OthersStay(s, a, c);
    HolderSpoils(Step(s, a), c, id, reader);
    StepSpoils(s, a, c, id);
  }

  /** A pending query that misnames a row but answers the same finds the row deleted and its column value free. */
  lemma NobodyHas(s: World, id: int, q: Query)
    requires Inv(s) && id in s.rows && (q.ById? ==> q.id == id) && !Names(s.rows, id, q) && AnswerTo(s.rows, q) == Live(s.rows, id)
    ensures !q.ById? && s.rows[id].deleted && forall k | k in s.rows :: !Matches(s.rows[k], q)
  {
    if q.ById? {
      assert Matches(s.rows[id], q);
    } else if !s.rows[id].deleted {
      FirstSome(s.rows, q);
    } else {
      forall k | k in s.rows ensures !Matches(s.rows[k], q) {
        if Matches(s.rows[k], q) && !s.rows[k].deleted {
          FirstIs(s.rows, q, s.rows[k]);
        }
      }
    }
  }

  lemma AddedAnswers(t: Table, u: User, id: int, q: Query)
    requires TableOk(t) && id in t && t[id].deleted && !q.ById? && Matches(u, q)
    requires u.id > 0 && u.id !in t && !u.deleted && !Taken(t, u.id, u.username, u.email)
    ensures var rows := t[u.id := u]; AnswerTo(rows, q) == Some(u) && Live(rows, id) == None
  {
    Writes.TakenOnly(t, u.id, u);
    FirstIs(t[u.id := u], q, u);
  }

  lemma CreateStep(s: World, c: nat, u: User)
    requires c < |s.clients| && At(s, c).Idle?
    requires u.id > 0 && u.id !in s.rows && !u.deleted && !Taken(s.rows, u.id, u.username, u.email)
    ensures Step(s, Create(c, u, u.id)).rows == s.rows[u.id := u]
  {
    assert u.(id := u.id, deleted := false) == u;
  }

  /** A user created with the column value changes the answer. */
  lemma CreatedAnswers(s: World, c: nat, u: User, id: int, q: Query)
    requires Inv(s) && At(s, c).Idle? && c < |s.clients| && id in s.rows && s.rows[id].deleted && !q.ById?
    requires Matches(u, q) && u.id > 0 && u.id !in s.rows && !u.deleted && !Taken(s.rows, u.id, u.username, u.email)
    ensures var a := Create(c, u, u.id);
      !Touches(s, a, id) && AnswerTo(Step(s, a).rows, q) == Some(u) && Live(Step(s, a).rows, id) == None
  {
    CreateStep(s, c, u);
    AddedAnswers(s.rows, u, id, q);
  }

  /** A pending query by a value that nobody has spoils the entry once an idle client has created a user with it. */
  lemma CreationSpoils(s: World, c: nat, id: int, reader: nat, n: nat, u: User)
    requires Inv(s) && Pending(At(s, c), id) && id in s.rows && s.rows[id].deleted
    requires At(s, reader).Missed? && At(s, reader).id == id && !At(s, reader).q.ById? && Matches(u, At(s, reader).q)
    requires n < |s.clients| && At(s, n).Idle?
    requires u.id > 0 && u.id !in s.rows && !u.deleted && !Taken(s.rows, u.id, u.username, u.email)
    ensures !StaysFresh(s, c, id)
  {
    var a := Create(n, u, u.id);
    CreatedAnswers(s, n, u, id, At(s, reader).q);
    OthersStay(s, a, c);
    OthersStay(s, a, reader);
    QuerySpoils(Step(s, a), c, id, reader);
    StepSpoils(s, a, c, id);
  }

  /** A new request changes nothing but the number of clients. */
  lemma Arrives(s: World)
    requires Inv(s)
    ensures var next, n := Step(s, Arrive), |s.clients|;
      Inv(next) && next == s.(clients := next.clients) && n < |next.clients| && At(next, n).Idle? && forall d: nat | d < n :: At(next, d) == At(s, d)
  {
    StepInv(s, Arrive);
  }

  /** So does one that is about to query by a column which the row does not have: if need be, another user takes that value first. */
  lemma MissedSpoils(s: World, c: nat, id: int, reader: nat)
    requires Inv(s) && Pending(At(s, c), id)
    requires At(s, reader).Missed? && At(s, reader).id == id && !Names(s.rows, id, At(s, reader).q)
    ensures !StaysFresh(s, c, id)
  {
    assert ClientOk(s, s.clients[c]) && ClientOk(s, s.clients[reader]);
    var q := At(s, reader).q;
    if AnswerTo(s.rows, q) != Live(s.rows, id) {
      QuerySpoils(s, c, id, reader);
    } else {
      NobodyHas(s, id, q);
      var u := Unused.UserFor(s.rows, q);
      Arrives(s);
      CreationSpoils(Step(s, Arrive), c, id, reader, |s.clients|, u);
      StepSpoils(s, Arrive, c, id);
    }
  }

  lemma RowGetStep(s: World, reader: nat)
    requires At(s, reader).Following?
    ensures Step(s, RowGet(reader, false)) == Move(s, reader, Missed(At(s, reader).id, At(s, reader).q))
  {
  }

  /** So does one that is following such a pointer. */
  lemma FollowingSpoils(s: World, c: nat, id: int, reader: nat)
    requires Inv(s) && Pending(At(s, c), id)
    requires At(s, reader).Following? && At(s, reader).id == id && !Names(s.rows, id, At(s, reader).q)
    ensures !StaysFresh(s, c, id)
  {
    var a := RowGet(reader, false);
    StepInv(s, a);
    RowGetStep(s, reader);
    MissedSpoils(Step(s, a), c, id, reader);
    StepSpoils(s, a, c, id);
  }

  lemma IndexGetStep(s: World, n: nat, id: int, q: Query)
    requires n < |s.clients| && At(s, n).Idle? && !q.ById? && q in s.index && s.index[q] == Some(id)
    ensures Step(s, IndexGet(n, q, true)) == Move(s, n, Following(id, q))
  {
  }

  /** And a cached one, which an idle client follows, */
  lemma IdleFollows(s: World, c: nat, id: int, q: Query, n: nat)
    requires Inv(s) && Pending(At(s, c), id) && q in s.index && s.index[q] == Some(id) && !Names(s.rows, id, q)
    requires n < |s.clients| && At(s, n).Idle?
    ensures !StaysFresh(s, c, id)
  {
    var a := IndexGet(n, q, true);
    StepInv(s, a);
    IndexGetStep(s, n, id, q);
    FollowingSpoils(Step(s, a), c, id, n);
    StepSpoils(s, a, c, id);
  }

  /** since there may always be one. */
  lemma PointerSpoils(s: World, c: nat, id: int, q: Query)
    requires Inv(s) && Pending(At(s, c), id) && q in s.index && s.index[q] == Some(id) && !Names(s.rows, id, q)
    ensures !StaysFresh(s, c, id)
  {
    Arrives(s);
    IdleFollows(Step(s, Arrive), c, id, q, |s.clients|);
    StepSpoils(s, Arrive, c, id);
  }

  /** For an id whose key no write deletes, an entry that is wrong already stays. */
  lemma NoKeyStaysWrong(s: World, c: nat, id: int)
    requires Pending(At(s, c), id) && id <= 0 && !Current(s, id)
    ensures !StaysFresh(s, c, id)
    decreases At(s, c).Born?
  {
    if At(s, c).Born? {
      NoKeyStaysWrong(Step(s, PurgeColumns(c)), c, id);
      StepSpoils(s, PurgeColumns(c), c, id);
    } else {
      var acts := [Purge(c)];
      assert acts[..0] == [];
      PurgeStep(s, c, id);
      RunOne(s, Purge(c));
      NothingTouched(s, acts, id);
      assert DeletesAt(s, acts, 0, c, id);
    }
  }

  lemma UncleanSpoils(s: World, c: nat, id: int)
    requires Inv(s) && Pending(At(s, c), id) && !Clean(s, id)
    ensures !StaysFresh(s, c, id)
  {
    if d :| 0 <= d < |s.clients| && !CleanClient(s.rows, s.clients[d], id) {
      match s.clients[d]
      case Holding(_, _) => HolderSpoils(s, c, id, d);
      case Found(_, _) => FoundSpoils(s, c, id, d);
      case Following(_, _) => FollowingSpoils(s, c, id, d);
      case Missed(_, _) => MissedSpoils(s, c, id, d);
      case _ => assert false;
    } else {
      var q :| q in s.index && s.index[q] == Some(id) && !Names(s.rows, id, q);
      PointerSpoils(s, c, id, q);
    }
  }

  /**
   Race-free freshness, exactly: after a write to a row has committed, its deletion settles the
   entry for good if and only if no reader holds an unstored answer other than the present one,
   and no pointer to the row, cached, in hand or being followed, has a column query that the row
   does not answer for good (and, for an id below 1, the entry was not wrong already).
   */
  lemma FreshExactly(s: World, c: nat, id: int)
    requires Inv(s) && Pending(At(s, c), id)
    ensures StaysFresh(s, c, id) <==> Clean(s, id) && (id > 0 || Current(s, id))
  {
    assert ClientOk(s, s.clients[c]);
    if !Clean(s, id) {
      UncleanSpoils(s, c, id);
    } else if id <= 0 && !Current(s, id) {
      NoKeyStaysWrong(s, c, id);
    } else {
      forall acts, k: nat | DeletesAt(s, acts, k, c, id) && Undisturbed(s, acts, id) ensures Current(Run(s, acts), id) {
        CleanStaysFresh(s, c, id, acts, k);
      }
    }
  }

  /** The client has something to store for `id`, or is on the way to its row. */
  predicate LooksUp(p: Client, id: int) {
    match p
    case Holding(j, _) => j == id
    case Found(_, got) => got.Some? && got.value.id == id
    case Following(j, _) => j == id
    case Missed(j, _) => j == id
    case _ => false
  }

  lemma TouchMoves(s: World, a: Act, id: int)
    requires Touches(s, a, id)
    ensures var next := Step(s, a);
      a.c < |s.clients| && |next.clients| == |s.clients| && next.index == s.index && Pending(At(next, a.c), id) &&
      forall d | 0 <= d < |s.clients| && d != a.c :: next.clients[d] == s.clients[d]
  {
  }

  /** The same of the moment of the write, be it an update, a deletion or a creation. */
  lemma WriteSettlesExactly(s: World, a: Act, id: int)
    requires Inv(s) && Touches(s, a, id)
    ensures var next := Step(s, a);
      StaysFresh(next, a.c, id) <==> Clean(next, id) && (id > 0 || Current(next, id))
  {
    StepInv(s, a);
    TouchMoves(s, a, id);
    FreshExactly(Step(s, a), a.c, id);
  }

  lemma NobodyLooksClean(s: World, c: nat, id: int)
    requires Pending(At(s, c), id) && forall q | q in s.index :: s.index[q] != Some(id)
    requires forall d | 0 <= d < |s.clients| && d != c :: !LooksUp(s.clients[d], id)
    ensures Clean(s, id)
  {
    forall d | 0 <= d < |s.clients| ensures CleanClient(s.rows, s.clients[d], id) {
      assert d != c ==> !LooksUp(s.clients[d], id);
    }
  }

  /** In particular a write that commits while nobody is looking its row up and no pointer to it is cached settles the entry. */
  lemma NobodyLookingIsEnough(s: World, a: Act, id: int)
    requires Inv(s) && Touches(s, a, id) && id > 0
    requires forall q | q in s.index :: s.index[q] != Some(id)
    requires forall d | 0 <= d < |s.clients| :: !LooksUp(s.clients[d], id)
    ensures StaysFresh(Step(s, a), a.c, id)
  {
    TouchMoves(s, a, id);
    NobodyLooksClean(Step(s, a), a.c, id);
    WriteSettlesExactly(s, a, id);
  }
}
