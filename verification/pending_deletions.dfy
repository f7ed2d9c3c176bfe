/** The background deletions that writes start when Redis fails: what they still owe, and what performing them mends. */
module PendingDeletions {
  import opened Wrappers
  import opened Users
  import opened Keys
  import opened Cache
  import opened CachedDatabase
  import opened Writes
  import opened UserRepository
  import opened Refinement
  import opened Staleness

  /**
   `failed` are the entries whose deletion with a write ended in a Redis error and that have not
   been deleted since; `pending` are the key lists of the background deletions under way, and
   `dropped` the keys of those that were given up.
   */
  datatype World = World(s: System, a: Audit, failed: set<string>, pending: seq<seq<string>>, dropped: set<string>)

  /** An operation; a background deletion that succeeds; one that runs out of attempts or is rejected. */
  datatype Event = Do(op: Op) | Perform(i: nat) | GiveUp(i: nat)

  function Begin(s: System): World {
    World(s, CLEAN, {}, [], {})
  }

  function Dropped<T>(lists: seq<T>, i: nat): seq<T>
    requires i < |lists|
  {
    lists[..i] + lists[i + 1..]
  }

  function FailedBy(s: System, op: Op): set<string> {
    if op.Modify? && Attempt(s.rows, op.w, op.up).Committed? && op.del == Errored
    then s.cache.store.Keys * Elems(Attempt(s.rows, op.w, op.up).keys)
    else {}
  }

  function StartedBy(s: System, op: Op): seq<seq<string>> {
    if op.Modify? then Started(s.rows, op.w, op.up, op.del) else []
  }

  function Next(w: World, e: Event): World {
    match e
    case Do(op) =>
      World(Step(w.s, op).0, Track(w.a, w.s, op), w.failed - RemovedBy(w.s, op) + FailedBy(w.s, op), w.pending + StartedBy(w.s, op), w.dropped)
    case Perform(i) =>
      if i >= |w.pending| then w
      else
        var op := Evict(w.pending[i]);
        World(Step(w.s, op).0, Track(w.a, w.s, op), w.failed - Elems(w.pending[i]), Dropped(w.pending, i), w.dropped)
    case GiveUp(i) =>
      if i >= |w.pending| then w else w.(pending := Dropped(w.pending, i), dropped := w.dropped + Elems(w.pending[i]))
  }

  function RunAll(w: World, events: seq<Event>): World
    decreases |events|
  {
    if events == [] then w else RunAll(Next(w, events[0]), events[1..])
  }

  ghost predicate Pending(lists: seq<seq<string>>, k: string) {
    exists i :: 0 <= i < |lists| && k in lists[i]
  }

  ghost predicate Owed(w: World, k: string) {
    Pending(w.pending, k) || k in w.dropped
  }

  ghost predicate Inv(w: World) {
    forall k | k in w.failed :: k in w.a.lost && Owed(w, k)
  }

  lemma DroppedKeeps(w: World, i: nat, k: string, j: nat)
    requires i < |w.pending| && j < |w.pending| && j != i && k in w.pending[j]
    ensures exists n :: 0 <= n < |Dropped(w.pending, i)| && k in Dropped(w.pending, i)[n]
  {
    var n := if j < i then j else j - 1;
    assert Dropped(w.pending, i)[n] == w.pending[j];
  }

  lemma DoInv(w: World, op: Op)
    requires Inv(w)
    ensures Inv(Next(w, Do(op)))
  {
    var next := Next(w, Do(op));
    forall k | k in next.failed ensures k in next.a.lost && Owed(next, k) {
      if k in FailedBy(w.s, op) {
        var keys := Attempt(w.s.rows, op.w, op.up).keys;
        assert next.pending[|w.pending|] == keys && k in keys;
      } else {
        if i :| 0 <= i < |w.pending| && k in w.pending[i] {
          assert next.pending[i] == w.pending[i];
        }
      }
    }
  }

  lemma EndInv(w: World, i: nat, done: bool)
    requires Inv(w) && i < |w.pending|
    ensures Inv(Next(w, if done then Perform(i) else GiveUp(i)))
  {
    var next := Next(w, if done then Perform(i) else GiveUp(i));
    forall k | k in next.failed ensures k in next.a.lost && Owed(next, k) {
      if j :| 0 <= j < |w.pending| && k in w.pending[j] {
        if j != i {
          DroppedKeeps(w, i, k, j);
        }
      }
    }
  }

  lemma NextInv(w: World, e: Event)
    requires Inv(w)
    ensures Inv(Next(w, e))
  {
    match e
    case Do(op) => DoInv(w, op);
    case Perform(i) => if i < |w.pending| { EndInv(w, i, true); }
    case GiveUp(i) => if i < |w.pending| { EndInv(w, i, false); }
  }

  lemma {:induction false} RunInv(w: World, events: seq<Event>)
    requires Inv(w)
    ensures Inv(RunAll(w, events))
    decreases |events|
  {
    if events != [] {
      NextInv(w, events[0]);
      RunInv(Next(w, events[0]), events[1..]);
    }
  }

  /**
   Over every run, a suspect whose deletion with its write ended in a Redis error is in the key
   list of a background deletion under way, or of one that was given up.
   */
  lemma FailuresArePending(s: System, events: seq<Event>, k: string)
    requires k in RunAll(Begin(s), events).failed
    ensures var end := RunAll(Begin(s), events);
      k in end.a.lost && (Pending(end.pending, k) || k in end.dropped)
  {
    RunInv(Begin(s), events);
  }

  // -------- performing what is pending

  /** Performs the background deletions under way, oldest first. */
  function PerformAll(w: World): World
    decreases |w.pending|
  {
    if w.pending == [] then w else PerformAll(Next(w, Perform(0)))
  }

  function Flat(lists: seq<seq<string>>): seq<string> {
    if lists == [] then [] else lists[0] + Flat(lists[1..])
  }

  lemma {:induction false} InFlat(lists: seq<seq<string>>, k: string)
    ensures k in Flat(lists) <==> Pending(lists, k)
  {
    if lists != [] {
      InFlat(lists[1..], k);
      if i :| 0 <= i < |lists[1..]| && k in lists[1..][i] {
        assert k in lists[i + 1];
      }
      if i :| 0 <= i < |lists| && k in lists[i] {
        assert i > 0 ==> lists[1..][i - 1] == lists[i];
      }
    }
  }

  lemma WithoutTwice(store: Store, a: seq<string>, b: seq<string>)
    ensures Without(Without(store, a), b) == Without(store, a + b)
  {
  }

  /** Performing them all deletes the keys of all of them. */
  lemma {:induction false} PerformedAll(w: World)
    ensures var end := PerformAll(w);
      && end.s.rows == w.s.rows && end.s.cache.store == Without(w.s.cache.store, Flat(w.pending))
      && end.pending == [] && end.dropped == w.dropped
      && end.failed == w.failed - Elems(Flat(w.pending)) && end.a.lost == w.a.lost - Elems(Flat(w.pending))
    decreases |w.pending|
  {
    if w.pending == [] {
      assert Without(w.s.cache.store, []) == w.s.cache.store;
    } else {
      assert Dropped(w.pending, 0) == w.pending[1..];
      PerformedAll(Next(w, Perform(0)));
      WithoutTwice(w.s.cache.store, w.pending[0], Flat(w.pending[1..]));
    }
  }

  /**
   Performing the pending deletions, whenever that happens, removes every such suspect whose
   background deletion was not given up: its entry is gone and it is suspect no more.
   */
  lemma PerformingMends(s: System, events: seq<Event>, k: string)
    requires var w := RunAll(Begin(s), events); k in w.failed && k !in w.dropped
    ensures var end := PerformAll(RunAll(Begin(s), events));
      k !in end.s.cache.store && k !in end.failed && k !in end.a.lost
  {
    var w := RunAll(Begin(s), events);
    FailuresArePending(s, events, k);
    PerformedAll(w);
    InFlat(w.pending, k);
  }

  ghost predicate CarefulEvents(events: seq<Event>) {
    forall e | e in events :: e.Do? ==> Careful(e.op)
  }

  lemma NextConfined(w: World, e: Event)
    requires Confined(w.s, w.a) && (e.Do? ==> Careful(e.op))
    ensures Confined(Next(w, e).s, Next(w, e).a)
  {
    match e
    case Do(op) => StepConfined(w.s, w.a, op);
    case Perform(i) => if i < |w.pending| { StepConfined(w.s, w.a, Evict(w.pending[i])); }
    case GiveUp(_) =>
  }

  lemma {:induction false} RunConfinedToo(w: World, events: seq<Event>)
    requires Confined(w.s, w.a) && CarefulEvents(events)
    ensures Confined(RunAll(w, events).s, RunAll(w, events).a)
    decreases |events|
  {
    if events != [] {
      NextConfined(w, events[0]);
      RunConfinedToo(Next(w, events[0]), events[1..]);
    }
  }

  ghost predicate AllPending(w: World) {
    forall k | k in w.s.cache.store && (k in w.a.lost || k in w.a.tainted) :: Pending(w.pending, k)
  }

  /** If the pending deletions name all suspects that have an entry, performing them makes the cache right again. */
  lemma PerformingRecovers(s: System, events: seq<Event>)
    requires Healthy(s) && CarefulEvents(events)
    requires AllPending(RunAll(Begin(s), events))
    ensures Healthy(PerformAll(RunAll(Begin(s), events)).s)
  {
    var w := RunAll(Begin(s), events);
    HealthyIsConfined(s);
    RunConfinedToo(Begin(s), events);
    PerformedAll(w);
    forall k | k in w.s.cache.store && (k in w.a.lost || k in w.a.tainted) ensures k in Flat(w.pending) {
      InFlat(w.pending, k);
    }
    Recovery(w.s, w.a, Flat(w.pending));
  }
}
