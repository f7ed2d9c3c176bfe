/** How long a registered username stays taken, whatever happens in between and whatever the registration reported. */
module TakenNames {
  import opened Wrappers
  import opened Users
  import opened Cache
  import opened CachedDatabase
  import opened Writes
  import opened UserRepository
  import opened Refinement
  import opened UserUsecases
  import Metrics
  import Unused

  /** A lookup, a write or an expiry, or a whole registration; all with any failures. */
  datatype Event = Plain(op: Op) | Registration(u: User, autoId: int, k: RegisterLinks)

  function Next(s: System, e: Event): System {
    match e
    case Plain(op) => Step(s, op).0
    case Registration(u, autoId, k) => RegisterLocked(s, u, autoId, k).0
  }

  function RunAll(s: System, events: seq<Event>): System
    decreases |events|
  {
    if events == [] then s else RunAll(Next(s, events[0]), events[1..])
  }

  /** The event is an update that commits and gives the row another username. */
  predicate Renames(s: System, e: Event, id: int, username: string) {
    && e.Plain? && e.op.Modify? && e.op.w.Update?
    && e.op.w.user.id == id && e.op.w.user.username != username
    && Attempt(s.rows, e.op.w, e.op.up).Committed?
  }

  /** Some event of the run renames the row. */
  ghost predicate RenamedIn(s: System, events: seq<Event>, id: int, username: string)
    decreases |events|
  {
    events != [] && (Renames(s, events[0], id, username) || RenamedIn(Next(s, events[0]), events[1..], id, username))
  }

  predicate Has(t: Table, id: int, username: string) {
    id in t && t[id].username == username
  }

  lemma NextKeepsName(s: System, e: Event, id: int, username: string)
    requires Has(s.rows, id, username) && !Renames(s, e, id, username)
    ensures Has(Next(s, e).rows, id, username)
  {
    match e
    case Registration(u, autoId, k) => RegisterOutcome(s, u, autoId, k);
    case Plain(op) =>
  }

  lemma {:induction false} RunKeepsName(s: System, events: seq<Event>, id: int, username: string)
    requires Has(s.rows, id, username) && !RenamedIn(s, events, id, username)
    ensures Has(RunAll(s, events).rows, id, username)
    decreases |events|
  {
    if events != [] {
      NextKeepsName(s, events[0], id, username);
      RunKeepsName(Next(s, events[0]), events[1..], id, username);
    }
  }

  /** Some registration of the username, with some fate of its calls, stores a row. */
  ghost predicate Registrable(s: System, username: string) {
    exists u: User, autoId, k :: u.username == username && RegisterLocked(s, u, autoId, k).0.rows != s.rows
  }

  /** A registration whose lookup finds the database down goes on as if the username were free. */
  const BLIND := RegisterLinks(true, Some("down"), IndexLinks(NoClient, Done, Done), TakeLinks(Done, Done, Done), true, Done, Done)

  /** With such calls, a user with a new id, username and email is stored. */
  lemma BlindStores(s: System, u: User)
    requires u.id > 0 && u.id !in s.rows && !Taken(s.rows, u.id, u.username, u.email)
    ensures RegisterLocked(s, u, u.id, BLIND).0.rows != s.rows
  {
    RegisterOutcome(s, u, u.id, BLIND);
  }

  lemma TakenIsRefused(s: System, id: int, u: User, autoId: int, k: RegisterLinks)
    requires Has(s.rows, id, u.username)
    ensures RegisterLocked(s, u, autoId, k).0.rows == s.rows
  {
    RegisterOutcome(s, u, autoId, k);
  }

  /** A username can be registered exactly if no row, deleted ones included, has it; failing lookups do not change that. */
  lemma RegistrableExactly(s: System, username: string)
    ensures Registrable(s, username) <==> forall id | id in s.rows :: s.rows[id].username != username
  {
    if id :| id in s.rows && s.rows[id].username == username {
      forall u: User, autoId, k | u.username == username ensures RegisterLocked(s, u, autoId, k).0.rows == s.rows {
        TakenIsRefused(s, id, u, autoId, k);
      }
    } else {
      var u := Unused.UserFor(s.rows, ByUsername(username));
      BlindStores(s, u);
    }
  }

  /**
   Once a registration has stored its row, whatever it reported, no registration of the username
   stores another or succeeds, after any run of lookups, writes, expiries and registrations that
   does not give the row another username.
   */
  lemma RetryIsRefused(s: System, u: User, autoId: int, k: RegisterLinks, events: seq<Event>, v: User, autoId2: int, k2: RegisterLinks)
    requires RegisterLocked(s, u, autoId, k).0.rows != s.rows && v.username == u.username
    requires !RenamedIn(RegisterLocked(s, u, autoId, k).0, events, NewId(u, autoId), u.username)
    ensures var end := RunAll(RegisterLocked(s, u, autoId, k).0, events);
      var (last, reply) := RegisterLocked(end, v, autoId2, k2);
      last.rows == end.rows && !reply.Registered? && reply != NotRegistered(CacheDown)
  {
    RegisterOutcome(s, u, autoId, k);
    var next := RegisterLocked(s, u, autoId, k).0;
    RunKeepsName(next, events, NewId(u, autoId), u.username);
    var end := RunAll(next, events);
    RegisterOutcome(end, v, autoId2, k2);
    RegistrableExactly(end, u.username);
  }

  lemma RenamedAway(s: System, e: Event, id: int, username: string)
    requires TableOk(s.rows) && Has(s.rows, id, username) && Renames(s, e, id, username)
    ensures var rows := Next(s, e).rows; forall j | j in rows :: rows[j].username != username
  {
    UpdateExactly(s.rows, e.op.w.user);
  }

  /** The other half: a renaming frees the username at once. */
  lemma RenamingFrees(s: System, e: Event, id: int, username: string)
    requires TableOk(s.rows) && Has(s.rows, id, username) && Renames(s, e, id, username)
    ensures Registrable(Next(s, e), username)
  {
    RenamedAway(s, e, id, username);
    RegistrableExactly(Next(s, e), username);
  }

  /** So of the events that leave the row's username registrable, a renaming is the only one. */
  lemma FreedExactly(s: System, e: Event, id: int, username: string)
    requires TableOk(s.rows) && Has(s.rows, id, username)
    ensures Registrable(Next(s, e), username) <==> Renames(s, e, id, username)
  {
    if Renames(s, e, id, username) {
      RenamingFrees(s, e, id, username);
    } else {
      NextKeepsName(s, e, id, username);
      RegistrableExactly(Next(s, e), username);
    }
  }

  const ALL_UP := RegisterLinks(true, None, IndexLinks(Done, Done, Done), TakeLinks(Done, Done, Done), true, Done, Done)

  /** A concrete case: the first registration in an empty table, whose last deletion fails, and its retry. */
  lemma RegisteredButReported()
    ensures var u := User(0, "ann", "ann@", Profile("", "", "", 1), 0, false);
      var empty := System(map[], State(map[], Metrics.NO_COUNTS));
      var (next, reply) := RegisterLocked(empty, u, 1, ALL_UP.(delId := Errored));
      && reply == NotRegistered(CacheDown)
      && First(next.rows, ByUsername("ann")) == Some(u.(id := 1))
      && !RegisterLocked(next, u, 2, ALL_UP).1.Registered?
  {
    var u := User(0, "ann", "ann@", Profile("", "", "", 1), 0, false);
    var empty := System(map[], State(map[], Metrics.NO_COUNTS));
    RegisterOutcome(empty, u, 1, ALL_UP.(delId := Errored));
    var next := RegisterLocked(empty, u, 1, ALL_UP.(delId := Errored)).0;
    assert TableOk(next.rows);
    FirstIs(next.rows, ByUsername("ann"), u.(id := 1));
    RetryIsRefused(empty, u, 1, ALL_UP.(delId := Errored), [], u, 2, ALL_UP);
  }
}
