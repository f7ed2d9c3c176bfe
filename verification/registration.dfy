/**
 Concurrent registrations of one username (biz/user.go Register over the cached repository),
 one lock, cache or database call at a time. The table here has no unique index: whatever
 keeps usernames unique is the protocol itself.
 */
module Registration {
  import opened Wrappers
  import Users

  /** The entry under the username's key. */
  datatype Slot = Absent | Star | Pointer(id: int)

  datatype Client =
    | Idle
    | Locked                        // holds the lock; reads the username key next
    | Asking                        // the key had nothing; queries the table next
    | Storing(found: Option<int>)   // the query has answered; stores it next
    | Following(id: int)            // the key named a row; reads that row's key next
    | Refetching(id: int)           // the row's key had nothing; queries the table next
    | Clear                         // believes the username is free; creates next
    | Dirty(id: int)                // created; deletes the username key next
    | DirtyId(id: int)              // deletes the id key next
    | Leaving                       // releases the lock next

  /**
   `rows` are the ids of the rows with the username, `ids` the entries under id keys (true for a
   row, false for the placeholder), and `wins` the number of registrations that have created a
   row. `probes` are the ids for which some reader by id holds an unstored "not found", and
   `asked` says that some reader by name outside the lock, such as a login, holds one.
   */
  datatype World = World(rows: set<int>, slot: Slot, ids: map<int, bool>, lock: Option<nat>, clients: seq<Client>, probes: set<int>, asked: bool, wins: nat)

  /**
   Calls of registering clients, and what others do: entries expire, readers outside the lock
   store what they have found (`ReadName`, `ReadId`: a row, or "not found" with no creation
   since their query), or store a "not found" late (`Probe...`, then `Plant...`). A registration
   may also join a reader's flight: one whose query is recent answers like its own, and one that
   already has its "not found" shares that (`Join`).
   */
  datatype Act =
    | TryLock(c: nat)
    | GetName(c: nat, ok: bool)
    | AskTable(c: nat, ok: bool, put: bool)
    | Join(c: nat)
    | Store(c: nat, ok: bool, okRow: bool)
    | GetRow(c: nat, ok: bool)
    | Create(c: nat, id: int)
    | CreateFails(c: nat)
    | DeleteName(c: nat, done: bool)
    | DeleteId(c: nat, done: bool)
    | Unlock(c: nat)
    | Expire
    | EvictName
    | EvictId(id: int)
    | ReadName(id: int, ok: bool, okRow: bool)
    | ReadId(id: int)
    | ProbeName
    | PlantName
    | ProbeId(id: int)
    | PlantId(id: int)

  function Move(s: World, c: nat, to: Client): World
    requires c < |s.clients|
  {
    s.(clients := s.clients[c := to])
  }

  /** Some row with the username, as a query by that column returns it. */
  function Pick(rows: set<int>): (r: Option<int>)
    ensures r.None? <==> rows == {}
    ensures r.Some? ==> r.value in rows
  {
    if rows == {} then None
    else
      Users.LeastExists(rows);
      var k :| k in rows && forall j | j in rows :: k <= j;
      Some(k)
  }

  /** A lookup that ended with `found`: an error counts as "not taken", as does not-found. */
  function Decide(found: bool): Client {
    if found then Leaving else Clear
  }

  function ClientStep(s: World, a: Act, c: nat, p: Client): World
    requires c < |s.clients| && p == s.clients[c]
  {
    match (a, p)
    case (TryLock(_), Idle) => if s.lock.None? then Move(s, c, Locked).(lock := Some(c)) else s
    case (GetName(_, ok), Locked) =>
      (match if ok then s.slot else Absent {
        case Star => Move(s, c, Clear)
        case Pointer(id) => Move(s, c, Following(id))
        case Absent => Move(s, c, Asking)
      })
    case (AskTable(_, ok, _), Asking) => Move(s, c, if ok then Storing(Pick(s.rows)) else Clear)
    case (Join(_), Asking) => if s.asked then Move(s, c, Clear) else s
    case (Join(_), Refetching(id)) => if id in s.probes then Move(s, c, Clear) else s
    case (Store(_, ok, okRow), Storing(None)) =>
      Move(s, c, Clear).(slot := if ok && s.slot.Absent? then Star else s.slot)
    case (Store(_, ok, okRow), Storing(Some(id))) =>
      Move(s, c, Leaving).(slot := if ok then Pointer(id) else s.slot, ids := if okRow then s.ids[id := true] else s.ids)
    case (GetRow(_, ok), Following(id)) =>
      if ok && id in s.ids then Move(s, c, Decide(s.ids[id])) else Move(s, c, Refetching(id))
    case (AskTable(_, ok, put), Refetching(id)) =>
      if !ok then Move(s, c, Clear)
      else if s.rows != {} then Move(s, c, Leaving).(ids := if put then s.ids[id := true] else s.ids)
      else Move(s, c, Clear).(ids := if put && id !in s.ids then s.ids[id := false] else s.ids)
    case (Create(_, id), Clear) =>
      if id in s.rows then s
      else Move(s, c, Dirty(id)).(rows := s.rows + {id}, wins := s.wins + 1)
    case (CreateFails(_), Clear) => Move(s, c, Leaving)
    case (DeleteName(_, done), Dirty(id)) => Move(s, c, DirtyId(id)).(slot := if done then Absent else s.slot)
    case (DeleteId(_, done), DirtyId(id)) => Move(s, c, Leaving).(ids := if done then s.ids - {id} else s.ids)
    case (Unlock(_), Leaving) => Move(s, c, Idle).(lock := if s.lock == Some(c) then None else s.lock)
    case _ => s
  }

  function OtherStep(s: World, a: Act): World {
    match a
    case Expire => s.(lock := None)
    case EvictName => s.(slot := Absent)
    case EvictId(id) => s.(ids := s.ids - {id})
    case ReadName(id, ok, okRow) =>
      if id in s.rows then s.(slot := if ok then Pointer(id) else s.slot, ids := if okRow then s.ids[id := true] else s.ids)
      else if s.rows == {} && ok && s.slot.Absent? then s.(slot := Star)
      else s
    case ReadId(id) =>
      if id in s.rows then s.(ids := s.ids[id := true])
      else if id !in s.ids then s.(ids := s.ids[id := false])
      else s
    case ProbeName => s.(asked := s.asked || s.rows == {})
    case PlantName => if s.asked && s.slot.Absent? then s.(slot := Star) else s
    case ProbeId(id) => if id in s.rows then s else s.(probes := s.probes + {id})
    case PlantId(id) => if id in s.probes && id !in s.ids then s.(ids := s.ids[id := false]) else s
    case _ => s
  }

  predicate ByClient(a: Act) {
    || a.TryLock? || a.GetName? || a.AskTable? || a.Join? || a.Store? || a.GetRow?
    || a.Create? || a.CreateFails? || a.DeleteName? || a.DeleteId? || a.Unlock?
  }

  function Step(s: World, a: Act): World {
    if !ByClient(a) then OtherStep(s, a)
    else if a.c < |s.clients| then ClientStep(s, a, a.c, s.clients[a.c])
    else s
  }

  function Run(s: World, acts: seq<Act>): World
    decreases |acts|
  {
    if acts == [] then s else Run(Step(s, acts[0]), acts[1..])
  }

  /**
   What may go wrong in a run besides failing cache reads and stores and failing creates, which
   always may. A late reader is one that stores or shares a "not found" after a creation.
   */
  datatype Perils = Perils(failedQueries: bool, lockExpiry: bool, lostDeletes: bool, lateReadersById: bool, lateReadersByName: bool)

  const NO_PERILS := Perils(false, false, false, false, false)

  predicate Allowed(p: Perils, a: Act) {
    match a
    case AskTable(_, ok, _) => ok || p.failedQueries
    case Expire => p.lockExpiry
    case DeleteName(_, done) => done || p.lostDeletes
    case DeleteId(_, done) => done || p.lostDeletes
    case Join(_) => p.lateReadersById || p.lateReadersByName
    case ProbeId(_) => p.lateReadersById
    case PlantId(_) => p.lateReadersById
    case ProbeName => p.lateReadersByName
    case PlantName => p.lateReadersByName
    case _ => true
  }

  /** `n` clients about to register, over a table that has the rows `rows` for the username. */
  function Start(rows: set<int>, n: nat): World {
    World(rows, Absent, map[], None, seq(n, _ => Idle), {}, false, 0)
  }

  /** No run registers the username twice, or at all when it was taken from the start. */
  ghost predicate AtMostOnce(p: Perils) {
    forall rows, n, acts | forall a | a in acts :: Allowed(p, a) ::
      Run(Start(rows, n), acts).wins <= if rows == {} then 1 else 0
  }

  // -------- without perils

  ghost predicate Holding(s: World) {
    && (forall c | 0 <= c < |s.clients| && s.clients[c] != Idle :: s.lock == Some(c))
    && (s.lock.Some? ==> s.lock.value < |s.clients|)
  }

  /** Some client has created the row of `id` and not yet deleted its id key. */
  ghost predicate Unfinished(s: World, id: int) {
    exists c | 0 <= c < |s.clients| :: s.clients[c] == Dirty(id) || s.clients[c] == DirtyId(id)
  }

  ghost predicate Entries(s: World) {
    && s.probes == {} && !s.asked
    && (forall id | id in s.ids && !s.ids[id] && id in s.rows :: Unfinished(s, id))
    && (s.slot.Star? && s.rows != {} ==> exists c | 0 <= c < |s.clients| :: s.clients[c].Dirty?)
    && (s.slot.Pointer? ==> s.slot.id in s.rows)
  }

  predicate KnowsBest(rows: set<int>, p: Client) {
    match p
    case Storing(None) => rows == {}
    case Storing(Some(id)) => id in rows
    case Following(id) => id in rows
    case Refetching(id) => id in rows
    case Clear => rows == {}
    case _ => true
  }

  ghost predicate Inv(s: World) {
    && (s.wins > 0 ==> s.rows != {})
    && Holding(s) && Entries(s)
    && (forall c | 0 <= c < |s.clients| :: KnowsBest(s.rows, s.clients[c]))
  }

  /** While a client that is not finishing a creation holds the lock, no entry is wrong. */
  lemma NobodyFinishing(s: World, c: nat)
    requires Inv(s) && c < |s.clients| && s.clients[c] != Idle && !s.clients[c].Dirty? && !s.clients[c].DirtyId?
    ensures s.slot.Star? ==> s.rows == {}
    ensures forall id | id in s.ids && id in s.rows :: s.ids[id]
  {
  }

  /** A client that holds the lock and moves on leaves the other clients idle. */
  lemma Alone(s: World, c: nat, to: Client)
    requires Inv(s) && c < |s.clients| && s.clients[c] != Idle
    ensures Move(s, c, to).clients[c] == to
    ensures forall d | 0 <= d < |s.clients| && d != c :: Move(s, c, to).clients[d] == Idle
  {
  }

  /** A client in the middle of its lookup. */
  predicate LooksUp(p: Client) {
    p.Locked? || p.Asking? || p.Storing? || p.Following? || p.Refetching?
  }

  lemma LookupInv(s: World, a: Act, c: nat)
    requires Inv(s) && Allowed(NO_PERILS, a) && c < |s.clients| && LooksUp(s.clients[c])
    ensures var next := ClientStep(s, a, c, s.clients[c]); Inv(next) && next.rows == s.rows && next.wins == s.wins
  {
    Alone(s, c, ClientStep(s, a, c, s.clients[c]).clients[c]);
    NobodyFinishing(s, c);
  }

  lemma WriteInv(s: World, a: Act, c: nat)
    requires Inv(s) && Allowed(NO_PERILS, a) && c < |s.clients| && !LooksUp(s.clients[c])
    ensures var next := ClientStep(s, a, c, s.clients[c]); Inv(next) && s.rows <= next.rows
    ensures ClientStep(s, a, c, s.clients[c]).wins <= s.wins + if s.rows == {} then 1 else 0
  {
    var p, next := s.clients[c], ClientStep(s, a, c, s.clients[c]);
    if next != s && !p.Idle? {
      Alone(s, c, next.clients[c]);
      if p.Clear? || p.Leaving? {
        NobodyFinishing(s, c);
      }
    }
  }

  lemma OtherStepInv(s: World, a: Act)
    requires Inv(s) && Allowed(NO_PERILS, a)
    ensures var next := OtherStep(s, a); Inv(next) && next.rows == s.rows && next.wins == s.wins
  {
  }

  lemma StepInv(s: World, a: Act)
    requires Inv(s) && Allowed(NO_PERILS, a)
    ensures var next := Step(s, a); Inv(next) && s.rows <= next.rows && next.wins <= s.wins + if s.rows == {} then 1 else 0
  {
    if ByClient(a) {
      if a.c < |s.clients| {
        if LooksUp(s.clients[a.c]) {
          LookupInv(s, a, a.c);
        } else {
          WriteInv(s, a, a.c);
        }
      }
    } else {
      OtherStepInv(s, a);
    }
  }

  /** While the username is free one registration may still succeed, and none once it is taken. */
  lemma {:induction false} RunInv(s: World, acts: seq<Act>)
    requires Inv(s) && forall a | a in acts :: Allowed(NO_PERILS, a)
    ensures Run(s, acts).wins <= s.wins + if s.rows == {} then 1 else 0
    decreases |acts|
  {
    if acts != [] {
      StepInv(s, acts[0]);
      RunInv(Step(s, acts[0]), acts[1..]);
    }
  }

  lemma SafeWithoutPerils()
    ensures AtMostOnce(NO_PERILS)
  {
    forall rows, n, acts | forall a | a in acts :: Allowed(NO_PERILS, a)
      ensures Run(Start(rows, n), acts).wins <= if rows == {} then 1 else 0
    {
      RunInv(Start(rows, n), acts);
    }
  }

  // -------- each peril alone breaks it

  /** Lengthens a run by one allowed act. */
  lemma {:induction false} Then(s: World, acts: seq<Act>, a: Act, p: Perils) returns (longer: seq<Act>)
    requires Allowed(p, a) && forall b | b in acts :: Allowed(p, b)
    ensures longer == acts + [a] && (forall b | b in longer :: Allowed(p, b))
    ensures Run(s, longer) == Step(Run(s, acts), a)
    decreases |acts|
  {
    longer := acts + [a];
    if acts == [] {
      assert longer[1..] == [];
    } else {
      var rest := Then(Step(s, acts[0]), acts[1..], a, p);
      assert longer[1..] == rest;
    }
  }

  /** A client that finds nothing anywhere, up to the moment it is clear to create. */
  lemma FindFree(s: World, acts: seq<Act>, c: nat, star: bool, p: Perils) returns (longer: seq<Act>)
    requires forall b | b in acts :: Allowed(p, b)
    requires var now := Run(s, acts); c < |now.clients| && now.clients[c].Idle? && now.lock.None? && now.slot.Absent? && now.rows == {}
    ensures forall b | b in longer :: Allowed(p, b)
    ensures var now := Run(s, acts);
      Run(s, longer) == now.(clients := now.clients[c := Clear], lock := Some(c), slot := if star then Star else Absent)
  {
    longer := Then(s, acts, TryLock(c), p);
    longer := Then(s, longer, GetName(c, true), p);
    longer := Then(s, longer, AskTable(c, true, true), p);
    longer := Then(s, longer, Store(c, star, true), p);
  }

  lemma OneIdle(rows: set<int>)
    ensures Start(rows, 1) == World(rows, Absent, map[], None, [Idle], {}, false, 0)
  {
  }

  /** A failed lookup is taken for a free username: here a taken one is registered again. */
  lemma FailedQueryBreaks(p: Perils)
    requires p.failedQueries
    ensures !AtMostOnce(p)
  {
    OneIdle({7});
    var s := Start({7}, 1);
    var acts := Then(s, [], TryLock(0), p);
    acts := Then(s, acts, GetName(0, true), p);
    acts := Then(s, acts, AskTable(0, false, true), p);
    acts := Then(s, acts, Create(0, 8), p);
    assert Run(s, acts).wins == 1;
  }

  lemma ExpiryBreaks(p: Perils)
    requires p.lockExpiry
    ensures !AtMostOnce(p)
  {
    var s := Start({}, 2);
    assert s == World({}, Absent, map[], None, [Idle, Idle], {}, false, 0);
    var acts := FindFree(s, [], 0, false, p);
    acts := Then(s, acts, Expire, p);
    acts := FindFree(s, acts, 1, false, p);
    acts := Then(s, acts, Create(0, 1), p);
    acts := Then(s, acts, Create(1, 2), p);
    assert Run(s, acts).wins == 2;
  }

  /** A registration by client 0 of a table without the username, deleting its keys or not. */
  lemma RegisterOnce(s: World, acts: seq<Act>, star: bool, done: bool, p: Perils) returns (longer: seq<Act>)
    requires (forall b | b in acts :: Allowed(p, b)) && (done || p.lostDeletes)
    requires var now := Run(s, acts); now == World({}, Absent, map[], None, [Idle], now.probes, now.asked, 0)
    ensures forall b | b in longer :: Allowed(p, b)
    ensures var now := Run(s, acts);
      Run(s, longer) == World({1}, if star && !done then Star else Absent, map[], Some(0), [Leaving], now.probes, now.asked, 1)
  {
    longer := FindFree(s, acts, 0, star, p);
    longer := Then(s, longer, Create(0, 1), p);
    longer := Then(s, longer, DeleteName(0, done), p);
    longer := Then(s, longer, DeleteId(0, true), p);
  }

  /** A registration behind a placeholder that hides row 1. */
  lemma HiddenRow(s: World, acts: seq<Act>, p: Perils) returns (longer: seq<Act>)
    requires forall b | b in acts :: Allowed(p, b)
    requires var now := Run(s, acts); now == World({1}, Star, map[], Some(0), [Leaving], {}, now.asked, 1)
    ensures forall b | b in longer :: Allowed(p, b)
    ensures Run(s, longer).wins == 2
  {
    longer := Then(s, acts, Unlock(0), p);
    longer := Then(s, longer, TryLock(0), p);
    longer := Then(s, longer, GetName(0, true), p);
    longer := Then(s, longer, Create(0, 2), p);
  }

  /** The placeholder a registration caches during its own lookup hides the row it then creates. */
  lemma LostDeleteBreaks(p: Perils)
    requires p.lostDeletes
    ensures !AtMostOnce(p)
  {
    OneIdle({});
    var s := Start({}, 1);
    var acts := RegisterOnce(s, [], true, false, p);
    acts := HiddenRow(s, acts, p);
    assert Run(s, acts).wins == 2;
  }

  /** With a placeholder under the row's id key, a lookup whose row store fails leaves a pointer to it. */
  lemma PointAtPlaceholder(s: World, acts: seq<Act>, p: Perils) returns (longer: seq<Act>)
    requires forall b | b in acts :: Allowed(p, b)
    requires Run(s, acts) == World({1}, Absent, map[1 := false], None, [Idle], {1}, false, 1)
    ensures forall b | b in longer :: Allowed(p, b)
    ensures Run(s, longer) == World({1}, Pointer(1), map[1 := false], None, [Idle], {1}, false, 1)
  {
    longer := Then(s, acts, TryLock(0), p);
    longer := Then(s, longer, GetName(0, true), p);
    longer := Then(s, longer, AskTable(0, true, true), p);
    longer := Then(s, longer, Store(0, true, false), p);
    longer := Then(s, longer, Unlock(0), p);
  }

  lemma FollowPlaceholder(s: World, acts: seq<Act>, p: Perils) returns (longer: seq<Act>)
    requires forall b | b in acts :: Allowed(p, b)
    requires Run(s, acts) == World({1}, Pointer(1), map[1 := false], None, [Idle], {1}, false, 1)
    ensures forall b | b in longer :: Allowed(p, b)
    ensures Run(s, longer).wins == 2
  {
    longer := Then(s, acts, TryLock(0), p);
    longer := Then(s, longer, GetName(0, true), p);
    longer := Then(s, longer, GetRow(0, true), p);
    longer := Then(s, longer, Create(0, 2), p);
  }

  /** A reader by id that stores its old "not found" late hides the row behind a correct pointer. */
  lemma ReaderByIdBreaks(p: Perils)
    requires p.lateReadersById
    ensures !AtMostOnce(p)
  {
    OneIdle({});
    var s := Start({}, 1);
    var acts := Then(s, [], ProbeId(1), p);
    acts := RegisterOnce(s, acts, false, true, p);
    acts := Then(s, acts, PlantId(1), p);
    acts := Then(s, acts, Unlock(0), p);
    acts := PointAtPlaceholder(s, acts, p);
    acts := FollowPlaceholder(s, acts, p);
    assert Run(s, acts).wins == 2;
  }

  /** A login that stores its old "not found" late hides the row behind a placeholder. */
  lemma ReaderByNameBreaks(p: Perils)
    requires p.lateReadersByName
    ensures !AtMostOnce(p)
  {
    OneIdle({});
    var s := Start({}, 1);
    var acts := Then(s, [], ProbeName, p);
    acts := RegisterOnce(s, acts, false, true, p);
    acts := Then(s, acts, PlantName, p);
    acts := HiddenRow(s, acts, p);
    assert Run(s, acts).wins == 2;
  }

  /** A registration that joins a flight with an old "not found". */
  lemma JoinsTooLate(s: World, acts: seq<Act>, p: Perils) returns (longer: seq<Act>)
    requires p.lateReadersByName && forall b | b in acts :: Allowed(p, b)
    requires Run(s, acts) == World({1}, Absent, map[], Some(0), [Leaving], {}, true, 1)
    ensures forall b | b in longer :: Allowed(p, b)
    ensures Run(s, longer).clients == [Clear] && Run(s, longer).rows == {1} && Run(s, longer).wins == 1
  {
    longer := Then(s, acts, Unlock(0), p);
    longer := Then(s, longer, TryLock(0), p);
    longer := Then(s, longer, GetName(0, true), p);
    longer := Then(s, longer, Join(0), p);
  }

  /** The old "not found" need not even be stored: a registration that joins the login's flight is told the same. */
  lemma SharedFlightBreaks(p: Perils)
    requires p.lateReadersByName
    ensures !AtMostOnce(p)
  {
    OneIdle({});
    var s := Start({}, 1);
    var acts := Then(s, [], ProbeName, p);
    acts := RegisterOnce(s, acts, false, true, p);
    acts := JoinsTooLate(s, acts, p);
    acts := Then(s, acts, Create(0, 2), p);
    assert Run(s, acts).wins == 2;
  }

  /**
   At most one registration, exactly: where only registrations and readers run, the lock alone
   keeps a username unique if and only if lookups under the lock do not fail, the lock is held to
   completion, deletions take effect, and no reader, by id or by name, stores or shares a
   "not found" late.
   */
  lemma AtMostOnceExactly(p: Perils)
    ensures AtMostOnce(p) <==> p == NO_PERILS
  {
    SafeWithoutPerils();
    if p.failedQueries {
      FailedQueryBreaks(p);
    } else if p.lockExpiry {
      ExpiryBreaks(p);
    } else if p.lostDeletes {
      LostDeleteBreaks(p);
    } else if p.lateReadersById {
      ReaderByIdBreaks(p);
    } else if p.lateReadersByName {
      ReaderByNameBreaks(p);
    }
  }
}
