/**
 Writers with a version check and readers by id and by unique column, interleaved one database
 or cache call at a time. Entries are kept by id and by column query: the key functions are
 injective.
 */
module Interleaving {
  import opened Wrappers
  import opened Users
  import Writes

  /** What an update or a delete is going to write over the row it has read. */
  datatype Change = Edit(user: User) | Erase

  /** Where a client stands between two calls. */
  datatype Client =
    | Idle
    | Asking(q: Query)                         // the column's key had nothing; the query is next
    | Found(q: Query, got: Option<User>)       // the query has answered; the column's entry is not stored yet
    | Following(id: int, q: Query)             // the column's key named a row; that row's key is read next
    | Missed(id: int, q: Query)                // the row's key had nothing; query q, by id or by the column followed, is next
    | Holding(id: int, got: Option<User>)      // the query has answered; the row's entry is not stored yet
    | Ready(change: Change, was: User)         // the row has been read; the conditional write is next
    | Born(id: int, columns: set<Query>)       // the row is created; its columns' keys are deleted next
    | Dirty(id: int, columns: set<Query>)      // the write is committed; its keys are not deleted yet

  /**
   `cache` holds the entries by id, `index` the pointers and placeholders by column query, and
   `past` every committed version of every row, oldest first.
   */
  datatype World = World(rows: Table, cache: map<int, Option<User>>, index: map<Query, Option<int>>, clients: seq<Client>, past: map<int, seq<User>>)

  datatype Act =
    | CacheGet(c: nat, id: int, ok: bool)
    | IndexGet(c: nat, q: Query, ok: bool)
    | RowGet(c: nat, ok: bool)
    | Query(c: nat, ok: bool)
    | IndexSet(c: nat, ok: bool)
    | CacheSet(c: nat, ok: bool)
    | Leave(c: nat)
    | ReadRow(c: nat, id: int, change: Change)
    | Commit(c: nat, ok: bool)
    | Create(c: nat, user: User, id: int)
    | PurgeColumns(c: nat)
    | Purge(c: nat)
    | Evict(id: int)
    | EvictIndex(q: Query)
    | Arrive

  datatype Answer = Silent | Row(got: Option<User>) | Unread | Written | ConcurrentUpdate | Conflict | DatabaseError

  function Live(t: Table, id: int): Option<User> {
    if LiveIn(t, id) then Some(t[id]) else None
  }

  /** The database's answer to a lookup. */
  function AnswerTo(t: Table, q: Query): Option<User> {
    if q.ById? then Live(t, q.id) else First(t, q)
  }

  function Write(t: Table, change: Change, was: User): Updated {
    match change
    case Edit(u) => EditWhere(t, was.id, was.version, u)
    case Erase => EraseWhere(t, was.id, was.version)
  }

  /** The column lookups that find a row and whose keys a write to it deletes. */
  function Columns(u: User): set<Query> {
    (if u.username == "" then {} else {ByUsername(u.username)}) + (if u.email == "" then {} else {ByEmail(u.email)})
  }

  function ColumnsOf(was: User, change: Change): set<Query> {
    match change
    case Edit(u) => Columns(was) + Columns(u)
    case Erase => Columns(was)
  }

  function At(s: World, c: nat): Client {
    if c < |s.clients| then s.clients[c] else Idle
  }

  function Move(s: World, c: nat, to: Client): World
    requires c < |s.clients|
  {
    s.(clients := s.clients[c := to])
  }

  /** A stored answer: rows overwrite, the placeholder does not. */
  function Stored(cache: map<int, Option<User>>, id: int, got: Option<User>): map<int, Option<User>> {
    if got.None? && id in cache then cache else cache[id := got]
  }

  function Pointed(index: map<Query, Option<int>>, q: Query, got: Option<User>): map<Query, Option<int>> {
    match got
    case None => if q in index then index else index[q := None]
    case Some(u) => index[q := Some(u.id)]
  }

  function Committed(s: World, c: nat, rows: Table, id: int, to: Client): World
    requires c < |s.clients| && id in rows
  {
    var before := if id in s.past then s.past[id] else [];
    World(rows, s.cache, s.index, s.clients[c := to], s.past[id := before + [rows[id]]])
  }

  /** Ids below 1 have no key among those a write deletes. */
  function PurgedIds(id: int): set<int> {
    if id > 0 then {id} else {}
  }

  /** A call of a reader, or of a writer that is not writing. */
  function ReadStep(s: World, a: Act, c: nat, p: Client): World
    requires c < |s.clients| && p == s.clients[c]
  {
    match (a, p)
    case (CacheGet(_, id, ok), Idle) => if ok && id in s.cache then s else Move(s, c, Missed(id, ById(id)))
    case (IndexGet(_, q, ok), Idle) =>
      if q.ById? then s
      else if ok && q in s.index then (if s.index[q].Some? then Move(s, c, Following(s.index[q].value, q)) else s)
      else Move(s, c, Asking(q))
    case (RowGet(_, ok), Following(id, q)) => Move(s, c, if ok && id in s.cache then Idle else Missed(id, q))
    case (Query(_, ok), Asking(q)) => Move(s, c, if ok then Found(q, AnswerTo(s.rows, q)) else Idle)
    case (Query(_, ok), Missed(id, q)) => Move(s, c, if ok then Holding(id, AnswerTo(s.rows, q)) else Idle)
    case (IndexSet(_, ok), Found(q, got)) =>
      Move(s, c, if got.Some? then Holding(got.value.id, got) else Idle).(index := if ok then Pointed(s.index, q, got) else s.index)
    case (CacheSet(_, ok), Holding(id, got)) => Move(s, c, Idle).(cache := if ok then Stored(s.cache, id, got) else s.cache)
    case (Leave(_), _) => if p.Born? || p.Dirty? then s else Move(s, c, Idle)
    case (ReadRow(_, id, change), Idle) => if Live(s.rows, id).Some? then Move(s, c, Ready(change, Live(s.rows, id).value)) else s
    case _ => s
  }

  function WriteStep(s: World, a: Act, c: nat, p: Client): World
    requires c < |s.clients| && p == s.clients[c]
  {
    match (a, p)
    case (Commit(_, ok), Ready(change, was)) =>
      (match Write(s.rows, change, was) {
        case Affected(rows) => if ok then Committed(s, c, rows, was.id, Dirty(was.id, ColumnsOf(was, change))) else Move(s, c, Idle)
        case _ => Move(s, c, Idle)
      })
    case (Create(_, user, id), Idle) =>
      (match Insert(s.rows, user, id) {
        case Affected(rows) => Committed(s, c, rows, id, Born(id, Columns(user)))
        case _ => s
      })
    case (PurgeColumns(_), Born(id, columns)) => Move(s, c, Dirty(id, {})).(index := s.index - columns)
    case (Purge(_), Dirty(id, columns)) => Move(s, c, Idle).(cache := s.cache - PurgedIds(id), index := s.index - columns)
    case _ => s
  }

  predicate IsWrite(a: Act) {
    a.Commit? || a.Create? || a.PurgeColumns? || a.Purge?
  }

  /** Entries that leave on their own, and requests that come in. */
  predicate ByNobody(a: Act) {
    a.Evict? || a.EvictIndex? || a.Arrive?
  }

  function NobodyStep(s: World, a: Act): World {
    match a
    case Evict(id) => s.(cache := s.cache - {id})
    case EvictIndex(q) => s.(index := s.index - {q})
    case Arrive => s.(clients := s.clients + [Idle])
    case _ => s
  }

  /** One call of one client; a call the client is not up to changes nothing. */
  function Step(s: World, a: Act): World {
    if ByNobody(a) then NobodyStep(s, a)
    else if a.c >= |s.clients| then s
    else if IsWrite(a) then WriteStep(s, a, a.c, s.clients[a.c])
    else ReadStep(s, a, a.c, s.clients[a.c])
  }

  /** What the client is told by this call. */
  function Reply(s: World, a: Act): Answer {
    match a
    case CacheGet(c, id, ok) => if c < |s.clients| && At(s, c).Idle? && ok && id in s.cache then Row(s.cache[id]) else Silent
    case IndexGet(c, q, ok) =>
      if c < |s.clients| && At(s, c).Idle? && !q.ById? && ok && q in s.index && s.index[q].None? then Row(None) else Silent
    case RowGet(c, ok) => if At(s, c).Following? && ok && At(s, c).id in s.cache then Row(s.cache[At(s, c).id]) else Silent
    case Query(c, ok) =>
      if !At(s, c).Missed? && !At(s, c).Asking? then Silent
      else if ok then Row(AnswerTo(s.rows, At(s, c).q))
      else DatabaseError
    case ReadRow(c, id, _) => if c < |s.clients| && At(s, c).Idle? && Live(s.rows, id).None? then Unread else Silent
    case Commit(c, ok) =>
      if !At(s, c).Ready? then Silent
      else if !ok then DatabaseError
      else
        match Write(s.rows, At(s, c).change, At(s, c).was) {
          case Affected(_) => Written
          case NoRows => ConcurrentUpdate
          case Duplicate => Conflict
        }
    case _ => Silent
  }

  function Run(s: World, acts: seq<Act>): World {
    if acts == [] then s else Step(Run(s, acts[..|acts| - 1]), acts[|acts| - 1])
  }

  /** The row of `id` is committed anew by this call. */
  predicate Touches(s: World, a: Act, id: int) {
    Step(s, a).rows != s.rows &&
    ((a.Commit? && At(s, a.c).Ready? && At(s, a.c).was.id == id) || (a.Create? && a.id == id))
  }

  // -------- the invariant

  /** Versions of one row: numbered consecutively, and only the newest can be deleted. */
  predicate History(versions: seq<User>, id: int) {
    && versions != []
    && (forall i | 0 <= i < |versions| :: versions[i].id == id && versions[i].version == versions[0].version + i)
    && (forall i | 0 <= i < |versions| - 1 :: !versions[i].deleted)
  }

  predicate Knows(s: World, u: User) {
    u.id in s.past && u in s.past[u.id] && !u.deleted
  }

  predicate KnowsIfAny(s: World, got: Option<User>) {
    got.Some? ==> Knows(s, got.value)
  }

  predicate ClientOk(s: World, p: Client) {
    match p
    case Idle => true
    case Asking(q) => !q.ById?
    case Found(q, got) => !q.ById? && KnowsIfAny(s, got) && (got.Some? ==> Matches(got.value, q))
    case Following(_, q) => !q.ById?
    case Missed(id, q) => q.ById? ==> q.id == id
    case Holding(_, got) => KnowsIfAny(s, got)
    case Ready(_, was) => Knows(s, was)
    case Born(id, _) => id in s.rows
    case Dirty(id, _) => id in s.rows
  }

  ghost predicate Histories(s: World) {
    && s.past.Keys == s.rows.Keys
    && (forall id | id in s.past :: History(s.past[id], id) && s.rows[id] == s.past[id][|s.past[id]| - 1])
  }

  /** Versions are consecutive, and whatever clients and entries hold was committed. */
  ghost predicate Known(s: World) {
    && Histories(s)
    && (forall c | 0 <= c < |s.clients| :: ClientOk(s, s.clients[c]))
    && (forall id | id in s.cache :: KnowsIfAny(s, s.cache[id]))
    && (forall q | q in s.index :: !q.ById?)
  }

  ghost predicate Inv(s: World) {
    Known(s) && TableOk(s.rows)
  }

  /** A known row with the current version number is the current row. */
  lemma SameVersionSameRow(s: World, u: User)
    requires Histories(s) && u.id in s.past && u in s.past[u.id]
    ensures u.version <= s.rows[u.id].version
    ensures u.version == s.rows[u.id].version ==> u == s.rows[u.id]
  {
    var versions := s.past[u.id];
    var i :| 0 <= i < |versions| && versions[i] == u;
    assert versions[|versions| - 1].version == versions[0].version + |versions| - 1;
  }

  lemma AppendVersion(versions: seq<User>, row: User, id: int)
    requires row.id == id && (versions == [] || History(versions, id))
    requires versions != [] ==> !versions[|versions| - 1].deleted && row.version == versions[|versions| - 1].version + 1
    ensures History(versions + [row], id)
  {
  }

  /** Rows that were known stay known when a newer version is added. */
  lemma KnowsMore(s: World, c: nat, rows: Table, id: int, to: Client, u: User)
    requires c < |s.clients| && id in rows && Knows(s, u)
    ensures Knows(Committed(s, c, rows, id, to), u)
  {
    if u.id == id {
      var i :| 0 <= i < |s.past[id]| && s.past[id][i] == u;
      assert Committed(s, c, rows, id, to).past[id][i] == u;
    }
  }

  /** What a client knows it goes on knowing when nothing known is lost. */
  lemma ClientStaysOk(s: World, next: World, p: Client)
    requires ClientOk(s, p) && s.rows.Keys <= next.rows.Keys && forall u | Knows(s, u) :: Knows(next, u)
    ensures ClientOk(next, p)
  {
  }

  lemma CommittedHistories(s: World, c: nat, rows: Table, id: int, to: Client)
    requires Histories(s) && c < |s.clients| && id in rows && rows == s.rows[id := rows[id]] && rows[id].id == id
    requires id in s.rows ==> !s.rows[id].deleted && rows[id].version == s.rows[id].version + 1
    ensures Histories(Committed(s, c, rows, id, to))
  {
    var next := Committed(s, c, rows, id, to);
    var before := if id in s.past then s.past[id] else [];
    AppendVersion(before, rows[id], id);
    forall k | k in next.past ensures History(next.past[k], k) && next.rows[k] == next.past[k][|next.past[k]| - 1] {
      if k != id {
        assert next.past[k] == s.past[k];
      }
    }
  }

  lemma CommittedKnown(s: World, c: nat, rows: Table, id: int, to: Client)
    requires Known(s) && c < |s.clients| && id in rows && rows == s.rows[id := rows[id]] && rows[id].id == id
    requires id in s.rows ==> !s.rows[id].deleted && rows[id].version == s.rows[id].version + 1
    requires (to.Dirty? || to.Born?) && to.id == id
    ensures Known(Committed(s, c, rows, id, to))
  {
    var next := Committed(s, c, rows, id, to);
    CommittedHistories(s, c, rows, id, to);
    forall u | Knows(s, u) ensures Knows(next, u) {
      KnowsMore(s, c, rows, id, to, u);
    }
    forall d | 0 <= d < |next.clients| ensures ClientOk(next, next.clients[d]) {
      if d != c {
        ClientStaysOk(s, next, s.clients[d]);
      }
    }
  }

  /** A step that leaves rows and versions alone keeps everything known if the client and the entries know what they hold. */
  lemma MoveOk(s: World, c: nat, to: Client, cache: map<int, Option<User>>, index: map<Query, Option<int>>)
    requires Known(s) && c < |s.clients| && ClientOk(s, to)
    requires forall id | id in cache :: KnowsIfAny(s, cache[id])
    requires forall q | q in index :: !q.ById?
    ensures Known(Move(s, c, to).(cache := cache, index := index))
  {
    var next := Move(s, c, to).(cache := cache, index := index);
    assert forall u :: Knows(s, u) <==> Knows(next, u);
    forall d | 0 <= d < |next.clients| ensures ClientOk(next, next.clients[d]) {
      ClientStaysOk(s, next, if d == c then to else s.clients[d]);
    }
  }

  lemma LiveKnown(s: World, id: int)
    requires Histories(s) && Live(s.rows, id).Some?
    ensures Knows(s, Live(s.rows, id).value)
  {
    assert id in s.past;
  }

  lemma AnswerKnown(s: World, q: Query)
    requires Histories(s) && TableOk(s.rows) && AnswerTo(s.rows, q).Some?
    ensures Knows(s, AnswerTo(s.rows, q).value) && Matches(AnswerTo(s.rows, q).value, q)
  {
    if !q.ById? {
      FirstSome(s.rows, q);
    }
    LiveKnown(s, AnswerTo(s.rows, q).value.id);
  }

  /** The state after a conditional write that goes through. */
  function AfterCommit(s: World, c: nat, rows: Table): World
    requires At(s, c).Ready? && At(s, c).was.id in rows
  {
    Committed(s, c, rows, At(s, c).was.id, Dirty(At(s, c).was.id, ColumnsOf(At(s, c).was, At(s, c).change)))
  }

  lemma CommitStep(s: World, c: nat, ok: bool)
    requires At(s, c).Ready?
    ensures var done := Write(s.rows, At(s, c).change, At(s, c).was);
      (done.Affected? ==> At(s, c).was.id in done.rows) &&
      Step(s, Commit(c, ok)) == if ok && done.Affected? then AfterCommit(s, c, done.rows) else Move(s, c, Idle)
  {
  }

  lemma AfterCommitKnown(s: World, c: nat)
    requires Known(s) && At(s, c).Ready? && Write(s.rows, At(s, c).change, At(s, c).was).Affected?
    ensures Known(AfterCommit(s, c, Write(s.rows, At(s, c).change, At(s, c).was).rows))
  {
    var was, change := s.clients[c].was, s.clients[c].change;
    assert ClientOk(s, s.clients[c]);
    SameVersionSameRow(s, was);
    CommittedKnown(s, c, Write(s.rows, change, was).rows, was.id, Dirty(was.id, ColumnsOf(was, change)));
  }

  lemma CommitKnown(s: World, c: nat, ok: bool)
    requires Known(s) && At(s, c).Ready?
    ensures Known(Step(s, Commit(c, ok)))
  {
    CommitStep(s, c, ok);
    if ok && Write(s.rows, At(s, c).change, At(s, c).was).Affected? {
      AfterCommitKnown(s, c);
    } else {
      MoveOk(s, c, Idle, s.cache, s.index);
    }
  }

  lemma CreateKnown(s: World, c: nat, user: User, id: int)
    requires Known(s) && c < |s.clients| && s.clients[c].Idle?
    ensures Known(Step(s, Create(c, user, id)))
  {
    match Insert(s.rows, user, id)
    case Affected(rows) => CommittedKnown(s, c, rows, id, Born(id, Columns(user)));
    case _ =>
  }

  /** The statements keep primary key and unique columns. */
  lemma WriteKeepsTable(t: Table, change: Change, was: User)
    requires TableOk(t) && Write(t, change, was).Affected?
    ensures TableOk(Write(t, change, was).rows)
  {
    var rows := Write(t, change, was).rows;
    if change.Erase? {
      assert !Taken(t, was.id, rows[was.id].username, rows[was.id].email);
    }
    Writes.TakenOnly(t, was.id, rows[was.id]);
  }

  lemma InsertKeepsTable(t: Table, user: User, id: int)
    requires TableOk(t) && Insert(t, user, id).Affected?
    ensures TableOk(Insert(t, user, id).rows)
  {
    Writes.TakenOnly(t, id, user.(id := id, deleted := false));
  }

  lemma WriteStepTable(s: World, a: Act)
    requires TableOk(s.rows) && IsWrite(a)
    ensures TableOk(Step(s, a).rows)
  {
    if a.Commit? && At(s, a.c).Ready? && Write(s.rows, At(s, a.c).change, At(s, a.c).was).Affected? {
      WriteKeepsTable(s.rows, At(s, a.c).change, At(s, a.c).was);
    }
    if a.Create? && Insert(s.rows, a.user, a.id).Affected? {
      InsertKeepsTable(s.rows, a.user, a.id);
    }
  }

  lemma WriteStepKnown(s: World, a: Act)
    requires Known(s) && IsWrite(a)
    ensures Known(Step(s, a))
  {
    if a.c < |s.clients| {
      var p := s.clients[a.c];
      assert ClientOk(s, p);
      match a
      case Commit(c, ok) => if p.Ready? { CommitKnown(s, c, ok); }
      case Create(c, user, id) => if p.Idle? { CreateKnown(s, c, user, id); }
      case PurgeColumns(c) => if p.Born? { MoveOk(s, c, Dirty(p.id, {}), s.cache, s.index - p.columns); }
      case Purge(c) => if p.Dirty? { MoveOk(s, c, Idle, s.cache - PurgedIds(p.id), s.index - p.columns); }
    }
  }

  /** Where a query leaves a client. */
  function Queried(p: Client, ok: bool, answer: Option<User>): Client
    requires p.Asking? || p.Missed?
  {
    if !ok then Idle else if p.Asking? then Found(p.q, answer) else Holding(p.id, answer)
  }

  lemma QueryMoves(s: World, c: nat, p: Client, ok: bool)
    requires c < |s.clients| && p == s.clients[c] && (p.Asking? || p.Missed?)
    ensures ReadStep(s, Query(c, ok), c, p) == Move(s, c, Queried(p, ok, AnswerTo(s.rows, p.q))).(cache := s.cache, index := s.index)
  {
  }

  lemma QueryStepKnown(s: World, c: nat, p: Client, ok: bool)
    requires Inv(s) && c < |s.clients| && p == s.clients[c] && (p.Asking? || p.Missed?)
    ensures Known(ReadStep(s, Query(c, ok), c, p))
  {
    assert ClientOk(s, p);
    if AnswerTo(s.rows, p.q).Some? {
      AnswerKnown(s, p.q);
    }
    MoveOk(s, c, Queried(p, ok, AnswerTo(s.rows, p.q)), s.cache, s.index);
    QueryMoves(s, c, p, ok);
  }

  lemma ReadRowStepKnown(s: World, c: nat, id: int, change: Change)
    requires Known(s) && c < |s.clients| && s.clients[c].Idle?
    ensures Known(ReadStep(s, ReadRow(c, id, change), c, Idle))
  {
    if Live(s.rows, id).Some? {
      LiveKnown(s, id);
      MoveOk(s, c, Ready(change, Live(s.rows, id).value), s.cache, s.index);
    }
  }

  lemma ReadStepInv(s: World, a: Act, c: nat, p: Client)
    requires Inv(s) && c < |s.clients| && p == s.clients[c]
    ensures Inv(ReadStep(s, a, c, p))
  {
    assert ClientOk(s, p);
    match (a, p)
    case (CacheGet(_, id, ok), Idle) => MoveOk(s, c, Missed(id, ById(id)), s.cache, s.index);
    case (IndexGet(_, q, ok), Idle) =>
      if !q.ById? {
        MoveOk(s, c, if ok && q in s.index && s.index[q].Some? then Following(s.index[q].value, q) else Asking(q), s.cache, s.index);
      }
    case (RowGet(_, ok), Following(id, q)) => MoveOk(s, c, if ok && id in s.cache then Idle else Missed(id, q), s.cache, s.index);
    case (Query(_, ok), Asking(q)) => QueryStepKnown(s, c, p, ok);
    case (Query(_, ok), Missed(id, q)) => QueryStepKnown(s, c, p, ok);
    case (IndexSet(_, ok), Found(q, got)) =>
      MoveOk(s, c, if got.Some? then Holding(got.value.id, got) else Idle, s.cache, if ok then Pointed(s.index, q, got) else s.index);
    case (CacheSet(_, ok), Holding(id, got)) =>
      MoveOk(s, c, Idle, if ok then Stored(s.cache, id, got) else s.cache, s.index);
    case (Leave(_), _) => MoveOk(s, c, Idle, s.cache, s.index);
    case (ReadRow(_, id, change), Idle) => ReadRowStepKnown(s, c, id, change);
    case _ =>
  }

  lemma NobodyStepKnown(s: World, a: Act)
    requires Known(s) && ByNobody(a)
    ensures Known(Step(s, a)) && Step(s, a).rows == s.rows
  {
    var next := Step(s, a);
    assert forall u :: Knows(s, u) <==> Knows(next, u);
    forall d | 0 <= d < |next.clients| ensures ClientOk(next, next.clients[d]) {
      ClientStaysOk(s, next, if d < |s.clients| then s.clients[d] else Idle);
    }
  }

  lemma StepInv(s: World, a: Act)
    requires Inv(s)
    ensures Inv(Step(s, a))
  {
    if ByNobody(a) {
      NobodyStepKnown(s, a);
    } else if IsWrite(a) {
      WriteStepKnown(s, a);
      WriteStepTable(s, a);
    } else if a.c < |s.clients| {
      ReadStepInv(s, a, a.c, s.clients[a.c]);
    }
  }

  /** Over every run: version histories, primary key and unique columns, and what clients and entries hold. */
  lemma {:induction false} RunInv(s: World, acts: seq<Act>)
    requires Inv(s)
    ensures Inv(Run(s, acts))
  {
    if acts != [] {
      RunInv(s, acts[..|acts| - 1]);
      StepInv(Run(s, acts[..|acts| - 1]), acts[|acts| - 1]);
    }
  }

  lemma ReadMoves(s: World, a: Act, c: nat, p: Client)
    requires c < |s.clients| && p == s.clients[c]
    ensures var next := ReadStep(s, a, c, p);
      && next.rows == s.rows && |next.clients| == |s.clients|
      && (forall d | 0 <= d < |s.clients| && d != c :: next.clients[d] == s.clients[d])
  {
  }

  /** A writer's call, or a call of nobody, leaves every client as it was or with nothing to store, and only removes entries. */
  lemma WriteMoves(s: World, a: Act)
    requires IsWrite(a) || ByNobody(a)
    ensures var next := Step(s, a);
      && (forall d | 0 <= d < |next.clients| ::
            (d < |s.clients| && next.clients[d] == s.clients[d]) || next.clients[d].Idle? || next.clients[d].Born? || next.clients[d].Dirty?)
      && (forall q | q in next.index :: q in s.index && next.index[q] == s.index[q])
      && (forall k | k in next.cache :: k in s.cache && next.cache[k] == s.cache[k])
  {
  }

  /** What a reader's call does to the entries. */
  lemma ReadEntries(s: World, a: Act, c: nat, p: Client)
    requires c < |s.clients| && p == s.clients[c]
    ensures var next := ReadStep(s, a, c, p);
      && next.rows == s.rows
      && (next.index == s.index || (p.Found? && next.index == Pointed(s.index, p.q, p.got)))
      && (next.cache == s.cache || (p.Holding? && next.cache == Stored(s.cache, p.id, p.got)))
  {
  }

  lemma WriteMovesOne(s: World, a: Act, c: nat, p: Client)
    requires c < |s.clients| && p == s.clients[c]
    ensures var next := WriteStep(s, a, c, p);
      |next.clients| == |s.clients| && forall d | 0 <= d < |s.clients| && d != c :: next.clients[d] == s.clients[d]
  {
  }

  /** A call of somebody else leaves a client where it is. */
  lemma OthersStay(s: World, a: Act, d: nat)
    requires ByNobody(a) || a.c != d
    ensures |s.clients| <= |Step(s, a).clients| && At(Step(s, a), d) == At(s, d)
  {
    if !ByNobody(a) && a.c < |s.clients| {
      if IsWrite(a) {
        WriteMovesOne(s, a, a.c, s.clients[a.c]);
      } else {
        ReadMoves(s, a, a.c, s.clients[a.c]);
      }
    }
  }

  lemma RunLast(s: World, acts: seq<Act>, a: Act)
    ensures Run(s, acts + [a]) == Step(Run(s, acts), a)
  {
    assert (acts + [a])[..|acts|] == acts;
  }

  lemma {:induction false} RunAppend(s: World, first: seq<Act>, later: seq<Act>)
    ensures Run(s, first + later) == Run(Run(s, first), later)
  {
    if later == [] {
      assert first + later == first;
    } else {
      var most, last := later[..|later| - 1], later[|later| - 1];
      assert first + later == (first + most) + [last];
      RunAppend(s, first, most);
      RunLast(s, first + most, last);
    }
  }

  lemma RunOne(s: World, a: Act)
    ensures Run(s, [a]) == Step(s, a)
  {
    RunLast(s, [], a);
    assert [] + [a] == [a];
  }
}
