/** The user repository over the cached database (user_repo.go), one whole operation at a time. */
module UserRepository {
  import opened Wrappers
  import opened Users
  import opened Keys
  import opened Cache
  import opened CachedDatabase
  import opened Writes

  datatype System = System(rows: Table, cache: State)

  /** The answer of the database itself, or the error it failed with. */
  function Ask(t: Table, q: Query, error: Option<string>): Reply {
    match error
    case Some(e) => Failed(e)
    case None =>
      match First(t, q)
      case None => NotFound
      case Some(u) => Found(u)
  }

  function Lookup(s: System, q: Query, error: Option<string>, il: IndexLinks, l: TakeLinks): Outcome {
    if q.ById? then ReadThrough(s.cache, Key(q), Ask(s.rows, q, error), l)
    else ReadThroughIndex(s.cache, Key(q), Ask(s.rows, q, error), il, l)
  }

  /** What a write reports; a create whose second deletion fails reports that although the row is stored. */
  datatype WriteReply = Wrote(id: int) | NotWritten(error: Error)

  function Attempt(t: Table, w: Write, up: bool): Written {
    if up then Apply(t, w) else Refused(DatabaseDown)
  }

  /** A write with the fate of its one or two deletions. */
  function Change(s: System, w: Write, up: bool, del: Link, delId: Link): (System, WriteReply) {
    match Attempt(s.rows, w, up)
    case Refused(e) => (s, NotWritten(e))
    case Committed(rows, id, keys, idKeys) =>
      var store := Del(s.cache.store, keys, del);
      if idKeys == [] then (System(rows, s.cache.(store := store)), Wrote(id))
      else
        (System(rows, s.cache.(store := Del(store, idKeys, delId))),
         if DelFails(idKeys, delId) then NotWritten(CacheDown) else Wrote(id))
  }

  /** The deletion that goes on in the background after a write: of the write's own keys, when their deletion ended in a Redis error. */
  function Started(t: Table, w: Write, up: bool, del: Link): seq<seq<string>> {
    var done := Attempt(t, w, up);
    if done.Committed? && DelFails(done.keys, del) then [done.keys] else []
  }

  /** The keys deleted with the write, per kind of write. */
  lemma WrittenKeys(t: Table, w: Write, up: bool)
    requires Attempt(t, w, up).Committed?
    ensures match w {
      case Create(u, _) => Attempt(t, w, up).keys == UniqueKeys(u)
      case Update(u) => First(t, ById(u.id)).Some? &&
        var was := First(t, ById(u.id)).value; Attempt(t, w, up).keys == ModelKeys(was) + ModelKeys(u.(id := was.id))
      case Remove(id) => First(t, ById(id)).Some? && Attempt(t, w, up).keys == ModelKeys(First(t, ById(id)).value)
    }
  {
  }

  /** A background deletion is started exactly if the write committed, has keys, and their deletion ended in a Redis error; it is of these keys. */
  lemma StartedExactly(t: Table, w: Write, up: bool, del: Link)
    ensures var done := Attempt(t, w, up);
      && (Started(t, w, up, del) != [] <==> done.Committed? && done.keys != [] && del == Errored)
      && (Started(t, w, up, del) != [] ==> Started(t, w, up, del) == [done.keys])
  {
  }

  /** What each write that changes nothing reports, and when. */
  lemma RefusedExactly(s: System, w: Write, up: bool, del: Link, delId: Link)
    requires TableOk(s.rows)
    ensures var reply := Change(s, w, up, del, delId).1;
      var missing := match w { case Create(_, _) => false case Update(u) => !LiveIn(s.rows, u.id) case Remove(id) => !LiveIn(s.rows, id) };
      var clash := match w {
        case Create(u, autoId) => NewId(u, autoId) == 0 || NewId(u, autoId) in s.rows || Taken(s.rows, NewId(u, autoId), u.username, u.email)
        case Update(u) => Taken(s.rows, u.id, u.username, u.email)
        case Remove(_) => false
      };
      && (reply == NotWritten(DatabaseDown) <==> !up)
      && (reply == NotWritten(RecordNotFound) <==> up && missing)
      && (reply == NotWritten(DuplicateKey) <==> up && !missing && clash)
      && reply != NotWritten(NoRowsUpdate)
      && (reply.Wrote? || reply == NotWritten(CacheDown) <==> up && !missing && !clash)
  {
    match w
    case Create(_, _) =>
    case Update(u) => UpdateExactly(s.rows, u);
    case Remove(id) => RemoveExactly(s.rows, id, ById(id));
  }

  /**
   A write reports an error although it has changed the table exactly if it is a create that
   commits, the new id is positive and the deletion of its id key ends in a Redis error.
   */
  lemma StoredButReportedExactly(s: System, w: Write, up: bool, del: Link, delId: Link)
    ensures var (next, reply) := Change(s, w, up, del, delId);
      reply.NotWritten? && next.rows != s.rows <==>
      && w.Create? && up && delId.Errored?
      && var id := NewId(w.user, w.autoId);
         id > 0 && id !in s.rows && !Taken(s.rows, id, w.user.username, w.user.email)
  {
    if w.Create? {
      var id := NewId(w.user, w.autoId);
      assert id > 0 ==> IdKeys(id) != [];
    }
  }

  class UserRepo {
    const cdb: CachedDB

    constructor (cdb: CachedDB)
      ensures this.cdb == cdb
    {
      this.cdb := cdb;
    }

    function Now(): System
      reads cdb, cdb.cache, cdb.cache.collector
    {
      System(cdb.rows, cdb.cache.Now())
    }

    method GetUserByID(id: int, error: Option<string>, l: TakeLinks) returns (reply: Reply)
      modifies cdb.cache`store, cdb.cache.collector
      ensures Outcome(cdb.cache.Now(), reply) ==
        Lookup(old(Now()), ById(id), error, IndexLinks(Done, Done, Done), l)
    {
      var rows := cdb.rows;
      reply := cdb.QueryRow(Key(ById(id)), () => Ask(rows, ById(id), error), l);
    }

    method GetUserByUniqueIndex(index: UniqueIndex, value: string, error: Option<string>, il: IndexLinks, l: TakeLinks)
      returns (reply: Reply)
      modifies cdb.cache`store, cdb.cache.collector
      ensures Outcome(cdb.cache.Now(), reply) ==
        Lookup(old(Now()), if index == UsernameIndex then ByUsername(value) else ByEmail(value), error, il, l)
    {
      var rows := cdb.rows;
      var q := IndexQuery(index, value);
      reply := cdb.QueryRowIndex(Key(q), () => Ask(rows, q, error), il, l);
    }

    method CreateUser(u: User, autoId: int, up: bool, del: Link, delId: Link) returns (reply: WriteReply)
      modifies cdb`rows, cdb`retries, cdb.cache`store
      ensures (Now(), reply) == Change(old(Now()), Create(u, autoId), up, del, delId)
      ensures cdb.retries == old(cdb.retries) + Started(old(cdb.rows), Create(u, autoId), up, del)
    {
      var keys := ModelUniqueCacheKeys(u);
      var rows := cdb.rows;
      var done := cdb.Exec(() => Attempt(rows, Create(u, autoId), up), keys, del);
      match done
      case Refused(e) =>
        return NotWritten(e);
      case Committed(_, id, _, _) =>
        if id > 0 {
          var failed := cdb.cache.CacheDel([Key(ById(id))], delId);
          if failed {
            return NotWritten(CacheDown);
          }
        }
        return Wrote(id);
    }

    method UpdateUser(u: User, up: bool, del: Link) returns (reply: WriteReply)
      modifies cdb`rows, cdb`retries, cdb.cache`store
      ensures (Now(), reply) == Change(old(Now()), Update(u), up, del, Done)
      ensures cdb.retries == old(cdb.retries) + Started(old(cdb.rows), Update(u), up, del)
    {
      if !up {
        return NotWritten(DatabaseDown);
      }
      var rows := cdb.rows;
      var found := First(rows, ById(u.id));
      if found.None? {
        return NotWritten(RecordNotFound);
      }
      var was := found.value;
      var oldKeys := ModelCacheKeys(was);
      var newKeys := ModelCacheKeys(u.(id := was.id));
      var done := cdb.Exec(() => Settle(EditWhere(rows, u.id, was.version, u), u.id, oldKeys + newKeys, []), oldKeys + newKeys, del);
      match done
      case Refused(e) => return NotWritten(e);
      case Committed(_, _, _, _) => return Wrote(u.id);
    }

    method DeleteUser(id: int, up: bool, del: Link) returns (reply: WriteReply)
      modifies cdb`rows, cdb`retries, cdb.cache`store
      ensures (Now(), reply) == Change(old(Now()), Remove(id), up, del, Done)
      ensures cdb.retries == old(cdb.retries) + Started(old(cdb.rows), Remove(id), up, del)
    {
      if !up {
        return NotWritten(DatabaseDown);
      }
      var rows := cdb.rows;
      var found := First(rows, ById(id));
      if found.None? {
        return NotWritten(RecordNotFound);
      }
      var was := found.value;
      var keys := ModelCacheKeys(was);
      var done := cdb.Exec(() => Settle(EraseWhere(rows, id, was.version), id, keys, []), keys, del);
      match done
      case Refused(e) => return NotWritten(e);
      case Committed(_, _, _, _) => return Wrote(id);
    }
  }
}
