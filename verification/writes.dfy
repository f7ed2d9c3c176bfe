/** The three writes of the user repository: what each does to the table and which cache keys it deletes. */
module Writes {
  import opened Wrappers
  import opened Users
  import opened Keys

  datatype Write = Create(user: User, autoId: int) | Update(user: User) | Remove(id: int)

  datatype Error = RecordNotFound | DuplicateKey | NoRowsUpdate | DatabaseDown | CacheDown

  /** A committed write deletes `keys` with the write itself and, for a create, `idKeys` in a second call. */
  datatype Written = Committed(rows: Table, id: int, keys: seq<string>, idKeys: seq<string>) | Refused(error: Error)

  /** The id a create inserts: the given one, or the next automatic one when none is given. */
  function NewId(u: User, autoId: int): int {
    if u.id != 0 then u.id else autoId
  }

  function Settle(r: Updated, id: int, keys: seq<string>, idKeys: seq<string>): Written {
    match r
    case NoRows => Refused(NoRowsUpdate)
    case Duplicate => Refused(DuplicateKey)
    case Affected(rows) => Committed(rows, id, keys, idKeys)
  }

  /** A write that no other client interleaves with. */
  function Apply(t: Table, w: Write): Written {
    match w
    case Create(u, autoId) =>
      var id := NewId(u, autoId);
      Settle(Insert(t, u, id), id, UniqueKeys(u), IdKeys(id))
    case Update(u) =>
      match First(t, ById(u.id)) {
        case None => Refused(RecordNotFound)
        case Some(was) =>
          Settle(EditWhere(t, u.id, was.version, u), u.id, ModelKeys(was) + ModelKeys(u.(id := was.id)), [])
      }
    case Remove(id) =>
      match First(t, ById(id)) {
        case None => Refused(RecordNotFound)
        case Some(was) => Settle(EraseWhere(t, id, was.version), id, ModelKeys(was), [])
      }
  }

  /** `rows` differs from `t` at most in the row of `id`. */
  ghost predicate Replaces(t: Table, rows: Table, id: int) {
    id in rows && id != 0 && rows == t[id := rows[id]] && rows[id].id == id
  }

  lemma TakenOnly(t: Table, id: int, u: User)
    requires TableOk(t) && id != 0 && u.id == id && !Taken(t, id, u.username, u.email)
    ensures TableOk(t[id := u])
  {
    var rows := t[id := u];
    forall j, k | j in rows && k in rows && (rows[j].username == rows[k].username || rows[j].email == rows[k].email)
      ensures j == k
    {
    }
  }

  /** Every committed write replaces one row and keeps the table's keys and unique columns intact. */
  lemma ApplyKeepsTable(t: Table, w: Write)
    requires TableOk(t) && Apply(t, w).Committed?
    ensures TableOk(Apply(t, w).rows) && Replaces(t, Apply(t, w).rows, Apply(t, w).id)
  {
    match w
    case Create(u, autoId) =>
      var id := NewId(u, autoId);
      TakenOnly(t, id, u.(id := id, deleted := false));
    case Update(u) =>
      FirstSome(t, ById(u.id));
      TakenOnly(t, u.id, Apply(t, w).rows[u.id]);
    case Remove(id) =>
      FirstSome(t, ById(id));
      assert !Taken(t, id, t[id].username, t[id].email);
      TakenOnly(t, id, Apply(t, w).rows[id]);
  }

  /** Replacing one row changes the answer of those lookups only that find the old or the new row. */
  lemma OnlyThisRow(t: Table, rows: Table, id: int, q: Query)
    requires TableOk(t) && TableOk(rows) && id in rows && rows == t[id := rows[id]]
    requires id in t && !t[id].deleted ==> !Matches(t[id], q)
    requires !rows[id].deleted ==> !Matches(rows[id], q)
    ensures First(t, q) == First(rows, q)
  {
    if First(t, q).Some? {
      FirstSome(t, q);
      FirstIs(rows, q, First(t, q).value);
    } else if First(rows, q).Some? {
      FirstSome(rows, q);
      FirstIs(t, q, First(rows, q).value);
    }
  }

  lemma EditedRow(t: Table, u: User)
    requires TableOk(t) && Apply(t, Update(u)).Committed?
    ensures var done := Apply(t, Update(u));
      && u.id != 0 && u.id in t && t[u.id].id == u.id && u.id in done.rows && done.id == u.id && done.idKeys == []
      && (forall q :: Matches(done.rows[u.id], q) <==> Matches(u, q))
      && done.keys == ModelKeys(t[u.id]) + ModelKeys(u)
  {
    FirstSome(t, ById(u.id));
    assert u.(id := t[u.id].id) == u;
  }

  lemma EditedKeys(t: Table, u: User, q: Query)
    requires TableOk(t) && Apply(t, Update(u)).Committed?
    ensures var done := Apply(t, Update(u));
      && u.id in t && u.id in done.rows && done.id == u.id && done.idKeys == []
      && (Key(q) in done.keys <==> Tracked(q) && (Matches(done.rows[u.id], q) || Matches(t[u.id], q)))
  {
    EditedRow(t, u);
    ModelKeysAre(t[u.id], q);
    ModelKeysAre(u, q);
  }

  lemma RemovedKeys(t: Table, id: int, q: Query)
    requires TableOk(t) && Apply(t, Remove(id)).Committed?
    ensures var done := Apply(t, Remove(id));
      && id in t && id in done.rows && done.id == id && done.idKeys == []
      && (Key(q) in done.keys <==> Tracked(q) && Matches(t[id], q))
      && (Matches(done.rows[id], q) <==> Matches(t[id], q))
  {
    FirstSome(t, ById(id));
    ModelKeysAre(t[id], q);
  }

  lemma CreatedKeys(t: Table, u: User, autoId: int, q: Query)
    requires TableOk(t) && Apply(t, Create(u, autoId)).Committed?
    ensures var done := Apply(t, Create(u, autoId));
      && done.id in done.rows
      && (Key(q) in done.keys || Key(q) in done.idKeys <==> Tracked(q) && Matches(done.rows[done.id], q))
  {
    var id := NewId(u, autoId);
    var row := u.(id := id, deleted := false);
    ModelKeysAre(row, q);
    assert UniqueKeys(u) == UniqueKeys(row);
  }

  /** The keys a committed write deletes: those of the tracked lookups that find the row as it was or as it is now. */
  lemma DeletedKeys(t: Table, w: Write, q: Query)
    requires TableOk(t) && Apply(t, w).Committed?
    ensures var done := Apply(t, w);
      done.id in done.rows &&
      (Key(q) in done.keys || Key(q) in done.idKeys <==>
       Tracked(q) && (Matches(done.rows[done.id], q) || (!w.Create? && done.id in t && Matches(t[done.id], q))))
  {
    match w
    case Create(u, autoId) => CreatedKeys(t, u, autoId, q);
    case Update(u) => EditedKeys(t, u, q);
    case Remove(id) => RemovedKeys(t, id, q);
  }

  /** A committed write changes the answer of those lookups only that find the row as it was or as it is now. */
  lemma ChangesOnly(t: Table, w: Write, q: Query)
    requires TableOk(t) && Apply(t, w).Committed?
    ensures var done := Apply(t, w);
      done.id in done.rows &&
      (Matches(done.rows[done.id], q) || (done.id in t && Matches(t[done.id], q)) || First(t, q) == First(done.rows, q))
  {
    var done := Apply(t, w);
    ApplyKeepsTable(t, w);
    if !Matches(done.rows[done.id], q) && (done.id !in t || !Matches(t[done.id], q)) {
      OnlyThisRow(t, done.rows, done.id, q);
    }
  }

  /** The lookups whose answer a committed write changes are covered by the keys it deletes exactly if they are tracked. */
  lemma Coverage(t: Table, w: Write, q: Query)
    requires TableOk(t) && Apply(t, w).Committed?
    requires First(t, q) != First(Apply(t, w).rows, q)
    ensures Key(q) in Apply(t, w).keys || Key(q) in Apply(t, w).idKeys <==> Tracked(q)
  {
    DeletedKeys(t, w, q);
    ChangesOnly(t, w, q);
  }

  /** An update on its own rewrites the named columns of a live row and nothing else, unless another row has the new username or email. */
  lemma UpdateExactly(t: Table, u: User)
    requires TableOk(t)
    ensures var done := Apply(t, Update(u));
      && (done == Refused(RecordNotFound) <==> !LiveIn(t, u.id))
      && (done == Refused(DuplicateKey) <==> LiveIn(t, u.id) && Taken(t, u.id, u.username, u.email))
      && (done.Committed? <==> LiveIn(t, u.id) && !Taken(t, u.id, u.username, u.email))
      && (done.Committed? ==>
            var was := t[u.id];
            done.rows == t[u.id := User(u.id, u.username, u.email, u.profile, was.version + 1, false)])
  {
    if LiveIn(t, u.id) {
      FirstIs(t, ById(u.id), t[u.id]);
    }
    if First(t, ById(u.id)).Some? {
      FirstSome(t, ById(u.id));
    }
  }

  /** A removal on its own hides a live row from every lookup and keeps all others. */
  lemma RemoveExactly(t: Table, id: int, q: Query)
    requires TableOk(t)
    ensures var done := Apply(t, Remove(id));
      && (done == Refused(RecordNotFound) <==> !LiveIn(t, id))
      && (done.Committed? <==> LiveIn(t, id))
      && (done.Committed? ==>
            done.rows == t[id := t[id].(deleted := true, version := t[id].version + 1)] &&
            First(done.rows, q) == if First(t, q) == Some(t[id]) then None else First(t, q))
  {
    if LiveIn(t, id) {
      FirstIs(t, ById(id), t[id]);
      var rows := Apply(t, Remove(id)).rows;
      ApplyKeepsTable(t, Remove(id));
      if First(t, q).Some? {
        FirstSome(t, q);
        FirstIs(rows, q, First(t, q).value);
      }
      if First(rows, q).Some? {
        FirstSome(rows, q);
        FirstIs(t, q, First(rows, q).value);
      }
    } else if First(t, ById(id)).Some? {
      FirstSome(t, ById(id));
    }
  }
}
