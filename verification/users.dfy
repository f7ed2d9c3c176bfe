/**
 The users table: rows, the three single-row lookups, the statements the repository sends,
 and the cache keys that belong to a row.
 */
module Users {
  import opened Wrappers

  datatype Profile = Profile(phone: string, nickname: string, avatar: string, status: int)

  datatype User = User(id: int, username: string, email: string, profile: Profile, version: int, deleted: bool)

  /** Rows by primary key; soft-deleted rows stay in the table. */
  type Table = map<int, User>

  datatype Query = ById(id: int) | ByUsername(username: string) | ByEmail(email: string)

  predicate Matches(u: User, q: Query) {
    match q
    case ById(id) => u.id == id
    case ByUsername(username) => u.username == username
    case ByEmail(email) => u.email == email
  }

  /** Primary key and unique columns; the unique indexes also cover soft-deleted rows. */
  ghost predicate TableOk(t: Table) {
    && (forall k | k in t :: t[k].id == k && k != 0)
    && (forall j, k | j in t && k in t && (t[j].username == t[k].username || t[j].email == t[k].email) :: j == k)
  }

  predicate LiveIn(t: Table, id: int) {
    id in t && !t[id].deleted
  }

  // -------- the lookups

  lemma {:induction false} LeastExists(ids: set<int>)
    requires ids != {}
    ensures exists k :: k in ids && forall j | j in ids :: k <= j
  {
    if forall x :: x !in ids {
      assert false;
    }
    var x :| x in ids;
    if ids != {x} {
      LeastExists(ids - {x});
      var y :| y in ids - {x} && forall j | j in ids - {x} :: y <= j;
      var least := if x < y then x else y;
      assert forall j | j in ids :: j == x || j in ids - {x};
      assert least in ids && forall j | j in ids :: least <= j;
    }
  }

  /** `WHERE column = ? AND del_state = 0 ORDER BY id LIMIT 1` */
  function First(t: Table, q: Query): Option<User> {
    var ids := set k | k in t && !t[k].deleted && Matches(t[k], q);
    if ids == {} then None
    else
      LeastExists(ids);
      var k :| k in ids && forall j | j in ids :: k <= j;
      Some(t[k])
  }

  ghost predicate IsAnswer(t: Table, q: Query, u: User) {
    u.id in t && t[u.id] == u && !u.deleted && Matches(u, q)
  }

  /** On a well-formed table a lookup finds the one live row that matches. */
  lemma FirstIs(t: Table, q: Query, u: User)
    requires TableOk(t)
    ensures First(t, q) == Some(u) <==> IsAnswer(t, q, u)
  {
    var ids := set k | k in t && !t[k].deleted && Matches(t[k], q);
    if IsAnswer(t, q, u) {
      assert u.id in ids;
      assert forall k | k in ids :: k == u.id;
    }
  }

  lemma FirstSome(t: Table, q: Query)
    requires TableOk(t) && First(t, q).Some?
    ensures IsAnswer(t, q, First(t, q).value)
  {
    FirstIs(t, q, First(t, q).value);
  }

  /** Lookups of the same row give the same answer, whichever column they use. */
  lemma SameRow(t: Table, q: Query)
    requires TableOk(t) && First(t, q).Some?
    ensures First(t, ById(First(t, q).value.id)) == First(t, q)
  {
    var u := First(t, q).value;
    FirstSome(t, q);
    FirstIs(t, ById(u.id), u);
  }

  // -------- the statements

  /** Another row already has this username or email. */
  predicate Taken(t: Table, id: int, username: string, email: string) {
    exists k | k in t :: k != id && (t[k].username == username || t[k].email == email)
  }

  datatype Updated = Affected(rows: Table) | NoRows | Duplicate

  function Insert(t: Table, u: User, id: int): Updated {
    if id == 0 || id in t || Taken(t, id, u.username, u.email) then Duplicate
    else Affected(t[id := u.(id := id, deleted := false)])
  }

  /** `UPDATE ... WHERE id = ? AND version = ?`: the condition does not mention del_state. */
  function EditWhere(t: Table, id: int, version: int, u: User): Updated {
    if id !in t || t[id].version != version then NoRows
    else if Taken(t, id, u.username, u.email) then Duplicate
    else Affected(t[id := t[id].(username := u.username, email := u.email, profile := u.profile, version := version + 1)])
  }

  function EraseWhere(t: Table, id: int, version: int): Updated {
    if id !in t || t[id].version != version then NoRows
    else Affected(t[id := t[id].(deleted := true, version := version + 1)])
  }
}
