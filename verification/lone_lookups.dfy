/** What a client is told by a lookup that nobody interferes with, one call after the other. */
module LoneLookups {
  import opened Wrappers
  import opened Users
  import opened Interleaving

  /** A lookup by id that hits is told the entry, whatever it is, and changes nothing. */
  lemma IdHit(s: World, c: nat, id: int)
    requires c < |s.clients| && s.clients[c] == Idle && id in s.cache
    ensures Reply(s, CacheGet(c, id, true)) == Row(s.cache[id]) && Step(s, CacheGet(c, id, true)) == s
  {
  }

  /** The answer to a column lookup: the live row with that value. */
  predicate Answers(t: Table, q: Query, got: Option<User>) {
    match got
    case Some(u) => u.id in t && t[u.id] == u && !u.deleted && Matches(u, q)
    case None => forall k | k in t :: t[k].deleted || !Matches(t[k], q)
  }

  lemma AnswersIt(t: Table, q: Query)
    requires TableOk(t)
    ensures Answers(t, q, First(t, q))
  {
    if First(t, q).Some? {
      FirstSome(t, q);
    } else {
      forall k | k in t ensures t[k].deleted || !Matches(t[k], q) {
        if !t[k].deleted && Matches(t[k], q) {
          FirstIs(t, q, t[k]);
        }
      }
    }
  }

  lemma AsksByColumn(s: World, c: nat, q: Query)
    requires c < |s.clients| && s.clients[c] == Idle && !q.ById? && q !in s.index
    ensures var asking := Step(s, IndexGet(c, q, true));
      && asking == Move(s, c, Asking(q))
      && Reply(asking, Query(c, true)) == Row(First(s.rows, q))
      && Step(asking, Query(c, true)) == Move(s, c, Found(q, First(s.rows, q)))
  {
  }

  lemma StoresByColumn(s: World, c: nat, q: Query, got: Option<User>)
    requires c < |s.clients| && s.clients[c] == Idle && q !in s.index
    ensures var stored := Step(Move(s, c, Found(q, got)), IndexSet(c, true));
      match got {
        case None => stored == s.(index := s.index[q := None])
        case Some(u) => Step(stored, CacheSet(c, true)) == s.(index := s.index[q := Some(u.id)], cache := s.cache[u.id := Some(u)])
      }
  {
    assert s.clients[c := Idle] == s.clients;
  }

  /** A lookup by a column without an entry is told the live row with that value, and leaves pointer and row, or the placeholder. */
  lemma ColumnMiss(s: World, c: nat, q: Query)
    requires TableOk(s.rows) && c < |s.clients| && s.clients[c] == Idle && !q.ById? && q !in s.index
    ensures var asking := Step(s, IndexGet(c, q, true));
      var found := Step(asking, Query(c, true));
      var stored := Step(found, IndexSet(c, true));
      var reply := Reply(asking, Query(c, true));
      && reply.Row? && Answers(s.rows, q, reply.got)
      && match reply.got {
           case None => stored == s.(index := s.index[q := None])
           case Some(u) => Step(stored, CacheSet(c, true)) == s.(index := s.index[q := Some(u.id)], cache := s.cache[u.id := Some(u)])
         }
  {
    AnswersIt(s.rows, q);
    AsksByColumn(s, c, q);
    StoresByColumn(s, c, q, First(s.rows, q));
  }

  /** One whose entry is the placeholder is told that there is none. */
  lemma ColumnPlaceholder(s: World, c: nat, q: Query)
    requires c < |s.clients| && s.clients[c] == Idle && !q.ById? && q in s.index && s.index[q] == None
    ensures Reply(s, IndexGet(c, q, true)) == Row(None) && Step(s, IndexGet(c, q, true)) == s
  {
  }

  /** One whose entry points to a cached row is told that row. */
  lemma ColumnHit(s: World, c: nat, q: Query, id: int)
    requires c < |s.clients| && s.clients[c] == Idle && !q.ById? && q in s.index && s.index[q] == Some(id) && id in s.cache
    ensures var following := Step(s, IndexGet(c, q, true));
      Reply(following, RowGet(c, true)) == Row(s.cache[id]) && Step(following, RowGet(c, true)) == s
  {
    assert s.clients[c := Idle] == s.clients;
  }

  lemma FollowsToMiss(s: World, c: nat, q: Query, id: int)
    requires c < |s.clients| && s.clients[c] == Idle && !q.ById?
    requires q in s.index && s.index[q] == Some(id) && id !in s.cache
    ensures Step(Step(s, IndexGet(c, q, true)), RowGet(c, true)) == Move(s, c, Missed(id, q))
  {
  }

  lemma StoresUnder(s: World, c: nat, id: int, q: Query)
    requires c < |s.clients| && s.clients[c] == Idle && id !in s.cache
    ensures var missed := Move(s, c, Missed(id, q));
      && Reply(missed, Query(c, true)) == Row(AnswerTo(s.rows, q))
      && Step(Step(missed, Query(c, true)), CacheSet(c, true)) == s.(cache := s.cache[id := AnswerTo(s.rows, q)])
  {
    assert s.clients[c := Idle] == s.clients;
  }

  /** One whose entry points to a row that is not cached is told the live row with the value, and leaves it under that id, be it that row or not. */
  lemma ColumnFollow(s: World, c: nat, q: Query, id: int)
    requires TableOk(s.rows) && c < |s.clients| && s.clients[c] == Idle && !q.ById?
    requires q in s.index && s.index[q] == Some(id) && id !in s.cache
    ensures var missed := Step(Step(s, IndexGet(c, q, true)), RowGet(c, true));
      var reply := Reply(missed, Query(c, true));
      && reply.Row? && Answers(s.rows, q, reply.got)
      && Step(Step(missed, Query(c, true)), CacheSet(c, true)) == s.(cache := s.cache[id := reply.got])
  {
    AnswersIt(s.rows, q);
    FollowsToMiss(s, c, q, id);
    StoresUnder(s, c, id, q);
  }

  /** One that misses is told the live row or that there is none, and leaves that behind. */
  lemma IdMiss(s: World, c: nat, id: int)
    requires c < |s.clients| && s.clients[c] == Idle && id !in s.cache
    ensures var missed := Step(s, CacheGet(c, id, true));
      var asked := Step(missed, Query(c, true));
      var row := if id in s.rows && !s.rows[id].deleted then Some(s.rows[id]) else None;
      && Reply(s, CacheGet(c, id, true)) == Silent
      && Reply(missed, Query(c, true)) == Row(row)
      && Step(asked, CacheSet(c, true)) == s.(cache := s.cache[id := row])
  {
    assert Step(s, CacheGet(c, id, true)) == Move(s, c, Missed(id, ById(id)));
    StoresUnder(s, c, id, ById(id));
  }
}
