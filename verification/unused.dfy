/** There is always a row id, a username and an email that nobody has. */
module Unused {
  import opened Users

  lemma {:induction false} UnusedId(ids: set<int>) returns (id: int)
    ensures id > 0 && forall k | k in ids :: k < id
  {
    if forall k :: k !in ids {
      id := 1;
    } else {
      var k :| k in ids;
      var above := UnusedId(ids - {k});
      id := if k < above then above else k + 1;
      assert forall j | j in ids :: j == k || j in ids - {k};
    }
  }

  lemma {:induction false} LongerString(used: set<string>) returns (x: string)
    ensures forall y | y in used :: |y| < |x|
  {
    if forall y :: y !in used {
      x := "x";
    } else {
      var y :| y in used;
      var longer := LongerString(used - {y});
      x := if |y| < |longer| then longer else y + "x";
      assert forall z | z in used :: z == y || z in used - {y};
    }
  }

  lemma UnusedUsername(t: Table) returns (username: string)
    ensures forall k | k in t :: t[k].username != username
  {
    username := LongerString(set k | k in t :: t[k].username);
    assert forall k | k in t :: t[k].username in set j | j in t :: t[j].username;
  }

  lemma UnusedEmail(t: Table) returns (email: string)
    ensures forall k | k in t :: t[k].email != email
  {
    email := LongerString(set k | k in t :: t[k].email);
    assert forall k | k in t :: t[k].email in set j | j in t :: t[j].email;
  }

  /** A user for a column value that no row has. */
  lemma UserFor(t: Table, q: Query) returns (u: User)
    requires !q.ById? && forall k | k in t :: !Matches(t[k], q)
    ensures Matches(u, q) && u.id > 0 && u.id !in t && !u.deleted && !Taken(t, u.id, u.username, u.email)
  {
    var id := UnusedId(t.Keys);
    var username, email;
    if q.ByUsername? {
      username := q.username;
      email := UnusedEmail(t);
    } else {
      username := UnusedUsername(t);
      email := q.email;
    }
    u := User(id, username, email, Profile("", "", "", 0), 0, false);
    assert forall k | k in t :: t[k].username != username && t[k].email != email by {
      assert forall k | k in t :: !Matches(t[k], q);
    }
  }
}
