/** Cache keys of the users table (user_cache.go). */
module Keys {
  import opened Wrappers
  import opened Users
  import Decimal
  import Codec

  const ID_PREFIX := "cache:users:id:"
  const USERNAME_PREFIX := "cache:users:username:"
  const EMAIL_PREFIX := "cache:users:email:"

  /** What a cache holds for "the database has no such live row". */
  const NOT_FOUND := "*"

  /** The key under which the answer to a lookup is cached. */
  function Key(q: Query): string {
    match q
    case ById(id) => ID_PREFIX + Decimal.Int(id)
    case ByUsername(username) => USERNAME_PREFIX + username
    case ByEmail(email) => EMAIL_PREFIX + email
  }

  /** The thirteenth character of a key tells its kind. */
  lemma KindOfKey(q: Query)
    ensures |Key(q)| > 12
    ensures Key(q)[12] == match q { case ById(_) => 'i' case ByUsername(_) => 'u' case ByEmail(_) => 'e' }
  {
    assert ID_PREFIX[12] == 'i' && USERNAME_PREFIX[12] == 'u' && EMAIL_PREFIX[12] == 'e';
  }

  lemma AfterPrefix(prefix: string, a: string, b: string)
    requires prefix + a == prefix + b
    ensures a == b
  {
    assert a == (prefix + a)[|prefix|..] && b == (prefix + b)[|prefix|..];
  }

  /** Different lookups never share a key. */
  lemma KeyInjective(a: Query, b: Query)
    requires Key(a) == Key(b)
    ensures a == b
  {
    KindOfKey(a);
    KindOfKey(b);
    match a
    case ById(i) =>
      AfterPrefix(ID_PREFIX, Decimal.Int(i), Decimal.Int(b.id));
      Decimal.IntRoundTrip(i);
      Decimal.IntRoundTrip(b.id);
    case ByUsername(username) => AfterPrefix(USERNAME_PREFIX, username, b.username);
    case ByEmail(email) => AfterPrefix(EMAIL_PREFIX, email, b.email);
  }

  lemma KeyOnly(q: Query)
    ensures forall other | Key(other) == Key(q) :: other == q
  {
    forall other | Key(other) == Key(q) ensures other == q {
      KeyInjective(other, q);
    }
  }

  /** A key, an encoded row and the not-found placeholder are told apart by their bytes, and none is empty. */
  lemma KindsOfEntry(q: Query, u: User)
    ensures Key(q) != "" && Key(q) != NOT_FOUND && Codec.Decode(Key(q)) == None
    ensures Codec.Encode(u) != "" && Codec.Encode(u) != NOT_FOUND && Codec.Decode(Codec.Encode(u)) == Some(u)
    ensures Codec.Decode(NOT_FOUND) == None
    ensures Codec.Encode(u) != Key(q)
  {
    assert Key(q)[0] == 'c';
    Codec.DecodeEncode(u);
  }

  datatype UniqueIndex = UsernameIndex | EmailIndex

  const UNIQUE_INDEXES := [UsernameIndex, EmailIndex]

  function Column(index: UniqueIndex, u: User): string {
    match index
    case UsernameIndex => u.username
    case EmailIndex => u.email
  }

  function IndexQuery(index: UniqueIndex, value: string): Query {
    match index
    case UsernameIndex => ByUsername(value)
    case EmailIndex => ByEmail(value)
  }

  function IndexKeys(index: UniqueIndex, u: User): seq<string> {
    if Column(index, u) == "" then [] else [Key(IndexQuery(index, Column(index, u)))]
  }

  function UniqueKeys(u: User): seq<string> {
    IndexKeys(UsernameIndex, u) + IndexKeys(EmailIndex, u)
  }

  function IdKeys(id: int): seq<string> {
    if id > 0 then [Key(ById(id))] else []
  }

  function ModelKeys(u: User): seq<string> {
    IdKeys(u.id) + UniqueKeys(u)
  }

  /** The lookups whose cached answers the repository takes care to invalidate. */
  predicate Tracked(q: Query) {
    match q
    case ById(id) => id >= 0
    case ByUsername(username) => username != ""
    case ByEmail(email) => email != ""
  }

  /** The keys of a stored row are exactly the keys of the tracked lookups that find it. */
  lemma ModelKeysAre(u: User, q: Query)
    requires u.id != 0
    ensures Key(q) in ModelKeys(u) <==> Tracked(q) && Matches(u, q)
    ensures Key(q) in UniqueKeys(u) || Key(q) in IdKeys(u.id) <==> Tracked(q) && Matches(u, q)
  {
    KeyOnly(q);
    assert forall k :: k in ModelKeys(u) <==> k in IdKeys(u.id) || k in UniqueKeys(u);
    assert Key(q) in UniqueKeys(u) <==>
      (u.username != "" && q == ByUsername(u.username)) || (u.email != "" && q == ByEmail(u.email));
  }

  method ModelUniqueCacheKeys(u: User) returns (keys: seq<string>)
    ensures keys == UniqueKeys(u)
    ensures keys == (if u.username == "" then [] else ["cache:users:username:" + u.username]) + (if u.email == "" then [] else ["cache:users:email:" + u.email])
  {
    keys := [];
    for i := 0 to |UNIQUE_INDEXES|
      invariant i == 0 ==> keys == []
      invariant i == 1 ==> keys == IndexKeys(UsernameIndex, u)
      invariant i == 2 ==> keys == UniqueKeys(u)
    {
      var index := UNIQUE_INDEXES[i];
      var value := Column(index, u);
      if value != "" {
        keys := keys + [Key(IndexQuery(index, value))];
      }
    }
  }

  method ModelCacheKeys(u: User) returns (keys: seq<string>)
    ensures keys == ModelKeys(u)
    ensures keys == (if u.id > 0 then ["cache:users:id:" + Decimal.Int(u.id)] else []) + UniqueKeys(u)
  {
    keys := [];
    if u.id > 0 {
      keys := keys + [Key(ById(u.id))];
    }
    var unique := ModelUniqueCacheKeys(u);
    keys := keys + unique;
  }
}
