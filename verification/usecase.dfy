/** The user operations above the repository (biz/user.go), one whole operation at a time. */
module UserUsecases {
  import opened Wrappers
  import opened Users
  import opened Keys
  import opened Cache
  import opened CachedDatabase
  import opened Writes
  import opened UserRepository
  import opened Refinement

  datatype RegisterReply = TooManyRequests | UsernameExists | Registered(id: int) | NotRegistered(error: Error)

  /** The calls of one registration. */
  datatype RegisterLinks = RegisterLinks(lockUp: bool, error: Option<string>, il: IndexLinks, l: TakeLinks, up: bool, del: Link, delId: Link)

  function LockKey(username: string): string {
    "lock:register:" + username
  }

  /** Different usernames have different locks. */
  lemma LockKeyInjective(a: string, b: string)
    requires LockKey(a) == LockKey(b)
    ensures a == b
  {
    AfterPrefix("lock:register:", a, b);
  }

  /** The locks of registrations of these usernames. */
  function LocksOf(names: set<string>): set<string> {
    set n | n in names :: LockKey(n)
  }

  lemma LockedExactly(names: set<string>, username: string)
    ensures LockKey(username) in LocksOf(names) <==> username in names
  {
    forall n | n in names && LockKey(n) == LockKey(username) ensures n == username {
      LockKeyInjective(n, username);
    }
  }

  /** A registration that holds the lock; any failure of the lookup counts as "free". */
  function RegisterLocked(s: System, u: User, autoId: int, k: RegisterLinks): (System, RegisterReply) {
    var seen := Lookup(s, ByUsername(u.username), k.error, k.il, k.l);
    if seen.reply.Found? then (s.(cache := seen.state), UsernameExists)
    else
      var (next, reply) := Change(s.(cache := seen.state), Create(u, autoId), k.up, k.del, k.delId);
      match reply
      case Wrote(id) => (next, Registered(id))
      case NotWritten(e) => (next, NotRegistered(e))
  }

  /** The table takes a new row with this id, username and email. */
  predicate Takes(t: Table, u: User, id: int) {
    id != 0 && id !in t && !Taken(t, id, u.username, u.email)
  }

  /** In any state: when a registration stores a row, when it reports that, and when it stores one and reports an error. */
  lemma RegisterOutcome(s: System, u: User, autoId: int, k: RegisterLinks)
    ensures var (next, reply) := RegisterLocked(s, u, autoId, k);
      var id := NewId(u, autoId);
      var stored := !Lookup(s, ByUsername(u.username), k.error, k.il, k.l).reply.Found? && k.up && Takes(s.rows, u, id);
      && next.rows == (if stored then s.rows[id := u.(id := id, deleted := false)] else s.rows)
      && (reply == Registered(id) <==> stored && !(id > 0 && k.delId.Errored?))
      && (reply == NotRegistered(CacheDown) <==> stored && id > 0 && k.delId.Errored?)
      && (reply.Registered? ==> reply.id == id)
  {
    var id := NewId(u, autoId);
    assert id > 0 <==> IdKeys(id) != [];
  }

  /**
   A registration on its own, from a healthy state and whatever its calls suffer, stores the row
   exactly when the database is up and no row, deleted ones included, has the id, username or
   email. A live owner of the username is reported as such; with a failing lookup the unique
   index still refuses a taken name.
   */
  lemma RegisterExactly(s: System, u: User, autoId: int, k: RegisterLinks)
    requires Healthy(s) && u.username != ""
    ensures var (next, reply) := RegisterLocked(s, u, autoId, k);
      var id := NewId(u, autoId);
      && next.rows == (if k.up && Takes(s.rows, u, id) then s.rows[id := u.(id := id, deleted := false)] else s.rows)
      && (reply == Registered(id) <==> k.up && Takes(s.rows, u, id) && !(id > 0 && k.delId.Errored?))
      && (reply == UsernameExists ==> First(s.rows, ByUsername(u.username)).Some?)
      && (k.error.None? ==> (reply == UsernameExists <==> First(s.rows, ByUsername(u.username)).Some?))
      && (id >= 0 && k.del.Done? && k.delId.Done? ==> Healthy(next))
  {
    var q := ByUsername(u.username);
    var seen := Lookup(s, q, k.error, k.il, k.l);
    StepHealthy(s, Read(q, k.error, k.il, k.l));
    if First(s.rows, q).Some? {
      FirstSome(s.rows, q);
    }
    RegisterOutcome(s, u, autoId, k);
    var mid := s.(cache := seen.state);
    if !seen.reply.Found? && k.del.Done? && k.delId.Done? && NewId(u, autoId) >= 0 {
      StepHealthy(mid, Modify(Create(u, autoId), k.up, k.del, k.delId));
    }
  }

  class UserUsecase {
    const repo: UserRepo
    /** Lock keys held by registrations under way. */
    var locks: set<string>

    constructor (repo: UserRepo)
      ensures this.repo == repo && locks == {}
    {
      this.repo := repo;
      locks := {};
    }

    method Register(u: User, autoId: int, k: RegisterLinks) returns (reply: RegisterReply)
      modifies `locks, repo.cdb`rows, repo.cdb`retries, repo.cdb.cache`store, repo.cdb.cache.collector
      ensures locks == old(locks)
      ensures if !k.lockUp || LockKey(u.username) in old(locks) then reply == TooManyRequests && repo.Now() == old(repo.Now())
              else (repo.Now(), reply) == RegisterLocked(old(repo.Now()), u, autoId, k)
      ensures forall names :: old(locks) == LocksOf(names) ==> (reply == TooManyRequests <==> !k.lockUp || u.username in names)
    {
      var key := LockKey(u.username);
      forall names ensures key in LocksOf(names) <==> u.username in names {
        LockedExactly(names, u.username);
      }
      if !k.lockUp || key in locks {
        return TooManyRequests;
      }
      locks := locks + {key};
      var existing := repo.GetUserByUniqueIndex(UsernameIndex, u.username, k.error, k.il, k.l);
      if existing.Found? {
        reply := UsernameExists;
      } else {
        var created := repo.CreateUser(u, autoId, k.up, k.del, k.delId);
        match created
        case Wrote(id) => reply := Registered(id);
        case NotWritten(e) => reply := NotRegistered(e);
      }
      locks := locks - {key};
    }
  }
}
