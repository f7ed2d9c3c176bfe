/** Which keys an interleaved write deletes, seen from the table it commits to. */
module InterleavedCoverage {
  import opened Users
  import opened Keys
  import opened Interleaving
  import opened OptimisticLock
  import Writes

  /** The keys a conditional write deletes: computed from the row its client read earlier, before other clients ran. */
  function CommitKeys(was: User, change: Change): seq<string> {
    match change
    case Edit(u) => ModelKeys(was) + ModelKeys(u.(id := was.id))
    case Erase => ModelKeys(was)
  }

  lemma CommitKeysAre(was: User, change: Change, q: Query)
    requires was.id != 0
    ensures Key(q) in CommitKeys(was, change) <==> Tracked(q) && (Matches(was, q) || Matches(Rewritten(was, change), q))
  {
    ModelKeysAre(was, q);
    if change.Edit? {
      ModelKeysAre(change.user.(id := was.id), q);
    }
  }

  /** The entries that the interleaved writer's deletion removes are those under its keys. */
  lemma PurgesItsKeys(was: User, change: Change, q: Query)
    requires was.id != 0
    ensures Key(q) in CommitKeys(was, change) <==> if q.ById? then q.id in PurgedIds(was.id) else q in ColumnsOf(was, change)
  {
    CommitKeysAre(was, change, q);
  }

  /** The same of the two deletions of a create. */
  lemma CreatePurgesItsKeys(u: User, id: int, q: Query)
    requires id != 0
    ensures Key(q) in UniqueKeys(u) || Key(q) in IdKeys(id) <==> if q.ById? then q.id in PurgedIds(id) else q in Columns(u)
  {
    ModelKeysAre(u.(id := id), q);
    assert UniqueKeys(u) == UniqueKeys(u.(id := id));
  }

  /** A commit changes the answer of those lookups only that find the row as it was read or as it is written. */
  lemma CommitChangesOnly(s: World, c: nat, q: Query)
    requires Inv(s) && At(s, c).Ready?
    ensures var p, rows := At(s, c), Step(s, Commit(c, true)).rows;
      Matches(p.was, q) || Matches(Rewritten(p.was, p.change), q) || First(s.rows, q) == First(rows, q)
  {
    var p, next := At(s, c), Step(s, Commit(c, true));
    CommitReplacesWhatWasRead(s, c);
    StepInv(s, Commit(c, true));
    if next.rows != s.rows && !Matches(p.was, q) && !Matches(Rewritten(p.was, p.change), q) {
      Writes.OnlyThisRow(s.rows, next.rows, p.was.id, q);
    }
  }

  /**
   Coverage under interleaving: whatever ran between a client's read and its conditional write,
   a lookup whose answer the write changes has its key among those deleted exactly if it is tracked.
   */
  lemma CommitCoverage(s: World, acts: seq<Act>, c: nat, q: Query)
    requires Inv(s)
    requires var now := Run(s, acts); At(now, c).Ready? && First(now.rows, q) != First(Step(now, Commit(c, true)).rows, q)
    ensures var p := At(Run(s, acts), c); Key(q) in CommitKeys(p.was, p.change) <==> Tracked(q)
  {
    RunInv(s, acts);
    var now := Run(s, acts);
    var p := At(now, c);
    assert ClientOk(now, now.clients[c]);
    CommitChangesOnly(now, c, q);
    CommitKeysAre(p.was, p.change, q);
  }
}
