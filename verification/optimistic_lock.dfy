/** What the version check guarantees over every interleaving. */
module OptimisticLock {
  import opened Users
  import opened Interleaving

  /** The row a successful write leaves behind. */
  function Rewritten(was: User, change: Change): User {
    match change
    case Edit(u) => was.(username := u.username, email := u.email, profile := u.profile, version := was.version + 1)
    case Erase => was.(deleted := true, version := was.version + 1)
  }

  /** The statements compare version numbers only, yet they match exactly if the whole row is the one read. */
  lemma WriteExactly(s: World, change: Change, was: User)
    requires Histories(s) && Knows(s, was)
    ensures var done := Write(s.rows, change, was);
      && (done.NoRows? <==> s.rows[was.id] != was)
      && (done.Duplicate? <==> s.rows[was.id] == was && change.Edit? && Taken(s.rows, was.id, change.user.username, change.user.email))
      && (done.Affected? ==> done.rows == s.rows[was.id := Rewritten(was, change)])
  {
    SameVersionSameRow(s, was);
  }

  /**
   No lost update: a conditional write goes through exactly on the whole row its client read,
   although it compares version numbers only; every other writer is told of a concurrent update.
   */
  lemma CommitReplacesWhatWasRead(s: World, c: nat)
    requires Known(s) && At(s, c).Ready?
    ensures var p, next, reply := At(s, c), Step(s, Commit(c, true)), Reply(s, Commit(c, true));
      && p.was.id in s.rows && p.was.id in s.past
      && (reply == ConcurrentUpdate <==> s.rows[p.was.id] != p.was)
      && (reply == Conflict <==>
            s.rows[p.was.id] == p.was && p.change.Edit? && Taken(s.rows, p.was.id, p.change.user.username, p.change.user.email))
      && (reply == Written || reply == Conflict || reply == ConcurrentUpdate)
      && (reply == Written ==>
            next.rows == s.rows[p.was.id := Rewritten(p.was, p.change)] &&
            next.past == s.past[p.was.id := s.past[p.was.id] + [Rewritten(p.was, p.change)]])
      && (reply != Written ==> next.rows == s.rows && next.past == s.past)
  {
    assert ClientOk(s, s.clients[c]);
    WriteExactly(s, At(s, c).change, At(s, c).was);
  }

  /** What one call does to a row that exists: nothing, or one new version. */
  ghost predicate RowStep(s: World, next: World, id: int, touched: bool)
    requires id in s.rows && id in s.past
  {
    && id in next.rows && id in next.past
    && if touched then
         !s.rows[id].deleted && next.rows[id].version == s.rows[id].version + 1 && next.past[id] == s.past[id] + [next.rows[id]]
       else
         next.rows[id] == s.rows[id] && next.past[id] == s.past[id]
  }

  /** Only a commit that goes through, and only a creation, touches a row or its versions. */
  lemma OthersTouchNothing(s: World, a: Act)
    requires !(a.Create? || (a.Commit? && a.ok && Reply(s, a) == Written))
    ensures Step(s, a).rows == s.rows && Step(s, a).past == s.past
  {
  }

  lemma CommitRow(s: World, c: nat, id: int)
    requires Known(s) && id in s.rows && id in s.past && At(s, c).Ready? && Reply(s, Commit(c, true)) == Written
    ensures RowStep(s, Step(s, Commit(c, true)), id, Touches(s, Commit(c, true), id))
  {
    CommitReplacesWhatWasRead(s, c);
    assert ClientOk(s, s.clients[c]);
  }

  lemma CreateRow(s: World, c: nat, user: User, newId: int, id: int)
    requires id in s.rows && id in s.past
    ensures RowStep(s, Step(s, Create(c, user, newId)), id, Touches(s, Create(c, user, newId), id))
  {
  }

  /** A call either leaves a row and its versions alone or adds exactly one version. */
  lemma StepRow(s: World, a: Act, id: int)
    requires Known(s) && id in s.rows && id in s.past
    ensures RowStep(s, Step(s, a), id, Touches(s, a, id))
  {
    if a.Create? {
      CreateRow(s, a.c, a.user, a.id, id);
    } else if a.Commit? && a.ok && Reply(s, a) == Written {
      CommitRow(s, a.c, id);
    } else {
      OthersTouchNothing(s, a);
    }
  }

  /** How often the row of `id` was committed anew. */
  function Commits(s: World, acts: seq<Act>, id: int): nat {
    if acts == [] then 0
    else
      var before := acts[..|acts| - 1];
      Commits(s, before, id) + if Touches(Run(s, before), acts[|acts| - 1], id) then 1 else 0
  }

  /** The version number counts the successful writes, and no committed version is ever dropped. */
  lemma {:induction false} VersionsCountCommits(s: World, acts: seq<Act>, id: int)
    requires Inv(s) && id in s.rows
    ensures var end := Run(s, acts);
      && id in end.rows && id in end.past
      && end.rows[id].version == s.rows[id].version + Commits(s, acts, id)
      && |end.past[id]| == |s.past[id]| + Commits(s, acts, id)
      && s.past[id] <= end.past[id]
  {
    RunInv(s, acts);
    if acts != [] {
      var before := acts[..|acts| - 1];
      VersionsCountCommits(s, before, id);
      RunInv(s, before);
      StepRow(Run(s, before), acts[|acts| - 1], id);
    }
  }

  /** The current row is the newest version, so as many versions mean the same row. */
  lemma SamePastSameRow(mid: World, end: World, id: int)
    requires Histories(mid) && Histories(end) && id in mid.past && id in end.past
    requires mid.past[id] <= end.past[id] && |mid.past[id]| == |end.past[id]|
    ensures id in mid.rows && id in end.rows && mid.rows[id] == end.rows[id]
  {
    assert mid.past[id] == end.past[id];
  }

  /** At any two moments, the same version number means the same row. */
  lemma VersionDeterminesRow(s: World, first: seq<Act>, later: seq<Act>, id: int)
    requires Inv(s) && id in Run(s, first).rows
    ensures id in Run(Run(s, first), later).rows
    ensures Run(s, first).rows[id].version == Run(Run(s, first), later).rows[id].version ==>
      Run(s, first).rows[id] == Run(Run(s, first), later).rows[id]
  {
    RunInv(s, first);
    var mid := Run(s, first);
    VersionsCountCommits(mid, later, id);
    RunInv(mid, later);
    if Commits(mid, later, id) == 0 {
      SamePastSameRow(mid, Run(mid, later), id);
    }
  }

  /** Deletion is final: whatever any client does later, a deleted row stays as it is. */
  lemma {:induction false} DeletionIsFinal(s: World, acts: seq<Act>, id: int)
    requires Inv(s) && id in s.rows && s.rows[id].deleted
    ensures id in Run(s, acts).rows && Run(s, acts).rows[id] == s.rows[id]
  {
    if acts != [] {
      var before := acts[..|acts| - 1];
      DeletionIsFinal(s, before, id);
      RunInv(s, before);
      StepRow(Run(s, before), acts[|acts| - 1], id);
    }
  }
}
