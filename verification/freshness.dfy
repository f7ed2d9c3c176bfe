/** When a committed write settles the cache: exactly if no reader holds an older answer and no pointer misnames the row. */
module Freshness {
  import opened Wrappers
  import opened Users
  import opened Interleaving
  import opened OptimisticLock

  ghost predicate Current(s: World, id: int) {
    id in s.cache ==> s.cache[id] == Live(s.rows, id)
  }

  /** A deleted row still has this column value, so no other row will ever have it. */
  ghost predicate Retired(t: Table, q: Query) {
    exists k | k in t :: t[k].deleted && Matches(t[k], q)
  }

  /** A pointer from `q` to `id` is right: the row has that column value, or neither of them answers anything ever again. */
  ghost predicate Names(t: Table, id: int, q: Query) {
    id in t && if t[id].deleted then Retired(t, q) else Matches(t[id], q)
  }

  /** What a client is about to store under the key of `id`, or to query for it, is right. */
  ghost predicate CleanClient(t: Table, p: Client, id: int) {
    match p
    case Holding(j, got) => j == id ==> got == Live(t, id)
    case Found(_, got) => got.Some? && got.value.id == id ==> got == Live(t, id)
    case Following(j, q) => j == id ==> Names(t, id, q)
    case Missed(j, q) => j == id ==> Names(t, id, q)
    case _ => true
  }

  /** No client holds another answer for `id` than the present one, and every pointer to it, cached or followed, names it. */
  ghost predicate Clean(s: World, id: int) {
    && (forall c | 0 <= c < |s.clients| :: CleanClient(s.rows, s.clients[c], id))
    && (forall q | q in s.index && s.index[q] == Some(id) :: Names(s.rows, id, q))
  }

  /** No call of the run commits the row of `id`. */
  ghost predicate Undisturbed(s: World, acts: seq<Act>, id: int) {
    forall n | 0 <= n < |acts| :: !Touches(Run(s, acts[..n]), acts[n], id)
  }

  lemma UndisturbedParts(s: World, first: seq<Act>, later: seq<Act>, id: int)
    ensures Undisturbed(s, first + later, id) <==> Undisturbed(s, first, id) && Undisturbed(Run(s, first), later, id)
  {
    var acts := first + later;
    forall n | 0 <= n < |first| ensures acts[..n] == first[..n] && acts[n] == first[n] {
    }
    forall n | 0 <= n < |later| ensures Run(s, acts[..|first| + n]) == Run(Run(s, first), later[..n]) && acts[|first| + n] == later[n] {
      assert acts[..|first| + n] == first + later[..n];
      RunAppend(s, first, later[..n]);
    }
    if Undisturbed(s, acts, id) {
      forall n | 0 <= n < |later| ensures !Touches(Run(Run(s, first), later[..n]), later[n], id) {
        assert acts[..|first| + n] == first + later[..n] && acts[|first| + n] == later[n];
      }
    }
  }

  // -------- what stays right

  /** Following a right pointer asks for the row itself. */
  lemma NamesAnswer(t: Table, id: int, q: Query)
    requires TableOk(t) && Names(t, id, q)
    ensures AnswerTo(t, q) == Live(t, id)
  {
    if !t[id].deleted {
      FirstIs(t, q, t[id]);
    } else if !q.ById? && First(t, q).Some? {
      FirstSome(t, q);
    }
  }

  lemma FoundIsLive(t: Table, q: Query)
    requires TableOk(t) && AnswerTo(t, q).Some?
    ensures var u := AnswerTo(t, q).value; Some(u) == Live(t, u.id) && Names(t, u.id, q)
  {
    if !q.ById? {
      FirstSome(t, q);
    }
  }

  lemma StepKeepsRow(s: World, a: Act, id: int)
    requires Known(s) && id in s.rows && (s.rows[id].deleted || !Touches(s, a, id))
    ensures id in Step(s, a).rows && Step(s, a).rows[id] == s.rows[id]
  {
    StepRow(s, a, id);
  }

  lemma StepKeepsNames(s: World, a: Act, id: int, q: Query)
    requires Known(s) && !Touches(s, a, id) && Names(s.rows, id, q)
    ensures Names(Step(s, a).rows, id, q)
  {
    StepKeepsRow(s, a, id);
    if s.rows[id].deleted {
      var k :| k in s.rows && s.rows[k].deleted && Matches(s.rows[k], q);
      StepKeepsRow(s, a, k);
    }
  }

  lemma StepKeepsClean(s: World, a: Act, id: int, p: Client)
    requires Known(s) && id in s.rows && !Touches(s, a, id) && CleanClient(s.rows, p, id)
    ensures CleanClient(Step(s, a).rows, p, id)
  {
    StepKeepsRow(s, a, id);
    if (p.Following? || p.Missed?) && p.id == id {
      StepKeepsNames(s, a, id, p.q);
    }
  }

  /** What a query made by a clean client finds is clean. */
  lemma QueryStaysClean(s: World, c: nat, p: Client, ok: bool, id: int)
    requires Inv(s) && c < |s.clients| && p == s.clients[c] && CleanClient(s.rows, p, id)
    ensures var next := ReadStep(s, Query(c, ok), c, p); c < |next.clients| && CleanClient(s.rows, next.clients[c], id)
  {
    if p.Missed? && p.id == id {
      NamesAnswer(s.rows, id, p.q);
    }
    if p.Asking? && AnswerTo(s.rows, p.q).Some? {
      FoundIsLive(s.rows, p.q);
    }
  }

  /** What a client takes from a clean entry, or goes on with, is clean. */
  lemma CallStaysClean(s: World, a: Act, c: nat, p: Client, id: int)
    requires Clean(s, id) && c < |s.clients| && p == s.clients[c] && CleanClient(s.rows, p, id) && !a.Query?
    requires Names(s.rows, id, ById(id))
    ensures var next := ReadStep(s, a, c, p); c < |next.clients| && CleanClient(s.rows, next.clients[c], id)
  {
  }

  /** The client that makes the call is clean after it. */
  lemma ReaderStaysClean(s: World, a: Act, c: nat, p: Client, id: int)
    requires Inv(s) && id in s.rows && Clean(s, id) && c < |s.clients| && p == s.clients[c]
    ensures var next := ReadStep(s, a, c, p); c < |next.clients| && CleanClient(s.rows, next.clients[c], id)
  {
    if a.Query? {
      QueryStaysClean(s, c, p, a.ok, id);
      assert ReadStep(s, a, c, p) == ReadStep(s, Query(c, a.ok), c, p);
    } else {
      assert Matches(s.rows[id], ById(id));
      CallStaysClean(s, a, c, p, id);
    }
  }

  /** And so are the entries. */
  lemma EntriesStayClean(s: World, a: Act, c: nat, p: Client, id: int)
    requires Known(s) && id in s.rows && Clean(s, id) && c < |s.clients| && p == s.clients[c]
    ensures var next := ReadStep(s, a, c, p);
      && (forall q | q in next.index && next.index[q] == Some(id) :: Names(s.rows, id, q))
      && (Current(s, id) ==> Current(next, id))
  {
    assert CleanClient(s.rows, p, id) && ClientOk(s, p);
    ReadEntries(s, a, c, p);
    if p.Found? && p.got.Some? && p.got.value.id == id {
      assert Names(s.rows, id, p.q);
    }
  }

  lemma ReadFresh(s: World, a: Act, c: nat, id: int)
    requires Inv(s) && id in s.rows && Clean(s, id) && c < |s.clients|
    ensures var next := ReadStep(s, a, c, s.clients[c]); next.rows == s.rows && Clean(next, id) && (Current(s, id) ==> Current(next, id))
  {
    var p := s.clients[c];
    ReadMoves(s, a, c, p);
    ReaderStaysClean(s, a, c, p, id);
    EntriesStayClean(s, a, c, p, id);
  }

  lemma WriteFresh(s: World, a: Act, id: int)
    requires Known(s) && id in s.rows && !Touches(s, a, id) && Clean(s, id) && (IsWrite(a) || ByNobody(a))
    ensures Clean(Step(s, a), id) && (Current(s, id) ==> Current(Step(s, a), id))
  {
    var next := Step(s, a);
    StepKeepsRow(s, a, id);
    WriteMoves(s, a);
    forall d | 0 <= d < |next.clients| ensures CleanClient(next.rows, next.clients[d], id) {
      if d < |s.clients| && next.clients[d] == s.clients[d] {
        StepKeepsClean(s, a, id, s.clients[d]);
      }
    }
    forall q | q in next.index && next.index[q] == Some(id) ensures Names(next.rows, id, q) {
      StepKeepsNames(s, a, id, q);
    }
  }

  lemma StepFresh(s: World, a: Act, id: int)
    requires Inv(s) && id in s.rows && !Touches(s, a, id) && Clean(s, id)
    ensures Clean(Step(s, a), id) && id in Step(s, a).rows && Live(Step(s, a).rows, id) == Live(s.rows, id)
    ensures Current(s, id) ==> Current(Step(s, a), id)
  {
    StepKeepsRow(s, a, id);
    if IsWrite(a) || ByNobody(a) {
      WriteFresh(s, a, id);
    } else if a.c < |s.clients| {
      ReadFresh(s, a, a.c, id);
    }
  }

  lemma UndisturbedLast(s: World, acts: seq<Act>, id: int)
    requires acts != [] && Undisturbed(s, acts, id)
    ensures Undisturbed(s, acts[..|acts| - 1], id) && !Touches(Run(s, acts[..|acts| - 1]), acts[|acts| - 1], id)
  {
    forall n | 0 <= n < |acts| - 1 ensures !Touches(Run(s, acts[..|acts| - 1][..n]), acts[n], id) {
      assert acts[..|acts| - 1][..n] == acts[..n];
    }
  }

  /** What is clean and current stays so over an undisturbed run. */
  lemma {:induction false} RunFresh(s: World, acts: seq<Act>, id: int)
    requires Inv(s) && id in s.rows && Clean(s, id) && Undisturbed(s, acts, id)
    ensures Clean(Run(s, acts), id) && id in Run(s, acts).rows && Inv(Run(s, acts))
    ensures Current(s, id) ==> Current(Run(s, acts), id)
  {
    if acts != [] {
      UndisturbedLast(s, acts, id);
      RunFresh(s, acts[..|acts| - 1], id);
      StepInv(Run(s, acts[..|acts| - 1]), acts[|acts| - 1]);
      StepFresh(Run(s, acts[..|acts| - 1]), acts[|acts| - 1], id);
    }
  }
}
