/** What readers can be told about a row, over every interleaving: exactly when it was never the database's answer. */
module Fabrication {
  import opened Wrappers
  import opened Users
  import opened Interleaving
  import opened Freshness

  /** At some moment of the run the database answered `got` for `id`. */
  ghost predicate Seen(s: World, acts: seq<Act>, id: int, got: Option<User>) {
    exists n | 0 <= n <= |acts| :: Live(Run(s, acts[..n]).rows, id) == got
  }

  lemma SeenLater(s: World, acts: seq<Act>, a: Act, id: int, got: Option<User>)
    requires Seen(s, acts, id, got)
    ensures Seen(s, acts + [a], id, got)
  {
    var n :| 0 <= n <= |acts| && Live(Run(s, acts[..n]).rows, id) == got;
    assert acts[..n] == (acts + [a])[..n];
  }

  lemma SeenNow(s: World, acts: seq<Act>, id: int)
    ensures Seen(s, acts, id, Live(Run(s, acts).rows, id))
  {
    assert acts[..|acts|] == acts;
  }

  /** The client holds an answer that it will store under the key of `id`. */
  predicate HasFor(p: Client, id: int) {
    (p.Holding? && p.id == id) || (p.Found? && p.got.Some? && p.got.value.id == id)
  }

  /** The entry of `id` is right, and so is what anybody is about to store there. */
  ghost predicate Settled(s: World, id: int) {
    && Current(s, id)
    && (forall c | 0 <= c < |s.clients| && HasFor(s.clients[c], id) :: s.clients[c].got == Live(s.rows, id))
  }

  ghost predicate AllSeen(s: World, acts: seq<Act>, id: int) {
    var end := Run(s, acts);
    && (id in end.cache ==> Seen(s, acts, id, end.cache[id]))
    && (forall c | 0 <= c < |end.clients| && HasFor(end.clients[c], id) :: Seen(s, acts, id, end.clients[c].got))
  }

  /** The call queries the database for the entry of `id`, by whichever column led there, and gets an answer it never gave for `id`. */
  ghost predicate Fabricates(s: World, before: seq<Act>, a: Act, id: int) {
    var now := Run(s, before);
    a.Query? && a.ok && At(now, a.c).Missed? && At(now, a.c).id == id && !Seen(s, before, id, AnswerTo(now.rows, At(now, a.c).q))
  }

  /** An entry comes from before the step or from a reader that held it. */
  lemma EntryFrom(s: World, a: Act, id: int)
    requires id in Step(s, a).cache
    ensures (id in s.cache && s.cache[id] == Step(s, a).cache[id]) ||
            exists c | 0 <= c < |s.clients| && s.clients[c].Holding? :: s.clients[c].id == id && s.clients[c].got == Step(s, a).cache[id]
  {
    if a.CacheSet? && a.c < |s.clients| && s.clients[a.c].Holding? && s.clients[a.c].id != id {
      assert id in s.cache;
    }
  }

  /** Where an answer for `id` comes from: held before, just given for `id`, or just given for a query that led there. */
  ghost predicate ComesFrom(s: World, a: Act, c: nat, id: int, got: Option<User>)
    requires c < |s.clients|
  {
    var p := s.clients[c];
    || (HasFor(p, id) && p.got == got)
    || got == Live(s.rows, id)
    || (a == Query(c, true) && p.Missed? && p.id == id && got == AnswerTo(s.rows, p.q))
  }

  lemma ReaderHeldFrom(s: World, a: Act, c: nat, id: int)
    requires Inv(s) && c < |s.clients| && !IsWrite(a) && !ByNobody(a) && a.c == c
    requires HasFor(ReadStep(s, a, c, s.clients[c]).clients[c], id)
    ensures ComesFrom(s, a, c, id, ReadStep(s, a, c, s.clients[c]).clients[c].got)
  {
    match (a, s.clients[c])
    case (Query(_, ok), Asking(q)) => if AnswerTo(s.rows, q).Some? { FoundIsLive(s.rows, q); }
    case _ =>
  }

  lemma HeldFrom(s: World, a: Act, c: nat, id: int)
    requires Inv(s) && c < |Step(s, a).clients| && HasFor(Step(s, a).clients[c], id)
    ensures c < |s.clients| && ComesFrom(s, a, c, id, Step(s, a).clients[c].got)
  {
    if IsWrite(a) || ByNobody(a) {
      WriteMoves(s, a);
    } else if a.c < |s.clients| {
      ReadMoves(s, a, a.c, s.clients[a.c]);
      if a.c == c {
        ReaderHeldFrom(s, a, c, id);
      }
    }
  }

  lemma StepAllSeen(s: World, before: seq<Act>, a: Act, id: int)
    requires Inv(s) && AllSeen(s, before, id) && !Fabricates(s, before, a, id)
    ensures AllSeen(s, before + [a], id)
  {
    RunInv(s, before);
    RunLast(s, before, a);
    var now, end := Run(s, before), Run(s, before + [a]);
    if id in end.cache {
      EntryFrom(now, a, id);
      SeenLater(s, before, a, id, end.cache[id]);
    }
    forall c | 0 <= c < |end.clients| && HasFor(end.clients[c], id) ensures Seen(s, before + [a], id, end.clients[c].got) {
      HeldFrom(now, a, c, id);
      SeenNow(s, before, id);
      SeenLater(s, before, a, id, end.clients[c].got);
    }
  }

  lemma {:induction false} RunAllSeen(s: World, acts: seq<Act>, id: int)
    requires Inv(s) && Settled(s, id)
    requires forall n | 0 <= n < |acts| :: !Fabricates(s, acts[..n], acts[n], id)
    ensures AllSeen(s, acts, id)
  {
    if acts == [] {
      SeenNow(s, acts, id);
    } else {
      var before, a := acts[..|acts| - 1], acts[|acts| - 1];
      forall n | 0 <= n < |before| ensures !Fabricates(s, before[..n], before[n], id) {
        assert before[..n] == acts[..n];
      }
      RunAllSeen(s, before, id);
      StepAllSeen(s, before, a, id);
      assert before + [a] == acts;
    }
  }

  /** The call tells its client something about `id`: the entry, or the answer of the query made for it. */
  predicate Tells(s: World, a: Act, id: int) {
    && Reply(s, a).Row?
    && match a {
         case CacheGet(_, j, _) => j == id
         case RowGet(c, _) => At(s, c).Following? && At(s, c).id == id
         case Query(c, _) => At(s, c).Missed? && At(s, c).id == id
         case _ => false
       }
  }

  /** At every moment of the run, the entry of `id` and whatever a client is told about `id` was the database's answer for `id` at some earlier moment. */
  ghost predicate Honest(s: World, acts: seq<Act>, id: int) {
    && (forall n | 0 <= n <= |acts| && id in Run(s, acts[..n]).cache :: Seen(s, acts[..n], id, Run(s, acts[..n]).cache[id]))
    && (forall n | 0 <= n < |acts| && Tells(Run(s, acts[..n]), acts[n], id) ::
          Seen(s, acts[..n], id, Reply(Run(s, acts[..n]), acts[n]).got))
  }

  lemma PrefixAllSeen(s: World, acts: seq<Act>, id: int, n: nat)
    requires Inv(s) && Settled(s, id) && n <= |acts|
    requires forall m | 0 <= m < |acts| :: !Fabricates(s, acts[..m], acts[m], id)
    ensures AllSeen(s, acts[..n], id)
  {
    forall m | 0 <= m < n ensures !Fabricates(s, acts[..n][..m], acts[..n][m], id) {
      assert acts[..n][..m] == acts[..m];
    }
    RunAllSeen(s, acts[..n], id);
  }

  /** What is told is an entry, or the answer of a query that does not fabricate. */
  lemma ToldSeen(s: World, before: seq<Act>, a: Act, id: int)
    requires AllSeen(s, before, id) && !Fabricates(s, before, a, id) && Tells(Run(s, before), a, id)
    ensures Seen(s, before, id, Reply(Run(s, before), a).got)
  {
  }

  /**
   No fabricated reads, exactly: whatever the entry of an id holds, and whatever clients are told
   about the id, was the database's answer for it at some moment, if and only if no query that
   followed a pointer there got an answer that the database had never given for the id.
   */
  lemma HonestExactly(s: World, acts: seq<Act>, id: int)
    requires Inv(s) && Settled(s, id)
    ensures Honest(s, acts, id) <==> forall n | 0 <= n < |acts| :: !Fabricates(s, acts[..n], acts[n], id)
  {
    if forall n | 0 <= n < |acts| :: !Fabricates(s, acts[..n], acts[n], id) {
      forall n | 0 <= n <= |acts| && id in Run(s, acts[..n]).cache ensures Seen(s, acts[..n], id, Run(s, acts[..n]).cache[id]) {
        PrefixAllSeen(s, acts, id, n);
      }
      forall n | 0 <= n < |acts| && Tells(Run(s, acts[..n]), acts[n], id)
        ensures Seen(s, acts[..n], id, Reply(Run(s, acts[..n]), acts[n]).got)
      {
        PrefixAllSeen(s, acts, id, n);
        ToldSeen(s, acts[..n], acts[n], id);
      }
    } else {
      var n :| 0 <= n < |acts| && Fabricates(s, acts[..n], acts[n], id);
      assert Tells(Run(s, acts[..n]), acts[n], id);
    }
  }

  /** A query by the id itself, or by a column that the row answers for good, never fabricates. */
  lemma NamesNeverFabricates(s: World, before: seq<Act>, a: Act, id: int)
    requires Inv(s) && a.Query? && At(Run(s, before), a.c).Missed? && At(Run(s, before), a.c).id == id
    requires var (now, q) := (Run(s, before), At(Run(s, before), a.c).q); q == ById(id) || Names(now.rows, id, q)
    ensures !Fabricates(s, before, a, id)
  {
    RunInv(s, before);
    var now := Run(s, before);
    if At(now, a.c).q != ById(id) {
      NamesAnswer(now.rows, id, At(now, a.c).q);
    }
    SeenNow(s, before, id);
  }

  /** Nobody is on the way from a column's entry to a row's. */
  ghost predicate NobodyFollows(s: World) {
    forall c | 0 <= c < |s.clients| :: !s.clients[c].Following? && (s.clients[c].Missed? ==> s.clients[c].q == ById(s.clients[c].id))
  }

  lemma {:induction false} NobodyStarts(s: World, acts: seq<Act>)
    requires NobodyFollows(s) && forall a | a in acts :: !a.IndexGet?
    ensures NobodyFollows(Run(s, acts))
  {
    if acts != [] {
      NobodyStarts(s, acts[..|acts| - 1]);
      assert acts[|acts| - 1] in acts;
      NobodyStartsNow(Run(s, acts[..|acts| - 1]), acts[|acts| - 1]);
    }
  }

  lemma NobodyStartsNow(s: World, a: Act)
    requires NobodyFollows(s) && !a.IndexGet?
    ensures NobodyFollows(Step(s, a))
  {
  }

  /** In particular runs without lookups by a column are honest about every id. */
  lemma NoFabricatedReads(s: World, acts: seq<Act>, id: int)
    requires Inv(s) && Settled(s, id) && NobodyFollows(s) && forall a | a in acts :: !a.IndexGet?
    ensures Honest(s, acts, id)
  {
    forall n | 0 <= n < |acts| ensures !Fabricates(s, acts[..n], acts[n], id) {
      NobodyStarts(s, acts[..n]);
      var (now, a) := (Run(s, acts[..n]), acts[n]);
      if a.Query? && At(now, a.c).Missed? && At(now, a.c).id == id {
        NamesNeverFabricates(s, acts[..n], a, id);
      }
    }
    HonestExactly(s, acts, id);
  }
}
