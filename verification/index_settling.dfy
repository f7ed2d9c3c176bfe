/** When a committed write settles the entries of its row's columns, exactly. */
module IndexSettling {
  import opened Wrappers
  import opened Users
  import opened Interleaving

  function IdOf(got: Option<User>): Option<int> {
    match got
    case None => None
    case Some(u) => Some(u.id)
  }

  /** What the entry of a column lookup should hold: the id of the row it finds, or that there is none. */
  function PointerOf(t: Table, q: Query): Option<int> {
    IdOf(AnswerTo(t, q))
  }

  ghost predicate IndexCurrent(s: World, q: Query) {
    q in s.index ==> s.index[q] == PointerOf(s.rows, q)
  }

  /** Nobody is about to store another pointer. */
  ghost predicate IndexClean(s: World, q: Query) {
    forall c | 0 <= c < |s.clients| && s.clients[c].Found? && s.clients[c].q == q :: IdOf(s.clients[c].got) == PointerOf(s.rows, q)
  }

  /** No call of the run changes which row the lookup finds. */
  ghost predicate SamePointer(s: World, acts: seq<Act>, q: Query) {
    forall n | 0 <= n <= |acts| :: PointerOf(Run(s, acts[..n]).rows, q) == PointerOf(s.rows, q)
  }

  /** The call is a deletion of the entry by the writer, with its other keys or, after a create, before the id key. */
  predicate Drops(s: World, a: Act, c: nat, q: Query) {
    || (a == Purge(c) && At(s, c).Dirty? && q in At(s, c).columns)
    || (a == PurgeColumns(c) && At(s, c).Born? && q in At(s, c).columns)
  }

  predicate DropsAt(s: World, acts: seq<Act>, k: nat, c: nat, q: Query) {
    k < |acts| && Drops(Run(s, acts[..k]), acts[k], c, q)
  }

  /** From the writer's deletion on, and until the lookup finds another row, its entry is absent or right. */
  ghost predicate IndexStaysFresh(s: World, c: nat, q: Query) {
    forall acts, k: nat | DropsAt(s, acts, k, c, q) && SamePointer(s, acts, q) :: IndexCurrent(Run(s, acts), q)
  }

  // -------- what stays right

  lemma ReadKeepsIndex(s: World, a: Act, c: nat, p: Client, q: Query)
    requires c < |s.clients| && p == s.clients[c] && IndexClean(s, q)
    ensures var next := ReadStep(s, a, c, p); next.rows == s.rows && IndexClean(next, q) && (IndexCurrent(s, q) ==> IndexCurrent(next, q))
  {
    ReadMoves(s, a, c, p);
    ReaderKeepsIndex(s, a, c, p, q);
  }

  lemma ReaderFinds(s: World, a: Act, c: nat, p: Client, q: Query)
    requires c < |s.clients| && p == s.clients[c] && IndexClean(s, q)
    ensures var next := ReadStep(s, a, c, p);
      c < |next.clients| && (next.clients[c].Found? && next.clients[c].q == q ==> IdOf(next.clients[c].got) == PointerOf(s.rows, q))
  {
  }

  lemma ReaderKeepsIndex(s: World, a: Act, c: nat, p: Client, q: Query)
    requires c < |s.clients| && p == s.clients[c] && IndexClean(s, q)
    ensures var next := ReadStep(s, a, c, p);
      && c < |next.clients|
      && (next.clients[c].Found? && next.clients[c].q == q ==> IdOf(next.clients[c].got) == PointerOf(s.rows, q))
      && (IndexCurrent(s, q) ==> IndexCurrent(next, q))
  {
    ReaderFinds(s, a, c, p, q);
    ReadEntries(s, a, c, p);
  }

  lemma StepKeepsIndex(s: World, a: Act, q: Query)
    requires IndexClean(s, q) && PointerOf(Step(s, a).rows, q) == PointerOf(s.rows, q)
    ensures IndexClean(Step(s, a), q) && (IndexCurrent(s, q) ==> IndexCurrent(Step(s, a), q))
  {
    if IsWrite(a) || ByNobody(a) {
      WriteMoves(s, a);
    } else if a.c < |s.clients| {
      ReadKeepsIndex(s, a, a.c, s.clients[a.c], q);
    }
  }

  lemma RunPrefix(s: World, acts: seq<Act>, n: nat)
    requires n < |acts|
    ensures Run(s, acts[..n + 1]) == Step(Run(s, acts[..n]), acts[n])
  {
    RunLast(s, acts[..n], acts[n]);
    assert acts[..n] + [acts[n]] == acts[..n + 1];
  }

  lemma PrefixStepKeeps(s: World, acts: seq<Act>, q: Query, n: nat)
    requires SamePointer(s, acts, q) && n < |acts| && IndexClean(Run(s, acts[..n]), q)
    ensures var now, next := Run(s, acts[..n]), Run(s, acts[..n + 1]);
      IndexClean(next, q) && (IndexCurrent(now, q) ==> IndexCurrent(next, q))
  {
    RunPrefix(s, acts, n);
    StepKeepsIndex(Run(s, acts[..n]), acts[n], q);
  }

  lemma {:induction false} RunKeepsIndex(s: World, acts: seq<Act>, q: Query, n: nat)
    requires IndexClean(s, q) && SamePointer(s, acts, q) && n <= |acts|
    ensures IndexClean(Run(s, acts[..n]), q)
  {
    if n == 0 {
      assert acts[..0] == [];
    } else {
      RunKeepsIndex(s, acts, q, n - 1);
      PrefixStepKeeps(s, acts, q, n - 1);
    }
  }

  lemma DropStep(s: World, a: Act, c: nat, q: Query)
    requires Drops(s, a, c, q)
    ensures q !in Step(s, a).index && Step(s, a).rows == s.rows
    ensures forall d: nat | d != c :: At(Step(s, a), d) == At(s, d)
  {
  }

  lemma DroppedNow(s: World, c: nat, q: Query, acts: seq<Act>, k: nat)
    requires DropsAt(s, acts, k, c, q)
    ensures IndexCurrent(Run(s, acts[..k + 1]), q)
  {
    RunPrefix(s, acts, k);
    DropStep(Run(s, acts[..k]), acts[k], c, q);
  }

  lemma {:induction false} CurrentFrom(s: World, q: Query, acts: seq<Act>, k: nat, n: nat)
    requires IndexClean(s, q) && SamePointer(s, acts, q) && k <= n <= |acts| && IndexCurrent(Run(s, acts[..k]), q)
    ensures IndexCurrent(Run(s, acts[..n]), q)
    decreases n
  {
    if n > k {
      CurrentFrom(s, q, acts, k, n - 1);
      RunKeepsIndex(s, acts, q, n - 1);
      PrefixStepKeeps(s, acts, q, n - 1);
    }
  }

  // -------- what goes wrong

  lemma LateIndexStore(s: World, a: Act, c: nat, q: Query, reader: nat)
    requires Drops(s, a, c, q) && At(s, reader).Found? && At(s, reader).q == q
    ensures var end := Step(Step(s, a), IndexSet(reader, true));
      end.rows == s.rows && q in end.index && end.index[q] == IdOf(At(s, reader).got)
  {
    DropStep(s, a, c, q);
  }

  /** A reader that has found anything else stores it after the deletion. */
  lemma FinderSpoils(s: World, a: Act, c: nat, q: Query, reader: nat)
    requires Drops(s, a, c, q)
    requires At(s, reader).Found? && At(s, reader).q == q && IdOf(At(s, reader).got) != PointerOf(s.rows, q)
    ensures !IndexStaysFresh(s, c, q)
  {
    var acts := [a, IndexSet(reader, true)];
    assert acts[..0] == [] && acts[..1] == [a];
    RunOne(s, a);
    RunLast(s, [a], IndexSet(reader, true));
    assert [a] + [IndexSet(reader, true)] == acts;
    LateIndexStore(s, a, c, q, reader);
    DropStep(s, a, c, q);
    assert DropsAt(s, acts, 0, c, q);
    assert acts[..2] == acts;
    forall n | 0 <= n <= |acts| ensures Run(s, acts[..n]).rows == s.rows {
      assert n == 0 || n == 1 || n == 2;
    }
  }

  /** The deletion a writer has ahead of it. */
  function DropOf(s: World, c: nat): Act {
    if At(s, c).Born? then PurgeColumns(c) else Purge(c)
  }

  /**
   The entries of a written row's columns, exactly: the writer's deletion settles such an entry for
   good if and only if nobody who has queried by the column before is about to store another pointer.
   */
  lemma IndexFreshExactly(s: World, c: nat, q: Query)
    requires (At(s, c).Dirty? || At(s, c).Born?) && q in At(s, c).columns
    ensures IndexStaysFresh(s, c, q) <==> IndexClean(s, q)
  {
    if !IndexClean(s, q) {
      var reader :| 0 <= reader < |s.clients| && s.clients[reader].Found? && s.clients[reader].q == q &&
        IdOf(s.clients[reader].got) != PointerOf(s.rows, q);
      FinderSpoils(s, DropOf(s, c), c, q, reader);
    } else {
      forall acts, k: nat | DropsAt(s, acts, k, c, q) && SamePointer(s, acts, q) ensures IndexCurrent(Run(s, acts), q) {
        DroppedNow(s, c, q, acts, k);
        CurrentFrom(s, q, acts, k + 1, |acts|);
        assert acts[..|acts|] == acts;
      }
    }
  }

  /** A deletion removes the entries it names and no others. */
  lemma PurgesExactly(s: World, c: nat)
    requires At(s, c).Dirty? || At(s, c).Born?
    ensures var p, next := At(s, c), Step(s, DropOf(s, c));
      && next.rows == s.rows
      && (forall q :: q in next.index <==> q in s.index && q !in p.columns)
      && (forall q | q in next.index :: next.index[q] == s.index[q])
      && (forall id :: id in next.cache <==> id in s.cache && !(p.Dirty? && id == p.id && id > 0))
      && (forall id | id in next.cache :: next.cache[id] == s.cache[id])
  {
  }
}
