/**
 A race between a lookup by username and a renaming: every call is done, no deletion is lost and
 nothing expires, and yet a live row's entry says "not found".
 */
module IndexRace {
  import opened Wrappers
  import opened Users
  import opened Interleaving
  import opened Fabrication

  const NO_PROFILE := Profile("", "", "", 0)
  const ANN := User(1, "ann", "ann@", NO_PROFILE, 0, false)
  const BOB := User(1, "bob", "ann@", NO_PROFILE, 1, false)
  const NAME := ByUsername("ann")

  function TableAt(renamed: bool): Table {
    map[1 := if renamed then BOB else ANN]
  }

  function Moment(renamed: bool, cache: map<int, Option<User>>, index: map<Query, Option<int>>, reader: Client, writer: Client): World {
    World(TableAt(renamed), cache, index, [reader, writer], map[1 := if renamed then [ANN, BOB] else [ANN]])
  }

  /** The user, with the pointer from the username cached and nobody under way. */
  const START := Moment(false, map[], map[NAME := Some(1)], Idle, Idle)

  /** Client 0 looks the username up; client 1 renames the user in between, then reads it by id. */
  const ACTS := [IndexGet(0, NAME, true), ReadRow(1, 1, Edit(BOB)), Commit(1, true), Purge(1), RowGet(0, true), Query(0, true), CacheSet(0, true)]

  lemma StartOk()
    ensures Inv(START) && Settled(START, 1)
  {
    assert TableOk(START.rows);
    assert START.past[1] == [ANN];
  }

  lemma NobodyIsAnn()
    ensures First(TableAt(true), NAME) == None
  {
    assert TableOk(TableAt(true));
    if First(TableAt(true), NAME).Some? {
      FirstSome(TableAt(true), NAME);
    }
  }

  const POINTED: map<Query, Option<int>> := map[NAME := Some(1)]
  const FOLLOWING := Following(1, NAME)

  /** The state after the first `n` calls. */
  function StateAt(n: nat): World
    requires n <= |ACTS|
  {
    match n
    case 0 => START
    case 1 => Moment(false, map[], POINTED, FOLLOWING, Idle)
    case 2 => Moment(false, map[], POINTED, FOLLOWING, Ready(Edit(BOB), ANN))
    case 3 => Moment(true, map[], POINTED, FOLLOWING, Dirty(1, ColumnsOf(ANN, Edit(BOB))))
    case 4 => Moment(true, map[], map[], FOLLOWING, Idle)
    case 5 => Moment(true, map[], map[], Missed(1, NAME), Idle)
    case 6 => Moment(true, map[], map[], Holding(1, None), Idle)
    case _ => Moment(true, map[1 := None], map[], Idle, Idle)
  }

  lemma Looking()
    ensures Step(StateAt(0), ACTS[0]) == StateAt(1) && Step(StateAt(1), ACTS[1]) == StateAt(2)
  {
  }

  lemma Renaming()
    ensures Step(StateAt(2), ACTS[2]) == StateAt(3)
  {
    var s := StateAt(2);
    assert !Taken(s.rows, 1, "bob", "ann@");
    assert Write(s.rows, Edit(BOB), ANN) == Affected(TableAt(true));
    assert [ANN] + [BOB] == [ANN, BOB];
    assert s.past[1 := [ANN, BOB]] == StateAt(3).past;
  }

  lemma Purging()
    ensures Step(StateAt(3), ACTS[3]) == StateAt(4)
  {
    assert NAME in Columns(ANN);
    assert POINTED - ColumnsOf(ANN, Edit(BOB)) == map[];
  }

  lemma Fetching()
    ensures Step(StateAt(4), ACTS[4]) == StateAt(5) && Step(StateAt(5), ACTS[5]) == StateAt(6)
  {
    NobodyIsAnn();
  }

  lemma Storing()
    ensures Step(StateAt(6), ACTS[6]) == StateAt(7)
  {
  }

  lemma {:induction false} RunIs(n: nat)
    requires n <= |ACTS|
    ensures Run(START, ACTS[..n]) == StateAt(n)
  {
    if n > 0 {
      RunIs(n - 1);
      RunLast(START, ACTS[..n - 1], ACTS[n - 1]);
      assert ACTS[..n - 1] + [ACTS[n - 1]] == ACTS[..n];
      StepIs(n - 1);
    }
  }

  lemma StepIs(n: nat)
    requires n < |ACTS|
    ensures Step(StateAt(n), ACTS[n]) == StateAt(n + 1)
  {
    match n
    case 0 => Looking();
    case 1 => Looking();
    case 2 => Renaming();
    case 3 => Purging();
    case 4 => Fetching();
    case 5 => Fetching();
    case _ => Storing();
  }

  lemma AlwaysLive(n: nat)
    requires n <= |ACTS|
    ensures Live(Run(START, ACTS[..n]).rows, 1).Some?
  {
    RunIs(n);
  }

  lemma QueryFabricates()
    ensures Fabricates(START, ACTS[..5], ACTS[5], 1)
  {
    RunIs(5);
    NobodyIsAnn();
    forall n | 0 <= n <= 5 ensures Live(Run(START, ACTS[..5][..n]).rows, 1).Some? {
      assert ACTS[..5][..n] == ACTS[..n];
      AlwaysLive(n);
    }
  }

  lemma EndsNotFound()
    ensures Reply(Run(START, ACTS), CacheGet(1, 1, true)) == Row(None)
  {
    RunIs(7);
    assert ACTS[..7] == ACTS;
  }

  lemma NotHonest()
    ensures !Honest(START, ACTS, 1)
  {
    StartOk();
    QueryFabricates();
    HonestExactly(START, ACTS, 1);
  }

  /** The row is live at every moment, and in the end a lookup by its id is told that there is none. */
  lemma LiveRowNotFound()
    ensures Inv(START) && Settled(START, 1)
    ensures forall n | 0 <= n <= |ACTS| :: Live(Run(START, ACTS[..n]).rows, 1).Some?
    ensures Reply(Run(START, ACTS), CacheGet(1, 1, true)) == Row(None)
    ensures !Honest(START, ACTS, 1)
  {
    StartOk();
    forall n | 0 <= n <= |ACTS| ensures Live(Run(START, ACTS[..n]).rows, 1).Some? {
      AlwaysLive(n);
    }
    EndsNotFound();
    NotHonest();
  }
}
