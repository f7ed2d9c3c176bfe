/**
 Lookups of one id that share flights, over the interleaved system: lookups by the id and lookups
 by a column whose pointer names it. Only the caller that starts a flight makes calls of its own:
 `log` is the run of `Interleaving` those calls and all other clients' calls make up, so whatever
 holds of its runs holds with shared flights too.
 */
module SharedReads {
  import opened Wrappers
  import opened Users
  import I = Interleaving

  /** Moments are positions in the log: when the flight began and when its query ran. */
  datatype Flight = Flight(leader: nat, began: nat, asked: Option<nat>)

  /** What a caller was told, when it had arrived, and the flight's moments. */
  datatype Told = Told(caller: nat, arrived: nat, began: nat, asked: nat, answer: I.Answer)

  /** `waiting` maps each follower of the current flight to the moment it arrived. */
  datatype World = World(log: seq<I.Act>, flight: Option<Flight>, waiting: map<nat, nat>, told: set<Told>)

  /** A caller that missed the cache arrives; the flight's query; its end; a call of another client. */
  datatype Act = Arrive(c: nat) | AskTable(ok: bool) | Land(ok: bool) | Other(a: I.Act)

  const START := World([], None, map[], {})

  function Now(base: I.World, s: World): I.World {
    I.Run(base, s.log)
  }

  function Do(s: World, a: I.Act): World {
    s.(log := s.log + [a])
  }

  predicate Busy(s: World, c: nat) {
    c in s.waiting || (s.flight.Some? && s.flight.value.leader == c)
  }

  /** The flight ends: its leader and all followers are told the same. */
  function Finish(s: World, f: Flight, asked: nat, answer: I.Answer): World {
    World(s.log, None, map[],
          s.told + {Told(f.leader, f.began, f.began, asked, answer)} +
          (set c | c in s.waiting :: Told(c, s.waiting[c], f.began, asked, answer)))
  }

  function Step(base: I.World, id: int, s: World, a: Act): World {
    match a
    case Arrive(c) =>
      var p := I.At(Now(base, s), c);
      if Busy(s, c) || c >= |Now(base, s).clients| then s
      else if p.Idle? then
        if s.flight.Some? then s.(waiting := s.waiting[c := |s.log|])
        else Do(s, I.CacheGet(c, id, false)).(flight := Some(Flight(c, |s.log|, None)))
      else if p.Following? && p.id == id then
        if s.flight.Some? then Do(s, I.Leave(c)).(waiting := s.waiting[c := |s.log|])
        else Do(s, I.RowGet(c, false)).(flight := Some(Flight(c, |s.log|, None)))
      else s
    case AskTable(ok) =>
      if s.flight.Some? && s.flight.value.asked.None? then
        var f := s.flight.value;
        var next := Do(s, I.Query(f.leader, ok));
        if ok then next.(flight := Some(f.(asked := Some(|s.log|))))
        else Finish(next, f, |s.log|, I.DatabaseError)
      else s
    case Land(ok) =>
      if s.flight.Some? && s.flight.value.asked.Some? then
        var f := s.flight.value;
        var held := I.At(Now(base, s), f.leader);
        Finish(Do(s, I.CacheSet(f.leader, ok)), f, f.asked.value, if held.Holding? then I.Row(held.got) else I.Silent)
      else s
    case Other(a) =>
      if !I.ByNobody(a) && Busy(s, a.c) then s else Do(s, a)
  }

  function Run(base: I.World, id: int, s: World, acts: seq<Act>): World
    decreases |acts|
  {
    if acts == [] then s else Run(base, id, Step(base, id, s, acts[0]), acts[1..])
  }

  /** What a query in the log was answered, or the error it ended in. */
  predicate AskedAt(base: I.World, log: seq<I.Act>, n: nat, answer: I.Answer) {
    n < |log| && log[n].Query? && answer == I.Reply(I.Run(base, log[..n]), log[n])
  }

  ghost predicate FlightOk(base: I.World, id: int, s: World, f: Flight) {
    var p := I.At(Now(base, s), f.leader);
    && f.began < |s.log|
    && f.leader < |Now(base, s).clients|
    && (match f.asked {
          case None => p.Missed? && p.id == id
          case Some(n) => f.began <= n && p.Holding? && p.id == id && AskedAt(base, s.log, n, I.Row(p.got))
        })
  }

  ghost predicate ToldOk(base: I.World, log: seq<I.Act>, t: Told) {
    t.began <= t.asked && t.began <= t.arrived <= |log| && AskedAt(base, log, t.asked, t.answer)
  }

  ghost predicate Inv(base: I.World, id: int, s: World) {
    && (s.flight.Some? ==> FlightOk(base, id, s, s.flight.value))
    && (s.flight.None? ==> s.waiting == map[])
    && (forall c | c in s.waiting :: s.flight.Some? && s.flight.value.began <= s.waiting[c] <= |s.log| && c != s.flight.value.leader)
    && (forall t | t in s.told :: ToldOk(base, s.log, t) && (s.flight.Some? ==> t.began < s.flight.value.began))
    && (forall t, u | t in s.told && u in s.told && t.began == u.began :: t.asked == u.asked && t.answer == u.answer)
  }

  /** Moments that have passed do not change as the log grows. */
  lemma PastStays(base: I.World, log: seq<I.Act>, a: I.Act, n: nat, answer: I.Answer)
    requires AskedAt(base, log, n, answer)
    ensures AskedAt(base, log + [a], n, answer)
  {
    assert (log + [a])[..n] == log[..n];
  }

  lemma FlightStays(base: I.World, id: int, s: World, a: I.Act)
    requires s.flight.Some? && FlightOk(base, id, s, s.flight.value) && (I.ByNobody(a) || a.c != s.flight.value.leader)
    ensures FlightOk(base, id, Do(s, a), s.flight.value)
  {
    var f := s.flight.value;
    I.RunLast(base, s.log, a);
    I.OthersStay(Now(base, s), a, f.leader);
    if f.asked.Some? {
      PastStays(base, s.log, a, f.asked.value, I.Row(I.At(Now(base, s), f.leader).got));
    }
  }

  lemma DoKeepsTold(base: I.World, id: int, s: World, a: I.Act)
    requires Inv(base, id, s)
    ensures forall t | t in s.told :: ToldOk(base, Do(s, a).log, t)
  {
    forall t | t in s.told ensures ToldOk(base, Do(s, a).log, t) {
      PastStays(base, s.log, a, t.asked, t.answer);
    }
  }

  /** A flight that starts with a call `a` of its leader. */
  lemma StartInv(base: I.World, id: int, s: World, c: nat, a: I.Act)
    requires Inv(base, id, s) && s.flight.None? && c < |Now(base, s).clients|
    requires var p := I.At(Now(base, s), c);
      (p.Idle? && a == I.CacheGet(c, id, false)) || (p.Following? && p.id == id && a == I.RowGet(c, false))
    ensures Inv(base, id, Do(s, a).(flight := Some(Flight(c, |s.log|, None))))
  {
    DoKeepsTold(base, id, s, a);
    I.RunLast(base, s.log, a);
  }

  lemma JoinInv(base: I.World, id: int, s: World, c: nat)
    requires Inv(base, id, s) && s.flight.Some? && !Busy(s, c)
    ensures Inv(base, id, s.(waiting := s.waiting[c := |s.log|]))
    ensures Inv(base, id, Do(s, I.Leave(c)).(waiting := s.waiting[c := |s.log|]))
  {
    DoKeepsTold(base, id, s, I.Leave(c));
    FlightStays(base, id, s, I.Leave(c));
  }

  lemma ArriveInv(base: I.World, id: int, s: World, c: nat)
    requires Inv(base, id, s)
    ensures Inv(base, id, Step(base, id, s, Arrive(c)))
  {
    var p := I.At(Now(base, s), c);
    if !Busy(s, c) && c < |Now(base, s).clients| && (p.Idle? || (p.Following? && p.id == id)) {
      if s.flight.Some? {
        JoinInv(base, id, s, c);
      } else {
        StartInv(base, id, s, c, if p.Idle? then I.CacheGet(c, id, false) else I.RowGet(c, false));
      }
    }
  }

  /** A flight that ends at a query's moment tells its callers that query's answer. */
  lemma FinishInv(base: I.World, id: int, s: World, a: I.Act, asked: nat, answer: I.Answer)
    requires Inv(base, id, s) && s.flight.Some? && s.flight.value.began <= asked && s.flight.value.began < |s.log|
    requires AskedAt(base, Do(s, a).log, asked, answer)
    ensures Inv(base, id, Finish(Do(s, a), s.flight.value, asked, answer))
  {
    DoKeepsTold(base, id, s, a);
  }

  lemma QueryAsks(base: I.World, s: World, c: nat, ok: bool)
    ensures AskedAt(base, Do(s, I.Query(c, ok)).log, |s.log|, I.Reply(Now(base, s), I.Query(c, ok)))
  {
    assert Do(s, I.Query(c, ok)).log[..|s.log|] == s.log;
  }

  lemma AskInv(base: I.World, id: int, s: World, ok: bool)
    requires Inv(base, id, s)
    ensures Inv(base, id, Step(base, id, s, AskTable(ok)))
  {
    if s.flight.Some? && s.flight.value.asked.None? {
      var f := s.flight.value;
      QueryAsks(base, s, f.leader, ok);
      if ok {
        DoKeepsTold(base, id, s, I.Query(f.leader, ok));
        I.RunLast(base, s.log, I.Query(f.leader, ok));
      } else {
        FinishInv(base, id, s, I.Query(f.leader, ok), |s.log|, I.DatabaseError);
      }
    }
  }

  lemma LandInv(base: I.World, id: int, s: World, ok: bool)
    requires Inv(base, id, s)
    ensures Inv(base, id, Step(base, id, s, Land(ok)))
  {
    if s.flight.Some? && s.flight.value.asked.Some? {
      var f := s.flight.value;
      var answer := I.Row(I.At(Now(base, s), f.leader).got);
      PastStays(base, s.log, I.CacheSet(f.leader, ok), f.asked.value, answer);
      FinishInv(base, id, s, I.CacheSet(f.leader, ok), f.asked.value, answer);
    }
  }

  lemma OtherInv(base: I.World, id: int, s: World, a: I.Act)
    requires Inv(base, id, s) && (I.ByNobody(a) || !Busy(s, a.c))
    ensures Inv(base, id, Do(s, a))
  {
    DoKeepsTold(base, id, s, a);
    if s.flight.Some? {
      FlightStays(base, id, s, a);
    }
  }

  lemma StepInv(base: I.World, id: int, s: World, a: Act)
    requires Inv(base, id, s)
    ensures Inv(base, id, Step(base, id, s, a))
  {
    match a
    case Arrive(c) => ArriveInv(base, id, s, c);
    case AskTable(ok) => AskInv(base, id, s, ok);
    case Land(ok) => LandInv(base, id, s, ok);
    case Other(b) => if I.ByNobody(b) || !Busy(s, b.c) { OtherInv(base, id, s, b); }
  }

  lemma {:induction false} RunInv(base: I.World, id: int, s: World, acts: seq<Act>)
    requires Inv(base, id, s)
    ensures Inv(base, id, Run(base, id, s, acts))
    decreases |acts|
  {
    if acts != [] {
      StepInv(base, id, s, acts[0]);
      RunInv(base, id, Step(base, id, s, acts[0]), acts[1..]);
    }
  }

  /**
   What sharing callers are told: what the flight's query was answered, be it a row, nothing or an
   error, at a moment after the flight began but possibly before the caller arrived; and all
   callers of a flight are told the same.
   */
  lemma SharedAnswers(base: I.World, id: int, acts: seq<Act>, t: Told, u: Told)
    requires var end := Run(base, id, START, acts); t in end.told && u in end.told
    ensures var log := Run(base, id, START, acts).log;
      && t.began <= t.asked < |log| && t.began <= t.arrived
      && log[t.asked].Query? && t.answer == I.Reply(I.Run(base, log[..t.asked]), log[t.asked])
      && (t.began == u.began ==> t.answer == u.answer)
  {
    RunInv(base, id, START, acts);
  }

  // -------- a follower may be told less than it knows

  /** One live row, an empty cache and two clients. */
  function Base(u: User): I.World {
    I.World(map[1 := u], map[], map[], [I.Idle, I.Idle], map[1 := [u]])
  }

  function Erased(u: User): User {
    u.(deleted := true, version := u.version + 1)
  }

  lemma DoStep(base: I.World, s: World, a: I.Act)
    ensures Now(base, Do(s, a)) == I.Step(Now(base, s), a)
  {
    I.RunLast(base, s.log, a);
  }

  lemma AskSteps(u: User)
    requires u.id == 1 && !u.deleted
    ensures var w := I.Step(Base(u), I.CacheGet(0, 1, false));
      w == Base(u).(clients := [I.Missed(1, ById(1)), I.Idle]) &&
      I.Step(w, I.Query(0, true)) == Base(u).(clients := [I.Holding(1, Some(u)), I.Idle])
  {
  }

  const ASKED := World([I.CacheGet(0, 1, false), I.Query(0, true)], Some(Flight(0, 0, Some(1))), map[], {})

  /** The flight of client 0 has its answer when client 1 starts to delete the row. */
  lemma FlightAsks(u: User)
    requires u.id == 1 && !u.deleted
    ensures var s := Step(Base(u), 1, START, Arrive(0));
      s == World([I.CacheGet(0, 1, false)], Some(Flight(0, 0, None)), map[], {}) &&
      Step(Base(u), 1, s, AskTable(true)) == ASKED
    ensures Now(Base(u), ASKED) == Base(u).(clients := [I.Holding(1, Some(u)), I.Idle])
  {
    var base := Base(u);
    AskSteps(u);
    DoStep(base, START, I.CacheGet(0, 1, false));
    var s := Step(base, 1, START, Arrive(0));
    DoStep(base, s, I.Query(0, true));
    assert Do(s, I.Query(0, true)).log == ASKED.log;
  }

  lemma DeleteSteps(w: I.World, u: User)
    requires u.id == 1 && !u.deleted && w == Base(u).(clients := [I.Holding(1, Some(u)), I.Idle])
    ensures var x := I.Step(I.Step(I.Step(w, I.ReadRow(1, 1, I.Erase)), I.Commit(1, true)), I.Purge(1));
      x.rows == map[1 := Erased(u)] && x.clients == [I.Holding(1, Some(u)), I.Idle]
  {
    var ready := I.Step(w, I.ReadRow(1, 1, I.Erase));
    assert ready == w.(clients := [I.Holding(1, Some(u)), I.Ready(I.Erase, u)]);
    var dirty := I.Step(ready, I.Commit(1, true));
    assert dirty.rows == map[1 := Erased(u)] && dirty.clients == [I.Holding(1, Some(u)), I.Dirty(1, I.Columns(u))];
  }

  const DELETION := [Other(I.ReadRow(1, 1, I.Erase)), Other(I.Commit(1, true)), Other(I.Purge(1))]

  lemma RunTwo(base: I.World, id: int, s: World, a: Act, b: Act)
    ensures Run(base, id, s, [a, b]) == Step(base, id, Step(base, id, s, a), b)
  {
    assert [a, b][1..] == [b] && [b][1..] == [];
    var mid := Step(base, id, s, a);
    assert Run(base, id, mid, [b]) == Step(base, id, mid, b);
  }

  lemma RunThree(base: I.World, id: int, s: World, a: Act, b: Act, c: Act)
    ensures Run(base, id, s, [a, b, c]) == Step(base, id, Step(base, id, Step(base, id, s, a), b), c)
  {
    assert [a, b, c][1..] == [b, c];
    RunTwo(base, id, Step(base, id, s, a), b, c);
  }

  lemma OtherStep(base: I.World, s: World, a: I.Act)
    requires I.ByNobody(a) || !Busy(s, a.c)
    ensures Step(base, 1, s, Other(a)) == Do(s, a) && Now(base, Do(s, a)) == I.Step(Now(base, s), a)
  {
    DoStep(base, s, a);
  }

  /** Client 1 deletes the row and its key while the flight is under way. */
  lemma DeleteMeanwhile(base: I.World, s: World, u: User)
    requires u.id == 1 && !u.deleted && s.flight == Some(Flight(0, 0, Some(1))) && s.waiting == map[]
    requires Now(base, s) == Base(u).(clients := [I.Holding(1, Some(u)), I.Idle])
    ensures var end := Run(base, 1, s, DELETION);
      && end == Do(Do(Do(s, I.ReadRow(1, 1, I.Erase)), I.Commit(1, true)), I.Purge(1))
      && Now(base, end).rows == map[1 := Erased(u)] && Now(base, end).clients == [I.Holding(1, Some(u)), I.Idle]
  {
    RunThree(base, 1, s, DELETION[0], DELETION[1], DELETION[2]);
    OtherStep(base, s, I.ReadRow(1, 1, I.Erase));
    var s1 := Do(s, I.ReadRow(1, 1, I.Erase));
    OtherStep(base, s1, I.Commit(1, true));
    OtherStep(base, Do(s1, I.Commit(1, true)), I.Purge(1));
    DeleteSteps(Now(base, s), u);
  }

  /** It then looks the row up itself, joins, and is told that the row it has deleted is there. */
  lemma JoinsTooLate(base: I.World, s: World, u: User)
    requires s.flight == Some(Flight(0, 0, Some(1))) && s.waiting == map[] && s.told == {} && |s.log| == 5
    requires u.id == 1 && Now(base, s).rows == map[1 := Erased(u)] && Now(base, s).clients == [I.Holding(1, Some(u)), I.Idle]
    ensures var end := Run(base, 1, s, [Arrive(1), Land(true)]);
      && Told(1, 5, 0, 1, I.Row(Some(u))) in end.told
      && |end.log| == 6 && I.Live(I.Run(base, end.log[..5]).rows, 1) == None
  {
    var acts := [Arrive(1), Land(true)];
    assert acts[1..] == [Land(true)] && acts[1..][1..] == [];
    var joined := Step(base, 1, s, Arrive(1));
    assert joined == s.(waiting := map[1 := 5]);
    var end := Step(base, 1, joined, Land(true));
    assert end.log[..5] == s.log;
  }

  lemma {:induction false} RunAppend(base: I.World, id: int, s: World, first: seq<Act>, later: seq<Act>)
    ensures Run(base, id, s, first + later) == Run(base, id, Run(base, id, s, first), later)
    decreases |first|
  {
    if first == [] {
      assert first + later == later;
    } else {
      assert (first + later)[1..] == first[1..] + later;
      RunAppend(base, id, Step(base, id, s, first[0]), first[1..], later);
    }
  }

  /**
   A caller may be told less than it knows: one that has deleted a row, and the row's key, and then
   joins a flight whose query had already run, is told that the row is there.
   */
  lemma FollowerMissesItsOwnWrite(u: User)
    requires u.id == 1 && !u.deleted
    ensures var acts := [Arrive(0), AskTable(true)] + DELETION + [Arrive(1), Land(true)];
      var end := Run(Base(u), 1, START, acts);
      && Told(1, 5, 0, 1, I.Row(Some(u))) in end.told
      && |end.log| == 6 && I.Live(I.Run(Base(u), end.log[..5]).rows, 1) == None
  {
    var base := Base(u);
    var asks: seq<Act>, joins: seq<Act> := [Arrive(0), AskTable(true)], [Arrive(1), Land(true)];
    FlightAsks(u);
    RunTwo(base, 1, START, Arrive(0), AskTable(true));
    DeleteMeanwhile(base, ASKED, u);
    RunAppend(base, 1, START, asks, DELETION);
    RunAppend(base, 1, START, asks + DELETION, joins);
    JoinsTooLate(base, Run(base, 1, ASKED, DELETION), u);
  }
}
