/**
 Overlapping lookups of one key that share a database query (`singleflight` in cache.go and
 cached_db.go). A row flight shares the row's bytes; an index flight shares only the primary key.
 */
module SharedFlight {
  import opened Wrappers
  import opened Users
  import opened Cache
  import Codec

  datatype Kind = RowFlight | IndexFlight

  datatype Phase = Asking | Landed(answer: Reply)

  datatype Flight = Flight(leader: nat, phase: Phase, queries: nat)

  datatype Caller = Away | Waiting(flight: nat) | Back(flight: nat, reply: Reply)

  datatype World = World(kind: Kind, current: Option<nat>, flights: seq<Flight>, callers: seq<Caller>)

  /** A caller that missed the cache joins; the query runs; the flight ends; a caller returns. */
  datatype Act = Join(c: nat) | Query(answer: Reply) | Return(c: nat)

  /** The zero value a caller's row starts as. */
  const NO_USER := User(0, "", "", Profile("", "", "", 0), 0, false)

  /** What a caller makes of the flight's result: the row is decoded from the shared bytes, or was never shared. */
  function CallerReply(kind: Kind, answer: Reply, leads: bool): Reply {
    if !answer.Found? then answer
    else if kind.RowFlight? then
      match Codec.Decode(Codec.Encode(answer.user)) {
        case Some(u) => Found(u)
        case None => Failed("undecodable")
      }
    else if leads then answer
    else Found(NO_USER)
  }

  function Step(s: World, a: Act): World {
    match a
    case Join(c) =>
      if c >= |s.callers| || s.callers[c].Waiting? then s
      else
        (match s.current {
          case Some(f) => s.(callers := s.callers[c := Waiting(f)])
          case None =>
            s.(current := Some(|s.flights|), flights := s.flights + [Flight(c, Asking, 0)], callers := s.callers[c := Waiting(|s.flights|)])
        })
    case Query(answer) =>
      (match s.current {
        case Some(f) =>
          if f < |s.flights| then
            s.(current := None, flights := s.flights[f := Flight(s.flights[f].leader, Landed(answer), s.flights[f].queries + 1)])
          else s
        case None => s
      })
    case Return(c) =>
      if c < |s.callers| && s.callers[c].Waiting? && s.callers[c].flight < |s.flights| && s.flights[s.callers[c].flight].phase.Landed? then
        var f := s.callers[c].flight;
        s.(callers := s.callers[c := Back(f, CallerReply(s.kind, s.flights[f].phase.answer, s.flights[f].leader == c))])
      else s
  }

  function Run(s: World, acts: seq<Act>): World
    decreases |acts|
  {
    if acts == [] then s else Run(Step(s, acts[0]), acts[1..])
  }

  ghost predicate Inv(s: World) {
    && (forall f | 0 <= f < |s.flights| :: s.flights[f].queries == (if s.flights[f].phase.Landed? then 1 else 0))
    && (s.current.Some? ==> s.current.value < |s.flights| && s.flights[s.current.value].phase.Asking?)
    && (forall c | 0 <= c < |s.callers| && s.callers[c].Back? ::
          var b := s.callers[c];
          b.flight < |s.flights| && s.flights[b.flight].phase.Landed? &&
          b.reply == CallerReply(s.kind, s.flights[b.flight].phase.answer, s.flights[b.flight].leader == c))
  }

  lemma {:induction false} RunInv(s: World, acts: seq<Act>)
    requires Inv(s)
    ensures Inv(Run(s, acts)) && Run(s, acts).kind == s.kind
    decreases |acts|
  {
    if acts != [] {
      assert Inv(Step(s, acts[0]));
      RunInv(Step(s, acts[0]), acts[1..]);
    }
  }

  /** Which caller gets the database's answer: in a row flight everyone; in an index flight the leader, or anyone if it is no row. */
  lemma ReplyExactly(kind: Kind, answer: Reply, leads: bool)
    ensures CallerReply(kind, answer, leads) == answer <==>
      kind.RowFlight? || leads || !answer.Found? || answer.user == NO_USER
  {
    if answer.Found? {
      Codec.DecodeEncode(answer.user);
    }
  }

  /**
   Flights agree. However callers overlap, a flight that any caller is back from ran exactly one
   query, and each of its callers got that query's answer, except that a follower of an index
   flight gets an empty row in place of the one found.
   */
  lemma FlightsAgree(kind: Kind, n: nat, acts: seq<Act>, c: nat)
    ensures var end := Run(World(kind, None, [], seq(n, _ => Away)), acts);
      c < |end.callers| && end.callers[c].Back? ==>
        var f := end.callers[c].flight;
        && f < |end.flights| && end.flights[f].phase.Landed? && end.flights[f].queries == 1
        && var answer := end.flights[f].phase.answer;
           end.callers[c].reply ==
             if kind.IndexFlight? && answer.Found? && end.flights[f].leader != c then Found(NO_USER) else answer
  {
    var start := World(kind, None, [], seq(n, _ => Away));
    RunInv(start, acts);
    var end := Run(start, acts);
    if c < |end.callers| && end.callers[c].Back? {
      var f := end.callers[c].flight;
      ReplyExactly(kind, end.flights[f].phase.answer, end.flights[f].leader == c);
    }
  }
}
