/** The token bucket (ratelimit.go), over real numbers. */
module RateLimit {
  datatype Bucket = Bucket(rate: real, burst: int, tokens: real, last: real)

  datatype Event = Ask | Tick(now: real)

  predicate Admits(b: Bucket) {
    b.tokens >= 1.0
  }

  /** A refused request also throws the remaining fraction of a token away. */
  function Asked(b: Bucket): Bucket {
    b.(tokens := if Admits(b) then b.tokens - 1.0 else 0.0)
  }

  function Gain(rate: real, since: real, now: real): real {
    (now - since) * rate
  }

  /** What the bucket would hold at `now` without the cap. */
  function Refilled(b: Bucket, now: real): real {
    b.tokens + Gain(b.rate, b.last, now)
  }

  function Ticked(b: Bucket, now: real): Bucket {
    if now <= b.last then b
    else b.(tokens := Min(Refilled(b, now), b.burst as real), last := now)
  }

  function Min(a: real, b: real): real {
    if b < a then b else a
  }

  function Step(b: Bucket, e: Event): Bucket {
    match e
    case Ask => Asked(b)
    case Tick(now) => Ticked(b, now)
  }

  function Run(b: Bucket, events: seq<Event>): Bucket
    decreases |events|
  {
    if events == [] then b else Run(Step(b, events[0]), events[1..])
  }

  function AdmittedBy(b: Bucket, e: Event): nat {
    if e.Ask? && Admits(b) then 1 else 0
  }

  /** Tokens lost over the cap, or with a refused request. */
  function DiscardedBy(b: Bucket, e: Event): real {
    match e
    case Ask => if Admits(b) then 0.0 else b.tokens
    case Tick(now) =>
      if now > b.last && Refilled(b, now) > b.burst as real then Refilled(b, now) - b.burst as real else 0.0
  }

  /** Requests admitted in a run. */
  function Admitted(b: Bucket, events: seq<Event>): nat
    decreases |events|
  {
    if events == [] then 0 else AdmittedBy(b, events[0]) + Admitted(Step(b, events[0]), events[1..])
  }

  /** Tokens lost in a run. */
  function Discarded(b: Bucket, events: seq<Event>): real
    decreases |events|
  {
    if events == [] then 0.0 else DiscardedBy(b, events[0]) + Discarded(Step(b, events[0]), events[1..])
  }

  predicate Sound(b: Bucket) {
    b.rate >= 0.0 && b.burst >= 0 && 0.0 <= b.tokens <= b.burst as real
  }

  lemma GainGrows(rate: real, since: real, now: real)
    requires rate >= 0.0 && now >= since
    ensures Gain(rate, since, now) >= 0.0
  {
  }

  /** The gain of the laws below is rate times elapsed time. */
  lemma GainIs(rate: real, since: real, now: real)
    ensures Gain(rate, since, now) == rate * (now - since)
  {
  }

  lemma GainNone(rate: real, t: real)
    ensures Gain(rate, t, t) == 0.0
  {
    assert t - t == 0.0;
  }

  lemma GainAdds(rate: real, a: real, b: real, c: real)
    ensures Gain(rate, a, c) == Gain(rate, a, b) + Gain(rate, b, c)
  {
  }

  /** One step: it keeps the bounds, discards nothing negative, and accounts for every token. */
  predicate Conserves(b: Bucket, e: Event) {
    var next := Step(b, e);
    && Sound(next) && next.rate == b.rate && next.burst == b.burst && next.last >= b.last
    && DiscardedBy(b, e) >= 0.0
    && AdmittedBy(b, e) as real + next.tokens + DiscardedBy(b, e) == b.tokens + Gain(b.rate, b.last, next.last)
  }

  lemma AskConserved(b: Bucket)
    requires Sound(b)
    ensures Conserves(b, Ask)
  {
    GainNone(b.rate, b.last);
  }

  lemma TickConserved(b: Bucket, now: real)
    requires Sound(b)
    ensures Conserves(b, Tick(now))
  {
    var e := Tick(now);
    if now <= b.last {
      GainNone(b.rate, b.last);
      assert Step(b, e) == b;
    } else {
      GainGrows(b.rate, b.last, now);
      assert Step(b, e) == b.(tokens := Min(Refilled(b, now), b.burst as real), last := now);
      assert DiscardedBy(b, e) == Refilled(b, now) - Step(b, e).tokens;
    }
  }

  lemma StepConserved(b: Bucket, e: Event)
    requires Sound(b)
    ensures Conserves(b, e)
  {
    match e
    case Ask => AskConserved(b);
    case Tick(now) => TickConserved(b, now);
  }

  /** Token conservation: over every run, what was there and came in is admitted, still there, or discarded. */
  lemma {:induction false} TokensConserved(b: Bucket, events: seq<Event>)
    requires Sound(b)
    ensures var end := Run(b, events);
      && Sound(end) && end.rate == b.rate && end.burst == b.burst && end.last >= b.last
      && Discarded(b, events) >= 0.0
      && Admitted(b, events) as real + end.tokens + Discarded(b, events) == b.tokens + Gain(b.rate, b.last, end.last)
    decreases |events|
  {
    if events == [] {
      GainNone(b.rate, b.last);
    } else {
      var next, rest := Step(b, events[0]), events[1..];
      StepConserved(b, events[0]);
      TokensConserved(next, rest);
      GainAdds(b.rate, b.last, next.last, Run(next, rest).last);
    }
  }

  // -------- who is admitted

  function Asks(n: nat): seq<Event> {
    if n == 0 then [] else [Ask] + Asks(n - 1)
  }

  lemma {:induction false} NothingLeft(b: Bucket, n: nat)
    requires b.tokens == 0.0
    ensures Admitted(b, Asks(n)) == 0
    decreases n
  {
    if n > 0 {
      assert Asks(n)[1..] == Asks(n - 1);
      NothingLeft(Asked(b), n - 1);
    }
  }

  /** Without refills, n requests in a row are all admitted exactly if there are n tokens, and otherwise as many as there are whole tokens. */
  lemma {:induction false} AdmittedExactly(b: Bucket, n: nat)
    requires b.tokens >= 0.0
    ensures Admitted(b, Asks(n)) == if b.tokens >= n as real then n else b.tokens.Floor
    ensures Admitted(b, Asks(n)) == n <==> b.tokens >= n as real
    decreases n
  {
    if n > 0 {
      assert Asks(n)[1..] == Asks(n - 1);
      assert Step(b, Ask) == Asked(b) && Admitted(b, Asks(n)) == AdmittedBy(b, Ask) + Admitted(Asked(b), Asks(n - 1));
      if b.tokens >= 1.0 {
        AdmittedExactly(Asked(b), n - 1);
        assert (n - 1) as real == n as real - 1.0;
        assert (b.tokens - 1.0).Floor == b.tokens.Floor - 1;
      } else {
        assert b.tokens.Floor == 0;
        NothingLeft(Asked(b), n - 1);
      }
    }
  }

  /** Between any two moments no more requests pass than one burst plus what the elapsed time refills. */
  lemma AdmissionBound(b: Bucket, before: seq<Event>, window: seq<Event>)
    requires Sound(b)
    ensures var start := Run(b, before);
      Admitted(start, window) as real <= b.burst as real + Gain(b.rate, start.last, Run(start, window).last)
  {
    TokensConserved(b, before);
    TokensConserved(Run(b, before), window);
  }

  function New(rate: real, burst: int): Bucket {
    Bucket(rate, burst, 0.0, 0.0)
  }

  /** A new limiter stays within its bounds over every run exactly if its rate and burst are not negative. */
  lemma BoundsExactly(rate: real, burst: int)
    ensures (forall events :: 0.0 <= Run(New(rate, burst), events).tokens <= burst as real) <==> rate >= 0.0 && burst >= 0
  {
    var b := New(rate, burst);
    if rate >= 0.0 && burst >= 0 {
      forall events ensures 0.0 <= Run(b, events).tokens <= burst as real {
        TokensConserved(b, events);
      }
    } else if burst < 0 {
      assert Run(b, []).tokens == 0.0;
    } else {
      var tick := [Tick(1.0)];
      assert tick[1..] == [];
      assert Run(b, tick) == Ticked(b, 1.0);
      assert Gain(rate, 0.0, 1.0) == rate;
    }
  }

  // -------- refilling

  function Ticks(times: seq<real>): seq<Event> {
    seq(|times|, i requires 0 <= i < |times| => Tick(times[i]))
  }

  function Latest(last: real, times: seq<real>): real
    decreases |times|
  {
    if times == [] then last else Latest(if times[0] > last then times[0] else last, times[1..])
  }

  lemma TickTwice(b: Bucket, x: real, y: real)
    requires b.rate >= 0.0
    ensures Ticked(Ticked(b, x), y) == Ticked(b, if y > x then y else x)
  {
    if b.last < x < y {
      GainAdds(b.rate, b.last, x, y);
      GainGrows(b.rate, x, y);
    }
  }

  lemma {:induction false} LatestIs(last: real, times: seq<real>)
    ensures Latest(last, times) >= last && forall t | t in times :: Latest(last, times) >= t
    ensures Latest(last, times) == last || Latest(last, times) in times
    decreases |times|
  {
    if times != [] {
      LatestIs(if times[0] > last then times[0] else last, times[1..]);
      assert forall t | t in times :: t == times[0] || t in times[1..];
    }
  }

  /** Refill law: between two requests any clock readings, in any order, add up to the latest one alone. */
  lemma {:induction false} RefillLaw(b: Bucket, times: seq<real>)
    requires b.rate >= 0.0
    ensures Run(b, Ticks(times)) == Ticked(b, Latest(b.last, times))
    decreases |times|
  {
    if times != [] {
      var next := Ticked(b, times[0]);
      assert Ticks(times)[1..] == Ticks(times[1..]);
      RefillLaw(next, times[1..]);
      LatestIs(next.last, times[1..]);
      TickTwice(b, times[0], Latest(next.last, times[1..]));
    }
  }

  class Limiter {
    const rate: real
    const burst: int
    var tokens: real
    var last: real

    constructor (rate: real, burst: int)
      ensures Now() == New(rate, burst)
      ensures this.rate == rate && this.burst == burst && tokens == 0.0 && last == 0.0
    {
      this.rate := rate;
      this.burst := burst;
      tokens := 0.0;
      last := 0.0;
    }

    function Now(): Bucket
      reads this
    {
      Bucket(rate, burst, tokens, last)
    }

    method Allow() returns (allowed: bool)
      modifies `tokens
      ensures allowed == Admits(old(Now())) && Now() == Asked(old(Now()))
      ensures allowed <==> old(tokens) >= 1.0
      ensures tokens == if allowed then old(tokens) - 1.0 else 0.0
    {
      if tokens < 1.0 {
        tokens := 0.0;
        return false;
      }
      tokens := tokens - 1.0;
      return true;
    }

    method AddTokens(now: real)
      modifies `tokens, `last
      ensures Now() == Ticked(old(Now()), now)
      ensures now <= old(last) ==> tokens == old(tokens) && last == old(last)
      ensures now > old(last) ==> last == now
      ensures now > old(last) ==>
        tokens == if old(tokens) + (now - old(last)) * rate > burst as real then burst as real else old(tokens) + (now - old(last)) * rate
    {
      var elapsed := now - last;
      if elapsed > 0.0 {
        tokens := tokens + elapsed * rate;
        if tokens > burst as real {
          tokens := burst as real;
        }
        last := now;
      }
    }
  }
}
