/** Fan-out of cache events to several collectors (composite_metrics.go). */
module CompositeMetricsCollector {
  import opened Metrics

  /**
   What the constructor is given: a missing collector, or one that counts and may or may not be
   readable. The five counters stand for whatever a collector does with the events it is told.
   */
  datatype Collector = Nil | Counting(counters: LocalMetrics, readable: bool)

  /** The collectors that exist, in order. */
  function Present(given: seq<Collector>): seq<LocalMetrics> {
    if given == [] then []
    else
      var last := given[|given| - 1];
      Present(given[..|given| - 1]) + if last.Nil? then [] else [last.counters]
  }

  /** Each collector that exists occurs as often as it was given, readable or not. */
  lemma {:induction false} PresentAll(given: seq<Collector>, m: LocalMetrics)
    ensures multiset(Present(given))[m] == multiset(given)[Counting(m, true)] + multiset(given)[Counting(m, false)]
  {
    if given != [] {
      var rest, last := given[..|given| - 1], given[|given| - 1];
      PresentAll(rest, m);
      assert given == rest + [last];
      assert multiset(given) == multiset(rest) + multiset{last};
      if last.Nil? {
        assert Present(given) == Present(rest);
      } else {
        assert multiset(Present(given)) == multiset(Present(rest)) + multiset{last.counters};
        assert last == Counting(last.counters, last.readable);
      }
    }
  }

  lemma {:induction false} OccurrencesAre(ms: seq<LocalMetrics>, n: nat, m: LocalMetrics)
    requires n <= |ms|
    ensures Occurrences(ms, n, m) == multiset(ms[..n])[m]
  {
    if n > 0 {
      assert ms[..n] == ms[..n - 1] + [ms[n - 1]];
      OccurrencesAre(ms, n - 1, m);
    }
  }

  /** How often `m` is among the first `n` collectors. */
  function Occurrences(ms: seq<LocalMetrics>, n: nat, m: LocalMetrics): nat
    requires n <= |ms|
  {
    if n == 0 then 0 else Occurrences(ms, n - 1, m) + if ms[n - 1] == m then 1 else 0
  }

  function BumpBy(c: Counts, e: Event, n: nat): Counts {
    if n == 0 then c else Bump(BumpBy(c, e, n - 1), e)
  }

  lemma {:induction false} BumpByCounts(c: Counts, e: Event, n: nat, f: Event)
    ensures CountOf(BumpBy(c, e, n), f) == CountOf(c, f) + if f == e then n else 0
  {
    if n > 0 {
      BumpByCounts(c, e, n - 1, f);
    }
  }

  lemma {:induction false} OccursIn(ms: seq<LocalMetrics>, n: nat, m: LocalMetrics)
    requires n <= |ms| && Occurrences(ms, n, m) > 0
    ensures m in ms
  {
    if ms[n - 1] != m {
      OccursIn(ms, n - 1, m);
    }
  }

  class CompositeMetrics {
    var collectors: seq<LocalMetrics>
    var reader: LocalMetrics?

    /** Reads come from the first collector that can be read. */
    constructor (given: seq<Collector>)
      ensures collectors == Present(given)
      ensures forall m :: multiset(collectors)[m] == multiset(given)[Counting(m, true)] + multiset(given)[Counting(m, false)]
      ensures reader == null ==> forall c | c in given :: c.Counting? ==> !c.readable
      ensures reader != null ==>
        exists i | 0 <= i < |given| ::
          given[i] == Counting(reader, true) && forall j | 0 <= j < i :: given[j].Counting? ==> !given[j].readable
    {
      collectors := [];
      reader := null;
      new;
      for i := 0 to |given|
        invariant collectors == Present(given[..i])
        invariant reader == null ==> forall j | 0 <= j < i :: given[j].Counting? ==> !given[j].readable
        invariant reader != null ==>
          exists k | 0 <= k < i ::
            given[k] == Counting(reader, true) && forall j | 0 <= j < k :: given[j].Counting? ==> !given[j].readable
      {
        var collector := given[i];
        assert given[..i + 1][..i] == given[..i];
        if collector.Counting? {
          collectors := collectors + [collector.counters];
          if reader == null && collector.readable {
            reader := collector.counters;
            assert given[i] == Counting(reader, true);
          }
        }
      }
      assert given[..|given|] == given;
      forall m ensures multiset(collectors)[m] == multiset(given)[Counting(m, true)] + multiset(given)[Counting(m, false)] {
        PresentAll(given, m);
      }
    }

    /** The counts come from the reader alone; without one they are zero. */
    function Read(): Counts
      reads this, reader
    {
      if reader == null then NO_COUNTS else reader.Read()
    }

    /**
     The five event methods differ only in the event they pass on. Each collector gets the
     event as often as it was given; a reader given once therefore reports it once.
     */
    method Record(e: Event, key: string)
      modifies set m | m in collectors
      ensures forall m | m in collectors :: m.Read() == BumpBy(old(m.Read()), e, Occurrences(collectors, |collectors|, m))
      ensures forall m, f | m in collectors ::
        CountOf(m.Read(), f) == CountOf(old(m.Read()), f) + if f == e then multiset(collectors)[m] else 0
      ensures reader != null && Occurrences(collectors, |collectors|, reader) == 1 ==> Read() == Bump(old(Read()), e)
    {
      for i := 0 to |collectors|
        invariant forall m | m in collectors :: m.Read() == BumpBy(old(m.Read()), e, Occurrences(collectors, i, m))
      {
        assert collectors[i] in collectors;
        collectors[i].Tell(e, key);
      }
      assert collectors[..|collectors|] == collectors;
      forall m, f | m in collectors
        ensures CountOf(m.Read(), f) == CountOf(old(m.Read()), f) + if f == e then multiset(collectors)[m] else 0
      {
        OccurrencesAre(collectors, |collectors|, m);
        BumpByCounts(old(m.Read()), e, multiset(collectors)[m], f);
      }
      if reader != null && Occurrences(collectors, |collectors|, reader) == 1 {
        OccursIn(collectors, |collectors|, reader);
        assert BumpBy(old(Read()), e, 1) == Bump(BumpBy(old(Read()), e, 0), e);
      }
    }
  }
}
