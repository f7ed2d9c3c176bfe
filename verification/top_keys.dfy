/** The per-key collector as one caller sees it, and its list of most used keys (per_key_metrics.go). */
module TopKeys {
  import opened Metrics

  datatype KeyStats = KeyStats(key: string, counts: Counts)

  function Rank(c: Counts): nat {
    c.hits + c.misses
  }

  ghost predicate Sorted(stats: seq<KeyStats>) {
    forall i, j | 0 <= i < j < |stats| :: Rank(stats[j].counts) <= Rank(stats[i].counts)
  }

  ghost predicate DistinctKeys(stats: seq<KeyStats>) {
    forall i, j | 0 <= i < j < |stats| :: stats[i].key != stats[j].key
  }

  /** `stats` lists every entry of `m` once. */
  ghost predicate Lists(stats: seq<KeyStats>, m: map<string, Counts>) {
    && DistinctKeys(stats)
    && (forall s :: s in stats <==> s.key in m && m[s.key] == s.counts)
  }

  /** The `n` highest ranked entries, or all of them: sorted, without repetition, none outranked by one left out. */
  ghost predicate Selection(top: seq<KeyStats>, n: nat, m: map<string, Counts>) {
    && |top| == (if n < |m| then n else |m|)
    && Sorted(top) && DistinctKeys(top)
    && (forall s | s in top :: s.key in m && m[s.key] == s.counts)
    && (forall s, key | s in top && key in m && KeyStats(key, m[key]) !in top :: Rank(m[key]) <= Rank(s.counts))
  }

  /** Below every entry that ranks at least as high. */
  function Insert(stats: seq<KeyStats>, s: KeyStats): seq<KeyStats> {
    if stats == [] || Rank(s.counts) > Rank(stats[0].counts) then [s] + stats
    else [stats[0]] + Insert(stats[1..], s)
  }

  lemma {:induction false} InsertAdds(stats: seq<KeyStats>, s: KeyStats)
    ensures multiset(Insert(stats, s)) == multiset(stats) + multiset{s}
  {
    if stats != [] {
      assert stats == [stats[0]] + stats[1..];
      InsertAdds(stats[1..], s);
    }
  }

  lemma {:induction false} InsertSorts(stats: seq<KeyStats>, s: KeyStats)
    requires Sorted(stats)
    ensures Sorted(Insert(stats, s))
  {
    if stats != [] && Rank(s.counts) <= Rank(stats[0].counts) {
      InsertSorts(stats[1..], s);
      var rest := Insert(stats[1..], s);
      InsertAdds(stats[1..], s);
      forall i | 0 <= i < |rest| ensures Rank(rest[i].counts) <= Rank(stats[0].counts) {
        assert rest[i] in multiset(rest);
        assert rest[i] == s || rest[i] in stats[1..];
      }
    }
  }

  /** `sort.Slice` leaves the order of equal ranks open; this is one of its outcomes. */
  method SortByRank(stats: seq<KeyStats>) returns (sorted: seq<KeyStats>)
    ensures Sorted(sorted) && multiset(sorted) == multiset(stats)
    ensures forall i, j | 0 <= i < j < |sorted| ::
      sorted[j].counts.hits + sorted[j].counts.misses <= sorted[i].counts.hits + sorted[i].counts.misses
  {
    sorted := [];
    for i := 0 to |stats|
      invariant Sorted(sorted) && multiset(sorted) == multiset(stats[..i])
    {
      InsertAdds(sorted, stats[i]);
      InsertSorts(sorted, stats[i]);
      sorted := Insert(sorted, stats[i]);
      assert stats[..i + 1] == stats[..i] + [stats[i]];
    }
    assert stats[..|stats|] == stats;
  }

  lemma {:induction false} CountDistinct(stats: seq<KeyStats>, keys: set<string>)
    requires DistinctKeys(stats) && forall key :: key in keys <==> exists s :: s in stats && s.key == key
    ensures |stats| == |keys|
  {
    if stats == [] {
      if keys != {} {
        if forall key :: key !in keys {
          assert false;
        }
      }
    } else {
      var rest := stats[..|stats| - 1];
      var last := stats[|stats| - 1];
      assert last in stats;
      forall key ensures key in keys - {last.key} <==> exists s :: s in rest && s.key == key {
        if s :| s in rest && s.key == key {
          assert s in stats;
        }
      }
      CountDistinct(rest, keys - {last.key});
    }
  }

  lemma SameListing(stats: seq<KeyStats>, sorted: seq<KeyStats>, m: map<string, Counts>)
    requires Lists(stats, m) && multiset(sorted) == multiset(stats)
    ensures Lists(sorted, m)
  {
    forall i, j | 0 <= i < j < |sorted| ensures sorted[i].key != sorted[j].key {
      if sorted[i].key == sorted[j].key {
        Twice(sorted, i, j);
        assert sorted[i] in multiset(sorted) && sorted[j] in multiset(sorted);
        assert sorted[i] == sorted[j];
        Once(stats, sorted[i]);
      }
    }
    forall s ensures s in sorted <==> s in stats {
      assert s in sorted <==> s in multiset(sorted);
      assert s in stats <==> s in multiset(stats);
    }
  }

  lemma Twice(stats: seq<KeyStats>, i: nat, j: nat)
    requires i < j < |stats|
    ensures stats[i] == stats[j] ==> multiset(stats)[stats[i]] >= 2
  {
    assert stats == stats[..j] + [stats[j]] + stats[j + 1..];
    assert stats[i] in stats[..j];
  }

  lemma {:induction false} Once(stats: seq<KeyStats>, s: KeyStats)
    requires DistinctKeys(stats)
    ensures multiset(stats)[s] <= 1
  {
    if stats != [] {
      var rest := stats[..|stats| - 1];
      assert stats == rest + [stats[|stats| - 1]];
      Once(rest, s);
      if s == stats[|stats| - 1] {
        assert s !in rest;
      }
    }
  }

  lemma ListingSize(stats: seq<KeyStats>, m: map<string, Counts>)
    requires Lists(stats, m)
    ensures |stats| == |m|
  {
    forall key ensures key in m.Keys <==> exists s :: s in stats && s.key == key {
      if key in m {
        assert KeyStats(key, m[key]) in stats;
      }
    }
    CountDistinct(stats, m.Keys);
    assert |m.Keys| == |m|;
  }

  /** An entry that is cut off stands behind every entry that is kept. */
  lemma CutRanksBelow(stats: seq<KeyStats>, n: nat, kept: KeyStats, cut: KeyStats)
    requires Sorted(stats) && n <= |stats| && kept in stats[..n] && cut in stats && cut !in stats[..n]
    ensures Rank(cut.counts) <= Rank(kept.counts)
  {
    var i :| 0 <= i < n && stats[i] == kept;
    var j :| 0 <= j < |stats| && stats[j] == cut;
    assert j < n ==> stats[..n][j] == cut;
  }

  /** Cutting any sorted listing after `n` entries selects the top `n`. */
  lemma PrefixSelects(stats: seq<KeyStats>, n: nat, m: map<string, Counts>)
    requires Lists(stats, m) && Sorted(stats)
    ensures Selection(if n < |stats| then stats[..n] else stats, n, m)
  {
    ListingSize(stats, m);
    if n < |stats| {
      forall s, key | s in stats[..n] && key in m && KeyStats(key, m[key]) !in stats[..n] ensures Rank(m[key]) <= Rank(s.counts) {
        CutRanksBelow(stats, n, s, KeyStats(key, m[key]));
      }
    }
  }

  class PerKeyMetrics {
    var entries: map<string, LocalMetrics>
    const overall: LocalMetrics
    const inner: LocalMetrics

    constructor (inner: LocalMetrics)
      ensures Valid() && Entries() == map[] && overall.Read() == NO_COUNTS && this.inner == inner && fresh(overall)
    {
      this.inner := inner;
      overall := new LocalMetrics();
      entries := map[];
    }

    ghost predicate Valid()
      reads this
    {
      && overall != inner
      && (forall k | k in entries :: entries[k] != overall && entries[k] != inner)
      && (forall j, k | j in entries && k in entries && entries[j] == entries[k] :: j == k)
    }

    function Entries(): map<string, Counts>
      reads this, entries.Values
    {
      map k | k in entries :: entries[k].Read()
    }

    method GetOrCreate(key: string) returns (entry: LocalMetrics)
      requires Valid()
      modifies `entries
      ensures Valid() && key in entries && entries[key] == entry
      ensures if key in old(entries) then entries == old(entries)
              else entries == old(entries)[key := entry] && fresh(entry) && entry.Read() == NO_COUNTS
    {
      if key in entries {
        return entries[key];
      }
      entry := new LocalMetrics();
      entries := entries[key := entry];
    }

    method RecordKey(e: Event, key: string)
      requires Valid()
      modifies this, entries.Values
      ensures Valid() && entries.Keys == old(entries).Keys + {key}
      ensures forall k | k in old(entries) :: entries[k] == old(entries)[k]
      ensures key !in old(entries) ==> fresh(entries[key])
      ensures entries[key].Read() == Bump(if key in old(entries) then old(entries[key].Read()) else NO_COUNTS, e)
      ensures forall k | k in old(entries) && k != key :: entries[k].Read() == old(entries[k].Read())
    {
      var entry := GetOrCreate(key);
      assert forall k | k in entries && k != key :: entries[k] != entry;
      entry.Tell(e, key);
    }

    /** The five event methods differ only in the event. */
    method Record(e: Event, key: string)
      requires Valid()
      modifies this, overall, inner, entries.Values
      ensures Valid()
      ensures overall.Read() == Bump(old(overall.Read()), e) && inner.Read() == Bump(old(inner.Read()), e)
      ensures Entries().Keys == old(Entries()).Keys + {key}
      ensures Entries()[key] == Bump(if key in old(Entries()) then old(Entries())[key] else NO_COUNTS, e)
      ensures forall k | k in old(Entries()) && k != key :: Entries()[k] == old(Entries())[k]
    {
      overall.Tell(e, key);
      RecordKey(e, key);
      inner.Tell(e, key);
    }

    /** The selection of the `n` keys with the most hits and misses. */
    method TopKeys(n: nat) returns (top: seq<KeyStats>)
      requires Valid()
      ensures Selection(top, n, Entries())
      ensures forall i, j | 0 <= i < j < |top| ::
        top[j].counts.hits + top[j].counts.misses <= top[i].counts.hits + top[i].counts.misses
      ensures forall i, key | 0 <= i < |top| && key in Entries() && (forall j | 0 <= j < |top| :: top[j].key != key) ::
        Entries()[key].hits + Entries()[key].misses <= top[i].counts.hits + top[i].counts.misses
    {
      var stats: seq<KeyStats> := [];
      var rest := entries.Keys;
      while rest != {}
        invariant rest <= entries.Keys
        invariant DistinctKeys(stats)
        invariant forall s :: s in stats <==> s.key in entries && s.key !in rest && entries[s.key].Read() == s.counts
        decreases |rest|
      {
        ghost var none := forall k :: k !in rest;
        if none {
          assert false;
        }
        var key :| key in rest;
        stats := stats + [KeyStats(key, entries[key].Read())];
        rest := rest - {key};
      }
      assert Lists(stats, Entries());
      var sorted := SortByRank(stats);
      SameListing(stats, sorted, Entries());
      PrefixSelects(sorted, n, Entries());
      top := if n < |sorted| then sorted[..n] else sorted;
    }
  }
}
