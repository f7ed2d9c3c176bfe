/** The background deletion a failed one leaves behind (delay.go). */
module DelayedDeletion {
  import opened Cache

  /**
   Attempts the deletion until one attempt reports no error, at most `maxRetries` times; `patience`
   is the number of pauses that complete before the context ends. `slept` lists the pauses begun,
   in milliseconds. An attempt the breaker rejects, or without a client, reports no error, so it
   ends the loop with nothing deleted.
   */
  method AsyncDel(cache: Redis, maxRetries: nat, waits: seq<nat>, keys: seq<string>, links: nat -> Link, patience: nat)
    returns (slept: seq<nat>)
    modifies cache`store
    // the first attempt that does not end in a Redis error decides
    ensures forall i: nat | i < maxRetries && i <= patience && links(i) != Errored && (forall j: nat | j < i :: links(j) == Errored) && keys != [] ::
      |slept| == i && cache.store == if links(i) == Done then Without(old(cache.store), keys) else old(cache.store)
    // if there is none among the attempts that the retries and the context allow, nothing is deleted
    ensures (forall i: nat | i < maxRetries && i <= patience :: links(i) == Errored) && keys != [] ==>
      cache.store == old(cache.store) &&
      |slept| == if maxRetries == 0 then 0 else if maxRetries - 1 <= patience then maxRetries - 1 else patience + 1
    ensures keys == [] ==> cache.store == old(cache.store) && slept == []
    ensures forall i | 0 <= i < |slept| :: slept[i] == if i < |waits| then waits[i] else 1000 * (i + 1)
    ensures maxRetries > 0 ==> |slept| < maxRetries
  {
    slept := [];
    for i := 0 to maxRetries
      invariant cache.store == old(cache.store)
      invariant |slept| == if i == 0 then 0 else i - 1
      invariant i <= patience + 1
      invariant i > 0 ==> keys != []
      invariant forall j: nat | j < i :: links(j) == Errored
      invariant forall j | 0 <= j < |slept| :: slept[j] == if j < |waits| then waits[j] else 1000 * (j + 1)
    {
      if i > 0 && i - 1 < |waits| {
        slept := slept + [waits[i - 1]];
        if i > patience {
          return;
        }
      } else if i > 0 {
        slept := slept + [1000 * i];
        if i > patience {
          return;
        }
      }
      var failed := cache.CacheDel(keys, links(i));
      if !failed {
        return;
      }
    }
  }

  /** With as many durations as retries the last duration is never waited for: the pauses are those before it. */
  lemma LastDurationUnused(waits: seq<nat>, slept: seq<nat>, maxRetries: nat)
    requires 0 < maxRetries <= |waits| && |slept| < maxRetries
    requires forall i | 0 <= i < |slept| :: slept[i] == if i < |waits| then waits[i] else 1000 * (i + 1)
    ensures slept <= waits[..maxRetries - 1]
  {
    assert forall i | 0 <= i < |slept| :: slept[i] == waits[i];
  }

  /** What a write starts when its deletion fails: three attempts, the second at once and the third a second later. */
  method RetryWrite(cache: Redis, keys: seq<string>, links: nat -> Link)
    requires keys != []
    modifies cache`store
    ensures cache.store == Without(old(cache.store), keys) || cache.store == old(cache.store)
    ensures links(0) == Done ==> cache.store == Without(old(cache.store), keys)
    ensures links(0) == Errored && links(1) == Done ==> cache.store == Without(old(cache.store), keys)
    ensures links(0) == Errored && links(1) == Errored && links(2) == Done ==> cache.store == Without(old(cache.store), keys)
    ensures links(0) == Errored && links(1) == Errored && links(2) == Errored ==> cache.store == old(cache.store)
    ensures (links(0) == Rejected || (links(0) == Errored && (links(1) == Rejected || (links(1) == Errored && links(2) == Rejected)))) ==>
      cache.store == old(cache.store)
  {
    var slept := AsyncDel(cache, 3, [0, 1000, 5000], keys, links, 3);
    assert links(0) == Errored && links(1) == Errored && links(2) == Errored ==> forall i: nat | i < 3 && i <= 3 :: links(i) == Errored;
    if links(0) != Errored {
      assert forall j: nat | j < 0 :: links(j) == Errored;
    } else if links(1) != Errored {
      assert forall j: nat | j < 1 :: links(j) == Errored;
    } else if links(2) != Errored {
      assert forall j: nat | j < 2 :: links(j) == Errored;
    }
  }
}
