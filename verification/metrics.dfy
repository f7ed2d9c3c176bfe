/** The cache counters (metrics.go). */
module Metrics {
  datatype Event = HitEvent | MissEvent | DBOpEvent | DbFailEvent | SingleFlightEvent

  datatype Counts = Counts(hits: nat, misses: nat, dbOps: nat, dbFails: nat, singleFlights: nat)

  const NO_COUNTS := Counts(0, 0, 0, 0, 0)

  function Bump(c: Counts, e: Event): Counts {
    match e
    case HitEvent => c.(hits := c.hits + 1)
    case MissEvent => c.(misses := c.misses + 1)
    case DBOpEvent => c.(dbOps := c.dbOps + 1)
    case DbFailEvent => c.(dbFails := c.dbFails + 1)
    case SingleFlightEvent => c.(singleFlights := c.singleFlights + 1)
  }

  function CountOf(c: Counts, e: Event): nat {
    match e
    case HitEvent => c.hits
    case MissEvent => c.misses
    case DBOpEvent => c.dbOps
    case DbFailEvent => c.dbFails
    case SingleFlightEvent => c.singleFlights
  }

  /** `math.Round` of a non-negative number. */
  function Round(x: real): int {
    (x + 0.5).Floor
  }

  /** Hits over hits plus misses, rounded to hundredths; 0 when nothing was counted. */
  function HitRate(c: Counts): real {
    if c.hits + c.misses == 0 then 0.0
    else Round(c.hits as real / (c.hits + c.misses) as real * 100.0) as real / 100.0
  }

  /** The reported rate is within half a hundredth of hits over hits plus misses. */
  lemma HitRateClose(c: Counts)
    requires c.hits + c.misses > 0
    ensures var share := c.hits as real / (c.hits + c.misses) as real; -0.005 <= HitRate(c) - share <= 0.005
    ensures HitRate(NO_COUNTS) == 0.0
  {
    var x := c.hits as real / (c.hits + c.misses) as real * 100.0;
    assert Round(x) as real <= x + 0.5 < Round(x) as real + 1.0;
  }

  lemma ScaleUp(a: real, b: real, c: real)
    requires a < b && 0.0 < c
    ensures a * c < b * c
  {
  }

  lemma ShareAtMostHalf(part: real, whole: real)
    requires 0.0 <= part && 2.0 * part <= whole && 0.0 < whole
    ensures 0.0 <= part / whole <= 0.5
  {
    var share := part / whole;
    assert share * whole == part;
    if share > 0.5 {
      ScaleUp(0.5, share, whole);
    }
    if share < 0.0 {
      ScaleUp(share, 0.0, whole);
    }
  }

  /** A lookup counts its miss first and its hit on top, so the reported rate cannot pass one half. */
  lemma HitRateAtMostHalf(c: Counts)
    requires c.hits <= c.misses
    ensures 0.0 <= HitRate(c) <= 0.5
  {
    if c.hits + c.misses != 0 {
      ShareAtMostHalf(c.hits as real, (c.hits + c.misses) as real);
    }
  }

  class LocalMetrics {
    var hits: nat
    var misses: nat
    var dbOps: nat
    var dbFails: nat
    var singleFlights: nat

    constructor ()
      ensures Read() == NO_COUNTS
    {
      hits, misses, dbOps, dbFails, singleFlights := 0, 0, 0, 0, 0;
    }

    function Read(): Counts
      reads this
    {
      Counts(hits, misses, dbOps, dbFails, singleFlights)
    }

    method Hit(key: string)
      modifies this
      ensures Read() == Bump(old(Read()), HitEvent)
      ensures hits == old(hits) + 1 && misses == old(misses) && dbOps == old(dbOps) && dbFails == old(dbFails) && singleFlights == old(singleFlights)
    {
      hits := hits + 1;
    }

    method Miss(key: string)
      modifies this
      ensures Read() == Bump(old(Read()), MissEvent)
      ensures misses == old(misses) + 1 && hits == old(hits) && dbOps == old(dbOps) && dbFails == old(dbFails) && singleFlights == old(singleFlights)
    {
      misses := misses + 1;
    }

    method DBOp(key: string)
      modifies this
      ensures Read() == Bump(old(Read()), DBOpEvent)
      ensures dbOps == old(dbOps) + 1 && hits == old(hits) && misses == old(misses) && dbFails == old(dbFails) && singleFlights == old(singleFlights)
    {
      dbOps := dbOps + 1;
    }

    method DbFail(key: string)
      modifies this
      ensures Read() == Bump(old(Read()), DbFailEvent)
      ensures dbFails == old(dbFails) + 1 && hits == old(hits) && misses == old(misses) && dbOps == old(dbOps) && singleFlights == old(singleFlights)
    {
      dbFails := dbFails + 1;
    }

    method SingleFlight(key: string)
      modifies this
      ensures Read() == Bump(old(Read()), SingleFlightEvent)
      ensures singleFlights == old(singleFlights) + 1 && hits == old(hits) && misses == old(misses) && dbOps == old(dbOps) && dbFails == old(dbFails)
    {
      singleFlights := singleFlights + 1;
    }

    /** Whichever of the five. */
    method Tell(e: Event, key: string)
      modifies this
      ensures Read() == Bump(old(Read()), e)
    {
      match e
      case HitEvent => Hit(key);
      case MissEvent => Miss(key);
      case DBOpEvent => DBOp(key);
      case DbFailEvent => DbFail(key);
      case SingleFlightEvent => SingleFlight(key);
    }
  }
}
