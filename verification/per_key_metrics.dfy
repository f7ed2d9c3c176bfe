/** Counters per key (per_key_metrics.go): concurrent increments, and the most used keys. */
module PerKey {
  import opened Metrics

  // -------- increments, one atomic operation at a time

  /** Where a caller of `Hit`, `Miss` and the like stands. */
  datatype Client =
    | Idle
    | Counted(e: Event, key: string)               // the overall counter is up; looks the entry up next
    | Made(e: Event, key: string, entry: nat)      // found none and has allocated its own; publishes it next
    | Resolved(e: Event, key: string, entry: nat)  // has the published entry; counts there next
    | Logged(e: Event, key: string)                // tells the inner collector next

  /** `heap` holds every entry ever allocated, `keys` the published ones. */
  datatype World = World(overall: Counts, heap: seq<Counts>, keys: map<string, nat>, inner: Counts, clients: seq<Client>)

  datatype Act = Begin(c: nat, e: Event, key: string) | Load(c: nat) | LoadOrStore(c: nat) | Add(c: nat) | Inner(c: nat)

  function Step(s: World, a: Act): World {
    if a.c >= |s.clients| then s
    else
      match (a, s.clients[a.c])
      case (Begin(c, e, key), Idle) =>
        s.(overall := Bump(s.overall, e), clients := s.clients[c := Counted(e, key)])
      case (Load(c), Counted(e, key)) =>
        if key in s.keys then s.(clients := s.clients[c := Resolved(e, key, s.keys[key])])
        else s.(heap := s.heap + [NO_COUNTS], clients := s.clients[c := Made(e, key, |s.heap|)])
      case (LoadOrStore(c), Made(e, key, entry)) =>
        if key in s.keys then s.(clients := s.clients[c := Resolved(e, key, s.keys[key])])
        else s.(keys := s.keys[key := entry], clients := s.clients[c := Resolved(e, key, entry)])
      case (Add(c), Resolved(e, key, entry)) =>
        if entry < |s.heap| then
          s.(heap := s.heap[entry := Bump(s.heap[entry], e)], clients := s.clients[c := Logged(e, key)])
        else s
      case (Inner(c), Logged(e, key)) => s.(inner := Bump(s.inner, e), clients := s.clients[c := Idle])
      case _ => s
  }

  function Run(s: World, acts: seq<Act>): World
    decreases |acts|
  {
    if acts == [] then s else Run(Step(s, acts[0]), acts[1..])
  }

  function Start(n: nat): World {
    World(NO_COUNTS, [], map[], NO_COUNTS, seq(n, _ => Idle))
  }

  predicate Addressed(s: World) {
    forall key | key in s.keys :: s.keys[key] < |s.heap|
  }

  /** The counts published under each key. */
  function Entries(s: World): map<string, Counts>
    requires Addressed(s)
  {
    map key | key in s.keys :: s.heap[s.keys[key]]
  }

  lemma AnyKey(keys: set<string>)
    requires keys != {}
    ensures exists key :: key in keys
  {
    if forall key :: key !in keys {
      assert false;
    }
  }

  ghost function Sum(m: map<string, Counts>, keys: set<string>, e: Event): nat
    requires keys <= m.Keys
  {
    if keys == {} then 0
    else
      AnyKey(keys);
      var key :| key in keys;
      CountOf(m[key], e) + Sum(m, keys - {key}, e)
  }

  ghost function Total(m: map<string, Counts>, e: Event): nat {
    Sum(m, m.Keys, e)
  }

  lemma {:induction false} SumSplit(m: map<string, Counts>, keys: set<string>, key: string, e: Event)
    requires keys <= m.Keys && key in keys
    ensures Sum(m, keys, e) == CountOf(m[key], e) + Sum(m, keys - {key}, e)
    decreases |keys|
  {
    AnyKey(keys);
    var pick :| pick in keys && Sum(m, keys, e) == CountOf(m[pick], e) + Sum(m, keys - {pick}, e);
    if pick != key {
      SumSplit(m, keys - {pick}, key, e);
      SumSplit(m, keys - {key}, pick, e);
      assert keys - {pick} - {key} == keys - {key} - {pick};
    }
  }

  lemma {:induction false} SumElsewhere(m: map<string, Counts>, keys: set<string>, key: string, counts: Counts, e: Event)
    requires keys <= m.Keys && key !in keys
    ensures Sum(m[key := counts], keys, e) == Sum(m, keys, e)
    decreases |keys|
  {
    if keys != {} {
      AnyKey(keys);
      var pick :| pick in keys;
      SumSplit(m, keys, pick, e);
      SumSplit(m[key := counts], keys, pick, e);
      SumElsewhere(m, keys - {pick}, key, counts, e);
    }
  }

  lemma TotalPut(m: map<string, Counts>, key: string, counts: Counts, e: Event)
    ensures Total(m[key := counts], e) + (if key in m then CountOf(m[key], e) else 0) == Total(m, e) + CountOf(counts, e)
  {
    var others := m.Keys - {key};
    assert m[key := counts].Keys - {key} == others;
    SumSplit(m[key := counts], m[key := counts].Keys, key, e);
    SumElsewhere(m, others, key, counts, e);
    if key in m {
      SumSplit(m, m.Keys, key, e);
    } else {
      assert others == m.Keys;
    }
  }

  /** Callers that have raised the overall counter for `e` but no entry yet. */
  predicate Uncounted(p: Client, e: Event) {
    (p.Counted? || p.Made? || p.Resolved?) && p.e == e
  }

  /** Callers that have raised the entry but not told the inner collector yet. */
  predicate Untold(p: Client, e: Event) {
    p.Logged? && p.e == e
  }

  function UncountedIn(clients: seq<Client>, e: Event): nat {
    if clients == [] then 0
    else (if Uncounted(clients[0], e) then 1 else 0) + UncountedIn(clients[1..], e)
  }

  function UntoldIn(clients: seq<Client>, e: Event): nat {
    if clients == [] then 0
    else (if Untold(clients[0], e) then 1 else 0) + UntoldIn(clients[1..], e)
  }

  lemma {:induction false} Replaced(clients: seq<Client>, c: nat, p: Client, e: Event)
    requires c < |clients|
    ensures UncountedIn(clients[c := p], e) + (if Uncounted(clients[c], e) then 1 else 0) ==
      UncountedIn(clients, e) + (if Uncounted(p, e) then 1 else 0)
    ensures UntoldIn(clients[c := p], e) + (if Untold(clients[c], e) then 1 else 0) ==
      UntoldIn(clients, e) + (if Untold(p, e) then 1 else 0)
  {
    if c == 0 {
      assert clients[0 := p][1..] == clients[1..];
    } else {
      assert clients[c := p][1..] == clients[1..][c - 1 := p];
      Replaced(clients[1..], c - 1, p, e);
    }
  }

  // -------- the invariant

  /** A resolved entry is the published one; an entry not published yet is empty. */
  ghost predicate ClientOk(s: World, p: Client) {
    match p
    case Resolved(_, key, entry) => key in s.keys && s.keys[key] == entry
    case Made(_, _, entry) => entry < |s.heap| && s.heap[entry] == NO_COUNTS && forall key | key in s.keys :: s.keys[key] != entry
    case _ => true
  }

  ghost predicate Apart(s: World, c: nat, p: Client) {
    p.Made? ==> forall d | 0 <= d < |s.clients| && d != c && s.clients[d].Made? :: s.clients[d].entry != p.entry
  }

  ghost predicate Published(s: World) {
    && Addressed(s)
    && (forall j, k | j in s.keys && k in s.keys && s.keys[j] == s.keys[k] :: j == k)
    && (forall c | 0 <= c < |s.clients| :: ClientOk(s, s.clients[c]) && Apart(s, c, s.clients[c]))
  }

  predicate BalancedWith(s: World, e: Event, total: nat) {
    && CountOf(s.overall, e) == total + UncountedIn(s.clients, e)
    && total == CountOf(s.inner, e) + UntoldIn(s.clients, e)
  }

  ghost predicate Balanced(s: World, e: Event)
    requires Addressed(s)
  {
    BalancedWith(s, e, Total(Entries(s), e))
  }

  lemma MoveOk(s: World, c: nat, p: Client)
    requires Published(s) && c < |s.clients| && ClientOk(s, p) && Apart(s, c, p)
    ensures Published(s.(clients := s.clients[c := p]))
  {
    var next := s.(clients := s.clients[c := p]);
    forall d | 0 <= d < |next.clients| ensures ClientOk(next, next.clients[d]) && Apart(next, d, next.clients[d]) {
      assert ClientOk(s, next.clients[d]);
      assert d != c ==> Apart(s, d, s.clients[d]);
    }
  }

  lemma AllocateOk(s: World)
    requires Published(s)
    ensures Published(s.(heap := s.heap + [NO_COUNTS])) && Entries(s.(heap := s.heap + [NO_COUNTS])) == Entries(s)
  {
    var next := s.(heap := s.heap + [NO_COUNTS]);
    forall d | 0 <= d < |next.clients| ensures ClientOk(next, next.clients[d]) && Apart(next, d, next.clients[d]) {
      assert ClientOk(s, next.clients[d]) && Apart(s, d, next.clients[d]);
    }
  }

  lemma LoadMissOk(s: World, c: nat)
    requires Published(s) && c < |s.clients| && s.clients[c].Counted? && s.clients[c].key !in s.keys
    ensures Published(Step(s, Load(c))) && Entries(Step(s, Load(c))) == Entries(s)
  {
    AllocateOk(s);
    var next := s.(heap := s.heap + [NO_COUNTS]);
    var p := Made(s.clients[c].e, s.clients[c].key, |s.heap|);
    forall d | 0 <= d < |s.clients| && d != c && s.clients[d].Made? ensures s.clients[d].entry != p.entry {
      assert ClientOk(s, s.clients[d]);
    }
    MoveOk(next, c, p);
  }

  lemma PublishOk(s: World, c: nat)
    requires Published(s) && c < |s.clients| && s.clients[c].Made? && s.clients[c].key !in s.keys
    ensures var next := Step(s, LoadOrStore(c)); Published(next) && Entries(next) == Entries(s)[s.clients[c].key := NO_COUNTS]
  {
    var p, next := s.clients[c], Step(s, LoadOrStore(c));
    assert ClientOk(s, p) && Apart(s, c, p);
    forall d | 0 <= d < |next.clients| ensures ClientOk(next, next.clients[d]) && Apart(next, d, next.clients[d]) {
      assert ClientOk(s, s.clients[d]) && Apart(s, d, s.clients[d]);
    }
  }

  lemma AddOk(s: World, c: nat)
    requires Published(s) && c < |s.clients| && s.clients[c].Resolved?
    ensures var (p, next) := (s.clients[c], Step(s, Add(c)));
      Published(next) && p.key in Entries(s) && Entries(next) == Entries(s)[p.key := Bump(Entries(s)[p.key], p.e)]
  {
    var p, next := s.clients[c], Step(s, Add(c));
    assert ClientOk(s, p);
    forall d | 0 <= d < |next.clients| ensures ClientOk(next, next.clients[d]) && Apart(next, d, next.clients[d]) {
      assert ClientOk(s, s.clients[d]) && Apart(s, d, s.clients[d]);
    }
  }

  /** What a step does to the published counts: it raises one counter of one key, publishes an empty entry, or nothing. */
  lemma StepEntries(s: World, a: Act)
    requires Published(s)
    ensures Published(Step(s, a))
    ensures var (before, after) := (Entries(s), Entries(Step(s, a)));
      if a.Add? && a.c < |s.clients| && s.clients[a.c].Resolved? then
        var p := s.clients[a.c]; p.key in before && after == before[p.key := Bump(before[p.key], p.e)]
      else if a.LoadOrStore? && a.c < |s.clients| && s.clients[a.c].Made? && s.clients[a.c].key !in s.keys then
        after == before[s.clients[a.c].key := NO_COUNTS]
      else after == before
  {
    if a.c < |s.clients| {
      var p := s.clients[a.c];
      assert ClientOk(s, p);
      match (a, p)
      case (Begin(c, e, key), Idle) => MoveOk(s, c, Counted(e, key));
      case (Load(c), Counted(e, key)) =>
        if key in s.keys { MoveOk(s, c, Resolved(e, key, s.keys[key])); } else { LoadMissOk(s, c); }
      case (LoadOrStore(c), Made(e, key, entry)) =>
        if key in s.keys { MoveOk(s, c, Resolved(e, key, s.keys[key])); } else { PublishOk(s, c); }
      case (Add(c), Resolved(e, key, entry)) => AddOk(s, c);
      case (Inner(c), Logged(e, key)) => MoveOk(s, c, Idle);
      case _ =>
    }
  }

  /** Both sums hold again when the counters, the entries and the one client that moved change by the same amounts. */
  lemma Rebalanced(s: World, next: World, c: nat, p: Client, e: Event, total: nat, raised: nat, entered: nat, told: nat)
    requires BalancedWith(s, e, total) && c < |s.clients| && next.clients == s.clients[c := p]
    requires CountOf(next.overall, e) == CountOf(s.overall, e) + raised
    requires CountOf(next.inner, e) == CountOf(s.inner, e) + told
    requires (if Uncounted(p, e) then 1 else 0) + entered == (if Uncounted(s.clients[c], e) then 1 else 0) + raised
    requires (if Untold(p, e) then 1 else 0) + told == (if Untold(s.clients[c], e) then 1 else 0) + entered
    ensures BalancedWith(next, e, total + entered)
  {
    Replaced(s.clients, c, p, e);
  }

  lemma AddTotal(s: World, c: nat, e: Event)
    requires Published(s) && c < |s.clients| && s.clients[c].Resolved?
    ensures Published(Step(s, Add(c)))
    ensures Total(Entries(Step(s, Add(c))), e) == Total(Entries(s), e) + if s.clients[c].e == e then 1 else 0
  {
    var p := s.clients[c];
    AddOk(s, c);
    TotalPut(Entries(s), p.key, Bump(Entries(s)[p.key], p.e), e);
  }

  lemma AddBalanced(s: World, c: nat, e: Event, total: nat)
    requires BalancedWith(s, e, total) && c < |s.clients| && s.clients[c].Resolved? && s.clients[c].entry < |s.heap|
    ensures BalancedWith(Step(s, Add(c)), e, total + if s.clients[c].e == e then 1 else 0)
  {
    var p := s.clients[c];
    Rebalanced(s, Step(s, Add(c)), c, Logged(p.e, p.key), e, total, 0, if p.e == e then 1 else 0, 0);
  }

  lemma PublishTotal(s: World, c: nat, e: Event)
    requires Published(s) && c < |s.clients| && s.clients[c].Made? && s.clients[c].key !in s.keys
    ensures Published(Step(s, LoadOrStore(c))) && Total(Entries(Step(s, LoadOrStore(c))), e) == Total(Entries(s), e)
  {
    PublishOk(s, c);
    TotalPut(Entries(s), s.clients[c].key, NO_COUNTS, e);
  }

  /** The steps that raise no entry. */
  lemma QuietBalanced(s: World, a: Act, e: Event, total: nat)
    requires BalancedWith(s, e, total) && !a.Add?
    ensures BalancedWith(Step(s, a), e, total)
  {
    if a.c < |s.clients| {
      var p, next := s.clients[a.c], Step(s, a);
      match (a, p)
      case (Begin(c, d, key), Idle) => Rebalanced(s, next, c, Counted(d, key), e, total, if d == e then 1 else 0, 0, 0);
      case (Load(c), Counted(d, key)) => Rebalanced(s, next, c, next.clients[c], e, total, 0, 0, 0);
      case (LoadOrStore(c), Made(d, key, entry)) => Rebalanced(s, next, c, next.clients[c], e, total, 0, 0, 0);
      case (Inner(c), Logged(d, key)) => Rebalanced(s, next, c, Idle, e, total, 0, 0, if d == e then 1 else 0);
      case _ =>
    }
  }

  lemma StepBalanced(s: World, a: Act, e: Event)
    requires Published(s) && Balanced(s, e)
    ensures Published(Step(s, a)) && Balanced(Step(s, a), e)
  {
    StepEntries(s, a);
    var total := Total(Entries(s), e);
    if !a.Add? {
      QuietBalanced(s, a, e, total);
      if a.LoadOrStore? && a.c < |s.clients| && s.clients[a.c].Made? && s.clients[a.c].key !in s.keys {
        PublishTotal(s, a.c, e);
      }
    } else if a.c < |s.clients| && s.clients[a.c].Resolved? {
      assert ClientOk(s, s.clients[a.c]);
      AddBalanced(s, a.c, e, total);
      AddTotal(s, a.c, e);
    }
  }

  lemma {:induction false} RunBalanced(s: World, acts: seq<Act>, e: Event)
    requires Published(s) && Balanced(s, e)
    ensures Published(Run(s, acts)) && Balanced(Run(s, acts), e)
    decreases |acts|
  {
    if acts != [] {
      StepBalanced(s, acts[0], e);
      RunBalanced(Step(s, acts[0]), acts[1..], e);
    }
  }

  /**
   Conservation. In every interleaving the overall counter is the sum over the keys plus the
   callers still on their way to an entry, and that sum is the inner collector's counter plus
   the callers still on their way there.
   */
  lemma CountsConserved(n: nat, acts: seq<Act>, e: Event)
    ensures var end := Run(Start(n), acts);
      && Addressed(end)
      && CountOf(end.overall, e) == Total(Entries(end), e) + UncountedIn(end.clients, e)
      && Total(Entries(end), e) == CountOf(end.inner, e) + UntoldIn(end.clients, e)
  {
    NobodyThere(n, e);
    assert Entries(Start(n)).Keys == {};
    RunBalanced(Start(n), acts, e);
  }

  lemma {:induction false} NobodyThere(n: nat, e: Event)
    ensures UncountedIn(seq(n, _ => Idle), e) == 0 && UntoldIn(seq(n, _ => Idle), e) == 0
  {
    if n > 0 {
      var clients := seq(n, _ => Idle);
      assert clients[1..] == seq(n - 1, _ => Idle);
      NobodyThere(n - 1, e);
    }
  }

  /** The step carries out an increment of `e` on the entry a caller with `key` has resolved. */
  predicate Adds(s: World, a: Act, key: string, e: Event) {
    a.Add? && a.c < |s.clients| && s.clients[a.c].Resolved? && s.clients[a.c].key == key && s.clients[a.c].e == e
  }

  function Added(s: World, acts: seq<Act>, key: string, e: Event): nat
    decreases |acts|
  {
    if acts == [] then 0 else (if Adds(s, acts[0], key, e) then 1 else 0) + Added(Step(s, acts[0]), acts[1..], key, e)
  }

  function CountIn(m: map<string, Counts>, key: string, e: Event): nat {
    if key in m then CountOf(m[key], e) else 0
  }

  function KeyCount(s: World, key: string, e: Event): nat
    requires Addressed(s)
  {
    CountIn(Entries(s), key, e)
  }

  lemma CountPut(m: map<string, Counts>, put: string, counts: Counts, key: string, e: Event)
    ensures CountIn(m[put := counts], key, e) == if key == put then CountOf(counts, e) else CountIn(m, key, e)
  {
  }

  lemma StepAdded(s: World, a: Act, key: string, e: Event)
    requires Published(s)
    ensures Published(Step(s, a)) && KeyCount(Step(s, a), key, e) == KeyCount(s, key, e) + if Adds(s, a, key, e) then 1 else 0
  {
    StepEntries(s, a);
    if a.c < |s.clients| {
      var p := s.clients[a.c];
      if a.Add? && p.Resolved? {
        CountPut(Entries(s), p.key, Bump(Entries(s)[p.key], p.e), key, e);
      } else if a.LoadOrStore? && p.Made? {
        CountPut(Entries(s), p.key, NO_COUNTS, key, e);
      }
    }
  }

  /** No increment is lost to a duplicate entry: the published entry of a key counts them all. */
  lemma {:induction false} NoIncrementLost(s: World, acts: seq<Act>, key: string, e: Event)
    requires Published(s)
    ensures Published(Run(s, acts)) && KeyCount(Run(s, acts), key, e) == KeyCount(s, key, e) + Added(s, acts, key, e)
    decreases |acts|
  {
    if acts != [] {
      StepAdded(s, acts[0], key, e);
      NoIncrementLost(Step(s, acts[0]), acts[1..], key, e);
    }
  }
}
