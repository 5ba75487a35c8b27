/** The persistent tables: routes by store path, and remembered misses. Times are
    whole seconds, which is what the tables store. */
module RouteTable {
  import opened Wrappers
  import opened Rewrite

  /** The 64-bit floats that a latency can be. */
  datatype F64 = Finite(value: real) | NegZero | Infinite

  datatype RouteEntry = RouteEntry(
    storePath: string, upstreamUrl: string, latencyMs: F64, latencyEma: F64,
    lastVerified: int, queryCount: nat, failureCount: nat, ttl: int,
    narHash: string, narSize: nat, narUrl: string, upstreamNarUrl: string,
    narinfo: Option<Body>)

  type Routes = map<string, RouteEntry>

  /** `writes` counts the route writes of this process. */
  datatype Table = Table(routes: Routes, negatives: map<string, int>, writes: nat)

  const I64_MAX := 0x7fff_ffff_ffff_ffff

  /** A REAL column gives -0.0 back as 0.0. */
  function Plus(x: F64): F64 { if x.NegZero? then Finite(0.0) else x }

  /** The row that an entry is read back as: sizes beyond 63 bits are clamped. */
  function Stored(e: RouteEntry): RouteEntry {
    e.(narSize := if e.narSize > I64_MAX then I64_MAX else e.narSize,
       latencyMs := Plus(e.latencyMs), latencyEma := Plus(e.latencyEma))
  }

  predicate RouteValid(e: RouteEntry, now: int) { now < e.ttl }

  // ---- What the operations may do

  /** Eviction takes the excess over `max` and nothing else, oldest rows first;
      among rows of one age it may take any. */
  ghost predicate Evicted(before: Routes, after: Routes, max: nat) {
    && after.Keys <= before.Keys
    && (forall k <- after :: after[k] == before[k])
    && |after| == (if |before| > max then max else |before|)
    && forall gone, kept | gone in before && gone !in after && kept in after ::
         before[gone].lastVerified <= before[kept].lastVerified
  }

  datatype Op =
    | SetRoute(entry: RouteEntry)
    | ExpireOldRoutes(now: int)
    | SetNegative(storePath: string, expires: int)
    | ExpireNegatives(now: int)

  /** Every 100th write of a process evicts. */
  ghost predicate Next(max: nat, t: Table, op: Op, t': Table) {
    match op
    case SetRoute(e) =>
      var written := t.routes[e.storePath := Stored(e)];
      && t'.negatives == t.negatives && t'.writes == t.writes + 1
      && (if t.writes % 100 == 99 then Evicted(written, t'.routes, max) else t'.routes == written)
    case ExpireOldRoutes(now) =>
      t' == t.(routes := map k | k in t.routes && t.routes[k].ttl >= now :: t.routes[k])
    case SetNegative(path, expires) => t' == t.(negatives := t.negatives[path := expires])
    case ExpireNegatives(now) =>
      t' == t.(negatives := map k | k in t.negatives && t.negatives[k] >= now :: t.negatives[k])
  }

  // ---- The database, changed in place

  lemma {:induction false} OldestExists(routes: Routes) returns (k: string)
    requires |routes| > 0
    ensures k in routes && forall j <- routes :: routes[k].lastVerified <= routes[j].lastVerified
    decreases |routes|
  {
    var x :| x in routes;
    var rest := routes - {x};
    assert forall j <- routes :: j == x || j in rest;
    k := x;
    if |rest| > 0 {
      var oldest := OldestExists(rest);
      if routes[oldest].lastVerified < routes[x].lastVerified { k := oldest; }
      assert forall j <- rest :: rest[oldest].lastVerified <= routes[j].lastVerified;
    }
  }

  class Db {
    var routes: Routes
    var negatives: map<string, int>
    var writeCount: nat
    const maxEntries: nat

    ghost function State(): Table
      reads this
    {
      Table(routes, negatives, writeCount)
    }

    /** Opens a database that an earlier process may have left rows in. */
    constructor Open(stored: Routes, misses: map<string, int>, maxEntries: nat)
      ensures State() == Table(stored, misses, 0) && this.maxEntries == maxEntries
    {
      routes, negatives, writeCount := stored, misses, 0;
      this.maxEntries := maxEntries;
    }

    method GetRoute(storePath: string) returns (r: Option<RouteEntry>)
      ensures r.Some? <==> storePath in routes
      ensures r.Some? ==> r.value == routes[storePath]
    {
      r := if storePath in routes then Some(routes[storePath]) else None;
    }

    /** Some unexpired row for that NAR URL, if there is one. */
    method GetRouteByNarUrl(narUrl: string, now: int) returns (r: Option<RouteEntry>)
      ensures r.Some? ==> r.value in routes.Values && r.value.narUrl == narUrl && now < r.value.ttl
      ensures r.None? ==> forall k <- routes :: routes[k].narUrl != narUrl || routes[k].ttl <= now
    {
      if k :| k in routes && routes[k].narUrl == narUrl && routes[k].ttl > now {
        r := Some(routes[k]);
      } else {
        r := None;
      }
    }

    method SetRoute(entry: RouteEntry)
      modifies this
      ensures Next(maxEntries, old(State()), Op.SetRoute(entry), State())
    {
      routes := routes[entry.storePath := Stored(entry)];
      var count := writeCount;
      writeCount := writeCount + 1;
      if count % 100 == 99 { EvictIfNeeded(); }
    }

    method EvictIfNeeded()
      modifies this`routes
      ensures Evicted(old(routes), routes, maxEntries)
    {
      while |routes| > maxEntries
        invariant routes.Keys <= old(routes).Keys
        invariant forall k <- routes :: routes[k] == old(routes)[k]
        invariant |routes| >= maxEntries || routes == old(routes)
        invariant forall gone, kept | gone in old(routes) && gone !in routes && kept in routes ::
                    old(routes)[gone].lastVerified <= old(routes)[kept].lastVerified
        decreases |routes|
      {
        ghost var anOldest := OldestExists(routes);
        var oldest :| oldest in routes
                      && forall j <- routes :: routes[oldest].lastVerified <= routes[j].lastVerified;
        routes := routes - {oldest};
      }
    }

    method ExpireOldRoutes(now: int)
      modifies this
      ensures Next(maxEntries, old(State()), Op.ExpireOldRoutes(now), State())
    {
      routes := map k | k in routes && routes[k].ttl >= now :: routes[k];
    }

    method SetNegative(storePath: string, ttl: nat, now: int)
      modifies this
      ensures Next(maxEntries, old(State()), Op.SetNegative(storePath, now + ttl), State())
    {
      negatives := negatives[storePath := now + ttl];
    }

    method IsNegative(storePath: string, now: int) returns (b: bool)
      ensures b <==> storePath in negatives && negatives[storePath] > now
    {
      b := storePath in negatives && negatives[storePath] > now;
    }

    method ExpireNegatives(now: int)
      modifies this
      ensures Next(maxEntries, old(State()), Op.ExpireNegatives(now), State())
    {
      negatives := map k | k in negatives && negatives[k] >= now :: negatives[k];
    }
  }

  // ---- Runs of one process

  /** The states of a run: one before the first operation and one after each. */
  ghost predicate IsRun(max: nat, states: seq<Table>, ops: seq<Op>) {
    && |states| == |ops| + 1
    && forall i | 0 <= i < |ops| :: Next(max, states[i], ops[i], states[i + 1])
  }

  lemma SizeOfSubset(a: set<string>, b: set<string>)
    requires a <= b
    ensures |a| <= |b|
  {
    assert b == a + (b - a);
  }

  lemma WrittenSize(routes: Routes, e: RouteEntry)
    ensures |routes[e.storePath := Stored(e)]| <= |routes| + 1
  {
    assert routes[e.storePath := Stored(e)].Keys == routes.Keys + {e.storePath};
  }

  lemma StepBound(max: nat, t: Table, op: Op, t': Table, bound: nat)
    requires Next(max, t, op, t') && bound >= max && |t.routes| <= bound + t.writes % 100
    ensures |t'.routes| <= bound + t'.writes % 100
    ensures op.SetRoute? && t'.writes % 100 == 0 ==> |t'.routes| <= max
  {
    if op.SetRoute? {
      WrittenSize(t.routes, op.entry);
      if t.writes % 100 != 99 { assert t'.writes % 100 == t.writes % 100 + 1; }
    } else if op.ExpireOldRoutes? {
      SizeOfSubset(t'.routes.Keys, t.routes.Keys);
    }
  }

  /** Within one process started with r0 rows, there are never more than
      max(r0, max) + 99 rows, and at most `max` after each 100th write. */
  lemma {:induction false} RowsAreBounded(max: nat, states: seq<Table>, ops: seq<Op>)
    requires IsRun(max, states, ops) && states[0].writes == 0
    ensures var bound := if |states[0].routes| > max then |states[0].routes| else max;
            && |states[|ops|].routes| <= bound + states[|ops|].writes % 100
            && |states[|ops|].routes| <= bound + 99
    ensures ops != [] && ops[|ops| - 1].SetRoute? && states[|ops|].writes % 100 == 0
            ==> |states[|ops|].routes| <= max
    decreases |ops|
  {
    if ops != [] {
      var n := |ops| - 1;
      var bound := if |states[0].routes| > max then |states[0].routes| else max;
      RowsAreBounded(max, states[..|ops|], ops[..n]);
      assert states[..|ops|][n] == states[n];
      assert Next(max, states[n], ops[n], states[n + 1]);
      StepBound(max, states[n], ops[n], states[n + 1], bound);
    }
  }
}
