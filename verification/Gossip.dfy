/** Merging the routes that mesh peers announce: each store path keeps its best
    known route, by latency first and then by the time of verification. */
module Gossip {
  import opened Wrappers
  import opened RouteTable

  /** IEEE >, for floats that are not NaN. */
  predicate Greater(a: F64, b: F64) {
    match (a, b)
    case (Infinite, Infinite) => false
    case (Infinite, _) => true
    case (_, Infinite) => false
    case (_, _) => Number(a) > Number(b)
  }

  function Number(a: F64): real
    requires !a.Infinite?
  {
    if a.NegZero? then 0.0 else a.value
  }

  /** An announced route that merge_routes looks at. */
  predicate Usable(r: RouteEntry, now: int) {
    r.ttl > now && (r.latencyEma.NegZero? || (r.latencyEma.Finite? && r.latencyEma.value >= 0.0))
  }

  /** The guard of the merge. f64::total_cmp tells -0.0 and 0.0 apart, `>` does not. */
  predicate ShouldSet(existing: Option<RouteEntry>, r: RouteEntry) {
    match existing
    case None => true
    case Some(e) =>
      && !Greater(r.latencyEma, e.latencyEma)
      && !(r.latencyEma == e.latencyEma && r.lastVerified <= e.lastVerified)
  }

  function RowOf(routes: Routes, path: string): Option<RouteEntry> {
    if path in routes then Some(routes[path]) else None
  }

  function MergeOne(routes: Routes, r: RouteEntry, now: int): Routes {
    if Usable(r, now) && ShouldSet(RowOf(routes, r.storePath), r)
    then routes[r.storePath := Stored(r)] else routes
  }

  function MergeAll(routes: Routes, incoming: seq<RouteEntry>, now: int): Routes {
    if incoming == [] then routes
    else MergeOne(MergeAll(routes, incoming[..|incoming| - 1], now), incoming[|incoming| - 1], now)
  }

  ghost predicate IsAnnounced(row: RouteEntry, path: string, incoming: seq<RouteEntry>, now: int) {
    exists r <- incoming :: Usable(r, now) && r.storePath == path && row == Stored(r)
  }

  /** The loop of merge_routes. It writes through the table, whose 100th writes
      evict; with room for everything announced they have nothing to take. */
  method MergeRoutes(db: Db, incoming: seq<RouteEntry>, now: int)
    modifies db
    ensures db.negatives == old(db.negatives)
    ensures |old(db.routes).Keys + Paths(incoming)| <= db.maxEntries
            ==> db.routes == MergeAll(old(db.routes), incoming, now)
    ensures forall path <- db.routes :: RowOf(old(db.routes), path) == Some(db.routes[path])
                                        || IsAnnounced(db.routes[path], path, incoming, now)
  {
    ghost var room := |db.routes.Keys + Paths(incoming)| <= db.maxEntries;
    for i := 0 to |incoming|
      invariant db.negatives == old(db.negatives)
      invariant room ==> db.routes == MergeAll(old(db.routes), incoming[..i], now)
      invariant forall path <- db.routes :: RowOf(old(db.routes), path) == Some(db.routes[path])
                                            || IsAnnounced(db.routes[path], path, incoming, now)
    {
      var r := incoming[i];
      assert incoming[..i + 1][..i] == incoming[..i];
      if Usable(r, now) {
        var existing := db.GetRoute(r.storePath);
        if ShouldSet(existing, r) {
          ghost var before := db.routes;
          assert IsAnnounced(Stored(r), r.storePath, incoming, now);
          db.SetRoute(r);
          if room {
            MergeStaysInRoom(old(db.routes), incoming, i + 1, now);
            NothingToEvict(before[r.storePath := Stored(r)], db.maxEntries);
          }
        }
      }
    }
    assert incoming[..|incoming|] == incoming;
  }

  function Paths(incoming: seq<RouteEntry>): set<string> {
    set i | 0 <= i < |incoming| :: incoming[i].storePath
  }

  lemma NothingToEvict(before: Routes, max: nat)
    ensures |before| <= max ==> forall after | Evicted(before, after, max) :: after == before
  {
    if |before| <= max {
      forall after: Routes | Evicted(before, after, max) ensures after == before {
        SameSize(after.Keys, before.Keys);
      }
    }
  }

  lemma SameSize(a: set<string>, b: set<string>)
    requires a <= b && |a| == |b|
    ensures a == b
  {
    assert b == a + (b - a);
  }

  lemma {:induction false} MergeStaysInRoom(routes: Routes, incoming: seq<RouteEntry>, n: nat, now: int)
    requires n <= |incoming|
    ensures MergeAll(routes, incoming[..n], now).Keys <= routes.Keys + Paths(incoming)
    ensures |MergeAll(routes, incoming[..n], now)| <= |routes.Keys + Paths(incoming)|
    decreases n
  {
    if n > 0 {
      MergeStaysInRoom(routes, incoming, n - 1, now);
      assert incoming[..n][..n - 1] == incoming[..n - 1];
      assert incoming[n - 1].storePath in Paths(incoming);
    }
    SizeOfSubset(MergeAll(routes, incoming[..n], now).Keys, routes.Keys + Paths(incoming));
  }

  // ---- The order on routes

  /** What the merge compares. */
  datatype Rank = Rank(latency: F64, lastVerified: int)

  predicate IsLatency(x: F64) { x.NegZero? || (x.Finite? && x.value >= 0.0) }

  /** f64::total_cmp on latencies: -0.0 comes before 0.0. */
  predicate Less(a: F64, b: F64)
    requires IsLatency(a) && IsLatency(b)
  {
    if b.NegZero? then false else a.NegZero? || a.value < b.value
  }

  function RankOf(r: RouteEntry): Rank { Rank(r.latencyEma, r.lastVerified) }

  predicate AtLeastAsGood(a: Rank, b: Rank)
    requires IsLatency(a.latency) && IsLatency(b.latency)
  {
    Less(a.latency, b.latency) || (a.latency == b.latency && a.lastVerified >= b.lastVerified)
  }

  /** The rank that a route of rank `r` is stored with. */
  function StoredRank(r: Rank): Rank { r.(latency := Plus(r.latency)) }

  /** Stored latencies are numbers of at least zero, and not -0.0. */
  ghost predicate PlainRows(routes: Routes) {
    forall k <- routes :: routes[k].latencyEma.Finite? && routes[k].latencyEma.value >= 0.0
  }

  ghost predicate Announced(incoming: seq<RouteEntry>, now: int) {
    forall r <- incoming :: Usable(r, now)
  }

  /** A -0.0 beats every stored 0.0 whatever its age, and is stored as one. So the
      announcements for a path agree on the outcome only if all of -0.0 are of one
      age, and none of 0.0 is younger. */
  ghost predicate Consistent(incoming: seq<RouteEntry>, path: string) {
    forall r, z | r in incoming && z in incoming && r.storePath == path && z.storePath == path
                  && z.latencyEma.NegZero? ::
      && (r.latencyEma.NegZero? ==> r.lastVerified == z.lastVerified)
      && (r.latencyEma == Finite(0.0) ==> r.lastVerified <= z.lastVerified)
  }

  /** The ranks known for a path: the stored one and all announced ones. */
  ghost function Known(routes: Routes, incoming: seq<RouteEntry>, path: string): iset<Rank> {
    (if path in routes then iset{RankOf(routes[path])} else iset{})
    + (iset r | r in incoming && r.storePath == path :: RankOf(r))
  }

  ghost predicate Best(rank: Rank, known: iset<Rank>) {
    && rank in known && IsLatency(rank.latency)
    && forall other <- known :: IsLatency(other.latency) && AtLeastAsGood(rank, other)
  }

  /** The path's row is there exactly if something is known for it, and is the best
      of it as it is stored. */
  ghost predicate KeepsBest(routes: Routes, known: iset<Rank>, path: string) {
    && (path in routes <==> known != iset{})
    && (path in routes ==> exists best :: Best(best, known) && RankOf(routes[path]) == StoredRank(best))
  }

  lemma MergeOneKeepsBest(routes: Routes, r: RouteEntry, now: int, path: string, best: Rank, known: iset<Rank>)
    requires PlainRows(routes) && Usable(r, now) && r.storePath == path
    requires path in routes && Best(best, known) && RankOf(routes[path]) == StoredRank(best)
    requires best.latency.NegZero? ==>
               && (r.latencyEma.NegZero? ==> r.lastVerified == best.lastVerified)
               && (r.latencyEma == Finite(0.0) ==> r.lastVerified <= best.lastVerified)
    ensures KeepsBest(MergeOne(routes, r, now), known + iset{RankOf(r)}, path)
  {
    var best' := if AtLeastAsGood(best, RankOf(r)) then best else RankOf(r);
    assert best' in known + iset{RankOf(r)};
    assert Best(best', known + iset{RankOf(r)});
  }

  lemma MergeOnePlain(routes: Routes, r: RouteEntry, now: int)
    requires PlainRows(routes)
    ensures PlainRows(MergeOne(routes, r, now))
  {
  }

  lemma FirstKnown(routes: Routes, r: RouteEntry, now: int)
    requires r.storePath !in routes && Usable(r, now)
    ensures KeepsBest(MergeOne(routes, r, now), iset{RankOf(r)}, r.storePath)
  {
    assert Best(RankOf(r), iset{RankOf(r)});
  }

  /** A merge leaves each path with the best rank that was known for it, as long as
      the announcements are consistent. */
  lemma {:induction false} MergeKeepsBest(routes: Routes, incoming: seq<RouteEntry>, now: int, path: string)
    requires PlainRows(routes) && Announced(incoming, now) && Consistent(incoming, path)
    ensures PlainRows(MergeAll(routes, incoming, now))
    ensures KeepsBest(MergeAll(routes, incoming, now), Known(routes, incoming, path), path)
    decreases |incoming|
  {
    if incoming == [] {
      NothingHeard(routes, path);
    } else {
      var n := |incoming| - 1;
      var r, before := incoming[n], MergeAll(routes, incoming[..n], now);
      assert incoming == incoming[..n] + [r];
      MergeKeepsBest(routes, incoming[..n], now, path);
      KnownOfSnoc(routes, incoming, path);
      MergeOnePlain(before, r, now);
      if r.storePath == path {
        if path in before {
          var best :| Best(best, Known(routes, incoming[..n], path)) && RankOf(before[path]) == StoredRank(best);
          BestIsConsistent(routes, incoming, path, best);
          MergeOneKeepsBest(before, r, now, path, best, Known(routes, incoming[..n], path));
        } else {
          FirstKnown(before, r, now);
          assert Known(routes, incoming, path) == iset{RankOf(r)};
        }
      }
    }
  }

  lemma NothingHeard(routes: Routes, path: string)
    requires PlainRows(routes)
    ensures KeepsBest(routes, Known(routes, [], path), path)
  {
    if path in routes {
      assert Known(routes, [], path) == iset{RankOf(routes[path])};
      assert Best(RankOf(routes[path]), Known(routes, [], path));
    } else {
      assert Known(routes, [], path) == iset{};
    }
  }

  lemma BestIsConsistent(routes: Routes, incoming: seq<RouteEntry>, path: string, best: Rank)
    requires PlainRows(routes) && incoming != [] && Consistent(incoming, path)
    requires incoming[|incoming| - 1].storePath == path
    requires best in Known(routes, incoming[..|incoming| - 1], path)
    ensures var r := incoming[|incoming| - 1];
            best.latency.NegZero? ==>
              && (r.latencyEma.NegZero? ==> r.lastVerified == best.lastVerified)
              && (r.latencyEma == Finite(0.0) ==> r.lastVerified <= best.lastVerified)
  {
    if best.latency.NegZero? {
      var z :| z in incoming[..|incoming| - 1] && z.storePath == path && best == RankOf(z);
      assert z in incoming;
    }
  }

  lemma KnownOfSnoc(routes: Routes, incoming: seq<RouteEntry>, path: string)
    requires incoming != []
    ensures var n := |incoming| - 1;
            Known(routes, incoming, path)
            == Known(routes, incoming[..n], path)
               + if incoming[n].storePath == path then iset{RankOf(incoming[n])} else iset{}
  {
    assert incoming == incoming[..|incoming| - 1] + [incoming[|incoming| - 1]];
  }

  ghost predicate SameRank(a: Routes, b: Routes, path: string) {
    && (path in a <==> path in b)
    && (path in a ==> RankOf(a[path]) == RankOf(b[path]))
  }

  lemma BestIsUnique(a: Rank, b: Rank, known: iset<Rank>)
    requires Best(a, known) && Best(b, known)
    ensures a == b
  {
  }

  /** Convergence: nodes that know the same ranks for a path, from their own rows
      and from any announcements in any order and any number, end with the same
      rank for it. */
  lemma NodesConverge(mine: Routes, heard: seq<RouteEntry>, theirs: Routes, told: seq<RouteEntry>,
                      now: int, later: int, path: string)
    requires PlainRows(mine) && PlainRows(theirs) && Announced(heard, now) && Announced(told, later)
    requires Consistent(heard, path) && Consistent(told, path)
    requires Known(mine, heard, path) == Known(theirs, told, path)
    ensures SameRank(MergeAll(mine, heard, now), MergeAll(theirs, told, later), path)
  {
    MergeKeepsBest(mine, heard, now, path);
    MergeKeepsBest(theirs, told, later, path);
    if path in MergeAll(mine, heard, now) {
      var known := Known(mine, heard, path);
      var a :| Best(a, known) && RankOf(MergeAll(mine, heard, now)[path]) == StoredRank(a);
      var b :| Best(b, known) && RankOf(MergeAll(theirs, told, later)[path]) == StoredRank(b);
      BestIsUnique(a, b, known);
    }
  }

  // ---- Exactly when the order does not matter

  lemma PermutedMembers(a: seq<RouteEntry>, b: seq<RouteEntry>)
    requires multiset(a) == multiset(b)
    ensures forall r :: r in a <==> r in b
  {
    forall r ensures r in a <==> r in b {
      assert r in a <==> r in multiset(a);
      assert r in b <==> r in multiset(b);
    }
  }

  /** The last -0.0 announced leaves its age behind. */
  lemma LastNegZero(routes: Routes, incoming: seq<RouteEntry>, now: int)
    requires incoming != [] && PlainRows(MergeAll(routes, incoming[..|incoming| - 1], now))
    requires Usable(incoming[|incoming| - 1], now) && incoming[|incoming| - 1].latencyEma.NegZero?
    ensures var z := incoming[|incoming| - 1];
            && z.storePath in MergeAll(routes, incoming, now)
            && RankOf(MergeAll(routes, incoming, now)[z.storePath]) == Rank(Finite(0.0), z.lastVerified)
  {
  }

  lemma {:induction false} MergePlain(routes: Routes, incoming: seq<RouteEntry>, now: int)
    requires PlainRows(routes)
    ensures PlainRows(MergeAll(routes, incoming, now))
    decreases |incoming|
  {
    if incoming != [] {
      MergePlain(routes, incoming[..|incoming| - 1], now);
      MergeOnePlain(MergeAll(routes, incoming[..|incoming| - 1], now), incoming[|incoming| - 1], now);
    }
  }

  /** The same announcements with one of them moved to the end. */
  lemma MovedLast(a: seq<RouteEntry>, i: nat) returns (b: seq<RouteEntry>)
    requires i < |a|
    ensures multiset(b) == multiset(a) && b != [] && b[|b| - 1] == a[i]
    ensures b[..|b| - 1] == a[..i] + a[i + 1..]
  {
    b := a[..i] + a[i + 1..] + [a[i]];
    assert a == a[..i] + [a[i]] + a[i + 1..];
  }

  /** With a younger 0.0 at the very end, the row is younger than the -0.0. */
  lemma YoungerZeroLast(routes: Routes, incoming: seq<RouteEntry>, now: int, z: RouteEntry)
    requires PlainRows(routes) && Announced(incoming, now) && incoming != []
    requires var r := incoming[|incoming| - 1];
             r.latencyEma == Finite(0.0) && r.storePath == z.storePath && r.lastVerified > z.lastVerified
    ensures z.storePath in MergeAll(routes, incoming, now)
    ensures RankOf(MergeAll(routes, incoming, now)[z.storePath]) != Rank(Finite(0.0), z.lastVerified)
  {
    MergePlain(routes, incoming[..|incoming| - 1], now);
  }

  /** Two orders of inconsistent announcements that leave different ranks. */
  lemma OrderCanMatter(routes: Routes, a: seq<RouteEntry>, now: int, path: string)
    returns (b: seq<RouteEntry>, c: seq<RouteEntry>)
    requires PlainRows(routes) && Announced(a, now) && !Consistent(a, path)
    ensures multiset(b) == multiset(a) == multiset(c)
    ensures !SameRank(MergeAll(routes, b, now), MergeAll(routes, c, now), path)
  {
    var r, z :| r in a && z in a && r.storePath == path && z.storePath == path && z.latencyEma.NegZero?
      && ((r.latencyEma.NegZero? && r.lastVerified != z.lastVerified)
          || (r.latencyEma == Finite(0.0) && r.lastVerified > z.lastVerified));
    var i :| 0 <= i < |a| && a[i] == z;
    var j :| 0 <= j < |a| && a[j] == r;
    b := MovedLast(a, i);
    c := MovedLast(a, j);
    PermutedMembers(a, b);
    PermutedMembers(a, c);
    MergePlain(routes, b[..|b| - 1], now);
    MergePlain(routes, c[..|c| - 1], now);
    LastNegZero(routes, b, now);
    if r.latencyEma.NegZero? {
      LastNegZero(routes, c, now);
    } else {
      YoungerZeroLast(routes, c, now, z);
    }
  }

  /** Order and repetition of consistent announcements do not matter. */
  lemma OrderDoesNotMatter(routes: Routes, a: seq<RouteEntry>, b: seq<RouteEntry>, now: int, path: string)
    requires PlainRows(routes) && Announced(a, now) && Announced(b, now) && Consistent(a, path)
    requires forall r :: r in a <==> r in b
    ensures SameRank(MergeAll(routes, a, now), MergeAll(routes, b, now), path)
  {
    assert Known(routes, a, path) == Known(routes, b, path);
    NodesConverge(routes, a, routes, b, now, now, path);
  }

  /** All orders of a list of usable announcements leave a path with the same rank if
      and only if the announcements are consistent about it. */
  lemma OrderIsIrrelevantIff(routes: Routes, a: seq<RouteEntry>, now: int, path: string)
    requires PlainRows(routes) && Announced(a, now)
    ensures (forall b, c | multiset(b) == multiset(a) == multiset(c) ::
               SameRank(MergeAll(routes, b, now), MergeAll(routes, c, now), path))
            <==> Consistent(a, path)
  {
    if Consistent(a, path) {
      forall b, c | multiset(b) == multiset(a) == multiset(c)
        ensures SameRank(MergeAll(routes, b, now), MergeAll(routes, c, now), path)
      {
        PermutedMembers(a, b);
        PermutedMembers(a, c);
        OrderDoesNotMatter(routes, a, b, now, path);
        OrderDoesNotMatter(routes, a, c, now, path);
      }
    } else {
      var b, c := OrderCanMatter(routes, a, now, path);
    }
  }

  /** No merge, of any routes, raises the latency of a stored row. */
  lemma {:induction false} LatencyNeverRises(routes: Routes, incoming: seq<RouteEntry>, now: int, path: string)
    requires path in routes
    ensures path in MergeAll(routes, incoming, now)
    ensures !Greater(MergeAll(routes, incoming, now)[path].latencyEma, routes[path].latencyEma)
    decreases |incoming|
  {
    if incoming != [] {
      LatencyNeverRises(routes, incoming[..|incoming| - 1], now, path);
    }
  }

  /** An older -0.0 takes the place of a 0.0, but not the other way round. */
  lemma NegativeZeroDiverges(a: RouteEntry, now: int)
    requires a.latencyEma == Finite(0.0) && Usable(a, now)
    ensures var b := a.(latencyEma := NegZero, lastVerified := a.lastVerified - 1);
            && Usable(b, now)
            && a.storePath in MergeAll(map[], [a, b], now) && a.storePath in MergeAll(map[], [b, a], now)
            && MergeAll(map[], [a, b], now)[a.storePath].lastVerified == a.lastVerified - 1
            && MergeAll(map[], [b, a], now)[a.storePath].lastVerified == a.lastVerified
  {
    var b := a.(latencyEma := NegZero, lastVerified := a.lastVerified - 1);
    MergeTwo(a, b, now);
    MergeTwo(b, a, now);
  }

  lemma MergeTwo(a: RouteEntry, b: RouteEntry, now: int)
    ensures MergeAll(map[], [a, b], now) == MergeOne(MergeOne(map[], a, now), b, now)
  {
    assert [a, b][..1] == [a] && [a][..0] == [];
    assert MergeAll(map[], [a], now) == MergeOne(MergeAll(map[], [], now), a, now);
  }

  // ---- A mesh that gossips

  /** The tables of the nodes, and every route announced so far: a packet may be
      lost, delayed, reordered or delivered again. */
  datatype Mesh = Mesh(nodes: seq<Routes>, sent: set<RouteEntry>)

  datatype Event =
    | Announce(from: nat, rows: set<RouteEntry>)
    | Deliver(to: nat, packet: seq<RouteEntry>, now: int)

  ghost predicate Possible(m: Mesh, e: Event) {
    match e
    case Announce(from, rows) => from < |m.nodes| && rows <= m.nodes[from].Values
    case Deliver(to, packet, _) => to < |m.nodes| && forall r <- packet :: r in m.sent
  }

  function Gossiped(m: Mesh, e: Event): Mesh
    requires Possible(m, e)
  {
    match e
    case Announce(from, rows) => m.(sent := m.sent + rows)
    case Deliver(to, packet, now) => m.(nodes := m.nodes[to := MergeAll(m.nodes[to], packet, now)])
  }

  ghost predicate IsGossip(m: Mesh, events: seq<Event>)
    decreases |events|
  {
    events == [] || (Possible(m, events[0]) && IsGossip(Gossiped(m, events[0]), events[1..]))
  }

  ghost function AfterGossip(m: Mesh, events: seq<Event>): Mesh
    requires IsGossip(m, events)
    decreases |events|
  {
    if events == [] then m else AfterGossip(Gossiped(m, events[0]), events[1..])
  }

  /** A route that `best` is as good as, and consistent with. */
  ghost predicate Beaten(r: RouteEntry, best: Rank)
    requires IsLatency(best.latency)
  {
    && IsLatency(r.latencyEma) && AtLeastAsGood(best, RankOf(r))
    && (best.latency.NegZero? ==>
          && (r.latencyEma.NegZero? ==> r.lastVerified == best.lastVerified)
          && (r.latencyEma == Finite(0.0) ==> r.lastVerified <= best.lastVerified))
  }

  ghost predicate RowsWithin(routes: Routes, path: string, best: Rank)
    requires IsLatency(best.latency)
  {
    && PlainRows(routes) && (forall k <- routes :: routes[k].storePath == k)
    && (path in routes ==> Beaten(routes[path], best))
  }

  /** `best` is as good as anything any node stores or was sent for the path. */
  ghost predicate Within(m: Mesh, path: string, best: Rank)
    requires IsLatency(best.latency)
  {
    && (forall i | 0 <= i < |m.nodes| :: RowsWithin(m.nodes[i], path, best))
    && (forall r <- m.sent :: r.storePath == path ==> Beaten(r, best))
  }

  ghost predicate HoldsBest(m: Mesh, i: nat, path: string, best: Rank) {
    i < |m.nodes| && path in m.nodes[i] && RankOf(m.nodes[i][path]) == StoredRank(best)
  }

  lemma MergeStaysWithin(routes: Routes, r: RouteEntry, now: int, path: string, best: Rank)
    requires IsLatency(best.latency) && RowsWithin(routes, path, best)
    requires r.storePath == path ==> Beaten(r, best)
    ensures RowsWithin(MergeOne(routes, r, now), path, best)
    ensures path in routes && RankOf(routes[path]) == StoredRank(best) ==>
              path in MergeOne(routes, r, now) && RankOf(MergeOne(routes, r, now)[path]) == StoredRank(best)
    ensures Usable(r, now) && r.storePath == path && RankOf(r) == best ==>
              path in MergeOne(routes, r, now) && RankOf(MergeOne(routes, r, now)[path]) == StoredRank(best)
  {
  }

  lemma {:induction false} DeliveryStaysWithin(routes: Routes, rows: seq<RouteEntry>, now: int,
                                               path: string, best: Rank)
    requires IsLatency(best.latency) && RowsWithin(routes, path, best)
    requires forall r <- rows :: r.storePath == path ==> Beaten(r, best)
    ensures RowsWithin(MergeAll(routes, rows, now), path, best)
    ensures path in routes && RankOf(routes[path]) == StoredRank(best) ==>
              path in MergeAll(routes, rows, now) && RankOf(MergeAll(routes, rows, now)[path]) == StoredRank(best)
    ensures (exists r <- rows :: Usable(r, now) && r.storePath == path && RankOf(r) == best) ==>
              path in MergeAll(routes, rows, now) && RankOf(MergeAll(routes, rows, now)[path]) == StoredRank(best)
    decreases |rows|
  {
    if rows != [] {
      var n := |rows| - 1;
      assert rows == rows[..n] + [rows[n]];
      DeliveryStaysWithin(routes, rows[..n], now, path, best);
      MergeStaysWithin(MergeAll(routes, rows[..n], now), rows[n], now, path, best);
    }
  }

  lemma GossipStep(m: Mesh, e: Event, path: string, best: Rank)
    requires IsLatency(best.latency) && Within(m, path, best) && Possible(m, e)
    ensures Within(Gossiped(m, e), path, best)
    ensures forall i | HoldsBest(m, i, path, best) :: HoldsBest(Gossiped(m, e), i, path, best)
    ensures Hears(e, path, best) ==> HoldsBest(Gossiped(m, e), e.to, path, best)
  {
    if e.Deliver? {
      DeliveryStaysWithin(m.nodes[e.to], e.packet, e.now, path, best);
    } else {
      forall r <- e.rows ensures r.storePath == path ==> Beaten(r, best) {
        assert RowsWithin(m.nodes[e.from], path, best);
      }
    }
  }

  /** A delivery that brings the best route, unexpired. */
  ghost predicate Hears(e: Event, path: string, best: Rank) {
    e.Deliver? && exists r <- e.packet :: Usable(r, e.now) && r.storePath == path && RankOf(r) == best
  }

  /** In every gossip run, whatever is lost, repeated or reordered: the best rank
      is never beaten, a node that holds it keeps it, and a node that hears it
      once holds it from then on. So once every node holds it or has heard it,
      all agree. */
  lemma {:induction false} MeshAgrees(m: Mesh, events: seq<Event>, path: string, best: Rank)
    requires IsLatency(best.latency) && Within(m, path, best) && IsGossip(m, events)
    ensures Within(AfterGossip(m, events), path, best)
    ensures forall i | HoldsBest(m, i, path, best) :: HoldsBest(AfterGossip(m, events), i, path, best)
    ensures forall e | e in events && Hears(e, path, best) ::
              HoldsBest(AfterGossip(m, events), e.to, path, best)
    decreases |events|
  {
    if events != [] {
      assert events == [events[0]] + events[1..];
      GossipStep(m, events[0], path, best);
      MeshAgrees(Gossiped(m, events[0]), events[1..], path, best);
    }
  }
}
