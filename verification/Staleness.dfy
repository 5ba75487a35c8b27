/** How old a cached narinfo can be: the in-memory cache sits on top of the route
    table, and both expire after route_ttl. One store hash is enough, since its
    entries and those of others meet only in eviction, which may happen at will.
    A lookup suspends between what it reads and what it does with it, so it is a
    pending read that other lookups' steps can fall between. */
module Staleness {
  import opened Wrappers

  /** `stamp` is when a race committed the narinfo, or when it was re-fetched. */
  datatype Row = Row(stamp: nat, ttl: nat)
  datatype Held = Held(inserted: nat, stamp: nat)

  /** A suspended lookup: what it holds, and when it last read or fetched it. */
  datatype Pending =
    | Committing(stamp: nat, since: nat)
    | DbHit(stamp: nat, since: nat, ttl: nat)
    | LruHit(stamp: nat, since: nat, refetched: bool)

  datatype Served = Served(at: nat, stamp: nat)

  datatype State = State(now: nat, row: Option<Row>, lru: Option<Held>, pending: seq<Pending>, log: seq<Served>)

  datatype Action =
    | Tick
    | Commit              // commit_winner stores the row
    | ReadRow             // valid_cached_route finds a valid row
    | ReadLru             // the in-memory cache has a live entry
    | Refetch(i: nat)     // the filter check re-fetched the narinfo
    | WriteRow(i: nat)    // the row is written back with the new narinfo
    | Finish(i: nat)      // the lookup fills the in-memory cache and answers
    | Abandon(i: nat)     // it gives up: rejected, failed or cancelled
    | LoseRow             // expiry, eviction
    | LoseLru             // expiry, eviction, invalidation

  /** route_ttl, and how long a lookup may stay suspended after a read. */
  datatype Times = Times(ttl: nat, delay: nat)

  predicate Enabled(t: Times, s: State, a: Action) {
    match a
    case ReadRow => s.row.Some? && s.now < s.row.value.ttl
    case ReadLru => s.lru.Some? && s.now < s.lru.value.inserted + t.ttl
    case Refetch(i) => i < |s.pending| && !s.pending[i].Committing?
    case WriteRow(i) => i < |s.pending| && s.pending[i].DbHit?
    case Finish(i) => i < |s.pending| && s.now <= s.pending[i].since + t.delay
    case Abandon(i) => i < |s.pending|
    case _ => true
  }

  function Without(p: seq<Pending>, i: nat): seq<Pending>
    requires i < |p|
  {
    p[..i] + p[i + 1..]
  }

  function Refetched(p: Pending, now: nat): Pending {
    match p
    case Committing(_, _) => p
    case DbHit(_, _, ttl) => DbHit(now, now, ttl)
    case LruHit(_, _, _) => LruHit(now, now, true)
  }

  function Apply(t: Times, s: State, a: Action): State
    requires Enabled(t, s, a)
  {
    match a
    case Tick => s.(now := s.now + 1)
    case Commit =>
      s.(row := Some(Row(s.now, s.now + t.ttl)), pending := s.pending + [Committing(s.now, s.now)])
    case ReadRow => s.(pending := s.pending + [DbHit(s.row.value.stamp, s.now, s.row.value.ttl)])
    case ReadLru => s.(pending := s.pending + [LruHit(s.lru.value.stamp, s.now, false)])
    case Refetch(i) => s.(pending := s.pending[i := Refetched(s.pending[i], s.now)])
    case WriteRow(i) => s.(row := Some(Row(s.pending[i].stamp, s.pending[i].ttl)))
    case Finish(i) =>
      var p := s.pending[i];
      s.(pending := Without(s.pending, i),
         lru := if p.LruHit? && !p.refetched then s.lru else Some(Held(s.now, p.stamp)),
         log := if p.Committing? then s.log else s.log + [Served(s.now, p.stamp)])
    case Abandon(i) => s.(pending := Without(s.pending, i))
    case LoseRow => s.(row := None)
    case LoseLru => s.(lru := None)
  }

  ghost predicate IsRun(t: Times, s: State, run: seq<Action>)
    decreases |run|
  {
    run == [] || (Enabled(t, s, run[0]) && IsRun(t, Apply(t, s, run[0]), run[1..]))
  }

  ghost function After(t: Times, s: State, run: seq<Action>): State
    requires IsRun(t, s, run)
    decreases |run|
  {
    if run == [] then s else After(t, Apply(t, s, run[0]), run[1..])
  }

  const Empty := State(0, None, None, [], [])

  // ---- The bound

  ghost predicate PendingOk(t: Times, now: nat, p: Pending) {
    && p.stamp <= p.since <= now
    && match p
       case Committing(stamp, since) => since == stamp
       case DbHit(stamp, since, ttl) => since + 1 <= stamp + t.ttl && ttl <= stamp + t.ttl
       case LruHit(stamp, since, refetched) =>
         since + 2 <= stamp + 2 * t.ttl + t.delay && (refetched ==> since == stamp)
  }

  ghost predicate ServedOk(t: Times, e: Served) {
    e.stamp <= e.at && e.at + 2 <= e.stamp + 2 * t.ttl + 2 * t.delay
  }

  ghost predicate Inv(t: Times, s: State) {
    && (s.row.Some? ==> s.row.value.stamp <= s.now && s.row.value.ttl <= s.row.value.stamp + t.ttl)
    && (s.lru.Some? ==> && s.lru.value.stamp <= s.lru.value.inserted <= s.now
                        && s.lru.value.inserted + 1 <= s.lru.value.stamp + t.ttl + t.delay)
    && (forall i | 0 <= i < |s.pending| :: PendingOk(t, s.now, s.pending[i]))
    && (forall i | 0 <= i < |s.log| :: ServedOk(t, s.log[i]))
  }

  lemma InvStep(t: Times, s: State, a: Action)
    requires t.ttl >= 1 && Inv(t, s) && Enabled(t, s, a)
    ensures Inv(t, Apply(t, s, a))
  {
    if a.Finish? || a.Refetch? || a.WriteRow? { assert PendingOk(t, s.now, s.pending[a.i]); }
  }

  lemma {:induction false} InvRun(t: Times, s: State, run: seq<Action>)
    requires t.ttl >= 1 && Inv(t, s) && IsRun(t, s, run)
    ensures Inv(t, After(t, s, run))
    decreases |run|
  {
    if run != [] {
      InvStep(t, s, run[0]);
      InvRun(t, Apply(t, s, run[0]), run[1..]);
    }
  }

  /** Over every interleaving, a narinfo that is served from a cache was committed
      or re-fetched less than 2 * route_ttl before, but for the time that lookups
      were suspended: once before the cache was filled, once before the answer. */
  lemma StalenessIsBounded(t: Times, run: seq<Action>)
    requires t.ttl >= 1 && IsRun(t, Empty, run)
    ensures forall e <- After(t, Empty, run).log ::
              e.stamp <= e.at <= e.stamp + 2 * t.ttl + 2 * t.delay - 2
  {
    InvRun(t, Empty, run);
  }

  // ---- The bound is met

  lemma {:induction false} Then(t: Times, s: State, run: seq<Action>, a: Action)
    requires IsRun(t, s, run) && Enabled(t, After(t, s, run), a)
    ensures IsRun(t, s, run + [a]) && After(t, s, run + [a]) == Apply(t, After(t, s, run), a)
    decreases |run|
  {
    if run == [] {
      assert run + [a] == [a];
    } else {
      assert (run + [a])[0] == run[0] && (run + [a])[1..] == run[1..] + [a];
      Then(t, Apply(t, s, run[0]), run[1..], a);
    }
  }

  lemma {:induction false} Wait(t: Times, run0: seq<Action>, s0: State, n: nat) returns (run: seq<Action>, s: State)
    requires IsRun(t, Empty, run0) && After(t, Empty, run0) == s0
    ensures IsRun(t, Empty, run) && After(t, Empty, run) == s && s == s0.(now := s0.now + n)
    decreases n
  {
    run, s := run0, s0;
    if n > 0 {
      run, s := Wait(t, run0, s0, n - 1);
      Then(t, Empty, run, Tick);
      run, s := run + [Tick], Apply(t, s, Tick);
    }
  }

  /** A narinfo is committed at 0, its row read in its last second, and the in-memory
      cache filled a delay later... */
  lemma FilledLate(t: Times) returns (run: seq<Action>, s: State)
    requires t.ttl >= 1
    ensures IsRun(t, Empty, run) && After(t, Empty, run) == s
    ensures var now := t.ttl - 1 + t.delay;
            s == State(now, Some(Row(0, t.ttl)), Some(Held(now, 0)), [], [Served(now, 0)])
  {
    run, s := [], Empty;
    Then(t, Empty, run, Commit);
    run, s := run + [Commit], Apply(t, s, Commit);
    Then(t, Empty, run, Abandon(0));
    run, s := run + [Abandon(0)], Apply(t, s, Abandon(0));
    run, s := Wait(t, run, s, t.ttl - 1);
    Then(t, Empty, run, ReadRow);
    run, s := run + [ReadRow], Apply(t, s, ReadRow);
    run, s := Wait(t, run, s, t.delay);
    Then(t, Empty, run, Finish(0));
    run, s := run + [Finish(0)], Apply(t, s, Finish(0));
  }

  /** ...which is read in its last second, and answers a delay later: at exactly the
      bound. */
  lemma BoundIsMet(t: Times) returns (run: seq<Action>)
    requires t.ttl >= 1
    ensures IsRun(t, Empty, run)
    ensures After(t, Empty, run).log == [Served(t.ttl - 1 + t.delay, 0), Served(2 * t.ttl + 2 * t.delay - 2, 0)]
  {
    var s;
    run, s := FilledLate(t);
    run, s := Wait(t, run, s, t.ttl - 1);
    Then(t, Empty, run, ReadLru);
    run, s := run + [ReadLru], Apply(t, s, ReadLru);
    run, s := Wait(t, run, s, t.delay);
    Then(t, Empty, run, Finish(0));
    run, s := run + [Finish(0)], Apply(t, s, Finish(0));
  }

  /** Everything served is younger than twice route_ttl, in every run, exactly if no
      lookup is ever suspended past the moment of its reading. */
  lemma YoungerThanTwoTtlsIff(t: Times)
    requires t.ttl >= 1
    ensures (forall run | IsRun(t, Empty, run) :: forall e <- After(t, Empty, run).log :: e.at < e.stamp + 2 * t.ttl)
            <==> t.delay == 0
  {
    if t.delay == 0 {
      forall run | IsRun(t, Empty, run)
        ensures forall e <- After(t, Empty, run).log :: e.at < e.stamp + 2 * t.ttl
      {
        StalenessIsBounded(t, run);
      }
    } else {
      var run := BoundIsMet(t);
      assert Served(2 * t.ttl + 2 * t.delay - 2, 0) in After(t, Empty, run).log;
    }
  }
}
