/** Upstream health: a moving average of latencies and a count of failures in a
    row. Latencies are reals; what rounding does to them is not modelled. */
module Health {
  import opened Wrappers

  type Url = string

  datatype Status = Active | Degraded | Down

  datatype UpstreamHealth = UpstreamHealth(
    url: Url, priority: int, emaLatency: real, lastProbe: Option<nat>,
    consecutiveFails: nat, totalQueries: nat, status: Status)

  /** What happens to one record. */
  datatype Event = Sample(ms: real, now: nat) | Failure | Seed(ema: real, fails: int, queries: int)

  /** What is handed to the database after a change. */
  datatype Snapshot = Snapshot(url: Url, emaLatency: real, consecutiveFails: nat, totalQueries: nat)

  const U32 := 0x1_0000_0000
  const U64 := 0x1_0000_0000_0000_0000

  function ComputeStatus(fails: nat): Status {
    if fails >= 10 then Down else if fails >= 3 then Degraded else Active
  }

  // Longest duration, in nanoseconds.
  const DURATION_MAX := (U64 - 1) * 1_000_000_000 + 999_999_999

  function BackoffInterval(base: nat, fails: nat): nat {
    var due := base * (if fails <= 2 then 1 else if fails <= 9 then 4 else 10);
    if due > DURATION_MAX then DURATION_MAX else due
  }

  function NewHealth(url: Url, priority: int): UpstreamHealth {
    UpstreamHealth(url, priority, 0.0, None, 0, 0, Active)
  }

  function Ema(alpha: real, ms: real, ema: real): real { alpha * ms + (1.0 - alpha) * ema }

  /** Unsigned counters wrap around. */
  function Step(alpha: real, h: UpstreamHealth, e: Event): UpstreamHealth {
    match e
    case Sample(ms, now) =>
      h.(emaLatency := if h.totalQueries == 0 then ms else Ema(alpha, ms, h.emaLatency),
         consecutiveFails := 0, totalQueries := (h.totalQueries + 1) % U64,
         status := Active, lastProbe := Some(now))
    case Failure =>
      var fails := (h.consecutiveFails + 1) % U32;
      h.(consecutiveFails := fails, status := ComputeStatus(fails))
    case Seed(ema, fails, queries) =>
      var fails' := if fails < 0 then 0 else if fails >= U32 then U32 - 1 else fails;
      h.(emaLatency := ema, totalQueries := if queries < 0 then 0 else queries,
         consecutiveFails := fails', status := ComputeStatus(fails'))
  }

  function Run(alpha: real, h: UpstreamHealth, events: seq<Event>): UpstreamHealth
    decreases |events|
  {
    if events == [] then h
    else Step(alpha, Run(alpha, h, events[..|events| - 1]), events[|events| - 1])
  }

  function Samples(events: seq<Event>): seq<real>
    decreases |events|
  {
    if events == [] then []
    else
      var earlier, e := Samples(events[..|events| - 1]), events[|events| - 1];
      if e.Sample? then earlier + [e.ms] else earlier
  }

  predicate NoSeeds(events: seq<Event>) { forall i | 0 <= i < |events| :: !events[i].Seed? }

  // ---- The average

  lemma Fraction(a: real, d: real)
    requires 0.0 < a < 1.0 && d >= 0.0
    ensures 0.0 <= a * d <= d
  {
    assert (1.0 - a) * d >= 0.0;
  }

  lemma EmaMovesBy(alpha: real, x: real, e: real, d: real)
    requires d == x - e
    ensures Ema(alpha, x, e) == e + alpha * d
  {
  }

  lemma PartOfTheWay(alpha: real, e: real, d: real, y: real)
    requires 0.0 < alpha < 1.0 && d >= 0.0 && y == e + alpha * d
    ensures e <= y <= e + d
  {
    Fraction(alpha, d);
  }

  lemma EmaMovesUp(alpha: real, x: real, e: real)
    requires 0.0 < alpha < 1.0 && x >= e
    ensures e <= Ema(alpha, x, e) <= x
  {
    EmaMovesBy(alpha, x, e, x - e);
    PartOfTheWay(alpha, e, x - e, Ema(alpha, x, e));
  }

  lemma EmaSwapped(alpha: real, x: real, e: real)
    ensures Ema(alpha, x, e) == Ema(1.0 - alpha, e, x)
  {
  }

  lemma Between(alpha: real, x: real, e: real, lo: real, hi: real)
    requires 0.0 < alpha < 1.0 && lo <= x <= hi && lo <= e <= hi
    ensures lo <= Ema(alpha, x, e) <= hi
  {
    if x >= e {
      EmaMovesUp(alpha, x, e);
    } else {
      EmaSwapped(alpha, x, e);
      EmaMovesUp(1.0 - alpha, e, x);
    }
  }

  /** The average never leaves the range of what it was made from: the samples, and
      the value it started with if that one counts. */
  lemma {:induction false} EmaStaysInHull(alpha: real, h: UpstreamHealth, events: seq<Event>, lo: real, hi: real)
    requires 0.0 < alpha < 1.0 && NoSeeds(events)
    requires forall i | 0 <= i < |Samples(events)| :: lo <= Samples(events)[i] <= hi
    requires h.totalQueries > 0 ==> lo <= h.emaLatency <= hi
    requires h.totalQueries > 0 || Samples(events) != []
    ensures lo <= Run(alpha, h, events).emaLatency <= hi
    decreases |events|
  {
    if events != [] {
      var earlier, e := events[..|events| - 1], events[|events| - 1];
      var before := Run(alpha, h, earlier);
      if e.Sample? {
        assert Samples(events) == Samples(earlier) + [e.ms];
        assert Samples(events)[|Samples(earlier)|] == e.ms;
        assert forall i | 0 <= i < |Samples(earlier)| :: Samples(earlier)[i] == Samples(events)[i];
        if h.totalQueries > 0 || Samples(earlier) != [] {
          EmaStaysInHull(alpha, h, earlier, lo, hi);
          Between(alpha, e.ms, before.emaLatency, lo, hi);
        } else {
          NothingSampled(alpha, h, earlier);
        }
      } else {
        EmaStaysInHull(alpha, h, earlier, lo, hi);
      }
    }
  }

  lemma {:induction false} NothingSampled(alpha: real, h: UpstreamHealth, events: seq<Event>)
    requires NoSeeds(events) && Samples(events) == []
    ensures Run(alpha, h, events).emaLatency == h.emaLatency
    ensures Run(alpha, h, events).totalQueries == h.totalQueries
    decreases |events|
  {
    if events != [] { NothingSampled(alpha, h, events[..|events| - 1]); }
  }

  function Pow(x: real, n: nat): real { if n == 0 then 1.0 else x * Pow(x, n - 1) }

  /** The weight of value `i` of `n`: the newest counts alpha, and each newer value
      shrinks those before it. The first one stands for all before it. */
  function Weight(alpha: real, n: nat, i: nat): real
    requires i < n
  {
    if i == 0 && n == 1 then 1.0
    else if i == n - 1 then alpha
    else (1.0 - alpha) * Weight(alpha, n - 1, i)
  }

  lemma {:induction false} WeightIsClosed(alpha: real, n: nat, i: nat)
    requires i < n
    ensures Weight(alpha, n, i) == if i == 0 then Pow(1.0 - alpha, n - 1) else alpha * Pow(1.0 - alpha, n - 1 - i)
    decreases n
  {
    if i < n - 1 {
      WeightIsClosed(alpha, n - 1, i);
      Commute(1.0 - alpha, alpha, Pow(1.0 - alpha, if i == 0 then 0 else n - 2 - i));
    }
  }

  lemma Commute(a: real, b: real, c: real)
    ensures b * (a * c) == a * (b * c)
  {
  }

  function Weighted(alpha: real, xs: seq<real>, n: nat, k: nat): real
    requires k <= |xs| && k <= n
  {
    if k == 0 then 0.0 else Weighted(alpha, xs, n, k - 1) + Weight(alpha, n, k - 1) * xs[k - 1]
  }

  lemma ScaleSum(r: real, a: real, a': real, w: real, w': real, x: real, sum: real, sum': real)
    requires a' == r * a && w' == r * w && sum == a + w * x && sum' == a' + w' * x
    ensures sum' == r * sum
  {
    assert r * w * x == r * (w * x);
  }

  /** One more value shrinks what the others make up. */
  lemma {:induction false} OneMoreValue(alpha: real, xs: seq<real>, ys: seq<real>, n: nat, k: nat)
    requires k <= n && n <= |xs| && n <= |ys| && xs[..n] == ys[..n]
    ensures Weighted(alpha, ys, n + 1, k) == (1.0 - alpha) * Weighted(alpha, xs, n, k)
    decreases k
  {
    if k > 0 {
      var i := k - 1;
      OneMoreValue(alpha, xs, ys, n, i);
      assert xs[i] == xs[..n][i] == ys[i];
      ScaleSum(1.0 - alpha, Weighted(alpha, xs, n, i), Weighted(alpha, ys, n + 1, i),
               Weight(alpha, n, i), Weight(alpha, n + 1, i), xs[i],
               Weighted(alpha, xs, n, k), Weighted(alpha, ys, n + 1, k));
    }
  }

  lemma MakeEma(alpha: real, a: real, b: real, w: real, x: real, sum: real)
    requires b == (1.0 - alpha) * a && w == alpha && sum == b + w * x
    ensures sum == Ema(alpha, x, a)
  {
  }

  lemma WeightedStep(alpha: real, xs: seq<real>, x: real)
    requires xs != []
    ensures var n := |xs|;
            Weighted(alpha, xs + [x], n + 1, n + 1) == Ema(alpha, x, Weighted(alpha, xs, n, n))
  {
    var n, ys := |xs|, xs + [x];
    assert ys[..n] == xs[..n];
    OneMoreValue(alpha, xs, ys, n, n);
    MakeEma(alpha, Weighted(alpha, xs, n, n), Weighted(alpha, ys, n + 1, n), Weight(alpha, n + 1, n), x,
            Weighted(alpha, ys, n + 1, n + 1));
  }

  lemma OneValue(alpha: real, x: real)
    ensures Weighted(alpha, [x], 1, 1) == x
  {
    assert Weighted(alpha, [x], 1, 0) == 0.0;
  }

  /** What the average is made from: the samples, after the starting value if it counts. */
  function Values(h: UpstreamHealth, events: seq<Event>): seq<real> {
    (if h.totalQueries > 0 then [h.emaLatency] else []) + Samples(events)
  }

  lemma {:induction false} QueriesCountSamples(alpha: real, h: UpstreamHealth, events: seq<Event>)
    requires NoSeeds(events) && h.totalQueries < U64
    ensures Run(alpha, h, events).totalQueries == (h.totalQueries + |Samples(events)|) % U64
    decreases |events|
  {
    if events != [] { QueriesCountSamples(alpha, h, events[..|events| - 1]); }
  }

  lemma SampleAveraged(alpha: real, h: UpstreamHealth, events: seq<Event>)
    requires events != [] && NoSeeds(events) && events[|events| - 1].Sample?
    requires h.totalQueries + |Samples(events)| <= U64
    requires Values(h, events[..|events| - 1]) != []
    ensures Run(alpha, h, events).emaLatency
         == Ema(alpha, events[|events| - 1].ms, Run(alpha, h, events[..|events| - 1]).emaLatency)
  {
    QueriesCountSamples(alpha, h, events[..|events| - 1]);
  }

  /** The average is the closed weighted sum of its values. */
  lemma {:induction false} EmaIsWeightedSum(alpha: real, h: UpstreamHealth, events: seq<Event>)
    requires NoSeeds(events) && h.totalQueries + |Samples(events)| <= U64
    requires Values(h, events) != []
    ensures var xs := Values(h, events);
            Run(alpha, h, events).emaLatency == Weighted(alpha, xs, |xs|, |xs|)
    decreases |events|
  {
    var ys := Values(h, events);
    if events == [] {
      OneValue(alpha, h.emaLatency);
    } else {
      var earlier, e := events[..|events| - 1], events[|events| - 1];
      var xs := Values(h, earlier);
      if e.Sample? {
        assert ys == xs + [e.ms];
        if xs == [] {
          NothingSampled(alpha, h, earlier);
          OneValue(alpha, e.ms);
        } else {
          EmaIsWeightedSum(alpha, h, earlier);
          WeightedStep(alpha, xs, e.ms);
          SampleAveraged(alpha, h, events);
        }
      } else {
        EmaIsWeightedSum(alpha, h, earlier);
      }
    }
  }

  /** The weights are those of an average. */
  lemma {:induction false} WeightsSumToOne(alpha: real, ones: seq<real>)
    requires ones != [] && forall i | 0 <= i < |ones| :: ones[i] == 1.0
    ensures Weighted(alpha, ones, |ones|, |ones|) == 1.0
    decreases |ones|
  {
    var n := |ones| - 1;
    if n == 0 {
      OneValue(alpha, 1.0);
      assert ones == [1.0];
    } else {
      WeightsSumToOne(alpha, ones[..n]);
      WeightedStep(alpha, ones[..n], 1.0);
      assert ones == ones[..n] + [1.0];
    }
  }

  lemma Associate(a: real, b: real, c: real)
    ensures a * (b * c) == a * b * c
  {
  }

  lemma ContractStep(alpha: real, before: real, c: real, p: real, q: real, d: real)
    requires before - c == p * d && q == (1.0 - alpha) * p
    ensures Ema(alpha, c, before) - c == q * d
  {
    Associate(1.0 - alpha, p, d);
    assert Ema(alpha, c, before) - c == (1.0 - alpha) * (before - c);
  }

  lemma ContractOnce(alpha: real, h: UpstreamHealth, events: seq<Event>, c: real)
    requires events != [] && NoSeeds(events) && events[|events| - 1].Sample? && events[|events| - 1].ms == c
    requires 0 < h.totalQueries && h.totalQueries + |Samples(events)| <= U64
    requires var earlier := events[..|events| - 1];
             Run(alpha, h, earlier).emaLatency - c == Pow(1.0 - alpha, |Samples(earlier)|) * (h.emaLatency - c)
    ensures Run(alpha, h, events).emaLatency - c == Pow(1.0 - alpha, |Samples(events)|) * (h.emaLatency - c)
  {
    var earlier := events[..|events| - 1];
    var n := |Samples(earlier)|;
    var before := Run(alpha, h, earlier).emaLatency;
    SampleAveraged(alpha, h, events);
    assert Pow(1.0 - alpha, n + 1) == (1.0 - alpha) * Pow(1.0 - alpha, n);
    ContractStep(alpha, before, c, Pow(1.0 - alpha, n), Pow(1.0 - alpha, n + 1), h.emaLatency - c);
  }

  /** A constant sample pulls the average in by the same factor each time. */
  lemma {:induction false} EmaContracts(alpha: real, h: UpstreamHealth, events: seq<Event>, c: real)
    requires NoSeeds(events) && 0 < h.totalQueries && h.totalQueries + |Samples(events)| <= U64
    requires forall i | 0 <= i < |Samples(events)| :: Samples(events)[i] == c
    ensures Run(alpha, h, events).emaLatency - c == Pow(1.0 - alpha, |Samples(events)|) * (h.emaLatency - c)
    decreases |events|
  {
    if events == [] {
      assert Pow(1.0 - alpha, 0) == 1.0;
    } else {
      var earlier, e := events[..|events| - 1], events[|events| - 1];
      if e.Sample? {
        var n := |Samples(earlier)|;
        assert Samples(events) == Samples(earlier) + [e.ms] && Samples(events)[n] == e.ms;
        assert forall i | 0 <= i < n :: Samples(earlier)[i] == Samples(events)[i];
        EmaContracts(alpha, h, earlier, c);
        ContractOnce(alpha, h, events, c);
      } else {
        EmaContracts(alpha, h, earlier, c);
      }
    }
  }

  function OnlySamples(events: seq<Event>): seq<Event>
    decreases |events|
  {
    if events == [] then []
    else
      var earlier, e := OnlySamples(events[..|events| - 1]), events[|events| - 1];
      if e.Sample? then earlier + [e] else earlier
  }

  /** Failures leave the average alone. */
  lemma {:induction false} FailuresLeaveEma(alpha: real, h: UpstreamHealth, events: seq<Event>)
    requires NoSeeds(events)
    ensures var all, some := Run(alpha, h, events), Run(alpha, h, OnlySamples(events));
            all.emaLatency == some.emaLatency && all.totalQueries == some.totalQueries
    decreases |events|
  {
    if events != [] {
      var earlier, e := events[..|events| - 1], events[|events| - 1];
      FailuresLeaveEma(alpha, h, earlier);
      if e.Sample? {
        assert OnlySamples(events)[..|OnlySamples(earlier)|] == OnlySamples(earlier);
      }
    }
  }

  // ---- The status

  /** Failures since the last success. */
  function FailsInARow(h: UpstreamHealth, events: seq<Event>): nat
    requires NoSeeds(events)
    decreases |events|
  {
    if events == [] then h.consecutiveFails
    else if events[|events| - 1].Sample? then 0
    else 1 + FailsInARow(h, events[..|events| - 1])
  }

  /** The status is always that of the failures in a row, counted in 32 bits. */
  lemma {:induction false} StatusCountsFailures(alpha: real, h: UpstreamHealth, events: seq<Event>)
    requires NoSeeds(events) && h.consecutiveFails < U32 && h.status == ComputeStatus(h.consecutiveFails)
    ensures var after := Run(alpha, h, events);
            && after.consecutiveFails == FailsInARow(h, events) % U32
            && after.status == ComputeStatus(after.consecutiveFails)
    decreases |events|
  {
    if events != [] {
      var earlier := events[..|events| - 1];
      StatusCountsFailures(alpha, h, earlier);
      AddThenWrap(FailsInARow(h, earlier));
    }
  }

  lemma AddThenWrap(n: nat)
    ensures (n % U32 + 1) % U32 == (n + 1) % U32
  {
  }

  /** Counting in 32 bits shows in the status exactly if so many failures came in a row
      that the remainder is below ten. */
  lemma StatusIsHonestIff(alpha: real, h: UpstreamHealth, events: seq<Event>)
    requires NoSeeds(events) && h.consecutiveFails < U32 && h.status == ComputeStatus(h.consecutiveFails)
    ensures var fails := FailsInARow(h, events);
            Run(alpha, h, events).status == ComputeStatus(fails) <==> fails < 10 || fails % U32 >= 10
  {
    StatusCountsFailures(alpha, h, events);
  }

  /** So an upstream with 2^32 - 1 stored failures is back to normal after one more. */
  lemma StoredFailuresWrap(alpha: real, h: UpstreamHealth, ema: real, fails: int, queries: int)
    requires fails >= U32 - 1
    ensures Run(alpha, h, [Seed(ema, fails, queries)]).status == Down
    ensures Run(alpha, h, [Seed(ema, fails, queries), Failure]).status == Active
  {
    var seed := Seed(ema, fails, queries);
    assert [seed][..0] == [] && [seed, Failure][..1] == [seed];
    assert Run(alpha, h, [seed]).consecutiveFails == U32 - 1;
  }

  /** An upstream is probed at the rate of its status. */
  lemma BackoffFollowsStatus(base: nat, fails: nat)
    requires base * 10 <= DURATION_MAX
    ensures BackoffInterval(base, fails)
         == base * match ComputeStatus(fails) case Active => 1 case Degraded => 4 case Down => 10
  {
  }

  // ---- The table, changed in place

  type Table = map<Url, UpstreamHealth>

  datatype Op = Add(url: Url, priority: int) | Remove(url: Url) | Note(url: Url, event: Event)

  function Next(alpha: real, t: Table, op: Op): Table {
    match op
    case Add(url, priority) => if url in t then t else t[url := NewHealth(url, priority)]
    case Remove(url) => t - {url}
    case Note(url, event) => if url in t then t[url := Step(alpha, t[url], event)] else t
  }

  function RunTable(alpha: real, t: Table, ops: seq<Op>): Table
    decreases |ops|
  {
    if ops == [] then t else Next(alpha, RunTable(alpha, t, ops[..|ops| - 1]), ops[|ops| - 1])
  }

  function EventsOf(url: Url, ops: seq<Op>): seq<Event>
    decreases |ops|
  {
    if ops == [] then []
    else
      var earlier, op := EventsOf(url, ops[..|ops| - 1]), ops[|ops| - 1];
      if op.Note? && op.url == url then earlier + [op.event] else earlier
  }

  /** While it is tracked, a record is what its own events make of it. */
  lemma {:induction false} RecordsAreIndependent(alpha: real, t: Table, ops: seq<Op>, url: Url)
    requires url in t && forall i | 0 <= i < |ops| :: ops[i] != Remove(url)
    ensures url in RunTable(alpha, t, ops)
    ensures RunTable(alpha, t, ops)[url] == Run(alpha, t[url], EventsOf(url, ops))
    decreases |ops|
  {
    if ops != [] {
      var earlier, op := ops[..|ops| - 1], ops[|ops| - 1];
      RecordsAreIndependent(alpha, t, earlier, url);
      if op.Note? && op.url == url {
        assert EventsOf(url, ops)[..|EventsOf(url, earlier)|] == EventsOf(url, earlier);
      }
    }
  }

  function SnapshotOf(h: UpstreamHealth): Snapshot {
    Snapshot(h.url, h.emaLatency, h.consecutiveFails, h.totalQueries)
  }

  class Prober {
    const alpha: real
    var table: Table

    constructor (alpha: real)
      ensures this.alpha == alpha && table == map[]
    {
      this.alpha, table := alpha, map[];
    }

    /** Starts tracking the configured upstreams; the first of equal URLs counts. */
    method InitUpstreams(upstreams: seq<(Url, int)>)
      modifies this
      ensures table == RunTable(alpha, old(table), seq(|upstreams|, i requires 0 <= i < |upstreams| =>
                                                        Add(upstreams[i].0, upstreams[i].1)))
      ensures forall url :: url in table <==>
                            url in old(table) || exists i | 0 <= i < |upstreams| :: upstreams[i].0 == url
    {
      ghost var ops := seq(|upstreams|, i requires 0 <= i < |upstreams| => Add(upstreams[i].0, upstreams[i].1));
      for n := 0 to |upstreams|
        invariant table == RunTable(alpha, old(table), ops[..n])
        invariant forall url :: url in table <==>
                                url in old(table) || exists i | 0 <= i < n :: upstreams[i].0 == url
      {
        assert ops[..n + 1][..n] == ops[..n];
        var (url, priority) := upstreams[n];
        if url !in table {
          table := table[url := NewHealth(url, priority)];
        }
      }
      assert ops[..|upstreams|] == ops;
    }

    method SeedHealth(url: Url, ema: real, fails: int, queries: int)
      modifies this
      ensures table == Next(alpha, old(table), Note(url, Seed(ema, fails, queries)))
    {
      if url !in table {
        return;
      }
      var health := table[url];
      health := health.(emaLatency := ema, totalQueries := if queries < 0 then 0 else queries,
                        consecutiveFails := if fails < 0 then 0 else if fails > U32 - 1 then U32 - 1 else fails);
      table := table[url := health.(status := ComputeStatus(health.consecutiveFails))];
    }

    method RecordLatency(url: Url, ms: real, now: nat) returns (saved: Option<Snapshot>)
      modifies this
      ensures table == Next(alpha, old(table), Note(url, Sample(ms, now)))
      ensures saved == if url in table then Some(SnapshotOf(table[url])) else None
    {
      if url !in table {
        return None;
      }
      var health := table[url];
      if health.totalQueries == 0 {
        health := health.(emaLatency := ms);
      } else {
        health := health.(emaLatency := Ema(alpha, ms, health.emaLatency));
      }
      health := health.(consecutiveFails := 0, totalQueries := (health.totalQueries + 1) % U64,
                        status := Active, lastProbe := Some(now));
      table := table[url := health];
      saved := Some(SnapshotOf(health));
    }

    method RecordFailure(url: Url) returns (saved: Option<Snapshot>)
      modifies this
      ensures table == Next(alpha, old(table), Note(url, Failure))
      ensures saved == if url in table then Some(SnapshotOf(table[url])) else None
    {
      if url !in table {
        return None;
      }
      var health := table[url];
      health := health.(consecutiveFails := (health.consecutiveFails + 1) % U32);
      health := health.(status := ComputeStatus(health.consecutiveFails));
      table := table[url := health];
      saved := Some(SnapshotOf(health));
    }

    method AddUpstream(url: Url, priority: int) returns (added: bool)
      modifies this
      ensures table == Next(alpha, old(table), Add(url, priority))
      ensures added <==> url !in old(table)
    {
      if url in table {
        return false;
      }
      table := table[url := NewHealth(url, priority)];
      added := true;
    }

    method RemoveUpstream(url: Url)
      modifies this
      ensures table == Next(alpha, old(table), Remove(url))
    {
      table := table - {url};
    }
  }
}
