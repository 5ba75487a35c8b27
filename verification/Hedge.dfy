/** Serving a NAR: which upstreams are asked, in what order, and how many at once. */
module Hedge {
  import opened Ordering
  import opened Wrappers

  type Url = string

  datatype RouteKind = CacheHit | Direct | Hedged

  datatype Candidate = Candidate(upstream: Url, path: string, route: RouteKind)

  datatype Health = Health(url: Url, priority: int, down: bool)

  datatype Upstream = Upstream(url: Url, allowHedging: bool)

  function Reverse<T>(s: seq<T>): (r: seq<T>)
    ensures |r| == |s|
  {
    seq(|s|, i requires 0 <= i < |s| => s[|s| - 1 - i])
  }

  // ---- The scheduler

  datatype Hedging = Hedging(enabled: bool, maxInflight: nat)

  /** NoBranch is the select without an enabled branch, which panics. */
  datatype Outcome = Won(winner: Candidate) | AllFailed | NoBranch

  /** How one attempt ends. */
  datatype Reply = Response | NoResponse | Panic

  /** What became of the attempts, which the metrics count; `peak` is the most that
      were out at once. */
  datatype Log = Log(
    started: seq<Candidate>, failed: seq<Candidate>, panicked: seq<Candidate>,
    cancelled: multiset<Candidate>, peak: nat)

  const NoLog := Log([], [], [], multiset{}, 0)

  function Queue(initial: Candidate, candidates: seq<Candidate>): seq<Candidate> {
    [initial] + Reverse(candidates)
  }

  function Limit(h: Hedging): nat { if h.enabled then h.maxInflight else 1 }

  function Started(log: Log, c: Candidate, out: nat): Log {
    log.(started := log.started + [c], peak := if out > log.peak then out else log.peak)
  }

  /** What the scheduler has to decide on: the candidates still waiting, next one
      last, and the attempts that are out. */
  datatype Pool = Pool(waiting: seq<Candidate>, attempts: multiset<Candidate>)

  function StartNext(p: Pool): Pool
    requires p.waiting != []
  {
    Pool(p.waiting[..|p.waiting| - 1], p.attempts + multiset{p.waiting[|p.waiting| - 1]})
  }

  function Join(p: Pool, c: Candidate): Pool { p.(attempts := p.attempts - multiset{c}) }

  /** A failed attempt makes room for the next candidate at once. */
  function Replace(p: Pool, failed: Candidate): Pool {
    if p.waiting == [] then Join(p, failed) else StartNext(Join(p, failed))
  }

  function Replaced(log: Log, p: Pool, failed: Candidate): Log {
    var log' := log.(failed := log.failed + [failed]);
    if p.waiting == [] then log' else Started(log', p.waiting[|p.waiting| - 1], |Join(p, failed).attempts| + 1)
  }

  /** Every attempt started is out, failed or panicked; the rest of the queue waits. */
  ghost predicate Balanced(queue: seq<Candidate>, p: Pool, log: Log) {
    && log.started != []
    && log.started + Reverse(p.waiting) == queue
    && multiset(log.started) == multiset(log.failed) + multiset(log.panicked) + p.attempts
    && |p.attempts| <= log.peak
    && log.cancelled == multiset{}
  }

  /** Never more at once than the limit, unless a HEAD request asks everybody;
      without hedging each new attempt replaces a failed one. */
  ghost predicate Fair(head: bool, h: Hedging, p: Pool, log: Log) {
    && (!(head && h.enabled) ==> log.peak <= Limit(h))
    && (head && h.enabled ==> p.waiting == [])
    && (!h.enabled ==> |log.started| <= 1 + |log.failed|)
    && (log.panicked == [] && p.attempts == multiset{} ==> p.waiting == [])
  }

  lemma Starts(queue: seq<Candidate>, p: Pool, log: Log)
    requires Balanced(queue, p, log) && p.waiting != []
    ensures Balanced(queue, StartNext(p), Started(log, p.waiting[|p.waiting| - 1], |p.attempts| + 1))
    ensures |StartNext(p).waiting| == |p.waiting| - 1 && |StartNext(p).attempts| == |p.attempts| + 1
    ensures StartNext(p).attempts != multiset{}
  {
    var c, rest := p.waiting[|p.waiting| - 1], p.waiting[..|p.waiting| - 1];
    assert Reverse(p.waiting) == [c] + Reverse(rest);
    assert log.started + Reverse(p.waiting) == (log.started + [c]) + Reverse(rest);
    assert c in StartNext(p).attempts;
  }

  lemma TimerStarts(head: bool, h: Hedging, queue: seq<Candidate>, p: Pool, log: Log)
    requires Balanced(queue, p, log) && Fair(head, h, p, log) && p.waiting != []
    requires !head && h.enabled && |p.attempts| < Limit(h)
    ensures var log' := Started(log, p.waiting[|p.waiting| - 1], |p.attempts| + 1);
            Balanced(queue, StartNext(p), log') && Fair(head, h, StartNext(p), log')
    ensures |StartNext(p).waiting| == |p.waiting| - 1 && |StartNext(p).attempts| == |p.attempts| + 1
  {
    Starts(queue, p, log);
  }

  lemma Panics(head: bool, h: Hedging, queue: seq<Candidate>, p: Pool, log: Log, c: Candidate)
    requires Balanced(queue, p, log) && Fair(head, h, p, log) && c in p.attempts
    ensures var log' := log.(panicked := log.panicked + [c]);
            Balanced(queue, Join(p, c), log') && Fair(head, h, Join(p, c), log')
    ensures |Join(p, c).attempts| == |p.attempts| - 1
  {
  }

  lemma Wins(queue: seq<Candidate>, p: Pool, log: Log, c: Candidate)
    requires Balanced(queue, p, log) && c in p.attempts
    ensures multiset(log.started)
         == multiset(log.failed) + multiset(log.panicked) + Join(p, c).attempts + multiset{c}
  {
    assert p.attempts == Join(p, c).attempts + multiset{c};
  }

  lemma Fails(head: bool, h: Hedging, queue: seq<Candidate>, p: Pool, log: Log, c: Candidate)
    requires Balanced(queue, p, log) && Fair(head, h, p, log) && c in p.attempts
    ensures Balanced(queue, Replace(p, c), Replaced(log, p, c)) && Fair(head, h, Replace(p, c), Replaced(log, p, c))
    ensures 2 * |Replace(p, c).waiting| + |Replace(p, c).attempts| < 2 * |p.waiting| + |p.attempts|
  {
    var p', log' := Join(p, c), log.(failed := log.failed + [c]);
    assert Balanced(queue, p', log');
    if p.waiting != [] { Starts(queue, p', log'); }
  }

  /** A hedged HEAD request is sent to everybody at once. */
  method StartAll(ghost queue: seq<Candidate>, pool: Pool, before: Log) returns (p: Pool, log: Log)
    requires Balanced(queue, pool, before) && pool.attempts != multiset{} && before.panicked == []
    ensures Balanced(queue, p, log) && p.attempts != multiset{} && p.waiting == []
    ensures log.failed == before.failed && log.panicked == []
  {
    p, log := pool, before;
    while p.waiting != []
      invariant Balanced(queue, p, log) && p.attempts != multiset{}
      invariant log.failed == before.failed && log.panicked == []
      decreases |p.waiting|
    {
      Starts(queue, p, log);
      log := Started(log, p.waiting[|p.waiting| - 1], |p.attempts| + 1);
      p := StartNext(p);
    }
  }

  /** Without hedging, an attempt that panics before the last candidate's turn leaves
      the select without a branch: nobody is out, and nobody else is started. */
  predicate Stalls(h: Hedging, candidates: nat, ends: nat -> Reply) {
    !h.enabled && exists k | 0 <= k < candidates :: ends(k).Panic? && FailBefore(ends, k)
  }

  predicate FailBefore(ends: nat -> Reply, k: nat) { forall j | 0 <= j < k :: ends(j).NoResponse? }

  /** The attempts that ended did so as `ends` says, none with a response. */
  ghost predicate Follows(h: Hedging, ends: nat -> Reply, p: Pool, log: Log) {
    var ended := |log.failed| + |log.panicked|;
    && (forall k | 0 <= k < ended :: !ends(k).Response?)
    && (log.panicked == [] ==> FailBefore(ends, ended))
    && (!h.enabled && log.panicked != [] ==>
          p.attempts == multiset{} && ended > 0 && ends(ended - 1).Panic? && FailBefore(ends, ended - 1))
  }

  lemma FollowsPanic(head: bool, h: Hedging, ends: nat -> Reply, p: Pool, log: Log, c: Candidate)
    requires Fair(head, h, p, log) && Follows(h, ends, p, log) && c in p.attempts && |p.attempts| <= log.peak
    requires ends(|log.failed| + |log.panicked|).Panic?
    ensures Follows(h, ends, Join(p, c), log.(panicked := log.panicked + [c]))
  {
    if !h.enabled { assert |Join(p, c).attempts| == 0; }
  }

  lemma FollowsFailure(h: Hedging, ends: nat -> Reply, p: Pool, log: Log, c: Candidate)
    requires Follows(h, ends, p, log) && c in p.attempts
    requires ends(|log.failed| + |log.panicked|).NoResponse?
    ensures Follows(h, ends, Replace(p, c), Replaced(log, p, c))
  {
  }

  /** When nobody is out, the scheduler stalls exactly if somebody waits. */
  lemma StallsIff(head: bool, h: Hedging, ends: nat -> Reply, queue: seq<Candidate>, p: Pool, log: Log)
    requires Balanced(queue, p, log) && Fair(head, h, p, log) && Follows(h, ends, p, log)
    requires p.attempts == multiset{} && (p.waiting != [] ==> !h.enabled)
    ensures queue != [] && (Stalls(h, |queue| - 1, ends) <==> p.waiting != [])
    ensures p.waiting == [] ==> |log.failed| + |log.panicked| == |queue|
  {
    var ended := |log.failed| + |log.panicked|;
    assert |log.started| == |multiset(log.started)| == ended;
    assert |queue| == ended + |p.waiting|;
    if p.waiting != [] {
      assert ends(ended - 1).Panic? && FailBefore(ends, ended - 1);
    } else if !h.enabled {
      assert FailBefore(ends, |queue| - 1);
    }
  }

  lemma WinnerDoesNotStall(h: Hedging, ends: nat -> Reply, n: nat, p: Pool, log: Log)
    requires Follows(h, ends, p, log) && p.attempts != multiset{}
    requires ends(|log.failed| + |log.panicked|).Response?
    ensures !Stalls(h, n, ends)
  {
  }

  ghost predicate Running(head: bool, h: Hedging, ends: nat -> Reply, queue: seq<Candidate>, p: Pool, log: Log) {
    Balanced(queue, p, log) && Fair(head, h, p, log) && Follows(h, ends, p, log)
  }

  function Measure(p: Pool): nat { 2 * |p.waiting| + |p.attempts| }

  lemma TimerStep(head: bool, h: Hedging, ends: nat -> Reply, queue: seq<Candidate>, p: Pool, log: Log)
    requires Running(head, h, ends, queue, p, log) && p.waiting != []
    requires !head && h.enabled && |p.attempts| < Limit(h)
    ensures Running(head, h, ends, queue, StartNext(p), Started(log, p.waiting[|p.waiting| - 1], |p.attempts| + 1))
    ensures Measure(StartNext(p)) < Measure(p)
  {
    TimerStarts(head, h, queue, p, log);
  }

  lemma PanicStep(head: bool, h: Hedging, ends: nat -> Reply, queue: seq<Candidate>, p: Pool, log: Log, c: Candidate)
    requires Running(head, h, ends, queue, p, log) && c in p.attempts
    requires ends(|log.failed| + |log.panicked|).Panic?
    ensures Running(head, h, ends, queue, Join(p, c), log.(panicked := log.panicked + [c]))
    ensures Measure(Join(p, c)) < Measure(p)
  {
    FollowsPanic(head, h, ends, p, log, c);
    Panics(head, h, queue, p, log, c);
  }

  lemma FailureStep(head: bool, h: Hedging, ends: nat -> Reply, queue: seq<Candidate>, p: Pool, log: Log, c: Candidate)
    requires Running(head, h, ends, queue, p, log) && c in p.attempts
    requires ends(|log.failed| + |log.panicked|).NoResponse?
    ensures Running(head, h, ends, queue, Replace(p, c), Replaced(log, p, c))
    ensures Measure(Replace(p, c)) < Measure(p)
  {
    FollowsFailure(h, ends, p, log, c);
    Fails(head, h, queue, p, log, c);
  }

  /** What is known of the attempts in the end: who was started, and what became of
      each; how many were out at once; and which of the three outcomes it is. */
  ghost predicate Accounted(head: bool, h: Hedging, ends: nat -> Reply, queue: seq<Candidate>,
                            outcome: Outcome, log: Log) {
    && log.started != [] && log.started <= queue
    && multiset(log.started) == multiset(log.failed) + multiset(log.panicked) + log.cancelled
                                + (if outcome.Won? then multiset{outcome.winner} else multiset{})
    && (!(head && h.enabled) ==> log.peak <= Limit(h))
    && (head && h.enabled ==> log.started == queue)
    && (!h.enabled ==> |log.started| <= 1 + |log.failed|)
    && var ended := |log.failed| + |log.panicked|;
       && (forall k | 0 <= k < ended :: !ends(k).Response?)
       && (outcome.Won? ==> ends(ended).Response?)
       && (outcome.AllFailed? ==> log.started == queue && ended == |queue| && log.cancelled == multiset{})
       && (outcome.NoBranch? <==> Stalls(h, |queue| - 1, ends))
  }

  lemma NobodyOut(head: bool, h: Hedging, ends: nat -> Reply, queue: seq<Candidate>, p: Pool, log: Log)
    requires Running(head, h, ends, queue, p, log)
    requires p.attempts == multiset{} && (p.waiting != [] ==> !h.enabled)
    ensures Accounted(head, h, ends, queue, if p.waiting == [] then AllFailed else NoBranch, log)
  {
    StallsIff(head, h, ends, queue, p, log);
  }

  lemma SomebodyWon(head: bool, h: Hedging, ends: nat -> Reply, queue: seq<Candidate>, p: Pool, log: Log, c: Candidate)
    requires Running(head, h, ends, queue, p, log) && c in p.attempts
    requires ends(|log.failed| + |log.panicked|).Response?
    ensures Accounted(head, h, ends, queue, Won(c), log.(cancelled := Join(p, c).attempts))
  {
    WinnerDoesNotStall(h, ends, |queue| - 1, p, log);
    Wins(queue, p, log, c);
  }

  /** Runs the attempts until one has a response. The environment decides which
      attempt ends next, how the one that ends as number `k` does (`ends`), and when
      the hedge timer fires. */
  method HedgedNar(head: bool, h: Hedging, initial: Candidate, candidates: seq<Candidate>, ends: nat -> Reply)
    returns (outcome: Outcome, log: Log)
    requires h.enabled ==> h.maxInflight >= 1
    ensures Accounted(head, h, ends, Queue(initial, candidates), outcome, log)
  {
    var p := Pool(candidates, multiset{initial});
    log := Started(NoLog, initial, 1);
    ghost var queue := Queue(initial, candidates);
    if head && h.enabled {
      p, log := StartAll(queue, p, log);
    }

    while true
      invariant Running(head, h, ends, queue, p, log)
      decreases Measure(p)
    {
      if p.attempts == multiset{} && p.waiting == [] {
        NobodyOut(head, h, ends, queue, p, log);
        return AllFailed, log;
      }
      var joinReady := p.attempts != multiset{};
      var timerReady := !head && h.enabled && |p.attempts| < Limit(h) && p.waiting != [];
      if !joinReady && !timerReady {
        NobodyOut(head, h, ends, queue, p, log);
        return NoBranch, log;
      }
      var timer: bool :| if timer then timerReady else joinReady;
      if timer {
        TimerStep(head, h, ends, queue, p, log);
        log := Started(log, p.waiting[|p.waiting| - 1], |p.attempts| + 1);
        p := StartNext(p);
        continue;
      }
      var c :| c in p.attempts;
      match ends(|log.failed| + |log.panicked|) {
        case Panic =>
          PanicStep(head, h, ends, queue, p, log, c);
          log := log.(panicked := log.panicked + [c]);
          p := Join(p, c);
        case Response =>
          SomebodyWon(head, h, ends, queue, p, log, c);
          return Won(c), log.(cancelled := Join(p, c).attempts);
        case NoResponse =>
          FailureStep(head, h, ends, queue, p, log, c);
          log := Replaced(log, p, c);
          p := Replace(p, c);
      }
    }
  }

  // ---- The candidates

  /** Whether the configuration lets `url` take part in hedging; its first entry counts. */
  predicate HedgeAllowed(upstreams: seq<Upstream>, url: Url) {
    upstreams == [] ||
    if upstreams[0].url == url then upstreams[0].allowHedging else HedgeAllowed(upstreams[1..], url)
  }

  /** What decides on the candidates: the configuration, the one to leave out, and
      where each upstream has the NAR, as far as it could be found out. */
  datatype Query = Query(upstreams: seq<Upstream>, skip: Url, includeOptOuts: bool, path: Url -> Option<string>)

  predicate Eligible(q: Query, health: Health) {
    !health.down && health.url != q.skip && (q.includeOptOuts || HedgeAllowed(q.upstreams, health.url))
  }

  predicate Usable(q: Query, health: Health) { Eligible(q, health) && q.path(health.url).Some? }

  function ToCandidate(q: Query, health: Health): Candidate
    requires Usable(q, health)
  {
    Candidate(health.url, q.path(health.url).value, Hedged)
  }

  /** By priority first, then in the order of the health list. */
  predicate Before(health: seq<Health>, i: nat, j: nat)
    requires i < |health| && j < |health|
  {
    health[i].priority < health[j].priority || (health[i].priority == health[j].priority && i < j)
  }

  /** `order` is exactly the usable upstreams in order, each from where `from` says. */
  ghost predicate Picked(q: Query, health: seq<Health>, order: seq<Candidate>, from: seq<nat>) {
    && |order| == |from|
    && (forall k | 0 <= k < |from| ::
          from[k] < |health| && Usable(q, health[from[k]]) && order[k] == ToCandidate(q, health[from[k]]))
    && (forall j, k | 0 <= j < k < |from| :: Before(health, from[j], from[k]))
    && (forall i: nat | i < |health| && Usable(q, health[i]) :: i in from)
  }

  /** The health records that `indices` point at have one priority and are in order. */
  ghost predicate IsGroup(q: Query, health: seq<Health>, indices: seq<nat>, p: int) {
    && (forall k | 0 <= k < |indices| ::
          indices[k] < |health| && Eligible(q, health[indices[k]]) && health[indices[k]].priority == p)
    && (forall j, k | 0 <= j < k < |indices| :: indices[j] < indices[k])
  }

  lemma GroupGrows(q: Query, health: seq<Health>, group: seq<nat>, p: int, i: nat)
    requires IsGroup(q, health, group, p) && forall j <- group :: j < i
    requires i < |health| && Eligible(q, health[i]) && health[i].priority == p
    ensures IsGroup(q, health, group + [i], p) && forall j <- group + [i] :: j <= i
  {
    assert forall k | 0 <= k < |group| :: group[k] in group;
  }

  method ByPriority(q: Query, health: seq<Health>) returns (groups: map<int, seq<nat>>)
    ensures forall p <- groups :: IsGroup(q, health, groups[p], p)
    ensures forall i: nat | i < |health| && Eligible(q, health[i]) ::
              health[i].priority in groups && i in groups[health[i].priority]
  {
    groups := map[];
    for i := 0 to |health|
      invariant forall p <- groups :: IsGroup(q, health, groups[p], p) && forall j <- groups[p] :: j < i
      invariant forall j: nat | j < i && Eligible(q, health[j]) ::
                  health[j].priority in groups && j in groups[health[j].priority]
    {
      if !Eligible(q, health[i]) {
        continue;
      }
      var p := health[i].priority;
      var group := if p in groups then groups[p] else [];
      GroupGrows(q, health, group, p, i);
      groups := groups[p := group + [i]];
      assert i in groups[p] && forall j <- group :: j in groups[p];
    }
  }

  /** Those of a group whose NAR was found. */
  function Found(q: Query, health: seq<Health>, group: seq<nat>): (found: seq<nat>)
    requires forall k | 0 <= k < |group| :: group[k] < |health|
    ensures forall k | 0 <= k < |found| :: found[k] < |health| && q.path(health[found[k]].url).Some?
  {
    if group == [] then []
    else
      var rest := Found(q, health, group[..|group| - 1]);
      var i := group[|group| - 1];
      if q.path(health[i].url).Some? then rest + [i] else rest
  }

  lemma {:induction false} FoundIsGroup(q: Query, health: seq<Health>, group: seq<nat>, p: int)
    requires IsGroup(q, health, group, p)
    ensures IsGroup(q, health, Found(q, health, group), p)
    ensures forall i :: i in Found(q, health, group) <==> i in group && Usable(q, health[i])
    ensures forall k | 0 <= k < |Found(q, health, group)| :: Usable(q, health[Found(q, health, group)[k]])
    decreases |group|
  {
    if group != [] {
      var last := |group| - 1;
      var rest := Found(q, health, group[..last]);
      assert group == group[..last] + [group[last]];
      FoundIsGroup(q, health, group[..last], p);
      forall k | 0 <= k < |rest| ensures rest[k] < group[last] {
        assert rest[k] in rest && rest[k] in group[..last];
      }
    }
  }

  /** The candidates of one group. */
  method WithPaths(q: Query, health: seq<Health>, group: seq<nat>, p: int) returns (candidates: seq<Candidate>)
    requires IsGroup(q, health, group, p)
    ensures |candidates| == |Found(q, health, group)|
    ensures forall k | 0 <= k < |candidates| ::
              var h := health[Found(q, health, group)[k]];
              candidates[k] == Candidate(h.url, q.path(h.url).value, Hedged)
    ensures forall i <- group :: Usable(q, health[i]) ==> ToCandidate(q, health[i]) in candidates
    ensures forall c <- candidates :: exists i <- group :: Usable(q, health[i]) && c == ToCandidate(q, health[i])
  {
    candidates := [];
    for g := 0 to |group|
      invariant |candidates| == |Found(q, health, group[..g])|
      invariant forall k | 0 <= k < |candidates| ::
                  var h := health[Found(q, health, group[..g])[k]];
                  candidates[k] == Candidate(h.url, q.path(h.url).value, Hedged)
    {
      assert group[..g + 1][..g] == group[..g];
      var url := health[group[g]].url;
      if q.path(url).Some? {
        candidates := candidates + [Candidate(url, q.path(url).value, Hedged)];
      }
    }
    assert group[..|group|] == group;
    FoundIsGroup(q, health, group, p);
    forall i <- group | Usable(q, health[i]) ensures ToCandidate(q, health[i]) in candidates {
      var k :| 0 <= k < |candidates| && Found(q, health, group)[k] == i;
      assert candidates[k] == ToCandidate(q, health[i]);
    }
    forall c <- candidates ensures exists i <- group :: Usable(q, health[i]) && c == ToCandidate(q, health[i]) {
      var k :| 0 <= k < |candidates| && candidates[k] == c;
      assert Found(q, health, group)[k] in Found(q, health, group);
    }
  }

  /** `order` has exactly the usable upstreams of the priorities in `keys`, in order. */
  ghost predicate PickedUpTo(q: Query, health: seq<Health>, keys: seq<int>, order: seq<Candidate>, from: seq<nat>) {
    && |order| == |from|
    && (forall k | 0 <= k < |from| ::
          && from[k] < |health| && Usable(q, health[from[k]])
          && order[k] == ToCandidate(q, health[from[k]]) && health[from[k]].priority in keys)
    && (forall j, k | 0 <= j < k < |from| :: Before(health, from[j], from[k]))
    && (forall i: nat | i < |health| && Usable(q, health[i]) && health[i].priority in keys :: i in from)
  }

  lemma AppendInOrder(q: Query, health: seq<Health>, from: seq<nat>, p: int, more: seq<nat>)
    requires forall k | 0 <= k < |from| :: from[k] < |health| && health[from[k]].priority < p
    requires forall j, k | 0 <= j < k < |from| :: Before(health, from[j], from[k])
    requires IsGroup(q, health, more, p)
    ensures forall k | 0 <= k < |from + more| :: (from + more)[k] < |health|
    ensures forall j, k | 0 <= j < k < |from + more| :: Before(health, (from + more)[j], (from + more)[k])
  {
    var all := from + more;
    forall k | 0 <= k < |all|
      ensures k < |from| ==> all[k] == from[k] && health[all[k]].priority < p
      ensures k >= |from| ==> all[k] == more[k - |from|] && health[all[k]].priority == p
    {
    }
  }

  lemma AppendCandidates(q: Query, health: seq<Health>, keys: seq<int>, order: seq<Candidate>, from: seq<nat>,
                         p: int, found: seq<Candidate>, more: seq<nat>)
    requires PickedUpTo(q, health, keys, order, from)
    requires IsGroup(q, health, more, p) && |found| == |more|
    requires forall k | 0 <= k < |more| :: Usable(q, health[more[k]]) && found[k] == ToCandidate(q, health[more[k]])
    ensures forall k | 0 <= k < |from + more| ::
              var i := (from + more)[k];
              && i < |health| && Usable(q, health[i]) && (order + found)[k] == ToCandidate(q, health[i])
              && health[i].priority in keys + [p]
  {
    forall k | 0 <= k < |from + more|
      ensures k < |from| ==> (from + more)[k] == from[k] && (order + found)[k] == order[k]
      ensures k >= |from| ==> (from + more)[k] == more[k - |from|] && (order + found)[k] == found[k - |from|]
    {
    }
  }

  lemma AppendGroup(q: Query, health: seq<Health>, keys: seq<int>, order: seq<Candidate>, from: seq<nat>,
                    p: int, found: seq<Candidate>, more: seq<nat>)
    requires PickedUpTo(q, health, keys, order, from) && forall key <- keys :: key < p
    requires IsGroup(q, health, more, p) && |found| == |more|
    requires forall k | 0 <= k < |more| :: Usable(q, health[more[k]]) && found[k] == ToCandidate(q, health[more[k]])
    requires forall i: nat | i < |health| && Usable(q, health[i]) && health[i].priority == p :: i in more
    ensures PickedUpTo(q, health, keys + [p], order + found, from + more)
  {
    AppendInOrder(q, health, from, p, more);
    AppendCandidates(q, health, keys, order, from, p, found, more);
    forall i: nat | i < |health| && Usable(q, health[i]) && health[i].priority in keys + [p] ensures i in from + more {
      assert health[i].priority in keys || health[i].priority == p;
    }
  }

  /** `order` is exactly the usable upstreams, by priority and then in list order. */
  ghost predicate InPickedOrder(q: Query, health: seq<Health>, order: seq<Candidate>) {
    exists from: seq<nat> :: Picked(q, health, order, from)
  }

  /** The candidates, the best of them last. */
  method HedgeCandidates(q: Query, health: seq<Health>) returns (candidates: seq<Candidate>)
    ensures InPickedOrder(q, health, Reverse(candidates))
  {
    var groups := ByPriority(q, health);
    var keys := Ascending(groups.Keys);
    assert forall k | 0 <= k < |keys| :: keys[k] in keys;
    assert forall k | 0 <= k < |keys| :: keys[k] in groups.Keys;
    var order: seq<Candidate> := [];
    ghost var from: seq<nat> := [];
    for n := 0 to |keys|
      invariant PickedUpTo(q, health, keys[..n], order, from)
    {
      assert keys[..n + 1] == keys[..n] + [keys[n]];
      assert forall p <- keys[..n] :: p < keys[n];
      var group := groups[keys[n]];
      var found := WithPaths(q, health, group, keys[n]);
      FoundIsGroup(q, health, group, keys[n]);
      AppendGroup(q, health, keys[..n], order, from, keys[n], found, Found(q, health, group));
      order, from := order + found, from + Found(q, health, group);
    }
    assert keys[..|keys|] == keys;
    assert Reverse(Reverse(order)) == order;
    candidates := Reverse(order);
    assert Picked(q, health, Reverse(candidates), from);
  }

  // ---- One NAR request

  /** A route for the NAR: where it was found before. Without a readable narinfo
      nobody else is asked. */
  datatype Route = Route(url: Url, path: string, hasNarinfo: bool)

  function Retain(keep: Candidate -> bool, candidates: seq<Candidate>): seq<Candidate> {
    if candidates == [] then []
    else
      var rest := Retain(keep, candidates[..|candidates| - 1]);
      var c := candidates[|candidates| - 1];
      if keep(c) then rest + [c] else rest
  }

  function Consenting(upstreams: seq<Upstream>): Candidate -> bool {
    (c: Candidate) => HedgeAllowed(upstreams, c.upstream)
  }

  /** What is kept is in its old order. */
  lemma {:induction false} RetainKeepsOrder(keep: Candidate -> bool, candidates: seq<Candidate>)
    returns (at: seq<nat>)
    ensures |at| == |Retain(keep, candidates)|
    ensures forall k | 0 <= k < |at| ::
              && at[k] < |candidates| && candidates[at[k]] == Retain(keep, candidates)[k]
              && keep(candidates[at[k]])
    ensures forall j, k | 0 <= j < k < |at| :: at[j] < at[k]
    decreases |candidates|
  {
    at := [];
    if candidates != [] {
      var last := |candidates| - 1;
      at := RetainKeepsOrder(keep, candidates[..last]);
      assert forall k | 0 <= k < |at| :: candidates[..last][at[k]] == candidates[at[k]];
      if keep(candidates[last]) { at := at + [last]; }
    }
  }

  /** Upstreams that may be asked in the order of `queue`: each of them once, and
      those with a lower priority number first. */
  ghost predicate InPriorityOrder(health: seq<Health>, queue: seq<Candidate>) {
    && (forall k | 0 <= k < |queue| :: IsUp(health, queue[k].upstream))
    && (forall j, k | 0 <= j < k < |queue| ::
          && queue[j].upstream != queue[k].upstream
          && forall a <- health, b <- health | a.url == queue[j].upstream && b.url == queue[k].upstream ::
               a.priority <= b.priority)
  }

  ghost predicate IsUp(health: seq<Health>, url: Url) { exists h <- health :: h.url == url && !h.down }

  ghost predicate DistinctUrls(health: seq<Health>) {
    forall i, j | 0 <= i < j < |health| :: health[i].url != health[j].url
  }

  lemma PickedIsInPriorityOrder(q: Query, health: seq<Health>, order: seq<Candidate>)
    requires InPickedOrder(q, health, order) && DistinctUrls(health)
    ensures InPriorityOrder(health, order)
    ensures forall c <- order :: c.route == Hedged && c.upstream != q.skip
    ensures !q.includeOptOuts ==> forall c <- order :: HedgeAllowed(q.upstreams, c.upstream)
  {
    var from :| Picked(q, health, order, from);
    PickedFrom(q, health, order, from);
  }

  lemma PickedFrom(q: Query, health: seq<Health>, order: seq<Candidate>, from: seq<nat>)
    requires Picked(q, health, order, from) && DistinctUrls(health)
    ensures InPriorityOrder(health, order)
    ensures forall c <- order :: c.route == Hedged && c.upstream != q.skip
    ensures !q.includeOptOuts ==> forall c <- order :: HedgeAllowed(q.upstreams, c.upstream)
  {
    forall k | 0 <= k < |order| ensures IsUp(health, order[k].upstream) {
      assert health[from[k]] in health;
    }
    forall j, k | 0 <= j < k < |order|
      ensures order[j].upstream != order[k].upstream
      ensures forall a <- health, b <- health | a.url == order[j].upstream && b.url == order[k].upstream ::
                a.priority <= b.priority
    {
      assert Before(health, from[j], from[k]) && from[j] != from[k];
    }
  }

  lemma NobodyUsableIff(q: Query, health: seq<Health>, order: seq<Candidate>)
    requires InPickedOrder(q, health, order)
    ensures order == [] <==> forall a <- health :: !Usable(q, a)
  {
    var from :| Picked(q, health, order, from);
    if order != [] {
      assert health[from[0]] in health;
    }
  }

  lemma SubqueueIsInPriorityOrder(health: seq<Health>, queue: seq<Candidate>, sub: seq<Candidate>, at: seq<nat>)
    requires InPriorityOrder(health, queue) && |at| == |sub|
    requires forall k | 0 <= k < |at| :: at[k] < |queue| && sub[k].upstream == queue[at[k]].upstream
    requires forall j, k | 0 <= j < k < |at| :: at[j] < at[k]
    ensures InPriorityOrder(health, sub)
  {
  }

  /** Taking the best candidate first and dropping others that opted out of hedging. */
  lemma DirectQueue(upstreams: seq<Upstream>, health: seq<Health>, candidates: seq<Candidate>)
    requires candidates != [] && InPriorityOrder(health, Reverse(candidates))
    ensures var last := |candidates| - 1;
            var queue := Queue(candidates[last].(route := Direct), Retain(Consenting(upstreams), candidates[..last]));
            && InPriorityOrder(health, queue)
            && forall k | 1 <= k < |queue| ::
                 HedgeAllowed(upstreams, queue[k].upstream) && queue[k] in Reverse(candidates)
  {
    var last := |candidates| - 1;
    var kept := Retain(Consenting(upstreams), candidates[..last]);
    var at := RetainKeepsOrder(Consenting(upstreams), candidates[..last]);
    var queue := Queue(candidates[last].(route := Direct), kept);
    var at' := [0] + seq(|at|, k requires 0 <= k < |at| => last - at[|at| - 1 - k]);
    forall k | 0 <= k < |queue|
      ensures at'[k] < |candidates| && queue[k].upstream == Reverse(candidates)[at'[k]].upstream
      ensures k > 0 ==> HedgeAllowed(upstreams, queue[k].upstream) && queue[k] in Reverse(candidates)
    {
      if k > 0 {
        assert queue[k] == kept[|kept| - k];
        assert queue[k] == Reverse(candidates)[at'[k]];
      }
    }
    SubqueueIsInPriorityOrder(health, Reverse(candidates), queue, at');
  }

  /** Nobody is asked twice, and all but the first are up, agreed to hedging and come
      by priority. */
  ghost predicate WellAsked(upstreams: seq<Upstream>, health: seq<Health>, asked: seq<Candidate>) {
    && (forall j, k | 0 <= j < k < |asked| :: asked[j].upstream != asked[k].upstream)
    && (forall k | 1 <= k < |asked| :: asked[k].route == Hedged && HedgeAllowed(upstreams, asked[k].upstream))
    && (asked != [] ==> InPriorityOrder(health, asked[1..]))
  }

  /** With a route, what was started is its upstream and a front part of the order. */
  lemma RoutedIsWellAsked(upstreams: seq<Upstream>, health: seq<Health>, initial: Candidate,
                          candidates: seq<Candidate>, started: seq<Candidate>)
    requires InPriorityOrder(health, Reverse(candidates))
    requires forall c <- Reverse(candidates) ::
               c.route == Hedged && c.upstream != initial.upstream && HedgeAllowed(upstreams, c.upstream)
    requires started != [] && started <= Queue(initial, candidates)
    ensures WellAsked(upstreams, health, started) && started[0] == initial
  {
    forall k | 1 <= k < |started| ensures started[k] == Reverse(candidates)[k - 1] {
      assert started[k] == Queue(initial, candidates)[k];
    }
  }

  lemma DirectIsWellAsked(upstreams: seq<Upstream>, health: seq<Health>, queue: seq<Candidate>,
                          started: seq<Candidate>)
    requires InPriorityOrder(health, queue) && queue != [] && started != [] && started <= queue
    requires forall k | 1 <= k < |queue| :: queue[k].route == Hedged && HedgeAllowed(upstreams, queue[k].upstream)
    ensures WellAsked(upstreams, health, started) && InPriorityOrder(health, started) && started[0] == queue[0]
  {
    assert forall k | 0 <= k < |started| :: started[k] == queue[k];
  }

  /** The upstream that a route names is asked first. */
  method ServeRouted(head: bool, h: Hedging, upstreams: seq<Upstream>, health: seq<Health>, route: Route,
                     path: Url -> Option<string>, ends: nat -> Reply) returns (outcome: Outcome, log: Log)
    requires (h.enabled ==> h.maxInflight >= 1) && DistinctUrls(health)
    ensures WellAsked(upstreams, health, log.started) && log.started != []
    ensures log.started[0] == Candidate(route.url, route.path, CacheHit)
    ensures !route.hasNarinfo ==> |log.started| == 1
  {
    var candidates := [];
    if route.hasNarinfo {
      var q := Query(upstreams, route.url, false, path);
      candidates := HedgeCandidates(q, health);
      PickedIsInPriorityOrder(q, health, Reverse(candidates));
    }
    var initial := Candidate(route.url, route.path, CacheHit);
    outcome, log := HedgedNar(head, h, initial, candidates, ends);
    RoutedIsWellAsked(upstreams, health, initial, candidates, log.started);
  }

  /** Without a route the best upstream that is up is asked first, if there is one. */
  method ServeDirect(head: bool, h: Hedging, upstreams: seq<Upstream>, health: seq<Health>,
                     path: Url -> Option<string>, ends: nat -> Reply) returns (outcome: Option<Outcome>, log: Log)
    requires (h.enabled ==> h.maxInflight >= 1) && DistinctUrls(health)
    ensures WellAsked(upstreams, health, log.started) && InPriorityOrder(health, log.started)
    ensures outcome.None? <==> forall a <- health :: !Usable(Query(upstreams, "", true, path), a)
    ensures outcome.None? <==> log.started == []
    ensures outcome.Some? ==> log.started[0].route == Direct
  {
    var q := Query(upstreams, "", true, path);
    var candidates := HedgeCandidates(q, health);
    PickedIsInPriorityOrder(q, health, Reverse(candidates));
    NobodyUsableIff(q, health, Reverse(candidates));
    if candidates == [] {
      return None, NoLog;
    }
    DirectQueue(upstreams, health, candidates);
    var last := |candidates| - 1;
    var initial := candidates[last].(route := Direct);
    var others := Retain(Consenting(upstreams), candidates[..last]);
    var o;
    o, log := HedgedNar(head, h, initial, others, ends);
    DirectIsWellAsked(upstreams, health, Queue(initial, others), log.started);
    outcome := Some(o);
  }

  /** Serves a NAR up to the fallback. With a route the upstream it names is asked
      first, without one the best that is up. No upstream is asked twice, hedged ones
      are up, agreed to be hedged and are asked by priority. */
  method ServeNar(head: bool, h: Hedging, upstreams: seq<Upstream>, health: seq<Health>, route: Option<Route>,
                  path: Url -> Option<string>, ends: nat -> Reply) returns (outcome: Option<Outcome>, log: Log)
    requires (h.enabled ==> h.maxInflight >= 1) && DistinctUrls(health)
    ensures WellAsked(upstreams, health, log.started)
    ensures route.Some? ==>
              && outcome.Some? && log.started != []
              && log.started[0] == Candidate(route.value.url, route.value.path, CacheHit)
              && (!route.value.hasNarinfo ==> |log.started| == 1)
    ensures route.None? ==>
              && InPriorityOrder(health, log.started)
              && (outcome.None? <==> forall a <- health :: !Usable(Query(upstreams, "", true, path), a))
              && (outcome.Some? <==> log.started != [])
              && (outcome.Some? ==> log.started[0].route == Direct)
  {
    if route.Some? {
      var o;
      o, log := ServeRouted(head, h, upstreams, health, route.value, path, ends);
      outcome := Some(o);
    } else {
      outcome, log := ServeDirect(head, h, upstreams, health, path, ends);
    }
  }
}
