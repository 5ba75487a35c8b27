/** For how long the outcome of a race answers, and that whoever reads the caches
    while it stands gets an answer, however long the reading takes. */
module Outcomes {
  import opened Wrappers
  import opened Narinfo
  import opened Filter
  import opened Rewrite
  import Caches = TtlCaches
  import opened RouteTable
  import opened CacheLayers
  import Race
  import P = Protocol

  predicate OneLine(s: string) { '\n' !in s }

  // ---- The filter decides on what is held in memory as on what was sent

  lemma ResponseIsAllowed(c: Setup, w: World, url: string, hash: string, b: Body)
    requires OneLine(url) && OneLine(hash) && url in w.rules
    ensures AllowedBody(w, url, Response(c, url, hash, Some(b))) <==> AllowedBody(w, url, Some(b))
  {
    var t := Target(url, hash, c.mode(url));
    if ParseBody(b).Ok? {
      RewriteKeepsTrust(b, t, "", (x, y) => false, w.rules[url]);
    } else if !t.mode.Keep? {
      RewriteKeepsMeaning(b, t);
    }
  }

  lemma ResponseIsChecked(c: Setup, w: World, url: string, hash: string, b: Body)
    requires OneLine(url) && OneLine(hash)
    ensures Check(w, url, Response(c, url, hash, Some(b))) == Check(w, url, Some(b))
  {
    if url in w.rules { ResponseIsAllowed(c, w, url, hash, b); }
  }

  // ---- What happens to the layers meanwhile

  datatype CacheOp = OnMiss(miss: Caches.Op<()>) | OnLru(lru: Caches.Op<Resolved>) | OnTable(table: RouteTable.Op)

  ghost predicate Changes(c: Setup, max: nat, before: Layers, op: CacheOp, after: Layers) {
    match op
    case OnMiss(o) => after == before.(miss := Caches.Step(MissLimits(c), before.miss, o))
    case OnLru(o) => after == before.(lru := Caches.Step(LruLimits(c), before.lru, o))
    case OnTable(o) => after == before.(table := after.table) && Next(max, before.table, o, after.table)
  }

  /** An operation that writes nothing new for `hash`. It may well drop what is there. */
  predicate WritesOther(op: CacheOp, hash: string) {
    match op
    case OnMiss(o) => o.Insert? ==> o.key != hash
    case OnLru(o) => o.Insert? ==> o.key != hash
    case OnTable(SetRoute(entry)) => entry.storePath != hash
    case OnTable(SetNegative(path, _)) => path != hash
    case OnTable(_) => true
  }

  ghost predicate IsHistory(c: Setup, max: nat, hash: string, states: seq<Layers>, ops: seq<CacheOp>) {
    && |states| == |ops| + 1
    && forall i | 0 <= i < |ops| :: WritesOther(ops[i], hash) && Changes(c, max, states[i], ops[i], states[i + 1])
  }

  // ---- An accepted narinfo

  /** What a commit of `body` from `url` at `start` left for `hash`, as far as it is
      still there, with no older miss that counts. */
  ghost predicate Left(c: Setup, hash: string, row: RouteEntry, held: Caches.Entry<Resolved>, start: nat, l: Layers) {
    && (hash in l.table.routes ==> l.table.routes[hash] == row)
    && (hash in l.lru.table ==> l.lru.table[hash] == held)
    && NoMissCounts(c, hash, start, l)
  }

  /** The race began because no unexpired miss was remembered. */
  predicate NoMissCounts(c: Setup, hash: string, now: nat, l: Layers) {
    && (hash in l.table.negatives ==> l.table.negatives[hash] <= now)
    && (hash in l.miss.table ==> l.miss.table[hash].inserted + c.memoryTtl <= now)
  }

  lemma LeftStep(c: Setup, max: nat, hash: string, row: RouteEntry, held: Caches.Entry<Resolved>, start: nat,
                 before: Layers, op: CacheOp, after: Layers)
    requires Left(c, hash, row, held, start, before) && WritesOther(op, hash) && Changes(c, max, before, op, after)
    ensures Left(c, hash, row, held, start, after)
  {
  }

  lemma {:induction false} LeftRun(c: Setup, max: nat, hash: string, row: RouteEntry, held: Caches.Entry<Resolved>,
                                   start: nat, states: seq<Layers>, ops: seq<CacheOp>)
    requires IsHistory(c, max, hash, states, ops) && Left(c, hash, row, held, start, states[0])
    ensures Left(c, hash, row, held, start, states[|ops|])
    decreases |ops|
  {
    if ops != [] {
      var n := |ops| - 1;
      LeftRun(c, max, hash, row, held, start, states[..n + 1], ops[..n]);
      LeftStep(c, max, hash, row, held, start, states[n], ops[n], states[n + 1]);
    }
  }

  lemma CommitLeaves(c: Setup, max: nat, hash: string, row: RouteEntry, won: Resolved, start: nat,
                     before: Layers, after: Layers)
    requires CommitEffect(c, max, hash, row, won, start, before, after) && row.storePath == hash
    requires NoMissCounts(c, hash, start, before)
    ensures Left(c, hash, Stored(row), Caches.Entry(start, won), start, after)
  {
  }

  /** The answer to a lookup is a hit exactly while the route's time is not up, the
      upstream's filters accept the narinfo, and either it is still in memory or its
      row is still there and the upstream not Down. */
  lemma HitIff(c: Setup, hash: string, row: RouteEntry, held: Caches.Entry<Resolved>, start: nat, b: Body, m: Moment)
    requires OneLine(row.upstreamUrl) && OneLine(hash)
    requires Left(c, hash, row, held, start, m.layers) && start <= m.world.now
    requires row.narinfo == Some(b) && row.ttl == start + c.routeTtl
    requires held.inserted == start && held.value.url == row.upstreamUrl
    requires held.value.narinfo == Response(c, row.upstreamUrl, hash, Some(b))
    ensures !Answer(c, hash, Still(m)).NotFound?
    ensures Answer(c, hash, Still(m)).Hit? <==>
              && m.world.now < start + c.routeTtl
              && !Check(m.world, row.upstreamUrl, Some(b)).Rejected?
              && (hash in m.layers.lru.table
                  || (hash in m.layers.table.routes && !m.world.down(row.upstreamUrl)))
  {
    ResponseIsChecked(c, m.world, row.upstreamUrl, hash, b);
  }

  /** From an accepted narinfo on, over any later operations that write nothing new
      for the hash: a lookup hits exactly until route_ttl is over, or the filters
      refuse the narinfo, or it is gone from memory and its row is gone or its
      upstream Down. */
  lemma AcceptedAnswersUntil(c: Setup, max: nat, hash: string, url: string, ms: F64, ema: F64, start: nat, b: Body,
                             before: Layers, states: seq<Layers>, ops: seq<CacheOp>, w: World)
    requires OneLine(url) && OneLine(hash) && ParseBody(b).Ok?
    requires NoMissCounts(c, hash, start, before)
    requires IsHistory(c, max, hash, states, ops)
    requires CommitEffect(c, max, hash, Committed(c, hash, url, ms, ema, start, b), Winner(c, hash, url, ms, b),
                          start, before, states[0])
    requires start <= w.now
    ensures var last := states[|ops|];
            Answer(c, hash, Still(Moment(last, w))).Hit? <==>
              && w.now < start + c.routeTtl
              && !Check(w, url, Some(b)).Rejected?
              && (hash in last.lru.table || (hash in last.table.routes && !w.down(url)))
  {
    var row, won := Committed(c, hash, url, ms, ema, start, b), Winner(c, hash, url, ms, b);
    var held := Caches.Entry(start, won);
    CommitLeaves(c, max, hash, row, won, start, before, states[0]);
    LeftRun(c, max, hash, Stored(row), held, start, states, ops);
    HitIff(c, hash, Stored(row), held, start, b, Moment(states[|ops|], w));
  }

  /** What can take it away: from memory, an invalidation, a lookup after its time, or
      an insert that finds it the least recently used of too many; from the table, its
      expiry, or a write that evicts. */
  lemma WhyItGoes(c: Setup, max: nat, hash: string, before: Layers, op: CacheOp, after: Layers)
    requires Changes(c, max, before, op, after) && WritesOther(op, hash) && Caches.WellFormed(before.lru)
    ensures hash in before.lru.table && hash !in after.lru.table ==>
              && op.OnLru?
              && match op.lru
                 case Get(key, now) => key == hash && now >= before.lru.table[hash].inserted + c.routeTtl
                 case Invalidate(key) => key == hash
                 case Insert(key, _, _) =>
                   var order := Caches.Promote(before.lru.order, key);
                   |order| > 1024 && order[0] == hash
    ensures hash in before.table.routes && hash !in after.table.routes ==>
              && op.OnTable?
              && match op.table
                 case SetRoute(entry) =>
                   && before.table.writes % 100 == 99
                   && |before.table.routes[entry.storePath := Stored(entry)]| > max
                 case ExpireOldRoutes(now) => before.table.routes[hash].ttl < now
                 case _ => false
  {
    if op.OnTable? && op.table.SetRoute? && before.table.writes % 100 == 99 {
      var written := before.table.routes[op.table.entry.storePath := Stored(op.table.entry)];
      if |written| <= max { NothingEvicted(written, after.table.routes, max); }
    }
  }

  lemma NothingEvicted(before: Routes, after: Routes, max: nat)
    requires Evicted(before, after, max) && |before| <= max
    ensures after.Keys == before.Keys
  {
    assert before.Keys == after.Keys + (before.Keys - after.Keys);
  }

  // ---- A remembered miss

  ghost predicate LeftMiss(c: Setup, hash: string, start: nat, l: Layers) {
    && (hash in l.table.negatives ==> l.table.negatives[hash] == start + c.negativeTtl)
    && (hash in l.miss.table ==> l.miss.table[hash].inserted == start)
  }

  lemma {:induction false} LeftMissRun(c: Setup, max: nat, hash: string, start: nat, states: seq<Layers>,
                                       ops: seq<CacheOp>)
    requires IsHistory(c, max, hash, states, ops) && LeftMiss(c, hash, start, states[0])
    ensures LeftMiss(c, hash, start, states[|ops|])
    decreases |ops|
  {
    if ops != [] {
      var n := |ops| - 1;
      LeftMissRun(c, max, hash, start, states[..n + 1], ops[..n]);
      assert Changes(c, max, states[n], ops[n], states[n + 1]);
    }
  }

  /** A remembered miss answers exactly until it is gone from, or out of date in,
      both memory and the table. */
  lemma RememberedAnswersUntil(c: Setup, max: nat, hash: string, start: nat,
                               before: Layers, states: seq<Layers>, ops: seq<CacheOp>, w: World)
    requires IsHistory(c, max, hash, states, ops)
    requires RememberEffect(c, max, hash, start, before, states[0])
    ensures var last := states[|ops|];
            Answer(c, hash, Still(Moment(last, w))).NotFound? <==>
              || (hash in last.miss.table && w.now < start + c.memoryTtl)
              || (hash in last.table.negatives && w.now < start + c.negativeTtl)
  {
    assert LeftMiss(c, hash, start, states[0]);
    LeftMissRun(c, max, hash, start, states, ops);
  }

  // ---- Readings that take their time

  datatype Record = Record(url: string, body: Body)

  /** What an outcome rests on: the table's miss, or one of some committed narinfos. */
  datatype Anchor = ByMiss | ByRoutes(records: set<Record>)

  /** The miss is unexpired; or the valid row, and what memory holds, are of the
      records, and each of those is accepted and its upstream not Down. */
  ghost predicate Stands(c: Setup, hash: string, m: Moment, a: Anchor) {
    match a
    case ByMiss => Negated(m, hash)
    case ByRoutes(records) =>
      && OfRecords(RowOf(m, hash), m.world.now, records)
      && (InLru(c, m, hash).Some? ==> HeldOf(c, hash, InLru(c, m, hash).value, records))
      && (forall rec <- records :: Welcome(m.world, rec))
  }

  predicate OfRecords(row: Option<RouteEntry>, now: int, records: set<Record>) {
    && row.Some? && RouteValid(row.value, now) && row.value.narinfo.Some?
    && Record(row.value.upstreamUrl, row.value.narinfo.value) in records
  }

  ghost predicate HeldOf(c: Setup, hash: string, held: Resolved, records: set<Record>) {
    exists rec <- records :: held.url == rec.url && held.narinfo == Response(c, rec.url, hash, Some(rec.body))
  }

  predicate Welcome(w: World, rec: Record) {
    OneLine(rec.url) && !w.down(rec.url) && !Check(w, rec.url, Some(rec.body)).Rejected?
  }

  predicate Grows(a: Anchor, b: Anchor) {
    (a.ByMiss? && b.ByMiss?) || (a.ByRoutes? && b.ByRoutes? && a.records <= b.records)
  }

  function MomentsOf(r: Reading): seq<Moment> {
    [r.atMiss, r.atNegative, r.atLru, r.atLruCheck, r.atRow, r.atHealth, r.atRowCheck]
  }

  /** One outcome stands at each of the seven readings. */
  ghost predicate Anchored(c: Setup, hash: string, r: Reading, anchors: seq<Anchor>) {
    && |anchors| == 7
    && (forall k | 0 <= k < 7 :: Stands(c, hash, MomentsOf(r)[k], anchors[k]))
    && (forall j, k | 0 <= j <= k < 7 :: Grows(anchors[j], anchors[k]))
  }

  /** A lookup gets an answer if one outcome stands from the first to the last of its
      readings, whatever else happens in between. */
  lemma StandingOutcomeAnswers(c: Setup, hash: string, r: Reading, anchors: seq<Anchor>)
    requires OneLine(hash) && Anchored(c, hash, r, anchors)
    ensures !Answer(c, hash, r).Nothing?
  {
    var ms := MomentsOf(r);
    if anchors[1].ByMiss? {
      assert Stands(c, hash, ms[1], anchors[1]);
    } else {
      RoutesAnswer(c, hash, r, anchors);
    }
  }

  lemma RoutesAnswer(c: Setup, hash: string, r: Reading, anchors: seq<Anchor>)
    requires OneLine(hash) && Anchored(c, hash, r, anchors) && anchors[1].ByRoutes?
    ensures CachedRoute(c, hash, r).Hit?
  {
    var ms := MomentsOf(r);
    assert Grows(anchors[1], anchors[2]) && Grows(anchors[2], anchors[3]);
    assert Grows(anchors[1], anchors[4]) && Grows(anchors[4], anchors[5]) && Grows(anchors[4], anchors[6]);
    assert Stands(c, hash, ms[2], anchors[2]) && Stands(c, hash, ms[3], anchors[3]);
    assert Stands(c, hash, ms[4], anchors[4]) && Stands(c, hash, ms[5], anchors[5]);
    assert Stands(c, hash, ms[6], anchors[6]);
    match InLru(c, r.atLru, hash)
    case Some(held) =>
      var rec :| rec in anchors[2].records && held.url == rec.url
                 && held.narinfo == Response(c, rec.url, hash, Some(rec.body));
      assert Welcome(r.atLruCheck.world, rec);
      ResponseIsChecked(c, r.atLruCheck.world, rec.url, hash, rec.body);
    case None =>
      var row := RowOf(r.atRow, hash).value;
      var rec := Record(row.upstreamUrl, row.narinfo.value);
      assert Welcome(r.atHealth.world, rec) && Welcome(r.atRowCheck.world, rec);
  }

  // ---- The protocol's bit

  /** What a step is for one hash: a commit, a remembered miss, or anything else. */
  datatype Label = Commits(rec: Record) | Remembers | Other

  /** An outcome begins to stand when it is stored, takes in what is committed later,
      and is forgotten for good at the first moment at which it does not stand. */
  ghost function NextAnchor(c: Setup, hash: string, a: Option<Anchor>, l: Label, m: Moment): Option<Anchor> {
    var next := match (a, l)
      case (Some(ByRoutes(records)), Commits(rec)) => Some(ByRoutes(records + {rec}))
      case (Some(anchor), _) => Some(anchor)
      case (None, Commits(rec)) => Some(ByRoutes({rec}))
      case (None, Remembers) => Some(ByMiss)
      case (None, Other) => None;
    if next.Some? && Stands(c, hash, m, next.value) then next else None
  }

  ghost function AnchorAt(c: Setup, hash: string, ms: seq<Moment>, ls: seq<Label>, i: nat): Option<Anchor>
    requires |ms| == |ls| + 1 && i < |ms|
  {
    if i == 0 then None else NextAnchor(c, hash, AnchorAt(c, hash, ms, ls, i - 1), ls[i - 1], ms[i])
  }

  lemma AnchorStands(c: Setup, hash: string, ms: seq<Moment>, ls: seq<Label>, i: nat)
    requires |ms| == |ls| + 1 && i < |ms| && AnchorAt(c, hash, ms, ls, i).Some?
    ensures Stands(c, hash, ms[i], AnchorAt(c, hash, ms, ls, i).value)
  {
  }

  lemma {:induction false} AnchorsGrow(c: Setup, hash: string, ms: seq<Moment>, ls: seq<Label>, i: nat, j: nat)
    requires |ms| == |ls| + 1 && i <= j < |ms|
    requires forall k | i <= k <= j :: AnchorAt(c, hash, ms, ls, k).Some?
    ensures Grows(AnchorAt(c, hash, ms, ls, i).value, AnchorAt(c, hash, ms, ls, j).value)
    decreases j - i
  {
    if i < j {
      AnchorsGrow(c, hash, ms, ls, i, j - 1);
      assert AnchorAt(c, hash, ms, ls, j - 1).Some?;
    }
  }

  ghost predicate Lasts(c: Setup, hash: string, ms: seq<Moment>, ls: seq<Label>, i: nat, j: nat)
    requires |ms| == |ls| + 1 && j < |ms|
  {
    forall k | i <= k <= j :: AnchorAt(c, hash, ms, ls, k).Some?
  }

  predicate InOrder(ms: seq<Moment>, ks: seq<nat>) {
    && |ks| == 7 && (forall k | 0 <= k < 7 :: ks[k] < |ms|)
    && (forall i, j | 0 <= i <= j < 7 :: ks[i] <= ks[j])
  }

  function ReadingAt(ms: seq<Moment>, ks: seq<nat>): Reading
    requires InOrder(ms, ks)
  {
    Reading(ms[ks[0]], ms[ks[1]], ms[ks[2]], ms[ks[3]], ms[ks[4]], ms[ks[5]], ms[ks[6]])
  }

  ghost function AnchorsAt(c: Setup, hash: string, ms: seq<Moment>, ls: seq<Label>, ks: seq<nat>): seq<Anchor>
    requires |ms| == |ls| + 1 && InOrder(ms, ks) && Lasts(c, hash, ms, ls, ks[0], ks[6])
  {
    seq(7, k requires 0 <= k < 7 => AnchorAt(c, hash, ms, ls, ks[k]).value)
  }

  lemma AnchorsStand(c: Setup, hash: string, ms: seq<Moment>, ls: seq<Label>, ks: seq<nat>, k: nat)
    requires |ms| == |ls| + 1 && InOrder(ms, ks) && Lasts(c, hash, ms, ls, ks[0], ks[6]) && k < 7
    ensures Stands(c, hash, MomentsOf(ReadingAt(ms, ks))[k], AnchorsAt(c, hash, ms, ls, ks)[k])
  {
    AnchorStands(c, hash, ms, ls, ks[k]);
    assert MomentsOf(ReadingAt(ms, ks))[k] == ms[ks[k]];
  }

  /** Whoever begins to read the layers while a hash has such an anchor, and ends before
      it is forgotten, does not find nothing. */
  lemma ListedKeysAnswer(c: Setup, hash: string, ms: seq<Moment>, ls: seq<Label>, ks: seq<nat>)
    requires OneLine(hash) && |ms| == |ls| + 1
    requires InOrder(ms, ks) && Lasts(c, hash, ms, ls, ks[0], ks[6])
    ensures !Answer(c, hash, ReadingAt(ms, ks)).Nothing?
  {
    var anchors := AnchorsAt(c, hash, ms, ls, ks);
    forall k | 0 <= k < 7 ensures Stands(c, hash, MomentsOf(ReadingAt(ms, ks))[k], anchors[k]) {
      AnchorsStand(c, hash, ms, ls, ks, k);
    }
    forall i, j | 0 <= i <= j < 7 ensures Grows(anchors[i], anchors[j]) {
      AnchorsGrow(c, hash, ms, ls, ks[i], ks[j]);
    }
    StandingOutcomeAnswers(c, hash, ReadingAt(ms, ks), anchors);
  }

  /** What happens to one key's bit in the protocol's `cache`: an outcome that is stored
      is remembered, and one that does not stand is forgotten. Other keys' outcomes may
      take stamps as well. */
  predicate BitStep(before: P.State, after: P.State, key: P.Key, stores: bool, stands: bool) {
    var stored := if stores then P.Remember(before, key) else before;
    && after.stamps >= stored.stamps
    && if !stands then key !in after.cache
       else if key in stored.cache then key in after.cache && after.cache[key] == stored.cache[key]
       else key !in after.cache
  }

  predicate StoresFor(s: P.State, a: P.Action, key: P.Key) {
    (a.Accept? || (a.Return? && a.remember)) && P.IsLookup(s, a.i) && P.KeyOf(s.tasks[a.i]) == key
  }

  lemma EndsAreBitSteps(net: P.Net, s: P.State, a: P.Action, key: P.Key)
    requires P.Enabled(net, s, a) && (a.Accept? || a.Return?)
    ensures BitStep(s, P.Apply(net, s, a), key, StoresFor(s, a, key), true)
  {
  }

  /** Every step of the protocol is such a step for every key: the races that leave an
      outcome store it, and `Forget` alone ends it. */
  lemma ActionsAreBitSteps(net: P.Net, s: P.State, a: P.Action, key: P.Key)
    requires P.Enabled(net, s, a)
    ensures BitStep(s, P.Apply(net, s, a), key, StoresFor(s, a, key), a != P.Forget(key))
  {
    if a.Accept? || a.Return? { EndsAreBitSteps(net, s, a, key); }
  }

  /** Protocol states that follow the layers, moment by moment. */
  ghost predicate Follows(c: Setup, hash: string, ms: seq<Moment>, ls: seq<Label>, key: P.Key, ps: seq<P.State>) {
    && |ps| == |ms| == |ls| + 1 && key !in ps[0].cache
    && forall i | 0 <= i < |ls| :: BitStep(ps[i], ps[i + 1], key, !ls[i].Other?, AnchorAt(c, hash, ms, ls, i + 1).Some?)
  }

  /** The bit is set exactly while there is an anchor, and its stamp has been taken. */
  lemma {:induction false} BitIsAnchor(c: Setup, hash: string, ms: seq<Moment>, ls: seq<Label>, key: P.Key,
                                       ps: seq<P.State>, i: nat)
    requires Follows(c, hash, ms, ls, key, ps) && i < |ms|
    ensures key in ps[i].cache <==> AnchorAt(c, hash, ms, ls, i).Some?
    ensures key in ps[i].cache ==> ps[i].cache[key] < ps[i].stamps
  {
    if i > 0 { BitIsAnchor(c, hash, ms, ls, key, ps, i - 1); }
  }

  lemma LastsOn(c: Setup, hash: string, ms: seq<Moment>, ls: seq<Label>, i: nat, j: nat)
    requires |ms| == |ls| + 1 && i < j < |ms|
    ensures Lasts(c, hash, ms, ls, i, j)
            <==> Lasts(c, hash, ms, ls, i, j - 1) && AnchorAt(c, hash, ms, ls, j).Some?
  {
  }

  /** A set bit keeps its stamp for a step, and one that is set anew gets a later one. */
  lemma StampStep(before: P.State, after: P.State, key: P.Key, stores: bool, stands: bool)
    requires BitStep(before, after, key, stores, stands)
    ensures before.stamps <= after.stamps
    ensures key in after.cache ==>
              if key in before.cache then after.cache[key] == before.cache[key] else after.cache[key] >= before.stamps
  {
  }

  /** It keeps its stamp exactly as long as the anchor is not lost in between. */
  lemma {:induction false} StampTells(c: Setup, hash: string, ms: seq<Moment>, ls: seq<Label>, key: P.Key,
                                      ps: seq<P.State>, i: nat, j: nat)
    requires Follows(c, hash, ms, ls, key, ps) && i <= j < |ms| && key in ps[i].cache
    ensures ps[i].stamps <= ps[j].stamps
    ensures key in ps[j].cache && ps[j].cache[key] == ps[i].cache[key] <==> Lasts(c, hash, ms, ls, i, j)
    decreases j - i
  {
    BitIsAnchor(c, hash, ms, ls, key, ps, i);
    BitIsAnchor(c, hash, ms, ls, key, ps, j);
    if i < j {
      StampTells(c, hash, ms, ls, key, ps, i, j - 1);
      StampStep(ps[j - 1], ps[j], key, !ls[j - 1].Other?, AnchorAt(c, hash, ms, ls, j).Some?);
      LastsOn(c, hash, ms, ls, i, j);
    }
  }

  /** So the protocol's guard is exact: what a lookup saw when it began to read still
      stands if and only if there was an anchor all the time since. */
  lemma AnsweredIff(c: Setup, hash: string, ms: seq<Moment>, ls: seq<Label>, key: P.Key, ps: seq<P.State>,
                    t: P.Task, i: nat, j: nat)
    requires Follows(c, hash, ms, ls, key, ps) && i <= j < |ms|
    requires t.Lookup? && P.KeyOf(t) == key && t.view.seen == P.Looked(ps[i], t).view.seen
    ensures P.Answered(ps[j], t) <==> Lasts(c, hash, ms, ls, i, j)
  {
    BitIsAnchor(c, hash, ms, ls, key, ps, i);
    if key in ps[i].cache {
      StampTells(c, hash, ms, ls, key, ps, i, j);
    } else {
      assert !Lasts(c, hash, ms, ls, i, j);
    }
  }

  /** And sound: a lookup that finds nothing in the layers may miss in the protocol. */
  lemma NothingMayMiss(c: Setup, hash: string, ms: seq<Moment>, ls: seq<Label>, ks: seq<nat>, key: P.Key,
                       ps: seq<P.State>, net: P.Net, i: P.Id)
    requires OneLine(hash) && Follows(c, hash, ms, ls, key, ps)
    requires InOrder(ms, ks)
    requires Answer(c, hash, ReadingAt(ms, ks)).Nothing?
    requires var s := ps[ks[6]];
             && P.IsLookup(s, i) && P.Resolving(s.tasks[i]) && P.KeyOf(s.tasks[i]) == key && s.tasks[i].view.looked
             && s.tasks[i].view.seen == P.Looked(ps[ks[0]], s.tasks[i]).view.seen
    ensures P.Enabled(net, ps[ks[6]], P.Missed(i))
  {
    var t := ps[ks[6]].tasks[i];
    AnsweredIff(c, hash, ms, ls, key, ps, t, ks[0], ks[6]);
    if P.Answered(ps[ks[6]], t) { ListedKeysAnswer(c, hash, ms, ls, ks); }
  }

  /** An accepted narinfo begins to stand, unless its row was evicted right away. */
  lemma CommitStands(c: Setup, max: nat, hash: string, url: string, ms: F64, ema: F64, w: World, b: Body,
                     keys: Option<seq<(string, (string, string) -> bool)>>, before: Layers, after: Layers)
    requires OneLine(url) && !w.down(url) && c.routeTtl >= 1 && Verdict(w, url, keys, Sent(b)).Good?
    requires CommitEffect(c, max, hash, Committed(c, hash, url, ms, ema, w.now, b), Winner(c, hash, url, ms, b),
                          w.now, before, after)
    requires hash in after.table.routes
    ensures Stands(c, hash, Moment(after, w), ByRoutes({Record(url, b)}))
  {
    var rec := Record(url, b);
    assert after.table.routes[hash] == Stored(Committed(c, hash, url, ms, ema, w.now, b));
    assert Welcome(w, rec);
    if InLru(c, Moment(after, w), hash).Some? {
      assert InLru(c, Moment(after, w), hash).value == Winner(c, hash, url, ms, b);
    }
  }

  /** A remembered miss begins to stand. */
  lemma RememberStands(c: Setup, max: nat, hash: string, w: World, before: Layers, after: Layers)
    requires c.negativeTtl >= 1 && RememberEffect(c, max, hash, w.now, before, after)
    ensures Stands(c, hash, Moment(after, w), ByMiss)
  {
  }
}
