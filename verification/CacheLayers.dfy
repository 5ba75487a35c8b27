/** The layers that resolve_cached reads one after the other: the in-memory misses,
    the table of misses, the in-memory routes, the table of routes. What a race
    leaves in them, and for how long whoever reads them gets an answer. */
module CacheLayers {
  import opened Wrappers
  import opened Narinfo
  import opened NarUrl
  import opened Filter
  import opened Rewrite
  import Caches = TtlCaches
  import opened RouteTable
  import Race

  datatype Resolved = Resolved(url: string, latencyMs: F64, cacheHit: bool, narinfo: Option<Body>)

  datatype Layers = Layers(miss: Caches.Contents<()>, table: Table, lru: Caches.Contents<Resolved>)

  datatype Setup = Setup(routeTtl: nat, memoryTtl: nat, negativeTtl: nat, mode: string -> NarUrlMode)

  function MissLimits(c: Setup): Caches.Limits { Caches.Limits(32_768, c.memoryTtl) }

  function LruLimits(c: Setup): Caches.Limits { Caches.Limits(1024, c.routeTtl) }

  /** What else counts at a moment: the clock, which upstreams are Down, their filter
      rules, and the acceptably signed narinfo that each would send if asked. */
  datatype World = World(now: nat, down: string -> bool, rules: map<string, seq<FilterRule>>,
                         fetch: string -> Option<Body>)

  datatype Moment = Moment(layers: Layers, world: World)

  // ---- The filter check of a cached route

  datatype FilterCheck = Cached | Fetched(bytes: Body) | Rejected

  predicate Allowed(w: World, url: string, n: NarInfo) { url !in w.rules || Allows(w.rules[url], n) }

  predicate AllowedBody(w: World, url: string, bytes: Option<Body>) {
    bytes.Some? && ParseBody(bytes.value).Ok? && Allowed(w, url, ParseBody(bytes.value).value)
  }

  function Check(w: World, url: string, bytes: Option<Body>): FilterCheck {
    if url !in w.rules || AllowedBody(w, url, bytes) then Cached
    else if AllowedBody(w, url, w.fetch(url)) then Fetched(w.fetch(url).value)
    else Rejected
  }

  function Response(c: Setup, url: string, hash: string, bytes: Option<Body>): Option<Body> {
    match bytes
    case None => None
    case Some(b) => Some(RewriteBody(b, Target(url, hash, c.mode(url))))
  }

  // ---- Reading the layers

  datatype Reply = NotFound | Hit(result: Resolved) | Nothing

  /** A lookup waits between what it reads, so that each time it may find other
      layers and another world. */
  datatype Reading = Reading(atMiss: Moment, atNegative: Moment, atLru: Moment, atLruCheck: Moment,
                             atRow: Moment, atHealth: Moment, atRowCheck: Moment)

  function Still(m: Moment): Reading { Reading(m, m, m, m, m, m, m) }

  predicate Missed(c: Setup, m: Moment, hash: string) {
    Caches.Lookup(MissLimits(c), m.layers.miss, hash, m.world.now).Some?
  }

  predicate Negated(m: Moment, hash: string) {
    hash in m.layers.table.negatives && m.layers.table.negatives[hash] > m.world.now
  }

  function InLru(c: Setup, m: Moment, hash: string): Option<Resolved> {
    Caches.Lookup(LruLimits(c), m.layers.lru, hash, m.world.now)
  }

  function RowOf(m: Moment, hash: string): Option<RouteEntry> {
    if hash in m.layers.table.routes then Some(m.layers.table.routes[hash]) else None
  }

  /** What an entry of the in-memory routes is good for. */
  function FromLru(c: Setup, w: World, hash: string, held: Resolved): Reply {
    match Check(w, held.url, held.narinfo)
    case Rejected => Nothing
    case Cached => Hit(held.(cacheHit := true))
    case Fetched(b) => Hit(held.(cacheHit := true, narinfo := Response(c, held.url, hash, Some(b))))
  }

  /** The narinfo that a valid row answers with, fetched anew if it has to be. */
  function RowBody(w: World, row: RouteEntry): Option<Body> {
    match Check(w, row.upstreamUrl, row.narinfo)
    case Rejected => None
    case Cached => if row.narinfo.Some? then row.narinfo else w.fetch(row.upstreamUrl)
    case Fetched(b) => Some(b)
  }

  function FromRow(c: Setup, w: World, hash: string, row: RouteEntry): Reply {
    match RowBody(w, row)
    case None => Nothing
    case Some(b) => Hit(Resolved(row.upstreamUrl, row.latencyEma, true, Response(c, row.upstreamUrl, hash, Some(b))))
  }

  function CachedRoute(c: Setup, hash: string, r: Reading): Reply {
    match InLru(c, r.atLru, hash)
    case Some(held) => FromLru(c, r.atLruCheck.world, hash, held)
    case None =>
      match RowOf(r.atRow, hash)
      case None => Nothing
      case Some(row) =>
        if !RouteValid(row, r.atRow.world.now) || r.atHealth.world.down(row.upstreamUrl) then Nothing
        else FromRow(c, r.atRowCheck.world, hash, row)
  }

  function Answer(c: Setup, hash: string, r: Reading): Reply {
    if Missed(c, r.atMiss, hash) || Negated(r.atNegative, hash) then NotFound
    else CachedRoute(c, hash, r)
  }

  // ---- What reading changes

  /** A hit from the table, or a narinfo fetched anew, goes into memory; a refused
      entry is dropped from it; a row gets its new narinfo. */
  ghost predicate ReadEffect(c: Setup, max: nat, hash: string, w: World, before: Layers, after: Layers) {
    var now, m := w.now, Moment(before, w);
    var promoted := Caches.Step(LruLimits(c), before.lru, Caches.Get(hash, now));
    && after.miss == before.miss
    && match (InLru(c, m, hash), CachedRoute(c, hash, Still(m)))
       case (Some(held), Nothing) =>
         && after.table == before.table
         && after.lru == Caches.Step(LruLimits(c), promoted, Caches.Invalidate(hash))
       case (Some(held), Hit(result)) =>
         && after.table == before.table
         && after.lru == if Check(w, held.url, held.narinfo).Cached? then promoted
                         else Caches.Step(LruLimits(c), promoted, Caches.Insert(hash, result, now))
       case (None, Hit(result)) =>
         var row := before.table.routes[hash];
         && after.lru == Caches.Step(LruLimits(c), promoted, Caches.Insert(hash, result, now))
         && if RowBody(w, row) == row.narinfo then after.table == before.table
            else Next(max, before.table, SetRoute(row.(narinfo := RowBody(w, row))), after.table)
       case (None, _) => after.table == before.table && after.lru == promoted
       case (_, _) => false
  }

  // ---- What a race leaves

  /** What asking the winner for its narinfo brought. */
  datatype Fetch = Refused | Absent | Sent(body: Body)

  predicate Signed(n: NarInfo, keys: Option<seq<(string, (string, string) -> bool)>>) {
    keys.None? || exists i | 0 <= i < |keys.value| :: Verifies(n, keys.value[i].0, keys.value[i].1)
  }

  function Verdict(w: World, url: string, keys: Option<seq<(string, (string, string) -> bool)>>, f: Fetch):
    Race.CommitReply
  {
    match f
    case Refused => Race.Unreachable
    case Absent => Race.Missing
    case Sent(body) =>
      if ParseBody(body).Err? then Race.Unparsable
      else if !Signed(ParseBody(body).value, keys) then Race.BadSignature
      else if !Allowed(w, url, ParseBody(body).value) then Race.Rejected
      else Race.Good
  }

  function Committed(c: Setup, hash: string, url: string, ms: F64, ema: F64, now: nat, body: Body): RouteEntry
    requires ParseBody(body).Ok?
  {
    var n := ParseBody(body).value;
    RouteEntry(hash, url, ms, ema, now, 1, 0, now + c.routeTtl, n.narHash, n.narSize,
               StoredNarUrl(n.url, hash, c.mode(url)), "/" + RelativeNarUrl(n.url), Some(body))
  }

  function Winner(c: Setup, hash: string, url: string, ms: F64, body: Body): Resolved {
    Resolved(url, ms, false, Response(c, url, hash, Some(body)))
  }

  ghost predicate CommitEffect(c: Setup, max: nat, hash: string, row: RouteEntry, won: Resolved, now: nat,
                               before: Layers, after: Layers) {
    && after.miss == before.miss
    && Next(max, before.table, SetRoute(row), after.table)
    && after.lru == Caches.Step(LruLimits(c), before.lru, Caches.Insert(hash, won, now))
  }

  ghost predicate RememberEffect(c: Setup, max: nat, hash: string, now: nat, before: Layers, after: Layers) {
    && after.miss == Caches.Step(MissLimits(c), before.miss, Caches.Insert(hash, (), now))
    && Next(max, before.table, SetNegative(hash, now + c.negativeTtl), after.table)
    && after.lru == before.lru
  }

  // ---- The router's methods, changing the layers in place

  class Router {
    const setup: Setup
    const miss: Caches.TtlCache<()>
    const lru: Caches.TtlCache<Resolved>
    const db: Db

    ghost predicate Valid()
      reads this, miss, lru
    {
      && miss.Valid() && miss.limits == MissLimits(setup)
      && lru.Valid() && lru.limits == LruLimits(setup)
    }

    ghost function State(): Layers
      reads this, miss, lru, db
    {
      Layers(miss.State(), db.State(), lru.State())
    }

    constructor (setup: Setup, db: Db)
      ensures Valid() && this.setup == setup && this.db == db && fresh(miss) && fresh(lru)
      ensures State() == Layers(Caches.Contents(map[], []), db.State(), Caches.Contents(map[], []))
    {
      this.setup, this.db := setup, db;
      miss := new Caches.TtlCache<()>(32_768, setup.memoryTtl);
      lru := new Caches.TtlCache<Resolved>(1024, setup.routeTtl);
    }

    method ResolveCached(hash: string, w: World) returns (r: Reply)
      requires Valid()
      modifies miss, lru, db
      ensures Valid() && r == Answer(setup, hash, Still(Moment(old(State()), w)))
      ensures State().miss == Caches.Step(MissLimits(setup), old(State()).miss, Caches.Get(hash, w.now))
      ensures if r.NotFound? then State().table == old(State()).table && State().lru == old(State()).lru
              else ReadEffect(setup, db.maxEntries, hash, w, old(State()).(miss := State().miss), State())
    {
      var missed := miss.Get(hash, w.now);
      if missed.Some? {
        return NotFound;
      }
      var negative := db.IsNegative(hash, w.now);
      if negative {
        return NotFound;
      }
      r := ValidCachedRoute(hash, w);
    }

    method ValidCachedRoute(hash: string, w: World) returns (r: Reply)
      requires Valid()
      modifies lru, db
      ensures Valid() && r == CachedRoute(setup, hash, Still(Moment(old(State()), w))) && !r.NotFound?
      ensures ReadEffect(setup, db.maxEntries, hash, w, old(State()), State())
    {
      var cached := lru.Get(hash, w.now);
      if cached.Some? {
        var held := cached.value;
        match Check(w, held.url, held.narinfo) {
          case Rejected =>
            lru.Invalidate(hash);
            return Nothing;
          case Cached =>
            return Hit(held.(cacheHit := true));
          case Fetched(bytes) =>
            var result := held.(cacheHit := true, narinfo := Response(setup, held.url, hash, Some(bytes)));
            lru.Insert(hash, result, w.now);
            return Hit(result);
        }
      }
      var entry := db.GetRoute(hash);
      if entry.None? || !RouteValid(entry.value, w.now) || w.down(entry.value.upstreamUrl) {
        return Nothing;
      }
      var row := entry.value;
      var bytes := RowBody(w, row);
      if bytes.None? {
        return Nothing;
      }
      if bytes != row.narinfo {
        db.SetRoute(row.(narinfo := bytes));
      }
      var result := Resolved(row.upstreamUrl, row.latencyEma, true, Response(setup, row.upstreamUrl, hash, bytes));
      lru.Insert(hash, result, w.now);
      r := Hit(result);
    }

    /** Fetching, checking and storing a winner's narinfo; the database works. */
    method CommitWinner(hash: string, url: string, ms: F64, ema: F64, w: World,
                        keys: Option<seq<(string, (string, string) -> bool)>>, f: Fetch)
      returns (reply: Race.CommitReply)
      requires Valid()
      modifies lru, db
      ensures Valid() && reply == Verdict(w, url, keys, f)
      ensures if reply.Good? then
                CommitEffect(setup, db.maxEntries, hash, Committed(setup, hash, url, ms, ema, w.now, f.body),
                             Winner(setup, hash, url, ms, f.body), w.now, old(State()), State())
              else State() == old(State())
    {
      if f.Refused? { return Race.Unreachable; }
      if f.Absent? { return Race.Missing; }
      var parsed := ParseBody(f.body);
      if parsed.Err? { return Race.Unparsable; }
      if !Signed(parsed.value, keys) { return Race.BadSignature; }
      if !Allowed(w, url, parsed.value) { return Race.Rejected; }
      db.SetRoute(Committed(setup, hash, url, ms, ema, w.now, f.body));
      lru.Insert(hash, Winner(setup, hash, url, ms, f.body), w.now);
      reply := Race.Good;
    }

    method RememberMiss(hash: string, now: nat)
      requires Valid()
      modifies miss, db
      ensures Valid() && RememberEffect(setup, db.maxEntries, hash, now, old(State()), State())
    {
      miss.Insert(hash, (), now);
      db.SetNegative(hash, setup.negativeTtl, now);
    }
  }
}
