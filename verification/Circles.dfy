/** Cached routes that are re-fetched at the last hop resend the hop they came with,
    so that hops do not bound them. The stored routes do: as long as none of them
    lead round in a circle a request costs a fixed number of steps, and otherwise it
    can cost any number. */
module Circles {
  import opened Wrappers
  import opened Protocol
  import opened Progress
  import opened Runs
  import opened Work
  import Gossip
  import RouteTable

  datatype Route = Route(key: Key, url: Url)

  ghost predicate StoredIn(s: State, routes: iset<Route>) {
    forall key <- s.routes :: Route(key, s.routes[key]) in routes
  }

  /** No state of the run has a route stored besides these. */
  ghost predicate StoresOnly(net: Net, s: State, run: seq<Action>, routes: iset<Route>)
    requires IsRun(net, s, run)
    decreases |run|
  {
    && StoredIn(s, routes)
    && (run != [] ==> StoresOnly(net, Apply(net, s, run[0]), run[1..], routes))
  }

  /** The route leads to the ncro node that looks the same hash up next. */
  predicate LeadsTo(net: Net, r: Route, key: Key) {
    r.url in net.owner && key == (net.owner[r.url], r.key.1)
  }

  // ---- Routes that lead downwards bound the re-fetches

  ghost predicate Descends(net: Net, routes: iset<Route>, rank: Key -> nat) {
    forall r, key | r in routes && LeadsTo(net, r, key) :: rank(key) < rank(r.key)
  }

  predicate Below(net: Net, rank: Key -> nat, key: Key, url: Url) {
    url in net.owner ==> rank((net.owner[url], key.1)) < rank(key)
  }

  predicate AtLastHop(t: Task) { t.Lookup? && t.hop.PeerOfPeer? }

  /** The route that a last-hop lookup has read, and the request it has sent, lead
      downwards. */
  predicate Downhill(net: Net, rank: Key -> nat, t: Task) {
    AtLastHop(t) ==>
      && (t.view.route.Some? ==> Below(net, rank, KeyOf(t), t.view.route.value))
      && (!t.http.Idle? ==> t.view.fetched)
      && (t.http.Sent? ==> Below(net, rank, KeyOf(t), t.http.url))
  }

  /** The re-fetches that a last-hop lookup may still bring about. */
  function DueOf(rank: Key -> nat, t: Task): nat {
    if !AtLastHop(t) then 0
    else if !t.view.fetched then rank(KeyOf(t)) + 1
    else if t.http.Sent? then rank(KeyOf(t)) else 0
  }

  function Due(rank: Key -> nat): Task -> nat { (t: Task) => DueOf(rank, t) }

  function TotalDue(rank: Key -> nat, tasks: seq<Task>): nat { Sum(Due(rank), tasks) }

  /** How a step changes what a last-hop lookup has read and sent. */
  predicate LastHopStep(s: State, a: Action, j: Id, t: Task, t': Task)
    requires AtLastHop(t)
  {
    && AtLastHop(t') && KeyOf(t') == KeyOf(t)
    && if a.Read? && a.i == j then
         KeyOf(t) in s.routes && t' == t.(view := t.view.(route := Some(s.routes[KeyOf(t)])))
       else if a.Fetch? && a.i == j then
         && !t.view.fetched && t.view.route == Some(a.url)
         && t' == t.(http := Sent(a.url), view := t.view.(fetched := true))
       else
         && t'.view.fetched == t.view.fetched && (t'.view.route == t.view.route || t'.view.route.None?)
         && (t'.http == t.http || t'.http.Idle? || (a.Serve? && a.i == j && t.http.Sent? && t'.http.Waiting?))
  }

  ghost predicate LastHopSteps(s: State, a: Action, s': State) {
    && |s'.tasks| >= |s.tasks|
    && (forall j | 0 <= j < |s.tasks| && AtLastHop(s.tasks[j]) :: LastHopStep(s, a, j, s.tasks[j], s'.tasks[j]))
    && (forall j | 0 <= j < |s.tasks| && !AtLastHop(s.tasks[j]) :: !AtLastHop(s'.tasks[j]))
    && (forall j | |s.tasks| <= j < |s'.tasks| && AtLastHop(s'.tasks[j]) ::
          s'.tasks[j].view == Blank && s'.tasks[j].http.Idle?)
  }

  lemma ReadingAtLastHop(net: Net, s: State, a: Action)
    requires Inv(net, s) && Enabled(net, s, a) && (a.Look? || a.Read? || a.Fetch?)
    ensures LastHopSteps(s, a, Apply(net, s, a))
  {
    assert TaskOk(net, s, a.i);
  }

  lemma ResolvingAtLastHop(net: Net, s: State, a: Action)
    requires Inv(net, s) && Enabled(net, s, a) && (a.Hit? || a.Missed?)
    ensures LastHopSteps(s, a, Apply(net, s, a))
  {
    assert TaskOk(net, s, a.i);
  }

  lemma HoldingAtLastHop(net: Net, s: State, a: Action)
    requires Inv(net, s) && Enabled(net, s, a) && (a.Lock? || a.Permit? || a.Cleanup? || a.Unlock?)
    ensures LastHopSteps(s, a, Apply(net, s, a))
  {
    assert TaskOk(net, s, a.i);
  }

  lemma RacingAtLastHop(net: Net, s: State, a: Action)
    requires Inv(net, s) && Enabled(net, s, a) && (a.Start? || a.NextGroup? || a.Reject?)
    ensures LastHopSteps(s, a, Apply(net, s, a))
  {
    assert TaskOk(net, s, a.i);
  }

  lemma JoiningAtLastHop(net: Net, s: State, a: Action)
    requires Inv(net, s) && Enabled(net, s, a) && a.Join?
    ensures LastHopSteps(s, a, Apply(net, s, a))
  {
    assert TaskOk(net, s, a.i);
  }

  lemma AbortingAtLastHop(net: Net, s: State, a: Action)
    requires Inv(net, s) && Enabled(net, s, a) && (a.Deadline? || a.Drop?)
    ensures LastHopSteps(s, a, Apply(net, s, a))
  {
  }

  lemma EndingAtLastHop(net: Net, s: State, a: Action)
    requires Inv(net, s) && Enabled(net, s, a) && (a.Accept? || a.Return?)
    ensures LastHopSteps(s, a, Apply(net, s, a))
  {
  }

  lemma HttpAtLastHop(net: Net, s: State, a: Action)
    requires Inv(net, s) && Enabled(net, s, a) && (a.EnterGate? || a.Answer? || a.TimeOut?)
    ensures LastHopSteps(s, a, Apply(net, s, a))
  {
  }

  lemma ServingAtLastHop(net: Net, s: State, a: Action)
    requires Inv(net, s) && Enabled(net, s, a) && a.Serve?
    ensures LastHopSteps(s, a, Apply(net, s, a))
  {
  }

  lemma ArrivingAtLastHop(net: Net, s: State, a: Action)
    requires Enabled(net, s, a) && a.Arrive?
    ensures LastHopSteps(s, a, Apply(net, s, a))
  {
  }

  lemma CacheEventAtLastHop(net: Net, s: State, a: Action)
    requires Enabled(net, s, a) && IsCacheEvent(a)
    ensures LastHopSteps(s, a, Apply(net, s, a))
  {
  }

  lemma StepAtLastHop(net: Net, s: State, a: Action)
    requires Inv(net, s) && Enabled(net, s, a)
    ensures LastHopSteps(s, a, Apply(net, s, a))
  {
    match a
    case Look(_) | Read(_) | Fetch(_, _) => ReadingAtLastHop(net, s, a);
    case Hit(_) | Missed(_) => ResolvingAtLastHop(net, s, a);
    case Lock(_) | Permit(_) | Cleanup(_) | Unlock(_) => HoldingAtLastHop(net, s, a);
    case Start(_) | NextGroup(_) | Reject(_) => RacingAtLastHop(net, s, a);
    case Join(_, _) => JoiningAtLastHop(net, s, a);
    case Deadline(_) | Drop(_) => AbortingAtLastHop(net, s, a);
    case Accept(_) | Return(_, _) => EndingAtLastHop(net, s, a);
    case EnterGate(_) | Answer(_, _) | TimeOut(_) => HttpAtLastHop(net, s, a);
    case Serve(_, _) => ServingAtLastHop(net, s, a);
    case Arrive(_, _, _, _) => ArrivingAtLastHop(net, s, a);
    case _ => CacheEventAtLastHop(net, s, a);
  }

  ghost predicate AllDownhill(net: Net, rank: Key -> nat, s: State) {
    forall j | 0 <= j < |s.tasks| :: Downhill(net, rank, s.tasks[j])
  }

  lemma DownhillStep(net: Net, rank: Key -> nat, routes: iset<Route>, s: State, a: Action, s': State)
    requires Descends(net, routes, rank) && StoredIn(s, routes) && AllDownhill(net, rank, s)
    requires LastHopSteps(s, a, s')
    ensures AllDownhill(net, rank, s')
  {
    forall j | 0 <= j < |s'.tasks|
      ensures Downhill(net, rank, s'.tasks[j])
    {
      if j < |s.tasks| && AtLastHop(s.tasks[j]) && a.Read? && a.i == j {
        var r := Route(KeyOf(s.tasks[j]), s.routes[KeyOf(s.tasks[j])]);
        if r.url in net.owner { assert LeadsTo(net, r, (net.owner[r.url], r.key.1)); }
      }
    }
  }

  /** No task's due rises, and a re-fetch lowers the actor's. */
  lemma DueFalls(net: Net, rank: Key -> nat, s: State, a: Action, s': State, j: Id)
    requires AllDownhill(net, rank, s) && LastHopSteps(s, a, s') && j < |s.tasks|
    ensures DueOf(rank, s'.tasks[j]) + (if Refetch(s, a) && a.i == j then 1 else 0) <= DueOf(rank, s.tasks[j])
  {
    assert Downhill(net, rank, s.tasks[j]);
  }

  /** A request sent at the last hop gives its due to the lookup that it starts. */
  lemma ChildIsDue(net: Net, rank: Key -> nat, s: State, a: Action)
    requires Inv(net, s) && AllDownhill(net, rank, s) && Enabled(net, s, a) && a.Serve? && AtLastHop(s.tasks[a.i])
    ensures var s' := Apply(net, s, a);
            DueOf(rank, s'.tasks[a.i]) + DueOf(rank, s'.tasks[|s.tasks|]) <= DueOf(rank, s.tasks[a.i])
  {
    assert Downhill(net, rank, s.tasks[a.i]);
    HopsRise(s.tasks[a.i].hop);
  }

  /** The lookup that a step before the last hop starts, or that arrives. */
  lemma OneIsDue(net: Net, rank: Key -> nat, r: nat, s: State, a: Action, added: seq<Task>)
    requires Enabled(net, s, a) && (a.Arrive? || a.Serve?) && forall key :: rank(key) <= r
    requires |Apply(net, s, a).tasks| >= |s.tasks| && added == Apply(net, s, a).tasks[|s.tasks|..]
    ensures TotalDue(rank, added) <= r + 1
  {
    assert |added| == 1;
    SumOfEqual(Due(rank), added, DueOf(rank, added[0]));
  }

  lemma NothingAdded(net: Net, s: State, a: Action)
    requires Enabled(net, s, a) && !a.Arrive? && !a.Serve? && !a.Start?
    ensures |Apply(net, s, a).tasks| == |s.tasks|
  {
  }

  /** The attempts of a race are never at the last hop. */
  lemma AttemptsAreNotDue(net: Net, rank: Key -> nat, s: State, a: Action, added: seq<Task>)
    requires Inv(net, s) && Enabled(net, s, a) && a.Start?
    requires |Apply(net, s, a).tasks| >= |s.tasks| && added == Apply(net, s, a).tasks[|s.tasks|..]
    ensures TotalDue(rank, added) == 0
  {
    SumOfEqual(Due(rank), added, 0);
  }

  lemma {:induction false} DueSum(rank: Key -> nat, before: seq<Task>, after: seq<Task>, added: seq<Task>, i: Id,
                                  paid: nat)
    requires |before| == |after| && (paid == 0 || i < |before|)
    requires forall j | 0 <= j < |before| ::
               DueOf(rank, after[j]) + (if i == j then paid else 0) <= DueOf(rank, before[j])
    ensures paid + TotalDue(rank, after + added) <= TotalDue(rank, before) + TotalDue(rank, added)
  {
    SumConcat(Due(rank), after, added);
    if i < |before| {
      SumChange(Due(rank), after, before, i);
    } else {
      SumAtMost(Due(rank), after, Due(rank), before);
    }
  }

  /** The tasks that were there before owe less, by a re-fetch. */
  lemma KeptDue(net: Net, rank: Key -> nat, s: State, a: Action, s': State, kept: seq<Task>, added: seq<Task>)
    requires AllDownhill(net, rank, s) && LastHopSteps(s, a, s') && s'.tasks == kept + added && |kept| == |s.tasks|
    ensures (if Refetch(s, a) then 1 else 0) + TotalDue(rank, s'.tasks)
            <= TotalDue(rank, s.tasks) + TotalDue(rank, added)
  {
    var i, paid := if HasActor(a) then a.i else 0, if Refetch(s, a) then 1 else 0;
    forall j | 0 <= j < |kept|
      ensures DueOf(rank, kept[j]) + (if i == j then paid else 0) <= DueOf(rank, s.tasks[j])
    {
      DueFalls(net, rank, s, a, s', j);
    }
    DueSum(rank, s.tasks, kept, added, i, paid);
  }

  /** A re-fetch is paid for by what is due; only requests from outside, and steps
      before the last hop, add to it. */
  lemma DueStep(net: Net, rank: Key -> nat, r: nat, s: State, a: Action)
    requires Inv(net, s) && AllDownhill(net, rank, s) && Enabled(net, s, a) && forall key :: rank(key) <= r
    ensures (if Refetch(s, a) then 1 else 0) + TotalDue(rank, Apply(net, s, a).tasks)
            <= TotalDue(rank, s.tasks) + if a.Arrive? || ByUpper(s, a) then r + 1 else 0
  {
    var s', n := Apply(net, s, a), |s.tasks|;
    StepAtLastHop(net, s, a);
    var kept, added := s'.tasks[..n], s'.tasks[n..];
    assert s'.tasks == kept + added;
    if a.Serve? && !ByUpper(s, a) {
      ServedDue(net, rank, s, a, s', kept, added);
    } else {
      KeptDue(net, rank, s, a, s', kept, added);
      if a.Start? {
        AttemptsAreNotDue(net, rank, s, a, added);
      } else if a.Arrive? || a.Serve? {
        OneIsDue(net, rank, r, s, a, added);
      } else {
        NothingAdded(net, s, a);
      }
    }
  }

  lemma SenderIsLookup(net: Net, s: State, i: Id)
    requires Inv(net, s) && i < |s.tasks| && s.tasks[i].http.Sent?
    ensures s.tasks[i].hop.PeerOfPeer? ==> s.tasks[i].Lookup?
  {
    assert TaskOk(net, s, i);
    if s.tasks[i].Attempt? { assert TaskOk(net, s, s.tasks[i].owner); }
  }

  lemma ServedDue(net: Net, rank: Key -> nat, s: State, a: Action, s': State, kept: seq<Task>, added: seq<Task>)
    requires Inv(net, s) && AllDownhill(net, rank, s) && Enabled(net, s, a) && a.Serve? && !ByUpper(s, a)
    requires s' == Apply(net, s, a) && LastHopSteps(s, a, s') && s'.tasks == kept + added && |kept| == |s.tasks|
    ensures TotalDue(rank, s'.tasks) <= TotalDue(rank, s.tasks)
  {
    SenderIsLookup(net, s, a.i);
    ChildIsDue(net, rank, s, a);
    forall j | 0 <= j < |kept| ensures DueOf(rank, kept[j]) <= DueOf(rank, s.tasks[j]) {
      DueFalls(net, rank, s, a, s', j);
    }
    assert |added| == 1 && s'.tasks[|kept|] == added[0];
    SumOfEqual(Due(rank), added, DueOf(rank, added[0]));
    DueSum(rank, s.tasks, kept, added, a.i, DueOf(rank, added[0]));
  }

  // ---- Whole runs

  lemma DueRunStep(net: Net, rank: Key -> nat, r: nat, routes: iset<Route>, s: State, a: Action)
    requires Inv(net, s) && AllDownhill(net, rank, s) && Enabled(net, s, a) && (forall key :: rank(key) <= r)
    requires StoredIn(s, routes) && Descends(net, routes, rank)
    ensures Inv(net, Apply(net, s, a)) && AllDownhill(net, rank, Apply(net, s, a))
    ensures (if Refetch(s, a) then 1 else 0) + TotalDue(rank, Apply(net, s, a).tasks)
            <= TotalDue(rank, s.tasks) + if a.Arrive? || ByUpper(s, a) then r + 1 else 0
  {
    InvStep(net, s, a);
    StepAtLastHop(net, s, a);
    DownhillStep(net, rank, routes, s, a, Apply(net, s, a));
    DueStep(net, rank, r, s, a);
  }

  /** From any state: what is re-fetched at the last hop was due, or is brought about
      by a request from outside or by a step before the last hop. */
  lemma {:induction false} DueRun(net: Net, rank: Key -> nat, r: nat, routes: iset<Route>, s: State, run: seq<Action>)
    requires Inv(net, s) && AllDownhill(net, rank, s) && (forall key :: rank(key) <= r)
    requires IsRun(net, s, run) && StoresOnly(net, s, run, routes) && Descends(net, routes, rank)
    ensures Refetches(net, s, run)
            <= TotalDue(rank, s.tasks) + (Arrivals(run) + UpperSteps(net, s, run)) * (r + 1)
    decreases |run|
  {
    if run != [] {
      var s' := Apply(net, s, run[0]);
      DueRunStep(net, rank, r, routes, s, run[0]);
      DueRun(net, rank, r, routes, s', run[1..]);
      var rest := Arrivals(run[1..]) + UpperSteps(net, s', run[1..]);
      Successor(rest, r + 1);
      assert Arrivals(run) + UpperSteps(net, s, run)
          == rest + if run[0].Arrive? || ByUpper(s, run[0]) then 1 else 0;
    }
  }

  /** What one request can cost, with stored routes that lead down from `r` at most. */
  function CostWithRoutes(net: Net, r: nat): nat {
    RequestCost(net) + 6 * ((RequestCost(net) + 1) * (r + 1))
  }

  lemma Associates(a: nat, b: nat, c: nat)
    ensures a * b * c == a * (b * c)
  {
  }

  lemma Distributes(a: nat, b: nat, c: nat)
    ensures a * (b + c) == a * b + a * c
  {
  }

  /** `d` for each arrival, and for each of the `c` steps that it costs. */
  lemma RefetchCost(arrivals: nat, upper: nat, refetches: nat, c: nat, d: nat)
    requires upper <= arrivals * c && refetches <= (arrivals + upper) * d
    ensures refetches <= arrivals * ((c + 1) * d)
  {
    Distributes(arrivals, c, 1);
    Product(arrivals + upper, arrivals * (c + 1), d);
    Associates(arrivals, c + 1, d);
  }

  lemma StepCost(arrivals: nat, steps: nat, refetches: nat, c: nat, f: nat)
    requires refetches <= arrivals * f && steps <= arrivals * c + 6 * refetches
    ensures steps <= arrivals * (c + 6 * f)
  {
    Distributes(arrivals, c, 6 * f);
    Associates(arrivals, 6, f);
  }

  lemma RefetchesWithin(net: Net, rank: Key -> nat, r: nat, routes: iset<Route>, run: seq<Action>, c: nat)
    requires IsRun(net, Start0, run) && StoresOnly(net, Start0, run, routes)
    requires Descends(net, routes, rank) && forall key :: rank(key) <= r
    requires UpperSteps(net, Start0, run) <= Arrivals(run) * c
    ensures Refetches(net, Start0, run) <= Arrivals(run) * ((c + 1) * (r + 1))
  {
    DueRun(net, rank, r, routes, Start0, run);
    RefetchCost(Arrivals(run), UpperSteps(net, Start0, run), Refetches(net, Start0, run), c, r + 1);
  }

  /** From the empty network: if no route that is ever stored leads up, or stays level,
      the re-fetches too are at most a fixed number for each request from outside. */
  lemma RefetchesAreBounded(net: Net, rank: Key -> nat, r: nat, routes: iset<Route>, run: seq<Action>)
    requires IsRun(net, Start0, run) && StoresOnly(net, Start0, run, routes)
    requires Descends(net, routes, rank) && forall key :: rank(key) <= r
    ensures Refetches(net, Start0, run) <= Arrivals(run) * ((RequestCost(net) + 1) * (r + 1))
  {
    RequestsAreBounded(net, run);
    RefetchesWithin(net, rank, r, routes, run, RequestCost(net));
  }

  /** And with them all steps of the network. */
  lemma StepsAreBounded(net: Net, rank: Key -> nat, r: nat, routes: iset<Route>, run: seq<Action>)
    requires IsRun(net, Start0, run) && StoresOnly(net, Start0, run, routes)
    requires Descends(net, routes, rank) && forall key :: rank(key) <= r
    ensures Steps(run) <= Arrivals(run) * CostWithRoutes(net, r)
  {
    RefetchesAreBounded(net, rank, r, routes, run);
    RequestsAreBounded(net, run);
    StepCost(Arrivals(run), Steps(run), Refetches(net, Start0, run), RequestCost(net),
             (RequestCost(net) + 1) * (r + 1));
  }

  // ---- Circles

  function Next(circle: seq<Route>, i: nat): nat
    requires i < |circle|
  {
    if i + 1 == |circle| then 0 else i + 1
  }

  /** Routes for different keys, so that they can all be stored at once, each of which
      leads to the next one's key, and the last one to the first one's. */
  predicate IsCircle(net: Net, circle: seq<Route>) {
    && circle != []
    && (forall i | 0 <= i < |circle| :: LeadsTo(net, circle[i], circle[Next(circle, i)].key))
    && (forall i, j | 0 <= i < j < |circle| :: circle[i].key != circle[j].key)
  }

  /** A node's route to itself is a circle, and so are two nodes' routes to each other. */
  lemma ShortCircles(net: Net, u: Url, v: Url, hash: Hash)
    requires u in net.owner && v in net.owner && net.owner[u] != net.owner[v]
    ensures IsCircle(net, [Route((net.owner[u], hash), u)])
    ensures IsCircle(net, [Route((net.owner[u], hash), v), Route((net.owner[v], hash), u)])
  {
    var pair := [Route((net.owner[u], hash), v), Route((net.owner[v], hash), u)];
    assert Next(pair, 0) == 1 && Next(pair, 1) == 0;
  }

  /** How the rows of a node's table name nodes and hashes. */
  datatype Names = Names(url: string -> Url, hash: string -> Hash)

  function RouteOf(names: Names, node: Node, row: RouteTable.RouteEntry): Route {
    Route((node, names.hash(row.storePath)), names.url(row.upstreamUrl))
  }

  /** Announcements bring circles about: a route to a peer, announced to that very peer,
      is stored there like any other, as long as the peer knows no better one, and leads
      the peer to itself. */
  lemma AnnouncedToItself(net: Net, names: Names, rows: RouteTable.Routes, r: RouteTable.RouteEntry, now: int)
    requires Gossip.Usable(r, now) && Gossip.ShouldSet(Gossip.RowOf(rows, r.storePath), r)
    requires names.url(r.upstreamUrl) in net.owner
    ensures var row := Gossip.RowOf(Gossip.MergeOne(rows, r, now), r.storePath);
            && row.Some? && RouteTable.RouteValid(row.value, now)
            && IsCircle(net, [RouteOf(names, net.owner[names.url(r.upstreamUrl)], row.value)])
  {
  }

  ghost predicate HasAll(routes: iset<Route>, rs: seq<Route>) { forall r <- rs :: r in routes }

  ghost predicate IsWalk(net: Net, routes: iset<Route>, walk: seq<Route>) {
    && walk != [] && HasAll(routes, walk)
    && forall i | 0 <= i < |walk| - 1 :: LeadsTo(net, walk[i], walk[i + 1].key)
  }

  /** A walk that ends where it began has a circle in it. */
  lemma {:induction false} FindCircle(net: Net, routes: iset<Route>, walk: seq<Route>) returns (circle: seq<Route>)
    requires IsWalk(net, routes, walk) && LeadsTo(net, walk[|walk| - 1], walk[0].key)
    ensures IsCircle(net, circle) && HasAll(routes, circle)
    decreases |walk|
  {
    if i, j :| 0 <= i < j < |walk| && walk[i].key == walk[j].key {
      circle := FindCircle(net, routes, walk[i..j]);
    } else {
      circle := walk;
    }
  }

  // ---- Without a circle the routes lead downwards

  /** Following the routes from `key` leads to `node`. */
  ghost predicate Visits(net: Net, routes: iset<Route>, key: Key, node: Node) {
    exists walk: seq<Route> ::
      IsWalk(net, routes, walk) && walk[0].key == key && LeadsTo(net, walk[|walk| - 1], (node, key.1))
  }

  ghost function Visited(net: Net, routes: iset<Route>, key: Key): set<Node> {
    set node | node in net.owner.Values && Visits(net, routes, key, node)
  }

  ghost function Height(net: Net, routes: iset<Route>): Key -> nat {
    key => |Visited(net, routes, key)|
  }

  lemma VisitsOn(net: Net, routes: iset<Route>, r: Route, key: Key, node: Node)
    requires r in routes && LeadsTo(net, r, key) && Visits(net, routes, key, node)
    ensures Visits(net, routes, r.key, node)
  {
    var walk: seq<Route> :|
      IsWalk(net, routes, walk) && walk[0].key == key && LeadsTo(net, walk[|walk| - 1], (node, key.1));
    assert IsWalk(net, routes, [r] + walk);
  }

  lemma Sizes<T>(a: set<T>, b: set<T>)
    requires a <= b
    ensures |a| <= |b| && (a != b ==> |a| < |b|)
  {
    assert b == a + (b - a);
  }

  /** Following a route leaves the node that it leads to behind. */
  lemma HeightFalls(net: Net, routes: iset<Route>, r: Route, key: Key)
    requires r in routes && LeadsTo(net, r, key)
    requires !exists circle: seq<Route> :: IsCircle(net, circle) && HasAll(routes, circle)
    ensures |Visited(net, routes, key)| < |Visited(net, routes, r.key)|
  {
    forall node <- Visited(net, routes, key) ensures node in Visited(net, routes, r.key) {
      VisitsOn(net, routes, r, key, node);
    }
    if Visits(net, routes, key, key.0) {
      var walk: seq<Route> :|
        IsWalk(net, routes, walk) && walk[0].key == key && LeadsTo(net, walk[|walk| - 1], (key.0, key.1));
      var circle := FindCircle(net, routes, walk);
    }
    assert IsWalk(net, routes, [r]);
    assert key.0 in net.owner.Values && key.0 in Visited(net, routes, r.key);
    Sizes(Visited(net, routes, key), Visited(net, routes, r.key));
  }

  ghost predicate CostsAtMost(net: Net, routes: iset<Route>, cost: nat) {
    forall run | IsRun(net, Start0, run) && StoresOnly(net, Start0, run, routes) ::
      Steps(run) <= Arrivals(run) * cost
  }

  /** Without a circle each request costs a number of steps that the peer graph fixes. */
  lemma CostIsFixed(net: Net, routes: iset<Route>)
    requires !exists circle: seq<Route> :: IsCircle(net, circle) && HasAll(routes, circle)
    ensures CostsAtMost(net, routes, CostWithRoutes(net, |net.owner.Values|))
  {
    var height, nodes := Height(net, routes), |net.owner.Values|;
    forall key ensures height(key) <= nodes {
      Sizes(Visited(net, routes, key), net.owner.Values);
    }
    forall r, key | r in routes && LeadsTo(net, r, key) ensures height(key) < height(r.key) {
      HeightFalls(net, routes, r, key);
    }
    forall run | IsRun(net, Start0, run) && StoresOnly(net, Start0, run, routes)
      ensures Steps(run) <= Arrivals(run) * CostWithRoutes(net, nodes)
    {
      StepsAreBounded(net, height, nodes, routes, run);
    }
  }

  // ---- Round a circle

  /** A run from `start` to `s` that stores only `routes`. */
  ghost predicate Leads(net: Net, start: State, run: seq<Action>, s: State, routes: iset<Route>) {
    Reaches(net, start, run, s) && StoresOnly(net, start, run, routes)
  }

  lemma {:induction false} OneMore(net: Net, start: State, run: seq<Action>, a: Action, routes: iset<Route>)
    requires IsRun(net, start, run) && StoresOnly(net, start, run, routes) && Enabled(net, After(net, start, run), a)
    requires StoredIn(Apply(net, After(net, start, run), a), routes)
    ensures IsRun(net, start, run + [a]) && StoresOnly(net, start, run + [a], routes)
    ensures Steps(run + [a]) == Steps(run) + (if HasActor(a) then 1 else 0)
    ensures Arrivals(run + [a]) == Arrivals(run) + (if a.Arrive? then 1 else 0)
    decreases |run|
  {
    if run == [] {
      assert run + [a] == [a] && [a][1..] == [];
    } else {
      assert (run + [a])[0] == run[0] && (run + [a])[1..] == run[1..] + [a];
      OneMore(net, Apply(net, start, run[0]), run[1..], a, routes);
    }
  }

  lemma Goes(net: Net, start: State, run: seq<Action>, s: State, a: Action, routes: iset<Route>)
    returns (run': seq<Action>, s': State)
    requires Leads(net, start, run, s, routes) && Enabled(net, s, a) && StoredIn(Apply(net, s, a), routes)
    ensures Leads(net, start, run', s', routes) && s' == Apply(net, s, a)
    ensures Steps(run') == Steps(run) + (if HasActor(a) then 1 else 0)
    ensures Arrivals(run') == Arrivals(run) + (if a.Arrive? then 1 else 0)
  {
    OneMore(net, start, run, a, routes);
    Then(net, start, run, a);
    run' := run + [a];
    s' := After(net, start, run');
  }

  predicate Standing(s: State, circle: seq<Route>) {
    forall r <- circle :: r.key in s.routes && s.routes[r.key] == r.url
  }

  /** A lookup that has just arrived at the last hop, for the key of a route. */
  ghost predicate Newcomer(s: State, r: Route) {
    && s.tasks != []
    && exists groups, parent ::
         s.tasks[|s.tasks| - 1] == NewLookup(r.key.0, PeerOfPeer, r.key.1, groups, parent)
  }

  /** The newcomer reads the stored route... */
  lemma ReadsRoute(net: Net, start: State, run0: seq<Action>, s: State, routes: iset<Route>, r: Route)
    returns (run: seq<Action>, s': State)
    requires Leads(net, start, run0, s, routes) && StoredIn(s, routes)
    requires Newcomer(s, r) && r.key in s.routes && s.routes[r.key] == r.url
    ensures Leads(net, start, run, s', routes) && Steps(run) == Steps(run0) + 2 && Arrivals(run) == Arrivals(run0)
    ensures s'.routes == s.routes && |s'.tasks| == |s.tasks| && HasRead(s'.tasks[|s.tasks| - 1], r)
  {
    var i := |s.tasks| - 1;
    run, s' := Goes(net, start, run0, s, Look(i), routes);
    run, s' := Goes(net, start, run, s', Read(i), routes);
  }

  predicate HasRead(t: Task, r: Route) {
    && AtLastHop(t) && Resolving(t) && KeyOf(t) == r.key
    && t.view.looked && !t.view.fetched && t.view.route == Some(r.url)
  }

  /** ...and asks the node that it leads to, which so gets a newcomer of its own. */
  lemma AsksNext(net: Net, start: State, run0: seq<Action>, s: State, routes: iset<Route>, r: Route, next: Route)
    returns (run: seq<Action>, s': State)
    requires Leads(net, start, run0, s, routes) && StoredIn(s, routes)
    requires s.tasks != [] && HasRead(s.tasks[|s.tasks| - 1], r) && LeadsTo(net, r, next.key)
    ensures Leads(net, start, run, s', routes) && Steps(run) == Steps(run0) + 2 && Arrivals(run) == Arrivals(run0)
    ensures s'.routes == s.routes && Newcomer(s', next)
  {
    var i := |s.tasks| - 1;
    HopsRise(PeerOfPeer);
    run, s' := Goes(net, start, run0, s, Fetch(i, r.url), routes);
    run, s' := Goes(net, start, run, s', Serve(i, []), routes);
    assert s'.tasks[i + 1] == NewLookup(next.key.0, PeerOfPeer, next.key.1, [], Some(i));
  }

  /** Once a circle of routes is stored, a newcomer for one of its keys can go round it
      for ever: no other request arrives, and nothing else happens to the caches. */
  lemma {:induction false} RefetchesChain(net: Net, start: State, run0: seq<Action>, s: State, routes: iset<Route>,
                                          circle: seq<Route>, i: nat, n: nat)
    returns (run: seq<Action>, s': State)
    requires Leads(net, start, run0, s, routes) && StoredIn(s, routes)
    requires IsCircle(net, circle) && Standing(s, circle) && i < |circle| && Newcomer(s, circle[i])
    ensures Leads(net, start, run, s', routes) && s'.routes == s.routes
    ensures Steps(run) == Steps(run0) + 4 * n && Arrivals(run) == Arrivals(run0)
    decreases n
  {
    run, s' := run0, s;
    if n > 0 {
      assert circle[i] in circle;
      run, s' := ReadsRoute(net, start, run0, s, routes, circle[i]);
      run, s' := AsksNext(net, start, run, s', routes, circle[i], circle[Next(circle, i)]);
      run, s' := RefetchesChain(net, start, run, s', routes, circle, Next(circle, i), n - 1);
    }
  }

  /** All routes of a circle can be stored at once. */
  lemma {:induction false} StoresAll(net: Net, circle: seq<Route>, n: nat, routes: iset<Route>)
    returns (run: seq<Action>, s: State)
    requires IsCircle(net, circle) && HasAll(routes, circle) && n <= |circle|
    ensures Leads(net, Start0, run, s, routes) && StoredIn(s, routes) && s.tasks == []
    ensures Standing(s, circle[..n]) && Steps(run) == 0 && Arrivals(run) == 0
  {
    run, s := [], Start0;
    if n > 0 {
      var r := circle[n - 1];
      assert r in circle;
      run, s := StoresAll(net, circle, n - 1, routes);
      var before := s;
      run, s := Goes(net, Start0, run, s, Store(r.key, r.url), routes);
      forall x <- circle[..n] ensures x.key in s.routes && s.routes[x.key] == x.url {
        if x != r { assert x in circle[..n - 1] && x.key != r.key; }
      }
    }
  }

  /** One request at the last hop can cost any number of steps if a circle of routes is
      stored, of any length. */
  lemma RefetchesAreUnbounded(net: Net, routes: iset<Route>, circle: seq<Route>, n: nat) returns (run: seq<Action>)
    requires IsCircle(net, circle) && HasAll(routes, circle)
    ensures IsRun(net, Start0, run) && StoresOnly(net, Start0, run, routes)
    ensures Arrivals(run) == 1 && Steps(run) == 4 * n
  {
    var s, key := Start0, circle[0].key;
    run, s := StoresAll(net, circle, |circle|, routes);
    assert circle[..|circle|] == circle;
    run, s := Goes(net, Start0, run, s, Arrive(key.0, key.1, PeerOfPeer, []), routes);
    assert s.tasks[0] == NewLookup(key.0, PeerOfPeer, key.1, [], None);
    run, s := RefetchesChain(net, Start0, run, s, routes, circle, 0, n);
  }

  /** So, for any peer graph and any routes, finitely many or not: a request costs a
      fixed number of steps, in all runs in which no other routes are ever stored, if
      and only if there is no circle among them; and then the peer graph fixes it. */
  lemma CostIsFixedIff(net: Net, routes: iset<Route>)
    ensures (exists cost: nat :: CostsAtMost(net, routes, cost))
            <==> !exists circle: seq<Route> :: IsCircle(net, circle) && HasAll(routes, circle)
    ensures (exists cost: nat :: CostsAtMost(net, routes, cost))
            ==> CostsAtMost(net, routes, CostWithRoutes(net, |net.owner.Values|))
  {
    if circle: seq<Route> :| IsCircle(net, circle) && HasAll(routes, circle) {
      forall cost: nat ensures !CostsAtMost(net, routes, cost) {
        var run := RefetchesAreUnbounded(net, routes, circle, cost + 1);
      }
    } else {
      CostIsFixed(net, routes);
    }
  }
}
