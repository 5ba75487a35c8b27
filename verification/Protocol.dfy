/** The narinfo lookup protocol over a network of ncro nodes that may be each
    other's upstreams, in any topology. A state holds every lookup and every
    HEAD attempt of a race as a task; a task's id is its index and is never
    reused. A run interleaves the actions of all nodes in any order. Every wait
    for a lock, a permit, a gate, an attempt or a request is an action boundary,
    and so are the start and the end of reading the caches. */
module Protocol {
  import opened Wrappers

  type Node = nat
  type Url = nat
  type Hash = nat
  type Id = nat
  type Key = (Node, Hash)

  datatype Hop = Client | Peer | PeerOfPeer

  /** What a node takes a request for, given its hop header. */
  function FromHeader(header: Option<string>): Hop {
    match header
    case None => Client
    case Some(value) => if value == "1" then Peer else PeerOfPeer
  }

  /** The hop header of the requests that a lookup sends upstream. */
  function Outgoing(hop: Hop): string {
    if hop.Client? then "1" else "2"
  }

  /** The hop at which a peer receives a request sent at `hop`. */
  function Received(hop: Hop): Hop {
    FromHeader(Some(Outgoing(hop)))
  }

  datatype Http = Idle | Sent(url: Url) | Waiting(child: Id)

  /** What a lookup knows of the caches: whether it has begun to read them, the
      stamp of the outcome that was cached then, the stored route it has read, and
      whether it has re-fetched that route's narinfo. */
  datatype View = View(looked: bool, seen: Option<nat>, route: Option<Url>, fetched: bool)

  const Blank := View(false, None, None, false)

  datatype Stage =
    | Checking                   // resolve_cached, before the lock
    | AwaitLock
    | Rechecking                 // resolve_cached, under the lock
    | AwaitPermit
    | Choosing                   // head of race's two loops
    | Racing                     // inside race_group
    | Committing(winner: Url)    // fetching the winner's narinfo
    | Settled                    // the result is known, the lock still held
    | Leaving                    // the inflight entry is dropped, the lock not yet
    | Done

  datatype Reply = Winner | Miss | Broken

  datatype Phase = AwaitGate | Head | Finished(reply: Reply) | Gone

  datatype Task =
    | Lookup(node: Node, hop: Hop, http: Http, hash: Hash, stage: Stage,
             view: View, lock: Option<Id>, groups: seq<seq<Url>>,
             raced: bool, parent: Option<Id>)
    | Attempt(node: Node, hop: Hop, http: Http, hash: Hash, owner: Id, url: Url,
              phase: Phase)

  /** A lock's id is the id of the lookup that made it. `cache` holds the keys for
      which a race left an outcome that has stood ever since, with the stamp of when
      it began to; module Outcomes has what that means, and why whoever reads the
      caches while it stands gets an answer. `routes` holds the routes that are stored
      at all, from races or from elsewhere. */
  datatype State = State(tasks: seq<Task>, inflight: map<Key, Id>, cache: map<Key, nat>, stamps: nat,
                         routes: map<Key, Url>)

  /** `owner` maps the upstream URLs that are ncro nodes; all others are
      external servers. `maxUpstreams` bounds every node's upstream list.
      The router keeps one gate per (upstream, hop), which is `gatesPerHop`;
      false stands for one gate per upstream. */
  datatype Net = Net(owner: map<Url, Node>, raceLimit: Node -> nat,
                     gateLimit: Node -> nat, maxUpstreams: nat, gatesPerHop: bool)

  ghost predicate ValidNet(net: Net) {
    && (forall n: Node :: net.raceLimit(n) >= 1)
    && (forall n: Node :: net.gateLimit(n) >= 1)
  }

  predicate ValidGroups(net: Net, groups: seq<seq<Url>>) {
    && |groups| <= net.maxUpstreams
    && forall g <- groups :: |g| <= net.maxUpstreams
  }

  datatype Action =
    // Steps of a lookup
    | Look(i: Id)
    | Read(i: Id)
    | Fetch(i: Id, url: Url)
    | Hit(i: Id)
    | Missed(i: Id)
    | Lock(i: Id)
    | Permit(i: Id)
    | Start(i: Id)
    | Join(i: Id, a: Id)
    | NextGroup(i: Id)
    | Accept(i: Id)
    | Reject(i: Id)
    | Return(i: Id, remember: bool)
    | Cleanup(i: Id)
    | Unlock(i: Id)
    // Steps of an attempt, and of the HTTP exchange of either
    | EnterGate(i: Id)
    | Serve(i: Id, candidates: seq<seq<Url>>)
    | Answer(i: Id, reply: Reply)
    // The environment: requests from outside, clocks, cancellation, expiry
    | Arrive(node: Node, hash: Hash, hop: Hop, candidates: seq<seq<Url>>)
    | Deadline(i: Id)
    | TimeOut(i: Id)
    | Drop(i: Id)
    | Forget(key: Key)
    | Store(key: Key, url: Url)
    | Lose(key: Key)

  /** A cached route's re-fetch by a lookup that may not race any more. It sends
      the hop it came with, so these alone can chain; module Circles says how far. */
  predicate Refetch(s: State, a: Action) {
    a.Fetch? && IsLookup(s, a.i) && s.tasks[a.i].hop.PeerOfPeer?
  }

  predicate IsEnvironment(a: Action) {
    a.Arrive? || a.Deadline? || a.TimeOut? || a.Drop? || IsCacheEvent(a)
  }

  /** What happens to the caches without any lookup: an outcome expires, is evicted
      or is refused from now on; a route is announced by the mesh or found from an
      earlier process; a route is dropped. */
  predicate IsCacheEvent(a: Action) {
    a.Forget? || a.Store? || a.Lose?
  }

  /** A step of one of the tasks. */
  predicate HasActor(a: Action) { !a.Arrive? && !IsCacheEvent(a) }

  predicate Live(t: Task) {
    if t.Lookup? then !t.stage.Done? else t.phase.AwaitGate? || t.phase.Head?
  }

  predicate Unfinished(s: State) {
    exists i | 0 <= i < |s.tasks| :: s.tasks[i].Lookup? && Live(s.tasks[i])
  }

  function KeyOf(t: Task): Key { (t.node, t.hash) }

  predicate InRace(stage: Stage) {
    stage.Choosing? || stage.Racing? || stage.Committing?
  }

  predicate HoldsLock(t: Task, lock: Id) {
    && t.Lookup? && t.lock == Some(lock)
    && !t.stage.AwaitLock? && !t.stage.Done?
  }

  /** The lookups that hold one of `node`'s race permits. */
  function PermitHolders(s: State, node: Node): set<Id> {
    set i | 0 <= i < |s.tasks| && HoldsPermit(s.tasks[i], node)
  }

  predicate HoldsPermit(t: Task, node: Node) {
    t.Lookup? && t.node == node && t.hop.Client? && InRace(t.stage)
  }

  /** The attempts inside `node`'s gate for (url, hop). */
  function GateHolders(net: Net, s: State, node: Node, url: Url, hop: Hop): set<Id> {
    set i | 0 <= i < |s.tasks| && HoldsGate(net, s.tasks[i], node, url, hop)
  }

  predicate HoldsGate(net: Net, t: Task, node: Node, url: Url, hop: Hop) {
    && t.Attempt? && t.node == node && t.url == url
    && (net.gatesPerHop ==> t.hop == hop) && t.phase.Head?
  }

  predicate OwnedBy(t: Task, owner: Id) {
    t.Attempt? && t.owner == owner && !t.phase.Gone?
  }

  predicate IsLookup(s: State, i: Id) { i < |s.tasks| && s.tasks[i].Lookup? }

  predicate Resolving(t: Task) {
    t.Lookup? && (t.stage.Checking? || t.stage.Rechecking?) && t.http.Idle?
  }

  /** The outcome that was cached when the lookup began to read still stands. */
  predicate Answered(s: State, t: Task)
    requires t.Lookup?
  {
    t.view.seen.Some? && KeyOf(t) in s.cache && s.cache[KeyOf(t)] == t.view.seen.value
  }

  predicate Committed(t: Task) {
    t.Lookup? && t.stage.Committing? && t.http.Idle? && t.view.fetched
  }

  predicate Replied(net: Net, s: State, i: Id)
    requires i < |s.tasks|
  {
    match s.tasks[i].http
    case Idle => false
    case Sent(url) => url !in net.owner
    case Waiting(child) => IsLookup(s, child) && s.tasks[child].stage.Done?
  }

  predicate Enabled(net: Net, s: State, a: Action) {
    match a
    case Look(i) => IsLookup(s, i) && Resolving(s.tasks[i]) && !s.tasks[i].view.looked
    case Read(i) =>
      && IsLookup(s, i) && Resolving(s.tasks[i]) && s.tasks[i].view.looked
      && s.tasks[i].view.route.None? && KeyOf(s.tasks[i]) in s.routes
    case Fetch(i, url) =>
      && IsLookup(s, i) && s.tasks[i].http.Idle? && !s.tasks[i].view.fetched
      && (|| (Resolving(s.tasks[i]) && s.tasks[i].view.looked && s.tasks[i].view.route == Some(url))
          || s.tasks[i].stage == Committing(url))
    case Hit(i) => IsLookup(s, i) && Resolving(s.tasks[i]) && s.tasks[i].view.looked
    case Missed(i) =>
      && IsLookup(s, i) && Resolving(s.tasks[i]) && s.tasks[i].view.looked
      && !Answered(s, s.tasks[i])
    case Lock(i) =>
      && IsLookup(s, i) && s.tasks[i].stage.AwaitLock? && s.tasks[i].lock.Some?
      && forall j | 0 <= j < |s.tasks| :: !HoldsLock(s.tasks[j], s.tasks[i].lock.value)
    case Permit(i) =>
      && IsLookup(s, i) && s.tasks[i].stage.AwaitPermit?
      && |PermitHolders(s, s.tasks[i].node)| < net.raceLimit(s.tasks[i].node)
    case Start(i) =>
      && IsLookup(s, i) && s.tasks[i].stage.Choosing?
      && s.tasks[i].groups != [] && s.tasks[i].groups[0] != []
    case Join(i, a) =>
      && IsLookup(s, i) && s.tasks[i].stage.Racing?
      && a < |s.tasks| && OwnedBy(s.tasks[a], i) && s.tasks[a].phase.Finished?
    case NextGroup(i) =>
      && IsLookup(s, i) && s.tasks[i].groups != []
      && (|| (s.tasks[i].stage.Choosing? && s.tasks[i].groups[0] == [])
          || (s.tasks[i].stage.Racing?
              && forall j | 0 <= j < |s.tasks| :: !OwnedBy(s.tasks[j], i)))
    case Accept(i) => IsLookup(s, i) && Committed(s.tasks[i])
    case Reject(i) => IsLookup(s, i) && Committed(s.tasks[i]) && s.tasks[i].groups != []
    case Return(i, remember) =>
      && IsLookup(s, i)
      && if s.tasks[i].stage.Choosing?
         then s.tasks[i].groups == [] && (remember ==> s.tasks[i].hop.Client?)
         else Committed(s.tasks[i]) && !remember
    case Cleanup(i) =>
      IsLookup(s, i) && s.tasks[i].stage.Settled? && s.tasks[i].lock.Some?
    case Unlock(i) => IsLookup(s, i) && s.tasks[i].stage.Leaving?
    case EnterGate(i) =>
      && i < |s.tasks| && s.tasks[i].Attempt? && s.tasks[i].phase.AwaitGate?
      && |GateHolders(net, s, s.tasks[i].node, s.tasks[i].url, s.tasks[i].hop)|
         < net.gateLimit(s.tasks[i].node)
    case Serve(i, candidates) =>
      && i < |s.tasks| && s.tasks[i].http.Sent? && s.tasks[i].http.url in net.owner
      && ValidGroups(net, candidates)
    case Answer(i, reply) => i < |s.tasks| && Replied(net, s, i)
    case Arrive(_, _, _, candidates) => ValidGroups(net, candidates)
    case Deadline(i) =>
      IsLookup(s, i) && s.tasks[i].stage.Racing? && s.tasks[i].groups != []
    case TimeOut(i) => i < |s.tasks| && !s.tasks[i].http.Idle?
    case Drop(i) => IsLookup(s, i) && Live(s.tasks[i])
    case Forget(_) => true
    case Store(_, _) => true
    case Lose(_) => true
  }

  /** A lookup whose result is known: a client still has its lock to give up. */
  function Settle(t: Task): Task
    requires t.Lookup?
  {
    t.(stage := if t.lock.Some? then Settled else Done, http := Idle)
  }

  function NewLookup(node: Node, hop: Hop, hash: Hash, groups: seq<seq<Url>>,
                     parent: Option<Id>): Task {
    Lookup(node, hop, Idle, hash, Checking, Blank, None, groups, false, parent)
  }

  function NewAttempts(t: Task, owner: Id, group: seq<Url>): seq<Task> {
    seq(|group|, k requires 0 <= k < |group| =>
      Attempt(t.node, t.hop, Idle, t.hash, owner, group[k], AwaitGate))
  }

  function AbortAttempt(t: Task, owner: Id): Task {
    if OwnedBy(t, owner) then t.(phase := Gone, http := Idle) else t
  }

  /** Dropping a race's JoinSet aborts the attempts that have not been joined. */
  function Abort(tasks: seq<Task>, owner: Id): seq<Task> {
    seq(|tasks|, k requires 0 <= k < |tasks| => AbortAttempt(tasks[k], owner))
  }

  function Without(group: seq<Url>, url: Url): (r: seq<Url>)
    ensures |r| <= |group|
    ensures url in group ==> |r| < |group|
  {
    if group == [] then []
    else if group[0] == url then Without(group[1..], url)
    else [group[0]] + Without(group[1..], url)
  }

  /** The end of an HTTP exchange, as its sender sees it. */
  function Receive(t: Task, reply: Reply): Task {
    if t.Lookup? then t.(http := Idle, stage := t.stage)
    else t.(http := Idle, phase := Finished(reply))
  }

  /** remove_if on the inflight map: only the holder's own lock is removed. */
  function RemoveIfSame(inflight: map<Key, Id>, key: Key, lock: Option<Id>): map<Key, Id> {
    if key in inflight && lock == Some(inflight[key]) then inflight - {key} else inflight
  }

  function Looked(s: State, t: Task): Task
    requires t.Lookup?
  {
    t.(view := View(true, if KeyOf(t) in s.cache then Some(s.cache[KeyOf(t)]) else None, None, t.view.fetched))
  }

  /** An outcome that stands already keeps its stamp. */
  function Remember(s: State, key: Key): State {
    if key in s.cache then s else s.(cache := s.cache[key := s.stamps], stamps := s.stamps + 1)
  }

  function MissedLookup(s: State, i: Id): (Task, map<Key, Id>)
    requires IsLookup(s, i)
  {
    var t := s.tasks[i];
    if t.stage.Rechecking? then
      (if t.groups == [] then Settle(t) else t.(stage := AwaitPermit), s.inflight)
    else match t.hop
      case PeerOfPeer => (t.(stage := Done), s.inflight)
      case Peer =>
        (if t.groups == [] then t.(stage := Done) else t.(stage := Choosing, raced := true),
         s.inflight)
      case Client =>
        var inflight := if KeyOf(t) in s.inflight then s.inflight
                        else s.inflight[KeyOf(t) := i];
        (t.(stage := AwaitLock, lock := Some(inflight[KeyOf(t)])), inflight)
  }

  function Apply(net: Net, s: State, a: Action): State
    requires Enabled(net, s, a)
  {
    match a
    case Look(i) => s.(tasks := s.tasks[i := Looked(s, s.tasks[i])])
    case Read(i) =>
      var t := s.tasks[i];
      s.(tasks := s.tasks[i := t.(view := t.view.(route := Some(s.routes[KeyOf(t)])))])
    case Fetch(i, url) =>
      var t := s.tasks[i];
      s.(tasks := s.tasks[i := t.(http := Sent(url), view := t.view.(fetched := true))])
    case Hit(i) => s.(tasks := s.tasks[i := Settle(s.tasks[i])])
    case Missed(i) =>
      var (t, inflight) := MissedLookup(s, i);
      s.(tasks := s.tasks[i := t], inflight := inflight)
    case Lock(i) =>
      s.(tasks := s.tasks[i := s.tasks[i].(stage := Rechecking, view := Blank)])
    case Permit(i) =>
      s.(tasks := s.tasks[i := s.tasks[i].(stage := Choosing, raced := true)])
    case Start(i) =>
      s.(tasks := s.tasks[i := s.tasks[i].(stage := Racing)]
                  + NewAttempts(s.tasks[i], i, s.tasks[i].groups[0]))
    case Join(i, a) =>
      if s.tasks[a].phase.reply.Winner? then
        s.(tasks := Abort(s.tasks, i)
             [i := s.tasks[i].(stage := Committing(s.tasks[a].url), view := Blank)])
      else s.(tasks := s.tasks[a := s.tasks[a].(phase := Gone)])
    case NextGroup(i) =>
      s.(tasks := s.tasks[i := s.tasks[i].(stage := Choosing, groups := s.tasks[i].groups[1..])])
    case Accept(i) =>
      var t := s.tasks[i];
      Remember(s, KeyOf(t)).(tasks := s.tasks[i := Settle(t)], routes := s.routes[KeyOf(t) := t.stage.winner])
    case Reject(i) =>
      var t := s.tasks[i];
      s.(tasks := s.tasks[i := t.(stage := Choosing,
           groups := [Without(t.groups[0], t.stage.winner)] + t.groups[1..])])
    case Return(i, remember) =>
      (if remember then Remember(s, KeyOf(s.tasks[i])) else s).(tasks := s.tasks[i := Settle(s.tasks[i])])
    case Cleanup(i) =>
      s.(tasks := s.tasks[i := s.tasks[i].(stage := Leaving)],
         inflight := RemoveIfSame(s.inflight, KeyOf(s.tasks[i]), s.tasks[i].lock))
    case Unlock(i) => s.(tasks := s.tasks[i := s.tasks[i].(stage := Done)])
    case EnterGate(i) =>
      s.(tasks := s.tasks[i := s.tasks[i].(phase := Head, http := Sent(s.tasks[i].url))])
    case Serve(i, candidates) =>
      var t := s.tasks[i];
      var parent := if t.Lookup? then i else t.owner;
      s.(tasks := s.tasks[i := t.(http := Waiting(|s.tasks|))]
           + [NewLookup(net.owner[t.http.url], Received(t.hop), t.hash, candidates, Some(parent))])
    case Answer(i, reply) => s.(tasks := s.tasks[i := Receive(s.tasks[i], reply)])
    case Arrive(node, hash, hop, candidates) =>
      s.(tasks := s.tasks + [NewLookup(node, hop, hash, candidates, None)])
    case Deadline(i) =>
      s.(tasks := Abort(s.tasks, i)
           [i := s.tasks[i].(stage := Choosing, groups := s.tasks[i].groups[1..])])
    case TimeOut(i) => s.(tasks := s.tasks[i := Receive(s.tasks[i], Broken)])
    case Drop(i) =>
      s.(tasks := Abort(s.tasks, i)[i := s.tasks[i].(stage := Done, http := Idle)],
         inflight := if s.tasks[i].stage.AwaitLock? then s.inflight
                     else RemoveIfSame(s.inflight, KeyOf(s.tasks[i]), s.tasks[i].lock))
    case Forget(key) => s.(cache := s.cache - {key})
    case Store(key, url) => s.(routes := s.routes[key := url])
    case Lose(key) => s.(routes := s.routes - {key})
  }

  /** A run: its actions are enabled one after the other, starting in `s`. */
  ghost predicate IsRun(net: Net, s: State, run: seq<Action>)
    decreases |run|
  {
    run == [] || (Enabled(net, s, run[0]) && IsRun(net, Apply(net, s, run[0]), run[1..]))
  }

  ghost function After(net: Net, s: State, run: seq<Action>): State
    requires IsRun(net, s, run)
    decreases |run|
  {
    if run == [] then s else After(net, Apply(net, s, run[0]), run[1..])
  }

  const Start0 := State([], map[], map[], 0, map[])

  // ---- The invariant of every reachable state

  predicate NeedsLock(stage: Stage) {
    || stage.AwaitLock? || stage.Rechecking? || stage.AwaitPermit?
    || stage.Settled? || stage.Leaving?
  }

  ghost predicate LookupOk(net: Net, s: State, i: Id)
    requires IsLookup(s, i)
  {
    var t := s.tasks[i];
    && (!t.http.Idle? ==> t.stage.Checking? || t.stage.Rechecking? || t.stage.Committing?)
    && (t.lock.Some? ==> t.hop.Client?)
    && (t.stage.Checking? ==> t.lock.None?)
    && (NeedsLock(t.stage) ==> t.lock.Some?)
    && (InRace(t.stage) ==> t.raced && (t.hop.Client? ==> t.lock.Some?))
    && (t.raced ==> !t.hop.PeerOfPeer?)
    && (t.stage.Racing? ==> t.groups != [] && t.groups[0] != [])
    && (t.stage.Committing? ==> t.groups != [] && t.stage.winner in t.groups[0])
    && ValidGroups(net, t.groups)
    && (t.parent.Some? ==> && t.parent.value < i && IsLookup(s, t.parent.value)
                           && t.hop == Received(s.tasks[t.parent.value].hop))
  }

  ghost predicate AttemptOk(s: State, i: Id)
    requires i < |s.tasks| && s.tasks[i].Attempt?
  {
    var t := s.tasks[i];
    && (t.phase.Head? <==> !t.http.Idle?)
    && t.owner < i && IsLookup(s, t.owner)
    && s.tasks[t.owner].hop == t.hop
    && (!t.phase.Gone? ==> && s.tasks[t.owner].stage.Racing? && s.tasks[t.owner].groups != []
                           && t.url in s.tasks[t.owner].groups[0])
  }

  ghost predicate TaskOk(net: Net, s: State, i: Id)
    requires i < |s.tasks|
  {
    && (s.tasks[i].http.Waiting? ==>
          var child := s.tasks[i].http.child;
          i < child && IsLookup(s, child) && s.tasks[child].hop == Received(s.tasks[i].hop))
    && (if s.tasks[i].Lookup? then LookupOk(net, s, i) else AttemptOk(s, i))
  }

  ghost predicate Inv(net: Net, s: State) {
    forall i | 0 <= i < |s.tasks| :: TaskOk(net, s, i)
  }

  /** What a step keeps of a task, so that the tasks that refer to it stay well-formed. */
  ghost predicate SameRole(s: State, i: Id, t: Task)
    requires i < |s.tasks|
  {
    var before := s.tasks[i];
    && t.Lookup? == before.Lookup? && t.hop == before.hop
    && (before.Lookup? ==>
          || !before.stage.Racing?
          || (t.stage.Racing? && t.groups == before.groups)
          || (forall j | 0 <= j < |s.tasks| :: !OwnedBy(s.tasks[j], i)))
  }

  lemma InvUpdate(net: Net, s: State, i: Id, t: Task)
    requires Inv(net, s) && i < |s.tasks| && SameRole(s, i, t)
    requires TaskOk(net, s.(tasks := s.tasks[i := t]), i)
    ensures Inv(net, s.(tasks := s.tasks[i := t]))
  {
    var s' := s.(tasks := s.tasks[i := t]);
    forall j | 0 <= j < |s'.tasks|
      ensures TaskOk(net, s', j)
    {
      assert TaskOk(net, s, j);
    }
  }

  lemma InvAppend(net: Net, s: State, ts: seq<Task>)
    requires Inv(net, s)
    requires forall j | |s.tasks| <= j < |s.tasks| + |ts| ::
               TaskOk(net, s.(tasks := s.tasks + ts), j)
    ensures Inv(net, s.(tasks := s.tasks + ts))
  {
    var s' := s.(tasks := s.tasks + ts);
    forall j | 0 <= j < |s'.tasks|
      ensures TaskOk(net, s', j)
    {
      if j < |s.tasks| { assert TaskOk(net, s, j); }
    }
  }

  lemma InvAbort(net: Net, s: State, owner: Id)
    requires Inv(net, s)
    ensures Inv(net, s.(tasks := Abort(s.tasks, owner)))
    ensures forall j | 0 <= j < |s.tasks| :: !OwnedBy(Abort(s.tasks, owner)[j], owner)
  {
    var s' := s.(tasks := Abort(s.tasks, owner));
    forall j | 0 <= j < |s'.tasks|
      ensures TaskOk(net, s', j)
    {
      assert TaskOk(net, s, j);
    }
  }

  /** A step that changes the task `i` and nothing that other tasks refer to. */
  lemma InvOwnStep(net: Net, s: State, i: Id, s': State)
    requires Inv(net, s) && IsLookup(s, i) && |s'.tasks| == |s.tasks|
    requires s'.tasks == s.tasks[i := s'.tasks[i]] && SameRole(s, i, s'.tasks[i])
    requires s'.tasks[i].Lookup? && LookupOk(net, s.(tasks := s'.tasks), i)
    requires s'.tasks[i].http == s.tasks[i].http || !s'.tasks[i].http.Waiting?
    ensures Inv(net, s')
  {
    assert TaskOk(net, s, i);
    InvUpdate(net, s, i, s'.tasks[i]);
    InvTasksOnly(net, s.(tasks := s'.tasks), s');
  }

  /** The steps of reading the caches. */
  lemma InvReadingStep(net: Net, s: State, a: Action)
    requires Inv(net, s) && Enabled(net, s, a)
    requires a.Look? || a.Read? || a.Fetch? || a.Hit?
    ensures Inv(net, Apply(net, s, a))
  {
    assert TaskOk(net, s, a.i);
    InvOwnStep(net, s, a.i, Apply(net, s, a));
  }

  lemma InvMissStep(net: Net, s: State, a: Action)
    requires Inv(net, s) && a.Missed? && Enabled(net, s, a)
    ensures Inv(net, Apply(net, s, a))
  {
    assert TaskOk(net, s, a.i);
    InvOwnStep(net, s, a.i, Apply(net, s, a));
  }

  /** The steps of taking and giving up the lock and the permit. */
  lemma InvHoldStep(net: Net, s: State, a: Action)
    requires Inv(net, s) && Enabled(net, s, a)
    requires a.Lock? || a.Permit? || a.Cleanup? || a.Unlock?
    ensures Inv(net, Apply(net, s, a))
  {
    assert TaskOk(net, s, a.i);
    InvOwnStep(net, s, a.i, Apply(net, s, a));
  }

  lemma InvRaceStep(net: Net, s: State, a: Action)
    requires Inv(net, s) && Enabled(net, s, a)
    requires a.NextGroup? || a.Reject?
    ensures Inv(net, Apply(net, s, a))
  {
    assert TaskOk(net, s, a.i);
    InvOwnStep(net, s, a.i, Apply(net, s, a));
  }

  lemma InvEndStep(net: Net, s: State, a: Action)
    requires Inv(net, s) && Enabled(net, s, a)
    requires a.Accept? || a.Return?
    ensures Inv(net, Apply(net, s, a))
  {
    assert TaskOk(net, s, a.i);
    InvOwnStep(net, s, a.i, Apply(net, s, a));
  }

  lemma InvTasksOnly(net: Net, s: State, s': State)
    requires Inv(net, s) && s.tasks == s'.tasks
    ensures Inv(net, s')
  {
    forall j | 0 <= j < |s'.tasks| ensures TaskOk(net, s', j) { assert TaskOk(net, s, j); }
  }

  lemma InvAttemptStep(net: Net, s: State, a: Action)
    requires Inv(net, s) && Enabled(net, s, a)
    requires a.EnterGate? || a.Answer? || a.TimeOut?
    ensures Inv(net, Apply(net, s, a))
  {
    assert TaskOk(net, s, a.i);
    InvUpdate(net, s, a.i, Apply(net, s, a).tasks[a.i]);
  }

  /** A step that aborts the attempts of `i` and then changes it. */
  lemma InvAbortThen(net: Net, s: State, i: Id, s': State)
    requires Inv(net, s) && IsLookup(s, i) && |s'.tasks| == |s.tasks|
    requires s'.tasks == Abort(s.tasks, i)[i := s'.tasks[i]]
    requires s'.tasks[i].Lookup? && s'.tasks[i].hop == s.tasks[i].hop && s'.tasks[i].http.Idle?
    requires LookupOk(net, s.(tasks := s'.tasks), i)
    ensures Inv(net, s')
  {
    InvAbort(net, s, i);
    var s1 := s.(tasks := Abort(s.tasks, i));
    assert s1.tasks[i] == s.tasks[i];
    InvUpdate(net, s1, i, s'.tasks[i]);
    InvTasksOnly(net, s1.(tasks := s'.tasks), s');
  }

  lemma InvJoin(net: Net, s: State, a: Action)
    requires Inv(net, s) && a.Join? && Enabled(net, s, a)
    ensures Inv(net, Apply(net, s, a))
  {
    assert TaskOk(net, s, a.i) && TaskOk(net, s, a.a);
    if s.tasks[a.a].phase.reply.Winner? {
      InvAbortThen(net, s, a.i, Apply(net, s, a));
    } else {
      InvUpdate(net, s, a.a, Apply(net, s, a).tasks[a.a]);
    }
  }

  lemma InvDeadline(net: Net, s: State, a: Action)
    requires Inv(net, s) && a.Deadline? && Enabled(net, s, a)
    ensures Inv(net, Apply(net, s, a))
  {
    assert TaskOk(net, s, a.i);
    InvAbortThen(net, s, a.i, Apply(net, s, a));
  }

  lemma InvDrop(net: Net, s: State, a: Action)
    requires Inv(net, s) && a.Drop? && Enabled(net, s, a)
    ensures Inv(net, Apply(net, s, a))
  {
    assert TaskOk(net, s, a.i);
    InvAbortThen(net, s, a.i, Apply(net, s, a));
  }

  lemma InvStart(net: Net, s: State, i: Id)
    requires Inv(net, s) && Enabled(net, s, Start(i))
    ensures Inv(net, Apply(net, s, Start(i)))
  {
    var t := s.tasks[i].(stage := Racing);
    assert TaskOk(net, s, i);
    InvUpdate(net, s, i, t);
    InvAppend(net, s.(tasks := s.tasks[i := t]), NewAttempts(s.tasks[i], i, s.tasks[i].groups[0]));
  }

  lemma InvServe(net: Net, s: State, a: Action)
    requires Inv(net, s) && a.Serve? && Enabled(net, s, a)
    ensures Inv(net, Apply(net, s, a))
  {
    var s' := Apply(net, s, a);
    var n := |s.tasks|;
    var t := s.tasks[a.i];
    assert TaskOk(net, s, a.i);
    if t.Attempt? { assert TaskOk(net, s, t.owner); }
    var s1 := s.(tasks := s.tasks + [s'.tasks[n]]);
    InvAppend(net, s, [s'.tasks[n]]);
    assert TaskOk(net, s1, a.i);
    InvUpdate(net, s1, a.i, s'.tasks[a.i]);
    InvTasksOnly(net, s1.(tasks := s1.tasks[a.i := s'.tasks[a.i]]), s');
  }

  lemma InvStep(net: Net, s: State, a: Action)
    requires Inv(net, s) && Enabled(net, s, a)
    ensures Inv(net, Apply(net, s, a))
  {
    match a
    case Join(_, _) => InvJoin(net, s, a);
    case Deadline(_) => InvDeadline(net, s, a);
    case Drop(_) => InvDrop(net, s, a);
    case Start(i) => InvStart(net, s, i);
    case Serve(_, _) => InvServe(net, s, a);
    case Arrive(node, hash, hop, candidates) =>
      InvAppend(net, s, [NewLookup(node, hop, hash, candidates, None)]);
    case EnterGate(_) => InvAttemptStep(net, s, a);
    case Answer(_, _) => InvAttemptStep(net, s, a);
    case TimeOut(_) => InvAttemptStep(net, s, a);
    case Missed(_) => InvMissStep(net, s, a);
    case Accept(_) => InvEndStep(net, s, a);
    case Return(_, _) => InvEndStep(net, s, a);
    case NextGroup(_) => InvRaceStep(net, s, a);
    case Reject(_) => InvRaceStep(net, s, a);
    case Forget(_) => InvTasksOnly(net, s, Apply(net, s, a));
    case Store(_, _) => InvTasksOnly(net, s, Apply(net, s, a));
    case Lose(_) => InvTasksOnly(net, s, Apply(net, s, a));
    case _ => InvRest(net, s, a);
  }

  lemma InvRest(net: Net, s: State, a: Action)
    requires Inv(net, s) && Enabled(net, s, a)
    requires a.Look? || a.Read? || a.Fetch? || a.Hit? || a.Lock? || a.Permit? || a.Cleanup? || a.Unlock?
    ensures Inv(net, Apply(net, s, a))
  {
    if a.Lock? || a.Permit? || a.Cleanup? || a.Unlock? {
      InvHoldStep(net, s, a);
    } else {
      InvReadingStep(net, s, a);
    }
  }

  lemma {:induction false} InvRun(net: Net, s: State, run: seq<Action>)
    requires Inv(net, s) && IsRun(net, s, run)
    ensures Inv(net, After(net, s, run))
    decreases |run|
  {
    if run != [] {
      InvStep(net, s, run[0]);
      InvRun(net, Apply(net, s, run[0]), run[1..]);
    }
  }
}
