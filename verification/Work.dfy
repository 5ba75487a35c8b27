/** How much work a lookup can cause. Every task gets a weight that covers the
    requests it may still send and the lookups those may start on other nodes,
    so that each step of the network lowers the total. */
module Work {
  import opened Wrappers
  import opened Protocol
  import opened Progress
  import SingleFlight
  import Effects = Steps

  // ---- Weights

  /** A group of `k` candidates: each race over it has at most one winner, and
      a rejected winner leaves at most k - 1 for the next. */
  function GroupWeight(k: nat, q: nat): nat {
    if k == 0 then 1 else GroupWeight(k - 1, q) + k * (q + 1) + q + 3
  }

  function GroupsWeight(groups: seq<seq<Url>>, q: nat): nat {
    if groups == [] then 0 else GroupWeight(|groups[0]|, q) + GroupsWeight(groups[1..], q)
  }

  /** A bound on the weight of a lookup that has just arrived at `hop`. */
  function Fresh(m: nat, hop: Hop): nat
    decreases 2 - HopRank(hop)
  {
    match hop
    case PeerOfPeer => 3
    case Peer => FreshRacing(m, Fresh(m, PeerOfPeer) + 3)
    case Client => FreshRacing(m, Fresh(m, Peer) + 3)
  }

  function FreshRacing(m: nat, q: nat): nat { 11 + 2 * q + m * GroupWeight(m, q) }

  /** What the right to send one request is worth at `hop`. */
  function Request(m: nat, hop: Hop): nat {
    3 + match hop case Client => Fresh(m, Peer) case _ => Fresh(m, PeerOfPeer)
  }

  function HttpWeight(m: nat, hop: Hop, http: Http): nat {
    match http
    case Idle => 0
    case Sent(_) => Request(m, hop) - 1
    case Waiting(_) => 1
  }

  /** What reading the caches may still take, besides a re-fetch. */
  function ViewWeight(view: View): nat {
    if !view.looked then 2 else if view.route.None? then 1 else 0
  }

  function StageWeight(m: nat, t: Task): nat
    requires t.Lookup?
  {
    var q := Request(m, t.hop);
    var fetch := if t.view.fetched then 0 else q;
    var view := ViewWeight(t.view);
    var rest := if t.groups == [] then 0 else GroupsWeight(t.groups[1..], q);
    var again := if t.groups == [] || t.groups[0] == [] then 0
                 else GroupWeight(|t.groups[0]| - 1, q);
    if t.hop.PeerOfPeer? && t.stage.Checking? then 1 + view
    else match t.stage
      case Checking => 9 + q + view + fetch + GroupsWeight(t.groups, q)
      case AwaitLock => 8 + q + GroupsWeight(t.groups, q)
      case Rechecking => 5 + view + fetch + GroupsWeight(t.groups, q)
      case AwaitPermit => 4 + GroupsWeight(t.groups, q)
      case Choosing => 3 + GroupsWeight(t.groups, q)
      case Racing => 5 + q + again + rest
      case Committing(_) => 4 + fetch + again + rest
      case Settled => 2
      case Leaving => 1
      case Done => 0
  }

  function Weight(m: nat, t: Task): nat {
    match t
    case Lookup(_, _, _, _, _, _, _, _, _, _) => StageWeight(m, t) + HttpWeight(m, t.hop, t.http)
    case Attempt(_, _, _, _, _, _, phase) =>
      match phase
      case AwaitGate => Request(m, t.hop) + 1
      case Head => 1 + HttpWeight(m, t.hop, t.http)
      case Finished(_) => 1
      case Gone => 0
  }

  /** All tasks together, each weighed by `w`. */
  function Sum(w: Task -> nat, tasks: seq<Task>): nat {
    if tasks == [] then 0 else w(tasks[0]) + Sum(w, tasks[1..])
  }

  function Each(m: nat): Task -> nat { (t: Task) => Weight(m, t) }

  function Total(m: nat, tasks: seq<Task>): nat { Sum(Each(m), tasks) }

  /** The weights of the tasks that may race, or work for a race. */
  function Upper(m: nat): Task -> nat { (t: Task) => if t.hop.PeerOfPeer? then 0 else Weight(m, t) }

  function UpperTotal(m: nat, tasks: seq<Task>): nat { Sum(Upper(m), tasks) }

  // ---- Sums

  lemma {:induction false} SumConcat(w: Task -> nat, a: seq<Task>, b: seq<Task>)
    ensures Sum(w, a + b) == Sum(w, a) + Sum(w, b)
  {
    if a == [] {
      assert a + b == b;
    } else {
      assert (a + b)[1..] == a[1..] + b;
      SumConcat(w, a[1..], b);
    }
  }

  lemma {:induction false} SumAtMost(v: Task -> nat, a: seq<Task>, w: Task -> nat, b: seq<Task>)
    requires |a| == |b| && forall j | 0 <= j < |a| :: v(a[j]) <= w(b[j])
    ensures Sum(v, a) <= Sum(w, b)
  {
    if a != [] { SumAtMost(v, a[1..], w, b[1..]); }
  }

  /** Replacing one task while no other gains weight. */
  lemma {:induction false} SumChange(w: Task -> nat, a: seq<Task>, b: seq<Task>, i: Id)
    requires |a| == |b| && i < |a|
    requires forall j | 0 <= j < |a| && j != i :: w(a[j]) <= w(b[j])
    ensures Sum(w, a) - w(a[i]) <= Sum(w, b) - w(b[i])
  {
    if i == 0 {
      SumAtMost(w, a[1..], w, b[1..]);
    } else {
      SumChange(w, a[1..], b[1..], i - 1);
    }
  }

  /** Replacing one task and adding others. */
  lemma SumGrows(w: Task -> nat, a: seq<Task>, kept: seq<Task>, added: seq<Task>, i: Id)
    requires |kept| == |a| && i < |a|
    requires forall j | 0 <= j < |a| && j != i :: w(kept[j]) <= w(a[j])
    ensures Sum(w, kept + added) + w(a[i]) <= Sum(w, a) + w(kept[i]) + Sum(w, added)
  {
    SumConcat(w, kept, added);
    SumChange(w, kept, a, i);
  }

  lemma {:induction false} SumOfEqual(w: Task -> nat, tasks: seq<Task>, each: nat)
    requires forall t <- tasks :: w(t) == each
    ensures Sum(w, tasks) == |tasks| * each
  {
    if tasks != [] {
      SumOfEqual(w, tasks[1..], each);
      Successor(|tasks| - 1, each);
    }
  }

  lemma Successor(n: nat, w: nat)
    ensures (n + 1) * w == n * w + w
  {
  }

  // ---- Fresh lookups

  lemma {:induction false} GroupWeightMonotone(k: nat, n: nat, q: nat)
    requires k <= n
    ensures GroupWeight(k, q) <= GroupWeight(n, q)
    decreases n - k
  {
    if k < n { GroupWeightMonotone(k + 1, n, q); }
  }

  lemma {:induction false} GroupsWeightBound(groups: seq<seq<Url>>, q: nat, w: nat)
    requires forall g <- groups :: GroupWeight(|g|, q) <= w
    ensures GroupsWeight(groups, q) <= |groups| * w
  {
    if groups != [] {
      assert groups[0] in groups;
      GroupsWeightBound(groups[1..], q, w);
      Successor(|groups| - 1, w);
    }
  }

  lemma FreshWeight(net: Net, node: Node, hop: Hop, hash: Hash, groups: seq<seq<Url>>,
                    parent: Option<Id>)
    requires ValidGroups(net, groups)
    ensures Weight(net.maxUpstreams, NewLookup(node, hop, hash, groups, parent))
            <= Fresh(net.maxUpstreams, hop)
  {
    var m := net.maxUpstreams;
    var q := Request(m, hop);
    forall g <- groups ensures GroupWeight(|g|, q) <= GroupWeight(m, q) {
      GroupWeightMonotone(|g|, m, q);
    }
    GroupsWeightBound(groups, q, GroupWeight(m, q));
    Product(|groups|, m, GroupWeight(m, q));
  }

  lemma Product(a: nat, b: nat, c: nat)
    requires a <= b
    ensures a * c <= b * c
  {
  }

  // ---- Every step is paid for

  /** The steps that the weights pay for: all but new requests, what happens to the
      caches by itself, and the re-fetches of lookups that may not race. */
  predicate Paid(s: State, a: Action) {
    HasActor(a) && !Refetch(s, a)
  }

  /** The task that gets lighter: an attempt that is joined without having won, or
      the task that takes the step. */
  predicate Pays(s: State, a: Action, p: Id) {
    && HasActor(a) && a.i < |s.tasks| && p < |s.tasks| && s.tasks[p].hop == s.tasks[a.i].hop
    && (p == a.i || (a.Join? && p == a.a))
  }

  /** One task gets lighter by more than all new tasks weigh, and no other heavier.
      The new tasks are at the payer's hop or at a later one. */
  predicate PaidBy(w: Task -> nat, s: State, a: Action, kept: seq<Task>, added: seq<Task>, p: Id) {
    && Pays(s, a, p) && |kept| == |s.tasks|
    && (forall j | 0 <= j < |kept| :: kept[j].hop == s.tasks[j].hop)
    && (forall j | 0 <= j < |kept| && j != p :: w(kept[j]) <= w(s.tasks[j]))
    && (forall t <- added :: HopRank(t.hop) >= HopRank(s.tasks[p].hop))
    && w(kept[p]) + Sum(w, added) < w(s.tasks[p])
  }

  ghost predicate IsPaid(net: Net, s: State, a: Action)
    requires Enabled(net, s, a)
  {
    exists kept, added, p ::
      PaidBy(Each(net.maxUpstreams), s, a, kept, added, p) && Apply(net, s, a).tasks == kept + added
  }

  lemma WithoutWeight(group: seq<Url>, url: Url, q: nat)
    requires url in group
    ensures GroupWeight(|Without(group, url)|, q) <= GroupWeight(|group| - 1, q)
  {
    GroupWeightMonotone(|Without(group, url)|, |group| - 1, q);
  }

  /** A step that changes nothing but the task that takes it. */
  lemma OwnStep(w: Task -> nat, s: State, a: Action, t: Task)
    requires HasActor(a) && a.i < |s.tasks| && t.hop == s.tasks[a.i].hop && w(t) < w(s.tasks[a.i])
    ensures PaidBy(w, s, a, s.tasks[a.i := t], [], a.i)
  {
  }

  lemma OwnStepIsPaid(net: Net, s: State, a: Action)
    requires Enabled(net, s, a) && HasActor(a) && a.i < |s.tasks| <= |Apply(net, s, a).tasks|
    requires var t := Apply(net, s, a).tasks[a.i];
             && Apply(net, s, a).tasks == s.tasks[a.i := t] && t.hop == s.tasks[a.i].hop
             && Weight(net.maxUpstreams, t) < Weight(net.maxUpstreams, s.tasks[a.i])
    ensures IsPaid(net, s, a)
  {
    OwnStep(Each(net.maxUpstreams), s, a, Apply(net, s, a).tasks[a.i]);
    assert Apply(net, s, a).tasks == Apply(net, s, a).tasks + [];
  }

  lemma ReadingIsPaid(net: Net, s: State, a: Action)
    requires Inv(net, s) && Enabled(net, s, a) && Paid(s, a)
    requires a.Look? || a.Read? || a.Fetch?
    ensures IsPaid(net, s, a)
  {
    assert TaskOk(net, s, a.i);
    OwnStepIsPaid(net, s, a);
  }

  lemma SettlingIsPaid(net: Net, s: State, a: Action)
    requires Inv(net, s) && Enabled(net, s, a) && Paid(s, a)
    requires a.Hit? || a.Accept? || a.Return?
    ensures IsPaid(net, s, a)
  {
    assert TaskOk(net, s, a.i);
    var t := s.tasks[a.i];
    assert Weight(net.maxUpstreams, Settle(t)) <= if t.lock.Some? then 2 else 0;
    OwnStepIsPaid(net, s, a);
  }

  lemma MissIsPaid(net: Net, s: State, a: Action)
    requires Inv(net, s) && Enabled(net, s, a) && Paid(s, a)
    requires a.Missed?
    ensures IsPaid(net, s, a)
  {
    assert TaskOk(net, s, a.i);
    OwnStepIsPaid(net, s, a);
  }

  lemma HoldingIsPaid(net: Net, s: State, a: Action)
    requires Inv(net, s) && Enabled(net, s, a) && Paid(s, a)
    requires a.Lock? || a.Permit? || a.Cleanup? || a.Unlock?
    ensures IsPaid(net, s, a)
  {
    assert TaskOk(net, s, a.i);
    OwnStepIsPaid(net, s, a);
  }

  lemma NextGroupIsPaid(net: Net, s: State, a: Action)
    requires Inv(net, s) && Enabled(net, s, a) && a.NextGroup?
    ensures IsPaid(net, s, a)
  {
    assert TaskOk(net, s, a.i);
    OwnStepIsPaid(net, s, a);
  }

  lemma RejectIsPaid(net: Net, s: State, a: Action)
    requires Inv(net, s) && Enabled(net, s, a) && a.Reject?
    ensures IsPaid(net, s, a)
  {
    var t := s.tasks[a.i];
    assert TaskOk(net, s, a.i);
    WithoutWeight(t.groups[0], t.stage.winner, Request(net.maxUpstreams, t.hop));
    assert Apply(net, s, a).tasks[a.i].groups[1..] == t.groups[1..];
    OwnStepIsPaid(net, s, a);
  }

  lemma EnteringIsPaid(net: Net, s: State, a: Action)
    requires Inv(net, s) && Enabled(net, s, a) && a.EnterGate?
    ensures IsPaid(net, s, a)
  {
    assert TaskOk(net, s, a.i);
    OwnStepIsPaid(net, s, a);
  }

  lemma ReplyIsPaid(net: Net, s: State, a: Action)
    requires Inv(net, s) && Enabled(net, s, a) && (a.Answer? || a.TimeOut?)
    ensures IsPaid(net, s, a)
  {
    assert TaskOk(net, s, a.i);
    var reply := if a.Answer? then a.reply else Broken;
    ReceivedWeight(net.maxUpstreams, s.tasks[a.i], reply);
    OwnStepIsPaid(net, s, a);
  }

  /** The end of a request gives its weight back. */
  lemma ReceivedWeight(m: nat, t: Task, reply: Reply)
    requires !t.http.Idle? && (t.Attempt? ==> t.phase.Head?)
    ensures Weight(m, Receive(t, reply)) < Weight(m, t)
  {
  }

  lemma AbortWeight(m: nat, t: Task, owner: Id)
    ensures Weight(m, AbortAttempt(t, owner)) <= Weight(m, t)
  {
  }

  lemma AbortStep(w: Task -> nat, s: State, a: Action, t: Task)
    requires HasActor(a) && a.i < |s.tasks| && t.hop == s.tasks[a.i].hop && w(t) < w(s.tasks[a.i])
    requires forall j | 0 <= j < |s.tasks| :: w(AbortAttempt(s.tasks[j], a.i)) <= w(s.tasks[j])
    ensures PaidBy(w, s, a, Abort(s.tasks, a.i)[a.i := t], [], a.i)
  {
  }

  /** A step that aborts the actor's attempts as well. */
  lemma AbortIsPaid(net: Net, s: State, a: Action, t: Task)
    requires Enabled(net, s, a) && HasActor(a) && IsLookup(s, a.i)
    requires Apply(net, s, a).tasks == Abort(s.tasks, a.i)[a.i := t] && t.hop == s.tasks[a.i].hop
    requires Weight(net.maxUpstreams, t) < Weight(net.maxUpstreams, s.tasks[a.i])
    ensures IsPaid(net, s, a)
  {
    var w := Each(net.maxUpstreams);
    forall j | 0 <= j < |s.tasks| ensures w(AbortAttempt(s.tasks[j], a.i)) <= w(s.tasks[j]) {
      AbortWeight(net.maxUpstreams, s.tasks[j], a.i);
    }
    AbortStep(w, s, a, t);
    assert Apply(net, s, a).tasks == Apply(net, s, a).tasks + [];
  }

  /** A step that ends one of the actor's attempts. */
  lemma JoinStep(w: Task -> nat, s: State, a: Action, t: Task)
    requires a.Join? && a.i < |s.tasks| && a.a < |s.tasks| && s.tasks[a.a].hop == s.tasks[a.i].hop
    requires t.hop == s.tasks[a.a].hop && w(t) < w(s.tasks[a.a])
    ensures PaidBy(w, s, a, s.tasks[a.a := t], [], a.a)
  {
  }

  lemma JoinIsPaid(net: Net, s: State, a: Action)
    requires Inv(net, s) && Enabled(net, s, a) && a.Join?
    ensures IsPaid(net, s, a)
  {
    assert TaskOk(net, s, a.i) && TaskOk(net, s, a.a);
    if s.tasks[a.a].phase.reply.Winner? {
      AbortIsPaid(net, s, a, Apply(net, s, a).tasks[a.i]);
    } else {
      JoinStep(Each(net.maxUpstreams), s, a, Apply(net, s, a).tasks[a.a]);
      assert Apply(net, s, a).tasks == Apply(net, s, a).tasks + [];
    }
  }

  lemma DeadlineIsPaid(net: Net, s: State, a: Action)
    requires Inv(net, s) && Enabled(net, s, a) && a.Deadline?
    ensures IsPaid(net, s, a)
  {
    assert TaskOk(net, s, a.i);
    AbortIsPaid(net, s, a, Apply(net, s, a).tasks[a.i]);
  }

  lemma DropIsPaid(net: Net, s: State, a: Action)
    requires Inv(net, s) && Enabled(net, s, a) && a.Drop?
    ensures IsPaid(net, s, a)
  {
    assert TaskOk(net, s, a.i);
    AbortIsPaid(net, s, a, Apply(net, s, a).tasks[a.i]);
  }

  lemma RacingWeight(m: nat, t: Task)
    requires t.Lookup? && t.stage.Choosing? && t.http.Idle? && t.groups != [] && t.groups[0] != []
    ensures Weight(m, t.(stage := Racing)) + |t.groups[0]| * (Request(m, t.hop) + 1) < Weight(m, t)
  {
  }

  /** A step that makes new tasks. */
  lemma GrowingStep(w: Task -> nat, s: State, a: Action, t: Task, added: seq<Task>)
    requires HasActor(a) && a.i < |s.tasks| && t.hop == s.tasks[a.i].hop
    requires forall x <- added :: HopRank(x.hop) >= HopRank(t.hop)
    requires w(t) + Sum(w, added) < w(s.tasks[a.i])
    ensures PaidBy(w, s, a, s.tasks[a.i := t], added, a.i)
  {
  }

  lemma StartIsPaid(net: Net, s: State, a: Action)
    requires Inv(net, s) && Enabled(net, s, a) && a.Start?
    ensures IsPaid(net, s, a)
  {
    var m, t := net.maxUpstreams, s.tasks[a.i];
    assert TaskOk(net, s, a.i);
    var attempts := NewAttempts(t, a.i, t.groups[0]);
    SumOfEqual(Each(m), attempts, Request(m, t.hop) + 1);
    RacingWeight(m, t);
    GrowingStep(Each(m), s, a, t.(stage := Racing), attempts);
  }

  /** The lookup that a request starts on its peer weighs less than the request. */
  lemma ChildWeight(net: Net, s: State, a: Action)
    requires Inv(net, s) && a.Serve? && Enabled(net, s, a)
    ensures var t := s.tasks[a.i];
            Weight(net.maxUpstreams, Served(net, s, a)) + 3 <= Request(net.maxUpstreams, t.hop)
  {
    var t := s.tasks[a.i];
    HopsRise(t.hop);
    FreshWeight(net, net.owner[t.http.url], Received(t.hop), t.hash, a.candidates,
                Some(if t.Lookup? then a.i else t.owner));
  }

  function Served(net: Net, s: State, a: Action): Task
    requires a.Serve? && Enabled(net, s, a)
  {
    var t := s.tasks[a.i];
    NewLookup(net.owner[t.http.url], Received(t.hop), t.hash, a.candidates,
              Some(if t.Lookup? then a.i else t.owner))
  }

  lemma WaitingWeight(m: nat, t: Task, child: Id)
    requires t.http.Sent? && (t.Attempt? ==> t.phase.Head?)
    ensures Weight(m, t.(http := Waiting(child))) + Request(m, t.hop) == Weight(m, t) + 2
  {
  }

  lemma ServeIsPaid(net: Net, s: State, a: Action)
    requires Inv(net, s) && Enabled(net, s, a) && a.Serve?
    ensures IsPaid(net, s, a)
  {
    var m := net.maxUpstreams;
    var t, child := s.tasks[a.i], Served(net, s, a);
    assert TaskOk(net, s, a.i);
    var waiting := t.(http := Waiting(|s.tasks|));
    assert Apply(net, s, a).tasks == s.tasks[a.i := waiting] + [child];
    HopsRise(t.hop);
    WaitingWeight(m, t, |s.tasks|);
    ChildWeight(net, s, a);
    SumOfEqual(Each(m), [child], Weight(m, child));
    GrowingStep(Each(m), s, a, waiting, [child]);
  }

  lemma StepIsPaid(net: Net, s: State, a: Action)
    requires Inv(net, s) && Enabled(net, s, a) && Paid(s, a)
    ensures IsPaid(net, s, a)
  {
    match a
    case Look(_) | Read(_) | Fetch(_, _) => ReadingIsPaid(net, s, a);
    case Missed(_) => MissIsPaid(net, s, a);
    case Hit(_) | Accept(_) | Return(_, _) => SettlingIsPaid(net, s, a);
    case NextGroup(_) => NextGroupIsPaid(net, s, a);
    case Reject(_) => RejectIsPaid(net, s, a);
    case Join(_, _) => JoinIsPaid(net, s, a);
    case Start(_) => StartIsPaid(net, s, a);
    case EnterGate(_) => EnteringIsPaid(net, s, a);
    case Answer(_, _) | TimeOut(_) => ReplyIsPaid(net, s, a);
    case Serve(_, _) => ServeIsPaid(net, s, a);
    case Deadline(_) => DeadlineIsPaid(net, s, a);
    case Drop(_) => DropIsPaid(net, s, a);
    case _ => HoldingIsPaid(net, s, a);
  }

  lemma PaidStepIsLighter(net: Net, s: State, a: Action)
    requires Inv(net, s) && Enabled(net, s, a) && Paid(s, a)
    ensures Total(net.maxUpstreams, Apply(net, s, a).tasks) < Total(net.maxUpstreams, s.tasks)
  {
    StepIsPaid(net, s, a);
    var w := Each(net.maxUpstreams);
    var kept, added, p :| PaidBy(w, s, a, kept, added, p) && Apply(net, s, a).tasks == kept + added;
    SumGrows(w, s.tasks, kept, added, p);
  }

  /** A task that may race, or works for a race, takes the step. */
  predicate ByUpper(s: State, a: Action) {
    HasActor(a) && a.i < |s.tasks| && !s.tasks[a.i].hop.PeerOfPeer?
  }

  lemma UpperAtMost(m: nat, t: Task, t': Task)
    requires t'.hop == t.hop && Each(m)(t') <= Each(m)(t)
    ensures Upper(m)(t') <= Upper(m)(t)
  {
  }

  lemma UpperSum(m: nat, s: State, a: Action, kept: seq<Task>, added: seq<Task>, p: Id)
    requires PaidBy(Each(m), s, a, kept, added, p)
    ensures (if ByUpper(s, a) then 1 else 0) + UpperTotal(m, kept + added) <= UpperTotal(m, s.tasks)
  {
    var u := Upper(m);
    forall j | 0 <= j < |kept| && j != p ensures u(kept[j]) <= u(s.tasks[j]) {
      UpperAtMost(m, s.tasks[j], kept[j]);
    }
    SumGrows(u, s.tasks, kept, added, p);
    AddedAreUpper(m, s.tasks[p], added);
  }

  lemma AddedAreUpper(m: nat, t: Task, added: seq<Task>)
    requires forall x <- added :: HopRank(x.hop) >= HopRank(t.hop)
    ensures UpperTotal(m, added) <= if t.hop.PeerOfPeer? then 0 else Total(m, added)
  {
    if t.hop.PeerOfPeer? {
      SumOfEqual(Upper(m), added, 0);
    } else {
      SumAtMost(Upper(m), added, Each(m), added);
    }
  }

  /** What is done at the last hop adds nothing to what the others may still do. */
  lemma UpperStepIsLighter(net: Net, s: State, a: Action)
    requires Inv(net, s) && Enabled(net, s, a) && Paid(s, a)
    ensures (if ByUpper(s, a) then 1 else 0) + UpperTotal(net.maxUpstreams, Apply(net, s, a).tasks)
            <= UpperTotal(net.maxUpstreams, s.tasks)
  {
    StepIsPaid(net, s, a);
    var m := net.maxUpstreams;
    var kept, added, p :| PaidBy(Each(m), s, a, kept, added, p) && Apply(net, s, a).tasks == kept + added;
    UpperSum(m, s, a, kept, added, p);
  }

  // ---- Whole runs

  /** What one request from outside can cost the whole network, in steps. */
  function RequestCost(net: Net): nat {
    Fresh(net.maxUpstreams, Client) + Fresh(net.maxUpstreams, Peer)
    + Fresh(net.maxUpstreams, PeerOfPeer)
  }

  /** The re-fetches of a run by lookups that may not race. */
  ghost function Refetches(net: Net, s: State, run: seq<Action>): nat
    requires IsRun(net, s, run)
    decreases |run|
  {
    if run == [] then 0
    else (if Refetch(s, run[0]) then 1 else 0) + Refetches(net, Apply(net, s, run[0]), run[1..])
  }

  function Arrivals(run: seq<Action>): nat {
    if run == [] then 0 else (if run[0].Arrive? then 1 else 0) + Arrivals(run[1..])
  }

  function Steps(run: seq<Action>): nat {
    if run == [] then 0 else (if HasActor(run[0]) then 1 else 0) + Steps(run[1..])
  }

  /** The steps of the tasks that may race, or work for a race. */
  ghost function UpperSteps(net: Net, s: State, run: seq<Action>): nat
    requires IsRun(net, s, run)
    decreases |run|
  {
    if run == [] then 0
    else (if ByUpper(s, run[0]) then 1 else 0) + UpperSteps(net, Apply(net, s, run[0]), run[1..])
  }

  /** Sending one request at the last hop adds what its reply may take there. */
  lemma RefetchCosts(net: Net, s: State, a: Action)
    requires Inv(net, s) && Enabled(net, s, a) && Refetch(s, a)
    ensures Total(net.maxUpstreams, Apply(net, s, a).tasks) <= Total(net.maxUpstreams, s.tasks) + 5
    ensures UpperTotal(net.maxUpstreams, Apply(net, s, a).tasks) <= UpperTotal(net.maxUpstreams, s.tasks)
  {
    var m, t := net.maxUpstreams, s.tasks[a.i];
    assert TaskOk(net, s, a.i);
    var sent := t.(http := Sent(a.url), view := t.view.(fetched := true));
    assert Weight(m, sent) <= Weight(m, t) + 5;
    SumChange(Each(m), s.tasks[a.i := sent], s.tasks, a.i);
    SumChange(Upper(m), s.tasks[a.i := sent], s.tasks, a.i);
  }

  lemma ArrivalCosts(net: Net, s: State, a: Action)
    requires a.Arrive? && Enabled(net, s, a)
    ensures Total(net.maxUpstreams, Apply(net, s, a).tasks)
            <= Total(net.maxUpstreams, s.tasks) + RequestCost(net)
    ensures UpperTotal(net.maxUpstreams, Apply(net, s, a).tasks)
            <= UpperTotal(net.maxUpstreams, s.tasks) + RequestCost(net)
  {
    var m, t := net.maxUpstreams, NewLookup(a.node, a.hop, a.hash, a.candidates, None);
    SumConcat(Each(m), s.tasks, [t]);
    SumConcat(Upper(m), s.tasks, [t]);
    FreshWeight(net, a.node, a.hop, a.hash, a.candidates, None);
    SumOfEqual(Each(m), [t], Each(m)(t));
    SumOfEqual(Upper(m), [t], Upper(m)(t));
  }

  lemma StepCosts(net: Net, s: State, a: Action)
    requires Inv(net, s) && Enabled(net, s, a)
    ensures (if HasActor(a) then 1 else 0) + Total(net.maxUpstreams, Apply(net, s, a).tasks)
            <= Total(net.maxUpstreams, s.tasks) + (if a.Arrive? then RequestCost(net) else 0)
               + (if Refetch(s, a) then 6 else 0)
  {
    if a.Arrive? {
      ArrivalCosts(net, s, a);
    } else if Refetch(s, a) {
      RefetchCosts(net, s, a);
    } else if !IsCacheEvent(a) {
      PaidStepIsLighter(net, s, a);
    }
  }

  /** Bounded work: over any peer graph, cyclic or not, the steps of any run are at
      most a fixed cost for each request that arrived from outside, and a small one
      for each last-hop re-fetch. */
  lemma {:induction false} FanOutIsBounded(net: Net, s: State, run: seq<Action>)
    requires Inv(net, s) && IsRun(net, s, run)
    ensures Steps(run) + Total(net.maxUpstreams, After(net, s, run).tasks)
            <= Total(net.maxUpstreams, s.tasks) + Arrivals(run) * RequestCost(net) + 6 * Refetches(net, s, run)
    decreases |run|
  {
    if run != [] {
      InvStep(net, s, run[0]);
      StepCosts(net, s, run[0]);
      FanOutIsBounded(net, Apply(net, s, run[0]), run[1..]);
      Successor(Arrivals(run[1..]), RequestCost(net));
    }
  }

  lemma UpperStepCosts(net: Net, s: State, a: Action)
    requires Inv(net, s) && Enabled(net, s, a)
    ensures (if ByUpper(s, a) then 1 else 0) + UpperTotal(net.maxUpstreams, Apply(net, s, a).tasks)
            <= UpperTotal(net.maxUpstreams, s.tasks) + (if a.Arrive? then RequestCost(net) else 0)
  {
    if a.Arrive? {
      ArrivalCosts(net, s, a);
    } else if Refetch(s, a) {
      RefetchCosts(net, s, a);
    } else if !IsCacheEvent(a) {
      UpperStepIsLighter(net, s, a);
    }
  }

  /** Bounded fan-out: whatever is re-fetched at the last hop, all steps before it,
      and so all races with all that is done for them there, are at most a fixed
      number for each request from outside. */
  lemma {:induction false} RacingIsBounded(net: Net, s: State, run: seq<Action>)
    requires Inv(net, s) && IsRun(net, s, run)
    ensures UpperSteps(net, s, run) + UpperTotal(net.maxUpstreams, After(net, s, run).tasks)
            <= UpperTotal(net.maxUpstreams, s.tasks) + Arrivals(run) * RequestCost(net)
    decreases |run|
  {
    if run != [] {
      InvStep(net, s, run[0]);
      UpperStepCosts(net, s, run[0]);
      RacingIsBounded(net, Apply(net, s, run[0]), run[1..]);
      var rest := Arrivals(run[1..]);
      Successor(rest, RequestCost(net));
      assert Arrivals(run) == rest + if run[0].Arrive? then 1 else 0;
    }
  }

  /** The lookups that have raced so far. */
  function Raced(s: State): set<Id> {
    set i | 0 <= i < |s.tasks| && s.tasks[i].Lookup? && s.tasks[i].raced
  }

  /** Only a step before the last hop makes a lookup one that has raced. */
  lemma RacedBy(net: Net, s: State, a: Action, j: Id)
    requires Inv(net, s) && Enabled(net, s, a) && j in Raced(Apply(net, s, a)) && j !in Raced(s)
    ensures ByUpper(s, a) && j == a.i
  {
    Effects.StepSummary(net, s, a);
    if j < |s.tasks| { assert TaskOk(net, s, j); }
    NewlyRaced(s, a, Apply(net, s, a), j);
  }

  lemma NewlyRaced(s: State, a: Action, s': State, j: Id)
    requires Effects.TasksStep(s, a, s') && j in Raced(s') && j !in Raced(s)
    requires j < |s.tasks| && s.tasks[j].Lookup? ==> (NeedsLock(s.tasks[j].stage) ==> s.tasks[j].hop.Client?)
    ensures ByUpper(s, a) && j == a.i
  {
  }

  lemma RacedStep(net: Net, s: State, a: Action)
    requires Inv(net, s) && Enabled(net, s, a)
    ensures |Raced(Apply(net, s, a))| <= |Raced(s)| + if ByUpper(s, a) then 1 else 0
  {
    var before, after := Raced(s), Raced(Apply(net, s, a));
    forall j | j in after && j !in before ensures ByUpper(s, a) && j == a.i {
      RacedBy(net, s, a, j);
    }
    SingleFlight.SubsetSize(after, if ByUpper(s, a) then before + {a.i} else before);
  }

  lemma {:induction false} RacedRun(net: Net, s: State, run: seq<Action>)
    requires Inv(net, s) && IsRun(net, s, run)
    ensures |Raced(After(net, s, run))| <= |Raced(s)| + UpperSteps(net, s, run)
    decreases |run|
  {
    if run != [] {
      InvStep(net, s, run[0]);
      RacedStep(net, s, run[0]);
      RacedRun(net, Apply(net, s, run[0]), run[1..]);
    }
  }

  /** From the empty network: at most a fixed number of steps before the last hop for
      each request from outside, and of all steps but for re-fetches at the last hop. */
  lemma RequestsAreBounded(net: Net, run: seq<Action>)
    requires IsRun(net, Start0, run)
    ensures UpperSteps(net, Start0, run) <= Arrivals(run) * RequestCost(net)
    ensures Steps(run) <= Arrivals(run) * RequestCost(net) + 6 * Refetches(net, Start0, run)
  {
    RacingIsBounded(net, Start0, run);
    FanOutIsBounded(net, Start0, run);
  }

  /** So, over any peer graph and any run, at most a fixed number of lookups race for
      each request from outside: whoever is in a race has been marked. */
  lemma RacesAreBounded(net: Net, run: seq<Action>)
    requires IsRun(net, Start0, run)
    ensures |Raced(After(net, Start0, run))| <= Arrivals(run) * RequestCost(net)
  {
    RacedRun(net, Start0, run);
    RequestsAreBounded(net, run);
  }

  // ---- Completion

  /** Left alone, the network finishes every lookup: from any state that a run
      can reach, steps that need no timeout, cancellation or new request lead to
      a state with no unfinished lookup. */
  lemma {:induction false} EveryLookupCompletes(net: Net, s: State) returns (run: seq<Action>)
    requires ValidNet(net) && net.gatesPerHop && Inv(net, s)
    ensures IsRun(net, s, run) && !Unfinished(After(net, s, run))
    ensures forall a <- run :: !IsEnvironment(a)
    ensures |run| <= Total(net.maxUpstreams, s.tasks)
    decreases Total(net.maxUpstreams, s.tasks)
  {
    if Unfinished(s) {
      var i :| 0 <= i < |s.tasks| && s.tasks[i].Lookup? && Live(s.tasks[i]);
      var a := SomeoneMoves(net, s, i);
      InvStep(net, s, a);
      PaidStepIsLighter(net, s, a);
      var rest := EveryLookupCompletes(net, Apply(net, s, a));
      run := [a] + rest;
      assert run[1..] == rest;
    } else {
      run := [];
    }
  }

  /** Nothing is left to do but re-fetches at the last hop and what comes from outside. */
  ghost predicate Quiet(net: Net, s: State) {
    forall a | Enabled(net, s, a) :: IsEnvironment(a) || Refetch(s, a)
  }

  lemma QuietIsDone(net: Net, s: State)
    requires ValidNet(net) && net.gatesPerHop && Inv(net, s) && Quiet(net, s)
    ensures !Unfinished(s)
  {
    if Unfinished(s) {
      var i :| 0 <= i < |s.tasks| && s.tasks[i].Lookup? && Live(s.tasks[i]);
      var a := SomeoneMoves(net, s, i);
    }
  }

  lemma {:induction false} AllAreSteps(run: seq<Action>)
    requires forall a <- run :: !IsEnvironment(a)
    ensures Steps(run) == |run| && Arrivals(run) == 0
  {
    if run != [] {
      assert run[0] in run;
      AllAreSteps(run[1..]);
    }
  }

  /** However a run went, once the network has nothing else to do every lookup is done. */
  lemma QuietEnds(net: Net, s: State, run: seq<Action>)
    requires ValidNet(net) && net.gatesPerHop && Inv(net, s) && IsRun(net, s, run)
    ensures Quiet(net, After(net, s, run)) ==> !Unfinished(After(net, s, run))
  {
    InvRun(net, s, run);
    var last := After(net, s, run);
    if Quiet(net, last) { QuietIsDone(net, last); }
  }

  /** And whatever is scheduled: a run that is left alone has no more steps than there
      is weight, but for re-fetches at the last hop, and once it has nothing else to do
      every lookup is done. */
  lemma EveryScheduleCompletes(net: Net, s: State, run: seq<Action>)
    requires ValidNet(net) && net.gatesPerHop && Inv(net, s) && IsRun(net, s, run)
    requires forall a <- run :: !IsEnvironment(a)
    ensures |run| <= Total(net.maxUpstreams, s.tasks) + 6 * Refetches(net, s, run)
    ensures Quiet(net, After(net, s, run)) ==> !Unfinished(After(net, s, run))
  {
    AllAreSteps(run);
    FanOutIsBounded(net, s, run);
    QuietEnds(net, s, run);
  }
}
