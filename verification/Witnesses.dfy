/** What the gates are split by hop for: with one gate per upstream, two nodes that
    are each other's upstream can wait for each other. */
module Witnesses {
  import opened Wrappers
  import opened Protocol
  import opened Progress
  import opened Runs

  /** Two nodes that are each other's only upstream, with one permit each and
      one gate per upstream instead of one per (upstream, hop). */
  const SharedGates := Net(map[0 := 0, 1 := 1], (n: Node) => 1, (n: Node) => 1, 1, false)

  function At(node: Node, hop: Hop, lock: Option<Id>, stage: Stage, parent: Option<Id>): Task
    requires node <= 1
  {
    Lookup(node, hop, Idle, 0, stage, Nothing, lock, [[1 - node]], InRace(stage), parent)
  }

  function Asking(node: Node, hop: Hop, owner: Id, http: Http): Task
    requires node <= 1
  {
    Attempt(node, hop, http, 0, owner, 1 - node, if http.Idle? then AwaitGate else Head)
  }

  ghost predicate Reached(run: seq<Action>, s: State) { Reaches(SharedGates, Start0, run, s) }

  lemma ClientGetsPermit(run0: seq<Action>, s0: State, node: Node) returns (run: seq<Action>, s: State)
    requires Reached(run0, s0) && node <= 1 && (node, 0) !in s0.inflight && s0.cache == map[]
    requires forall t <- s0.tasks :: !HoldsLock(t, |s0.tasks|) && !HoldsPermit(t, node)
    ensures Reached(run, s)
    ensures s == s0.(tasks := s0.tasks + [At(node, Client, Some(|s0.tasks|), Choosing, None)],
                     inflight := s0.inflight[(node, 0) := |s0.tasks|])
  {
    var i := |s0.tasks|;
    run, s := NewcomerWaits(SharedGates, Start0, run0, s0, node, 0, [[1 - node]]);
    assert PermitHolders(s, node) == {};
    run, s := WaiterRaces(SharedGates, Start0, run, s, i);
  }

  /** The client's only candidate is asked: its attempt is inside the gate. */
  lemma ClientAsks(run0: seq<Action>, s0: State, i: Id, node: Node) returns (run: seq<Action>, s: State)
    requires Reached(run0, s0) && node <= 1 && |s0.tasks| == i + 1
    requires s0.tasks[i] == At(node, Client, Some(i), Choosing, None)
    requires GateHolders(SharedGates, s0, node, 1 - node, Client) == {}
    ensures Reached(run, s)
    ensures s == s0.(tasks := s0.tasks[i := At(node, Client, Some(i), Racing, None)]
                              + [Asking(node, Client, i, Sent(1 - node))])
  {
    run, s := Extend(SharedGates, Start0, run0, s0, Start(i));
    assert s.tasks[i + 1] == Asking(node, Client, i, Idle);
    assert GateHolders(SharedGates, s, node, 1 - node, Client) == {};
    run, s := Extend(SharedGates, Start0, run, s, EnterGate(i + 1));
    assert s.tasks == s0.tasks[i := At(node, Client, Some(i), Racing, None)]
                      + [Asking(node, Client, i, Sent(1 - node))];
  }

  lemma BothClientsAsk() returns (run: seq<Action>, s: State)
    ensures Reached(run, s)
    ensures s == State([At(0, Client, Some(0), Racing, None), Asking(0, Client, 0, Sent(1)),
                        At(1, Client, Some(2), Racing, None), Asking(1, Client, 2, Sent(0))],
                       map[(0, 0) := 0, (1, 0) := 2], map[], 0, map[])
  {
    run, s := ClientGetsPermit([], Start0, 0);
    assert GateHolders(SharedGates, s, 0, 1, Client) == {};
    run, s := ClientAsks(run, s, 0, 0);
    run, s := ClientGetsPermit(run, s, 1);
    assert GateHolders(SharedGates, s, 1, 0, Client) == {};
    run, s := ClientAsks(run, s, 2, 1);
  }

  const Stuck := [At(0, Client, Some(0), Racing, None), Asking(0, Client, 0, Waiting(4)),
                  At(1, Client, Some(2), Racing, None), Asking(1, Client, 2, Waiting(6)),
                  At(1, Peer, None, Racing, Some(0)), Asking(1, Peer, 4, Idle),
                  At(0, Peer, None, Racing, Some(2)), Asking(0, Peer, 6, Idle)]

  /** The peer that serves attempt `i` misses and starts its own race. */
  lemma PeerAsks(run0: seq<Action>, s0: State, i: Id, node: Node)
    returns (run: seq<Action>, s: State)
    requires Reached(run0, s0) && node <= 1 && s0.cache == map[] && i < |s0.tasks|
    requires s0.tasks[i].Attempt? && s0.tasks[i].http == Sent(node)
    requires s0.tasks[i].hop.Client? && s0.tasks[i].hash == 0
    ensures Reached(run, s)
    ensures s == s0.(tasks := s0.tasks[i := s0.tasks[i].(http := Waiting(|s0.tasks|))]
                        + [At(node, Peer, None, Racing, Some(s0.tasks[i].owner)),
                           Asking(node, Peer, |s0.tasks|, Idle)])
  {
    var n := |s0.tasks|;
    HopsRise(Client);
    run, s := Extend(SharedGates, Start0, run0, s0, Serve(i, [[1 - node]]));
    var child := NewLookup(node, Peer, 0, [[1 - node]], Some(s0.tasks[i].owner));
    assert s.tasks == s0.tasks[i := s0.tasks[i].(http := Waiting(n), phase := s0.tasks[i].phase)] + [child];
    run, s := PeerRaces(SharedGates, Start0, run, s, n);
    run, s := Extend(SharedGates, Start0, run, s, Start(n));
    assert s.tasks == s0.tasks[i := s0.tasks[i].(http := Waiting(n), phase := s0.tasks[i].phase)]
                      + [At(node, Peer, None, Racing, Some(s0.tasks[i].owner)), Asking(node, Peer, n, Idle)];
  }

  lemma BothPeersAsk() returns (run: seq<Action>, s: State)
    ensures Reached(run, s)
    ensures s.tasks == Stuck
  {
    run, s := BothClientsAsk();
    run, s := PeerAsks(run, s, 1, 1);
    run, s := PeerAsks(run, s, 3, 0);
  }

  /** What the split of the gates is for: with one gate per upstream, two nodes
      that race each other's clients reach a state from which only timeouts,
      cancellations and new requests lead on. */
  lemma SharedGatesDeadlock() returns (run: seq<Action>, s: State)
    ensures Reached(run, s)
    ensures Unfinished(s)
    ensures forall a | Enabled(SharedGates, s, a) :: IsEnvironment(a)
  {
    run, s := BothPeersAsk();
    assert s.tasks[0].Lookup? && Live(s.tasks[0]);
    var at10, at01 := GateHolders(SharedGates, s, 1, 0, Peer), GateHolders(SharedGates, s, 0, 1, Peer);
    assert 3 in at10 && 1 in at01;
    assert at10 != {} && at01 != {};
    forall a | Enabled(SharedGates, s, a) && !IsEnvironment(a)
      ensures false
    {
      assert OwnedBy(s.tasks[1], 0) && OwnedBy(s.tasks[3], 2);
      assert OwnedBy(s.tasks[5], 4) && OwnedBy(s.tasks[7], 6);
    }
  }
}
