/** No reachable state of the lookup protocol is stuck. A task that waits for a
    lock, a permit, a gate or a reply waits for a task of higher priority, or for
    a later task of the same priority, so the chain of waits ends at a task that
    can move, whatever the peer graph. */
module Progress {
  import opened Wrappers
  import opened Protocol

  function HopRank(hop: Hop): nat {
    match hop
    case Client => 0
    case Peer => 1
    case PeerOfPeer => 2
  }

  function StageRank(t: Task): nat {
    match t
    case Lookup(_, _, _, _, stage, _, _, _, _, _) =>
      (match stage
       case Checking => 0
       case AwaitLock => 1
       case Rechecking => 2
       case AwaitPermit => 3
       case Choosing => 4
       case Racing => 5
       case Committing(_) => 6
       case Settled => 7
       case Leaving => 8
       case Done => 9)
    case Attempt(_, _, _, _, _, _, phase) => if phase.AwaitGate? then 10 else 11
  }

  function Rank(t: Task): nat {
    12 * HopRank(t.hop) + StageRank(t)
  }

  /** `i` is in a stage whose next step is `j`'s to allow. */
  ghost predicate BlockedOn(net: Net, s: State, i: Id, j: Id)
    requires i < |s.tasks| && j < |s.tasks|
  {
    var t := s.tasks[i];
    var b := s.tasks[j];
    || (t.http == Waiting(j) && Live(b))
    || (t.Lookup? && t.stage.AwaitLock? && t.lock.Some? && HoldsLock(b, t.lock.value))
    || (t.Lookup? && t.stage.AwaitPermit? && HoldsPermit(b, t.node))
    || (t.Lookup? && t.stage.Racing? && OwnedBy(b, i) && Live(b))
    || (t.Attempt? && t.phase.AwaitGate? && HoldsGate(net, b, t.node, t.url, t.hop))
  }

  /** Each ncro instance raises the hop, up to the one that never races. */
  lemma HopsRise(hop: Hop)
    ensures Received(hop) == (if hop.Client? then Peer else PeerOfPeer)
    ensures HopRank(hop) < HopRank(Received(hop)) || hop.PeerOfPeer?
  {
    assert "1"[0] != "2"[0];
  }

  lemma WaitsAreUpward(net: Net, s: State, i: Id, j: Id)
    requires Inv(net, s) && i < |s.tasks| && j < |s.tasks|
    requires net.gatesPerHop && BlockedOn(net, s, i, j)
    ensures Live(s.tasks[j])
    ensures Rank(s.tasks[j]) > Rank(s.tasks[i]) || (Rank(s.tasks[j]) == Rank(s.tasks[i]) && j > i)
  {
    assert TaskOk(net, s, i) && TaskOk(net, s, j);
    HopsRise(s.tasks[i].hop);
    if s.tasks[i].Attempt? { assert TaskOk(net, s, s.tasks[i].owner); }
  }

  lemma Member(ids: set<Id>, limit: nat) returns (i: Id)
    requires |ids| >= limit >= 1
    ensures i in ids
  {
    i :| i in ids;
  }

  /** A task whose request is out moves, or waits for the lookup that serves it. */
  lemma RequestMovesOrWaits(net: Net, s: State, i: Id) returns (a: Option<Action>, j: Id)
    requires ValidNet(net) && Inv(net, s) && i < |s.tasks| && Live(s.tasks[i])
    requires !s.tasks[i].http.Idle?
    ensures a.Some? ==> Enabled(net, s, a.value) && !IsEnvironment(a.value) && !Refetch(s, a.value)
    ensures a.None? ==> j < |s.tasks| && BlockedOn(net, s, i, j)
  {
    assert TaskOk(net, s, i);
    a, j := None, i;
    match s.tasks[i].http {
      case Sent(url) => a := Some(if url in net.owner then Serve(i, []) else Answer(i, Miss));
      case Waiting(child) => if s.tasks[child].stage.Done? { a := Some(Answer(i, Miss)); } else { j := child; }
    }
  }

  /** An attempt enters its gate, or waits for one that is inside. */
  lemma AttemptMovesOrWaits(net: Net, s: State, i: Id) returns (a: Option<Action>, j: Id)
    requires ValidNet(net) && Inv(net, s) && i < |s.tasks| && Live(s.tasks[i])
    requires s.tasks[i].Attempt? && s.tasks[i].http.Idle?
    ensures a.Some? ==> Enabled(net, s, a.value) && !IsEnvironment(a.value) && !Refetch(s, a.value)
    ensures a.None? ==> j < |s.tasks| && BlockedOn(net, s, i, j)
  {
    assert TaskOk(net, s, i);
    a, j := None, i;
    var t := s.tasks[i];
    var holders := GateHolders(net, s, t.node, t.url, t.hop);
    if |holders| < net.gateLimit(t.node) {
      a := Some(EnterGate(i));
    } else {
      j := Member(holders, net.gateLimit(t.node));
    }
  }

  /** A lookup gets its lock or its permit, or waits for a holder. */
  lemma AcquiresOrWaits(net: Net, s: State, i: Id) returns (a: Option<Action>, j: Id)
    requires ValidNet(net) && Inv(net, s) && i < |s.tasks| && Live(s.tasks[i])
    requires s.tasks[i].Lookup? && s.tasks[i].http.Idle?
    requires s.tasks[i].stage.AwaitLock? || s.tasks[i].stage.AwaitPermit?
    ensures a.Some? ==> Enabled(net, s, a.value) && !IsEnvironment(a.value) && !Refetch(s, a.value)
    ensures a.None? ==> j < |s.tasks| && BlockedOn(net, s, i, j)
  {
    assert TaskOk(net, s, i);
    a, j := None, i;
    var t := s.tasks[i];
    if t.stage.AwaitLock? {
      if h :| 0 <= h < |s.tasks| && HoldsLock(s.tasks[h], t.lock.value) {
        j := h;
      } else {
        a := Some(Lock(i));
      }
    } else {
      var holders := PermitHolders(s, t.node);
      if |holders| < net.raceLimit(t.node) {
        a := Some(Permit(i));
      } else {
        j := Member(holders, net.raceLimit(t.node));
      }
    }
  }

  /** A race joins an attempt, moves on, or waits for an unfinished attempt. */
  lemma RaceMovesOrWaits(net: Net, s: State, i: Id) returns (a: Option<Action>, j: Id)
    requires ValidNet(net) && Inv(net, s) && i < |s.tasks| && Live(s.tasks[i])
    requires s.tasks[i].Lookup? && s.tasks[i].stage.Racing?
    ensures a.Some? ==> Enabled(net, s, a.value) && !IsEnvironment(a.value) && !Refetch(s, a.value)
    ensures a.None? ==> j < |s.tasks| && BlockedOn(net, s, i, j)
  {
    assert TaskOk(net, s, i);
    a, j := None, i;
    if h :| 0 <= h < |s.tasks| && OwnedBy(s.tasks[h], i) {
      if s.tasks[h].phase.Finished? { a := Some(Join(i, h)); } else { j := h; }
    } else {
      a := Some(NextGroup(i));
    }
  }

  /** A lookup in any other stage needs nobody. */
  lemma LookupMoves(net: Net, s: State, i: Id) returns (a: Action)
    requires Inv(net, s) && i < |s.tasks| && Live(s.tasks[i])
    requires s.tasks[i].Lookup? && s.tasks[i].http.Idle? && !s.tasks[i].stage.Racing?
    requires !s.tasks[i].stage.AwaitLock? && !s.tasks[i].stage.AwaitPermit?
    ensures Enabled(net, s, a) && !IsEnvironment(a) && !Refetch(s, a)
  {
    assert TaskOk(net, s, i);
    var t := s.tasks[i];
    var reading := if !t.view.looked then Look(i) else if Answered(s, t) then Hit(i) else Missed(i);
    a := match t.stage
      case Choosing => if t.groups == [] then Return(i, false)
                       else if t.groups[0] == [] then NextGroup(i) else Start(i)
      case Committing(w) => if t.view.fetched then Reject(i) else Fetch(i, w)
      case Settled => Cleanup(i)
      case Leaving => Unlock(i)
      case _ => reading;
  }

  lemma MovesOrWaits(net: Net, s: State, i: Id) returns (a: Option<Action>, j: Id)
    requires ValidNet(net) && Inv(net, s) && i < |s.tasks| && Live(s.tasks[i])
    ensures a.Some? ==> Enabled(net, s, a.value) && !IsEnvironment(a.value) && !Refetch(s, a.value)
    ensures a.None? ==> j < |s.tasks| && BlockedOn(net, s, i, j)
  {
    var t := s.tasks[i];
    assert TaskOk(net, s, i);
    if !t.http.Idle? {
      a, j := RequestMovesOrWaits(net, s, i);
    } else if t.Attempt? {
      a, j := AttemptMovesOrWaits(net, s, i);
    } else if t.stage.Racing? {
      a, j := RaceMovesOrWaits(net, s, i);
    } else if t.stage.AwaitLock? || t.stage.AwaitPermit? {
      a, j := AcquiresOrWaits(net, s, i);
    } else {
      var m := LookupMoves(net, s, i);
      a, j := Some(m), i;
    }
  }

  /** Following the waits of a live task reaches one that can move. */
  lemma {:induction false} SomeoneMoves(net: Net, s: State, i: Id) returns (a: Action)
    requires ValidNet(net) && net.gatesPerHop
    requires Inv(net, s) && i < |s.tasks| && Live(s.tasks[i])
    ensures Enabled(net, s, a) && !IsEnvironment(a) && !Refetch(s, a)
    decreases 48 - Rank(s.tasks[i]), |s.tasks| - i
  {
    var m, j := MovesOrWaits(net, s, i);
    if m.Some? {
      a := m.value;
    } else {
      WaitsAreUpward(net, s, i, j);
      a := SomeoneMoves(net, s, j);
    }
  }

  /** Deadlock freedom: after any run from the empty network, with requests
      arriving, timing out and being cancelled at will, an unfinished lookup
      means that a step is enabled which is neither a timeout nor a
      cancellation nor a new request, nor a re-fetch at the last hop. */
  lemma DeadlockFree(net: Net, run: seq<Action>) returns (a: Action)
    requires ValidNet(net) && net.gatesPerHop && IsRun(net, Start0, run)
    requires Unfinished(After(net, Start0, run))
    ensures var s := After(net, Start0, run); Enabled(net, s, a) && !IsEnvironment(a) && !Refetch(s, a)
  {
    InvRun(net, Start0, run);
    var s := After(net, Start0, run);
    var i :| 0 <= i < |s.tasks| && s.tasks[i].Lookup? && Live(s.tasks[i]);
    a := SomeoneMoves(net, s, i);
  }
}
