/** Runs of the lookup protocol, put together from what a lookup does when the
    caches have nothing. */
module Runs {
  import opened Wrappers
  import opened Protocol

  lemma {:induction false} Then(net: Net, s: State, run: seq<Action>, a: Action)
    requires IsRun(net, s, run) && Enabled(net, After(net, s, run), a)
    ensures IsRun(net, s, run + [a])
    ensures After(net, s, run + [a]) == Apply(net, After(net, s, run), a)
    decreases |run|
  {
    if run == [] {
      assert run + [a] == [a];
    } else {
      assert (run + [a])[0] == run[0] && (run + [a])[1..] == run[1..] + [a];
      Then(net, Apply(net, s, run[0]), run[1..], a);
    }
  }

  lemma {:induction false} Compose(net: Net, s: State, a: seq<Action>, b: seq<Action>)
    requires IsRun(net, s, a) && IsRun(net, After(net, s, a), b)
    ensures IsRun(net, s, a + b) && After(net, s, a + b) == After(net, After(net, s, a), b)
    decreases |a|
  {
    if a == [] {
      assert a + b == b;
    } else {
      assert (a + b)[0] == a[0] && (a + b)[1..] == a[1..] + b;
      Compose(net, Apply(net, s, a[0]), a[1..], b);
    }
  }

  ghost predicate Reaches(net: Net, start: State, run: seq<Action>, s: State) {
    IsRun(net, start, run) && After(net, start, run) == s
  }

  /** One more step of a run whose state is `s`. */
  lemma Extend(net: Net, start: State, run: seq<Action>, s: State, a: Action)
    returns (run': seq<Action>, s': State)
    requires Reaches(net, start, run, s) && Enabled(net, s, a)
    ensures Reaches(net, start, run', s') && s' == Apply(net, s, a)
  {
    Then(net, start, run, a);
    run' := run + [a];
    s' := After(net, start, run');
  }

  /** What a lookup knows of caches that have nothing. */
  const Nothing := View(true, None, None, false)

  predicate AtStart(s: State, i: Id) {
    && IsLookup(s, i) && s.tasks[i].stage.Checking? && s.tasks[i].http.Idle? && s.tasks[i].view == Blank
    && KeyOf(s.tasks[i]) !in s.cache
  }

  /** A lookup reads the caches and finds nothing. */
  lemma Reads(net: Net, start: State, run0: seq<Action>, s: State, i: Id) returns (run: seq<Action>, s': State)
    requires Reaches(net, start, run0, s) && IsLookup(s, i) && Resolving(s.tasks[i]) && s.tasks[i].view == Blank
    requires KeyOf(s.tasks[i]) !in s.cache
    ensures Reaches(net, start, run, s') && s' == s.(tasks := s.tasks[i := s.tasks[i].(view := Nothing)])
    ensures Enabled(net, s', Missed(i))
  {
    run, s' := Extend(net, start, run0, s, Look(i));
  }

  /** The listed lock for a key, or a new one. */
  function LockFor(s: State, i: Id): map<Key, Id>
    requires IsLookup(s, i)
  {
    if KeyOf(s.tasks[i]) in s.inflight then s.inflight else s.inflight[KeyOf(s.tasks[i]) := i]
  }

  /** A client that finds nothing waits for the lock. */
  lemma ClientWaits(net: Net, start: State, run0: seq<Action>, s: State, i: Id) returns (run: seq<Action>, s': State)
    requires Reaches(net, start, run0, s) && AtStart(s, i) && s.tasks[i].hop.Client?
    ensures Reaches(net, start, run, s')
    ensures s' == s.(tasks := s.tasks[i := s.tasks[i].(stage := AwaitLock, view := Nothing,
                                                       lock := Some(LockFor(s, i)[KeyOf(s.tasks[i])]))],
                     inflight := LockFor(s, i))
  {
    run, s' := Reads(net, start, run0, s, i);
    run, s' := Extend(net, start, run, s', Missed(i));
  }

  /** A peer that finds nothing races. */
  lemma PeerRaces(net: Net, start: State, run0: seq<Action>, s: State, i: Id) returns (run: seq<Action>, s': State)
    requires Reaches(net, start, run0, s) && AtStart(s, i) && s.tasks[i].hop.Peer? && s.tasks[i].groups != []
    ensures Reaches(net, start, run, s')
    ensures s' == s.(tasks := s.tasks[i := s.tasks[i].(stage := Choosing, view := Nothing, raced := true)])
  {
    run, s' := Reads(net, start, run0, s, i);
    run, s' := Extend(net, start, run, s', Missed(i));
  }

  predicate CanLock(s: State, i: Id) {
    && IsLookup(s, i) && s.tasks[i].stage.AwaitLock? && s.tasks[i].lock.Some? && s.tasks[i].http.Idle?
    && KeyOf(s.tasks[i]) !in s.cache
    && forall j | 0 <= j < |s.tasks| :: !HoldsLock(s.tasks[j], s.tasks[i].lock.value)
  }

  lemma GetsLock(net: Net, start: State, run0: seq<Action>, s: State, i: Id) returns (run: seq<Action>, s': State)
    requires Reaches(net, start, run0, s) && CanLock(s, i)
    ensures Reaches(net, start, run, s')
    ensures s' == s.(tasks := s.tasks[i := s.tasks[i].(stage := Rechecking, view := Blank)])
  {
    run, s' := Extend(net, start, run0, s, Lock(i));
  }

  /** Under the lock there is nothing either. */
  lemma MissesAgain(net: Net, start: State, run0: seq<Action>, s: State, i: Id) returns (run: seq<Action>, s': State)
    requires Reaches(net, start, run0, s) && IsLookup(s, i) && KeyOf(s.tasks[i]) !in s.cache
    requires s.tasks[i].stage.Rechecking? && s.tasks[i].http.Idle? && s.tasks[i].view == Blank
    requires s.tasks[i].lock.Some?
    ensures Reaches(net, start, run, s')
    ensures var next := if s.tasks[i].groups == [] then Settled else AwaitPermit;
            s' == s.(tasks := s.tasks[i := s.tasks[i].(stage := next, view := Nothing)])
  {
    run, s' := Reads(net, start, run0, s, i);
    run, s' := Extend(net, start, run, s', Missed(i));
  }

  lemma TakesPermit(net: Net, start: State, run0: seq<Action>, s: State, i: Id) returns (run: seq<Action>, s': State)
    requires Reaches(net, start, run0, s) && IsLookup(s, i)
    requires s.tasks[i].stage.AwaitPermit? && s.tasks[i].hop.Client?
    requires |PermitHolders(s, s.tasks[i].node)| < net.raceLimit(s.tasks[i].node)
    ensures Reaches(net, start, run, s')
    ensures s' == s.(tasks := s.tasks[i := s.tasks[i].(stage := Choosing, raced := true)])
    ensures PermitHolders(s', s.tasks[i].node) == PermitHolders(s, s.tasks[i].node) + {i}
  {
    run, s' := Extend(net, start, run0, s, Permit(i));
  }

  /** A waiting client gets the lock, finds nothing, and gets its permit. */
  lemma WaiterRaces(net: Net, start: State, run0: seq<Action>, s: State, i: Id)
    returns (run: seq<Action>, s': State)
    requires Reaches(net, start, run0, s) && CanLock(s, i) && s.tasks[i].groups != [] && s.tasks[i].hop.Client?
    requires |PermitHolders(s, s.tasks[i].node)| < net.raceLimit(s.tasks[i].node)
    ensures Reaches(net, start, run, s')
    ensures s' == s.(tasks := s.tasks[i := s.tasks[i].(stage := Choosing, view := Nothing, raced := true)])
    ensures PermitHolders(s', s.tasks[i].node) == PermitHolders(s, s.tasks[i].node) + {i}
  {
    run, s' := GetsLock(net, start, run0, s, i);
    run, s' := MissesAgain(net, start, run, s', i);
    assert s' == s.(tasks := s.tasks[i := s.tasks[i].(stage := AwaitPermit, view := Nothing)]);
    assert PermitHolders(s', s.tasks[i].node) == PermitHolders(s, s.tasks[i].node);
    run, s' := TakesPermit(net, start, run, s', i);
  }

  /** A new client arrives and waits for the lock. */
  lemma NewcomerWaits(net: Net, start: State, run0: seq<Action>, s: State, node: Node, hash: Hash,
                      groups: seq<seq<Url>>) returns (run: seq<Action>, s': State)
    requires Reaches(net, start, run0, s) && ValidGroups(net, groups) && (node, hash) !in s.cache
    ensures Reaches(net, start, run, s')
    ensures var key := (node, hash);
            var inflight := if key in s.inflight then s.inflight else s.inflight[key := |s.tasks|];
            s' == s.(tasks := s.tasks + [Lookup(node, Client, Idle, hash, AwaitLock, Nothing, Some(inflight[key]),
                                                groups, false, None)],
                     inflight := inflight)
  {
    var n := |s.tasks|;
    run, s' := Extend(net, start, run0, s, Arrive(node, hash, Client, groups));
    assert s'.tasks[n] == NewLookup(node, Client, hash, groups, None);
    run, s' := ClientWaits(net, start, run, s', n);
    assert s'.tasks == s.tasks + [s'.tasks[n]];
  }

  /** A client that begins its race, under a lock and with one candidate. */
  predicate AtRace(t: Task, url: Url) {
    && t.Lookup? && t.hop.Client? && t.http.Idle? && t.stage.Choosing? && t.lock.Some? && t.groups == [[url]]
  }

  /** Its candidate, an external server, is asked and replies. */
  lemma AsksOne(net: Net, start: State, run0: seq<Action>, s: State, i: Id, url: Url, reply: Reply)
    returns (run: seq<Action>, s': State)
    requires Reaches(net, start, run0, s) && IsLookup(s, i) && AtRace(s.tasks[i], url) && url !in net.owner
    requires GateHolders(net, s, s.tasks[i].node, url, Client) == {} && net.gateLimit(s.tasks[i].node) >= 1
    ensures Reaches(net, start, run, s')
    ensures var t := s.tasks[i];
            s' == s.(tasks := s.tasks[i := t.(stage := Racing)]
                              + [Attempt(t.node, Client, Idle, t.hash, i, url, Finished(reply))])
  {
    var t, n := s.tasks[i], |s.tasks|;
    var racing := s.tasks[i := t.(stage := Racing)];
    run, s' := Extend(net, start, run0, s, Start(i));
    assert s'.tasks == racing + [Attempt(t.node, Client, Idle, t.hash, i, url, AwaitGate)];
    assert GateHolders(net, s', t.node, url, Client) == {};
    run, s' := Extend(net, start, run, s', EnterGate(n));
    assert s'.tasks == racing + [Attempt(t.node, Client, Sent(url), t.hash, i, url, Head)];
    run, s' := Extend(net, start, run, s', Answer(n, reply));
    assert s'.tasks == racing + [Attempt(t.node, Client, Idle, t.hash, i, url, Finished(reply))];
  }

  /** What is left of a race once it has left its outcome. */
  ghost predicate Remembered(s: State, i: Id, s': State)
    requires IsLookup(s, i)
  {
    && |s'.tasks| == |s.tasks| + 1 && s'.tasks[..|s.tasks|] == s.tasks[i := s'.tasks[i]]
    && s'.tasks[|s.tasks|].Attempt? && s'.tasks[|s.tasks|].phase.Gone?
    && s'.tasks[i].Lookup? && s'.tasks[i].stage.Settled? && s'.tasks[i].lock == s.tasks[i].lock
    && KeyOf(s'.tasks[i]) == KeyOf(s.tasks[i]) && s'.tasks[i].hop == s.tasks[i].hop && s'.tasks[i].http.Idle?
    && s'.inflight == s.inflight && s'.cache == Remember(s, KeyOf(s.tasks[i])).cache
    && s'.stamps == Remember(s, KeyOf(s.tasks[i])).stamps
  }

  /** The lookup races, and its attempt on the candidate has ended. */
  ghost predicate Asked(s: State, i: Id, url: Url, reply: Reply, s1: State) {
    && IsLookup(s, i) && AtRace(s.tasks[i], url) && (forall j | 0 <= j < |s.tasks| :: !OwnedBy(s.tasks[j], i))
    && var t := s.tasks[i];
       s1 == s.(tasks := s.tasks[i := t.(stage := Racing)]
                         + [Attempt(t.node, Client, Idle, t.hash, i, url, Finished(reply))])
  }

  lemma WinnerJoins(net: Net, start: State, run0: seq<Action>, s: State, s1: State, i: Id, url: Url)
    returns (run: seq<Action>, s': State)
    requires Reaches(net, start, run0, s1) && Asked(s, i, url, Winner, s1)
    ensures Reaches(net, start, run, s')
    ensures s' == s.(tasks := s.tasks[i := s.tasks[i].(stage := Committing(url), view := Blank)]
                              + [s1.tasks[|s.tasks|].(phase := Gone)])
  {
    var t, n := s.tasks[i], |s.tasks|;
    run, s' := Extend(net, start, run0, s1, Join(i, n));
    assert s'.tasks == s.tasks[i := t.(stage := Committing(url), view := Blank)] + [s1.tasks[n].(phase := Gone)];
  }

  lemma WinnerCommits(net: Net, start: State, run0: seq<Action>, s: State, s1: State, i: Id, url: Url)
    returns (run: seq<Action>, s': State)
    requires Reaches(net, start, run0, s1) && Asked(s, i, url, Winner, s1) && url !in net.owner
    ensures Reaches(net, start, run, s') && Remembered(s, i, s')
  {
    run, s' := WinnerJoins(net, start, run0, s, s1, i, url);
    run, s' := Extend(net, start, run, s', Fetch(i, url));
    run, s' := Extend(net, start, run, s', Answer(i, Miss));
    run, s' := Extend(net, start, run, s', Accept(i));
  }

  lemma LoserJoins(net: Net, start: State, run0: seq<Action>, s: State, s1: State, i: Id, url: Url)
    returns (run: seq<Action>, s': State)
    requires Reaches(net, start, run0, s1) && Asked(s, i, url, Miss, s1)
    ensures Reaches(net, start, run, s')
    ensures s' == s.(tasks := s.tasks[i := s.tasks[i].(stage := Choosing, groups := [])]
                              + [s1.tasks[|s.tasks|].(phase := Gone)])
  {
    var t, n := s.tasks[i], |s.tasks|;
    run, s' := Extend(net, start, run0, s1, Join(i, n));
    assert s'.tasks == s.tasks[i := t.(stage := Racing)] + [s1.tasks[n].(phase := Gone)];
    run, s' := Extend(net, start, run, s', NextGroup(i));
    assert [[url]][1..] == [];
    assert s'.tasks == s.tasks[i := t.(stage := Choosing, groups := [])] + [s1.tasks[n].(phase := Gone)];
  }

  lemma LoserRemembers(net: Net, start: State, run0: seq<Action>, s: State, s1: State, i: Id, url: Url)
    returns (run: seq<Action>, s': State)
    requires Reaches(net, start, run0, s1) && Asked(s, i, url, Miss, s1)
    ensures Reaches(net, start, run, s') && Remembered(s, i, s')
  {
    run, s' := LoserJoins(net, start, run0, s, s1, i, url);
    run, s' := Extend(net, start, run, s', Return(i, true));
  }

  /** A client's race over one external server ends with its narinfo, or with a miss. */
  lemma RaceRemembers(net: Net, start: State, run0: seq<Action>, s: State, i: Id, url: Url, wins: bool)
    returns (run: seq<Action>, s': State)
    requires Reaches(net, start, run0, s) && IsLookup(s, i) && AtRace(s.tasks[i], url) && url !in net.owner
    requires GateHolders(net, s, s.tasks[i].node, url, Client) == {} && net.gateLimit(s.tasks[i].node) >= 1
    requires forall j | 0 <= j < |s.tasks| :: !OwnedBy(s.tasks[j], i)
    ensures Reaches(net, start, run, s') && Remembered(s, i, s')
  {
    if wins {
      run, s' := AsksOne(net, start, run0, s, i, url, Winner);
      run, s' := WinnerCommits(net, start, run, s, s', i, url);
    } else {
      run, s' := AsksOne(net, start, run0, s, i, url, Miss);
      run, s' := LoserRemembers(net, start, run, s, s', i, url);
    }
  }
}
