/** Every history of the cache layers is followed by a run of the lookup protocol. */
module Histories {
  import opened Wrappers
  import opened Protocol
  import opened Runs
  import L = CacheLayers
  import O = Outcomes

  predicate Over(t: Task) { if t.Lookup? then t.stage.Done? else t.phase.Gone? }

  /** Every task has come to its end, and the key is not listed. */
  ghost predicate AtRest(s: State, key: Key) {
    (forall i | 0 <= i < |s.tasks| :: Over(s.tasks[i])) && key !in s.inflight
  }

  /** A client comes and begins its race... */
  lemma ClientBegins(net: Net, s: State, key: Key, url: Url) returns (run: seq<Action>, s': State)
    requires ValidNet(net) && net.maxUpstreams >= 1 && AtRest(s, key) && key !in s.cache
    ensures Reaches(net, s, run, s') && |s'.tasks| == |s.tasks| + 1 && s'.tasks[..|s.tasks|] == s.tasks
    ensures var t := s'.tasks[|s.tasks|]; AtRace(t, url) && t.lock == Some(|s.tasks|) && KeyOf(t) == key
    ensures s'.inflight == s.inflight[key := |s.tasks|] && s'.cache == s.cache && s'.stamps == s.stamps
  {
    var n := |s.tasks|;
    run, s' := NewcomerWaits(net, s, [], s, key.0, key.1, [[url]]);
    assert PermitHolders(s', key.0) == {};
    run, s' := WaiterRaces(net, s, run, s', n);
  }

  /** ...ends it with an outcome... */
  lemma ClientEnds(net: Net, start: State, run0: seq<Action>, s: State, key: Key, url: Url, wins: bool)
    returns (run: seq<Action>, s': State)
    requires Reaches(net, start, run0, s) && ValidNet(net) && url !in net.owner && s.tasks != []
    requires forall i | 0 <= i < |s.tasks| - 1 :: Over(s.tasks[i])
    requires var t := s.tasks[|s.tasks| - 1]; AtRace(t, url) && KeyOf(t) == key
    ensures Reaches(net, start, run, s') && Remembered(s, |s.tasks| - 1, s')
  {
    var i := |s.tasks| - 1;
    assert GateHolders(net, s, s.tasks[i].node, url, Client) == {};
    run, s' := RaceRemembers(net, start, run0, s, i, url, wins);
  }

  /** ...and goes. */
  lemma ClientGoes(net: Net, start: State, run0: seq<Action>, s: State, key: Key, i: Id)
    returns (run: seq<Action>, s': State)
    requires Reaches(net, start, run0, s) && IsLookup(s, i) && s.tasks[i].stage.Settled? && KeyOf(s.tasks[i]) == key
    requires key in s.inflight && s.tasks[i].lock == Some(s.inflight[key])
    requires forall j | 0 <= j < |s.tasks| && j != i :: Over(s.tasks[j])
    ensures Reaches(net, start, run, s') && AtRest(s', key) && s'.cache == s.cache && s'.stamps == s.stamps
  {
    run, s' := Extend(net, start, run0, s, Cleanup(i));
    run, s' := Extend(net, start, run, s', Unlock(i));
  }

  lemma LeavesOutcome(net: Net, s: State, key: Key, url: Url, wins: bool) returns (run: seq<Action>, s': State)
    requires ValidNet(net) && net.maxUpstreams >= 1 && url !in net.owner && AtRest(s, key) && key !in s.cache
    ensures Reaches(net, s, run, s') && AtRest(s', key)
    ensures s'.cache == Remember(s, key).cache && s'.stamps == Remember(s, key).stamps
  {
    var n := |s.tasks|;
    run, s' := ClientBegins(net, s, key, url);
    assert forall j | 0 <= j < n :: s'.tasks[j] == s'.tasks[..n][j];
    var racing := s';
    run, s' := ClientEnds(net, s, run, s', key, url, wins);
    assert forall j | 0 <= j < n :: s'.tasks[j] == s'.tasks[..n + 1][j] == racing.tasks[j];
    assert s'.tasks[n] == s'.tasks[..n + 1][n];
    run, s' := ClientGoes(net, s, run, s', key, n);
  }

  /** What the layers do in one step, the protocol does in some steps: a client's race
      leaves the outcome that is stored, unless there is one already, and an outcome
      that does not stand is forgotten. */
  lemma FollowStep(net: Net, s: State, key: Key, url: Url, stores: bool, wins: bool, stands: bool)
    returns (run: seq<Action>, s': State)
    requires ValidNet(net) && net.maxUpstreams >= 1 && url !in net.owner && AtRest(s, key)
    ensures Reaches(net, s, run, s') && AtRest(s', key) && O.BitStep(s, s', key, stores, stands)
  {
    run, s' := [], s;
    if stores && key !in s.cache {
      run, s' := LeavesOutcome(net, s, key, url, wins);
    }
    if !stands {
      run, s' := Extend(net, s, run, s', Forget(key));
    }
  }

  /** So for every history of the layers there are protocol states that follow it, each
      reached from the one before, and the first one is the empty network. */
  lemma {:induction false} FollowingRun(net: Net, c: L.Setup, hash: string, ms: seq<L.Moment>, ls: seq<O.Label>,
                                        key: Key, url: Url, n: nat)
    returns (runs: seq<seq<Action>>, ps: seq<State>)
    requires ValidNet(net) && net.maxUpstreams >= 1 && url !in net.owner && |ms| == |ls| + 1 && n <= |ls|
    ensures |runs| == n && |ps| == n + 1 && ps[0] == Start0 && AtRest(ps[n], key)
    ensures forall i | 0 <= i < n :: Reaches(net, ps[i], runs[i], ps[i + 1])
    ensures forall i | 0 <= i < n ::
              O.BitStep(ps[i], ps[i + 1], key, !ls[i].Other?, O.AnchorAt(c, hash, ms, ls, i + 1).Some?)
    decreases n
  {
    if n == 0 {
      runs, ps := [], [Start0];
    } else {
      runs, ps := FollowingRun(net, c, hash, ms, ls, key, url, n - 1);
      var run, s' := FollowStep(net, ps[n - 1], key, url, !ls[n - 1].Other?, ls[n - 1].Commits?,
                                O.AnchorAt(c, hash, ms, ls, n).Some?);
      runs, ps := runs + [run], ps + [s'];
    }
  }

  lemma EveryHistoryIsFollowed(net: Net, c: L.Setup, hash: string, ms: seq<L.Moment>, ls: seq<O.Label>,
                               key: Key, url: Url) returns (runs: seq<seq<Action>>, ps: seq<State>)
    requires ValidNet(net) && net.maxUpstreams >= 1 && url !in net.owner && |ms| == |ls| + 1
    ensures O.Follows(c, hash, ms, ls, key, ps) && ps[0] == Start0 && |runs| == |ls|
    ensures forall i | 0 <= i < |ls| :: Reaches(net, ps[i], runs[i], ps[i + 1])
  {
    runs, ps := FollowingRun(net, c, hash, ms, ls, key, url, |ls|);
  }
}
