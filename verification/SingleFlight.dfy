/** What the per-hash lock, the permits and the gates guarantee in every run. */
module SingleFlight {
  import opened Wrappers
  import opened Protocol
  import opened Progress
  import opened Steps

  // ---- Mutual exclusion

  ghost predicate Exclusive(s: State) {
    forall i, j, lock | 0 <= i < |s.tasks| && 0 <= j < |s.tasks|
                        && HoldsLock(s.tasks[i], lock) && HoldsLock(s.tasks[j], lock) :: i == j
  }

  /** Only `Lock` makes a task a holder that was not one. */
  lemma NewHolder(s: State, a: Action, s': State, i: Id, lock: Id)
    requires TasksStep(s, a, s') && i < |s'.tasks| && HoldsLock(s'.tasks[i], lock)
    ensures i < |s.tasks|
    ensures !HoldsLock(s.tasks[i], lock) ==>
              && a == Lock(i) && s.tasks[i].lock == Some(lock)
              && forall j | 0 <= j < |s.tasks| :: !HoldsLock(s.tasks[j], lock)
  {
  }

  lemma ExclusiveStep(s: State, a: Action, s': State)
    requires Exclusive(s) && TasksStep(s, a, s')
    ensures Exclusive(s')
  {
    forall i, j, lock | 0 <= i < |s'.tasks| && 0 <= j < |s'.tasks|
                        && HoldsLock(s'.tasks[i], lock) && HoldsLock(s'.tasks[j], lock)
      ensures i == j
    {
      NewHolder(s, a, s', i, lock);
      NewHolder(s, a, s', j, lock);
    }
  }

  // ---- The inflight map

  predicate BeforeCleanup(stage: Stage) {
    !stage.Checking? && !stage.Leaving? && !stage.Done?
  }

  /** The lookup waits for a lock or holds it, and has not given up its entry yet. */
  predicate NeedsEntry(t: Task) { t.Lookup? && t.lock.Some? && BeforeCleanup(t.stage) }

  /** The entry's lock was made by a lookup for that key which is still on its way. */
  ghost predicate EntryLive(s: State, key: Key)
    requires key in s.inflight
  {
    var maker := s.inflight[key];
    && IsLookup(s, maker) && KeyOf(s.tasks[maker]) == key
    && s.tasks[maker].lock == Some(maker) && BeforeCleanup(s.tasks[maker].stage)
  }

  ghost predicate EntriesLive(s: State) {
    forall key <- s.inflight :: EntryLive(s, key)
  }

  /** Cancelling a lookup that still waits for its lock skips its cleanup guard, which
      nobody else makes up for if the lock is of its own making. */
  predicate DropsMaker(s: State, a: Action) {
    a.Drop? && IsLookup(s, a.i) && s.tasks[a.i].stage.AwaitLock? && s.tasks[a.i].lock == Some(a.i)
  }

  /** An entry goes away only in a step of a lookup that holds that very lock. */
  lemma OnlyHoldersRemove(net: Net, s: State, a: Action, key: Key)
    requires Inv(net, s) && Enabled(net, s, a) && key in s.inflight
    requires key !in Apply(net, s, a).inflight || Apply(net, s, a).inflight[key] != s.inflight[key]
    ensures (a.Cleanup? || a.Drop?) && HoldsLock(s.tasks[a.i], s.inflight[key])
            && KeyOf(s.tasks[a.i]) == key && key !in Apply(net, s, a).inflight
  {
    StepSummary(net, s, a);
    if a.Cleanup? || a.Drop? { assert TaskOk(net, s, a.i); }
    EntryGone(s, a, Apply(net, s, a), key);
  }

  lemma EntryGone(s: State, a: Action, s': State, key: Key)
    requires TasksStep(s, a, s') && InflightStep(s, a, s') && key in s.inflight
    requires key !in s'.inflight || s'.inflight[key] != s.inflight[key]
    ensures (a.Cleanup? || a.Drop?) && HoldsLock(s.tasks[a.i], s.inflight[key])
            && KeyOf(s.tasks[a.i]) == key && key !in s'.inflight
  {
  }

  /** The maker of a lock that stays listed is still on its way. */
  lemma MakerStays(s: State, a: Action, s': State, key: Key)
    requires TasksStep(s, a, s') && InflightStep(s, a, s') && !DropsMaker(s, a)
    requires key in s.inflight && EntryLive(s, key)
    requires key in s'.inflight && s'.inflight[key] == s.inflight[key]
    ensures EntryLive(s', key)
  {
  }

  /** A new entry is its maker's. */
  lemma NewEntry(s: State, a: Action, s': State, key: Key)
    requires TasksStep(s, a, s') && InflightStep(s, a, s') && key in s'.inflight
    requires key !in s.inflight || s'.inflight[key] != s.inflight[key]
    ensures EntryLive(s', key)
  {
  }

  lemma EntriesLiveStep(s: State, a: Action, s': State)
    requires TasksStep(s, a, s') && InflightStep(s, a, s') && EntriesLive(s) && !DropsMaker(s, a)
    ensures EntriesLive(s')
  {
    forall key <- s'.inflight
      ensures EntryLive(s', key)
    {
      if key in s.inflight && s'.inflight[key] == s.inflight[key] {
        assert EntryLive(s, key);
        MakerStays(s, a, s', key);
      } else {
        NewEntry(s, a, s', key);
      }
    }
  }

  ghost predicate NoDroppedMaker(net: Net, s: State, run: seq<Action>)
    requires IsRun(net, s, run)
    decreases |run|
  {
    run == [] || (!DropsMaker(s, run[0]) && NoDroppedMaker(net, Apply(net, s, run[0]), run[1..]))
  }

  lemma {:induction false} ExclusiveRun(net: Net, s: State, run: seq<Action>)
    requires Inv(net, s) && Exclusive(s) && IsRun(net, s, run)
    ensures Exclusive(After(net, s, run))
    decreases |run|
  {
    if run != [] {
      InvStep(net, s, run[0]);
      StepSummary(net, s, run[0]);
      ExclusiveStep(s, run[0], Apply(net, s, run[0]));
      ExclusiveRun(net, Apply(net, s, run[0]), run[1..]);
    }
  }

  lemma {:induction false} EntriesLiveRun(net: Net, s: State, run: seq<Action>)
    requires Inv(net, s) && EntriesLive(s) && IsRun(net, s, run) && NoDroppedMaker(net, s, run)
    ensures EntriesLive(After(net, s, run))
    decreases |run|
  {
    if run != [] {
      InvStep(net, s, run[0]);
      StepSummary(net, s, run[0]);
      EntriesLiveStep(s, run[0], Apply(net, s, run[0]));
      EntriesLiveRun(net, Apply(net, s, run[0]), run[1..]);
    }
  }

  /** In every run each lock has at most one holder. */
  lemma OneHolderPerLock(net: Net, run: seq<Action>)
    requires IsRun(net, Start0, run)
    ensures Exclusive(After(net, Start0, run))
  {
    ExclusiveRun(net, Start0, run);
  }

  /** In every run that cancels no lookup which waits for a lock that it made, the inflight map lists only
      keys being looked up, and is empty once no lookup is unfinished. */
  lemma InflightIsLive(net: Net, run: seq<Action>)
    requires IsRun(net, Start0, run) && NoDroppedMaker(net, Start0, run)
    ensures EntriesLive(After(net, Start0, run))
    ensures !Unfinished(After(net, Start0, run)) ==> After(net, Start0, run).inflight == map[]
  {
    EntriesLiveRun(net, Start0, run);
    var s := After(net, Start0, run);
    if s.inflight != map[] {
      var key :| key in s.inflight;
      assert EntryLive(s, key);
    }
  }

  // ---- When an entry outlives its lookups

  /** The lookup waits for the listed lock of its key, or holds it. */
  predicate Uses(s: State, key: Key, i: Id)
    requires key in s.inflight
  {
    i < |s.tasks| && NeedsEntry(s.tasks[i]) && KeyOf(s.tasks[i]) == key && s.tasks[i].lock.value == s.inflight[key]
  }

  ghost predicate Used(s: State, key: Key) { key in s.inflight ==> exists i: Id :: Uses(s, key, i) }

  /** The only lookup that has to do with the key's lock is cancelled while it waits. */
  ghost predicate DropsLast(s: State, a: Action, key: Key) {
    && key in s.inflight && a.Drop? && Uses(s, key, a.i) && s.tasks[a.i].stage.AwaitLock?
    && forall i: Id | Uses(s, key, i) :: i == a.i
  }

  /** A lookup goes on using its entry, unless its step is the one that removes it, or
      it is cancelled while it waits. */
  lemma GoesOnUsing(s: State, a: Action, s': State, key: Key, i: Id)
    requires TasksStep(s, a, s') && InflightStep(s, a, s') && key in s.inflight && Uses(s, key, i)
    requires a.Unlock? && a.i < |s.tasks| && s.tasks[a.i].Lookup? ==> s.tasks[a.i].stage.Leaving?
    requires key in s'.inflight && !(a.Drop? && a.i == i && s.tasks[i].stage.AwaitLock?)
    ensures s'.inflight[key] == s.inflight[key] && Uses(s', key, i)
  {
  }

  /** A new entry is used by the lookup that made it. */
  lemma MakerUses(s: State, a: Action, s': State, key: Key)
    requires TasksStep(s, a, s') && InflightStep(s, a, s') && key !in s.inflight && key in s'.inflight
    ensures Uses(s', key, a.i)
  {
  }

  /** Nobody else begins to use the entry in that step. */
  lemma NobodyUses(s: State, a: Action, s': State, key: Key)
    requires TasksStep(s, a, s') && InflightStep(s, a, s') && DropsLast(s, a, key)
    ensures !Used(s', key)
  {
    forall i: Id ensures !(key in s'.inflight && Uses(s', key, i)) {
      if i < |s.tasks| && NeedsEntry(s'.tasks[i]) && NeedsEntry(s.tasks[i]) && Uses(s', key, i) {
        assert Uses(s, key, i);
      }
    }
  }

  /** So an entry is left without a lookup exactly by such a step. */
  lemma EntryLeaksIff(s: State, a: Action, s': State, key: Key)
    requires TasksStep(s, a, s') && InflightStep(s, a, s') && Used(s, key)
    requires a.Unlock? && a.i < |s.tasks| && s.tasks[a.i].Lookup? ==> s.tasks[a.i].stage.Leaving?
    ensures Used(s', key) <==> !DropsLast(s, a, key)
  {
    if DropsLast(s, a, key) {
      NobodyUses(s, a, s', key);
    } else if key in s'.inflight {
      if key !in s.inflight {
        MakerUses(s, a, s', key);
      } else {
        var i: Id :| Uses(s, key, i) && !(a.Drop? && a.i == i && s.tasks[i].stage.AwaitLock?);
        GoesOnUsing(s, a, s', key, i);
      }
    }
  }

  ghost predicate NoLastDropped(net: Net, s: State, run: seq<Action>, key: Key)
    requires IsRun(net, s, run)
    decreases |run|
  {
    run == [] || (!DropsLast(s, run[0], key) && NoLastDropped(net, Apply(net, s, run[0]), run[1..], key))
  }

  lemma {:induction false} UsedRun(net: Net, s: State, run: seq<Action>, key: Key)
    requires Inv(net, s) && Used(s, key) && IsRun(net, s, run) && NoLastDropped(net, s, run, key)
    ensures Used(After(net, s, run), key)
    decreases |run|
  {
    if run != [] {
      InvStep(net, s, run[0]);
      StepSummary(net, s, run[0]);
      EntryLeaksIff(s, run[0], Apply(net, s, run[0]), key);
      UsedRun(net, Apply(net, s, run[0]), run[1..], key);
    }
  }

  /** In every run that never cancels the only waiter for a key's lock, a listed key is
      being looked up, and none is listed once no lookup is unfinished. */
  lemma InflightIsUsed(net: Net, run: seq<Action>, key: Key)
    requires IsRun(net, Start0, run) && NoLastDropped(net, Start0, run, key)
    ensures Used(After(net, Start0, run), key)
    ensures !Unfinished(After(net, Start0, run)) ==> key !in After(net, Start0, run).inflight
  {
    UsedRun(net, Start0, run, key);
  }

  // ---- Waiters reuse the outcome

  /** The lookup races, or will do so as far as it knows: it began to read the caches
      before the outcome with that stamp was there. A client's first look at the
      caches does not decide that, since it looks again under the lock. */
  predicate MayRace(t: Task, stamp: nat)
    requires t.Lookup?
  {
    || InRace(t.stage) || t.stage.AwaitPermit?
    || (t.view.looked && t.view.seen != Some(stamp) && (t.stage.Rechecking? || (t.stage.Checking? && t.hop.Peer?)))
  }

  ghost predicate NoneRaces(s: State, key: Key, since: set<Id>)
    requires key in s.cache
  {
    forall i | 0 <= i < |s.tasks| && s.tasks[i].Lookup? && KeyOf(s.tasks[i]) == key && i !in since ::
      !MayRace(s.tasks[i], s.cache[key])
  }

  lemma ReuseStep(s: State, a: Action, s': State, key: Key, since: set<Id>)
    requires TasksStep(s, a, s') && CacheStep(s, a, s') && a != Forget(key)
    requires key in s.cache && NoneRaces(s, key, since)
    ensures key in s'.cache && NoneRaces(s', key, since)
  {
    forall i | 0 <= i < |s'.tasks| && s'.tasks[i].Lookup? && KeyOf(s'.tasks[i]) == key && i !in since
      ensures !MayRace(s'.tasks[i], s'.cache[key])
    {
      if i < |s.tasks| {
        assert s.tasks[i].Lookup? && KeyOf(s.tasks[i]) == key;
        assert !MayRace(s.tasks[i], s.cache[key]);
      }
    }
  }

  /** Once a key's outcome is cached, and for as long as it stands, no lookup for it
      on that node begins to race that begins to read the caches from now on: not
      the ones that wait for the lock, nor any that arrive later. Only those that
      race already, or read the caches before (`since`), can be in a race. */
  lemma {:induction false} WaitersReuse(net: Net, s: State, run: seq<Action>, key: Key, since: set<Id>)
    requires Inv(net, s) && IsRun(net, s, run) && Forget(key) !in run
    requires key in s.cache && NoneRaces(s, key, since)
    ensures key in After(net, s, run).cache && NoneRaces(After(net, s, run), key, since)
    decreases |run|
  {
    if run != [] {
      InvStep(net, s, run[0]);
      StepSummary(net, s, run[0]);
      ReuseStep(s, run[0], Apply(net, s, run[0]), key, since);
      WaitersReuse(net, Apply(net, s, run[0]), run[1..], key, since);
    }
  }

  // ---- Chains of races

  /** Each lookup of the chain was started by a request of the one before it. */
  ghost predicate IsChain(s: State, chain: seq<Id>) {
    && (forall k | 0 <= k < |chain| :: IsLookup(s, chain[k]))
    && (forall k | 0 <= k < |chain| - 1 :: s.tasks[chain[k + 1]].parent == Some(chain[k]))
  }

  /** On any peer graph, a chain of lookups that each raced is at most two long. */
  lemma RacesNestTwice(net: Net, run: seq<Action>, chain: seq<Id>)
    requires IsRun(net, Start0, run)
    requires IsChain(After(net, Start0, run), chain)
    requires forall k | 0 <= k < |chain| :: After(net, Start0, run).tasks[chain[k]].raced
    ensures |chain| <= 2
  {
    InvRun(net, Start0, run);
    var s := After(net, Start0, run);
    if |chain| > 2 {
      assert TaskOk(net, s, chain[1]) && TaskOk(net, s, chain[2]);
      HopsRise(s.tasks[chain[0]].hop);
      HopsRise(s.tasks[chain[1]].hop);
    }
  }

  // ---- Permits and gates

  ghost predicate WithinLimits(net: Net, s: State) {
    && (forall node :: |PermitHolders(s, node)| <= net.raceLimit(node))
    && (forall node, url, hop :: |GateHolders(net, s, node, url, hop)| <= net.gateLimit(node))
  }

  lemma AtMostOneMore(before: set<Id>, after: set<Id>, i: Id, limit: nat)
    requires after <= before + {i} && |before| <= limit
    requires i in after && i !in before ==> |before| < limit
    ensures |after| <= limit
  {
    if i in after && i !in before {
      SubsetSize(after - {i}, before);
    } else {
      SubsetSize(after, before);
    }
  }

  lemma SubsetSize(a: set<Id>, b: set<Id>)
    requires a <= b
    ensures |a| <= |b|
  {
    assert b == a + (b - a);
  }

  lemma PermitStep(s: State, a: Action, s': State, node: Node, limit: nat)
    requires TasksStep(s, a, s') && |PermitHolders(s, node)| <= limit
    requires a.Permit? && s.tasks[a.i].node == node ==> |PermitHolders(s, node)| < limit
    ensures |PermitHolders(s', node)| <= limit
  {
    var before, after := PermitHolders(s, node), PermitHolders(s', node);
    var i := if a.Permit? then a.i else 0;
    forall j <- after ensures j in before || (a.Permit? && j == i && s.tasks[i].node == node) {
    }
    AtMostOneMore(before, after, i, limit);
  }

  lemma GateStep(net: Net, s: State, a: Action, s': State, node: Node, url: Url, hop: Hop)
    requires net.gatesPerHop && AttemptsStep(s, a, s') && (a.EnterGate? ==> Enabled(net, s, a))
    requires |GateHolders(net, s, node, url, hop)| <= net.gateLimit(node)
    ensures |GateHolders(net, s', node, url, hop)| <= net.gateLimit(node)
  {
    var before, after := GateHolders(net, s, node, url, hop), GateHolders(net, s', node, url, hop);
    var i := if a.EnterGate? then a.i else 0;
    forall j <- after
      ensures j in before || (a.EnterGate? && j == i && |before| < net.gateLimit(node))
    {
    }
    AtMostOneMore(before, after, i, net.gateLimit(node));
  }

  lemma {:induction false} WithinLimitsRun(net: Net, s: State, run: seq<Action>)
    requires net.gatesPerHop && Inv(net, s) && WithinLimits(net, s) && IsRun(net, s, run)
    ensures WithinLimits(net, After(net, s, run))
    decreases |run|
  {
    if run != [] {
      var a := run[0];
      InvStep(net, s, a);
      StepSummary(net, s, a);
      forall node { PermitStep(s, a, Apply(net, s, a), node, net.raceLimit(node)); }
      forall node, url, hop { GateStep(net, s, a, Apply(net, s, a), node, url, hop); }
      WithinLimitsRun(net, Apply(net, s, a), run[1..]);
    }
  }

  /** No run has more client races on a node, or more HEAD requests in a gate,
      than that node's limits. */
  lemma LimitsHold(net: Net, run: seq<Action>)
    requires net.gatesPerHop && IsRun(net, Start0, run)
    ensures WithinLimits(net, After(net, Start0, run))
  {
    forall node ensures PermitHolders(Start0, node) == {} {}
    forall node, url, hop ensures GateHolders(net, Start0, node, url, hop) == {} {}
    WithinLimitsRun(net, Start0, run);
  }
}
