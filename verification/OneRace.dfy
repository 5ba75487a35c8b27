/** When the per-hash lock gives one race per hash: as long as no lookup is left with a
    lock that newcomers will not find, and nothing in the caches to answer it. */
module OneRace {
  import opened Wrappers
  import opened Protocol
  import opened Progress
  import opened Steps
  import opened SingleFlight
  import opened Runs

  predicate Waits(t: Task, lock: Id) { t.Lookup? && t.stage.AwaitLock? && t.lock == Some(lock) }

  predicate HasListedLock(s: State, t: Task)
    requires NeedsEntry(t)
  {
    KeyOf(t) in s.inflight && s.inflight[KeyOf(t)] == t.lock.value
  }

  /** The lookup is on its way to a race under a lock that nobody who arrives now gets. */
  predicate Astray(s: State, t: Task, key: Key) {
    NeedsEntry(t) && KeyOf(t) == key && !t.stage.Settled? && !HasListedLock(s, t)
  }

  /** A holder gives up its inflight entry, by finishing or by being cancelled. */
  predicate GivesUp(s: State, a: Action) {
    && (a.Cleanup? || a.Drop?) && IsLookup(s, a.i)
    && s.tasks[a.i].lock.Some? && HoldsLock(s.tasks[a.i], s.tasks[a.i].lock.value)
  }

  /** The step leaves `w` with a lock that is not listed and with no outcome to reuse:
      the lock is given up while `w` waits for it and nothing is cached, or what was
      cached is forgotten after the lock was given up. */
  predicate Leaves(s: State, a: Action, key: Key, w: Id) {
    && w < |s.tasks|
    && (|| (GivesUp(s, a) && key !in s.cache && KeyOf(s.tasks[w]) == key
            && Waits(s.tasks[w], s.tasks[a.i].lock.value))
        || (a == Forget(key) && Astray(s, s.tasks[w], key)))
  }

  predicate Strands(s: State, a: Action, key: Key) {
    exists w | 0 <= w < |s.tasks| :: Leaves(s, a, key, w)
  }

  ghost predicate NoStrands(net: Net, s: State, run: seq<Action>, key: Key)
    requires IsRun(net, s, run)
    decreases |run|
  {
    run == [] || (!Strands(s, run[0], key) && NoStrands(net, Apply(net, s, run[0]), run[1..], key))
  }

  // ---- Whoever is astray finds an outcome

  ghost predicate Kept(s: State, key: Key) {
    forall i | 0 <= i < |s.tasks| && Astray(s, s.tasks[i], key) ::
      key in s.cache && !MayRace(s.tasks[i], s.cache[key])
  }

  /** A new client's lock is the listed one. */
  lemma NotYetAstray(s: State, a: Action, s': State, key: Key, i: Id)
    requires TasksStep(s, a, s') && InflightStep(s, a, s') && i < |s'.tasks|
    requires i < |s.tasks| ==> !NeedsEntry(s.tasks[i])
    requires i < |s.tasks| && s.tasks[i].Lookup? && s.tasks[i].stage.Checking? ==> s.tasks[i].lock.None?
    ensures !Astray(s', s'.tasks[i], key)
  {
  }

  /** A lookup that had its entry and goes astray waited for a lock that was given up. */
  lemma GoesAstray(s: State, a: Action, s': State, key: Key, i: Id)
    requires Exclusive(s) && TasksStep(s, a, s') && InflightStep(s, a, s')
    requires i < |s.tasks| && NeedsEntry(s.tasks[i]) && (s.tasks[i].stage.Settled? || HasListedLock(s, s.tasks[i]))
    requires Astray(s', s'.tasks[i], key)
    ensures s'.tasks[i] == s.tasks[i] && GivesUp(s, a) && Waits(s.tasks[i], s.tasks[a.i].lock.value)
  {
    var t := s.tasks[i];
    assert KeyOf(t) == key && !t.stage.Settled?;
    EntryGone(s, a, s', key);
    if !t.stage.AwaitLock? { assert HoldsLock(t, t.lock.value); }
  }

  /** A lookup that is astray stays where the cached outcome will answer it. */
  lemma StaysAstray(s: State, a: Action, s': State, key: Key, i: Id)
    requires Kept(s, key) && TasksStep(s, a, s') && CacheStep(s, a, s') && a != Forget(key)
    requires i < |s.tasks| && Astray(s, s.tasks[i], key) && Astray(s', s'.tasks[i], key)
    ensures key in s'.cache && !MayRace(s'.tasks[i], s'.cache[key])
  {
    assert !MayRace(s.tasks[i], s.cache[key]);
  }

  lemma KeptStep(net: Net, s: State, a: Action, s': State, key: Key)
    requires Inv(net, s) && Exclusive(s) && Kept(s, key) && !Strands(s, a, key)
    requires TasksStep(s, a, s') && InflightStep(s, a, s') && CacheStep(s, a, s')
    requires a.Forget? ==> s'.tasks == s.tasks
    ensures Kept(s', key)
  {
    forall i | 0 <= i < |s'.tasks| && Astray(s', s'.tasks[i], key)
      ensures key in s'.cache && !MayRace(s'.tasks[i], s'.cache[key])
    {
      if i < |s.tasks| { assert TaskOk(net, s, i) && !Leaves(s, a, key, i); }
      if i >= |s.tasks| || !NeedsEntry(s.tasks[i]) {
        NotYetAstray(s, a, s', key, i);
      } else if s.tasks[i].stage.Settled? || HasListedLock(s, s.tasks[i]) {
        GoesAstray(s, a, s', key, i);
      } else {
        StaysAstray(s, a, s', key, i);
      }
    }
  }

  lemma {:induction false} KeptRun(net: Net, s: State, run: seq<Action>, key: Key)
    requires Inv(net, s) && Exclusive(s) && Kept(s, key) && IsRun(net, s, run) && NoStrands(net, s, run, key)
    ensures Inv(net, After(net, s, run)) && Exclusive(After(net, s, run)) && Kept(After(net, s, run), key)
    decreases |run|
  {
    if run != [] {
      var s' := Apply(net, s, run[0]);
      InvStep(net, s, run[0]);
      StepSummary(net, s, run[0]);
      ExclusiveStep(s, run[0], s');
      KeptStep(net, s, run[0], s', key);
      KeptRun(net, s', run[1..], key);
    }
  }

  /** Two lookups that hold the listed lock of their key are one lookup. */
  lemma SameHolder(net: Net, s: State, key: Key, i: Id, j: Id)
    requires Inv(net, s) && Exclusive(s) && Kept(s, key) && IsLookup(s, i) && IsLookup(s, j)
    requires NeedsEntry(s.tasks[i]) && NeedsEntry(s.tasks[j]) && KeyOf(s.tasks[i]) == key == KeyOf(s.tasks[j])
    requires HasListedLock(s, s.tasks[i]) && HasListedLock(s, s.tasks[j])
    requires !s.tasks[i].stage.AwaitLock? && !s.tasks[j].stage.AwaitLock?
    ensures i == j
  {
    var lock := s.tasks[i].lock.value;
    assert HoldsLock(s.tasks[i], lock) && HoldsLock(s.tasks[j], lock);
  }

  /** In every run that leaves no lookup of a key stranded, whatever happens to all other
      keys, the key has at most one client race on its node. */
  lemma OneRacePerKey(net: Net, run: seq<Action>, key: Key, i: Id, j: Id)
    requires IsRun(net, Start0, run) && NoStrands(net, Start0, run, key)
    requires i < |After(net, Start0, run).tasks| && j < |After(net, Start0, run).tasks|
    requires var s := After(net, Start0, run);
             && HoldsPermit(s.tasks[i], key.0) && HoldsPermit(s.tasks[j], key.0)
             && KeyOf(s.tasks[i]) == key == KeyOf(s.tasks[j])
    ensures i == j
  {
    KeptRun(net, Start0, run, key);
    var s := After(net, Start0, run);
    assert TaskOk(net, s, i) && TaskOk(net, s, j);
    assert !Astray(s, s.tasks[i], key) && !Astray(s, s.tasks[j], key);
    SameHolder(net, s, key, i, j);
  }

  // ---- The outcome ends the race for all clients

  /** The step that makes a client's outcome stand. */
  predicate Concludes(s: State, a: Action, key: Key) {
    && (a.Accept? || (a.Return? && a.remember))
    && IsLookup(s, a.i) && s.tasks[a.i].hop.Client? && KeyOf(s.tasks[a.i]) == key
  }

  function PeerLookups(s: State, key: Key): set<Id> {
    set i | 0 <= i < |s.tasks| && s.tasks[i].Lookup? && s.tasks[i].hop.Peer? && KeyOf(s.tasks[i]) == key
  }

  lemma OtherDoesNotRace(net: Net, s: State, a: Action, key: Key, i: Id, stamp: nat)
    requires Inv(net, s) && Exclusive(s) && Kept(s, key) && Enabled(net, s, a) && Concludes(s, a, key)
    requires IsLookup(s, i) && i != a.i && KeyOf(s.tasks[i]) == key && i !in PeerLookups(s, key)
    requires key in s.cache ==> stamp == s.cache[key]
    ensures !MayRace(s.tasks[i], stamp)
  {
    assert TaskOk(net, s, i) && TaskOk(net, s, a.i);
    if MayRace(s.tasks[i], stamp) {
      assert !Astray(s, s.tasks[i], key) && !Astray(s, s.tasks[a.i], key);
      SameHolder(net, s, key, i, a.i);
    }
  }

  lemma NobodyElseRaces(net: Net, s: State, a: Action, key: Key)
    requires Inv(net, s) && Exclusive(s) && Kept(s, key) && Enabled(net, s, a) && Concludes(s, a, key)
    ensures key in Apply(net, s, a).cache && NoneRaces(Apply(net, s, a), key, PeerLookups(s, key))
  {
    var s' := Apply(net, s, a);
    StepSummary(net, s, a);
    StandsNow(net, s, a, key);
    forall i | 0 <= i < |s'.tasks| && s'.tasks[i].Lookup? && KeyOf(s'.tasks[i]) == key
               && i !in PeerLookups(s, key)
      ensures !MayRace(s'.tasks[i], s'.cache[key])
    {
      if i < |s.tasks| && i != a.i { OtherDoesNotRace(net, s, a, key, i, s'.cache[key]); }
    }
  }

  lemma StandsNow(net: Net, s: State, a: Action, key: Key)
    requires Enabled(net, s, a) && Concludes(s, a, key)
    ensures key in Apply(net, s, a).cache
  {
  }

  /** A client's race that ends in an outcome, in a run that stranded nobody for its key
      until then, is the last one for its key and node: while the outcome stands, no
      client races for it, neither those that waited nor any that come later. */
  lemma OutcomeEndsRaces(net: Net, before: seq<Action>, a: Action, after: seq<Action>, key: Key, i: Id)
    requires IsRun(net, Start0, before) && NoStrands(net, Start0, before, key)
    requires var s := After(net, Start0, before);
             && Enabled(net, s, a) && Concludes(s, a, key)
             && IsRun(net, Apply(net, s, a), after) && Forget(key) !in after
    requires i < |After(net, Apply(net, After(net, Start0, before), a), after).tasks|
    ensures var t := After(net, Apply(net, After(net, Start0, before), a), after).tasks[i];
            t.Lookup? && t.hop.Client? && KeyOf(t) == key ==> !InRace(t.stage) && !t.stage.AwaitPermit?
  {
    KeptRun(net, Start0, before, key);
    var s := After(net, Start0, before);
    NobodyElseRaces(net, s, a, key);
    InvStep(net, s, a);
    var s1 := Apply(net, s, a);
    WaitersReuse(net, s1, after, key, PeerLookups(s, key));
    PeersStayPeers(net, s, a, after, key, i);
  }

  lemma {:induction false} SameTasks(net: Net, s: State, run: seq<Action>, i: Id)
    requires Inv(net, s) && IsRun(net, s, run) && i < |s.tasks| && s.tasks[i].Lookup?
    ensures i < |After(net, s, run).tasks|
    ensures After(net, s, run).tasks[i].Lookup? && After(net, s, run).tasks[i].hop == s.tasks[i].hop
    decreases |run|
  {
    if run != [] {
      InvStep(net, s, run[0]);
      StepSummary(net, s, run[0]);
      SameTasks(net, Apply(net, s, run[0]), run[1..], i);
    }
  }

  lemma PeersStayPeers(net: Net, s: State, a: Action, after: seq<Action>, key: Key, i: Id)
    requires Inv(net, s) && Enabled(net, s, a) && IsRun(net, Apply(net, s, a), after)
    requires i < |After(net, Apply(net, s, a), after).tasks|
    ensures i in PeerLookups(s, key) ==>
              After(net, Apply(net, s, a), after).tasks[i].Lookup?
              && After(net, Apply(net, s, a), after).tasks[i].hop.Peer?
  {
    if i in PeerLookups(s, key) {
      InvStep(net, s, a);
      StepSummary(net, s, a);
      SameTasks(net, Apply(net, s, a), after, i);
    }
  }

  // ---- Whoever is stranded can race beside a newcomer

  /** A lock's id is that of the lookup that made it, for that very key. */
  ghost predicate Made(s: State) {
    && (forall i | 0 <= i < |s.tasks| && s.tasks[i].Lookup? && s.tasks[i].lock.Some? ::
          MadeBy(s, s.tasks[i].lock.value, KeyOf(s.tasks[i])))
    && (forall key <- s.inflight :: MadeBy(s, s.inflight[key], key))
  }

  predicate MadeBy(s: State, maker: Id, key: Key) { IsLookup(s, maker) && KeyOf(s.tasks[maker]) == key }

  lemma MadeStep(s: State, a: Action, s': State)
    requires Made(s) && TasksStep(s, a, s') && InflightStep(s, a, s')
    ensures Made(s')
  {
    forall maker, key | MadeBy(s, maker, key) ensures MadeBy(s', maker, key) {}
    forall i | 0 <= i < |s'.tasks| && s'.tasks[i].Lookup? && s'.tasks[i].lock.Some?
      ensures MadeBy(s', s'.tasks[i].lock.value, KeyOf(s'.tasks[i]))
    {
      assert i < |s.tasks| && s.tasks[i].Lookup?;
    }
  }

  lemma {:induction false} MadeRun(net: Net, s: State, run: seq<Action>)
    requires Inv(net, s) && Made(s) && IsRun(net, s, run)
    ensures Made(After(net, s, run))
    decreases |run|
  {
    if run != [] {
      InvStep(net, s, run[0]);
      StepSummary(net, s, run[0]);
      MadeStep(s, run[0], Apply(net, s, run[0]));
      MadeRun(net, Apply(net, s, run[0]), run[1..]);
    }
  }

  /** What the step that gives a lock up, or lets it go, leaves of it. */
  lemma NotHeld(s: State, a: Action, s': State, lock: Id, h: Id)
    requires TasksStep(s, a, s') && h < |s.tasks| && s.tasks[h].Lookup?
    requires (a.Cleanup? || a.Drop? || a.Unlock?) && a.i == h
    requires forall j | 0 <= j < |s.tasks| && HoldsLock(s.tasks[j], lock) :: j == h
    ensures |s'.tasks| >= |s.tasks|
    ensures forall j | 0 <= j < |s'.tasks| && HoldsLock(s'.tasks[j], lock) :: j == h && a.Cleanup?
    ensures forall node :: PermitHolders(s', node) <= PermitHolders(s, node)
    ensures forall j | 0 <= j < |s.tasks| && s.tasks[j].Lookup? ::
              s'.tasks[j].Lookup? && s'.tasks[j].lock == s.tasks[j].lock
  {
    forall j | 0 <= j < |s'.tasks| && HoldsLock(s'.tasks[j], lock) ensures j == h && a.Cleanup? {
      NewHolder(s, a, s', j, lock);
    }
  }

  /** The lookup is before its race, under a lock that is not listed, with nothing cached. */
  predicate Stranded(s: State, w: Id) {
    && IsLookup(s, w) && NeedsEntry(s.tasks[w]) && !HasListedLock(s, s.tasks[w])
    && (s.tasks[w].stage.AwaitLock? || s.tasks[w].stage.Rechecking?) && KeyOf(s.tasks[w]) !in s.cache
  }

  ghost predicate Sound(net: Net, s: State) { Inv(net, s) && Exclusive(s) && Made(s) }

  lemma SoundAfter(net: Net, start: State, run: seq<Action>, s: State)
    requires Sound(net, start) && Reaches(net, start, run, s)
    ensures Sound(net, s)
  {
    InvRun(net, start, run);
    ExclusiveRun(net, start, run);
    MadeRun(net, start, run);
  }

  lemma ForgottenIsStranded(net: Net, s: State, key: Key, w: Id)
    requires Inv(net, s) && Kept(s, key) && w < |s.tasks| && Astray(s, s.tasks[w], key)
    ensures Stranded(s.(cache := s.cache - {key}), w)
  {
    assert TaskOk(net, s, w) && !MayRace(s.tasks[w], s.cache[key]);
  }

  lemma HolderLeaves(s: State, a: Action, s': State, key: Key, w: Id)
    requires Made(s) && (a.Cleanup? || a.Drop?) && Leaves(s, a, key, w)
    requires NeedsEntry(s.tasks[w]) && HasListedLock(s, s.tasks[w])
    requires TasksStep(s, a, s') && InflightStep(s, a, s') && CacheStep(s, a, s')
    ensures Stranded(s', w) && s'.tasks[w] == s.tasks[w]
    ensures PermitHolders(s', key.0) <= PermitHolders(s, key.0)
  {
    var lock := s.tasks[w].lock.value;
    assert MadeBy(s, lock, key) && MadeBy(s, lock, KeyOf(s.tasks[a.i]));
  }

  lemma Forgets(net: Net, s: State, key: Key)
    ensures Apply(net, s, Forget(key)) == s.(cache := s.cache - {key})
  {
  }

  /** What `Leaves` leaves. */
  lemma LeftStranded(net: Net, s: State, a: Action, s': State, key: Key, w: Id)
    requires Sound(net, s) && Kept(s, key) && Leaves(s, a, key, w) && Summary(s, a, s')
    requires a == Forget(key) ==> s' == s.(cache := s.cache - {key})
    ensures Stranded(s', w) && s'.tasks[w] == s.tasks[w]
    ensures PermitHolders(s', key.0) <= PermitHolders(s, key.0)
  {
    if a == Forget(key) {
      ForgottenIsStranded(net, s, key, w);
    } else {
      assert TaskOk(net, s, w) && !Astray(s, s.tasks[w], key);
      HolderLeaves(s, a, s', key, w);
    }
  }

  /** Whoever holds the lock goes: by unlocking if that is all it has left to do, or by
      being cancelled. */
  lemma LetsGo(net: Net, start: State, run0: seq<Action>, s: State, lock: Id)
    returns (run: seq<Action>, s': State)
    requires Sound(net, start) && Reaches(net, start, run0, s)
    ensures Reaches(net, start, run, s') && |s'.tasks| == |s.tasks| && s'.cache == s.cache
    ensures forall j | 0 <= j < |s'.tasks| :: !HoldsLock(s'.tasks[j], lock)
    ensures forall j | 0 <= j < |s.tasks| && s.tasks[j].Lookup? && !HoldsLock(s.tasks[j], lock) ::
              s'.tasks[j] == s.tasks[j]
    ensures forall key <- s'.inflight :: key in s.inflight && s'.inflight[key] == s.inflight[key]
    ensures forall node :: PermitHolders(s', node) <= PermitHolders(s, node)
  {
    run, s' := run0, s;
    if h :| 0 <= h < |s.tasks| && HoldsLock(s.tasks[h], lock) {
      SoundAfter(net, start, run0, s);
      var a := if s.tasks[h].stage.Leaving? then Unlock(h) else Drop(h);
      run, s' := Extend(net, start, run0, s, a);
      StepSummary(net, s, a);
      NotHeld(s, a, s', lock, h);
      Shrinks(net, s, a);
    }
  }

  lemma Shrinks(net: Net, s: State, a: Action)
    requires Enabled(net, s, a) && (a.Unlock? || a.Drop?)
    ensures |Apply(net, s, a).tasks| == |s.tasks| && Apply(net, s, a).cache == s.cache
    ensures forall key <- Apply(net, s, a).inflight ::
              key in s.inflight && Apply(net, s, a).inflight[key] == s.inflight[key]
  {
  }

  /** `w` has begun to race, and nothing else has changed. */
  ghost predicate Began(s: State, w: Id, s': State) {
    && IsLookup(s, w) && |s'.tasks| == |s.tasks| && s'.tasks == s.tasks[w := s'.tasks[w]]
    && s'.inflight == s.inflight && s'.cache == s.cache
    && s'.tasks[w].Lookup? && s'.tasks[w].lock == s.tasks[w].lock && KeyOf(s'.tasks[w]) == KeyOf(s.tasks[w])
    && HoldsPermit(s'.tasks[w], s.tasks[w].node)
    && PermitHolders(s', s.tasks[w].node) == PermitHolders(s, s.tasks[w].node) + {w}
  }

  /** A lookup under its lock ends what it is doing... */
  lemma EndsRequest(net: Net, start: State, run0: seq<Action>, s: State, w: Id) returns (run: seq<Action>, s': State)
    requires Reaches(net, start, run0, s) && IsLookup(s, w)
    ensures Reaches(net, start, run, s')
    ensures s' == s.(tasks := s.tasks[w := s.tasks[w].(http := Idle, stage := s.tasks[w].stage)])
  {
    run, s' := run0, s;
    if s.tasks[w].http.Idle? {
      assert s.tasks[w].(http := Idle, stage := s.tasks[w].stage) == s.tasks[w];
    } else {
      run, s' := Extend(net, start, run0, s, TimeOut(w));
    }
  }

  /** ...and has then looked at the caches, where there is nothing. */
  lemma LooksUp(net: Net, start: State, run0: seq<Action>, s: State, w: Id) returns (run: seq<Action>, s': State)
    requires Reaches(net, start, run0, s) && IsLookup(s, w) && s.tasks[w].stage.Rechecking? && s.tasks[w].http.Idle?
    requires KeyOf(s.tasks[w]) !in s.cache
    ensures Reaches(net, start, run, s') && |s'.tasks| == |s.tasks| && Enabled(net, s', Missed(w))
    ensures s' == s.(tasks := s.tasks[w := s.tasks[w].(view := s'.tasks[w].view)])
  {
    run, s' := run0, s;
    if !s.tasks[w].view.looked {
      run, s' := Extend(net, start, run0, s, Look(w));
    }
  }

  /** It finds nothing and races. */
  lemma HolderRaces(net: Net, start: State, run0: seq<Action>, s: State, w: Id)
    returns (run: seq<Action>, s': State)
    requires Reaches(net, start, run0, s) && Stranded(s, w) && s.tasks[w].stage.Rechecking?
    requires s.tasks[w].groups != [] && s.tasks[w].hop.Client?
    requires |PermitHolders(s, s.tasks[w].node)| < net.raceLimit(s.tasks[w].node)
    ensures Reaches(net, start, run, s') && Began(s, w, s')
  {
    run, s' := EndsRequest(net, start, run0, s, w);
    run, s' := LooksUp(net, start, run, s', w);
    var t := s'.tasks[w];
    run, s' := Extend(net, start, run, s', Missed(w));
    assert s' == s.(tasks := s.tasks[w := t.(stage := AwaitPermit)]);
    assert PermitHolders(s', t.node) == PermitHolders(s, t.node);
    run, s' := TakesPermit(net, start, run, s', w);
  }

  /** A newcomer races if nobody holds the lock that is listed for its key. */
  lemma NewcomerRaces(net: Net, start: State, run0: seq<Action>, s: State, node: Node, hash: Hash,
                      groups: seq<seq<Url>>) returns (run: seq<Action>, s': State)
    requires Reaches(net, start, run0, s) && ValidGroups(net, groups) && groups != [] && Made(s)
    requires (node, hash) !in s.cache && |PermitHolders(s, node)| < net.raceLimit(node)
    requires (node, hash) in s.inflight ==>
               forall j | 0 <= j < |s.tasks| :: !HoldsLock(s.tasks[j], s.inflight[(node, hash)])
    ensures Reaches(net, start, run, s') && |s'.tasks| == |s.tasks| + 1 && s'.tasks[..|s.tasks|] == s.tasks
    ensures var t := s'.tasks[|s.tasks|]; HoldsPermit(t, node) && KeyOf(t) == (node, hash)
  {
    var n := |s.tasks|;
    run, s' := NewcomerWaits(net, start, run0, s, node, hash, groups);
    assert s'.tasks[..n] == s.tasks;
    assert PermitHolders(s', node) == PermitHolders(s, node);
    run, s' := WaiterRaces(net, start, run, s', n);
  }

  /** First the stranded lookup... */
  lemma StrandedRaces(net: Net, start: State, w: Id) returns (run: seq<Action>, s': State)
    requires Sound(net, start) && Stranded(start, w) && start.tasks[w].groups != []
    requires |PermitHolders(start, start.tasks[w].node)| < net.raceLimit(start.tasks[w].node)
    ensures Reaches(net, start, run, s') && |s'.tasks| == |start.tasks| && s'.cache == start.cache
    ensures s'.tasks[w].Lookup? && KeyOf(s'.tasks[w]) == KeyOf(start.tasks[w])
            && HoldsPermit(s'.tasks[w], start.tasks[w].node) && s'.tasks[w].lock == start.tasks[w].lock
    ensures forall key <- s'.inflight :: key in start.inflight && s'.inflight[key] == start.inflight[key]
    ensures |PermitHolders(s', start.tasks[w].node)| <= |PermitHolders(start, start.tasks[w].node)| + 1
  {
    var t := start.tasks[w];
    assert TaskOk(net, start, w);
    if t.stage.Rechecking? {
      run, s' := HolderRaces(net, start, [], start, w);
    } else {
      run, s' := LetsGo(net, start, [], start, t.lock.value);
      SubsetSize(PermitHolders(s', t.node), PermitHolders(start, t.node));
      run, s' := WaiterRaces(net, start, run, s', w);
    }
  }

  /** ...and then a newcomer, whose lock is another one. */
  lemma TwoRacesFrom(net: Net, start: State, w: Id) returns (run: seq<Action>, s': State, n: Id)
    requires Sound(net, start) && Stranded(start, w) && start.tasks[w].groups != []
    requires |PermitHolders(start, start.tasks[w].node)| + 2 <= net.raceLimit(start.tasks[w].node)
    ensures Reaches(net, start, run, s') && w != n && w < |s'.tasks| && n < |s'.tasks|
    ensures HoldsPermit(s'.tasks[w], start.tasks[w].node) && HoldsPermit(s'.tasks[n], start.tasks[w].node)
    ensures KeyOf(s'.tasks[w]) == KeyOf(s'.tasks[n]) == KeyOf(start.tasks[w])
  {
    var t, key := start.tasks[w], KeyOf(start.tasks[w]);
    assert TaskOk(net, start, w);
    run, s' := StrandedRaces(net, start, w);
    var raced := s'.tasks[w];
    if key in s'.inflight {
      var permits := PermitHolders(s', t.node);
      run, s' := LetsGo(net, start, run, s', s'.inflight[key]);
      SubsetSize(PermitHolders(s', t.node), permits);
    }
    SoundAfter(net, start, run, s');
    n := |s'.tasks|;
    run, s' := NewcomerRaces(net, start, run, s', t.node, t.hash, t.groups);
    assert s'.tasks[w] == raced;
  }

  /** So it takes no more than a step that leaves a lookup stranded, and a second free
      permit, for two client lookups of one key to race on one node at once: the one
      that was left, and one that arrives now. */
  lemma StrandingLeadsToTwoRaces(net: Net, s: State, a: Action, key: Key, w: Id)
    returns (run: seq<Action>, s': State, n: Id)
    requires Sound(net, s) && Kept(s, key) && Enabled(net, s, a) && Leaves(s, a, key, w)
    requires s.tasks[w].groups != [] && |PermitHolders(s, key.0)| + 2 <= net.raceLimit(key.0)
    ensures Reaches(net, Apply(net, s, a), run, s')
    ensures w != n && w < |s'.tasks| && n < |s'.tasks|
    ensures HoldsPermit(s'.tasks[w], key.0) && HoldsPermit(s'.tasks[n], key.0)
    ensures KeyOf(s'.tasks[w]) == KeyOf(s'.tasks[n]) == key
  {
    var s0 := Apply(net, s, a);
    StepSummary(net, s, a);
    Forgets(net, s, key);
    LeftStranded(net, s, a, s0, key, w);
    SubsetSize(PermitHolders(s0, key.0), PermitHolders(s, key.0));
    OneStep(net, s, a);
    SoundAfter(net, s, [a], s0);
    run, s', n := TwoRacesFrom(net, s0, w);
  }

  lemma OneStep(net: Net, s: State, a: Action)
    requires Enabled(net, s, a)
    ensures Reaches(net, s, [a], Apply(net, s, a))
  {
    assert [a][1..] == [];
    assert IsRun(net, Apply(net, s, a), []);
  }

  /** A first lookup without candidates is done under its lock while a second waits. */
  lemma SecondWaits(net: Net) returns (run: seq<Action>, s: State)
    requires ValidNet(net) && net.maxUpstreams >= 1
    ensures Reaches(net, Start0, run, s)
    ensures s == State([Lookup(0, Client, Idle, 0, Settled, Nothing, Some(0), [], false, None),
                        Lookup(0, Client, Idle, 0, AwaitLock, Nothing, Some(0), [[5]], false, None)],
                       map[(0, 0) := 0], map[], 0, map[])
  {
    assert Reaches(net, Start0, [], Start0);
    run, s := NewcomerWaits(net, Start0, [], Start0, 0, 0, []);
    run, s := GetsLock(net, Start0, run, s, 0);
    run, s := NewcomerWaits(net, Start0, run, s, 0, 0, [[5]]);
    run, s := MissesAgain(net, Start0, run, s, 0);
  }

  /** A run from the empty network in which a lock is given up before a waiter with
      nothing cached, and which ends in two races. */
  lemma TwoRacesForOneHash(net: Net) returns (run: seq<Action>, s: State, i: Id, j: Id)
    requires ValidNet(net) && net.maxUpstreams >= 1 && net.raceLimit(0) >= 2
    ensures Reaches(net, Start0, run, s) && i != j && i < |s.tasks| && j < |s.tasks|
    ensures KeyOf(s.tasks[i]) == KeyOf(s.tasks[j]) && HoldsPermit(s.tasks[i], 0) && HoldsPermit(s.tasks[j], 0)
  {
    run, s := SecondWaits(net);
    assert PermitHolders(s, 0) == {};
    assert HoldsLock(s.tasks[0], 0) && Leaves(s, Cleanup(0), (0, 0), 1);
    run, s, j := ThenTwoRaces(net, run, s, Cleanup(0), 1);
    i := 1;
  }

  lemma ThenTwoRaces(net: Net, run0: seq<Action>, s: State, a: Action, w: Id)
    returns (run: seq<Action>, s': State, n: Id)
    requires Reaches(net, Start0, run0, s) && Enabled(net, s, a)
    requires Kept(s, (0, 0)) && Leaves(s, a, (0, 0), w) && s.tasks[w].groups != []
    requires PermitHolders(s, 0) == {} && net.raceLimit(0) >= 2
    ensures Reaches(net, Start0, run, s') && w != n && w < |s'.tasks| && n < |s'.tasks|
    ensures KeyOf(s'.tasks[w]) == KeyOf(s'.tasks[n]) && HoldsPermit(s'.tasks[w], 0) && HoldsPermit(s'.tasks[n], 0)
  {
    SoundAfter(net, Start0, run0, s);
    Then(net, Start0, run0, a);
    var rest;
    rest, s', n := StrandingLeadsToTwoRaces(net, s, a, (0, 0), w);
    Compose(net, Start0, run0 + [a], rest);
    run := run0 + [a] + rest;
  }

  /** A first lookup races while a second waits for its lock. */
  lemma FirstRaces(net: Net, url: Url) returns (run: seq<Action>, s: State)
    requires ValidNet(net) && net.maxUpstreams >= 1
    ensures Reaches(net, Start0, run, s)
    ensures s == State([Lookup(0, Client, Idle, 0, Choosing, Nothing, Some(0), [[url]], true, None),
                        Lookup(0, Client, Idle, 0, AwaitLock, Nothing, Some(0), [[url]], false, None)],
                       map[(0, 0) := 0], map[], 0, map[])
  {
    assert Reaches(net, Start0, [], Start0);
    run, s := NewcomerWaits(net, Start0, [], Start0, 0, 0, [[url]]);
    assert PermitHolders(s, 0) == {};
    run, s := WaiterRaces(net, Start0, run, s, 0);
    run, s := NewcomerWaits(net, Start0, run, s, 0, 0, [[url]]);
  }

  /** It leaves an outcome, and gives up its lock. */
  lemma SecondIsAstray(net: Net, url: Url) returns (run: seq<Action>, s: State)
    requires ValidNet(net) && net.maxUpstreams >= 1 && url !in net.owner
    ensures Reaches(net, Start0, run, s) && |s.tasks| == 3 && (0, 0) in s.cache && (0, 0) !in s.inflight
    ensures Waits(s.tasks[1], 0) && KeyOf(s.tasks[1]) == (0, 0) && s.tasks[1].groups != []
    ensures s.tasks[0].Lookup? && s.tasks[0].stage.Leaving? && s.tasks[2].Attempt?
  {
    run, s := FirstRaces(net, url);
    var waiter := s.tasks[1];
    assert GateHolders(net, s, 0, url, Client) == {};
    run, s := RaceRemembers(net, Start0, run, s, 0, url, true);
    assert s.tasks[1] == s.tasks[..2][1] == waiter;
    run, s := Extend(net, Start0, run, s, Cleanup(0));
  }

  /** And one in which the outcome is forgotten before the second has reused it. */
  lemma TwoRacesOnceForgotten(net: Net, url: Url) returns (run: seq<Action>, s: State, i: Id, j: Id)
    requires ValidNet(net) && net.maxUpstreams >= 1 && net.raceLimit(0) >= 2 && url !in net.owner
    ensures Reaches(net, Start0, run, s) && i != j && i < |s.tasks| && j < |s.tasks|
    ensures KeyOf(s.tasks[i]) == KeyOf(s.tasks[j]) && HoldsPermit(s.tasks[i], 0) && HoldsPermit(s.tasks[j], 0)
  {
    run, s := SecondIsAstray(net, url);
    assert PermitHolders(s, 0) == {};
    run, s, j := ThenTwoRaces(net, run, s, Forget((0, 0)), 1);
    i := 1;
  }
}
