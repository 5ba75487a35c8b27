/** What a step of the lookup protocol changes, in terms of locks, stages and what
    lookups know of the caches. */
module Steps {
  import opened Wrappers
  import opened Protocol

  /** How the lookup that takes a step changes. */
  ghost predicate ActorStep(s: State, a: Action, t: Task, t': Task)
    requires t.Lookup? && HasActor(a) && a.i < |s.tasks|
  {
    && t'.Lookup? && KeyOf(t') == KeyOf(t) && t'.hop == t.hop
    && (!a.Missed? ==> t'.lock == t.lock)
    && (!a.Missed? && !a.Permit? ==> t'.raced == t.raced)
    && match a
       case Look(_) =>
         t'.stage == t.stage && t'.view.looked && t'.view.seen == Looked(s, t).view.seen
       case Read(_) | Fetch(_, _) | Serve(_, _) | Answer(_, _) | TimeOut(_) =>
         t'.stage == t.stage && t'.view.looked == t.view.looked && t'.view.seen == t.view.seen
       case Missed(i) =>
         Resolving(t) && t.view.looked && !Answered(s, t) && IsLookup(s, i) && t' == MissedLookup(s, i).0
       case Hit(_) =>
         Resolving(t) && t'.stage == (if t.lock.Some? then Settled else Done)
       case Accept(_) | Return(_, _) =>
         InRace(t.stage) && t'.stage == (if t.lock.Some? then Settled else Done)
       case Lock(_) =>
         && t.stage.AwaitLock? && t'.stage.Rechecking? && t'.view == Blank && t.lock.Some?
         && forall j | 0 <= j < |s.tasks| :: !HoldsLock(s.tasks[j], t.lock.value)
       case Permit(_) => t.stage.AwaitPermit? && InRace(t'.stage)
       case Start(_) | NextGroup(_) | Reject(_) | Deadline(_) => InRace(t.stage) && InRace(t'.stage)
       case Join(_, _) => InRace(t.stage) && InRace(t'.stage)
       case Cleanup(_) => t.stage.Settled? && t'.stage.Leaving?
       case Unlock(_) => t.stage.Leaving? && t'.stage.Done?
       case Drop(_) => Live(t) && t'.stage.Done?
       case _ => false
  }

  /** A task that has just been made. */
  predicate IsNew(t: Task) {
    if t.Lookup? then t.stage.Checking? && t.lock.None? && t.view == Blank && !t.raced else t.phase.AwaitGate?
  }

  /** Besides the actor, attempts may be aborted and new tasks made. */
  ghost predicate TasksStep(s: State, a: Action, s': State) {
    && |s'.tasks| >= |s.tasks|
    && (forall j | |s.tasks| <= j < |s'.tasks| :: IsNew(s'.tasks[j]))
    && (HasActor(a) ==> a.i < |s.tasks|)
    && (forall j | 0 <= j < |s.tasks| && s.tasks[j].Lookup? ::
          if HasActor(a) && a.i == j then ActorStep(s, a, s.tasks[j], s'.tasks[j]) else s'.tasks[j] == s.tasks[j])
    && (forall j | 0 <= j < |s.tasks| && s.tasks[j].Attempt? :: s'.tasks[j].Attempt?)
  }

  ghost predicate InflightStep(s: State, a: Action, s': State)
    requires HasActor(a) ==> a.i < |s.tasks|
  {
    match a
    case Missed(i) => IsLookup(s, i) && s'.inflight == MissedLookup(s, i).1
    case Cleanup(i) =>
      IsLookup(s, i) && s'.inflight == RemoveIfSame(s.inflight, KeyOf(s.tasks[i]), s.tasks[i].lock)
    case Drop(i) =>
      && IsLookup(s, i)
      && s'.inflight == if s.tasks[i].stage.AwaitLock? then s.inflight
                        else RemoveIfSame(s.inflight, KeyOf(s.tasks[i]), s.tasks[i].lock)
    case _ => s'.inflight == s.inflight
  }

  /** Only the end of a race makes an outcome stand, and only `Forget` ends it. */
  ghost predicate CacheStep(s: State, a: Action, s': State) {
    && (forall key | key in s.cache && a != Forget(key) :: key in s'.cache && s'.cache[key] == s.cache[key])
    && (forall key | key in s'.cache && key !in s.cache ::
          (a.Accept? || (a.Return? && a.remember)) && IsLookup(s, a.i) && KeyOf(s.tasks[a.i]) == key)
  }

  /** Only `EnterGate` lets an attempt into its gate. */
  predicate AttemptStep(a: Action, j: Id, t: Task, t': Task)
    requires t.Attempt?
  {
    && t'.Attempt? && t'.node == t.node && t'.url == t.url && t'.hop == t.hop
    && (t'.phase.Head? ==> t.phase.Head? || a == EnterGate(j))
  }

  predicate AttemptsStep(s: State, a: Action, s': State) {
    && |s'.tasks| >= |s.tasks|
    && (forall j | 0 <= j < |s.tasks| && s.tasks[j].Attempt? :: AttemptStep(a, j, s.tasks[j], s'.tasks[j]))
    && (forall j | 0 <= j < |s.tasks| && s.tasks[j].Lookup? :: s'.tasks[j].Lookup?)
    && (forall j | |s.tasks| <= j < |s'.tasks| && s'.tasks[j].Attempt? :: s'.tasks[j].phase.AwaitGate?)
  }

  ghost predicate Summary(s: State, a: Action, s': State) {
    TasksStep(s, a, s') && InflightStep(s, a, s') && CacheStep(s, a, s') && AttemptsStep(s, a, s')
  }

  lemma ReadingSummary(net: Net, s: State, a: Action)
    requires Enabled(net, s, a) && (a.Look? || a.Read?)
    ensures Summary(s, a, Apply(net, s, a))
  {
  }

  lemma FetchSummary(net: Net, s: State, a: Action)
    requires Enabled(net, s, a) && a.Fetch?
    ensures Summary(s, a, Apply(net, s, a))
  {
  }

  lemma HitSummary(net: Net, s: State, a: Action)
    requires Enabled(net, s, a) && a.Hit?
    ensures Summary(s, a, Apply(net, s, a))
  {
  }

  lemma MissedSummary(net: Net, s: State, a: Action)
    requires Enabled(net, s, a) && a.Missed?
    ensures Summary(s, a, Apply(net, s, a))
  {
  }

  lemma AcquiringSummary(net: Net, s: State, a: Action)
    requires Enabled(net, s, a) && (a.Lock? || a.Permit?)
    ensures Summary(s, a, Apply(net, s, a))
  {
  }

  lemma CleanupSummary(net: Net, s: State, a: Action)
    requires Enabled(net, s, a) && a.Cleanup?
    ensures Summary(s, a, Apply(net, s, a))
  {
  }

  lemma UnlockSummary(net: Net, s: State, a: Action)
    requires Enabled(net, s, a) && a.Unlock?
    ensures Summary(s, a, Apply(net, s, a))
  {
  }

  lemma StartSummary(net: Net, s: State, a: Action)
    requires Enabled(net, s, a) && a.Start?
    ensures Summary(s, a, Apply(net, s, a))
  {
  }

  lemma RacingSummary(net: Net, s: State, a: Action)
    requires Enabled(net, s, a) && (a.NextGroup? || a.Reject?)
    ensures Summary(s, a, Apply(net, s, a))
  {
  }

  lemma WinningSummary(net: Net, s: State, a: Action)
    requires Enabled(net, s, a) && a.Join? && s.tasks[a.a].phase.reply.Winner?
    ensures Summary(s, a, Apply(net, s, a))
  {
  }

  lemma LosingSummary(net: Net, s: State, a: Action)
    requires Enabled(net, s, a) && a.Join? && !s.tasks[a.a].phase.reply.Winner?
    ensures Summary(s, a, Apply(net, s, a))
  {
  }

  lemma DeadlineSummary(net: Net, s: State, a: Action)
    requires Enabled(net, s, a) && a.Deadline?
    ensures Summary(s, a, Apply(net, s, a))
  {
  }

  lemma DropSummary(net: Net, s: State, a: Action)
    requires Enabled(net, s, a) && a.Drop?
    ensures Summary(s, a, Apply(net, s, a))
  {
  }

  lemma AcceptSummary(net: Net, s: State, a: Action)
    requires Enabled(net, s, a) && a.Accept?
    ensures Summary(s, a, Apply(net, s, a))
  {
  }

  lemma ReturnSummary(net: Net, s: State, a: Action)
    requires Enabled(net, s, a) && a.Return?
    ensures Summary(s, a, Apply(net, s, a))
  {
  }

  lemma EnteringSummary(net: Net, s: State, a: Action)
    requires Inv(net, s) && Enabled(net, s, a) && a.EnterGate?
    ensures Summary(s, a, Apply(net, s, a))
  {
  }

  lemma ReplySummary(net: Net, s: State, a: Action)
    requires Inv(net, s) && Enabled(net, s, a) && (a.Answer? || a.TimeOut?)
    ensures Summary(s, a, Apply(net, s, a))
  {
  }

  lemma ServingSummary(net: Net, s: State, a: Action)
    requires Enabled(net, s, a) && a.Serve?
    ensures Summary(s, a, Apply(net, s, a))
  {
  }

  lemma ArrivalSummary(net: Net, s: State, a: Action)
    requires Enabled(net, s, a) && a.Arrive?
    ensures Summary(s, a, Apply(net, s, a))
  {
  }

  lemma CacheEventSummary(net: Net, s: State, a: Action)
    requires Enabled(net, s, a) && IsCacheEvent(a)
    ensures Summary(s, a, Apply(net, s, a))
  {
  }

  lemma StepSummary(net: Net, s: State, a: Action)
    requires Inv(net, s) && Enabled(net, s, a)
    ensures Summary(s, a, Apply(net, s, a))
  {
    match a
    case Look(_) | Read(_) => ReadingSummary(net, s, a);
    case Fetch(_, _) => FetchSummary(net, s, a);
    case Hit(_) => HitSummary(net, s, a);
    case Missed(_) => MissedSummary(net, s, a);
    case Lock(_) | Permit(_) => AcquiringSummary(net, s, a);
    case Cleanup(_) => CleanupSummary(net, s, a);
    case Unlock(_) => UnlockSummary(net, s, a);
    case Start(_) => StartSummary(net, s, a);
    case NextGroup(_) | Reject(_) => RacingSummary(net, s, a);
    case Join(_, k) =>
      if s.tasks[k].phase.reply.Winner? { WinningSummary(net, s, a); } else { LosingSummary(net, s, a); }
    case Deadline(_) => DeadlineSummary(net, s, a);
    case Drop(_) => DropSummary(net, s, a);
    case Accept(_) => AcceptSummary(net, s, a);
    case Return(_, _) => ReturnSummary(net, s, a);
    case EnterGate(_) => EnteringSummary(net, s, a);
    case Answer(_, _) | TimeOut(_) => ReplySummary(net, s, a);
    case Serve(_, _) => ServingSummary(net, s, a);
    case Arrive(_, _, _, _) => ArrivalSummary(net, s, a);
    case _ => CacheEventSummary(net, s, a);
  }
}
