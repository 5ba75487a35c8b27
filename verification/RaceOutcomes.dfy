/** What the outcome of a race says about the upstreams. */
module RaceOutcomes {
  import opened Race

  // ---- Every upstream of a group is accounted for

  lemma {:induction false} LeftIsFromGroup(group: seq<Url>, rounds: seq<Round>)
    requires Rounds(group, rounds)
    ensures forall u <- Left(group, rounds) :: u in group
    ensures forall r <- rounds :: (forall a <- r.attempts :: a.url in group)
                                  && (r.Won? ==> r.url in group && Attempt(r.url, Present) in r.attempts)
    decreases |rounds|
  {
    if rounds != [] {
      var earlier, r := rounds[..|rounds| - 1], rounds[|rounds| - 1];
      LeftIsFromGroup(group, earlier);
      AttemptIsFromGroup(Left(group, earlier), r);
      if r.Won? { WithoutMembers(Left(group, earlier), r.url); }
      assert forall x <- rounds :: x in earlier || x == r;
    }
  }

  lemma {:induction false} GoneHaveWon(group: seq<Url>, rounds: seq<Round>, u: Url)
    requires Rounds(group, rounds) && u in group && u !in Left(group, rounds)
    ensures exists r <- rounds :: r.Won? && r.url == u
    decreases |rounds|
  {
    var earlier, r := rounds[..|rounds| - 1], rounds[|rounds| - 1];
    if u in Left(group, earlier) {
      if r.Won? { WithoutMembers(Left(group, earlier), r.url); }
      assert r in rounds;
    } else {
      GoneHaveWon(group, earlier, u);
      var e :| e in earlier && e.Won? && e.url == u;
      assert e in rounds;
    }
  }

  /** Only the last round of a group can be final. */
  lemma {:induction false} EarlierAreNotFinal(group: seq<Url>, rounds: seq<Round>)
    requires Rounds(group, rounds) && !Ends(rounds)
    ensures forall r <- rounds :: !Final(r)
    decreases |rounds|
  {
    if rounds != [] {
      var earlier, r := rounds[..|rounds| - 1], rounds[|rounds| - 1];
      EarlierAreNotFinal(group, earlier);
      assert forall x <- rounds :: x in earlier || x == r;
    }
  }

  /** Whoever has not won in a group that ended without a result was asked in the
      last round, unless the deadline cut it short. */
  lemma LeftWereAsked(group: seq<Url>, rounds: seq<Round>, u: Url)
    requires GroupRun(group, rounds) && !Ends(rounds) && u in Left(group, rounds)
    ensures var r := rounds[|rounds| - 1];
            r.Lost? && (r.timedOut || exists a <- r.attempts :: a.url == u && a.reply != Present)
  {
    var r := rounds[|rounds| - 1];
    if !r.timedOut { EveryoneReplied(Left(group, rounds), r, u); }
  }

  // ---- Any replies

  /** A verdict rests on replies the race has seen. */
  lemma VerdictIsGrounded(groups: seq<seq<Url>>, trace: seq<seq<Round>>)
    requires IsRace(groups, trace)
    ensures match OutcomeOf(trace)
            case Accepted(u) =>
              exists i, r | 0 <= i < |trace| && r in trace[i] ::
                u in groups[i] && r.Won? && r.url == u && r.reply == Good && Attempt(u, Present) in r.attempts
            case NotFound =>
              exists i, r | 0 <= i < |trace| && r in trace[i] ::
                || (r.Won? && r.url in groups[i] && Definite(r.reply))
                || (exists a <- r.attempts :: a.url in groups[i] && a.reply == Absent)
            case _ => true
  {
    match OutcomeOf(trace) {
      case Accepted(u) =>
        var i := |trace| - 1;
        var r := trace[i][|trace[i]| - 1];
        LeftIsFromGroup(groups[i], trace[i]);
        assert r in trace[i];
      case NotFound =>
        var rounds :| rounds in trace && SomeDecisive(rounds);
        var i :| 0 <= i < |trace| && trace[i] == rounds;
        var r :| r in rounds && Decisive(r);
        LeftIsFromGroup(groups[i], rounds);
        assert r in trace[i];
      case _ =>
    }
  }

  // ---- Stable replies

  /** Upstreams that reply the same all through the race. */
  ghost predicate Stable(trace: seq<seq<Round>>, head: Url -> HeadReply, commit: Url -> CommitReply) {
    forall rounds <- trace :: StableRounds(rounds, head, commit)
  }

  ghost predicate StableRounds(rounds: seq<Round>, head: Url -> HeadReply, commit: Url -> CommitReply) {
    forall r <- rounds :: (forall a <- r.attempts :: a.reply == head(a.url)) && (r.Won? ==> r.reply == commit(r.url))
  }

  ghost predicate InTime(trace: seq<seq<Round>>) {
    forall rounds <- trace :: forall r <- rounds :: r.Lost? ==> !r.timedOut
  }

  predicate HasIt(head: Url -> HeadReply, commit: Url -> CommitReply, u: Url) {
    head(u) == Present && commit(u) == Good
  }

  predicate LacksIt(head: Url -> HeadReply, commit: Url -> CommitReply, u: Url) {
    head(u) == Absent || (head(u) == Present && Definite(commit(u)))
  }

  lemma StableGroup(group: seq<Url>, rounds: seq<Round>, head: Url -> HeadReply, commit: Url -> CommitReply)
    requires GroupRun(group, rounds) && !Ends(rounds)
    requires StableRounds(rounds, head, commit) && forall r <- rounds :: r.Lost? ==> !r.timedOut
    ensures forall u <- group :: !HasIt(head, commit, u)
    ensures SomeDecisive(rounds) <==> exists u <- group :: LacksIt(head, commit, u)
  {
    LeftIsFromGroup(group, rounds);
    EarlierAreNotFinal(group, rounds);
    forall u <- group ensures !HasIt(head, commit, u)
                      ensures LacksIt(head, commit, u) ==> SomeDecisive(rounds)
    {
      if u in Left(group, rounds) {
        LeftWereAsked(group, rounds, u);
        assert rounds[|rounds| - 1] in rounds;
      } else {
        GoneHaveWon(group, rounds, u);
      }
    }
    if SomeDecisive(rounds) {
      var r :| r in rounds && Decisive(r);
      if r.Won? {
        assert LacksIt(head, commit, r.url);
      } else {
        var a :| a in r.attempts && a.reply == Absent;
        assert LacksIt(head, commit, a.url);
      }
    }
  }

  predicate GroupHasIt(group: seq<Url>, head: Url -> HeadReply, commit: Url -> CommitReply) {
    exists u <- group :: HasIt(head, commit, u)
  }

  predicate GroupLacksIt(group: seq<Url>, head: Url -> HeadReply, commit: Url -> CommitReply) {
    exists u <- group :: LacksIt(head, commit, u)
  }

  /** Every group that was raced to no end has nobody with it, and its rounds proved a
      miss exactly if somebody lacks it. */
  lemma StableGroups(groups: seq<seq<Url>>, trace: seq<seq<Round>>, head: Url -> HeadReply, commit: Url -> CommitReply)
    requires IsRace(groups, trace) && Stable(trace, head, commit) && InTime(trace)
    ensures forall i | 0 <= i < |trace| && !Ends(trace[i]) ::
              && !GroupHasIt(groups[i], head, commit)
              && (SomeDecisive(trace[i]) <==> GroupLacksIt(groups[i], head, commit))
  {
    forall i | 0 <= i < |trace| && !Ends(trace[i])
      ensures !GroupHasIt(groups[i], head, commit)
      ensures SomeDecisive(trace[i]) <==> GroupLacksIt(groups[i], head, commit)
    {
      assert trace[i] in trace;
      StableGroup(groups[i], trace[i], head, commit);
    }
  }

  /** The winner that ended the race has it. */
  lemma StableWinner(groups: seq<seq<Url>>, trace: seq<seq<Round>>, head: Url -> HeadReply, commit: Url -> CommitReply)
    requires IsRace(groups, trace) && Stable(trace, head, commit)
    requires trace != [] && Ends(trace[|trace| - 1]) && OutcomeOf(trace).Accepted?
    ensures OutcomeOf(trace).url in groups[|trace| - 1] && HasIt(head, commit, OutcomeOf(trace).url)
  {
    var i := |trace| - 1;
    var r := trace[i][|trace[i]| - 1];
    LeftIsFromGroup(groups[i], trace[i]);
    assert trace[i] in trace && r in trace[i];
  }

  lemma AnyDecisiveIff(trace: seq<seq<Round>>)
    ensures AnyDecisive(trace) <==> exists i | 0 <= i < |trace| :: SomeDecisive(trace[i])
  {
    if AnyDecisive(trace) {
      var rounds :| rounds in trace && SomeDecisive(rounds);
      var i :| 0 <= i < |trace| && trace[i] == rounds;
    }
    if i :| 0 <= i < |trace| && SomeDecisive(trace[i]) { assert trace[i] in trace; }
  }

  /** With stable replies, in time, and unless the database fails: whoever has an
      acceptable narinfo makes the race accept one, from the first group that has
      any; else one certain miss makes it NotFound; else it is UpstreamUnavailable. */
  lemma StableRaceIsExact(groups: seq<seq<Url>>, trace: seq<seq<Round>>,
                          head: Url -> HeadReply, commit: Url -> CommitReply)
    requires IsRace(groups, trace) && Stable(trace, head, commit) && InTime(trace)
    requires OutcomeOf(trace) != DatabaseError
    ensures var someone := exists i | 0 <= i < |groups| :: GroupHasIt(groups[i], head, commit);
            var miss := exists i | 0 <= i < |groups| :: GroupLacksIt(groups[i], head, commit);
            match OutcomeOf(trace)
            case Accepted(u) =>
              exists i | 0 <= i < |groups| ::
                && u in groups[i] && HasIt(head, commit, u)
                && forall j | 0 <= j < i :: !GroupHasIt(groups[j], head, commit)
            case NotFound => !someone && miss
            case UpstreamUnavailable => !someone && !miss
            case _ => false
  {
    StableGroups(groups, trace, head, commit);
    if trace != [] && Ends(trace[|trace| - 1]) {
      StableWinner(groups, trace, head, commit);
      assert forall j | 0 <= j < |trace| - 1 :: !GroupHasIt(groups[j], head, commit);
    } else {
      assert |trace| == |groups|;
      AnyDecisiveIff(trace);
    }
  }

  /** In terms of the candidates: one good effective candidate forces acceptance,
      of a good one with the lowest priority number. */
  lemma GoodCandidateIsAccepted(urls: seq<Url>, priorities: map<Url, int>, keys: seq<int>, groups: seq<seq<Url>>,
                                trace: seq<seq<Round>>, head: Url -> HeadReply, commit: Url -> CommitReply, good: Url)
    requires Grouped(urls, priorities, keys, groups)
    requires IsRace(groups, trace) && Stable(trace, head, commit) && InTime(trace)
    requires OutcomeOf(trace) != DatabaseError
    requires good in urls && HasIt(head, commit, good)
    ensures OutcomeOf(trace).Accepted?
    ensures var u := OutcomeOf(trace).url;
            u in urls && HasIt(head, commit, u) && Priority(priorities, u) <= Priority(priorities, good)
  {
    StableRaceIsExact(groups, trace, head, commit);
    var k := GroupOf(urls, priorities, keys, groups, good);
    assert GroupHasIt(groups[k], head, commit);
    var u := OutcomeOf(trace).url;
    var i :| 0 <= i < |groups| && u in groups[i] && HasIt(head, commit, u)
             && forall j | 0 <= j < i :: !GroupHasIt(groups[j], head, commit);
    WithPriorityMembers(urls, priorities, keys[i]);
    assert !(k < i);
  }

  /** A candidate is in the group of its priority. */
  lemma GroupOf(urls: seq<Url>, priorities: map<Url, int>, keys: seq<int>, groups: seq<seq<Url>>, u: Url)
    returns (k: nat)
    requires Grouped(urls, priorities, keys, groups) && u in urls
    ensures k < |groups| && keys[k] == Priority(priorities, u) && u in groups[k]
  {
    var p := Priority(priorities, u);
    assert p in keys;
    k :| 0 <= k < |keys| && keys[k] == p;
    WithPriorityMembers(urls, priorities, p);
  }

  // ---- Changing replies: a miss can be forgotten

  ghost predicate SawMiss(trace: seq<seq<Round>>) {
    exists rounds <- trace :: exists r <- rounds :: MissIn(r)
  }

  ghost predicate MissIn(r: Round) {
    || (r.Won? && Definite(r.reply))
    || exists a <- r.attempts :: a.reply == Absent
  }

  const NobodyReplied := Lost([], true)

  lemma SilentGroup(group: seq<Url>)
    requires group != []
    ensures GroupRun(group, [NobodyReplied]) && !Ends([NobodyReplied]) && !SomeDecisive([NobodyReplied])
  {
    SnocRounds(group, [], NobodyReplied);
    assert [] + [NobodyReplied] == [NobodyReplied];
  }

  /** The first two of a group: one does not have the path, the other does but
      cannot be fetched from, and then nobody replies any more. */
  lemma ForgetfulGroup(group: seq<Url>) returns (rounds: seq<Round>)
    requires |group| >= 2
    ensures GroupRun(group, rounds) && !Ends(rounds) && !SomeDecisive(rounds)
    ensures exists r <- rounds :: MissIn(r)
  {
    var r := Forgotten(group);
    SnocRounds(group, [], r);
    assert [] + [r] == [r];
    rounds := [r];
    if Left(group, rounds) != [] {
      SnocRounds(group, rounds, NobodyReplied);
      rounds := rounds + [NobodyReplied];
    }
    assert rounds[0] == r;
  }

  lemma Forgotten(group: seq<Url>) returns (r: Round)
    requires |group| >= 2
    ensures RoundOk(group, r) && MissIn(r) && r.Won? && r.reply == Unreachable
  {
    var attempts := [Attempt(group[0], Absent), Attempt(group[1], Present)];
    r := Won(attempts, group[1], Unreachable);
    assert Urls(attempts) == group[..2] && group == group[..2] + group[2..];
    assert attempts[0] in r.attempts;
    assert attempts[..1] == [attempts[0]];
  }

  lemma ForgetfulRace(groups: seq<seq<Url>>, k: nat) returns (trace: seq<seq<Round>>)
    requires forall i | 0 <= i < |groups| :: groups[i] != []
    requires k < |groups| && |groups[k]| >= 2
    ensures IsRace(groups, trace) && OutcomeOf(trace) == UpstreamUnavailable && SawMiss(trace)
  {
    var rounds := ForgetfulGroup(groups[k]);
    trace := seq(|groups|, i => if i == k then rounds else [NobodyReplied]);
    forall i | 0 <= i < |groups|
      ensures GroupRun(groups[i], trace[i]) && !Ends(trace[i]) && !SomeDecisive(trace[i])
    {
      SilentGroup(groups[i]);
    }
    assert trace[k] in trace;
  }

  lemma SingleRound(group: seq<Url>, rounds: seq<Round>)
    requires |group| == 1 && GroupRun(group, rounds)
    ensures |rounds| == 1
  {
    assert rounds != [];
    var first := rounds[0];
    if |rounds| > 1 {
      FirstRound(group, rounds);
      SnocRounds(group, [], first);
      assert [] + [first] == [first];
      AttemptIsFromGroup(group, first);
      WithoutMembers(group, first.url);
    }
  }

  lemma {:induction false} FirstRound(group: seq<Url>, rounds: seq<Round>)
    requires Rounds(group, rounds) && |rounds| > 1
    ensures RoundOk(group, rounds[0]) && rounds[0].Won? && Left(group, rounds[..1]) != []
    decreases |rounds|
  {
    var earlier := rounds[..|rounds| - 1];
    if |rounds| > 2 {
      FirstRound(group, earlier);
      assert earlier[..1] == rounds[..1];
    } else {
      assert earlier == rounds[..1] && earlier[..0] == [];
    }
  }

  /** UpstreamUnavailable means that no miss was seen exactly if no two candidates
      share a priority. A group of two can forget a miss: the round that saw it was
      won, the winner could not be fetched from, and the next round times out. */
  lemma UnavailableIsHonestIff(groups: seq<seq<Url>>)
    requires forall i | 0 <= i < |groups| :: groups[i] != []
    ensures (forall trace | IsRace(groups, trace) && OutcomeOf(trace) == UpstreamUnavailable :: !SawMiss(trace))
            <==> forall i | 0 <= i < |groups| :: |groups[i]| == 1
  {
    if k :| 0 <= k < |groups| && |groups[k]| != 1 {
      var trace := ForgetfulRace(groups, k);
    } else {
      forall trace | IsRace(groups, trace) && OutcomeOf(trace) == UpstreamUnavailable ensures !SawMiss(trace) {
        if SawMiss(trace) { MissIsDecisive(groups, trace); }
      }
    }
  }

  lemma MissIsDecisive(groups: seq<seq<Url>>, trace: seq<seq<Round>>)
    requires forall i | 0 <= i < |groups| :: |groups[i]| == 1
    requires IsRace(groups, trace) && SawMiss(trace)
    ensures AnyDecisive(trace)
  {
    var rounds :| rounds in trace && exists r <- rounds :: MissIn(r);
    var r :| r in rounds && MissIn(r);
    var i :| 0 <= i < |trace| && trace[i] == rounds;
    SingleRound(groups[i], rounds);
    assert rounds == [r] && rounds[..0] == [];
    assert RoundOk(groups[i], r);
    if r.Won? {
      LonelyWinner(groups[i], r);
    }
    assert Decisive(r);
  }

  lemma LonelyWinner(group: seq<Url>, r: Round)
    requires |group| == 1 && RoundOk(group, r) && r.Won?
    ensures forall a <- r.attempts :: a.reply != Absent
  {
    var asked := multiset(Urls(r.attempts));
    assert multiset(group) == asked + (multiset(group) - asked);
    assert |asked| == |Urls(r.attempts)| && |multiset(group)| == |group|;
    assert |r.attempts| == 1;
  }
}
