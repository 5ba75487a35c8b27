/** A race: the HEAD requests to one priority group at a time, the fetch from each
    winner, and what the lookup is told in the end. Replies, their order and the
    deadlines are the environment's choice at every point. */
module Race {
  import opened Ordering
  import opened Wrappers

  type Url = string

  /** How one HEAD attempt ends; a crashed one panicked. */
  datatype HeadReply = Present | Absent | Broken | Crashed

  /** How fetching and committing a winner's narinfo ends. */
  datatype CommitReply = Good | Rejected | Missing | BadSignature | Unparsable | Unreachable | DbFailure

  datatype Attempt = Attempt(url: Url, reply: HeadReply)

  /** One call of race_group and, after a win, of commit_winner. */
  datatype Round =
    | Won(attempts: seq<Attempt>, url: Url, reply: CommitReply)
    | Lost(attempts: seq<Attempt>, timedOut: bool)

  datatype GroupResult = Winner(url: Url) | NoneHasIt | NetworkError | Timeout

  datatype Outcome = Accepted(url: Url) | NotFound | UpstreamUnavailable | NoCandidates | DatabaseError

  const I32_MAX := 0x7fff_ffff

  function Priority(priorities: map<Url, int>, url: Url): int {
    if url in priorities then priorities[url] else I32_MAX
  }

  function Uncooled(candidates: seq<Url>, cooldown: map<Url, nat>, now: nat): seq<Url> {
    if candidates == [] then []
    else
      var rest := Uncooled(candidates[..|candidates| - 1], cooldown, now);
      var url := candidates[|candidates| - 1];
      if url in cooldown && now < cooldown[url] then rest else rest + [url]
  }

  function Effective(candidates: seq<Url>, cooldown: map<Url, nat>, now: nat): seq<Url> {
    var uncooled := Uncooled(candidates, cooldown, now);
    if uncooled == [] then candidates else uncooled
  }

  function WithPriority(urls: seq<Url>, priorities: map<Url, int>, p: int): seq<Url> {
    if urls == [] then []
    else
      var rest := WithPriority(urls[..|urls| - 1], priorities, p);
      var url := urls[|urls| - 1];
      if Priority(priorities, url) == p then rest + [url] else rest
  }

  function Without(urls: seq<Url>, gone: Url): seq<Url> {
    if urls == [] then []
    else
      var rest := Without(urls[..|urls| - 1], gone);
      var url := urls[|urls| - 1];
      if url == gone then rest else rest + [url]
  }

  function Urls(attempts: seq<Attempt>): seq<Url> {
    seq(|attempts|, i requires 0 <= i < |attempts| => attempts[i].url)
  }

  // ---- What a race may look like from outside

  /** A round ends with the first upstream that has the path. Without one it ends
      when every upstream has replied, or before that at the deadline. */
  ghost predicate RoundOk(group: seq<Url>, r: Round) {
    && multiset(Urls(r.attempts)) <= multiset(group)
    && match r
       case Won(attempts, url, _) =>
         && attempts != []
         && attempts[|attempts| - 1] == Attempt(url, Present)
         && forall a <- attempts[..|attempts| - 1] :: a.reply != Present
       case Lost(attempts, timedOut) =>
         && (forall a <- attempts :: a.reply != Present)
         && (timedOut || multiset(Urls(attempts)) == multiset(group))
  }

  predicate Final(r: Round) { r.Won? && (r.reply.Good? || r.reply.DbFailure?) }

  predicate Ends(rounds: seq<Round>) { rounds != [] && Final(rounds[|rounds| - 1]) }

  /** The candidates a group has left: winners that were no good are out. */
  function Left(group: seq<Url>, rounds: seq<Round>): seq<Url> {
    if rounds == [] then group
    else
      var left := Left(group, rounds[..|rounds| - 1]);
      match rounds[|rounds| - 1]
      case Won(_, url, _) => Without(left, url)
      case Lost(_, _) => left
  }

  ghost predicate Rounds(group: seq<Url>, rounds: seq<Round>) {
    rounds == [] ||
    var earlier := rounds[..|rounds| - 1];
    && Rounds(group, earlier)
    && (earlier == [] || (earlier[|earlier| - 1].Won? && !Ends(earlier)))
    && Left(group, earlier) != []
    && RoundOk(Left(group, earlier), rounds[|rounds| - 1])
  }

  /** All the rounds of one group: until one is lost or final, or nobody is left. */
  ghost predicate GroupRun(group: seq<Url>, rounds: seq<Round>) {
    && Rounds(group, rounds)
    && (Left(group, rounds) == [] || (rounds != [] && (rounds[|rounds| - 1].Lost? || Ends(rounds))))
  }

  /** Group after group, up to a final round. */
  ghost predicate IsRace(groups: seq<seq<Url>>, trace: seq<seq<Round>>) {
    && |trace| <= |groups|
    && (forall i | 0 <= i < |trace| :: GroupRun(groups[i], trace[i]))
    && (forall i | 0 <= i < |trace| - 1 :: !Ends(trace[i]))
    && (|trace| < |groups| ==> trace != [] && Ends(trace[|trace| - 1]))
  }

  /** The winner certainly has no acceptable narinfo. */
  predicate Definite(reply: CommitReply) {
    reply.Rejected? || reply.Missing? || reply.BadSignature? || reply.Unparsable?
  }

  /** The round proves that some upstream does not have an acceptable narinfo. */
  ghost predicate Decisive(r: Round) {
    match r
    case Won(_, _, reply) => Definite(reply)
    case Lost(attempts, _) => exists a <- attempts :: a.reply == Absent
  }

  ghost predicate SomeDecisive(rounds: seq<Round>) { exists r <- rounds :: Decisive(r) }

  ghost predicate AnyDecisive(trace: seq<seq<Round>>) { exists rounds <- trace :: SomeDecisive(rounds) }

  ghost function OutcomeOf(trace: seq<seq<Round>>): Outcome {
    if trace != [] && Ends(trace[|trace| - 1]) then
      var last := trace[|trace| - 1];
      var r := last[|last| - 1];
      if r.reply.Good? then Accepted(r.url) else DatabaseError
    else if AnyDecisive(trace) then NotFound
    else UpstreamUnavailable
  }

  /** The groups are the candidates by priority, lowest number first. */
  ghost predicate Grouped(urls: seq<Url>, priorities: map<Url, int>, keys: seq<int>, groups: seq<seq<Url>>) {
    && |keys| == |groups|
    && (forall i, j | 0 <= i < j < |keys| :: keys[i] < keys[j])
    && (forall i | 0 <= i < |keys| :: groups[i] == WithPriority(urls, priorities, keys[i]))
    && (forall p :: p in keys <==> exists url <- urls :: Priority(priorities, url) == p)
  }

  // ---- Who is cooled down

  function BrokenOf(attempts: seq<Attempt>): set<Url> {
    set a <- attempts | a.reply == Broken :: a.url
  }

  function BrokenIn(r: Round): set<Url> {
    BrokenOf(r.attempts) + if r.Won? && r.reply.Unreachable? then {r.url} else {}
  }

  function BrokenRounds(rounds: seq<Round>): set<Url> {
    if rounds == [] then {} else BrokenRounds(rounds[..|rounds| - 1]) + BrokenIn(rounds[|rounds| - 1])
  }

  function BrokenTrace(trace: seq<seq<Round>>): set<Url> {
    if trace == [] then {} else BrokenTrace(trace[..|trace| - 1]) + BrokenRounds(trace[|trace| - 1])
  }

  /** Exactly `broken` are newly cooled down, for a full window from `start` on. */
  ghost predicate Marked(before: map<Url, nat>, after: map<Url, nat>, broken: set<Url>, until: nat) {
    && after.Keys == before.Keys + broken
    && (forall url | url in before && url !in broken :: after[url] == before[url])
    && (forall url <- broken :: until <= after[url])
  }

  // ---- Small facts

  lemma {:induction false} WithoutMembers(urls: seq<Url>, gone: Url)
    ensures forall u :: u in Without(urls, gone) <==> u in urls && u != gone
    ensures |Without(urls, gone)| <= |urls|
    ensures gone in urls ==> |Without(urls, gone)| < |urls|
    decreases |urls|
  {
    if urls != [] {
      WithoutMembers(urls[..|urls| - 1], gone);
      assert urls == urls[..|urls| - 1] + [urls[|urls| - 1]];
    }
  }

  lemma {:induction false} WithPriorityMembers(urls: seq<Url>, priorities: map<Url, int>, p: int)
    ensures forall u :: u in WithPriority(urls, priorities, p) <==> u in urls && Priority(priorities, u) == p
    decreases |urls|
  {
    if urls != [] {
      WithPriorityMembers(urls[..|urls| - 1], priorities, p);
      assert urls == urls[..|urls| - 1] + [urls[|urls| - 1]];
    }
  }

  lemma UrlsAppend(attempts: seq<Attempt>, a: Attempt)
    ensures Urls(attempts + [a]) == Urls(attempts) + [a.url]
  {
  }

  lemma AttemptIsFromGroup(group: seq<Url>, r: Round)
    requires RoundOk(group, r)
    ensures forall a <- r.attempts :: a.url in group
    ensures r.Won? ==> r.url in group && Attempt(r.url, Present) in r.attempts
  {
    forall a <- r.attempts ensures a.url in group {
      var i :| 0 <= i < |r.attempts| && r.attempts[i] == a;
      assert Urls(r.attempts)[i] == a.url;
      assert a.url in multiset(Urls(r.attempts));
      assert a.url in multiset(group);
    }
  }

  lemma EveryoneReplied(group: seq<Url>, r: Round, url: Url)
    requires RoundOk(group, r) && r.Lost? && !r.timedOut && url in group
    ensures exists a <- r.attempts :: a.url == url
  {
    assert url in multiset(group);
    assert url in Urls(r.attempts);
    var i :| 0 <= i < |r.attempts| && Urls(r.attempts)[i] == url;
    assert r.attempts[i] in r.attempts;
  }

  lemma SnocDecisive(rounds: seq<Round>, r: Round)
    ensures SomeDecisive(rounds + [r]) <==> SomeDecisive(rounds) || Decisive(r)
  {
    forall x ensures x in rounds + [r] <==> x in rounds || x == r {}
  }

  lemma SnocAnyDecisive(trace: seq<seq<Round>>, rounds: seq<Round>)
    ensures AnyDecisive(trace + [rounds]) <==> AnyDecisive(trace) || SomeDecisive(rounds)
  {
    forall x ensures x in trace + [rounds] <==> x in trace || x == rounds {}
  }

  lemma SnocRounds(group: seq<Url>, rounds: seq<Round>, r: Round)
    ensures (rounds + [r])[..|rounds|] == rounds
    ensures Left(group, rounds + [r]) ==
            if r.Won? then Without(Left(group, rounds), r.url) else Left(group, rounds)
    ensures Rounds(group, rounds + [r]) <==>
            && Rounds(group, rounds) && Left(group, rounds) != [] && RoundOk(Left(group, rounds), r)
            && (rounds == [] || (rounds[|rounds| - 1].Won? && !Ends(rounds)))
    ensures BrokenRounds(rounds + [r]) == BrokenRounds(rounds) + BrokenIn(r)
  {
    assert (rounds + [r])[..|rounds + [r]| - 1] == rounds;
  }

  /** How a group without a winner failed. */
  function Classify(netErrs: int, notFounds: int): (r: GroupResult)
    ensures !r.Winner?
  {
    if netErrs > 0 && notFounds == 0 then NetworkError
    else if notFounds > 0 then NoneHasIt
    else Timeout
  }

  /** The attempts still out, and the counts of those that ended without the path. */
  ghost predicate Joined(group: seq<Url>, handles: multiset<Url>, attempts: seq<Attempt>,
                         netErrs: int, notFounds: int) {
    && multiset(Urls(attempts)) + handles == multiset(group)
    && (forall a <- attempts :: a.reply != Present)
    && netErrs >= 0 && notFounds >= 0
    && (notFounds > 0 <==> exists a <- attempts :: a.reply == Absent)
    && (netErrs > 0 <==> exists a <- attempts :: a.reply == Broken || a.reply == Crashed)
  }

  lemma JoinNext(group: seq<Url>, handles: multiset<Url>, attempts: seq<Attempt>, netErrs: int, notFounds: int,
                 a: Attempt)
    requires Joined(group, handles, attempts, netErrs, notFounds) && a.url in handles
    ensures a.reply == Present ==> forall reply :: RoundOk(group, Won(attempts + [a], a.url, reply))
    ensures a.reply == Absent ==>
              Joined(group, handles - multiset{a.url}, attempts + [a], netErrs, notFounds + 1)
    ensures a.reply == Broken || a.reply == Crashed ==>
              Joined(group, handles - multiset{a.url}, attempts + [a], netErrs + 1, notFounds)
    ensures BrokenOf(attempts + [a]) == BrokenOf(attempts) + if a.reply == Broken then {a.url} else {}
  {
    var joined := attempts + [a];
    UrlsAppend(attempts, a);
    forall x ensures x in joined <==> x in attempts || x == a {}
    assert joined[..|joined| - 1] == attempts;
    assert multiset(Urls(joined)) + (handles - multiset{a.url}) == multiset(group);
  }

  lemma JoinedAll(group: seq<Url>, handles: multiset<Url>, attempts: seq<Attempt>, netErrs: int, notFounds: int,
                  timedOut: bool)
    requires Joined(group, handles, attempts, netErrs, notFounds)
    requires handles == multiset{} || timedOut
    ensures RoundOk(group, Lost(attempts, timedOut))
    ensures Classify(netErrs, notFounds).NoneHasIt? <==> Decisive(Lost(attempts, timedOut))
    ensures Classify(netErrs, notFounds).Timeout? <==> attempts == []
  {
    if attempts != [] { assert attempts[0] in attempts; }
  }

  lemma MarkedAgain(a: map<Url, nat>, b: map<Url, nat>, c: map<Url, nat>, s: set<Url>, t: set<Url>, u: nat, v: nat)
    requires Marked(a, b, s, u) && Marked(b, c, t, v) && u <= v
    ensures Marked(a, c, s + t, u)
  {
  }

  /** A group of which every round so far had a winner that was no good. */
  ghost predicate InProgress(group: seq<Url>, left: seq<Url>, rounds: seq<Round>, missed: bool) {
    && left == Left(group, rounds)
    && Rounds(group, rounds) && !Ends(rounds) && (rounds != [] ==> rounds[|rounds| - 1].Won?)
    && (missed <==> SomeDecisive(rounds))
  }

  /** A winner that was no good leaves a smaller group. */
  lemma NoGoodStep(group: seq<Url>, left: seq<Url>, rounds: seq<Round>, missed: bool, r: Round)
    requires InProgress(group, left, rounds, missed) && left != []
    requires r.Won? && RoundOk(left, r) && !Final(r)
    ensures InProgress(group, Without(left, r.url), rounds + [r], missed || Decisive(r))
    ensures |Without(left, r.url)| < |left|
  {
    SnocRounds(group, rounds, r);
    SnocDecisive(rounds, r);
    AttemptIsFromGroup(left, r);
    WithoutMembers(left, r.url);
  }

  lemma FinalStep(group: seq<Url>, left: seq<Url>, rounds: seq<Round>, missed: bool, r: Round)
    requires InProgress(group, left, rounds, missed) && left != []
    requires r.Won? && RoundOk(left, r) && Final(r)
    ensures GroupRun(group, rounds + [r]) && Ends(rounds + [r]) && (missed <==> SomeDecisive(rounds + [r]))
    ensures OutcomeOf([rounds + [r]]) == if r.reply.Good? then Accepted(r.url) else DatabaseError
  {
    SnocRounds(group, rounds, r);
    SnocDecisive(rounds, r);
  }

  lemma WonStep(group: seq<Url>, left: seq<Url>, rounds: seq<Round>, missed: bool,
                attempts: seq<Attempt>, url: Url, reply: CommitReply)
    requires InProgress(group, left, rounds, missed) && left != []
    requires RoundOk(left, Won(attempts, url, Good))
    ensures var rounds' := rounds + [Won(attempts, url, reply)];
            if reply.Good? || reply.DbFailure? then
              && GroupRun(group, rounds') && Ends(rounds') && (missed <==> SomeDecisive(rounds'))
              && OutcomeOf([rounds']) == if reply.Good? then Accepted(url) else DatabaseError
            else
              && InProgress(group, Without(left, url), rounds', missed || !reply.Unreachable?)
              && |Without(left, url)| < |left|
  {
    var r := Won(attempts, url, reply);
    assert RoundOk(left, r);
    if Final(r) {
      FinalStep(group, left, rounds, missed, r);
    } else {
      NoGoodStep(group, left, rounds, missed, r);
    }
  }

  lemma LostStep(group: seq<Url>, left: seq<Url>, rounds: seq<Round>, missed: bool, r: Round)
    requires InProgress(group, left, rounds, missed) && left != []
    requires r.Lost? && RoundOk(left, r)
    ensures GroupRun(group, rounds + [r]) && !Ends(rounds + [r])
    ensures SomeDecisive(rounds + [r]) <==> missed || Decisive(r)
  {
    SnocRounds(group, rounds, r);
    SnocDecisive(rounds, r);
  }

  lemma MarkedRound(a: map<Url, nat>, b: map<Url, nat>, c: map<Url, nat>, d: map<Url, nat>,
                    rounds: seq<Round>, r: Round, u: nat, v: nat, w: nat)
    requires Marked(a, b, BrokenRounds(rounds), u) && Marked(b, c, BrokenOf(r.attempts), v)
    requires Marked(c, d, if r.Won? && r.reply.Unreachable? then {r.url} else {}, w) && u <= v && u <= w
    ensures Marked(a, d, BrokenRounds(rounds + [r]), u)
  {
    assert (rounds + [r])[..|rounds|] == rounds;
    MarkedAgain(a, b, c, BrokenRounds(rounds), BrokenOf(r.attempts), u, v);
    MarkedAgain(a, c, d, BrokenRounds(rounds) + BrokenOf(r.attempts),
                if r.Won? && r.reply.Unreachable? then {r.url} else {}, u, w);
    assert BrokenRounds(rounds + [r])
        == BrokenRounds(rounds) + BrokenOf(r.attempts) + if r.Won? && r.reply.Unreachable? then {r.url} else {};
  }

  // ---- The router's race, changing the cooldown table in place

  class Racer {
    const priorities: map<Url, int>
    const window: nat
    var cooldown: map<Url, nat>
    var now: nat

    constructor (priorities: map<Url, int>, window: nat, cooldown: map<Url, nat>, now: nat)
      ensures this.priorities == priorities && this.window == window
      ensures this.cooldown == cooldown && this.now == now
    {
      this.priorities, this.window, this.cooldown, this.now := priorities, window, cooldown, now;
    }

    method InCooldown(url: Url) returns (cooling: bool)
      modifies this`cooldown
      ensures cooling <==> url in old(cooldown) && now < old(cooldown)[url]
      ensures cooldown == if cooling then old(cooldown) else old(cooldown) - {url}
    {
      if url in cooldown && cooldown[url] <= now {
        cooldown := cooldown - {url};
      }
      cooling := url in cooldown;
      assert !cooling ==> cooldown == old(cooldown) - {url};
    }

    method MarkCooldown(url: Url)
      modifies this
      ensures now >= old(now)
      ensures Marked(old(cooldown), cooldown, {url}, old(now) + window)
    {
      var later: nat :| now <= later;
      now := later;
      cooldown := cooldown[url := now + window];
    }

    /** The candidates that are not cooling down; those whose time is up are dropped
        from the table on the way. */
    method CooldownFiltered(candidates: seq<Url>) returns (kept: seq<Url>)
      modifies this`cooldown
      ensures kept == Uncooled(candidates, old(cooldown), now)
      ensures forall url :: url in cooldown <==>
                            url in old(cooldown) && (url in candidates ==> now < old(cooldown)[url])
      ensures forall url <- cooldown :: cooldown[url] == old(cooldown)[url]
    {
      kept := [];
      for i := 0 to |candidates|
        invariant kept == Uncooled(candidates[..i], old(cooldown), now)
        invariant forall url :: url in cooldown <==>
                                url in old(cooldown) && (url in candidates[..i] ==> now < old(cooldown)[url])
        invariant forall url <- cooldown :: cooldown[url] == old(cooldown)[url]
      {
        assert candidates[..i + 1][..i] == candidates[..i];
        assert forall u :: u in candidates[..i + 1] <==> u in candidates[..i] || u == candidates[i];
        var cooling := InCooldown(candidates[i]);
        if !cooling {
          kept := kept + [candidates[i]];
        }
      }
      assert candidates[..|candidates|] == candidates;
    }

    /** Whichever attempt ends next; one that could not reach its upstream cools it down. */
    method JoinOne(handles: multiset<Url>) returns (a: Attempt)
      requires handles != multiset{}
      modifies this
      ensures a.url in handles && now >= old(now)
      ensures Marked(old(cooldown), cooldown, if a.reply.Broken? then {a.url} else {}, old(now) + window)
    {
      var url :| url in handles;
      var reply: HeadReply := *;
      if reply.Broken? {
        MarkCooldown(url);
      }
      a := Attempt(url, reply);
    }

    /** Races the whole group: the first upstream that has the path, or how the
        group failed. Those still out when it ends are cancelled. */
    method RaceGroup(group: seq<Url>) returns (result: GroupResult, ghost attempts: seq<Attempt>, ghost timedOut: bool)
      modifies this
      ensures now >= old(now)
      ensures result.Winner? ==> !timedOut && RoundOk(group, Won(attempts, result.url, Good))
      ensures !result.Winner? ==> RoundOk(group, Lost(attempts, timedOut))
      ensures result.NoneHasIt? <==> !result.Winner? && Decisive(Lost(attempts, timedOut))
      ensures result.Timeout? <==> !result.Winner? && attempts == []
      ensures Marked(old(cooldown), cooldown, BrokenOf(attempts), old(now) + window)
    {
      attempts, timedOut := [], false;
      var handles := multiset(group);
      var netErrs, notFounds := 0, 0;
      while handles != multiset{}
        invariant Joined(group, handles, attempts, netErrs, notFounds) && !timedOut
        invariant now >= old(now)
        invariant Marked(old(cooldown), cooldown, BrokenOf(attempts), old(now) + window)
        decreases |handles|
      {
        var expired: bool := *;
        if expired {
          timedOut := true;
          break;
        }
        ghost var was, at := cooldown, now;
        var a := JoinOne(handles);
        JoinNext(group, handles, attempts, netErrs, notFounds, a);
        MarkedAgain(old(cooldown), was, cooldown, BrokenOf(attempts), if a.reply.Broken? then {a.url} else {},
                    old(now) + window, at + window);
        handles := handles - multiset{a.url};
        attempts := attempts + [a];
        match a.reply {
          case Present => return Winner(a.url), attempts, timedOut;
          case Absent => notFounds := notFounds + 1;
          case Broken | Crashed => netErrs := netErrs + 1;
        }
      }
      JoinedAll(group, handles, attempts, netErrs, notFounds, timedOut);
      result := Classify(netErrs, notFounds);
    }

    /** Fetches and commits the winner's narinfo; only an unreachable one cools down. */
    method CommitWinner(url: Url) returns (reply: CommitReply)
      modifies this
      ensures now >= old(now)
      ensures Marked(old(cooldown), cooldown, if reply.Unreachable? then {url} else {}, old(now) + window)
    {
      reply := *;
      if reply.Unreachable? {
        MarkCooldown(url);
      }
    }

    /** Races a group again and again, without the winners that turn out no good. */
    method TryGroup(group: seq<Url>) returns (stop: Option<Outcome>, missed: bool, ghost rounds: seq<Round>)
      modifies this
      ensures GroupRun(group, rounds)
      ensures missed <==> SomeDecisive(rounds)
      ensures stop.Some? <==> Ends(rounds)
      ensures stop.Some? ==> stop.value == OutcomeOf([rounds])
      ensures now >= old(now)
      ensures Marked(old(cooldown), cooldown, BrokenRounds(rounds), old(now) + window)
    {
      stop, missed, rounds := None, false, [];
      var left := group;
      while left != []
        invariant InProgress(group, left, rounds, missed)
        invariant now >= old(now)
        invariant Marked(old(cooldown), cooldown, BrokenRounds(rounds), old(now) + window)
        decreases |left|
      {
        ghost var c0, n0 := cooldown, now;
        var result, attempts, timedOut := RaceGroup(left);
        ghost var c1, n1 := cooldown, now;
        if result.Winner? {
          var reply := CommitWinner(result.url);
          ghost var r := Won(attempts, result.url, reply);
          MarkedRound(old(cooldown), c0, c1, cooldown, rounds, r, old(now) + window, n0 + window, n1 + window);
          WonStep(group, left, rounds, missed, attempts, result.url, reply);
          rounds := rounds + [r];
          match reply {
            case Good => return Some(Accepted(result.url)), missed, rounds;
            case DbFailure => return Some(DatabaseError), missed, rounds;
            case Unreachable =>
            case Rejected | Missing | BadSignature | Unparsable =>
              missed := true;
          }
          left := Without(left, result.url);
        } else {
          ghost var r := Lost(attempts, timedOut);
          MarkedRound(old(cooldown), c0, c1, cooldown, rounds, r, old(now) + window, n0 + window, n1 + window);
          LostStep(group, left, rounds, missed, r);
          rounds := rounds + [r];
          if result.NoneHasIt? {
            missed := true;
          }
          return None, missed, rounds;
        }
      }
    }

    /** Candidates by priority; those without a health record come last. */
    method GroupByPriority(urls: seq<Url>) returns (groups: map<int, seq<Url>>)
      ensures ByPriority(urls, groups)
    {
      groups := map[];
      for i := 0 to |urls|
        invariant ByPriority(urls[..i], groups)
      {
        ByPriorityAppend(urls[..i], groups, urls[i]);
        assert urls[..i + 1] == urls[..i] + [urls[i]];
        var p := Priority(priorities, urls[i]);
        groups := groups[p := (if p in groups then groups[p] else []) + [urls[i]]];
      }
      assert urls[..|urls|] == urls;
    }

    ghost predicate ByPriority(urls: seq<Url>, groups: map<int, seq<Url>>) {
      && (forall p :: p in groups <==> exists url <- urls :: Priority(priorities, url) == p)
      && (forall p <- groups :: groups[p] == WithPriority(urls, priorities, p))
      && (forall p :: p !in groups ==> WithPriority(urls, priorities, p) == [])
    }

    lemma ByPriorityAppend(urls: seq<Url>, groups: map<int, seq<Url>>, url: Url)
      requires ByPriority(urls, groups)
      ensures var p := Priority(priorities, url);
              ByPriority(urls + [url], groups[p := (if p in groups then groups[p] else []) + [url]])
    {
      assert (urls + [url])[..|urls|] == urls;
      assert forall u :: u in urls + [url] <==> u in urls || u == url;
    }

    /** Group after group, until one has an acceptable narinfo. */
    method RaceGroups(groups: seq<seq<Url>>) returns (outcome: Outcome, ghost trace: seq<seq<Round>>)
      modifies this
      ensures IsRace(groups, trace) && outcome == OutcomeOf(trace)
      ensures now >= old(now)
      ensures Marked(old(cooldown), cooldown, BrokenTrace(trace), old(now) + window)
    {
      trace := [];
      var anyNotFound := false;
      for i := 0 to |groups|
        invariant |trace| == i
        invariant forall j | 0 <= j < i :: GroupRun(groups[j], trace[j]) && !Ends(trace[j])
        invariant anyNotFound <==> AnyDecisive(trace)
        invariant now >= old(now)
        invariant Marked(old(cooldown), cooldown, BrokenTrace(trace), old(now) + window)
      {
        ghost var was, at := cooldown, now;
        var stop, missed, rounds := TryGroup(groups[i]);
        MarkedAgain(old(cooldown), was, cooldown, BrokenTrace(trace), BrokenRounds(rounds),
                    old(now) + window, at + window);
        SnocAnyDecisive(trace, rounds);
        assert (trace + [rounds])[..|trace|] == trace;
        trace := trace + [rounds];
        if stop.Some? {
          return stop.value, trace;
        }
        anyNotFound := anyNotFound || missed;
      }
      outcome := if anyNotFound then NotFound else UpstreamUnavailable;
    }

    /** The whole race. What the lookup is told is what the rounds amount to, and
        the cooldown table has exactly the upstreams added that failed. */
    method Race(candidates: seq<Url>)
      returns (outcome: Outcome, ghost keys: seq<int>, groups: seq<seq<Url>>, ghost trace: seq<seq<Round>>)
      modifies this
      ensures outcome.NoCandidates? <==> candidates == []
      ensures candidates == [] ==> trace == [] && cooldown == old(cooldown)
      ensures candidates != [] ==>
                && Grouped(Effective(candidates, old(cooldown), old(now)), priorities, keys, groups)
                && IsRace(groups, trace)
                && outcome == OutcomeOf(trace)
      ensures forall url | url in cooldown && url !in old(cooldown) :: url in BrokenTrace(trace)
      ensures forall url <- BrokenTrace(trace) :: url in cooldown && old(now) + window <= cooldown[url]
      ensures forall url | url in old(cooldown) && url !in BrokenTrace(trace) ::
                if url in cooldown then cooldown[url] == old(cooldown)[url]
                else url in candidates && old(cooldown)[url] <= old(now)
    {
      keys, groups, trace := [], [], [];
      if candidates == [] {
        return NoCandidates, keys, groups, trace;
      }
      var filtered := CooldownFiltered(candidates);
      var effective := if filtered == [] then candidates else filtered;
      var byPriority := GroupByPriority(effective);
      var order := Ascending(byPriority.Keys);
      assert forall i | 0 <= i < |order| :: order[i] in order && order[i] in byPriority;
      keys := order;
      groups := seq(|order|, i requires 0 <= i < |order| => byPriority[order[i]]);

      outcome, trace := RaceGroups(groups);
    }
  }
}
