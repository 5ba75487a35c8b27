/** The filter patterns: wildcard_match takes each literal part of a pattern at
    its leftmost place. How that compares with what a `*` pattern means. */
module Wildcard {
  import opened Wrappers
  import opened Text

  /** What a pattern means: a `*` stands for any text, any other character for itself. */
  ghost predicate Glob(pattern: string, value: string) {
    if pattern == [] then value == []
    else if pattern[0] == '*' then
      exists k | 0 <= k <= |value| :: Glob(pattern[1..], value[k..])
    else value != [] && value[0] == pattern[0] && Glob(pattern[1..], value[1..])
  }

  /** pattern.split('*') */
  function Split(pattern: string): (parts: seq<string>)
    ensures |parts| >= 1
    ensures |parts| == 1 <==> '*' !in pattern
    ensures |parts| == 1 ==> parts[0] == pattern
    ensures forall part <- parts :: '*' !in part
    ensures parts[0] == [] <==> pattern == [] || pattern[0] == '*'
    ensures parts[|parts| - 1] == [] <==> pattern == [] || pattern[|pattern| - 1] == '*'
  {
    if pattern == [] then [[]]
    else
      var rest := Split(pattern[1..]);
      if pattern[0] == '*' then [[]] + rest
      else [[pattern[0]] + rest[0]] + rest[1..]
  }

  /** What is left of `value` after each part was taken at its leftmost place. */
  function Take(parts: seq<string>, value: string): Option<string> {
    if parts == [] then Some(value)
    else match Find(value, parts[0])
      case None => None
      case Some(i) => Take(parts[1..], value[i + |parts[0]|..])
  }

  /** The router's matcher, as a function: the first part is anchored unless the
      pattern starts with a `*`, the end unless it ends with one. */
  predicate Greedy(pattern: string, value: string) {
    var parts := Split(pattern);
    && parts[0] <= value
    && var left := Take(parts[1..], value[|parts[0]|..]);
       left.Some? && ((|parts| > 1 && parts[|parts| - 1] == []) || left.value == [])
  }

  lemma {:induction false} TakeEmpty(value: string)
    ensures Find(value, []) == Some(0)
  {
    assert OccursAt(value, [], 0);
  }

  lemma StarTakesAll(value: string)
    ensures Greedy("*", value)
  {
    assert Split("*") == [[], []] by { assert "*"[1..] == []; }
    TakeEmpty(value);
    assert value[0..] == value && Split("*")[1..] == [[]];
    assert Take([[]], value) == Take([], value);
  }

  /** What is left before part `n`, once the first part was taken off the front. */
  ghost predicate Taking(parts: seq<string>, value: string, n: nat, remainder: string)
    requires n <= |parts| && parts != []
  {
    if n == 0 then remainder == value
    else parts[0] <= value && Take(parts[n..], remainder) == Take(parts[1..], value[|parts[0]|..])
  }

  lemma TakeFirst(parts: seq<string>, value: string)
    requires parts != []
    ensures parts[0] <= value ==> Taking(parts, value, 1, value[|parts[0]|..])
    ensures parts[0] == [] ==> Taking(parts, value, 1, value)
  {
    assert value[0..] == value;
  }

  lemma TakeNext(parts: seq<string>, value: string, n: nat, remainder: string)
    requires 0 < n < |parts| && Taking(parts, value, n, remainder)
    ensures var i := Find(remainder, parts[n]);
            if i.None? then Take(parts[1..], value[|parts[0]|..]).None?
            else Taking(parts, value, n + 1, remainder[i.value + |parts[n]|..])
    ensures parts[n] == [] ==> Taking(parts, value, n + 1, remainder)
  {
    assert parts[n..][1..] == parts[n + 1..];
    if parts[n] == [] {
      TakeEmpty(remainder);
      assert remainder[0..] == remainder;
    }
  }

  lemma AllTaken(parts: seq<string>, value: string, remainder: string)
    requires parts != [] && Taking(parts, value, |parts|, remainder)
    ensures parts[0] <= value && Take(parts[1..], value[|parts[0]|..]) == Some(remainder)
  {
    assert parts[|parts|..] == [];
  }

  /** The loop of wildcard_match. */
  method WildcardMatch(pattern: string, value: string) returns (b: bool)
    ensures b == Greedy(pattern, value)
  {
    if pattern == "*" {
      StarTakesAll(value);
      return true;
    }
    var remainder := value;
    var parts := Split(pattern);
    var anchoredStart := pattern == [] || pattern[0] != '*';
    var anchoredEnd := pattern == [] || pattern[|pattern| - 1] != '*';
    var first := true;
    TakeFirst(parts, value);
    for n := 0 to |parts|
      invariant Taking(parts, value, n, remainder)
      invariant first && anchoredStart ==> n == 0 || pattern == []
      invariant n == 0 ==> first
    {
      if n > 0 { TakeNext(parts, value, n, remainder); }
      var part := parts[n];
      if part == [] {
        continue;
      }
      if first && anchoredStart {
        if !(part <= remainder) { return false; }
        remainder := remainder[|part|..];
      } else {
        var index := Find(remainder, part);
        if index.None? { return false; }
        remainder := remainder[index.value + |part|..];
      }
      first := false;
    }
    AllTaken(parts, value, remainder);
    b := !anchoredEnd || remainder == [];
  }

  // ---- The parts of a pattern mean what the pattern means

  /** `value` matches the pattern * part_1 * part_2 ... * part_n, end-anchored. */
  ghost predicate GlobRest(parts: seq<string>, value: string) {
    if parts == [] then value == []
    else exists k: nat {:trigger OccursAt(value, parts[0], k)} ::
           OccursAt(value, parts[0], k) && GlobRest(parts[1..], value[k + |parts[0]|..])
  }

  ghost predicate GlobParts(parts: seq<string>, value: string)
    requires |parts| >= 1
  {
    parts[0] <= value && GlobRest(parts[1..], value[|parts[0]|..])
  }

  lemma {:induction false} GlobIsGlobParts(pattern: string, value: string)
    ensures Glob(pattern, value) <==> GlobParts(Split(pattern), value)
    decreases |pattern|
  {
    var parts := Split(pattern);
    if pattern == [] {
      assert value[0..] == value;
    } else if pattern[0] == '*' {
      StarIsGlobRest(pattern, value);
      assert value[0..] == value && parts[1..] == Split(pattern[1..]);
    } else {
      var rest := Split(pattern[1..]);
      assert parts[1..] == rest[1..];
      if value != [] && value[0] == pattern[0] {
        GlobIsGlobParts(pattern[1..], value[1..]);
        PrefixCons(pattern[0], rest[0], value);
      }
    }
  }

  lemma PrefixCons(c: char, part: string, value: string)
    requires value != [] && value[0] == c
    ensures [c] + part <= value <==> part <= value[1..]
    ensures part <= value[1..] ==> value[1..][|part|..] == value[|[c] + part|..]
  {
    if part <= value[1..] { assert [c] + part <= [c] + value[1..] && value == [c] + value[1..]; }
    if [c] + part <= value { assert part == ([c] + part)[1..] <= value[1..]; }
  }

  lemma {:induction false} StarIsGlobRest(pattern: string, value: string)
    requires pattern != [] && pattern[0] == '*'
    ensures Glob(pattern, value) <==> GlobRest(Split(pattern[1..]), value)
    decreases |pattern|, 0
  {
    var parts := Split(pattern[1..]);
    forall k | 0 <= k <= |value|
      ensures Glob(pattern[1..], value[k..])
              <==> OccursAt(value, parts[0], k) && GlobRest(parts[1..], value[k + |parts[0]|..])
    {
      GlobIsGlobParts(pattern[1..], value[k..]);
      if parts[0] <= value[k..] {
        assert OccursAt(value, parts[0], k);
        assert value[k..][|parts[0]|..] == value[k + |parts[0]|..];
      }
    }
    if Glob(pattern, value) {
      var k :| 0 <= k <= |value| && Glob(pattern[1..], value[k..]);
      assert OccursAt(value, parts[0], k) && GlobRest(parts[1..], value[k + |parts[0]|..]);
    }
    if GlobRest(parts, value) {
      var k: nat :| OccursAt(value, parts[0], k) && GlobRest(parts[1..], value[k + |parts[0]|..]);
      assert 0 <= k <= |value| && Glob(pattern[1..], value[k..]);
    }
  }

  // ---- Leftmost places are the best places

  /** Behind any skipped text, the leftmost place of a part is no later than a
      given one, so what follows the given place is still ahead. */
  lemma LeftmostPlace(skipped: string, value: string, part: string, k: nat) returns (i: nat, more: string)
    requires OccursAt(value, part, k)
    ensures Find(skipped + value, part) == Some(i) && i + |part| <= |skipped + value|
    ensures (skipped + value)[i + |part|..] == more + value[k + |part|..]
  {
    var whole := skipped + value;
    OccursInSuffix(whole, part, |skipped|, k);
    assert whole[|skipped|..] == value;
    i := Find(whole, part).value;
    more := whole[i + |part|..|skipped| + k + |part|];
  }

  /** The greedy loop succeeds wherever some placement does. */
  lemma {:induction false} LeftmostIsBest(parts: seq<string>, skipped: string, value: string)
    requires GlobRest(parts, value) && parts != []
    ensures Take(parts, skipped + value).Some?
    decreases |parts|
  {
    var k: nat :| OccursAt(value, parts[0], k) && GlobRest(parts[1..], value[k + |parts[0]|..]);
    var i, more := LeftmostPlace(skipped, value, parts[0], k);
    if |parts| > 1 { LeftmostIsBest(parts[1..], more, value[k + |parts[0]|..]); }
  }

  /** Whatever the greedy loop leaves nothing of is matched. */
  lemma {:induction false} TakeIsSound(parts: seq<string>, value: string)
    requires Take(parts, value).Some?
    requires Take(parts, value).value == [] || (parts != [] && parts[|parts| - 1] == [])
    ensures GlobRest(parts, value)
    decreases |parts|
  {
    if |parts| == 1 && parts[0] == [] {
      assert OccursAt(value, parts[0], |value|) && value[|value|..] == [];
      assert GlobRest(parts[1..], value[|value| + |parts[0]|..]);
    } else if parts != [] {
      var i := Find(value, parts[0]).value;
      TakeIsSound(parts[1..], value[i + |parts[0]|..]);
      assert OccursAt(value, parts[0], i);
    }
  }

  /** A value that the matcher takes always matches the pattern. */
  lemma GreedyIsSound(pattern: string, value: string)
    requires Greedy(pattern, value)
    ensures Glob(pattern, value)
  {
    var parts := Split(pattern);
    GlobIsGlobParts(pattern, value);
    TakeIsSound(parts[1..], value[|parts[0]|..]);
  }

  /** The patterns that the matcher decides exactly. */
  predicate Decided(pattern: string) {
    '*' !in pattern || pattern[|pattern| - 1] == '*'
  }

  lemma GreedyIsComplete(pattern: string, value: string)
    requires Decided(pattern) && Glob(pattern, value)
    ensures Greedy(pattern, value)
  {
    var parts := Split(pattern);
    GlobIsGlobParts(pattern, value);
    var rest := value[|parts[0]|..];
    if |parts| > 1 {
      assert [] + rest == rest;
      LeftmostIsBest(parts[1..], [], rest);
    }
  }

  // ---- Every other pattern is decided wrongly on some value

  function Concat(parts: seq<string>): string {
    if parts == [] then [] else parts[0] + Concat(parts[1..])
  }

  /** Behind the parts themselves the greedy loop leaves at least what follows them. */
  lemma {:induction false} TakeLeaves(parts: seq<string>, skipped: string, tail: string)
    ensures var left := Take(parts, skipped + (Concat(parts) + tail));
            left.Some? && |left.value| >= |tail|
    decreases |parts|
  {
    if parts != [] {
      var rest := Concat(parts[1..]) + tail;
      assert Concat(parts) + tail == parts[0] + rest;
      assert OccursAt(parts[0] + rest, parts[0], 0);
      var i, more := LeftmostPlace(skipped, parts[0] + rest, parts[0], 0);
      assert (parts[0] + rest)[0 + |parts[0]|..] == rest;
      TakeLeaves(parts[1..], more, tail);
    }
  }

  /** Repeating the last part after the parts themselves still matches. */
  lemma {:induction false} RepeatedLastMatches(parts: seq<string>)
    requires parts != []
    ensures GlobRest(parts, Concat(parts) + parts[|parts| - 1])
    decreases |parts|
  {
    var last := parts[|parts| - 1];
    var value := Concat(parts) + last;
    if |parts| == 1 {
      assert parts[1..] == [] && Concat(parts) == last;
      assert OccursAt(value, last, |last|) && value[|last| + |last|..] == [];
      assert GlobRest(parts[1..], value[|last| + |last|..]);
    } else {
      var rest := Concat(parts[1..]) + last;
      assert GlobRest(parts[1..], rest) by { RepeatedLastMatches(parts[1..]); }
      assert value == parts[0] + rest;
      assert OccursAt(value, parts[0], 0);
      assert value[0 + |parts[0]|..] == rest;
    }
  }

  lemma GreedyMisses(pattern: string) returns (value: string)
    requires !Decided(pattern)
    ensures Glob(pattern, value) && !Greedy(pattern, value)
  {
    var parts := Split(pattern);
    var rest := parts[1..];
    var last := parts[|parts| - 1];
    value := parts[0] + (Concat(rest) + last);
    assert value[|parts[0]|..] == Concat(rest) + last;
    RepeatedLastMatches(rest);
    GlobIsGlobParts(pattern, value);
    assert [] + (Concat(rest) + last) == Concat(rest) + last;
    TakeLeaves(rest, [], last);
  }

  /** wildcard_match decides a pattern for every value exactly when the pattern
      has no `*` or ends with one. For any other pattern there is a value that
      matches and is refused. */
  lemma GreedyIsGlobIff(pattern: string)
    ensures (forall value :: Greedy(pattern, value) <==> Glob(pattern, value)) <==> Decided(pattern)
  {
    if Decided(pattern) {
      forall value
        ensures Greedy(pattern, value) <==> Glob(pattern, value)
      {
        if Greedy(pattern, value) { GreedyIsSound(pattern, value); }
        if Glob(pattern, value) { GreedyIsComplete(pattern, value); }
      }
    } else {
      var value := GreedyMisses(pattern);
      assert Glob(pattern, value) && !Greedy(pattern, value);
    }
  }
}
