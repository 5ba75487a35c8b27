/** The string operations of the router's text handling. */
module Text {
  import opened Wrappers

  predicate OccursAt(s: string, sub: string, i: nat) {
    i + |sub| <= |s| && s[i..i + |sub|] == sub
  }

  /** The first occurrence of `sub` at or after `i`. */
  function FindFrom(s: string, sub: string, i: nat): (r: Option<nat>)
    ensures r.Some? ==> r.value >= i && OccursAt(s, sub, r.value)
    ensures r.Some? ==> forall j | i <= j < r.value :: !OccursAt(s, sub, j)
    ensures r.None? ==> forall j | i <= j :: !OccursAt(s, sub, j)
    decreases |s| - i
  {
    if i + |sub| > |s| then None
    else if OccursAt(s, sub, i) then Some(i)
    else FindFrom(s, sub, i + 1)
  }

  function Find(s: string, sub: string): Option<nat> { FindFrom(s, sub, 0) }

  /** The last occurrence of `sub` that starts before `end`. */
  function RFindBefore(s: string, sub: string, end: nat): (r: Option<nat>)
    ensures r.Some? ==> r.value < end && OccursAt(s, sub, r.value)
    ensures r.Some? ==> forall j | r.value < j < end :: !OccursAt(s, sub, j)
    ensures r.None? ==> forall j | 0 <= j < end :: !OccursAt(s, sub, j)
  {
    if end == 0 then None
    else if OccursAt(s, sub, end - 1) then Some(end - 1)
    else RFindBefore(s, sub, end - 1)
  }

  function RFind(s: string, sub: string): Option<nat> { RFindBefore(s, sub, |s| + 1) }

  /** The text before and after the first occurrence of `sep`. */
  function SplitOnce(s: string, sep: string): Option<(string, string)> {
    match Find(s, sep)
    case None => None
    case Some(i) => Some((s[..i], s[i + |sep|..]))
  }

  function TrimStart(s: string, c: char): (r: string)
    ensures exists k | 0 <= k <= |s| :: r == s[k..]
    ensures r == [] || r[0] != c
  {
    if s != [] && s[0] == c then
      var r := TrimStart(s[1..], c);
      var k :| 0 <= k <= |s| - 1 && r == s[1..][k..];
      assert s[1..][k..] == s[k + 1..];
      r
    else
      assert s == s[0..];
      s
  }

  function TrimEnd(s: string, c: char): string {
    if s != [] && s[|s| - 1] == c then TrimEnd(s[..|s| - 1], c) else s
  }

  /** The text after the last `c`, or all of it. */
  function AfterLast(s: string, c: char): (r: string)
    ensures c !in r
    ensures exists k | 0 <= k <= |s| :: r == s[k..] && (k == 0 || s[k - 1] == c)
  {
    if s == [] then
      assert s == s[0..];
      []
    else
      var r := AfterLast(s[1..], c);
      var k :| 0 <= k <= |s| - 1 && r == s[1..][k..] && (k == 0 || s[1..][k - 1] == c);
      assert s[1..][k..] == s[k + 1..];
      if k == 0 && s[0] != c then
        assert s == s[0..];
        s
      else r
  }

  lemma OccursInSuffix(s: string, sub: string, k: nat, i: nat)
    requires k <= |s|
    ensures OccursAt(s[k..], sub, i) <==> OccursAt(s, sub, k + i)
  {
    if i + |sub| <= |s| - k {
      assert s[k..][i..i + |sub|] == s[k + i..k + i + |sub|];
    }
  }
}
