/** An upstream's allow and deny rules for narinfos. */
module Filter {
  import opened Wrappers
  import opened Text
  import opened Narinfo
  import Wildcard

  datatype FilterAction = Allow | Deny
  datatype FilterField = StorePath | Name | Reference | Deriver
  datatype FilterRule = FilterRule(action: FilterAction, field: FilterField, pattern: string)

  /** The store path's file name without its hash. */
  function StorePathName(storePath: string): string {
    var base := AfterLast(storePath, '/');
    match SplitOnce(base, "-") case None => base case Some((_, name)) => name
  }

  predicate RuleMatches(rule: FilterRule, n: NarInfo) {
    match rule.field
    case StorePath => Wildcard.Greedy(rule.pattern, n.storePath)
    case Name => Wildcard.Greedy(rule.pattern, StorePathName(n.storePath))
    case Reference => exists r <- n.references :: Wildcard.Greedy(rule.pattern, r)
    case Deriver => Wildcard.Greedy(rule.pattern, n.deriver)
  }

  /** A denied narinfo is refused; if there are allow rules, one has to match. */
  predicate Allows(rules: seq<FilterRule>, n: NarInfo) {
    && (forall rule <- rules :: rule.action.Deny? ==> !RuleMatches(rule, n))
    && ((exists rule <- rules :: rule.action.Allow?) ==>
          exists rule <- rules :: rule.action.Allow? && RuleMatches(rule, n))
  }

  /** The loop of upstream_allows_narinfo: it stops at the first deny that matches,
      yet the order of the rules does not matter. */
  method UpstreamAllowsNarinfo(rules: seq<FilterRule>, n: NarInfo) returns (allowed: bool)
    ensures allowed == Allows(rules, n)
  {
    if rules == [] { return true; }
    var hasAllow := exists rule <- rules :: rule.action.Allow?;
    var allowMatched := false;
    for i := 0 to |rules|
      invariant forall rule <- rules[..i] :: rule.action.Deny? ==> !RuleMatches(rule, n)
      invariant allowMatched <==> exists rule <- rules[..i] :: rule.action.Allow? && RuleMatches(rule, n)
    {
      var rule := rules[i];
      assert rules[..i + 1] == rules[..i] + [rule];
      if !RuleMatches(rule, n) { continue; }
      match rule.action {
        case Deny => return false;
        case Allow => allowMatched := true;
      }
    }
    assert rules[..|rules|] == rules;
    allowed := !hasAllow || allowMatched;
  }
}
