// The pruning rule shared by the benchmark stages and by the cross-shard reduction.

module Pruning {
  import opened Outcomes

  datatype Pruning = Pruning(relativeDelta: real, absoluteUs: real) {
    predicate Valid() { relativeDelta >= 0.0 && absoluteUs >= 0.0 }
  }

  predicate ValidRule(rule: Option<Pruning>) {
    rule.Some? ==> rule.value.Valid()
  }

  /** The slowest timing a rule retains; None is unbounded. */
  function Limit(best: real, rule: Option<Pruning>): (limit: Option<real>)
    ensures ValidRule(rule) && limit.Some? ==> best <= limit.value
  {
    if rule.None? then None
    else
      var relative := best * rule.value.relativeDelta;
      Some(best + if relative >= rule.value.absoluteUs then relative else rule.value.absoluteUs)
  }

  predicate Within(runtime: real, limit: Option<real>) {
    limit.None? || runtime <= limit.value
  }

  /** A rule retains exactly what exceeds the best by at most that share of it, or by at most the absolute allowance. */
  lemma Retains(runtime: real, best: real, rule: Option<Pruning>)
    ensures Within(runtime, Limit(best, rule)) <==>
      match rule
      case None => true
      case Some(Pruning(share, allowance)) => runtime - best <= share * best || runtime - best <= allowance
  {
  }
}
