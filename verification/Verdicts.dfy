/** The verdict policy of the host (internal/review/policy.go). */
module Verdicts {
  import opened Domain
  import opened Validation

  const DEFAULT_GATING: set<Category> := {Blocker, Risk, Question}

  predicate Gates(f: Finding, gating: set<Category>) {
    f.category in gating && (f.assessment == Present || f.assessment == Unknown)
  }

  predicate NoGate(findings: seq<Finding>, gating: set<Category>) {
    forall f :: f in findings ==> !Gates(f, gating)
  }

  method DeriveVerdict(proposed: Verdict, completion: Completion, coverage: seq<UnitCoverage>,
                       findings: seq<Finding>, stale: bool, gating: set<Category>) returns (verdict: Verdict)
    ensures verdict == Approved <==>
      && !stale
      && completion == Complete
      && (forall c :: c in coverage ==> Done(c.outcome))
      && proposed == Approved
      && NoGate(findings, gating)
  {
    verdict := Approved;
    if stale { verdict := NeedsReview; }
    if completion != Complete { verdict := NeedsReview; }
    ghost var before := verdict;
    for i := 0 to |coverage|
      invariant verdict == before && forall k :: 0 <= k < i ==> Done(coverage[k].outcome)
    {
      if coverage[i].outcome == PartlyCovered || coverage[i].outcome == Failed {
        verdict := NeedsReview;
        assert coverage[i] in coverage;
        break;
      }
    }
    if proposed != Approved { verdict := NeedsReview; }
    before := verdict;
    for i := 0 to |findings|
      invariant verdict == before && forall k :: 0 <= k < i ==> !Gates(findings[k], gating)
    {
      if findings[i].category !in gating { continue; }
      if findings[i].assessment == Present || findings[i].assessment == Unknown {
        verdict := NeedsReview;
        assert findings[i] in findings && Gates(findings[i], gating);
        break;
      }
    }
  }
}
