/** What publication may make of the state it is asked to publish (Publish and
    reconcileLateControls, internal/gitlab/publish.go): boxes taken over, findings drawn
    again, and another publication record. Nothing else about the state changes. */
module Storing {
  import opened Domain
  import opened ReportCodec
  import opened Lifecycle

  // Box positions read with these interactions, and storing.
  predicate Stores(step: Step, xs: seq<Interaction>) {
    step.Store? || (step.Edit? && step.interactions == xs)
  }

  predicate OnlyStores(steps: seq<Step>, xs: seq<Interaction>) {
    forall i :: 0 <= i < |steps| ==> Stores(steps[i], xs)
  }

  ghost predicate Leads(start: seq<Finding>, xs: seq<Interaction>, steps: seq<Step>, end: seq<Finding>) {
    OnlyStores(steps, xs) && ValidRun(start, steps) && After(start, steps) == end
  }

  /** `t` is the state `s` on its way into the store. */
  ghost predicate Carries(s: State, xs: seq<Interaction>, t: State) {
    && t.(findings := s.findings, publication := s.publication) == s
    && exists steps :: Leads(s.findings, xs, steps, t.findings)
  }

  lemma CarriesSelf(s: State, xs: seq<Interaction>, p: Option<Publication>)
    ensures Carries(s, xs, s.(publication := p))
  {
    assert Leads(s.findings, xs, [], s.findings);
  }

  lemma CarriesNamed(s: State, xs: seq<Interaction>, t: State, p: Option<Publication>)
    requires Carries(s, xs, t)
    ensures Carries(s, xs, t.(publication := p))
  {
    var steps :| Leads(s.findings, xs, steps, t.findings);
    assert Leads(s.findings, xs, steps, t.(publication := p).findings);
  }

  lemma CarriesSources(s: State, xs: seq<Interaction>, t: State)
    requires Carries(s, xs, t)
    ensures t.sources == s.sources && t.runs == s.runs && t.mr == s.mr
  {
    var u := t.(findings := s.findings, publication := s.publication);
    assert u.sources == t.sources && u.runs == t.runs && u.mr == t.mr;
  }

  lemma CarriesStep(s: State, xs: seq<Interaction>, t: State, step: Step)
    requires Carries(s, xs, t) && Stores(step, xs)
    ensures Applicable(t.findings, step) && Carries(s, xs, t.(findings := Apply(t.findings, step)))
  {
    var steps :| Leads(s.findings, xs, steps, t.findings);
    var more := steps + [step];
    assert more[..|steps|] == steps;
    assert Leads(s.findings, xs, more, Apply(t.findings, step));
  }

  lemma CarriesEdit(s: State, xs: seq<Interaction>, t: State, r: Report, at: Instant)
    requires Carries(s, xs, t)
    ensures Carries(s, xs, t.(findings := ControlledAll(t.findings, r, xs, at)))
  {
    CarriesStep(s, xs, t, Edit(r, xs, at));
  }

  lemma CarriesStore(s: State, xs: seq<Interaction>, t: State)
    requires Carries(s, xs, t)
    ensures Carries(s, xs, Canonicalize(t))
  {
    CarriesStep(s, xs, t, Store);
  }
}
