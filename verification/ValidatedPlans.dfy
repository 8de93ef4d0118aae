/** What acceptance by the validator guarantees the executor, on the plan and on any part of it
    that a resumed run still has to apply. */
module ValidatedPlans {
  import opened DependencyGraph
  import opened DependencyWaves
  import opened PlanValidator
  import opened Prelude
  import opened StepReferences

  ghost predicate Accepted(plan: seq<Step>, catalog: Catalog, steps: seq<Step>) {
    && Clean(plan, catalog, plan) && Pointwise(plan, catalog, plan, steps)
    && DependenciesKnown(plan, steps) && UniqueIds(steps) && !Cyclic(GraphOf(steps))
  }

  ghost predicate PartOf(rest: seq<Step>, steps: seq<Step>) {
    UniqueIds(rest) && forall s | s in rest :: s in steps
  }

  /** Whatever part of an accepted plan is left, its steps can be ordered. */
  lemma NeverStuck(steps: seq<Step>, rest: seq<Step>)
    requires UniqueIds(steps) && !Cyclic(GraphOf(steps)) && PartOf(rest, steps)
    ensures !Cyclic(GraphOf(rest))
  {
    GraphOfSteps(steps);
    GraphOfSteps(rest);
    forall a, b | Edge(GraphOf(rest), a, b) ensures Edge(GraphOf(steps), a, b) {
      var s :| s in rest && s.id == a;
      var t :| t in rest && t.id == b;
    }
    SubgraphAcyclic(GraphOf(steps), GraphOf(rest));
  }

  lemma SourceOf(plan: seq<Step>, catalog: Catalog, steps: seq<Step>, s: Step) returns (raw: Step)
    requires Accepted(plan, catalog, steps) && s in steps
    ensures raw in plan && Normalized(plan, catalog, raw, s) && Sound(plan, catalog, raw)
  {
    var k :| 0 <= k < |steps| && steps[k] == s;
    raw := plan[k];
  }

  /** A reference in an accepted plan is a dependency on a plan step that declares that output. */
  lemma {:induction false} ReferenceResolved(plan: seq<Step>, catalog: Catalog, steps: seq<Step>, s: Step,
                                             ref: StepReference)
    requires Accepted(plan, catalog, steps) && s in steps && OccursInFields(ref, s.args)
    ensures ref.stepId in s.dependsOn
    ensures exists p ::
      p in steps && p.id == ref.stepId && p.capability in catalog && ref.output in catalog[p.capability].outputs
  {
    var raw := SourceOf(plan, catalog, steps, s);
    assert Resolves(plan, catalog, ref);
    var producer := FindStep(plan, ref.stepId).value;
    var k :| 0 <= k < |plan| && plan[k] == producer;
    assert steps[k] in steps && Normalized(plan, catalog, plan[k], steps[k]);
  }

  /** In any remainder of an accepted plan, a referenced step is outside the remainder or sits in a
      strictly earlier wave. */
  lemma ReferenceComesEarlier(plan: seq<Step>, catalog: Catalog, steps: seq<Step>, rest: seq<Step>,
                              waves: seq<seq<Step>>, level: map<string, nat>, k: nat, s: Step, ref: StepReference)
    requires Accepted(plan, catalog, steps) && PartOf(rest, steps) && GroupsByLevel(rest, waves, level)
    requires k < |waves| && s in waves[k] && OccursInFields(ref, s.args)
    ensures ref.stepId in Ids(rest) ==> exists j, p :: 0 <= j < k && p in waves[j] && p.id == ref.stepId
  {
    LevelMembers(rest, level, k);
    ReferenceResolved(plan, catalog, steps, s, ref);
    GraphOfSteps(rest);
    if ref.stepId in Ids(rest) {
      var p :| p in rest && p.id == ref.stepId;
      assert Edge(GraphOf(rest), s.id, p.id);
      var j := level[p.id];
      LevelMembers(rest, level, j);
      assert p in waves[j];
    }
  }

  /** The validator's search and the executor's grouping reach the same verdict on one plan. */
  method ValidateAndSchedule(plan: seq<Step>, catalog: Catalog) returns (v: Validation, waves: Option<seq<seq<Step>>>)
    ensures waves.None? <==> exists d :: d in v.diagnostics && d.code.DependencyCycle?
    ensures v.ok ==> waves.Some? && Accepted(plan, catalog, v.steps)
  {
    v := ValidateProposedPlan(plan, catalog);
    ghost var level;
    waves, level := GroupIntoWaves(v.steps);
  }
}
