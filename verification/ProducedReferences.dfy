/** The validator's promise and the run: over an accepted plan, or what is left of one, no step ever
    stops a run because an output it refers to was not produced. */
module ProducedReferences {
  import opened DependencyGraph
  import opened DependencyWaves
  import opened GovernedExecutor
  import opened PlanValidator
  import opened Prelude
  import opened ResumedExecution
  import opened ResumedOutputs
  import opened StepReferences
  import opened ValidatedPlans

  predicate Given(output: Output, key: string) {
    key in output && !output[key].Undefined? && !output[key].Null?
  }

  /** An accepted reply that carries the outputs its capability declares. */
  ghost predicate Generous(catalog: Catalog, a: Applied) {
    a.capability in catalog ==>
      forall key | key in catalog[a.capability].outputs :: a.output.Some? && Given(a.output.value, key)
  }

  /** Every reference to a step that is not to be applied any more finds its output recorded. */
  ghost predicate FullyRecorded(rest: seq<Step>, prior: Outputs) {
    forall s, ref | s in rest && OccursInFields(ref, s.args) && ref.stepId !in Ids(rest) :: Produced(prior, ref)
  }

  ghost predicate SameOutput(a: Outputs, b: Outputs, id: string) {
    (id in a <==> id in b) && (id in a ==> a[id] == b[id])
  }

  // ---- A wave keeps what was applied and produced before it ----

  lemma {:induction false} ReadsKeep(env: Env, queries: seq<Step>, start: Run, now: nat, n: nat, id: string)
    requires n <= |queries|
    ensures start.applied <= AfterReads(env, queries, start, now, n).applied
    ensures id !in Ids(queries) ==> SameOutput(start.outputs, AfterReads(env, queries, start, now, n).outputs, id)
  {
    if n > 0 {
      ReadsKeep(env, queries, start, now, n - 1, id);
      assert queries[n - 1] in queries;
    }
  }

  lemma WriteKeeps(env: Env, step: Step, run: Run, now: nat, id: string)
    ensures run.applied <= WriteEnd(env, step, run, now).run.applied
    ensures id != step.id ==> SameOutput(run.outputs, WriteEnd(env, step, run, now).run.outputs, id)
  {
  }

  lemma {:induction false} WritesKeep(env: Env, writes: seq<Step>, start: Run, now: nat, k: nat, id: string)
    requires k <= |writes|
    ensures start.applied <= WritesEnd(env, writes, start, now, k).run.applied
    ensures id !in Ids(writes) ==> SameOutput(start.outputs, WritesEnd(env, writes, start, now, k).run.outputs, id)
  {
    if k > 0 {
      WritesKeep(env, writes, start, now, k - 1, id);
      assert writes[k - 1] in writes;
      WriteKeeps(env, writes[k - 1], WritesEnd(env, writes, start, now, k - 1).run, now + ASKS * (k - 1), id);
    }
  }

  lemma WaveKeeps(env: Env, wave: seq<Step>, start: Run, now: nat)
    ensures start.applied <= WaveEnd(env, wave, start, now).run.applied
  {
    ReadsKeep(env, Reads(env, wave), start, now, |Reads(env, wave)|, "");
    WritesKeep(env, Writes(env, wave), WaveRead(env, wave, start, now), now + 2 + |Reads(env, wave)|,
               |Writes(env, wave)|, "");
  }

  lemma SelectedIds(env: Env, wave: seq<Step>, mutating: bool)
    ensures Ids(Select(env, wave, mutating)) <= Ids(wave)
  {
    SelectMembers(env, wave, mutating);
  }

  lemma BeforeWriteKeeps(env: Env, wave: seq<Step>, start: Run, now: nat, k: nat, id: string)
    requires k <= |Writes(env, wave)| && id !in Ids(wave)
    ensures var before := WritesEnd(env, Writes(env, wave), WaveRead(env, wave, start, now),
                                    now + 2 + |Reads(env, wave)|, k);
      SameOutput(start.outputs, before.run.outputs, id)
  {
    SelectedIds(env, wave, false);
    SelectedIds(env, wave, true);
    ReadsKeep(env, Reads(env, wave), start, now, |Reads(env, wave)|, id);
    WritesKeep(env, Writes(env, wave), WaveRead(env, wave, start, now), now + 2 + |Reads(env, wave)|, k, id);
  }

  // ---- What a wave starts with ----

  lemma {:induction false} OutputUntouched(prior: Outputs, applied: seq<Applied>, id: string)
    requires forall i | 0 <= i < |applied| :: applied[i].id != id
    ensures SameOutput(prior, OutputsAfter(prior, applied), id)
  {
    if applied != [] { OutputUntouched(prior, applied[..|applied| - 1], id); }
  }

  lemma MissingMeans(step: Step, outputs: Outputs, ref: StepReference)
    requires ResolveStepArgs(step.args, outputs) == Err(ref)
    ensures OccursInFields(ref, step.args) && !Produced(outputs, ref)
  {
    ResolveExact(step.args, outputs);
    FirstMissingIs(CollectFields(step.args), outputs);
    CollectFieldsExact(step.args, ref);
  }

  lemma {:induction false} FirstMissingIs(refs: seq<StepReference>, outputs: Outputs)
    requires FirstMissing(refs, outputs).Some?
    ensures FirstMissing(refs, outputs).value in refs && !Produced(outputs, FirstMissing(refs, outputs).value)
  {
    if Produced(outputs, refs[0]) { FirstMissingIs(refs[1..], outputs); }
  }

  /** A step applied in an earlier wave that carried its declared outputs has produced them. */
  lemma EarlierProduced(catalog: Catalog, prior: Outputs, plan: seq<Step>, done: seq<Step>, run: Run, p: Step,
                        ref: StepReference)
    requires UniqueIds(plan) && multiset(done) <= multiset(plan) && p in done && p.id == ref.stepId
    requires AppliedTo(done, run.applied) && run.outputs == OutputsAfter(prior, run.applied)
    requires forall a | a in run.applied :: Generous(catalog, a)
    requires p.capability in catalog && ref.output in catalog[p.capability].outputs
    ensures Produced(run.outputs, ref)
  {
    var j :| 0 <= j < |done| && done[j] == p;
    AppliedAt(done, run.applied, j);
    assert run.applied[j] in run.applied;
    forall i | j < i < |run.applied| ensures run.applied[i].id != run.applied[j].id {
      AppliedAt(done, run.applied, i);
      UniqueApplications(plan, done, j, i);
    }
    OutputStays(prior, run.applied, j);
  }

  /** The step a reference names stands in an earlier wave and declares the output. */
  lemma ProducerBefore(env: Env, plan: seq<Step>, catalog: Catalog, steps: seq<Step>, rest: seq<Step>,
                       waves: seq<seq<Step>>, level: map<string, nat>, k: nat, s: Step, ref: StepReference)
      returns (p: Step)
    requires Accepted(plan, catalog, steps) && PartOf(rest, steps) && GroupsByLevel(rest, waves, level)
    requires k < |waves| && s in waves[k] && OccursInFields(ref, s.args) && ref.stepId in Ids(rest)
    ensures p in Arranged(env, waves[..k]) && p.id == ref.stepId
    ensures p.capability in catalog && ref.output in catalog[p.capability].outputs
  {
    ReferenceComesEarlier(plan, catalog, steps, rest, waves, level, k, s, ref);
    var j;
    j, p :| 0 <= j < k && p in waves[j] && p.id == ref.stepId;
    ArrangedMembers(env, waves, k, p);
    LevelMembers(rest, level, j);
    LevelMembers(rest, level, k);
    ProducerDeclares(plan, catalog, steps, s, p, ref);
  }

  lemma RecordedStays(rest: seq<Step>, prior: Outputs, done: seq<Step>, start: Run, ref: StepReference)
    requires multiset(done) <= multiset(rest) && AppliedTo(done, start.applied) && |done| == |start.applied|
    requires start.outputs == OutputsAfter(prior, start.applied) && ref.stepId !in Ids(rest) && Produced(prior, ref)
    ensures Produced(start.outputs, ref)
  {
    forall i | 0 <= i < |start.applied| ensures start.applied[i].id != ref.stepId {
      AppliedAt(done, start.applied, i);
      PartOfPlan(rest, done, i);
    }
    OutputUntouched(prior, start.applied, ref.stepId);
  }

  /** Whatever a step of wave k refers to was produced when the wave starts. */
  lemma ProducedBefore(env: Env, plan: seq<Step>, catalog: Catalog, steps: seq<Step>, rest: seq<Step>, prior: Outputs,
                       waves: seq<seq<Step>>, level: map<string, nat>, k: nat, start: Run, s: Step, ref: StepReference)
    requires Accepted(plan, catalog, steps) && PartOf(rest, steps) && GroupsByLevel(rest, waves, level)
    requires k < |waves| && s in waves[k] && OccursInFields(ref, s.args)
    requires FullyRecorded(rest, prior) && Accounted(env, prior, Arranged(env, waves[..k]), start)
    requires forall a | a in start.applied :: Generous(catalog, a)
    ensures Produced(start.outputs, ref)
  {
    var done := Arranged(env, waves[..k]);
    AccountedMeans(env, prior, done, start);
    ArrangedIsPart(env, rest, waves, level, k);
    if ref.stepId in Ids(rest) {
      var p := ProducerBefore(env, plan, catalog, steps, rest, waves, level, k, s, ref);
      EarlierProduced(catalog, prior, rest, done, start, p, ref);
    } else {
      LevelMembers(rest, level, k);
      RecordedStays(rest, prior, done, start, ref);
    }
  }

  lemma ArrangedIsPart(env: Env, rest: seq<Step>, waves: seq<seq<Step>>, level: map<string, nat>, k: nat)
    requires UniqueIds(rest) && GroupsByLevel(rest, waves, level) && k <= |waves|
    ensures multiset(Arranged(env, waves[..k])) <= multiset(rest)
  {
    ArrangedPrefix(env, waves, k);
    WholePlan(env, rest, waves, level);
  }

  lemma ProducerDeclares(plan: seq<Step>, catalog: Catalog, steps: seq<Step>, s: Step, p: Step, ref: StepReference)
    requires Accepted(plan, catalog, steps) && s in steps && p in steps && p.id == ref.stepId
    requires OccursInFields(ref, s.args)
    ensures p.capability in catalog && ref.output in catalog[p.capability].outputs
  {
    ReferenceResolved(plan, catalog, steps, s, ref);
    var q :| q in steps && q.id == ref.stepId && q.capability in catalog && ref.output in catalog[q.capability].outputs;
    SameIdSameStep(steps, p, q);
  }

  // ---- The run ----

  /** Neither a read of the wave nor a write it comes to misses a reference. */
  lemma CauseIsNotMissing(env: Env, wave: seq<Step>, start: Run, now: nat, stop: Stop)
    requires wave != [] && Caused(env, wave, start, now, stop)
    requires forall s, ref | s in wave && OccursInFields(ref, s.args) ::
      Produced(start.outputs, ref) && ref.stepId !in Ids(wave)
    ensures !(stop.FailedAt? && stop.failure.reason.NotProduced?)
  {
    if stop.FailedAt? && stop.failure.reason.NotProduced? {
      var ref := stop.failure.reason.ref;
      if k: nat :| k < |Reads(env, wave)| && CausedByRead(env, wave, start, now, k, stop.failure) {
        SelectMembers(env, wave, false);
        assert Reads(env, wave)[k] in wave;
        MissingMeans(Reads(env, wave)[k], start.outputs, ref);
      } else {
        var k: nat :| k < |Writes(env, wave)| && CausedByWrite(env, wave, start, now, k, stop);
        SelectMembers(env, wave, true);
        WriteMisses(env, wave, start, now, k, stop);
        BeforeWriteKeeps(env, wave, start, now, k, ref.stepId);
      }
    }
  }

  lemma WriteMisses(env: Env, wave: seq<Step>, start: Run, now: nat, k: nat, stop: Stop)
    requires k < |Writes(env, wave)| && CausedByWrite(env, wave, start, now, k, stop)
    requires stop.FailedAt? && stop.failure.reason.NotProduced?
    ensures var before := WritesEnd(env, Writes(env, wave), WaveRead(env, wave, start, now),
                                    now + 2 + |Reads(env, wave)|, k);
      && OccursInFields(stop.failure.reason.ref, Writes(env, wave)[k].args)
      && !Produced(before.run.outputs, stop.failure.reason.ref)
  {
    var before := WritesEnd(env, Writes(env, wave), WaveRead(env, wave, start, now), now + 2 + |Reads(env, wave)|, k);
    MissingMeans(Writes(env, wave)[k], before.run.outputs, stop.failure.reason.ref);
  }

  /** If every accepted reply carries the outputs its capability declares, and what earlier runs
      produced was recorded, no run over an accepted plan or a remainder of one stops because an
      output was not produced. */
  lemma NeverUnproduced(env: Env, plan: seq<Step>, catalog: Catalog, steps: seq<Step>, rest: seq<Step>, prior: Outputs,
                        waves: seq<seq<Step>>, level: map<string, nat>, run: Run, stop: Stop, done: seq<Step>,
                        mark: Mark)
    requires Accepted(plan, catalog, steps) && PartOf(rest, steps) && GroupsByLevel(rest, waves, level)
    requires Stopped(env, waves, prior, run, stop, done, mark) && FullyRecorded(rest, prior)
    requires forall a | a in run.applied :: Generous(catalog, a)
    ensures !(stop.FailedAt? && stop.failure.reason.NotProduced?)
  {
    var k := mark.wave;
    var start, now := RunBefore(env, waves, prior, k), StartsAt(waves, k);
    StartAccounted(env, waves, prior, k);
    WaveKeeps(env, waves[k], start, now);
    forall a | a in start.applied ensures Generous(catalog, a) { assert a in run.applied; }
    forall s, ref | s in waves[k] && OccursInFields(ref, s.args)
      ensures Produced(start.outputs, ref) && ref.stepId !in Ids(waves[k])
    {
      ProducedBefore(env, plan, catalog, steps, rest, prior, waves, level, k, start, s, ref);
      NotInOwnWave(plan, catalog, steps, rest, waves, level, k, s, ref);
    }
    CauseIsNotMissing(env, waves[k], start, now, stop);
  }

  lemma StartAccounted(env: Env, waves: seq<seq<Step>>, prior: Outputs, k: nat)
    requires k < |waves| && NonEmpty(waves) && WentThrough(env, waves, prior, k)
    ensures Accounted(env, prior, Arranged(env, waves[..k]), RunBefore(env, waves, prior, k))
  {
    ThroughAccounted(env, waves, prior, k);
  }

  lemma NotInOwnWave(plan: seq<Step>, catalog: Catalog, steps: seq<Step>, rest: seq<Step>, waves: seq<seq<Step>>,
                     level: map<string, nat>, k: nat, s: Step, ref: StepReference)
    requires Accepted(plan, catalog, steps) && PartOf(rest, steps) && GroupsByLevel(rest, waves, level)
    requires k < |waves| && s in waves[k] && OccursInFields(ref, s.args)
    ensures ref.stepId !in Ids(waves[k])
  {
    LevelMembers(rest, level, k);
    if ref.stepId in Ids(waves[k]) {
      ReferenceComesEarlier(plan, catalog, steps, rest, waves, level, k, s, ref);
      var j, p :| 0 <= j < k && p in waves[j] && p.id == ref.stepId;
      LevelMembers(rest, level, j);
    }
  }
}
