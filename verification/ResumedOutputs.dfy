/** Resumed runs share their recorded outputs: each run starts with what the run before it
    produced, so a campaign leaves what one run over all its applied steps leaves. */
module ResumedOutputs {
  import opened DependencyGraph
  import opened DependencyWaves
  import opened GovernedExecutor
  import opened Prelude
  import opened ResumedExecution
  import opened StepReferences

  /** One run of a campaign, with the outputs it was given. */
  datatype Leg = Leg(env: Env, prior: Outputs, done: seq<Step>, run: Run, stop: Option<Stop>)

  /** Only some outputs of a step are recorded, but those as they were produced. */
  ghost predicate Within(some: Outputs, all: Outputs) {
    forall id | id in some ::
      id in all && forall key | key in some[id] :: key in all[id] && some[id][key] == all[id][key]
  }

  /** Each run is given the steps the earlier ones did not apply and outputs they recorded; no run
      follows one that left a step in doubt. */
  ghost predicate Resumed(mutating: set<string>, plan: seq<Step>, known: Outputs, legs: seq<Leg>)
    decreases |legs|
  {
    legs != [] ==>
      && legs[0].env.mutating == mutating && Within(legs[0].prior, known)
      && LeftBehind(legs[0].env, plan, legs[0].prior, legs[0].done, legs[0].run, legs[0].stop)
      && (|legs| > 1 ==> Doubtful(legs[0].stop).None?)
      && Resumed(mutating, Remaining(plan, legs[0].done), legs[0].run.outputs, legs[1..])
  }

  function AllDone(legs: seq<Leg>): seq<Step> {
    if legs == [] then [] else legs[0].done + AllDone(legs[1..])
  }

  function AllApplied(legs: seq<Leg>): seq<Applied> {
    if legs == [] then [] else legs[0].run.applied + AllApplied(legs[1..])
  }

  function AllEffects(legs: seq<Leg>): seq<Effect> {
    if legs == [] then [] else legs[0].run.effects + AllEffects(legs[1..])
  }

  /** Everything a campaign applied, produced and left on the control plane, as one run. */
  function Joined(prior: Outputs, legs: seq<Leg>): Run {
    Run(AllApplied(legs), OutputsAfter(prior, AllApplied(legs)), AllEffects(legs))
  }

  function Then(r: Run, q: Run): Run { Run(r.applied + q.applied, q.outputs, r.effects + q.effects) }

  // ---- More outputs change nothing ----

  lemma {:induction false} WalkGrows(v: Arg, some: Outputs, all: Outputs, missing: Option<StepReference>)
    requires Within(some, all) && Walk(v, some, missing).missing.None?
    ensures Walk(v, all, missing) == Walk(v, some, missing)
    decreases v, 1
  {
    if ReferenceOf(v).None? {
      match v
      case List(items) => WalkItemsGrows(items, some, all, missing);
      case Record(fields) => WalkFieldsGrows(fields, some, all, missing);
      case _ =>
    }
  }

  lemma {:induction false} WalkItemsGrows(items: seq<Arg>, some: Outputs, all: Outputs, missing: Option<StepReference>)
    requires Within(some, all) && WalkItems(items, some, missing).missing.None?
    ensures WalkItems(items, all, missing) == WalkItems(items, some, missing)
    decreases items, 0
  {
    if items != [] {
      var first := Walk(items[0], some, missing);
      WalkItemsExact(items[1..], some, first.missing);
      WalkGrows(items[0], some, all, missing);
      WalkItemsGrows(items[1..], some, all, first.missing);
    }
  }

  lemma {:induction false} WalkFieldsGrows(fields: seq<Field>, some: Outputs, all: Outputs,
                                           missing: Option<StepReference>)
    requires Within(some, all) && WalkFields(fields, some, missing).missing.None?
    ensures WalkFields(fields, all, missing) == WalkFields(fields, some, missing)
    decreases fields, 0
  {
    if fields != [] {
      var first := Walk(fields[0].value, some, missing);
      WalkFieldsExact(fields[1..], some, first.missing);
      WalkGrows(fields[0].value, some, all, missing);
      WalkFieldsGrows(fields[1..], some, all, first.missing);
    }
  }

  /** A step that resolves sends the same arguments when more outputs are known. */
  lemma SameArgs(step: Step, some: Outputs, all: Outputs)
    requires Within(some, all) && Resolvable(step, some)
    ensures Resolvable(step, all) && SentArgs(step, all) == SentArgs(step, some)
  {
    WalkFieldsGrows(step.args, some, all, None);
  }

  function Raised(prior: Outputs, run: Run): Run { Run(run.applied, OutputsAfter(prior, run.applied), run.effects) }

  lemma RaisedStep(env: Env, prior: Outputs, before: Run, step: Step, a: Applied)
    requires Within(before.outputs, OutputsAfter(prior, before.applied))
    requires step.capability in env.mutating ==> Resolvable(step, before.outputs)
    ensures var run := RunAfter(env, before, step, a);
      Raised(prior, run) == RunAfter(env, Raised(prior, before), step, a)
      && Within(run.outputs, OutputsAfter(prior, run.applied))
  {
    if step.capability in env.mutating { SameArgs(step, before.outputs, OutputsAfter(prior, before.applied)); }
    assert (before.applied + [a])[..|before.applied|] == before.applied;
  }

  /** A run accounted for from the outputs it was given is accounted for from all that were known. */
  lemma {:induction false} AccountRaised(env: Env, some: Outputs, all: Outputs, done: seq<Step>, run: Run)
    requires Within(some, all) && Accounted(env, some, done, run)
    ensures Accounted(env, all, done, Raised(all, run)) && Within(run.outputs, OutputsAfter(all, run.applied))
    decreases |done|
  {
    if done != [] {
      var n := |done| - 1;
      var before, a :| Extends(env, some, done, run, before, a);
      AccountRaised(env, some, all, done[..n], before);
      RaisedStep(env, all, before, done[n], a);
      if done[n].capability in env.mutating { SameArgs(done[n], before.outputs, OutputsAfter(all, before.applied)); }
      assert Extends(env, all, done, Raised(all, run), Raised(all, before), a);
    }
  }

  lemma StopRaised(env: Env, some: Outputs, all: Outputs, done: seq<Step>, run: Run, stop: Option<Stop>,
                   next: Option<Step>)
    requires Within(some, all) && AccountedAtStop(env, some, done, run, stop, next)
    ensures AccountedAtStop(env, all, done, Raised(all, run), stop, next)
  {
    if Accounted(env, some, done, run) {
      AccountRaised(env, some, all, done, run);
    } else {
      var n := |run.effects| - 1;
      AccountRaised(env, some, all, done, run.(effects := run.effects[..n]));
      SameArgs(next.value, run.outputs, OutputsAfter(all, run.applied));
    }
  }

  // ---- A campaign is one run ----

  lemma {:induction false} SameAccount(env: Env, env': Env, prior: Outputs, done: seq<Step>, run: Run)
    requires env.mutating == env'.mutating && Accounted(env, prior, done, run)
    ensures Accounted(env', prior, done, run)
    decreases |done|
  {
    if done != [] {
      var before, a :| Extends(env, prior, done, run, before, a);
      SameAccount(env, env', prior, done[..|done| - 1], before);
      assert Extends(env', prior, done, run, before, a);
    }
  }

  lemma ThenApplied(env: Env, r: Run, q: Run, step: Step, a: Applied)
    ensures Then(r, RunAfter(env, q, step, a)).applied == RunAfter(env, Then(r, q), step, a).applied
    ensures Then(r, RunAfter(env, q, step, a)).effects == RunAfter(env, Then(r, q), step, a).effects
  {
  }

  /** Two runs in a row, the second starting with the outputs of the first, are one run. */
  lemma {:induction false} AccountsJoin(env: Env, prior: Outputs, a: seq<Step>, r: Run, b: seq<Step>, q: Run)
    requires Accounted(env, prior, a, r) && Accounted(env, r.outputs, b, q)
    ensures Accounted(env, prior, a + b, Then(r, q))
    decreases |b|
  {
    if b == [] {
      assert a + b == a && Then(r, q) == r;
    } else {
      var n := |b| - 1;
      var before, x :| Extends(env, r.outputs, b, q, before, x);
      AccountsJoin(env, prior, a, r, b[..n], before);
      Extend(env, prior, a + b[..n], Then(r, before), b[n], x);
      ThenApplied(env, r, before, b[n], x);
      assert a + b == a + b[..n] + [b[n]];
    }
  }

  lemma StopsJoin(env: Env, prior: Outputs, a: seq<Step>, r: Run, b: seq<Step>, q: Run, stop: Option<Stop>,
                  next: Option<Step>)
    requires Accounted(env, prior, a, r) && AccountedAtStop(env, r.outputs, b, q, stop, next)
    ensures AccountedAtStop(env, prior, a + b, Then(r, q), stop, next)
  {
    if Accounted(env, r.outputs, b, q) {
      AccountsJoin(env, prior, a, r, b, q);
    } else {
      DoubtJoins(env, prior, a, r, b, q, stop, next.value);
    }
  }

  lemma DoubtJoins(env: Env, prior: Outputs, a: seq<Step>, r: Run, b: seq<Step>, q: Run, stop: Option<Stop>, next: Step)
    requires Accounted(env, prior, a, r) && InDoubt(env, r.outputs, b, q, stop, next)
    ensures InDoubt(env, prior, a + b, Then(r, q), stop, next)
  {
    var n := |q.effects| - 1;
    AccountsJoin(env, prior, a, r, b, q.(effects := q.effects[..n]));
    var all := r.effects + q.effects;
    assert all[..|all| - 1] == r.effects + q.effects[..n];
  }

  lemma {:induction false} OutputsAppend(prior: Outputs, a: seq<Applied>, b: seq<Applied>)
    ensures OutputsAfter(prior, a + b) == OutputsAfter(OutputsAfter(prior, a), b)
  {
    if b == [] {
      assert a + b == a;
    } else {
      var n := |b| - 1;
      assert (a + b)[..|a| + n] == a + b[..n];
      OutputsAppend(prior, a, b[..n]);
    }
  }

  lemma JoinedFirst(prior: Outputs, legs: seq<Leg>)
    requires legs != []
    ensures var first := Raised(prior, legs[0].run);
      Joined(prior, legs) == Then(first, Joined(first.outputs, legs[1..]))
  {
    OutputsAppend(prior, legs[0].run.applied, AllApplied(legs[1..]));
  }

  /** A campaign leaves what a single run over all the steps it applied leaves, up to the doubtful
      step of its last run, although each run was given only recorded outputs. */
  lemma {:induction false} CampaignIsOneRun(env: Env, plan: seq<Step>, known: Outputs, prior: Outputs, legs: seq<Leg>)
      returns (next: Option<Step>)
    requires legs != [] && Resumed(env.mutating, plan, known, legs) && Within(known, prior)
    ensures AccountedAtStop(env, prior, AllDone(legs), Joined(prior, legs), legs[|legs| - 1].stop, next)
    decreases |legs|
  {
    var a, rest := legs[0], legs[1..];
    next :| AccountedAtStop(a.env, a.prior, a.done, a.run, a.stop, next);
    SameStop(a.env, env, a.prior, a.done, a.run, a.stop, next);
    if rest == [] {
      StopRaised(env, a.prior, prior, a.done, a.run, a.stop, next);
      OnlyLeg(prior, legs);
    } else {
      AccountRaised(env, a.prior, prior, a.done, a.run);
      var first := Raised(prior, a.run);
      next := CampaignIsOneRun(env, Remaining(plan, a.done), a.run.outputs, first.outputs, rest);
      StopsJoin(env, prior, a.done, first, AllDone(rest), Joined(first.outputs, rest), rest[|rest| - 1].stop, next);
      JoinedFirst(prior, legs);
    }
  }

  lemma OnlyLeg(prior: Outputs, legs: seq<Leg>)
    requires |legs| == 1
    ensures AllDone(legs) == legs[0].done && Joined(prior, legs) == Raised(prior, legs[0].run)
  {
    var r := legs[0].run;
    assert AllDone(legs[1..]) == [] && AllApplied(legs[1..]) == [] && AllEffects(legs[1..]) == [];
    assert r.applied + [] == r.applied && r.effects + [] == r.effects;
  }

  lemma SameStop(env: Env, env': Env, prior: Outputs, done: seq<Step>, run: Run, stop: Option<Stop>, next: Option<Step>)
    requires env.mutating == env'.mutating && AccountedAtStop(env, prior, done, run, stop, next)
    ensures AccountedAtStop(env', prior, done, run, stop, next)
  {
    if Accounted(env, prior, done, run) {
      SameAccount(env, env', prior, done, run);
    } else {
      SameAccount(env, env', prior, done, run.(effects := run.effects[..|run.effects| - 1]));
    }
  }

  lemma {:induction false} RemainingIds(plan: seq<Step>, done: seq<Step>, d: string)
    requires d in Ids(plan)
    ensures d in Ids(done) || d in Ids(Remaining(plan, done))
  {
    var n := |plan| - 1;
    var s :| s in plan && s.id == d;
    if s == plan[n] {
      assert d !in Ids(done) ==> s in Remaining(plan, done);
    } else {
      assert s in plan[..n];
      RemainingIds(plan[..n], done, d);
      assert forall t | t in Remaining(plan[..n], done) :: t in Remaining(plan, done);
    }
  }

  lemma AppliedLater(a: seq<Step>, b: seq<Step>, i: nat, d: string)
    requires AppliedBefore(b, i, d)
    ensures AppliedBefore(a + b, |a| + i, d)
  {
    var j :| 0 <= j < i && j < |b| && b[j].id == d;
    assert (a + b)[|a| + j].id == d;
  }

  lemma OrdersJoin(plan: seq<Step>, a: seq<Step>, b: seq<Step>)
    requires DependencyOrder(plan, a) && DependencyOrder(Remaining(plan, a), b)
    ensures DependencyOrder(plan, a + b)
  {
    var done := a + b;
    forall i, d | 0 <= i < |done| && d in done[i].dependsOn && d in Ids(plan) ensures AppliedBefore(done, i, d) {
      if i < |a| {
        var j :| 0 <= j < i && j < |a| && a[j].id == d;
        assert done[j].id == d;
      } else {
        RemainingIds(plan, a, d);
        if d in Ids(a) {
          var s :| s in a && s.id == d;
          var j :| 0 <= j < |a| && a[j] == s;
          assert done[j].id == d;
        } else {
          assert AppliedBefore(b, i - |a|, d);
          AppliedLater(a, b, i - |a|, d);
        }
      }
    }
  }

  /** Over a campaign no step is applied twice, and each after the plan steps it depends on. */
  lemma {:induction false} CampaignOrder(mutating: set<string>, plan: seq<Step>, known: Outputs, legs: seq<Leg>)
    requires UniqueIds(plan) && Resumed(mutating, plan, known, legs)
    ensures multiset(AllDone(legs)) <= multiset(plan) && DependencyOrder(plan, AllDone(legs))
    decreases |legs|
  {
    if legs != [] {
      var a := legs[0];
      RemainingUnique(plan, a.done);
      CampaignOrder(mutating, Remaining(plan, a.done), a.run.outputs, legs[1..]);
      RemainingComplements(plan, a.done);
      OrdersJoin(plan, a.done, AllDone(legs[1..]));
    }
  }

  lemma {:induction false} EffectAt(env: Env, prior: Outputs, done: seq<Step>, applied: seq<Applied>, k: nat)
    requires |done| == |applied| && k < |done| && done[k].capability in env.mutating
    requires ReferencesBound(env, prior, done, applied)
    ensures var outputs := OutputsAfter(prior, applied[..k]);
      Effect(done[k].id, SentArgs(done[k], outputs)) in EffectsOf(env, prior, done, applied)
    ensures Resolvable(done[k], OutputsAfter(prior, applied[..k]))
  {
    var n := |done| - 1;
    if k < n {
      assert applied[..n][..k] == applied[..k];
      EffectAt(env, prior, done[..n], applied[..n], k);
    }
  }

  lemma {:induction false} OutputStays(prior: Outputs, applied: seq<Applied>, j: nat)
    requires j < |applied| && forall i | j < i < |applied| :: applied[i].id != applied[j].id
    ensures applied[j].output.Some? ==>
      applied[j].id in OutputsAfter(prior, applied)
        && OutputsAfter(prior, applied)[applied[j].id] == applied[j].output.value
  {
    var n := |applied| - 1;
    if j < n { OutputStays(prior, applied[..n], j); }
  }

  lemma {:induction false} OutputComesFrom(prior: Outputs, applied: seq<Applied>, id: string)
    requires id in OutputsAfter(prior, applied)
    ensures id in prior || exists j :: 0 <= j < |applied| && applied[j].id == id && applied[j].output.Some?
  {
    if applied != [] {
      var n := |applied| - 1;
      if !(applied[n].id == id && applied[n].output.Some?) {
        OutputComesFrom(prior, applied[..n], id);
        if id !in prior {
          var j :| 0 <= j < n && applied[..n][j].id == id && applied[..n][j].output.Some?;
          assert applied[j].id == id;
        }
      }
    }
  }

  lemma {:induction false} AppliedAt(done: seq<Step>, applied: seq<Applied>, j: nat)
    requires AppliedTo(done, applied) && j < |done|
    ensures |applied| == |done| && applied[j].id == done[j].id && applied[j].capability == done[j].capability
    decreases |done|
  {
    var n := |done| - 1;
    if n > 0 { AppliedAt(done[..n], applied[..|applied| - 1], if j < n then j else 0); }
  }

  /** The effect of an applied step: its arguments with every reference replaced by what was
      produced before it. */
  ghost predicate Carried(run: Run, step: Step, outputs: Outputs) {
    exists e :: e in run.effects && e.stepId == step.id && SubstitutesFields(step.args, e.args, outputs)
  }

  lemma StepCarried(env: Env, prior: Outputs, done: seq<Step>, run: Run, k: nat)
    requires Accounted(env, prior, done, run) && k < |done| && done[k].capability in env.mutating
    ensures |run.applied| == |done| && AppliedTo(done, run.applied)
    ensures var outputs := OutputsAfter(prior, run.applied[..k]);
      Carried(run, done[k], outputs) && forall ref | OccursInFields(ref, done[k].args) :: Produced(outputs, ref)
  {
    AccountedMeans(env, prior, done, run);
    EffectAt(env, prior, done, run.applied, k);
    var outputs := OutputsAfter(prior, run.applied[..k]);
    ResolveExact(done[k].args, outputs);
    assert SubstitutesFields(done[k].args, Effect(done[k].id, SentArgs(done[k], outputs)).args, outputs);
  }

  lemma StepCarriedAtStop(env: Env, prior: Outputs, done: seq<Step>, run: Run, stop: Option<Stop>, next: Option<Step>,
                          k: nat)
    requires AccountedAtStop(env, prior, done, run, stop, next) && k < |done| && done[k].capability in env.mutating
    ensures |run.applied| == |done| && AppliedTo(done, run.applied)
    ensures var outputs := OutputsAfter(prior, run.applied[..k]);
      Carried(run, done[k], outputs) && forall ref | OccursInFields(ref, done[k].args) :: Produced(outputs, ref)
  {
    if Accounted(env, prior, done, run) {
      StepCarried(env, prior, done, run, k);
    } else {
      var settled := run.(effects := run.effects[..|run.effects| - 1]);
      StepCarried(env, prior, done, settled, k);
      var outputs := OutputsAfter(prior, run.applied[..k]);
      var e :| e in settled.effects && e.stepId == done[k].id && SubstitutesFields(done[k].args, e.args, outputs);
      assert e in run.effects;
    }
  }

  lemma UniqueApplications(plan: seq<Step>, done: seq<Step>, i: nat, j: nat)
    requires UniqueIds(plan) && multiset(done) <= multiset(plan) && i < j < |done|
    ensures done[i].id != done[j].id
  {
    PartOfPlan(plan, done, i);
    PartOfPlan(plan, done, j);
    if done[i].id == done[j].id {
      SameIdSameStep(plan, done[i], done[j]);
      TwiceThere(done, i, j);
      UniqueCount(plan, done[i]);
    }
  }

  lemma PartOfPlan(plan: seq<Step>, done: seq<Step>, i: nat)
    requires multiset(done) <= multiset(plan) && i < |done|
    ensures done[i] in plan
  {
    assert done[i] in multiset(done);
    assert multiset(done)[done[i]] <= multiset(plan)[done[i]];
  }

  lemma TwiceThere(done: seq<Step>, i: nat, j: nat)
    requires i < j < |done| && done[i] == done[j]
    ensures multiset(done)[done[i]] >= 2
  {
    assert done == done[..j] + [done[j]] + done[j + 1..];
    assert done[..j][i] == done[i];
    assert done[i] in multiset(done[..j]);
  }

  /** Every mutation of a campaign reaches the control plane with each reference bound to what the
      one application of the step it names produced, in whichever run that was. */
  lemma ReferencesAcrossRuns(env: Env, plan: seq<Step>, prior: Outputs, legs: seq<Leg>, k: nat, ref: StepReference)
      returns (outputs: Outputs, j: nat)
    requires UniqueIds(plan) && legs != [] && Resumed(env.mutating, plan, prior, legs) && prior.Keys !! Ids(plan)
    requires k < |AllDone(legs)| && AllDone(legs)[k].capability in env.mutating
    requires OccursInFields(ref, AllDone(legs)[k].args) && ref.stepId in Ids(plan)
    ensures var done, run := AllDone(legs), Joined(prior, legs);
      && Carried(run, done[k], outputs) && Produced(outputs, ref)
      && |run.applied| == |done| && j < k && done[j].id == run.applied[j].id == ref.stepId
      && run.applied[j].output == Some(outputs[ref.stepId])
      && forall i | 0 <= i < |done| && i != j :: done[i].id != ref.stepId
  {
    var done, run := AllDone(legs), Joined(prior, legs);
    var next := CampaignIsOneRun(env, plan, prior, prior, legs);
    StepCarriedAtStop(env, prior, done, run, legs[|legs| - 1].stop, next, k);
    outputs := OutputsAfter(prior, run.applied[..k]);
    OutputComesFrom(prior, run.applied[..k], ref.stepId);
    j :| 0 <= j < k && run.applied[..k][j].id == ref.stepId && run.applied[..k][j].output.Some?;
    CampaignOrder(env.mutating, plan, prior, legs);
    forall i | 0 <= i < |done| ensures done[i].id == run.applied[i].id && (i != j ==> done[i].id != done[j].id) {
      AppliedAt(done, run.applied, i);
      if i < j { UniqueApplications(plan, done, i, j); }
      if j < i { UniqueApplications(plan, done, j, i); }
    }
    OutputStays(prior, run.applied[..k], j);
  }
}
