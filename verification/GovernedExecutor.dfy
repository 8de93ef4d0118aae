/** The governed executor: it applies a plan wave by wave through a control client whose answers
    may be ambiguous, under a lease that may be lost at any moment. */
module GovernedExecutor {
  import opened DependencyGraph
  import opened DependencyWaves
  import opened Prelude
  import opened StepReferences

  type Output = map<string, Arg>

  /** What one control invocation amounts to. A definitive rejection applied nothing; an ambiguous
      end may or may not have applied the command, and only the remote side knows which. */
  datatype Reply =
    | Success(output: Option<Output>)
    | Rejected(reason: string)
    | Ambiguous(reason: string, applied: bool)

  /** Everything the executor does not decide, as functions of the moment it asks: the answer to
      an invocation, the abort signal, and the ownership check (false also when it throws). */
  datatype Env = Env(governed: set<string>, mutating: set<string>, leased: bool,
                     replies: nat -> Reply, aborted: nat -> bool, owned: nat -> bool)

  datatype Reason = NoOrder | NotGoverned | NotProduced(ref: StepReference) | Remote(reason: string)

  datatype Failure = Failure(stepId: string, capability: string, reason: Reason, terminal: bool)

  datatype LeaseLoss = LeaseLoss(stepId: string, capability: string, outcomeUncertain: bool)

  datatype Applied = Applied(id: string, capability: string, output: Option<Output>)

  datatype Stop = FailedAt(failure: Failure) | LostAt(loss: LeaseLoss)

  /** A mutation that took effect on the control plane, with the arguments it carried. */
  datatype Effect = Effect(stepId: string, args: seq<Field>)

  datatype Run = Run(applied: seq<Applied>, outputs: Outputs, effects: seq<Effect>)

  datatype StepApply = Done(result: Applied) | Refused(failure: Failure)

  predicate Invokes(env: Env, step: Step, outputs: Outputs) {
    step.capability in env.governed && ResolveStepArgs(step.args, outputs).Ok?
  }

  function ApplyStep(env: Env, step: Step, outputs: Outputs, reply: Reply): StepApply {
    if step.capability !in env.governed then Refused(Failure(step.id, step.capability, NotGoverned, false))
    else
      match ResolveStepArgs(step.args, outputs)
      case Err(ref) => Refused(Failure(step.id, step.capability, NotProduced(ref), false))
      case Ok(_) =>
        match reply
        case Success(output) => Done(Applied(step.id, step.capability, output))
        case Rejected(reason) => Refused(Failure(step.id, step.capability, Remote(reason), false))
        case Ambiguous(reason, _) => Refused(Failure(step.id, step.capability, Remote(reason), true))
  }

  /** The arguments an invocation carries: the step's own, with every reference bound. */
  function SentArgs(step: Step, outputs: Outputs): seq<Field> {
    var resolved := ResolveStepArgs(step.args, outputs);
    if resolved.Ok? then resolved.value else step.args
  }

  /** A step is reported as applied only if it was dispatched and succeeded remotely; a failure
      that is not terminal left nothing behind. */
  lemma ReportIsHonest(env: Env, step: Step, outputs: Outputs, reply: Reply)
    ensures var settled, effect := ApplyStep(env, step, outputs, reply), EffectOf(env, step, outputs, reply);
      && (settled.Done? ==>
        Invokes(env, step, outputs) && SubstitutesFields(step.args, SentArgs(step, outputs), outputs))
      && (settled.Done? && step.capability in env.mutating ==> effect == [Effect(step.id, SentArgs(step, outputs))])
      && (settled.Refused? && !settled.failure.terminal ==> effect == [])
  {
    ResolveExact(step.args, outputs);
  }

  /** What the invocation leaves on the control plane. */
  function EffectOf(env: Env, step: Step, outputs: Outputs, reply: Reply): seq<Effect> {
    if step.capability in env.mutating && Invokes(env, step, outputs)
      && (reply.Success? || (reply.Ambiguous? && reply.applied))
    then [Effect(step.id, SentArgs(step, outputs))]
    else []
  }

  function Register(outputs: Outputs, a: Applied): Outputs {
    if a.output.Some? then outputs[a.id := a.output.value] else outputs
  }

  function OutputsAfter(prior: Outputs, applied: seq<Applied>): Outputs {
    if applied == [] then prior
    else Register(OutputsAfter(prior, applied[..|applied| - 1]), applied[|applied| - 1])
  }

  /** The applied list names exactly these steps, in this order. */
  ghost predicate AppliedTo(done: seq<Step>, applied: seq<Applied>) {
    if done == [] || applied == [] then done == [] && applied == []
    else
      var n, m := |done| - 1, |applied| - 1;
      applied[m].id == done[n].id && applied[m].capability == done[n].capability && AppliedTo(done[..n], applied[..m])
  }

  /** One effect per applied mutating step, in order, its references bound to what the steps
      applied before it produced. */
  ghost function EffectsOf(env: Env, prior: Outputs, done: seq<Step>, applied: seq<Applied>): seq<Effect>
    requires |done| == |applied|
  {
    if done == [] then []
    else
      var n := |done| - 1;
      var before := EffectsOf(env, prior, done[..n], applied[..n]);
      if done[n].capability !in env.mutating then before
      else before + [Effect(done[n].id, SentArgs(done[n], OutputsAfter(prior, applied[..n])))]
  }

  /** The run once a step has been applied. */
  function RunAfter(env: Env, run: Run, step: Step, a: Applied): Run {
    run.(applied := run.applied + [a], outputs := Register(run.outputs, a),
         effects := if step.capability !in env.mutating then run.effects
                    else run.effects + [Effect(step.id, SentArgs(step, run.outputs))])
  }

  predicate Resolvable(step: Step, outputs: Outputs) { ResolveStepArgs(step.args, outputs).Ok? }

  /** A run is accounted for by the steps it applied one after the other, each mutation with every
      reference bound. */
  ghost predicate Accounted(env: Env, prior: Outputs, done: seq<Step>, run: Run)
    decreases |done|, 1
  {
    if done == [] then run == Run([], prior, []) else exists before, a :: Extends(env, prior, done, run, before, a)
  }

  ghost predicate Extends(env: Env, prior: Outputs, done: seq<Step>, run: Run, before: Run, a: Applied)
    requires done != []
    decreases |done|, 0
  {
    var n := |done| - 1;
    && a.id == done[n].id && a.capability == done[n].capability
    && (done[n].capability in env.mutating ==> Resolvable(done[n], before.outputs))
    && run == RunAfter(env, before, done[n], a) && Accounted(env, prior, done[..n], before)
  }

  lemma Extend(env: Env, prior: Outputs, done: seq<Step>, run: Run, step: Step, a: Applied)
    requires Accounted(env, prior, done, run) && a.id == step.id && a.capability == step.capability
    requires step.capability in env.mutating ==> Resolvable(step, run.outputs)
    ensures Accounted(env, prior, done + [step], RunAfter(env, run, step, a))
  {
    assert (done + [step])[..|done|] == done;
    assert Extends(env, prior, done + [step], RunAfter(env, run, step, a), run, a);
  }

  /** Every applied mutation found all its references among what the steps before it produced. */
  ghost predicate ReferencesBound(env: Env, prior: Outputs, done: seq<Step>, applied: seq<Applied>)
    requires |done| == |applied|
  {
    done != [] ==>
      var n := |done| - 1;
      && ReferencesBound(env, prior, done[..n], applied[..n])
      && (done[n].capability in env.mutating ==> Resolvable(done[n], OutputsAfter(prior, applied[..n])))
  }

  /** What the account says: the results name the steps in order, the outputs are theirs, and there
      is one effect per applied mutating step, with what the steps before it produced. */
  lemma {:induction false} AccountedMeans(env: Env, prior: Outputs, done: seq<Step>, run: Run)
    requires Accounted(env, prior, done, run)
    ensures |done| == |run.applied| && AppliedTo(done, run.applied)
    ensures run.outputs == OutputsAfter(prior, run.applied) && run.effects == EffectsOf(env, prior, done, run.applied)
    ensures ReferencesBound(env, prior, done, run.applied)
    decreases |done|
  {
    if done != [] {
      var before, a :| Extends(env, prior, done, run, before, a);
      AccountedMeans(env, prior, done[..|done| - 1], before);
      assert run.applied[..|run.applied| - 1] == before.applied;
    }
  }

  /** The step a result marks as possibly applied although it is not listed as applied. */
  function Doubtful(stop: Option<Stop>): Option<string> {
    match stop
    case Some(FailedAt(f)) => if f.terminal then Some(f.stepId) else None
    case Some(LostAt(l)) => if l.outcomeUncertain then Some(l.stepId) else None
    case None => None
  }

  /** The remote effects are those of the applied steps, plus at most that of the `next` step, which
      the result then marks as doubtful. */
  ghost predicate AccountedAtStop(env: Env, prior: Outputs, done: seq<Step>, run: Run, stop: Option<Stop>,
                                  next: Option<Step>) {
    Accounted(env, prior, done, run) || (next.Some? && InDoubt(env, prior, done, run, stop, next.value))
  }

  ghost predicate InDoubt(env: Env, prior: Outputs, done: seq<Step>, run: Run, stop: Option<Stop>, next: Step) {
    var n := |run.effects| - 1;
    && Doubtful(stop) == Some(next.id)
    && Resolvable(next, run.outputs)
    && n >= 0 && run.effects[n] == Effect(next.id, SentArgs(next, run.outputs))
    && Accounted(env, prior, done, run.(effects := run.effects[..n]))
  }

  /** The steps whose flag is set, in order. */
  ghost function Kept(steps: seq<Step>, ok: seq<bool>): seq<Step>
    requires |ok| == |steps|
  {
    if steps == [] then []
    else
      var n := |steps| - 1;
      if ok[n] then Kept(steps[..n], ok[..n]) + [steps[n]] else Kept(steps[..n], ok[..n])
  }

  // ---- The reads of one wave ----

  /** What read i of a wave comes to; all reads see the outputs the wave started with. */
  function ReadAt(env: Env, queries: seq<Step>, outputs: Outputs, now: nat, i: nat): StepApply
    requires i < |queries|
  {
    ApplyStep(env, queries[i], outputs, env.replies(now + i))
  }

  /** The run after the first n reads: each success is recorded, in order. */
  ghost function AfterReads(env: Env, queries: seq<Step>, start: Run, now: nat, n: nat): Run
    requires n <= |queries|
  {
    if n == 0 then start
    else
      var before, settled :=
        AfterReads(env, queries, start, now, n - 1), ReadAt(env, queries, start.outputs, now, n - 1);
      if settled.Done? then RunAfter(env, before, queries[n - 1], settled.result) else before
  }

  ghost function ReadFlags(env: Env, queries: seq<Step>, outputs: Outputs, now: nat, n: nat): (ok: seq<bool>)
    requires n <= |queries|
    ensures |ok| == n
  {
    if n == 0 then []
    else ReadFlags(env, queries, outputs, now, n - 1) + [ReadAt(env, queries, outputs, now, n - 1).Done?]
  }

  lemma {:induction false} FlagAt(env: Env, queries: seq<Step>, outputs: Outputs, now: nat, n: nat, i: nat)
    requires i < n <= |queries|
    ensures ReadFlags(env, queries, outputs, now, n)[i] <==> ReadAt(env, queries, outputs, now, i).Done?
  {
    if i < n - 1 { FlagAt(env, queries, outputs, now, n - 1, i); }
  }

  /** The failure kept from the first n reads. */
  ghost function ReadFailure(env: Env, queries: seq<Step>, outputs: Outputs, now: nat, n: nat): Option<Failure>
    requires n <= |queries|
  {
    if n == 0 then None
    else
      var before, settled := ReadFailure(env, queries, outputs, now, n - 1), ReadAt(env, queries, outputs, now, n - 1);
      if before.None? && settled.Refused? then Some(settled.failure) else before
  }

  ghost predicate FailsFirst(env: Env, queries: seq<Step>, outputs: Outputs, now: nat, k: nat, f: Failure)
    requires k < |queries|
  {
    && ReadAt(env, queries, outputs, now, k) == Refused(f)
    && forall i | 0 <= i < k :: ReadAt(env, queries, outputs, now, i).Done?
  }

  /** It is that of the first read that did not succeed, and there is none exactly when all did. */
  lemma {:induction false} ReadFailureIsFirst(env: Env, queries: seq<Step>, outputs: Outputs, now: nat, n: nat)
    requires n <= |queries|
    ensures var failure := ReadFailure(env, queries, outputs, now, n);
      && (failure.None? <==> forall i | 0 <= i < n :: ReadAt(env, queries, outputs, now, i).Done?)
      && (failure.Some? ==> exists k: nat :: k < n && FailsFirst(env, queries, outputs, now, k, failure.value))
  {
    if n > 0 {
      ReadFailureIsFirst(env, queries, outputs, now, n - 1);
      var before, settled := ReadFailure(env, queries, outputs, now, n - 1), ReadAt(env, queries, outputs, now, n - 1);
      if before.None? && settled.Refused? { assert FailsFirst(env, queries, outputs, now, n - 1, settled.failure); }
    }
  }

  /** The read-only steps of one wave: every success is recorded, and the first failure is kept. */
  method RunReads(env: Env, queries: seq<Step>, start: Run, now: nat) returns (run: Run, failure: Option<Failure>)
    requires forall i | 0 <= i < |queries| :: queries[i].capability !in env.mutating
    ensures run == AfterReads(env, queries, start, now, |queries|)
    ensures failure == ReadFailure(env, queries, start.outputs, now, |queries|)
  {
    run, failure := start, None;
    for i := 0 to |queries|
      invariant run == AfterReads(env, queries, start, now, i)
      invariant failure == ReadFailure(env, queries, start.outputs, now, i)
    {
      var settled := ApplyStep(env, queries[i], start.outputs, env.replies(now + i));
      if settled.Done? {
        run := run.(applied := run.applied + [settled.result], outputs := Register(run.outputs, settled.result));
      } else if failure.None? {
        failure := Some(settled.failure);
      }
    }
  }

  lemma {:induction false} ReadsHarmless(env: Env, queries: seq<Step>, start: Run, now: nat, n: nat)
    requires n <= |queries| && forall i | 0 <= i < |queries| :: queries[i].capability !in env.mutating
    ensures AfterReads(env, queries, start, now, n).effects == start.effects
  {
    if n > 0 { ReadsHarmless(env, queries, start, now, n - 1); }
  }

  lemma ReadAccounted(env: Env, prior: Outputs, done: seq<Step>, queries: seq<Step>, start: Run, now: nat, n: nat)
    requires n < |queries| && queries[n].capability !in env.mutating
    requires Accounted(env, prior, done, AfterReads(env, queries, start, now, n))
    ensures Accounted(env, prior,
                      if ReadAt(env, queries, start.outputs, now, n).Done? then done + [queries[n]] else done,
                      AfterReads(env, queries, start, now, n + 1))
  {
    var settled := ReadAt(env, queries, start.outputs, now, n);
    if settled.Done? { Extend(env, prior, done, AfterReads(env, queries, start, now, n), queries[n], settled.result); }
  }

  /** The steps applied once the first n reads have settled. */
  ghost function ReadDone(env: Env, before: seq<Step>, queries: seq<Step>, outputs: Outputs, now: nat,
                          n: nat): seq<Step>
    requires n <= |queries|
  {
    if n == 0 then before
    else
      var done := ReadDone(env, before, queries, outputs, now, n - 1);
      if ReadAt(env, queries, outputs, now, n - 1).Done? then done + [queries[n - 1]] else done
  }

  /** The reads that succeed are accounted for, in order. */
  lemma {:induction false} ReadsAccounted(env: Env, prior: Outputs, before: seq<Step>, queries: seq<Step>, start: Run,
                                          now: nat, n: nat)
    requires Accounted(env, prior, before, start) && n <= |queries|
    requires forall i | 0 <= i < |queries| :: queries[i].capability !in env.mutating
    ensures Accounted(env, prior, ReadDone(env, before, queries, start.outputs, now, n),
                      AfterReads(env, queries, start, now, n))
  {
    if n > 0 {
      ReadsAccounted(env, prior, before, queries, start, now, n - 1);
      ReadAccounted(env, prior, ReadDone(env, before, queries, start.outputs, now, n - 1), queries, start, now, n - 1);
    }
  }

  lemma {:induction false} ReadDoneIsKept(env: Env, before: seq<Step>, queries: seq<Step>, outputs: Outputs, now: nat,
                                          n: nat)
    requires n <= |queries|
    ensures ReadDone(env, before, queries, outputs, now, n)
      == before + Kept(queries[..n], ReadFlags(env, queries, outputs, now, n))
  {
    if n == 0 {
      assert before + Kept(queries[..0], []) == before;
    } else {
      ReadDoneIsKept(env, before, queries, outputs, now, n - 1);
      KeptAfter(before, queries, ReadFlags(env, queries, outputs, now, n - 1), n - 1,
                ReadAt(env, queries, outputs, now, n - 1).Done?);
    }
  }

  lemma {:induction false} KeptAll(steps: seq<Step>, ok: seq<bool>)
    requires |ok| == |steps| && forall i | 0 <= i < |ok| :: ok[i]
    ensures Kept(steps, ok) == steps
  {
    if steps != [] {
      KeptAll(steps[..|steps| - 1], ok[..|ok| - 1]);
      assert steps == steps[..|steps| - 1] + [steps[|steps| - 1]];
    }
  }

  lemma KeptAfter(before: seq<Step>, steps: seq<Step>, ok: seq<bool>, i: nat, b: bool)
    requires i < |steps| && |ok| == i
    ensures before + Kept(steps[..i + 1], ok + [b]) ==
      if b then before + Kept(steps[..i], ok) + [steps[i]] else before + Kept(steps[..i], ok)
  {
    KeptStep(steps, ok, i, b);
  }

  lemma KeptStep(steps: seq<Step>, ok: seq<bool>, i: nat, b: bool)
    requires i < |steps| && |ok| == i
    ensures Kept(steps[..i + 1], ok + [b]) == if b then Kept(steps[..i], ok) + [steps[i]] else Kept(steps[..i], ok)
    ensures steps[..i + 1] == steps[..i] + [steps[i]]
  {
    assert steps[..i + 1][..i] == steps[..i] && (ok + [b])[..i] == ok;
  }

  // ---- The writes of one wave ----

  /** The lock is held by every answer the executor gets before it dispatches a write. */
  predicate Granted(env: Env, now: nat) {
    env.leased ==> !env.aborted(now) && env.owned(now + 1) && !env.aborted(now + 2)
  }

  function WriteAt(env: Env, step: Step, run: Run, now: nat): StepApply {
    ApplyStep(env, step, run.outputs, env.replies(now + 3))
  }

  /** The lock is found lost when the write has come back. */
  predicate LostAfter(env: Env, now: nat) {
    env.leased && env.aborted(now + 4)
  }

  /** How a series ends: the run it leaves, why it stopped, and how many writes were applied. */
  datatype End = End(run: Run, stop: Option<Stop>, writes: nat)

  function Named(step: Step): LeaseLoss { LeaseLoss(step.id, step.capability, false) }

  /** How one write ends: nothing happens without the lock; otherwise it is applied, or leaves
      whatever the invocation left and says whether that is in doubt. */
  ghost function WriteEnd(env: Env, step: Step, run: Run, now: nat): End {
    if !Granted(env, now) then End(run, Some(LostAt(Named(step))), 0)
    else
      match WriteAt(env, step, run, now)
      case Done(result) =>
        End(RunAfter(env, run, step, result), if LostAfter(env, now) then Some(LostAt(Named(step))) else None, 1)
      case Refused(f) =>
        End(run.(effects := run.effects + EffectOf(env, step, run.outputs, env.replies(now + 3))),
            Some(if LostAfter(env, now) then LostAt(LeaseLoss(step.id, step.capability, f.terminal)) else FailedAt(f)),
            0)
  }

  /** Nothing reaches the control plane without the lock; a write is applied exactly when the lock
      was held and the control plane accepted it; an effect of any other write is in doubt. */
  ghost predicate Guarded(env: Env, step: Step, run: Run, now: nat, e: End) {
    && (e.run.effects != run.effects ==> Granted(env, now))
    && (e.writes == 1 <==> Granted(env, now) && WriteAt(env, step, run, now).Done?)
    && (e.writes == 1 ==> e.run.effects == run.effects + [Effect(step.id, SentArgs(step, run.outputs))])
    && (e.writes == 0 ==> e.stop.Some? && e.run.applied == run.applied && e.run.outputs == run.outputs)
    && (e.writes == 0 && e.run.effects != run.effects ==> Doubtful(e.stop) == Some(step.id))
  }

  /** Why a run stops at this write: the lock was found lost at one of the moments it was asked for
      here, or the control plane refused this very step. */
  ghost predicate CausedHere(env: Env, step: Step, run: Run, now: nat, stop: Stop) {
    match stop
    case LostAt(l) =>
      && l.stepId == step.id && l.capability == step.capability && env.leased
      && (env.aborted(now) || !env.owned(now + 1) || env.aborted(now + 2) || env.aborted(now + 4))
      && (l.outcomeUncertain <==> Unanswered(env, step, run, now))
    case FailedAt(f) => f.stepId == step.id && Granted(env, now) && WriteAt(env, step, run, now) == Refused(f)
  }

  /** The write was dispatched and came back without a definite answer. */
  predicate Unanswered(env: Env, step: Step, run: Run, now: nat) {
    Granted(env, now) && WriteAt(env, step, run, now).Refused? && WriteAt(env, step, run, now).failure.terminal
  }

  lemma WriteIsGuarded(env: Env, step: Step, run: Run, now: nat)
    requires step.capability in env.mutating
    ensures Guarded(env, step, run, now, WriteEnd(env, step, run, now))
  {
    var effect := EffectOf(env, step, run.outputs, env.replies(now + 3));
    if effect == [] { assert run.effects + effect == run.effects; }
  }

  /** A write stops the run exactly when it has a cause. */
  lemma WriteCause(env: Env, step: Step, run: Run, now: nat)
    ensures var stop := WriteEnd(env, step, run, now).stop;
      && (stop.Some? ==> CausedHere(env, step, run, now, stop.value))
      && (stop.None? ==> forall other :: !CausedHere(env, step, run, now, other))
  {
  }

  /** Applies one mutating step: a fresh ownership check first, and nothing is dispatched once the
      lease is known to be gone. */
  method WriteStep(env: Env, step: Step, start: Run, now: nat) returns (run: Run, stop: Option<Stop>, applied: bool)
    requires step.capability in env.mutating
    ensures End(run, stop, if applied then 1 else 0) == WriteEnd(env, step, start, now)
    ensures Guarded(env, step, start, now, End(run, stop, if applied then 1 else 0))
    ensures stop.Some? ==> CausedHere(env, step, start, now, stop.value)
  {
    WriteIsGuarded(env, step, start, now);
    WriteCause(env, step, start, now);
    var lost := Some(LostAt(LeaseLoss(step.id, step.capability, false)));
    if env.leased && (env.aborted(now) || !env.owned(now + 1) || env.aborted(now + 2)) {
      return start, lost, false;
    }
    var reply := env.replies(now + 3);
    var settled := ApplyStep(env, step, start.outputs, reply);
    run := start.(effects := start.effects + EffectOf(env, step, start.outputs, reply));
    match settled {
      case Refused(f) =>
        applied := false;
        if env.leased && env.aborted(now + 4) {
          stop := Some(LostAt(LeaseLoss(step.id, step.capability, f.terminal)));
        } else {
          stop := Some(FailedAt(f));
        }
      case Done(result) =>
        run := run.(applied := run.applied + [result], outputs := Register(run.outputs, result));
        applied := true;
        stop := if env.leased && env.aborted(now + 4) then lost else None;
    }
  }

  ghost predicate OneTally(env: Env, prior: Outputs, before: seq<Step>, step: Step, e: End) {
    || (e.writes == 1 && Accounted(env, prior, before + [step], e.run))
    || (e.writes == 0 && e.stop.Some? && AccountedAtStop(env, prior, before, e.run, e.stop, Some(step)))
  }

  /** A write that is applied extends the account; one that is not leaves nothing or is in doubt. */
  lemma WriteAccounted(env: Env, prior: Outputs, before: seq<Step>, step: Step, run: Run, now: nat)
    requires Accounted(env, prior, before, run)
    ensures OneTally(env, prior, before, step, WriteEnd(env, step, run, now))
  {
    if Granted(env, now) && WriteAt(env, step, run, now).Done? {
      Extend(env, prior, before, run, step, WriteAt(env, step, run, now).result);
    } else {
      var effect := EffectOf(env, step, run.outputs, env.replies(now + 3));
      if effect == [] {
        assert run.effects + effect == run.effects;
      } else {
        assert (run.effects + effect)[..|run.effects|] == run.effects;
      }
    }
  }

  /** Moments the executor may question the environment per write. */
  const ASKS := 5

  ghost function NextOf(writes: seq<Step>, n: nat): Option<Step> {
    if n < |writes| then Some(writes[n]) else None
  }

  /** The end of the first k writes: they are tried in order up to the first that stops the run. */
  ghost function WritesEnd(env: Env, writes: seq<Step>, start: Run, now: nat, k: nat): End
    requires k <= |writes|
  {
    if k == 0 then End(start, None, 0)
    else
      var before := WritesEnd(env, writes, start, now, k - 1);
      if before.stop.Some? then before
      else Onto(before.writes, WriteEnd(env, writes[k - 1], before.run, now + ASKS * (k - 1)))
  }

  function Onto(n: nat, e: End): End { e.(writes := n + e.writes) }

  lemma {:induction false} StopStays(env: Env, writes: seq<Step>, start: Run, now: nat, k: nat, m: nat)
    requires k <= m <= |writes| && WritesEnd(env, writes, start, now, k).stop.Some?
    ensures WritesEnd(env, writes, start, now, m) == WritesEnd(env, writes, start, now, k)
  {
    if k < m { StopStays(env, writes, start, now, k, m - 1); }
  }

  lemma WritesNext(env: Env, writes: seq<Step>, start: Run, now: nat, k: nat, e: End)
    requires k < |writes| && e == WritesEnd(env, writes, start, now, k) && e.stop.None?
    ensures WritesEnd(env, writes, start, now, k + 1)
      == Onto(e.writes, WriteEnd(env, writes[k], e.run, now + ASKS * k))
  {
  }

  /** The mutating steps of one wave apply one at a time, in plan order. */
  method RunWrites(env: Env, writes: seq<Step>, start: Run, now: nat) returns (run: Run, stop: Option<Stop>, n: nat)
    requires forall i | 0 <= i < |writes| :: writes[i].capability in env.mutating
    ensures End(run, stop, n) == WritesEnd(env, writes, start, now, |writes|)
  {
    run, stop, n := start, None, 0;
    for k := 0 to |writes|
      invariant stop == None && End(run, stop, n) == WritesEnd(env, writes, start, now, k)
    {
      WritesNext(env, writes, start, now, k, End(run, stop, n));
      var applied: bool;
      run, stop, applied := WriteStep(env, writes[k], run, now + ASKS * k);
      if applied { n := n + 1; }
      if stop.Some? {
        StopStays(env, writes, start, now, k + 1, |writes|);
        return;
      }
    }
  }

  lemma OneMore(before: seq<Step>, writes: seq<Step>, n: nat)
    requires n < |writes|
    ensures before + writes[..n + 1] == before + writes[..n] + [writes[n]]
  {
  }

  /** What the writes of a wave leave, however they end. */
  ghost predicate WritesTally(env: Env, prior: Outputs, before: seq<Step>, writes: seq<Step>, k: nat, e: End) {
    && e.writes <= k <= |writes|
    && (e.stop.None? ==> e.writes == k && Accounted(env, prior, before + writes[..k], e.run))
    && AccountedAtStop(env, prior, before + writes[..e.writes], e.run, e.stop, NextOf(writes, e.writes))
  }

  lemma WriteTally(env: Env, prior: Outputs, before: seq<Step>, writes: seq<Step>, k: nat, e: End)
    requires k < |writes| && OneTally(env, prior, before + writes[..k], writes[k], e)
    ensures WritesTally(env, prior, before, writes, k + 1, Onto(k, e))
  {
    OneMore(before, writes, k);
  }

  lemma {:induction false} WritesAccounted(env: Env, prior: Outputs, before: seq<Step>, writes: seq<Step>, start: Run,
                                           now: nat, k: nat)
    requires Accounted(env, prior, before, start) && k <= |writes|
    ensures WritesTally(env, prior, before, writes, k, WritesEnd(env, writes, start, now, k))
  {
    if k == 0 {
      NothingTried(env, prior, before, writes, start);
    } else {
      WritesAccounted(env, prior, before, writes, start, now, k - 1);
      TallyNext(env, prior, before, writes, k - 1, WritesEnd(env, writes, start, now, k - 1), now + ASKS * (k - 1),
                WritesEnd(env, writes, start, now, k));
    }
  }

  lemma NothingTried(env: Env, prior: Outputs, before: seq<Step>, writes: seq<Step>, start: Run)
    requires Accounted(env, prior, before, start)
    ensures WritesTally(env, prior, before, writes, 0, End(start, None, 0))
  {
    assert before + writes[..0] == before;
  }

  lemma TallyNext(env: Env, prior: Outputs, before: seq<Step>, writes: seq<Step>, k: nat, e: End, now: nat, e': End)
    requires k < |writes| && WritesTally(env, prior, before, writes, k, e)
    requires e' == if e.stop.Some? then e else Onto(e.writes, WriteEnd(env, writes[k], e.run, now))
    ensures WritesTally(env, prior, before, writes, k + 1, e')
  {
    if e.stop.None? {
      NextTally(env, prior, before, writes, k, e, now);
    } else {
      TallyStays(env, prior, before, writes, k, e);
    }
  }

  lemma NextTally(env: Env, prior: Outputs, before: seq<Step>, writes: seq<Step>, k: nat, e: End, now: nat)
    requires k < |writes| && e.stop.None? && WritesTally(env, prior, before, writes, k, e)
    ensures WritesTally(env, prior, before, writes, k + 1, Onto(e.writes, WriteEnd(env, writes[k], e.run, now)))
  {
    WriteAccounted(env, prior, before + writes[..k], writes[k], e.run, now);
    WriteTally(env, prior, before, writes, k, WriteEnd(env, writes[k], e.run, now));
  }

  lemma TallyStays(env: Env, prior: Outputs, before: seq<Step>, writes: seq<Step>, k: nat, e: End)
    requires k < |writes| && e.stop.Some? && WritesTally(env, prior, before, writes, k, e)
    ensures WritesTally(env, prior, before, writes, k + 1, e)
  {
  }

  // ---- Waves ----

  function Select(env: Env, wave: seq<Step>, mutating: bool): seq<Step> {
    if wave == [] then []
    else if (wave[0].capability in env.mutating) == mutating then [wave[0]] + Select(env, wave[1..], mutating)
    else Select(env, wave[1..], mutating)
  }

  lemma {:induction false} SelectMembers(env: Env, wave: seq<Step>, mutating: bool)
    ensures forall s :: s in Select(env, wave, mutating) <==> s in wave && (s.capability in env.mutating) == mutating
  {
    if wave != [] {
      SelectMembers(env, wave[1..], mutating);
      assert wave == [wave[0]] + wave[1..];
    }
  }

  function Reads(env: Env, wave: seq<Step>): seq<Step> { Select(env, wave, false) }
  function Writes(env: Env, wave: seq<Step>): seq<Step> { Select(env, wave, true) }

  /** The order in which a run applies its waves: reads before writes, each in plan order. */
  function Arranged(env: Env, waves: seq<seq<Step>>): seq<Step> {
    if waves == [] then []
    else
      var last := waves[|waves| - 1];
      Arranged(env, waves[..|waves| - 1]) + Reads(env, last) + Writes(env, last)
  }

  /** How far a run got: all waves before `wave`, then the reads of that wave that succeeded, then
      a prefix of its writes, which is empty unless every read succeeded. */
  datatype Mark = Mark(wave: nat, ok: seq<bool>, writes: nat)

  ghost predicate Reached(env: Env, waves: seq<seq<Step>>, mark: Mark, done: seq<Step>) {
    && mark.wave < |waves|
    && var queries, writes := Reads(env, waves[mark.wave]), Writes(env, waves[mark.wave]);
      && |mark.ok| == |queries| && mark.writes <= |writes|
      && (mark.writes > 0 ==> Kept(queries, mark.ok) == queries)
      && done == Arranged(env, waves[..mark.wave]) + Kept(queries, mark.ok) + writes[..mark.writes]
  }

  ghost function NextWrite(env: Env, waves: seq<seq<Step>>, mark: Mark): Option<Step> {
    if mark.wave < |waves| then NextOf(Writes(env, waves[mark.wave]), mark.writes) else None
  }

  lemma {:induction false} KeptNone(steps: seq<Step>, ok: seq<bool>)
    requires |ok| == |steps| && forall i | 0 <= i < |ok| :: !ok[i]
    ensures Kept(steps, ok) == []
  {
    if steps != [] { KeptNone(steps[..|steps| - 1], ok[..|ok| - 1]); }
  }

  lemma ArrangedStep(env: Env, waves: seq<seq<Step>>, k: nat)
    requires k < |waves|
    ensures Arranged(env, waves[..k + 1]) == Arranged(env, waves[..k]) + Reads(env, waves[k]) + Writes(env, waves[k])
  {
    assert waves[..k + 1][..k] == waves[..k];
  }

  /** Which reads of a wave were recorded: none if the lock is lost before they start. */
  ghost function WaveFlags(env: Env, wave: seq<Step>, start: Run, now: nat): (ok: seq<bool>)
    ensures |ok| == |Reads(env, wave)|
  {
    if env.leased && env.aborted(now) then seq(|Reads(env, wave)|, _ => false)
    else ReadFlags(env, Reads(env, wave), start.outputs, now, |Reads(env, wave)|)
  }

  ghost function WaveRead(env: Env, wave: seq<Step>, start: Run, now: nat): Run {
    AfterReads(env, Reads(env, wave), start, now, |Reads(env, wave)|)
  }

  ghost function WaveFailure(env: Env, wave: seq<Step>, start: Run, now: nat): Option<Failure> {
    ReadFailure(env, Reads(env, wave), start.outputs, now, |Reads(env, wave)|)
  }

  ghost function WaveWrites(env: Env, wave: seq<Step>, start: Run, now: nat): End {
    WritesEnd(env, Writes(env, wave), WaveRead(env, wave, start, now), now + 2 + |Reads(env, wave)|,
              |Writes(env, wave)|)
  }

  function FirstWrite(env: Env, wave: seq<Step>): Step
    requires wave != []
  {
    if Writes(env, wave) != [] then Writes(env, wave)[0] else wave[0]
  }

  /** How a wave ends, given what the environment answers. */
  ghost function WaveEnd(env: Env, wave: seq<Step>, start: Run, now: nat): End {
    if wave == [] then End(start, None, 0)
    else if env.leased && env.aborted(now) then End(start, Some(LostAt(Named(wave[0]))), 0)
    else if env.leased && env.aborted(now + 1) then
      End(WaveRead(env, wave, start, now), Some(LostAt(Named(FirstWrite(env, wave)))), 0)
    else
      match WaveFailure(env, wave, start, now)
      case Some(f) => End(WaveRead(env, wave, start, now), Some(FailedAt(f)), 0)
      case None => WaveWrites(env, wave, start, now)
  }

  /** One wave: its reads, then its writes. */
  method RunWave(env: Env, wave: seq<Step>, start: Run, now: nat) returns (run: Run, stop: Option<Stop>, n: nat)
    requires wave != []
    ensures End(run, stop, n) == WaveEnd(env, wave, start, now)
    ensures WaveSound(env, wave, start, now, End(run, stop, n))
  {
    run, stop, n := ReadThenWrite(env, wave, start, now);
    WaveIsSound(env, wave, start, now, End(run, stop, n));
  }

  /** Nothing is scheduled after a failure or a lost lease. */
  method ReadThenWrite(env: Env, wave: seq<Step>, start: Run, now: nat) returns (run: Run, stop: Option<Stop>, n: nat)
    requires wave != []
    ensures End(run, stop, n) == WaveEnd(env, wave, start, now)
  {
    n := 0;
    if env.leased && env.aborted(now) {
      return start, Some(LostAt(Named(wave[0]))), 0;
    }
    var queries, writes := Reads(env, wave), Writes(env, wave);
    SelectMembers(env, wave, false);
    SelectMembers(env, wave, true);
    var failure: Option<Failure>;
    run, failure := RunReads(env, queries, start, now);
    if env.leased && env.aborted(now + 1) {
      return run, Some(LostAt(Named(FirstWrite(env, wave)))), 0;
    }
    if failure.Some? {
      return run, Some(FailedAt(failure.value)), 0;
    }
    run, stop, n := RunWrites(env, writes, run, now + 2 + |queries|);
  }

  /** What a wave owes to its caller: whatever was accounted for before it is accounted for after
      it, together with the steps it applied, and it stops for a cause. */
  ghost predicate WaveSound(env: Env, wave: seq<Step>, start: Run, now: nat, e: End)
    requires wave != []
  {
    && (forall prior, before | Accounted(env, prior, before, start) ::
      WaveTally(env, prior, before, wave, start, now, e))
    && (e.stop.Some? ==> Caused(env, wave, start, now, e.stop.value))
  }

  lemma WaveIsSound(env: Env, wave: seq<Step>, start: Run, now: nat, e: End)
    requires wave != [] && e == WaveEnd(env, wave, start, now)
    ensures WaveSound(env, wave, start, now, e)
  {
    forall prior, before | Accounted(env, prior, before, start)
      ensures WaveTally(env, prior, before, wave, start, now, e)
    {
      WaveAccounted(env, prior, before, wave, start, now);
    }
    if e.stop.Some? { StopsForCause(env, wave, start, now); }
  }

  /** The steps a wave adds: the reads that succeeded, then the first n writes. */
  ghost function WaveDone(env: Env, wave: seq<Step>, start: Run, now: nat, n: nat): seq<Step>
    requires n <= |Writes(env, wave)|
  {
    Kept(Reads(env, wave), WaveFlags(env, wave, start, now)) + Writes(env, wave)[..n]
  }

  lemma ReadPartAccounted(env: Env, prior: Outputs, before: seq<Step>, wave: seq<Step>, start: Run, now: nat)
    requires Accounted(env, prior, before, start) && !(env.leased && env.aborted(now))
    ensures Accounted(env, prior, before + Kept(Reads(env, wave), WaveFlags(env, wave, start, now)),
                      WaveRead(env, wave, start, now))
  {
    var queries := Reads(env, wave);
    SelectMembers(env, wave, false);
    ReadsAccounted(env, prior, before, queries, start, now, |queries|);
    ReadDoneIsKept(env, before, queries, start.outputs, now, |queries|);
    assert queries[..|queries|] == queries;
  }

  lemma AllReadsKept(env: Env, wave: seq<Step>, start: Run, now: nat)
    requires !(env.leased && env.aborted(now)) && WaveFailure(env, wave, start, now).None?
    ensures Kept(Reads(env, wave), WaveFlags(env, wave, start, now)) == Reads(env, wave)
  {
    ReadFailureIsFirst(env, Reads(env, wave), start.outputs, now, |Reads(env, wave)|);
    forall i: nat | i < |Reads(env, wave)| ensures WaveFlags(env, wave, start, now)[i] {
      FlagAt(env, Reads(env, wave), start.outputs, now, |Reads(env, wave)|, i);
    }
    KeptAll(Reads(env, wave), WaveFlags(env, wave, start, now));
  }

  lemma NoWrites(before: seq<Step>, kept: seq<Step>, writes: seq<Step>, n: nat)
    requires n <= |writes|
    ensures before + (kept + writes[..n]) == before + kept + writes[..n]
    ensures n == 0 ==> before + (kept + writes[..n]) == before + kept
    ensures n == |writes| ==> writes[..n] == writes
  {
  }

  /** What a wave leaves, however it ends. */
  ghost predicate WaveTally(env: Env, prior: Outputs, before: seq<Step>, wave: seq<Step>, start: Run, now: nat,
                            e: End) {
    && e.writes <= |Writes(env, wave)|
    && (e.writes > 0 || e.stop.None? ==> Kept(Reads(env, wave), WaveFlags(env, wave, start, now)) == Reads(env, wave))
    && AccountedAtStop(env, prior, before + WaveDone(env, wave, start, now, e.writes), e.run, e.stop,
                       NextOf(Writes(env, wave), e.writes))
    && (e.stop.None? ==>
      e.writes == |Writes(env, wave)|
        && Accounted(env, prior, before + WaveDone(env, wave, start, now, e.writes), e.run))
  }

  lemma LostTally(env: Env, prior: Outputs, before: seq<Step>, wave: seq<Step>, start: Run, now: nat, stop: Stop)
    requires Accounted(env, prior, before, start) && env.leased && env.aborted(now)
    ensures WaveTally(env, prior, before, wave, start, now, End(start, Some(stop), 0))
  {
    KeptNone(Reads(env, wave), WaveFlags(env, wave, start, now));
    assert before + WaveDone(env, wave, start, now, 0) == before;
  }

  lemma ReadTally(env: Env, prior: Outputs, before: seq<Step>, wave: seq<Step>, start: Run, now: nat, stop: Stop)
    requires Accounted(env, prior, before, start) && !(env.leased && env.aborted(now))
    ensures WaveTally(env, prior, before, wave, start, now, End(WaveRead(env, wave, start, now), Some(stop), 0))
  {
    ReadPartAccounted(env, prior, before, wave, start, now);
    NoWrites(before, Kept(Reads(env, wave), WaveFlags(env, wave, start, now)), Writes(env, wave), 0);
  }

  lemma JoinTally(env: Env, prior: Outputs, before: seq<Step>, wave: seq<Step>, start: Run, now: nat, e: End)
    requires Kept(Reads(env, wave), WaveFlags(env, wave, start, now)) == Reads(env, wave)
    requires WritesTally(env, prior, before + Reads(env, wave), Writes(env, wave), |Writes(env, wave)|, e)
    ensures WaveTally(env, prior, before, wave, start, now, e)
  {
    NoWrites(before, Reads(env, wave), Writes(env, wave), e.writes);
  }

  /** Whatever ends a wave, what it did is accounted for. */
  lemma WaveAccounted(env: Env, prior: Outputs, before: seq<Step>, wave: seq<Step>, start: Run, now: nat)
    requires Accounted(env, prior, before, start) && wave != []
    ensures WaveTally(env, prior, before, wave, start, now, WaveEnd(env, wave, start, now))
  {
    var e := WaveEnd(env, wave, start, now);
    if env.leased && env.aborted(now) {
      LostTally(env, prior, before, wave, start, now, e.stop.value);
    } else if (env.leased && env.aborted(now + 1)) || WaveFailure(env, wave, start, now).Some? {
      ReadTally(env, prior, before, wave, start, now, e.stop.value);
    } else {
      WriteWaveTally(env, prior, before, wave, start, now);
    }
  }

  lemma WriteWaveTally(env: Env, prior: Outputs, before: seq<Step>, wave: seq<Step>, start: Run, now: nat)
    requires Accounted(env, prior, before, start) && !(env.leased && env.aborted(now))
    requires WaveFailure(env, wave, start, now).None?
    ensures WaveTally(env, prior, before, wave, start, now, WaveWrites(env, wave, start, now))
  {
    ReadPartAccounted(env, prior, before, wave, start, now);
    AllReadsKept(env, wave, start, now);
    WritesAccounted(env, prior, before + Reads(env, wave), Writes(env, wave), WaveRead(env, wave, start, now),
                    now + 2 + |Reads(env, wave)|, |Writes(env, wave)|);
    JoinTally(env, prior, before, wave, start, now, WaveWrites(env, wave, start, now));
  }

  // ---- The whole run ----

  /** A series of writes came to write k, with the run the writes before it left, and was stopped
      there. */
  ghost predicate StoppedAtWrite(env: Env, writes: seq<Step>, start: Run, now: nat, k: nat, stop: Stop)
    requires k < |writes|
  {
    var before := WritesEnd(env, writes, start, now, k);
    before.stop.None? && CausedHere(env, writes[k], before.run, now + ASKS * k, stop)
  }

  ghost predicate CausedByRead(env: Env, wave: seq<Step>, start: Run, now: nat, k: nat, f: Failure)
    requires k < |Reads(env, wave)|
  {
    f.stepId == Reads(env, wave)[k].id && FailsFirst(env, Reads(env, wave), start.outputs, now, k, f)
  }

  ghost predicate CausedByWrite(env: Env, wave: seq<Step>, start: Run, now: nat, k: nat, stop: Stop)
    requires k < |Writes(env, wave)|
  {
    StoppedAtWrite(env, Writes(env, wave), WaveRead(env, wave, start, now), now + 2 + |Reads(env, wave)|, k, stop)
  }

  /** A wave that stops was given a cause: the lock was found lost before or after its reads, its
      first refused read was refused on the outputs the wave started with, or a write it came to
      was stopped there. */
  ghost predicate Caused(env: Env, wave: seq<Step>, start: Run, now: nat, stop: Stop)
    requires wave != []
  {
    || (env.leased && env.aborted(now) && stop == LostAt(Named(wave[0])))
    || (env.leased && env.aborted(now + 1) && stop == LostAt(Named(FirstWrite(env, wave))))
    || (stop.FailedAt? && exists k: nat ::
      k < |Reads(env, wave)| && CausedByRead(env, wave, start, now, k, stop.failure))
    || exists k: nat :: k < |Writes(env, wave)| && CausedByWrite(env, wave, start, now, k, stop)
  }

  lemma ReadsCause(env: Env, wave: seq<Step>, start: Run, now: nat)
    requires wave != [] && WaveFailure(env, wave, start, now).Some?
    ensures Caused(env, wave, start, now, FailedAt(WaveFailure(env, wave, start, now).value))
  {
    var queries, f := Reads(env, wave), WaveFailure(env, wave, start, now).value;
    ReadFailureIsFirst(env, queries, start.outputs, now, |queries|);
    var k: nat :| k < |queries| && FailsFirst(env, queries, start.outputs, now, k, f);
    assert CausedByRead(env, wave, start, now, k, f);
  }

  /** The write a series stops at. */
  lemma {:induction false} StoppingWrite(env: Env, writes: seq<Step>, start: Run, now: nat, k: nat) returns (i: nat)
    requires k <= |writes| && WritesEnd(env, writes, start, now, k).stop.Some?
    ensures i < k && WritesEnd(env, writes, start, now, i).stop.None?
    ensures WritesEnd(env, writes, start, now, i + 1) == WritesEnd(env, writes, start, now, k)
  {
    i := k - 1;
    if WritesEnd(env, writes, start, now, i).stop.Some? {
      StopStays(env, writes, start, now, i, k);
      i := StoppingWrite(env, writes, start, now, i);
    }
  }

  lemma WritesCause(env: Env, writes: seq<Step>, start: Run, now: nat, k: nat) returns (i: nat)
    requires k <= |writes| && WritesEnd(env, writes, start, now, k).stop.Some?
    ensures i < k && StoppedAtWrite(env, writes, start, now, i, WritesEnd(env, writes, start, now, k).stop.value)
  {
    i := StoppingWrite(env, writes, start, now, k);
    var before, after := WritesEnd(env, writes, start, now, i), WritesEnd(env, writes, start, now, k);
    WritesNext(env, writes, start, now, i, before);
    StepCause(env, writes[i], before.run, now + ASKS * i, before.writes, after);
  }

  lemma StepCause(env: Env, step: Step, run: Run, now: nat, n: nat, e: End)
    requires e == Onto(n, WriteEnd(env, step, run, now)) && e.stop.Some?
    ensures CausedHere(env, step, run, now, e.stop.value)
  {
    WriteCause(env, step, run, now);
  }

  lemma WaveWritesCause(env: Env, wave: seq<Step>, start: Run, now: nat)
    requires wave != [] && WaveWrites(env, wave, start, now).stop.Some?
    ensures Caused(env, wave, start, now, WaveWrites(env, wave, start, now).stop.value)
  {
    var writes, from := Writes(env, wave), now + 2 + |Reads(env, wave)|;
    var k := WritesCause(env, writes, WaveRead(env, wave, start, now), from, |writes|);
    assert CausedByWrite(env, wave, start, now, k, WaveWrites(env, wave, start, now).stop.value);
  }

  /** Nothing stops without a cause: with the lock kept and every step accepted a plan runs to its end. */
  lemma StopsForCause(env: Env, wave: seq<Step>, start: Run, now: nat)
    requires wave != [] && WaveEnd(env, wave, start, now).stop.Some?
    ensures Caused(env, wave, start, now, WaveEnd(env, wave, start, now).stop.value)
  {
    if env.leased && (env.aborted(now) || env.aborted(now + 1)) {
    } else if WaveFailure(env, wave, start, now).Some? {
      ReadsCause(env, wave, start, now);
    } else {
      WaveWritesCause(env, wave, start, now);
    }
  }

  lemma ReadCauseStops(env: Env, wave: seq<Step>, start: Run, now: nat, k: nat, f: Failure)
    requires k < |Reads(env, wave)| && CausedByRead(env, wave, start, now, k, f)
    ensures WaveFailure(env, wave, start, now).Some?
  {
    ReadFailureIsFirst(env, Reads(env, wave), start.outputs, now, |Reads(env, wave)|);
  }

  lemma WriteCauseStops(env: Env, writes: seq<Step>, start: Run, now: nat, k: nat, stop: Stop)
    requires k < |writes| && StoppedAtWrite(env, writes, start, now, k, stop)
    ensures WritesEnd(env, writes, start, now, |writes|).stop.Some?
  {
    var before := WritesEnd(env, writes, start, now, k);
    WriteCause(env, writes[k], before.run, now + ASKS * k);
    WritesNext(env, writes, start, now, k, before);
    StopStays(env, writes, start, now, k + 1, |writes|);
  }

  lemma WaveWriteStops(env: Env, wave: seq<Step>, start: Run, now: nat, k: nat, stop: Stop)
    requires k < |Writes(env, wave)| && CausedByWrite(env, wave, start, now, k, stop)
    ensures WaveWrites(env, wave, start, now).stop.Some?
  {
    WriteCauseStops(env, Writes(env, wave), WaveRead(env, wave, start, now), now + 2 + |Reads(env, wave)|, k, stop);
  }

  lemma CauseStopsWrites(env: Env, wave: seq<Step>, start: Run, now: nat, stop: Stop)
    requires wave != [] && Caused(env, wave, start, now, stop)
    requires !(env.leased && (env.aborted(now) || env.aborted(now + 1))) && WaveFailure(env, wave, start, now).None?
    ensures WaveWrites(env, wave, start, now).stop.Some?
  {
    if k: nat :| k < |Writes(env, wave)| && CausedByWrite(env, wave, start, now, k, stop) {
      WaveWriteStops(env, wave, start, now, k, stop);
    } else {
      var k: nat :| k < |Reads(env, wave)| && CausedByRead(env, wave, start, now, k, stop.failure);
      ReadCauseStops(env, wave, start, now, k, stop.failure);
    }
  }

  /** And every cause stops it: nothing is scheduled past a lost lock or a refusal. */
  lemma CauseStops(env: Env, wave: seq<Step>, start: Run, now: nat, stop: Stop)
    requires wave != [] && Caused(env, wave, start, now, stop)
    ensures WaveEnd(env, wave, start, now).stop.Some?
  {
    if !(env.leased && (env.aborted(now) || env.aborted(now + 1))) && WaveFailure(env, wave, start, now).None? {
      CauseStopsWrites(env, wave, start, now, stop);
    }
  }

  function Moments(wave: seq<Step>): nat { 2 + |wave| + ASKS * |wave| }

  /** When a wave starts, and the run it starts with once the waves before it have gone through. */
  function StartsAt(waves: seq<seq<Step>>, k: nat): nat
    requires k <= |waves|
  {
    if k == 0 then 0 else StartsAt(waves, k - 1) + Moments(waves[k - 1])
  }

  ghost predicate NonEmpty(waves: seq<seq<Step>>) {
    forall k | 0 <= k < |waves| :: waves[k] != []
  }

  ghost function RunBefore(env: Env, waves: seq<seq<Step>>, prior: Outputs, k: nat): Run
    requires k <= |waves|
    decreases k, 0
  {
    if k == 0 then Run([], prior, []) else EndOf(env, waves, prior, k - 1).run
  }

  ghost function EndOf(env: Env, waves: seq<seq<Step>>, prior: Outputs, k: nat): End
    requires k < |waves|
    decreases k, 1
  {
    WaveEnd(env, waves[k], RunBefore(env, waves, prior, k), StartsAt(waves, k))
  }

  /** The waves before the mark went through, and the run ended in the marked wave as that wave ends. */
  ghost predicate EndedIn(env: Env, waves: seq<seq<Step>>, prior: Outputs, mark: Mark, stop: Option<Stop>, run: Run) {
    && mark.wave < |waves|
    && WentThrough(env, waves, prior, mark.wave)
    && EndOf(env, waves, prior, mark.wave) == End(run, stop, mark.writes)
    && mark.ok == WaveFlags(env, waves[mark.wave], RunBefore(env, waves, prior, mark.wave), StartsAt(waves, mark.wave))
  }

  ghost predicate WentThrough(env: Env, waves: seq<seq<Step>>, prior: Outputs, n: nat)
    requires n <= |waves|
  {
    n == 0 || (WentThrough(env, waves, prior, n - 1) && EndOf(env, waves, prior, n - 1).stop.None?)
  }

  lemma RunNext(env: Env, waves: seq<seq<Step>>, prior: Outputs, k: nat)
    requires k < |waves| && NonEmpty(waves)
    ensures RunBefore(env, waves, prior, k + 1) == EndOf(env, waves, prior, k).run
    ensures EndOf(env, waves, prior, k) == WaveEnd(env, waves[k], RunBefore(env, waves, prior, k), StartsAt(waves, k))
    ensures StartsAt(waves, k + 1) == StartsAt(waves, k) + Moments(waves[k])
  {
  }

  ghost function MarkOf(env: Env, waves: seq<seq<Step>>, prior: Outputs, k: nat): Mark
    requires k < |waves| && NonEmpty(waves)
  {
    Mark(k, WaveFlags(env, waves[k], RunBefore(env, waves, prior, k), StartsAt(waves, k)),
         EndOf(env, waves, prior, k).writes)
  }

  /** The steps applied when wave k has ended. */
  ghost function DoneIn(env: Env, waves: seq<seq<Step>>, prior: Outputs, k: nat): seq<Step>
    requires k < |waves| && NonEmpty(waves) && EndOf(env, waves, prior, k).writes <= |Writes(env, waves[k])|
  {
    Arranged(env, waves[..k])
      + WaveDone(env, waves[k], RunBefore(env, waves, prior, k), StartsAt(waves, k), EndOf(env, waves, prior, k).writes)
  }

  /** When each of the first k waves starts, and when the last of them has ended, what the run did
      is accounted for by the waves before. */
  ghost predicate AccountedBefore(env: Env, waves: seq<seq<Step>>, prior: Outputs, k: nat)
    requires k <= |waves|
  {
    && (k > 0 ==> AccountedBefore(env, waves, prior, k - 1))
    && Accounted(env, prior, Arranged(env, waves[..k]), RunBefore(env, waves, prior, k))
  }

  /** From one wave to the next the account goes on. */
  lemma WaveThrough(env: Env, waves: seq<seq<Step>>, prior: Outputs, k: nat)
    requires 0 < k <= |waves| && NonEmpty(waves) && WentThrough(env, waves, prior, k)
    requires AccountedBefore(env, waves, prior, k - 1)
    ensures AccountedBefore(env, waves, prior, k)
  {
    RunNext(env, waves, prior, k - 1);
    var arranged, wave := Arranged(env, waves[..k - 1]), waves[k - 1];
    WaveAccounted(env, prior, arranged, wave, RunBefore(env, waves, prior, k - 1), StartsAt(waves, k - 1));
    NoWrites(arranged, Reads(env, wave), Writes(env, wave), |Writes(env, wave)|);
    ArrangedStep(env, waves, k - 1);
  }

  /** A run that stops has reached its mark, and what it did is accounted for. */
  lemma WaveStopped(env: Env, waves: seq<seq<Step>>, prior: Outputs, k: nat)
    requires k < |waves| && NonEmpty(waves)
    requires Accounted(env, prior, Arranged(env, waves[..k]), RunBefore(env, waves, prior, k))
    ensures var e := EndOf(env, waves, prior, k);
      && e.writes <= |Writes(env, waves[k])|
      && Reached(env, waves, MarkOf(env, waves, prior, k), DoneIn(env, waves, prior, k))
      && AccountedAtStop(env, prior, DoneIn(env, waves, prior, k), e.run, e.stop,
                         NextOf(Writes(env, waves[k]), e.writes))
  {
    var start, now, arranged, wave :=
      RunBefore(env, waves, prior, k), StartsAt(waves, k), Arranged(env, waves[..k]), waves[k];
    WaveAccounted(env, prior, arranged, wave, start, now);
    NoWrites(arranged, Kept(Reads(env, wave), WaveFlags(env, wave, start, now)), Writes(env, wave),
             EndOf(env, waves, prior, k).writes);
  }

  /** The first k waves went through. */
  ghost predicate Underway(env: Env, waves: seq<seq<Step>>, prior: Outputs, k: nat, run: Run, now: nat) {
    && k <= |waves| && NonEmpty(waves) && WentThrough(env, waves, prior, k)
    && run == RunBefore(env, waves, prior, k) && now == StartsAt(waves, k)
  }

  method RunNextWave(env: Env, waves: seq<seq<Step>>, ghost prior: Outputs, k: nat, start: Run, now: nat)
      returns (run: Run, stop: Option<Stop>, n: nat)
    requires k < |waves| && Underway(env, waves, prior, k, start, now)
    ensures stop.Some? ==> RunEnds(env, waves, prior, run, stop, k, n)
    ensures stop.None? ==> Underway(env, waves, prior, k + 1, run, now + Moments(waves[k]))
  {
    run, stop, n := RunWave(env, waves[k], start, now);
    ghost var e := End(run, stop, n);
    assert e == EndOf(env, waves, prior, k);
    if stop.None? { WentOn(env, waves, prior, k, e); }
  }

  lemma WentOn(env: Env, waves: seq<seq<Step>>, prior: Outputs, k: nat, e: End)
    requires k < |waves| && WentThrough(env, waves, prior, k) && e == EndOf(env, waves, prior, k) && e.stop.None?
    ensures WentThrough(env, waves, prior, k + 1) && RunBefore(env, waves, prior, k + 1) == e.run
    ensures StartsAt(waves, k + 1) == StartsAt(waves, k) + Moments(waves[k])
  {
  }

  /** The loop over the waves: it goes on while waves go through, and stops with the first that does not. */
  method RunWaves(env: Env, waves: seq<seq<Step>>, prior: Outputs)
      returns (run: Run, stop: Option<Stop>, k: nat, n: nat)
    requires NonEmpty(waves)
    ensures RunEnds(env, waves, prior, run, stop, k, n)
  {
    run, stop, k, n := Run([], prior, []), None, 0, 0;
    var now: nat := 0;
    while k < |waves|
      invariant stop == None && Underway(env, waves, prior, k, run, now)
    {
      run, stop, n := RunNextWave(env, waves, prior, k, run, now);
      if stop.Some? { return; }
      now := now + Moments(waves[k]);
      k := k + 1;
    }
  }

  /** Every wave went through, or wave k is the first that did not. */
  ghost predicate RunEnds(env: Env, waves: seq<seq<Step>>, prior: Outputs, run: Run, stop: Option<Stop>, k: nat, n: nat)
    requires NonEmpty(waves)
  {
    if stop.None? then WentThrough(env, waves, prior, |waves|) && run == RunBefore(env, waves, prior, |waves|)
    else k < |waves| && WentThrough(env, waves, prior, k) && EndOf(env, waves, prior, k) == End(run, stop, n)
  }

  lemma {:induction false} ThroughAccounted(env: Env, waves: seq<seq<Step>>, prior: Outputs, k: nat)
    requires k <= |waves| && NonEmpty(waves) && WentThrough(env, waves, prior, k)
    ensures AccountedBefore(env, waves, prior, k)
  {
    if k == 0 {
      NothingAccounted(env, waves, prior);
    } else {
      ThroughAccounted(env, waves, prior, k - 1);
      WaveThrough(env, waves, prior, k);
    }
  }

  lemma NothingAccounted(env: Env, waves: seq<seq<Step>>, prior: Outputs)
    requires NonEmpty(waves)
    ensures AccountedBefore(env, waves, prior, 0)
  {
  }

  /** The account of a whole run: what it applied and, if it stopped, where. */
  ghost predicate Finished(env: Env, waves: seq<seq<Step>>, prior: Outputs, run: Run, done: seq<Step>) {
    && NonEmpty(waves) && WentThrough(env, waves, prior, |waves|) && run == RunBefore(env, waves, prior, |waves|)
    && done == Arranged(env, waves) && Accounted(env, prior, done, run)
  }

  ghost predicate Stopped(env: Env, waves: seq<seq<Step>>, prior: Outputs, run: Run, stop: Stop, done: seq<Step>,
                          mark: Mark) {
    && Reached(env, waves, mark, done) && EndedIn(env, waves, prior, mark, Some(stop), run)
    && waves[mark.wave] != []
    && Caused(env, waves[mark.wave], RunBefore(env, waves, prior, mark.wave), StartsAt(waves, mark.wave), stop)
    && AccountedAtStop(env, prior, done, run, Some(stop), NextWrite(env, waves, mark))
  }

  lemma FinishedAccounted(env: Env, waves: seq<seq<Step>>, prior: Outputs)
    requires NonEmpty(waves) && WentThrough(env, waves, prior, |waves|)
    ensures Finished(env, waves, prior, RunBefore(env, waves, prior, |waves|), Arranged(env, waves))
  {
    ThroughAccounted(env, waves, prior, |waves|);
    assert waves[..|waves|] == waves;
  }

  lemma StoppedAccounted(env: Env, waves: seq<seq<Step>>, prior: Outputs, k: nat)
    requires NonEmpty(waves) && k < |waves| && WentThrough(env, waves, prior, k)
    requires EndOf(env, waves, prior, k).stop.Some?
    ensures var e := EndOf(env, waves, prior, k);
      && e.writes <= |Writes(env, waves[k])|
      && Stopped(env, waves, prior, e.run, e.stop.value, DoneIn(env, waves, prior, k), MarkOf(env, waves, prior, k))
  {
    ThroughAccounted(env, waves, prior, k);
    WaveStopped(env, waves, prior, k);
    StopsForCause(env, waves[k], RunBefore(env, waves, prior, k), StartsAt(waves, k));
  }

  /** Applies a plan. Whatever the client answers and whenever the lease is lost, the remote effects
      are those of the applied steps, plus at most one doubtful step that the result names; the
      applied steps are an initial part of the waves, and a stop has a cause. */
  method Execute(env: Env, steps: seq<Step>, prior: Outputs)
      returns (run: Run, stop: Option<Stop>, ghost waves: Option<seq<seq<Step>>>, ghost level: map<string, nat>,
               ghost done: seq<Step>, ghost mark: Mark)
    ensures UniqueIds(steps) ==> (waves.None? <==> Cyclic(GraphOf(steps)))
    ensures UniqueIds(steps) && waves.Some? ==> GroupsByLevel(steps, waves.value, level)
    ensures waves.None? ==>
      steps != [] && done == [] && run == Run([], prior, [])
      && stop == Some(FailedAt(Failure(steps[0].id, steps[0].capability, NoOrder, false)))
    ensures UniqueIds(steps) && Cyclic(GraphOf(steps)) ==> run == Run([], prior, []) && stop.Some?
    ensures waves.Some? && stop.None? ==> Finished(env, waves.value, prior, run, done)
    ensures waves.Some? && stop.Some? ==> Stopped(env, waves.value, prior, run, stop.value, done, mark)
  {
    var scheduled: Option<seq<seq<Step>>>;
    scheduled, level := GroupIntoWaves(steps);
    waves, done, mark := scheduled, [], Mark(0, [], 0);
    if scheduled.None? {
      run, stop := Run([], prior, []), Some(FailedAt(Failure(steps[0].id, steps[0].capability, NoOrder, false)));
      return;
    }
    var k, n;
    run, stop, k, n := RunWaves(env, scheduled.value, prior);
    if stop.None? {
      FinishedAccounted(env, scheduled.value, prior);
      done := Arranged(env, scheduled.value);
    } else {
      StoppedAccounted(env, scheduled.value, prior, k);
      done, mark := DoneIn(env, scheduled.value, prior, k), MarkOf(env, scheduled.value, prior, k);
    }
  }
}
