/** What holds of applied plans across whole executions: order, and at-most-once effects over any
    number of resumed runs. */
module ResumedExecution {
  import opened DependencyGraph
  import opened DependencyWaves
  import opened GovernedExecutor
  import opened Prelude
  import opened StepReferences

  /** Every applied step comes after the in-list steps it depends on. */
  ghost predicate DependencyOrder(steps: seq<Step>, done: seq<Step>) {
    forall i, d | 0 <= i < |done| && d in done[i].dependsOn && d in Ids(steps) :: AppliedBefore(done, i, d)
  }

  ghost predicate AppliedBefore(done: seq<Step>, i: nat, d: string) {
    exists j :: 0 <= j < i && j < |done| && done[j].id == d
  }

  lemma OrderGrows(steps: seq<Step>, done: seq<Step>, more: seq<Step>)
    requires DependencyOrder(steps, done)
    requires forall s, d | s in more && d in s.dependsOn && d in Ids(steps) :: AppliedBefore(done, |done|, d)
    ensures DependencyOrder(steps, done + more)
  {
    var all := done + more;
    forall i, d | 0 <= i < |all| && d in all[i].dependsOn && d in Ids(steps) ensures AppliedBefore(all, i, d) {
      if i < |done| {
        assert AppliedBefore(done, i, d);
      } else {
        assert all[i] in more && AppliedBefore(done, |done|, d);
      }
      var j :| 0 <= j < i && j < |done| && done[j].id == d;
      assert all[j].id == d;
    }
  }

  lemma WaveMembers(env: Env, wave: seq<Step>, s: Step)
    ensures s in Reads(env, wave) + Writes(env, wave) <==> s in wave
  {
    SelectMembers(env, wave, false);
    SelectMembers(env, wave, true);
  }

  /** Every step of the first k waves has been arranged. */
  lemma {:induction false} ArrangedMembers(env: Env, waves: seq<seq<Step>>, k: nat, s: Step)
    requires k <= |waves|
    ensures s in Arranged(env, waves[..k]) <==> exists j :: 0 <= j < k && s in waves[j]
  {
    if k > 0 {
      ArrangedMembers(env, waves, k - 1, s);
      ArrangedStep(env, waves, k - 1);
      WaveMembers(env, waves[k - 1], s);
    }
  }

  lemma DependenciesArranged(env: Env, steps: seq<Step>, waves: seq<seq<Step>>, level: map<string, nat>, k: nat,
                             s: Step, d: string)
    requires UniqueIds(steps) && GroupsByLevel(steps, waves, level) && k < |waves| && s in waves[k]
    requires d in s.dependsOn && d in Ids(steps)
    ensures AppliedBefore(Arranged(env, waves[..k]), |Arranged(env, waves[..k])|, d)
  {
    var arranged := Arranged(env, waves[..k]);
    GraphOfSteps(steps);
    LevelMembers(steps, level, k);
    var t :| t in steps && t.id == d;
    assert Edge(GraphOf(steps), s.id, d);
    LevelMembers(steps, level, level[d]);
    assert t in waves[level[d]];
    ArrangedMembers(env, waves, k, t);
    var j :| 0 <= j < |arranged| && arranged[j] == t;
  }

  lemma {:induction false} ArrangedOrder(env: Env, steps: seq<Step>, waves: seq<seq<Step>>, level: map<string, nat>,
                                         k: nat)
    requires UniqueIds(steps) && GroupsByLevel(steps, waves, level) && k <= |waves|
    ensures DependencyOrder(steps, Arranged(env, waves[..k]))
  {
    if k > 0 {
      ArrangedOrder(env, steps, waves, level, k - 1);
      WaveOrder(env, steps, waves, level, k - 1);
    }
  }

  lemma WaveOrder(env: Env, steps: seq<Step>, waves: seq<seq<Step>>, level: map<string, nat>, k: nat)
    requires UniqueIds(steps) && GroupsByLevel(steps, waves, level) && k < |waves|
    requires DependencyOrder(steps, Arranged(env, waves[..k]))
    ensures DependencyOrder(steps, Arranged(env, waves[..k + 1]))
  {
    var arranged, wave := Arranged(env, waves[..k]), Reads(env, waves[k]) + Writes(env, waves[k]);
    forall s | s in wave ensures s in waves[k] { WaveMembers(env, waves[k], s); }
    PartOfWaveOrder(env, steps, waves, level, k, wave);
    ArrangedNext(env, waves, k);
  }

  lemma ArrangedNext(env: Env, waves: seq<seq<Step>>, k: nat)
    requires k < |waves|
    ensures Arranged(env, waves[..k + 1]) == Arranged(env, waves[..k]) + (Reads(env, waves[k]) + Writes(env, waves[k]))
  {
    ArrangedStep(env, waves, k);
  }

  lemma PartOfWaveOrder(env: Env, steps: seq<Step>, waves: seq<seq<Step>>, level: map<string, nat>, k: nat,
                        part: seq<Step>)
    requires UniqueIds(steps) && GroupsByLevel(steps, waves, level) && k < |waves|
    requires DependencyOrder(steps, Arranged(env, waves[..k])) && forall s | s in part :: s in waves[k]
    ensures DependencyOrder(steps, Arranged(env, waves[..k]) + part)
  {
    var arranged := Arranged(env, waves[..k]);
    forall s, d | s in part && d in s.dependsOn && d in Ids(steps) ensures AppliedBefore(arranged, |arranged|, d) {
      DependenciesArranged(env, steps, waves, level, k, s, d);
    }
    OrderGrows(steps, arranged, part);
  }

  lemma {:induction false} KeptMembers(steps: seq<Step>, ok: seq<bool>, s: Step)
    requires |ok| == |steps| && s in Kept(steps, ok)
    ensures s in steps
  {
    if steps != [] {
      var n := |steps| - 1;
      if s in Kept(steps[..n], ok[..n]) { KeptMembers(steps[..n], ok[..n], s); }
    }
  }

  ghost function PartOfWave(env: Env, wave: seq<Step>, ok: seq<bool>, n: nat): seq<Step>
    requires |ok| == |Reads(env, wave)| && n <= |Writes(env, wave)|
  {
    Kept(Reads(env, wave), ok) + Writes(env, wave)[..n]
  }

  lemma PartMembers(env: Env, wave: seq<Step>, ok: seq<bool>, n: nat)
    requires |ok| == |Reads(env, wave)| && n <= |Writes(env, wave)|
    ensures forall s | s in PartOfWave(env, wave, ok, n) :: s in wave
  {
    forall s | s in PartOfWave(env, wave, ok, n) ensures s in wave {
      WaveMembers(env, wave, s);
      if s in Kept(Reads(env, wave), ok) { KeptMembers(Reads(env, wave), ok, s); }
    }
  }

  lemma ReachedParts(env: Env, waves: seq<seq<Step>>, mark: Mark, done: seq<Step>)
    requires Reached(env, waves, mark, done)
    ensures done == Arranged(env, waves[..mark.wave]) + PartOfWave(env, waves[mark.wave], mark.ok, mark.writes)
  {
  }

  /** However a run ends, what it applied is closed under in-list dependencies, in order. */
  lemma AppliedIsDependencyClosed(env: Env, steps: seq<Step>, waves: seq<seq<Step>>, level: map<string, nat>,
                                  mark: Mark, done: seq<Step>)
    requires UniqueIds(steps) && GroupsByLevel(steps, waves, level)
    requires Reached(env, waves, mark, done) || done == Arranged(env, waves)
    ensures DependencyOrder(steps, done)
  {
    if done == Arranged(env, waves) {
      ArrangedOrder(env, steps, waves, level, |waves|);
      assert waves[..|waves|] == waves;
    } else {
      ReachedParts(env, waves, mark, done);
      ArrangedOrder(env, steps, waves, level, mark.wave);
      PartMembers(env, waves[mark.wave], mark.ok, mark.writes);
      PartOfWaveOrder(env, steps, waves, level, mark.wave, PartOfWave(env, waves[mark.wave], mark.ok, mark.writes));
    }
  }

  lemma {:induction false} SelectSplits(env: Env, wave: seq<Step>)
    ensures multiset(Reads(env, wave)) + multiset(Writes(env, wave)) == multiset(wave)
  {
    if wave != [] {
      SelectSplits(env, wave[1..]);
      assert wave == [wave[0]] + wave[1..];
    }
  }

  lemma {:induction false} ArrangedIsFlattened(env: Env, waves: seq<seq<Step>>)
    ensures multiset(Arranged(env, waves)) == multiset(Flatten(waves))
  {
    if waves != [] {
      ArrangedIsFlattened(env, waves[..|waves| - 1]);
      SelectSplits(env, waves[|waves| - 1]);
    }
  }

  lemma {:induction false} KeptIsPart(steps: seq<Step>, ok: seq<bool>)
    requires |ok| == |steps|
    ensures multiset(Kept(steps, ok)) <= multiset(steps)
  {
    if steps != [] {
      var n := |steps| - 1;
      KeptIsPart(steps[..n], ok[..n]);
      assert steps == steps[..n] + [steps[n]];
    }
  }

  lemma {:induction false} ArrangedPrefix(env: Env, waves: seq<seq<Step>>, k: nat)
    requires k <= |waves|
    ensures multiset(Arranged(env, waves[..k])) <= multiset(Arranged(env, waves))
    decreases |waves| - k
  {
    if k == |waves| {
      assert waves[..k] == waves;
    } else {
      ArrangedPrefix(env, waves, k + 1);
      ArrangedStep(env, waves, k);
    }
  }

  lemma PrefixIsPart(s: seq<Step>, n: nat)
    requires n <= |s|
    ensures multiset(s[..n]) <= multiset(s)
  {
    assert s == s[..n] + s[n..];
  }

  lemma PartsBelow<T>(a: seq<T>, b: seq<T>, c: seq<T>, b': seq<T>, c': seq<T>, total: multiset<T>)
    requires multiset(b) <= multiset(b') && multiset(c) <= multiset(c') && multiset(a + b' + c') <= total
    ensures multiset(a + b + c) <= total
  {
    assert multiset(a + b' + c') == multiset(a) + multiset(b') + multiset(c');
    assert multiset(a + b + c) == multiset(a) + multiset(b) + multiset(c);
  }

  lemma PartOfWaveBound(env: Env, waves: seq<seq<Step>>, k: nat, ok: seq<bool>, m: nat, all: seq<Step>)
    requires k < |waves| && |ok| == |Reads(env, waves[k])| && m <= |Writes(env, waves[k])|
    requires all == Arranged(env, waves[..k]) + Kept(Reads(env, waves[k]), ok) + Writes(env, waves[k])[..m]
    ensures multiset(all) <= multiset(Arranged(env, waves))
  {
    var queries, writes := Reads(env, waves[k]), Writes(env, waves[k]);
    KeptIsPart(queries, ok);
    PrefixIsPart(writes, m);
    ArrangedStep(env, waves, k);
    ArrangedPrefix(env, waves, k + 1);
    PartsBelow(Arranged(env, waves[..k]), Kept(queries, ok), writes[..m], queries, writes,
               multiset(Arranged(env, waves)));
  }

  lemma ReachedNext(env: Env, waves: seq<seq<Step>>, mark: Mark, done: seq<Step>)
    requires Reached(env, waves, mark, done)
    ensures var k, m := mark.wave, mark.writes + |Next(env, waves, mark)|;
      && m <= |Writes(env, waves[k])|
      && done + Next(env, waves, mark) ==
         Arranged(env, waves[..k]) + Kept(Reads(env, waves[k]), mark.ok) + Writes(env, waves[k])[..m]
  {
    var k, n, next := mark.wave, mark.writes, Next(env, waves, mark);
    var writes := Writes(env, waves[k]);
    assert writes[..n + |next|] == writes[..n] + next;
    AppendLast(Arranged(env, waves[..k]), Kept(Reads(env, waves[k]), mark.ok), writes[..n], next);
  }

  /** A run never applies a step twice, and the step in doubt is not among the applied ones. */
  lemma {:induction false} ReachedIsPart(env: Env, waves: seq<seq<Step>>, mark: Mark, done: seq<Step>)
    requires Reached(env, waves, mark, done)
    ensures multiset(done + Next(env, waves, mark)) <= multiset(Arranged(env, waves))
  {
    ReachedNext(env, waves, mark, done);
    PartOfWaveBound(env, waves, mark.wave, mark.ok, mark.writes + |Next(env, waves, mark)|,
                    done + Next(env, waves, mark));
  }

  ghost function Next(env: Env, waves: seq<seq<Step>>, mark: Mark): seq<Step> {
    var next := NextWrite(env, waves, mark);
    if next.Some? then [next.value] else []
  }

  function Mutations(mutating: set<string>, steps: seq<Step>): seq<string> {
    if steps == [] then []
    else
      var n := |steps| - 1;
      Mutations(mutating, steps[..n]) + if steps[n].capability in mutating then [steps[n].id] else []
  }

  function EffectIds(effects: seq<Effect>): seq<string> {
    seq(|effects|, i requires 0 <= i < |effects| => effects[i].stepId)
  }

  lemma {:induction false} EffectsAreMutations(env: Env, prior: Outputs, done: seq<Step>, applied: seq<Applied>)
    requires |done| == |applied|
    ensures EffectIds(EffectsOf(env, prior, done, applied)) == Mutations(env.mutating, done)
  {
    if done != [] {
      var n := |done| - 1;
      EffectsAreMutations(env, prior, done[..n], applied[..n]);
    }
  }

  lemma {:induction false} MutatingAppend(mutating: set<string>, a: seq<Step>, b: seq<Step>)
    ensures Mutations(mutating, a + b) == Mutations(mutating, a) + Mutations(mutating, b)
  {
    if b == [] {
      assert a + b == a;
    } else {
      var n := |b| - 1;
      assert (a + b)[..|a| + n] == a + b[..n];
      MutatingAppend(mutating, a, b[..n]);
    }
  }

  function MutatingId(mutating: set<string>, s: Step): multiset<string> {
    if s.capability in mutating then multiset{s.id} else multiset{}
  }

  lemma MutatingWithout(mutating: set<string>, b: seq<Step>, i: nat)
    requires i < |b|
    ensures multiset(Mutations(mutating, b))
      == multiset(Mutations(mutating, b[..i] + b[i + 1..])) + MutatingId(mutating, b[i])
  {
    assert b == b[..i] + ([b[i]] + b[i + 1..]);
    MutatingAppend(mutating, b[..i], [b[i]] + b[i + 1..]);
    MutatingAppend(mutating, [b[i]], b[i + 1..]);
    MutatingAppend(mutating, b[..i], b[i + 1..]);
    assert Mutations(mutating, [b[i]]) == if b[i].capability in mutating then [b[i].id] else [];
  }

  lemma StepsWithout(b: seq<Step>, i: nat)
    requires i < |b|
    ensures multiset(b) == multiset(b[..i] + b[i + 1..]) + multiset{b[i]}
  {
    assert b == b[..i] + [b[i]] + b[i + 1..];
  }

  lemma {:induction false} MutatingPermutes(mutating: set<string>, a: seq<Step>, b: seq<Step>)
    requires multiset(a) == multiset(b)
    ensures multiset(Mutations(mutating, a)) == multiset(Mutations(mutating, b))
    decreases |a|
  {
    if a == [] {
      assert |multiset(b)| == 0;
    } else {
      var n := |a| - 1;
      assert a[n] in multiset(b);
      var i :| 0 <= i < |b| && b[i] == a[n];
      var a', b' := a[..n] + a[n + 1..], b[..i] + b[i + 1..];
      StepsWithout(a, n);
      StepsWithout(b, i);
      assert multiset(a') == multiset(a) - multiset{a[n]} && multiset(b') == multiset(b) - multiset{b[i]};
      MutatingPermutes(mutating, a', b');
      MutatingWithout(mutating, a, n);
      MutatingWithout(mutating, b, i);
    }
  }

  /** The steps a resumed run is given: those not recorded as applied. */
  function Remaining(steps: seq<Step>, done: seq<Step>): seq<Step> {
    if steps == [] then []
    else
      var n := |steps| - 1;
      Remaining(steps[..n], done) + if steps[n].id in Ids(done) then [] else [steps[n]]
  }

  lemma {:induction false} RemainingCount(steps: seq<Step>, done: seq<Step>, s: Step)
    ensures multiset(Remaining(steps, done))[s] == if s.id in Ids(done) then 0 else multiset(steps)[s]
  {
    if steps != [] {
      var n := |steps| - 1;
      RemainingCount(steps[..n], done, s);
      CountLast(steps, s);
      if steps[n].id !in Ids(done) {
        assert Remaining(steps, done) == Remaining(steps[..n], done) + [steps[n]];
        assert Remaining(steps, done)[..|Remaining(steps[..n], done)|] == Remaining(steps[..n], done);
        CountLast(Remaining(steps, done), s);
      }
    }
  }

  lemma CountLast(steps: seq<Step>, s: Step)
    requires steps != []
    ensures var n := |steps| - 1; multiset(steps)[s] == multiset(steps[..n])[s] + if s == steps[n] then 1 else 0
  {
    assert steps == steps[..|steps| - 1] + [steps[|steps| - 1]];
  }

  lemma {:induction false} UniqueCount(steps: seq<Step>, s: Step)
    requires UniqueIds(steps)
    ensures multiset(steps)[s] <= 1
  {
    if steps != [] {
      var n := |steps| - 1;
      UniqueCount(steps[..n], s);
      assert steps == steps[..n] + [steps[n]];
      if s == steps[n] { assert s !in steps[..n]; }
    }
  }

  lemma SameIdSameStep(steps: seq<Step>, s: Step, t: Step)
    requires UniqueIds(steps) && s in steps && t in steps && s.id == t.id
    ensures s == t
  {
  }

  lemma RemainingComplements(steps: seq<Step>, done: seq<Step>)
    requires UniqueIds(steps) && multiset(done) <= multiset(steps)
    ensures multiset(done) + multiset(Remaining(steps, done)) == multiset(steps)
  {
    forall s ensures multiset(done)[s] + multiset(Remaining(steps, done))[s] == multiset(steps)[s] {
      RemainingCount(steps, done, s);
      UniqueCount(steps, s);
      assert s in done <==> multiset(done)[s] > 0;
      if s.id in Ids(done) {
        var t :| t in done && t.id == s.id;
        assert multiset(done)[t] <= multiset(steps)[t];
        assert t in steps;
        if s in steps { SameIdSameStep(steps, s, t); }
        assert multiset(done)[s] <= multiset(steps)[s];
      }
    }
  }

  /** One run as its caller sees it, with what it left on the control plane. */
  datatype Attempt = Attempt(steps: seq<Step>, done: seq<Step>, effects: seq<Effect>, stop: Option<Stop>)

  /** What every run satisfies: it took effect exactly once for each mutating step among the applied
      ones and at most one more step, which is then the doubtful one; a run that finishes applied
      everything. */
  ghost predicate Genuine(mutating: set<string>, a: Attempt, next: seq<Step>) {
    && multiset(a.done + next) <= multiset(a.steps)
    && EffectIds(a.effects) == Mutations(mutating, a.done + next)
    && (next != [] ==> |next| == 1 && Doubtful(a.stop) == Some(next[0].id))
    && (a.stop.None? ==> multiset(a.done) == multiset(a.steps))
  }

  lemma EffectsSettled(env: Env, prior: Outputs, done: seq<Step>, run: Run, stop: Option<Stop>, next: Option<Step>)
      returns (touched: seq<Step>)
    requires AccountedAtStop(env, prior, done, run, stop, next)
    requires next.Some? ==> next.value.capability in env.mutating
    ensures touched == [] || (next.Some? && touched == [next.value] && Doubtful(stop) == Some(next.value.id))
    ensures EffectIds(run.effects) == Mutations(env.mutating, done + touched) && AppliedTo(done, run.applied)
  {
    if Accounted(env, prior, done, run) {
      MutationsAccounted(env, prior, done, run);
      touched := [];
      assert done + touched == done;
    } else {
      var n := |run.effects| - 1;
      MutationsAccounted(env, prior, done, run.(effects := run.effects[..n]));
      touched := [next.value];
      assert (done + touched)[..|done|] == done;
      assert run.effects == run.effects[..n] + [run.effects[n]];
    }
  }

  lemma MutationsAccounted(env: Env, prior: Outputs, done: seq<Step>, run: Run)
    requires Accounted(env, prior, done, run)
    ensures |done| == |run.applied| && AppliedTo(done, run.applied)
    ensures EffectIds(run.effects) == Mutations(env.mutating, done)
  {
    AccountedMeans(env, prior, done, run);
    EffectsAreMutations(env, prior, done, run.applied);
  }

  lemma WholePlan(env: Env, steps: seq<Step>, waves: seq<seq<Step>>, level: map<string, nat>)
    requires UniqueIds(steps) && GroupsByLevel(steps, waves, level)
    ensures multiset(Arranged(env, waves)) == multiset(steps)
  {
    ArrangedIsFlattened(env, waves);
    WavesPartition(steps, waves, level);
  }

  lemma FinishedIsGenuine(env: Env, steps: seq<Step>, prior: Outputs, waves: seq<seq<Step>>, level: map<string, nat>,
                          run: Run)
    requires UniqueIds(steps) && GroupsByLevel(steps, waves, level) && Accounted(env, prior, Arranged(env, waves), run)
    ensures var done := Arranged(env, waves);
      && Genuine(env.mutating, Attempt(steps, done, run.effects, None), [])
      && AppliedTo(done, run.applied) && |run.applied| == |steps| && DependencyOrder(steps, done)
  {
    var done := Arranged(env, waves);
    WholePlan(env, steps, waves, level);
    AppliedIsDependencyClosed(env, steps, waves, level, Mark(0, [], 0), done);
    MutationsAccounted(env, prior, done, run);
    assert |multiset(done)| == |multiset(steps)|;
    assert done + [] == done;
  }

  lemma StoppedIsGenuine(env: Env, steps: seq<Step>, prior: Outputs, waves: seq<seq<Step>>, level: map<string, nat>,
                         run: Run,
                         stop: Stop, done: seq<Step>, mark: Mark) returns (next: seq<Step>)
    requires UniqueIds(steps) && GroupsByLevel(steps, waves, level) && Reached(env, waves, mark, done)
    requires AccountedAtStop(env, prior, done, run, Some(stop), NextWrite(env, waves, mark))
    ensures Genuine(env.mutating, Attempt(steps, done, run.effects, Some(stop)), next)
    ensures AppliedTo(done, run.applied) && DependencyOrder(steps, done)
  {
    WholePlan(env, steps, waves, level);
    AppliedIsDependencyClosed(env, steps, waves, level, mark, done);
    ReachedIsPart(env, waves, mark, done);
    SelectMembers(env, waves[mark.wave], true);
    next := EffectsSettled(env, prior, done, run, Some(stop), NextWrite(env, waves, mark));
    assert multiset(done + next) <= multiset(done + Next(env, waves, mark));
  }

  /** What a run leaves: its account up to a doubtful step, the applied steps being a part of its
      steps in dependency order. */
  ghost predicate LeftBehind(env: Env, steps: seq<Step>, prior: Outputs, done: seq<Step>, run: Run,
                             stop: Option<Stop>) {
    && multiset(done) <= multiset(steps) && DependencyOrder(steps, done)
    && exists next :: AccountedAtStop(env, prior, done, run, stop, next)
  }

  method RunAttempt(env: Env, steps: seq<Step>, prior: Outputs)
      returns (run: Run, stop: Option<Stop>, ghost done: seq<Step>, ghost next: seq<Step>)
    requires UniqueIds(steps)
    ensures Genuine(env.mutating, Attempt(steps, done, run.effects, stop), next)
    ensures AppliedTo(done, run.applied) && DependencyOrder(steps, done)
    ensures LeftBehind(env, steps, prior, done, run, stop)
    ensures stop.None? ==> |run.applied| == |steps|
  {
    ghost var waves, level, mark;
    run, stop, waves, level, done, mark := Execute(env, steps, prior);
    next := [];
    if waves.None? {
      assert EffectIds(run.effects) == Mutations(env.mutating, done + next);
      assert AccountedAtStop(env, prior, done, run, stop, None);
    } else if stop.None? {
      FinishedIsGenuine(env, steps, prior, waves.value, level, run);
      assert AccountedAtStop(env, prior, done, run, stop, None);
    } else {
      next := StoppedIsGenuine(env, steps, prior, waves.value, level, run, stop.value, done, mark);
    }
  }

  /** A plan carried out in successive runs: each run is given the steps the earlier ones did not
      apply, and no run follows one that left a step in doubt. */
  ghost predicate Campaign(mutating: set<string>, plan: seq<Step>, attempts: seq<Attempt>)
    decreases |attempts|
  {
    attempts != [] ==>
      && attempts[0].steps == plan
      && (exists next :: Genuine(mutating, attempts[0], next))
      && (|attempts| > 1 ==> Doubtful(attempts[0].stop).None?)
      && Campaign(mutating, Remaining(plan, attempts[0].done), attempts[1..])
  }

  function AllEffectIds(attempts: seq<Attempt>): seq<string> {
    if attempts == [] then [] else EffectIds(attempts[0].effects) + AllEffectIds(attempts[1..])
  }

  lemma {:induction false} RemainingMembers(steps: seq<Step>, done: seq<Step>)
    ensures forall s | s in Remaining(steps, done) :: s in steps
  {
    if steps != [] { RemainingMembers(steps[..|steps| - 1], done); }
  }

  lemma {:induction false} RemainingUnique(steps: seq<Step>, done: seq<Step>)
    requires UniqueIds(steps)
    ensures UniqueIds(Remaining(steps, done))
  {
    if steps != [] {
      var n := |steps| - 1;
      RemainingUnique(steps[..n], done);
      RemainingMembers(steps[..n], done);
      forall s | s in Remaining(steps[..n], done) ensures s.id != steps[n].id {
        var k :| 0 <= k < n && steps[k] == s;
      }
    }
  }

  lemma IdsLast(steps: seq<Step>)
    requires steps != [] && UniqueIds(steps)
    ensures var n := |steps| - 1; Ids(steps) == Ids(steps[..n]) + {steps[n].id} && steps[n].id !in Ids(steps[..n])
  {
    assert steps == steps[..|steps| - 1] + [steps[|steps| - 1]];
  }

  lemma {:induction false} UniqueMutatingIds(mutating: set<string>, steps: seq<Step>, id: string)
    requires UniqueIds(steps)
    ensures multiset(Mutations(mutating, steps))[id] <= if id in Ids(steps) then 1 else 0
  {
    if steps != [] {
      var n := |steps| - 1;
      var before := Mutations(mutating, steps[..n]);
      UniqueMutatingIds(mutating, steps[..n], id);
      IdsLast(steps);
      if steps[n].capability in mutating {
        assert multiset(before + [steps[n].id]) == multiset(before) + multiset{steps[n].id};
      }
    }
  }

  /** The plan's mutations are those already applied and those that remain. */
  lemma MutationsSplit(mutating: set<string>, plan: seq<Step>, done: seq<Step>)
    requires UniqueIds(plan) && multiset(done) <= multiset(plan)
    ensures multiset(Mutations(mutating, plan)) ==
      multiset(Mutations(mutating, done)) + multiset(Mutations(mutating, Remaining(plan, done)))
  {
    RemainingComplements(plan, done);
    MutatingPermutes(mutating, plan, done + Remaining(plan, done));
    MutatingAppend(mutating, done, Remaining(plan, done));
  }

  /** Over any number of resumed runs every mutating step takes effect at most once, and exactly
      once when the last run finishes. */
  lemma {:induction false} AtMostOnce(mutating: set<string>, plan: seq<Step>, attempts: seq<Attempt>)
    requires UniqueIds(plan) && Campaign(mutating, plan, attempts)
    ensures multiset(AllEffectIds(attempts)) <= multiset(Mutations(mutating, plan))
    ensures attempts != [] && attempts[|attempts| - 1].stop.None? ==>
      multiset(AllEffectIds(attempts)) == multiset(Mutations(mutating, plan))
    ensures forall id :: multiset(AllEffectIds(attempts))[id] <= 1
  {
    EffectsWithinPlan(mutating, plan, attempts);
    forall id ensures multiset(AllEffectIds(attempts))[id] <= 1 { UniqueMutatingIds(mutating, plan, id); }
  }

  /** The effects of a campaign are the plan's mutations, all of them if its last run finishes. */
  ghost predicate WithinPlan(mutating: set<string>, plan: seq<Step>, attempts: seq<Attempt>) {
    && multiset(AllEffectIds(attempts)) <= multiset(Mutations(mutating, plan))
    && (attempts != [] && attempts[|attempts| - 1].stop.None? ==>
      multiset(AllEffectIds(attempts)) == multiset(Mutations(mutating, plan)))
  }

  lemma {:induction false} EffectsWithinPlan(mutating: set<string>, plan: seq<Step>, attempts: seq<Attempt>)
    requires UniqueIds(plan) && Campaign(mutating, plan, attempts)
    ensures WithinPlan(mutating, plan, attempts)
    decreases |attempts|
  {
    if attempts != [] {
      var a, rest := attempts[0], Remaining(plan, attempts[0].done);
      var next :| Genuine(mutating, a, next);
      if |attempts| > 1 {
        RemainingUnique(plan, a.done);
        EffectsWithinPlan(mutating, rest, attempts[1..]);
        FirstRun(mutating, plan, a, next, attempts);
      } else {
        LastRun(mutating, plan, a, next);
        assert AllEffectIds(attempts) == EffectIds(a.effects);
      }
    }
  }

  lemma FirstRun(mutating: set<string>, plan: seq<Step>, a: Attempt, next: seq<Step>, attempts: seq<Attempt>)
    requires UniqueIds(plan) && |attempts| > 1 && attempts[0] == a && a.steps == plan && Genuine(mutating, a, next)
    requires Doubtful(a.stop).None? && WithinPlan(mutating, Remaining(plan, a.done), attempts[1..])
    ensures WithinPlan(mutating, plan, attempts)
  {
    assert multiset(a.done) <= multiset(a.done + next);
    MutationsSplit(mutating, plan, a.done);
    assert a.done + next == a.done;
    assert attempts[1..][|attempts| - 2] == attempts[|attempts| - 1];
  }

  lemma LastRun(mutating: set<string>, plan: seq<Step>, a: Attempt, next: seq<Step>)
    requires UniqueIds(plan) && a.steps == plan && Genuine(mutating, a, next)
    ensures multiset(EffectIds(a.effects)) <= multiset(Mutations(mutating, plan))
    ensures a.stop.None? ==> multiset(EffectIds(a.effects)) == multiset(Mutations(mutating, plan))
  {
    MutationsSplit(mutating, plan, a.done + next);
    if a.stop.None? {
      assert a.done + next == a.done;
      MutatingPermutes(mutating, a.done, plan);
    }
  }
}
