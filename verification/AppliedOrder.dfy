/** The order in which a run applies a plan: by wave, in a wave reads before writes, and otherwise as
    the plan lists the steps. It is the plan's own order exactly when the plan is sorted that way. */
module AppliedOrder {
  import opened DependencyGraph
  import opened DependencyWaves
  import opened GovernedExecutor
  import opened Prelude
  import opened ResumedExecution

  /** The plan lists a before b. */
  ghost predicate Before(plan: seq<Step>, a: Step, b: Step) {
    exists p, q :: 0 <= p < q < |plan| && plan[p] == a && plan[q] == b
  }

  ghost predicate InOrderOf(plan: seq<Step>, part: seq<Step>) {
    forall i, j | 0 <= i < j < |part| :: Before(plan, part[i], part[j])
  }

  lemma BeforeAt(plan: seq<Step>, p: nat, q: nat)
    requires p < q < |plan|
    ensures Before(plan, plan[p], plan[q])
  {
  }

  lemma BeforeInTail(plan: seq<Step>, a: Step, b: Step)
    requires plan != [] && Before(plan[1..], a, b)
    ensures Before(plan, a, b)
  {
    var p, q :| 0 <= p < q < |plan[1..]| && plan[1..][p] == a && plan[1..][q] == b;
    BeforeAt(plan, p + 1, q + 1);
  }

  lemma HeadBefore(plan: seq<Step>, b: Step)
    requires plan != [] && b in plan[1..]
    ensures Before(plan, plan[0], b)
  {
    var q :| 0 <= q < |plan[1..]| && plan[1..][q] == b;
    BeforeAt(plan, 0, q + 1);
  }

  lemma OrderInTail(plan: seq<Step>, part: seq<Step>)
    requires plan != [] && InOrderOf(plan[1..], part)
    ensures InOrderOf(plan, part)
  {
    forall i, j | 0 <= i < j < |part| ensures Before(plan, part[i], part[j]) { BeforeInTail(plan, part[i], part[j]); }
  }

  lemma HeadInOrder(plan: seq<Step>, part: seq<Step>)
    requires plan != [] && InOrderOf(plan[1..], part) && forall s | s in part :: s in plan[1..]
    ensures InOrderOf(plan, [plan[0]] + part)
  {
    OrderInTail(plan, part);
    var all := [plan[0]] + part;
    forall i, j | 0 <= i < j < |all| ensures Before(plan, all[i], all[j]) {
      if i == 0 { HeadBefore(plan, part[j - 1]); } else { assert Before(plan, part[i - 1], part[j - 1]); }
    }
  }

  lemma {:induction false} LevelInOrder(plan: seq<Step>, level: map<string, nat>, k: nat)
    ensures InOrderOf(plan, AtLevel(plan, level, k))
  {
    if plan != [] {
      LevelInOrder(plan[1..], level, k);
      LevelMembers(plan[1..], level, k);
      OrderInTail(plan, AtLevel(plan[1..], level, k));
      HeadInOrder(plan, AtLevel(plan[1..], level, k));
    }
  }

  lemma {:induction false} SelectInOrder(env: Env, wave: seq<Step>, mutating: bool)
    ensures InOrderOf(wave, Select(env, wave, mutating))
  {
    if wave != [] {
      SelectInOrder(env, wave[1..], mutating);
      SelectMembers(env, wave[1..], mutating);
      OrderInTail(wave, Select(env, wave[1..], mutating));
      HeadInOrder(wave, Select(env, wave[1..], mutating));
    }
  }

  lemma BeforeFromInit(plan: seq<Step>, a: Step, b: Step)
    requires plan != [] && Before(plan[..|plan| - 1], a, b)
    ensures Before(plan, a, b)
  {
    var init := plan[..|plan| - 1];
    var p, q :| 0 <= p < q < |init| && init[p] == a && init[q] == b;
    BeforeAt(plan, p, q);
  }

  lemma BeforeLast(plan: seq<Step>, a: Step)
    requires plan != [] && a in plan[..|plan| - 1]
    ensures Before(plan, a, plan[|plan| - 1])
  {
    var p :| 0 <= p < |plan| - 1 && plan[p] == a;
    BeforeAt(plan, p, |plan| - 1);
  }

  lemma LastInOrder(plan: seq<Step>, part: seq<Step>)
    requires plan != [] && InOrderOf(plan[..|plan| - 1], part) && forall s | s in part :: s in plan[..|plan| - 1]
    ensures InOrderOf(plan, part) && InOrderOf(plan, part + [plan[|plan| - 1]])
  {
    var all := part + [plan[|plan| - 1]];
    forall i, j | 0 <= i < j < |all| ensures Before(plan, all[i], all[j]) {
      assert part[i] in part;
      if j < |part| { BeforeFromInit(plan, part[i], part[j]); } else { BeforeLast(plan, part[i]); }
    }
    forall i, j | 0 <= i < j < |part| ensures Before(plan, part[i], part[j]) {
      assert Before(plan, all[i], all[j]);
    }
  }

  lemma {:induction false} KeptInOrder(steps: seq<Step>, ok: seq<bool>)
    requires |ok| == |steps|
    ensures InOrderOf(steps, Kept(steps, ok))
  {
    if steps != [] {
      var n := |steps| - 1;
      var kept := Kept(steps[..n], ok[..n]);
      KeptInOrder(steps[..n], ok[..n]);
      forall s | s in kept ensures s in steps[..n] { KeptMembers(steps[..n], ok[..n], s); }
      LastInOrder(steps, kept);
    }
  }

  lemma OrderThrough(plan: seq<Step>, part: seq<Step>, less: seq<Step>)
    requires InOrderOf(plan, part) && InOrderOf(part, less)
    ensures InOrderOf(plan, less)
  {
    forall i, j | 0 <= i < j < |less| ensures Before(plan, less[i], less[j]) {
      var p, q :| 0 <= p < q < |part| && part[p] == less[i] && part[q] == less[j];
      assert Before(plan, part[p], part[q]);
    }
  }

  lemma OneWay(plan: seq<Step>, a: Step, b: Step)
    requires UniqueIds(plan) && Before(plan, a, b)
    ensures !Before(plan, b, a) && a != b
  {
  }

  lemma OneOfTwo(plan: seq<Step>, a: Step, b: Step)
    requires a in plan && b in plan && a != b
    ensures Before(plan, a, b) || Before(plan, b, a)
  {
    var p :| 0 <= p < |plan| && plan[p] == a;
    var q :| 0 <= q < |plan| && plan[q] == b;
    if p < q { BeforeAt(plan, p, q); } else { BeforeAt(plan, q, p); }
  }

  // ---- Applied by rank ----

  /** Waves count double, and in a wave a write comes after the reads. */
  function Rank(mutating: set<string>, level: map<string, nat>, s: Step): nat {
    2 * (if s.id in level then level[s.id] else 0) + if s.capability in mutating then 1 else 0
  }

  ghost predicate Ranked(mutating: set<string>, level: map<string, nat>, plan: seq<Step>, a: Step, b: Step) {
    var m, n := Rank(mutating, level, a), Rank(mutating, level, b);
    m < n || (m == n && Before(plan, a, b))
  }

  ghost predicate ByRank(mutating: set<string>, level: map<string, nat>, plan: seq<Step>, done: seq<Step>) {
    forall i, j | 0 <= i < j < |done| :: Ranked(mutating, level, plan, done[i], done[j])
  }

  ghost predicate RanksWithin(mutating: set<string>, level: map<string, nat>, steps: seq<Step>, lo: nat, hi: nat) {
    forall s | s in steps :: lo <= Rank(mutating, level, s) < hi
  }

  lemma RanksJoin(mutating: set<string>, level: map<string, nat>, plan: seq<Step>, a: seq<Step>, b: seq<Step>,
                  mid: nat, hi: nat)
    requires ByRank(mutating, level, plan, a) && RanksWithin(mutating, level, a, 0, mid)
    requires ByRank(mutating, level, plan, b) && RanksWithin(mutating, level, b, mid, hi) && mid <= hi
    ensures ByRank(mutating, level, plan, a + b) && RanksWithin(mutating, level, a + b, 0, hi)
  {
    var all := a + b;
    forall i, j | 0 <= i < j < |all| ensures Ranked(mutating, level, plan, all[i], all[j]) {
      if i < |a| <= j { assert all[i] in a && all[j] in b; }
    }
  }

  /** Steps of one rank, as the plan lists them. */
  lemma OneRank(mutating: set<string>, level: map<string, nat>, plan: seq<Step>, part: seq<Step>, r: nat)
    requires InOrderOf(plan, part) && RanksWithin(mutating, level, part, r, r + 1)
    ensures ByRank(mutating, level, plan, part)
  {
    forall i, j | 0 <= i < j < |part| ensures Ranked(mutating, level, plan, part[i], part[j]) {
      assert part[i] in part && part[j] in part;
    }
  }

  /** Some reads of a wave and then some of its writes. */
  lemma PartByRank(env: Env, plan: seq<Step>, waves: seq<seq<Step>>, level: map<string, nat>, k: nat,
                   queries: seq<Step>, writes: seq<Step>)
    requires HoldLevels(plan, waves, level) && k < |waves|
    requires InOrderOf(Reads(env, waves[k]), queries) && forall s | s in queries :: s in Reads(env, waves[k])
    requires InOrderOf(Writes(env, waves[k]), writes) && forall s | s in writes :: s in Writes(env, waves[k])
    ensures ByRank(env.mutating, level, plan, queries) && RanksWithin(env.mutating, level, queries, 2 * k, 2 * k + 1)
    ensures ByRank(env.mutating, level, plan, writes)
    ensures RanksWithin(env.mutating, level, writes, 2 * k + 1, 2 * k + 2)
  {
    LevelInOrder(plan, level, k);
    LevelMembers(plan, level, k);
    SelectInOrder(env, waves[k], false);
    SelectInOrder(env, waves[k], true);
    SelectMembers(env, waves[k], false);
    SelectMembers(env, waves[k], true);
    OrderThrough(plan, waves[k], Reads(env, waves[k]));
    OrderThrough(plan, waves[k], Writes(env, waves[k]));
    OrderThrough(plan, Reads(env, waves[k]), queries);
    OrderThrough(plan, Writes(env, waves[k]), writes);
    OneRank(env.mutating, level, plan, queries, 2 * k);
    OneRank(env.mutating, level, plan, writes, 2 * k + 1);
  }

  lemma {:induction false} ArrangedByRank(env: Env, plan: seq<Step>, waves: seq<seq<Step>>, level: map<string, nat>,
                                          k: nat)
    requires HoldLevels(plan, waves, level) && k <= |waves|
    ensures ByRank(env.mutating, level, plan, Arranged(env, waves[..k]))
    ensures RanksWithin(env.mutating, level, Arranged(env, waves[..k]), 0, 2 * k)
  {
    if k > 0 {
      var queries, writes := Reads(env, waves[k - 1]), Writes(env, waves[k - 1]);
      ArrangedByRank(env, plan, waves, level, k - 1);
      SelfInOrder(queries);
      SelfInOrder(writes);
      PartByRank(env, plan, waves, level, k - 1, queries, writes);
      ArrangedStep(env, waves, k - 1);
      var before := Arranged(env, waves[..k - 1]);
      RanksJoin(env.mutating, level, plan, before, queries, 2 * k - 2, 2 * k - 1);
      RanksJoin(env.mutating, level, plan, before + queries, writes, 2 * k - 1, 2 * k);
    }
  }

  lemma SelfInOrder(steps: seq<Step>)
    ensures InOrderOf(steps, steps)
  {
    forall i, j | 0 <= i < j < |steps| ensures Before(steps, steps[i], steps[j]) { BeforeAt(steps, i, j); }
  }

  lemma PrefixInOrder(steps: seq<Step>, n: nat)
    requires n <= |steps|
    ensures InOrderOf(steps, steps[..n])
  {
    forall i, j | 0 <= i < j < n ensures Before(steps, steps[..n][i], steps[..n][j]) { BeforeAt(steps, i, j); }
  }

  /** However a run ends, what it applied stands by rank. */
  lemma ReachedByRank(env: Env, plan: seq<Step>, waves: seq<seq<Step>>, level: map<string, nat>, mark: Mark,
                      done: seq<Step>)
    requires HoldLevels(plan, waves, level) && Reached(env, waves, mark, done)
    ensures ByRank(env.mutating, level, plan, done)
  {
    var k := mark.wave;
    var queries, writes := Kept(Reads(env, waves[k]), mark.ok), Writes(env, waves[k])[..mark.writes];
    KeptInOrder(Reads(env, waves[k]), mark.ok);
    forall s | s in queries ensures s in Reads(env, waves[k]) { KeptMembers(Reads(env, waves[k]), mark.ok, s); }
    PrefixInOrder(Writes(env, waves[k]), mark.writes);
    PartByRank(env, plan, waves, level, k, queries, writes);
    ArrangedByRank(env, plan, waves, level, k);
    var before := Arranged(env, waves[..k]);
    RanksJoin(env.mutating, level, plan, before, queries, 2 * k, 2 * k + 1);
    RanksJoin(env.mutating, level, plan, before + queries, writes, 2 * k + 1, 2 * k + 2);
  }

  // ---- When that is the plan's order ----

  /** No two of the steps are listed against their ranks. */
  ghost predicate RanksAgree(mutating: set<string>, level: map<string, nat>, plan: seq<Step>, steps: seq<Step>) {
    forall a, b | a in steps && b in steps && Before(plan, a, b) ::
      Rank(mutating, level, a) <= Rank(mutating, level, b)
  }

  lemma ByRankInOrder(mutating: set<string>, level: map<string, nat>, plan: seq<Step>, done: seq<Step>)
    requires UniqueIds(plan) && ByRank(mutating, level, plan, done) && forall s | s in done :: s in plan
    ensures InOrderOf(plan, done) <==> RanksAgree(mutating, level, plan, done)
  {
    if RanksAgree(mutating, level, plan, done) {
      forall i, j | 0 <= i < j < |done| ensures Before(plan, done[i], done[j]) {
        PairInOrder(mutating, level, plan, done, done[i], done[j]);
      }
    }
    if InOrderOf(plan, done) {
      forall a, b | a in done && b in done && Before(plan, a, b)
        ensures Rank(mutating, level, a) <= Rank(mutating, level, b)
      {
        PairRanked(mutating, level, plan, done, a, b);
      }
    }
  }

  lemma PairInOrder(mutating: set<string>, level: map<string, nat>, plan: seq<Step>, done: seq<Step>, a: Step, b: Step)
    requires UniqueIds(plan) && RanksAgree(mutating, level, plan, done)
    requires a in done && b in done && a in plan && b in plan && Ranked(mutating, level, plan, a, b)
    ensures Before(plan, a, b)
  {
    if a != b { OneOfTwo(plan, a, b); }
  }

  lemma PairRanked(mutating: set<string>, level: map<string, nat>, plan: seq<Step>, done: seq<Step>, a: Step, b: Step)
    requires UniqueIds(plan) && ByRank(mutating, level, plan, done) && InOrderOf(plan, done)
    requires a in done && b in done && Before(plan, a, b)
    ensures Rank(mutating, level, a) <= Rank(mutating, level, b)
  {
    OneWay(plan, a, b);
    var i :| 0 <= i < |done| && done[i] == a;
    var j :| 0 <= j < |done| && done[j] == b;
    if i < j { assert Ranked(mutating, level, plan, done[i], done[j]); }
  }

  /** A run that stopped applied its steps in plan order exactly when no two of them are listed
      against their ranks. */
  lemma StoppedInPlanOrder(env: Env, plan: seq<Step>, waves: seq<seq<Step>>, level: map<string, nat>, mark: Mark,
                           done: seq<Step>)
    requires UniqueIds(plan) && GroupsByLevel(plan, waves, level) && Reached(env, waves, mark, done)
    ensures InOrderOf(plan, done) <==> RanksAgree(env.mutating, level, plan, done)
  {
    ReachedByRank(env, plan, waves, level, mark, done);
    ReachedIsPart(env, waves, mark, done);
    WholePlan(env, plan, waves, level);
    forall s | s in done ensures s in plan { assert s in multiset(done + Next(env, waves, mark)); }
    ByRankInOrder(env.mutating, level, plan, done);
  }

  ghost predicate RanksAscend(mutating: set<string>, level: map<string, nat>, plan: seq<Step>) {
    forall i, j | 0 <= i < j < |plan| :: Rank(mutating, level, plan[i]) <= Rank(mutating, level, plan[j])
  }

  lemma {:induction false} SameOrderSame(plan: seq<Step>, done: seq<Step>)
    requires UniqueIds(plan) && multiset(done) == multiset(plan) && InOrderOf(plan, done)
    ensures done == plan
  {
    SameSize(plan, done);
    if plan != [] {
      var n := |plan| - 1;
      LastIsLast(plan, done);
      SameInit(plan, done);
      OrderInInit(plan, done);
      SameOrderSame(plan[..n], done[..n]);
      assert plan == plan[..n] + [plan[n]] && done == done[..n] + [done[n]];
    }
  }

  lemma SameSize(plan: seq<Step>, done: seq<Step>)
    requires multiset(done) == multiset(plan)
    ensures |done| == |plan|
  {
    assert |multiset(done)| == |multiset(plan)|;
  }

  lemma WithoutLast(s: seq<Step>)
    requires s != []
    ensures multiset(s[..|s| - 1]) == multiset(s) - multiset{s[|s| - 1]}
  {
    assert s == s[..|s| - 1] + [s[|s| - 1]];
  }

  lemma SameInit(plan: seq<Step>, done: seq<Step>)
    requires plan != [] && |done| == |plan| && multiset(done) == multiset(plan) && done[|done| - 1] == plan[|plan| - 1]
    ensures multiset(done[..|done| - 1]) == multiset(plan[..|plan| - 1])
  {
    WithoutLast(plan);
    WithoutLast(done);
  }

  lemma OrderInInit(plan: seq<Step>, done: seq<Step>)
    requires UniqueIds(plan) && plan != [] && |done| == |plan| && InOrderOf(plan, done)
    requires done[|done| - 1] == plan[|plan| - 1]
    ensures InOrderOf(plan[..|plan| - 1], done[..|done| - 1])
  {
    var n := |plan| - 1;
    forall i, j | 0 <= i < j < n ensures Before(plan[..n], done[..n][i], done[..n][j]) {
      assert Before(plan, done[i], done[j]) && Before(plan, done[j], done[n]);
      OneWay(plan, done[j], done[n]);
      BeforeInInit(plan, done[i], done[j]);
    }
  }

  lemma LastIsLast(plan: seq<Step>, done: seq<Step>)
    requires UniqueIds(plan) && plan != [] && |done| == |plan| && multiset(done) == multiset(plan)
    requires InOrderOf(plan, done)
    ensures done[|done| - 1] == plan[|plan| - 1]
  {
    var n := |plan| - 1;
    assert plan[n] in multiset(done);
    NothingAfterLast(plan, done[n]);
    var i :| 0 <= i < |done| && done[i] == plan[n];
  }

  lemma NothingAfterLast(plan: seq<Step>, b: Step)
    requires UniqueIds(plan) && plan != []
    ensures !Before(plan, plan[|plan| - 1], b)
  {
  }

  lemma BeforeInInit(plan: seq<Step>, a: Step, b: Step)
    requires UniqueIds(plan) && plan != [] && Before(plan, a, b) && b != plan[|plan| - 1]
    ensures Before(plan[..|plan| - 1], a, b)
  {
    var n := |plan| - 1;
    var p, q :| 0 <= p < q < |plan| && plan[p] == a && plan[q] == b;
    BeforeAt(plan[..n], p, q);
  }

  /** A run that finishes applied the plan in plan order exactly when the plan lists its steps by
      wave and, in a wave, reads before writes. */
  lemma FinishedInPlanOrder(env: Env, plan: seq<Step>, waves: seq<seq<Step>>, level: map<string, nat>)
    requires UniqueIds(plan) && GroupsByLevel(plan, waves, level)
    ensures Arranged(env, waves) == plan <==> RanksAscend(env.mutating, level, plan)
  {
    ArrangedByRank(env, plan, waves, level, |waves|);
    assert waves[..|waves|] == waves;
    if RanksAscend(env.mutating, level, plan) {
      var done := Arranged(env, waves);
      WholePlan(env, plan, waves, level);
      forall s | s in done ensures s in plan { assert s in multiset(done); }
      ByRankInOrder(env.mutating, level, plan, done);
      SameOrderSame(plan, done);
    } else {
      var i, j :| 0 <= i < j < |plan| && Rank(env.mutating, level, plan[i]) > Rank(env.mutating, level, plan[j]);
      assert !Ranked(env.mutating, level, plan, plan[i], plan[j]);
    }
  }

  /** A plan listed by rank is applied in plan order however far a run gets. */
  lemma RankedPlanStaysInOrder(env: Env, plan: seq<Step>, waves: seq<seq<Step>>, level: map<string, nat>, mark: Mark,
                               done: seq<Step>)
    requires UniqueIds(plan) && GroupsByLevel(plan, waves, level) && Reached(env, waves, mark, done)
    requires RanksAscend(env.mutating, level, plan)
    ensures InOrderOf(plan, done)
  {
    StoppedInPlanOrder(env, plan, waves, level, mark, done);
  }

  /** Two independent steps, a write and then a read: the one wave they make applies the read first. */
  lemma ReadOvertakesWrite(env: Env, write: Step, read: Step) returns (level: map<string, nat>)
    requires write.id != read.id && write.dependsOn == read.dependsOn == []
    requires write.capability in env.mutating && read.capability !in env.mutating
    ensures GroupsByLevel([write, read], [[write, read]], level)
    ensures Arranged(env, [[write, read]]) == [read, write] != [write, read]
  {
    level := map[write.id := 0, read.id := 0];
    TwoFreeSteps(write, read);
    assert [write, read][1..] == [read] && [read][1..] == [];
    assert AtLevel([read], level, 0) == [read];
    assert AtLevel([write, read], level, 0) == [write, read];
    OneWave(env, write, read);
  }

  lemma TwoFreeSteps(a: Step, b: Step)
    requires a.id != b.id && a.dependsOn == b.dependsOn == []
    ensures GraphOf([a, b]) == map[a.id := [], b.id := []]
  {
    assert [a, b][..1] == [a] && [a][..0] == [];
    assert GraphOf([a]) == map[a.id := []];
  }

  lemma OneWave(env: Env, write: Step, read: Step)
    requires write.capability in env.mutating && read.capability !in env.mutating
    ensures Arranged(env, [[write, read]]) == [read, write]
  {
    var wave := [write, read];
    assert wave[1..] == [read] && [read][1..] == [];
    assert Select(env, [read], false) == [read] && Select(env, [read], true) == [];
    assert Select(env, wave, false) == [read] && Select(env, wave, true) == [write];
    var waves := [wave];
    assert waves[..0] == [] && Arranged(env, waves[..0]) == [];
  }
}
