/** Plan steps and the executor's grouping of them into dependency waves. */
module DependencyWaves {
  import opened DependencyGraph
  import opened Prelude
  import opened StepReferences

  datatype Step = Step(id: string, capability: string, args: seq<Field>, dependsOn: seq<string>)

  function Ids(steps: seq<Step>): set<string> {
    set s | s in steps :: s.id
  }

  ghost predicate UniqueIds(steps: seq<Step>) {
    forall i, j | 0 <= i < j < |steps| :: steps[i].id != steps[j].id
  }

  function GraphOf(steps: seq<Step>): Graph {
    if steps == [] then map[]
    else
      var last := steps[|steps| - 1];
      GraphOf(steps[..|steps| - 1])[last.id := last.dependsOn]
  }

  lemma {:induction false} GraphOfSteps(steps: seq<Step>)
    ensures GraphOf(steps).Keys == Ids(steps)
    ensures UniqueIds(steps) ==> forall s | s in steps :: s.id in GraphOf(steps) && GraphOf(steps)[s.id] == s.dependsOn
  {
    if steps != [] {
      GraphOfSteps(steps[..|steps| - 1]);
      assert steps == steps[..|steps| - 1] + [steps[|steps| - 1]];
    }
  }

  /** The steps that satisfy the wave condition: not yet scheduled, and waiting on nothing pending. */
  predicate IsReady(s: Step, pending: set<string>) {
    s.id in pending && forall i | 0 <= i < |s.dependsOn| :: s.dependsOn[i] !in pending
  }

  function Ready(steps: seq<Step>, pending: set<string>): seq<Step> {
    if steps == [] then []
    else (if IsReady(steps[0], pending) then [steps[0]] else []) + Ready(steps[1..], pending)
  }

  /** The steps on one level, in plan order. */
  ghost function AtLevel(steps: seq<Step>, level: map<string, nat>, k: nat): seq<Step> {
    if steps == [] then []
    else if steps[0].id in level && level[steps[0].id] == k then [steps[0]] + AtLevel(steps[1..], level, k)
    else AtLevel(steps[1..], level, k)
  }

  lemma {:induction false} ReadyMembers(steps: seq<Step>, pending: set<string>)
    ensures forall s :: s in Ready(steps, pending) <==> s in steps && IsReady(s, pending)
  {
    if steps != [] { ReadyMembers(steps[1..], pending); }
  }

  lemma {:induction false} LevelMembers(steps: seq<Step>, level: map<string, nat>, k: nat)
    ensures forall s :: s in AtLevel(steps, level, k) <==> s in steps && s.id in level && level[s.id] == k
  {
    if steps != [] { LevelMembers(steps[1..], level, k); }
  }

  lemma {:induction false} ReadyIsLevel(steps: seq<Step>, pending: set<string>, level: map<string, nat>, k: nat)
    requires forall s | s in steps :: IsReady(s, pending) <==> s.id in level && level[s.id] == k
    ensures Ready(steps, pending) == AtLevel(steps, level, k)
  {
    if steps != [] { ReadyIsLevel(steps[1..], pending, level, k); }
  }

  lemma {:induction false} LevelFrame(steps: seq<Step>, level: map<string, nat>, level': map<string, nat>, k: nat)
    requires forall s | s in steps :: (s.id in level && level[s.id] == k) <==> (s.id in level' && level'[s.id] == k)
    ensures AtLevel(steps, level, k) == AtLevel(steps, level', k)
  {
    if steps != [] { LevelFrame(steps[1..], level, level', k); }
  }

  ghost predicate HoldLevels(steps: seq<Step>, waves: seq<seq<Step>>, level: map<string, nat>) {
    forall k: nat | k < |waves| :: waves[k] == AtLevel(steps, level, k) && waves[k] != []
  }

  /** `waves` groups the steps by a tight level: each wave holds one level, in plan order. */
  ghost predicate GroupsByLevel(steps: seq<Step>, waves: seq<seq<Step>>, level: map<string, nat>) {
    && Tight(GraphOf(steps), level)
    && (forall id | id in GraphOf(steps) :: level[id] < |waves|)
    && HoldLevels(steps, waves, level)
  }

  /** A pending step that was held back by the wave just scheduled, or by one still pending. */
  ghost predicate HeldBack(g: Graph, pending: set<string>, level: map<string, nat>, n: nat, a: string) {
    exists b :: Edge(g, a, b) && (b in pending || (b in level && level[b] + 1 == n))
  }

  /** What the loop has established about the steps it has scheduled so far. */
  ghost predicate Scheduled(g: Graph, pending: set<string>, level: map<string, nat>, n: nat) {
    && pending <= g.Keys && level.Keys == g.Keys - pending
    && (forall a | a in level :: level[a] < n)
    && (forall a, b | a in level && Edge(g, a, b) :: b in level && level[b] < level[a])
    && (forall a {:trigger HeldUp(g, level, a)} | a in level && level[a] > 0 :: HeldUp(g, level, a))
    && (n > 0 ==> forall a {:trigger HeldBack(g, pending, level, n, a)} | a in pending ::
      HeldBack(g, pending, level, n, a))
  }

  ghost function Assign(level: map<string, nat>, now: set<string>, n: nat): map<string, nat> {
    level + map a | a in now :: n
  }

  ghost predicate ReadyIds(g: Graph, pending: set<string>, now: set<string>) {
    && now <= pending
    && forall a | a in pending && a in g :: a in now <==> forall b | Edge(g, a, b) :: b !in pending
  }

  lemma ReadyInGraph(steps: seq<Step>, pending: set<string>)
    requires UniqueIds(steps) && pending <= GraphOf(steps).Keys
    ensures ReadyIds(GraphOf(steps), pending, Ids(Ready(steps, pending)))
    ensures forall s | s in steps :: IsReady(s, pending) <==> s.id in Ids(Ready(steps, pending))
  {
    var g := GraphOf(steps);
    GraphOfSteps(steps);
    ReadyMembers(steps, pending);
    forall s | s in steps && s.id in Ids(Ready(steps, pending)) ensures IsReady(s, pending) {
      var t :| t in Ready(steps, pending) && t.id == s.id;
    }
    forall a | a in pending ensures a in Ids(Ready(steps, pending)) <==> forall b | Edge(g, a, b) :: b !in pending {
      var s :| s in steps && s.id == a;
      assert forall i | 0 <= i < |s.dependsOn| :: s.dependsOn[i] in g[a];
    }
  }

  lemma HeldUpNext(g: Graph, pending: set<string>, level: map<string, nat>, n: nat, now: set<string>, a: string)
    requires Scheduled(g, pending, level, n) && ReadyIds(g, pending, now)
    requires a in Assign(level, now, n) && Assign(level, now, n)[a] > 0
    ensures HeldUp(g, Assign(level, now, n), a)
  {
    var level' := Assign(level, now, n);
    if a in now {
      assert HeldBack(g, pending, level, n, a);
      var b :| Edge(g, a, b) && (b in pending || (b in level && level[b] + 1 == n));
      assert level'[b] == level[b];
    } else {
      assert HeldUp(g, level, a);
      var b :| Edge(g, a, b) && b in level && level[b] + 1 == level[a];
      assert level'[b] == level[b];
    }
  }

  lemma HeldBackNext(g: Graph, pending: set<string>, level: map<string, nat>, n: nat, now: set<string>, a: string)
    requires Scheduled(g, pending, level, n) && ReadyIds(g, pending, now) && a in pending - now
    ensures HeldBack(g, pending - now, Assign(level, now, n), n + 1, a)
  {
    var b :| Edge(g, a, b) && b in pending;
    assert b in now ==> Assign(level, now, n)[b] == n;
  }

  lemma LayersNext(g: Graph, pending: set<string>, level: map<string, nat>, n: nat, now: set<string>, a: string,
                   b: string)
    requires Scheduled(g, pending, level, n) && ReadyIds(g, pending, now) && a in Assign(level, now, n) && Edge(g, a, b)
    ensures b in Assign(level, now, n) && Assign(level, now, n)[b] < Assign(level, now, n)[a]
  {
    if a in now { assert b !in pending; } else { assert b in level; }
  }

  lemma ScheduleWave(g: Graph, pending: set<string>, level: map<string, nat>, n: nat, now: set<string>)
    requires Scheduled(g, pending, level, n) && ReadyIds(g, pending, now)
    ensures Scheduled(g, pending - now, Assign(level, now, n), n + 1)
  {
    var pending', level' := pending - now, Assign(level, now, n);
    forall a, b | a in level' && Edge(g, a, b) ensures b in level' && level'[b] < level'[a] {
      LayersNext(g, pending, level, n, now, a, b);
    }
    forall a | a in level' && level'[a] > 0 ensures HeldUp(g, level', a) { HeldUpNext(g, pending, level, n, now, a); }
    forall a | a in pending' ensures HeldBack(g, pending', level', n + 1, a) {
      HeldBackNext(g, pending, level, n, now, a);
    }
  }

  ghost predicate Progress(steps: seq<Step>, pending: set<string>, waves: seq<seq<Step>>, level: map<string, nat>) {
    Scheduled(GraphOf(steps), pending, level, |waves|) && HoldLevels(steps, waves, level)
  }

  lemma ScheduleReady(steps: seq<Step>, pending: set<string>, level: map<string, nat>, n: nat)
    requires UniqueIds(steps) && Scheduled(GraphOf(steps), pending, level, n)
    ensures var now := Ids(Ready(steps, pending));
      level.Keys !! now && Scheduled(GraphOf(steps), pending - now, Assign(level, now, n), n + 1)
  {
    ReadyInGraph(steps, pending);
    ScheduleWave(GraphOf(steps), pending, level, n, Ids(Ready(steps, pending)));
  }

  lemma WaveIsLevel(steps: seq<Step>, pending: set<string>, level: map<string, nat>, level': map<string, nat>, n: nat)
    requires UniqueIds(steps) && Scheduled(GraphOf(steps), pending, level, n)
    requires level' == Assign(level, Ids(Ready(steps, pending)), n)
    ensures Ready(steps, pending) == AtLevel(steps, level', n)
  {
    GraphOfSteps(steps);
    ReadyInGraph(steps, pending);
    ReadyIsLevel(steps, pending, level', n);
  }

  lemma EarlierWaves(steps: seq<Step>, waves: seq<seq<Step>>, level: map<string, nat>, now: set<string>)
    requires HoldLevels(steps, waves, level) && level.Keys !! now
    ensures HoldLevels(steps, waves, Assign(level, now, |waves|))
  {
    forall k: nat | k < |waves| ensures waves[k] == AtLevel(steps, Assign(level, now, |waves|), k) {
      LevelFrame(steps, level, Assign(level, now, |waves|), k);
    }
  }

  lemma HoldNext(steps: seq<Step>, waves: seq<seq<Step>>, level: map<string, nat>, wave: seq<Step>)
    requires HoldLevels(steps, waves, level) && wave == AtLevel(steps, level, |waves|) && wave != []
    ensures HoldLevels(steps, waves + [wave], level)
  {
  }

  lemma NextWave(steps: seq<Step>, pending: set<string>, waves: seq<seq<Step>>, level: map<string, nat>)
    requires UniqueIds(steps) && Progress(steps, pending, waves, level) && Ready(steps, pending) != []
    ensures var wave := Ready(steps, pending);
      Progress(steps, pending - Ids(wave), waves + [wave], Assign(level, Ids(wave), |waves|))
  {
    var wave := Ready(steps, pending);
    ScheduleReady(steps, pending, level, |waves|);
    EarlierWaves(steps, waves, level, Ids(wave));
    WaveIsLevel(steps, pending, level, Assign(level, Ids(wave), |waves|), |waves|);
    HoldNext(steps, waves, Assign(level, Ids(wave), |waves|), wave);
  }

  lemma NothingReady(steps: seq<Step>, pending: set<string>)
    requires UniqueIds(steps) && pending != {} && pending <= GraphOf(steps).Keys && Ready(steps, pending) == []
    ensures Cyclic(GraphOf(steps))
  {
    var g := GraphOf(steps);
    ReadyInGraph(steps, pending);
    forall a | a in pending ensures WaitsOn(g, pending, a) {
      var b :| Edge(g, a, b) && b in pending;
    }
    StuckIsCyclic(g, pending);
  }

  /** Drains the pending ids wave by wave. It stops with no result exactly on a cyclic plan, and
      otherwise groups the steps by their tight level. */
  method GroupIntoWaves(steps: seq<Step>) returns (waves: Option<seq<seq<Step>>>, ghost level: map<string, nat>)
    ensures UniqueIds(steps) ==> (waves.None? <==> Cyclic(GraphOf(steps)))
    ensures UniqueIds(steps) && waves.Some? ==> GroupsByLevel(steps, waves.value, level)
    ensures steps == [] ==> waves.Some?
    ensures waves.Some? ==> forall k | 0 <= k < |waves.value| :: waves.value[k] != []
  {
    GraphOfSteps(steps);
    var pending := Ids(steps);
    var scheduled: seq<seq<Step>> := [];
    level := map[];
    while pending != {}
      invariant pending <= Ids(steps) && forall k | 0 <= k < |scheduled| :: scheduled[k] != []
      invariant UniqueIds(steps) ==> Progress(steps, pending, scheduled, level)
      decreases pending
    {
      var wave := Ready(steps, pending);
      ReadyMembers(steps, pending);
      if wave == [] {
        if UniqueIds(steps) { NothingReady(steps, pending); }
        return None, level;
      }
      assert wave[0] in wave && wave[0].id in Ids(wave);
      if UniqueIds(steps) { NextWave(steps, pending, scheduled, level); }
      level := Assign(level, Ids(wave), |scheduled|);
      pending, scheduled := pending - Ids(wave), scheduled + [wave];
    }
    if UniqueIds(steps) { LayeringIsAcyclic(GraphOf(steps), level); }
    waves := Some(scheduled);
  }

  function Flatten(waves: seq<seq<Step>>): seq<Step> {
    if waves == [] then [] else Flatten(waves[..|waves| - 1]) + waves[|waves| - 1]
  }

  ghost function UpToLevel(steps: seq<Step>, level: map<string, nat>, n: nat): seq<Step> {
    if n == 0 then [] else UpToLevel(steps, level, n - 1) + AtLevel(steps, level, n - 1)
  }

  lemma {:induction false} AtLevelCount(steps: seq<Step>, level: map<string, nat>, k: nat, s: Step)
    ensures multiset(AtLevel(steps, level, k))[s] == if s.id in level && level[s.id] == k then multiset(steps)[s] else 0
  {
    if steps != [] {
      AtLevelCount(steps[1..], level, k, s);
      assert steps == [steps[0]] + steps[1..];
    }
  }

  lemma {:induction false} UpToLevelCount(steps: seq<Step>, level: map<string, nat>, n: nat, s: Step)
    ensures multiset(UpToLevel(steps, level, n))[s] ==
      if s.id in level && level[s.id] < n then multiset(steps)[s] else 0
  {
    if n > 0 {
      UpToLevelCount(steps, level, n - 1, s);
      AtLevelCount(steps, level, n - 1, s);
      CountBoth(UpToLevel(steps, level, n - 1), AtLevel(steps, level, n - 1), s);
    }
  }

  lemma CountBoth(a: seq<Step>, b: seq<Step>, s: Step)
    ensures multiset(a + b)[s] == multiset(a)[s] + multiset(b)[s]
  {
  }

  lemma UpToLevelIsAll(steps: seq<Step>, level: map<string, nat>, n: nat)
    requires forall s | s in steps :: s.id in level && level[s.id] < n
    ensures multiset(UpToLevel(steps, level, n)) == multiset(steps)
  {
    forall s ensures multiset(UpToLevel(steps, level, n))[s] == multiset(steps)[s] {
      UpToLevelCount(steps, level, n, s);
    }
  }

  lemma {:induction false} FlattenLevels(steps: seq<Step>, waves: seq<seq<Step>>, level: map<string, nat>)
    requires HoldLevels(steps, waves, level)
    ensures Flatten(waves) == UpToLevel(steps, level, |waves|)
  {
    if waves != [] {
      FlattenLevels(steps, waves[..|waves| - 1], level);
    }
  }

  /** The waves hold every step of the plan once and nothing else. */
  lemma WavesPartition(steps: seq<Step>, waves: seq<seq<Step>>, level: map<string, nat>)
    requires UniqueIds(steps) && GroupsByLevel(steps, waves, level)
    ensures multiset(Flatten(waves)) == multiset(steps)
  {
    GraphOfSteps(steps);
    FlattenLevels(steps, waves, level);
    UpToLevelIsAll(steps, level, |waves|);
  }

  /** A step's wave number is the length of the longest chain of in-list dependencies below it. */
  lemma WaveNumber(steps: seq<Step>, waves: seq<seq<Step>>, level: map<string, nat>, k: nat, s: Step)
    requires UniqueIds(steps) && GroupsByLevel(steps, waves, level) && k < |waves| && s in waves[k]
    ensures exists path :: Chain(GraphOf(steps), path) && path[0] == s.id && |path| == k + 1
    ensures forall path | Chain(GraphOf(steps), path) && path[0] == s.id :: |path| <= k + 1
  {
    GraphOfSteps(steps);
    LevelMembers(steps, level, k);
    var path := LongestChain(GraphOf(steps), level, s.id);
  }

  /** No layering of the plan gets by with fewer waves. */
  lemma FewestWaves(steps: seq<Step>, waves: seq<seq<Step>>, level: map<string, nat>, other: map<string, nat>)
    requires UniqueIds(steps) && GroupsByLevel(steps, waves, level) && Layering(GraphOf(steps), other)
    ensures waves != [] ==> exists id :: id in GraphOf(steps) && other[id] >= |waves| - 1
  {
    if waves != [] {
      var k := |waves| - 1;
      var s := waves[k][0];
      GraphOfSteps(steps);
      LevelMembers(steps, level, k);
      assert s in waves[k];
      TightIsLowest(GraphOf(steps), level, other, s.id);
    }
  }
}
