/** Validation of a proposed plan against the capability catalog. */
module PlanValidator {
  import opened CycleSearch
  import opened DependencyGraph
  import opened DependencyWaves
  import opened Prelude
  import opened StepReferences

  /** One catalog entry: whether it changes state, the outputs it declares, and its argument
      schema, which accepts and normalizes arguments or refuses them. */
  datatype Capability = Capability(mutating: bool, outputs: seq<string>, parse: seq<Field> -> Option<seq<Field>>)

  type Catalog = map<string, Capability>

  datatype DiagnosticCode =
    | UnknownCapability
    | InvalidArgs
    | DuplicateStepId
    | UnknownDependency(dependency: string)
    | UnknownReference(ref: StepReference)
    | DependencyCycle

  datatype Diagnostic = Diagnostic(stepId: string, code: DiagnosticCode)

  datatype Validation = Validation(ok: bool, mutatingStepCount: nat, steps: seq<Step>, diagnostics: seq<Diagnostic>)

  /** The first plan step with the id, as Array.prototype.find returns it. */
  function FindStep(plan: seq<Step>, id: string): (r: Option<Step>)
    ensures r.Some? ==> r.value in plan && r.value.id == id
    ensures r.None? <==> id !in Ids(plan)
  {
    if plan == [] then None
    else if plan[0].id == id then Some(plan[0])
    else
      assert Ids(plan) == {plan[0].id} + Ids(plan[1..]) by { assert plan == [plan[0]] + plan[1..]; }
      FindStep(plan[1..], id)
  }

  predicate Resolves(plan: seq<Step>, catalog: Catalog, ref: StepReference) {
    var producer := FindStep(plan, ref.stepId);
    producer.Some? && producer.value.capability in catalog && ref.output in catalog[producer.value.capability].outputs
  }

  function Dedupe(s: seq<string>): (r: seq<string>)
    ensures forall x :: x in r <==> x in s
    ensures forall i, j | 0 <= i < j < |r| :: r[i] != r[j]
  {
    if s == [] then []
    else
      var r := Dedupe(s[..|s| - 1]);
      assert s == s[..|s| - 1] + [s[|s| - 1]];
      if s[|s| - 1] in r then r else r + [s[|s| - 1]]
  }

  /** What the validator makes of one step on its own: the normalized step, when the capability is
      known and accepts the arguments. */
  ghost predicate Normalized(plan: seq<Step>, catalog: Catalog, raw: Step, step: Step) {
    && raw.capability in catalog && step.id == raw.id && step.capability == raw.capability
    && catalog[raw.capability].parse(raw.args) == Some(step.args)
    && forall d :: d in step.dependsOn <==>
      d in raw.dependsOn || exists ref ::
        OccursInFields(ref, step.args) && ref.stepId == d && Resolves(plan, catalog, ref)
  }

  ghost predicate Sound(plan: seq<Step>, catalog: Catalog, raw: Step) {
    && raw.capability in catalog
    && var parsed := catalog[raw.capability].parse(raw.args);
      parsed.Some? && forall ref | OccursInFields(ref, parsed.value) :: Resolves(plan, catalog, ref)
  }

  /** Whether a diagnostic tells the truth about the plan. */
  ghost predicate Justified(plan: seq<Step>, catalog: Catalog, steps: seq<Step>, d: Diagnostic) {
    match d.code
    case DuplicateStepId => exists i, j :: 0 <= i < j < |plan| && plan[i].id == plan[j].id == d.stepId
    case UnknownCapability => exists raw :: raw in plan && raw.id == d.stepId && raw.capability !in catalog
    case InvalidArgs => exists raw :: (raw in plan && raw.id == d.stepId && raw.capability in catalog
                                       && catalog[raw.capability].parse(raw.args).None?)
    case UnknownReference(ref) =>
      !Resolves(plan, catalog, ref) && exists s :: s in steps && s.id == d.stepId && OccursInFields(ref, s.args)
    case UnknownDependency(dep) =>
      dep !in Ids(plan) && exists s :: s in steps && s.id == d.stepId && dep in s.dependsOn
    case DependencyCycle => OnCycle(GraphOf(steps), d.stepId)
  }

  method CheckReferences(plan: seq<Step>, catalog: Catalog, stepId: string, refs: seq<StepReference>)
      returns (unresolved: seq<Diagnostic>, producers: seq<string>)
    ensures forall id | id in producers :: exists ref :: ref in refs && ref.stepId == id && Resolves(plan, catalog, ref)
    ensures forall ref | ref in refs && Resolves(plan, catalog, ref) :: ref.stepId in producers
    ensures forall ref | ref in refs && !Resolves(plan, catalog, ref) ::
      Diagnostic(stepId, UnknownReference(ref)) in unresolved
    ensures forall d | d in unresolved :: exists ref ::
      ref in refs && !Resolves(plan, catalog, ref) && d == Diagnostic(stepId, UnknownReference(ref))
  {
    unresolved, producers := [], [];
    for i := 0 to |refs|
      invariant forall id | id in producers :: exists ref ::
        ref in refs && ref.stepId == id && Resolves(plan, catalog, ref)
      invariant forall k | 0 <= k < i && Resolves(plan, catalog, refs[k]) :: refs[k].stepId in producers
      invariant forall k | 0 <= k < i && !Resolves(plan, catalog, refs[k]) ::
        Diagnostic(stepId, UnknownReference(refs[k])) in unresolved
      invariant forall d | d in unresolved :: exists ref ::
        ref in refs && !Resolves(plan, catalog, ref) && d == Diagnostic(stepId, UnknownReference(ref))
    {
      var ref := refs[i];
      var producer := FindStep(plan, ref.stepId);
      if producer.None? {
        unresolved := unresolved + [Diagnostic(stepId, UnknownReference(ref))];
      } else if producer.value.capability !in catalog || ref.output !in catalog[producer.value.capability].outputs {
        unresolved := unresolved + [Diagnostic(stepId, UnknownReference(ref))];
      } else {
        producers := producers + [ref.stepId];
      }
    }
  }

  /** Splits a step's dependencies into unknown ones and edges of the graph. */
  method SplitDependencies(step: Step, declared: set<string>, resolved: set<string>)
      returns (unknown: seq<Diagnostic>, edges: seq<string>)
    requires resolved <= declared
    ensures EdgesFor(step, edges, resolved)
    ensures forall dep | dep in step.dependsOn && dep !in declared ::
      Diagnostic(step.id, UnknownDependency(dep)) in unknown
    ensures forall d | d in unknown :: exists dep ::
      dep in step.dependsOn && dep !in declared && d == Diagnostic(step.id, UnknownDependency(dep))
  {
    unknown, edges := [], [];
    for i := 0 to |step.dependsOn|
      invariant forall b :: b in edges <==> b in step.dependsOn[..i] && b in resolved
      invariant forall k | 0 <= k < i && step.dependsOn[k] !in declared ::
        Diagnostic(step.id, UnknownDependency(step.dependsOn[k])) in unknown
      invariant forall d | d in unknown :: exists dep ::
        dep in step.dependsOn && dep !in declared && d == Diagnostic(step.id, UnknownDependency(dep))
    {
      var dep := step.dependsOn[i];
      assert step.dependsOn[..i + 1] == step.dependsOn[..i] + [dep];
      if dep !in declared {
        unknown := unknown + [Diagnostic(step.id, UnknownDependency(dep))];
      } else if dep in resolved {
        edges := edges + [dep];
      }
    }
    assert step.dependsOn[..|step.dependsOn|] == step.dependsOn;
  }

  ghost predicate EdgesFor(step: Step, edges: seq<string>, resolved: set<string>) {
    forall b :: b in edges <==> b in step.dependsOn && b in resolved
  }

  ghost predicate AdjacencyOf(steps: seq<Step>, adjacency: Graph, resolved: set<string>) {
    && adjacency.Keys == Ids(steps)
    && forall k | 0 <= k < |steps| :: steps[k].id in adjacency && EdgesFor(steps[k], adjacency[steps[k].id], resolved)
  }

  lemma AdjacencyGrows(steps: seq<Step>, i: nat, adjacency: Graph, resolved: set<string>, edges: seq<string>)
    requires UniqueIds(steps) && i < |steps| && AdjacencyOf(steps[..i], adjacency, resolved)
    requires EdgesFor(steps[i], edges, resolved)
    ensures AdjacencyOf(steps[..i + 1], adjacency[steps[i].id := edges], resolved)
  {
    assert steps[..i + 1] == steps[..i] + [steps[i]];
    assert forall k | 0 <= k < i :: steps[..i][k].id != steps[i].id;
  }

  ghost predicate AllReported(plan: seq<Step>, steps: seq<Step>, unknown: seq<Diagnostic>) {
    forall s, dep | s in steps && dep in s.dependsOn && dep !in Ids(plan) ::
      Diagnostic(s.id, UnknownDependency(dep)) in unknown
  }

  lemma ReportsGrow(plan: seq<Step>, steps: seq<Step>, i: nat, unknown: seq<Diagnostic>, more: seq<Diagnostic>)
    requires i < |steps| && AllReported(plan, steps[..i], unknown)
    requires forall dep | dep in steps[i].dependsOn && dep !in Ids(plan) ::
      Diagnostic(steps[i].id, UnknownDependency(dep)) in more
    ensures AllReported(plan, steps[..i + 1], unknown + more)
  {
    assert steps[..i + 1] == steps[..i] + [steps[i]];
  }

  /** The loop over the validated steps. */
  method BuildAdjacency(plan: seq<Step>, steps: seq<Step>) returns (unknown: seq<Diagnostic>, adjacency: Graph)
    requires UniqueIds(steps) && Ids(steps) <= Ids(plan)
    ensures AdjacencyOf(steps, adjacency, Ids(steps)) && AllReported(plan, steps, unknown)
    ensures forall d | d in unknown :: d.code.UnknownDependency? && Justified(plan, map[], steps, d)
  {
    unknown, adjacency := [], map[];
    for i := 0 to |steps|
      invariant AdjacencyOf(steps[..i], adjacency, Ids(steps))
      invariant AllReported(plan, steps[..i], unknown)
      invariant forall d | d in unknown :: d.code.UnknownDependency? && Justified(plan, map[], steps, d)
    {
      var more, edges := SplitDependencies(steps[i], Ids(plan), Ids(steps));
      AdjacencyGrows(steps, i, adjacency, Ids(steps), edges);
      ReportsGrow(plan, steps, i, unknown, more);
      unknown, adjacency := unknown + more, adjacency[steps[i].id := edges];
    }
    assert steps[..|steps|] == steps;
  }

  /** Reports every dependency on an undeclared step, then a step on a cycle if there is a cycle. */
  method CheckDependencies(plan: seq<Step>, steps: seq<Step>) returns (unknown: seq<Diagnostic>, cycle: Option<string>)
    requires UniqueIds(steps) && Ids(steps) <= Ids(plan)
    ensures AllReported(plan, steps, unknown)
    ensures forall d | d in unknown :: d.code.UnknownDependency? && Justified(plan, map[], steps, d)
    ensures cycle.Some? <==> Cyclic(GraphOf(steps))
    ensures cycle.Some? ==> OnCycle(GraphOf(steps), cycle.value)
  {
    var adjacency: Graph;
    unknown, adjacency := BuildAdjacency(plan, steps);
    var order := seq(|steps|, i requires 0 <= i < |steps| => steps[i].id);
    SameGraph(steps, adjacency, order);
    cycle := FindCycle(adjacency, order);
  }

  lemma OrderOfIds(steps: seq<Step>, order: seq<string>)
    requires |order| == |steps| && forall i | 0 <= i < |steps| :: order[i] == steps[i].id
    ensures forall id :: id in Ids(steps) <==> id in order
  {
    forall id | id in Ids(steps) ensures id in order {
      var s :| s in steps && s.id == id;
      var k :| 0 <= k < |steps| && steps[k] == s;
      assert order[k] == id;
    }
  }

  lemma EdgesAgree(steps: seq<Step>, adjacency: Graph, a: string, b: string)
    requires UniqueIds(steps) && AdjacencyOf(steps, adjacency, Ids(steps)) && a in adjacency
    ensures b in adjacency[a] ==> b in adjacency
    ensures b in adjacency[a] <==> Edge(GraphOf(steps), a, b)
  {
    GraphOfSteps(steps);
    var s :| s in steps && s.id == a;
    var k :| 0 <= k < |steps| && steps[k] == s;
    assert EdgesFor(steps[k], adjacency[a], Ids(steps));
  }

  lemma SameGraph(steps: seq<Step>, adjacency: Graph, order: seq<string>)
    requires UniqueIds(steps) && AdjacencyOf(steps, adjacency, Ids(steps))
    requires |order| == |steps| && forall i | 0 <= i < |steps| :: order[i] == steps[i].id
    ensures ClosedGraph(adjacency) && (forall id :: id in adjacency <==> id in order)
    ensures Cyclic(adjacency) <==> Cyclic(GraphOf(steps))
    ensures forall id :: OnCycle(adjacency, id) <==> OnCycle(GraphOf(steps), id)
  {
    OrderOfIds(steps, order);
    GraphOfSteps(steps);
    forall a, b | a in adjacency
      ensures (b in adjacency[a] ==> b in adjacency) && (b in adjacency[a] <==> Edge(GraphOf(steps), a, b))
    {
      EdgesAgree(steps, adjacency, a, b);
    }
    SameEdges(adjacency, GraphOf(steps));
  }

  /** A diagnostic about one step that is not a duplicate. */
  ghost predicate AboutStep(plan: seq<Step>, catalog: Catalog, raw: Step, step: Option<Step>, d: Diagnostic) {
    && d.stepId == raw.id
    && match d.code
      case UnknownCapability => raw.capability !in catalog
      case InvalidArgs => raw.capability in catalog && catalog[raw.capability].parse(raw.args).None?
      case UnknownReference(ref) => !Resolves(plan, catalog, ref) && step.Some? && OccursInFields(ref, step.value.args)
      case _ => false
  }

  predicate Recognized(catalog: Catalog, raw: Step) {
    raw.capability in catalog && catalog[raw.capability].parse(raw.args).Some?
  }

  /** Everything wrong with a step on its own is reported. */
  ghost predicate StepReported(plan: seq<Step>, catalog: Catalog, raw: Step, diagnostics: seq<Diagnostic>) {
    && (raw.capability !in catalog ==> Diagnostic(raw.id, UnknownCapability) in diagnostics)
    && (raw.capability in catalog && !Recognized(catalog, raw) ==> Diagnostic(raw.id, InvalidArgs) in diagnostics)
    && (Recognized(catalog, raw) ==> forall ref | OccursInFields(ref, catalog[raw.capability].parse(raw.args).value)
                                                  && !Resolves(plan, catalog, ref) ::
          Diagnostic(raw.id, UnknownReference(ref)) in diagnostics)
  }

  method CheckStep(plan: seq<Step>, catalog: Catalog, raw: Step) returns (step: Option<Step>, problems: seq<Diagnostic>)
    ensures step.Some? <==> Recognized(catalog, raw)
    ensures step.Some? ==> Normalized(plan, catalog, raw, step.value)
    ensures step.None? ==> problems != []
    ensures problems == [] <==> Sound(plan, catalog, raw)
    ensures StepReported(plan, catalog, raw, problems)
    ensures forall d | d in problems :: AboutStep(plan, catalog, raw, step, d)
  {
    if raw.capability !in catalog {
      return None, [Diagnostic(raw.id, UnknownCapability)];
    }
    var args := catalog[raw.capability].parse(raw.args);
    if args.None? {
      return None, [Diagnostic(raw.id, InvalidArgs)];
    }
    var refs := CollectFields(args.value);
    var unresolved, producers := CheckReferences(plan, catalog, raw.id, refs);
    var accepted := Step(raw.id, raw.capability, args.value, Dedupe(raw.dependsOn + producers));
    ReferencesAreDependencies(plan, catalog, raw, args.value, producers);
    forall ref ensures ref in refs <==> OccursInFields(ref, args.value) { CollectFieldsExact(args.value, ref); }
    if unresolved != [] { assert unresolved[0] in unresolved; }
    step, problems := Some(accepted), unresolved;
  }

  lemma ReferencesAreDependencies(plan: seq<Step>, catalog: Catalog, raw: Step, args: seq<Field>,
                                  producers: seq<string>)
    requires raw.capability in catalog && catalog[raw.capability].parse(raw.args) == Some(args)
    requires forall id | id in producers ::
      exists ref :: ref in CollectFields(args) && ref.stepId == id && Resolves(plan, catalog, ref)
    requires forall ref | ref in CollectFields(args) && Resolves(plan, catalog, ref) :: ref.stepId in producers
    ensures Normalized(plan, catalog, raw, Step(raw.id, raw.capability, args, Dedupe(raw.dependsOn + producers)))
  {
    forall ref ensures ref in CollectFields(args) <==> OccursInFields(ref, args) { CollectFieldsExact(args, ref); }
  }

  /** Every step is on its own acceptable and no two share an id. */
  ghost predicate Clean(plan: seq<Step>, catalog: Catalog, raws: seq<Step>) {
    UniqueIds(raws) && forall k | 0 <= k < |raws| :: Sound(plan, catalog, raws[k])
  }

  ghost predicate Pointwise(plan: seq<Step>, catalog: Catalog, raws: seq<Step>, steps: seq<Step>) {
    |raws| == |steps| && forall k | 0 <= k < |raws| :: Normalized(plan, catalog, raws[k], steps[k])
  }

  ghost predicate AllJustified(plan: seq<Step>, catalog: Catalog, steps: seq<Step>, diagnostics: seq<Diagnostic>) {
    forall d | d in diagnostics :: !d.code.DependencyCycle? && Justified(plan, catalog, steps, d)
  }

  /** The steps that reach the dependency check: the first of each id, if it is recognized. */
  ghost function Survivors(catalog: Catalog, raws: seq<Step>): seq<Step> {
    if raws == [] then []
    else
      var n := |raws| - 1;
      var before := Survivors(catalog, raws[..n]);
      if raws[n].id !in Ids(raws[..n]) && Recognized(catalog, raws[n]) then before + [raws[n]] else before
  }

  /** Everything wrong with the step at k is reported. */
  ghost predicate ReportedAt(plan: seq<Step>, catalog: Catalog, k: nat, diagnostics: seq<Diagnostic>)
    requires k < |plan|
  {
    if plan[k].id in Ids(plan[..k]) then Diagnostic(plan[k].id, DuplicateStepId) in diagnostics
    else StepReported(plan, catalog, plan[k], diagnostics)
  }

  ghost predicate Reported(plan: seq<Step>, catalog: Catalog, n: nat, diagnostics: seq<Diagnostic>) {
    n <= |plan| && forall k: nat {:trigger ReportedAt(plan, catalog, k, diagnostics)} | k < n ::
      ReportedAt(plan, catalog, k, diagnostics)
  }

  /** What the loop over the first `raws` steps of the plan has established. */
  ghost predicate Checked(plan: seq<Step>, catalog: Catalog, raws: seq<Step>, steps: seq<Step>,
                          diagnostics: seq<Diagnostic>) {
    && UniqueIds(steps) && Ids(steps) <= Ids(raws)
    && (diagnostics == [] <==> Clean(plan, catalog, raws))
    && Pointwise(plan, catalog, Survivors(catalog, raws), steps)
    && AllJustified(plan, catalog, steps, diagnostics)
    && Reported(plan, catalog, |raws|, diagnostics)
  }

  lemma ReportStays(plan: seq<Step>, catalog: Catalog, n: nat, diagnostics: seq<Diagnostic>, more: seq<Diagnostic>)
    requires Reported(plan, catalog, n, diagnostics)
    ensures Reported(plan, catalog, n, diagnostics + more)
  {
    forall k: nat | k < n ensures ReportedAt(plan, catalog, k, diagnostics + more) {
      assert ReportedAt(plan, catalog, k, diagnostics);
    }
  }

  lemma ReportGrows(plan: seq<Step>, catalog: Catalog, n: nat, diagnostics: seq<Diagnostic>, more: seq<Diagnostic>)
    requires n < |plan| && Reported(plan, catalog, n, diagnostics)
    requires if plan[n].id in Ids(plan[..n]) then Diagnostic(plan[n].id, DuplicateStepId) in more
      else StepReported(plan, catalog, plan[n], more)
    ensures Reported(plan, catalog, n + 1, diagnostics + more)
  {
    ReportStays(plan, catalog, n, diagnostics, more);
    assert ReportedAt(plan, catalog, n, diagnostics + more);
  }

  lemma {:induction false} CleanSurvive(plan: seq<Step>, catalog: Catalog, raws: seq<Step>)
    requires Clean(plan, catalog, raws)
    ensures Survivors(catalog, raws) == raws
  {
    if raws != [] {
      var n := |raws| - 1;
      assert raws == raws[..n] + [raws[n]];
      CleanSurvive(plan, catalog, raws[..n]);
    }
  }

  lemma SurvivorsStep(catalog: Catalog, plan: seq<Step>, i: nat)
    requires i < |plan|
    ensures Survivors(catalog, plan[..i + 1]) ==
      if plan[i].id !in Ids(plan[..i]) && Recognized(catalog, plan[i]) then Survivors(catalog, plan[..i]) + [plan[i]]
      else Survivors(catalog, plan[..i])
  {
    assert plan[..i + 1][..i] == plan[..i];
  }

  lemma PointwiseStep(plan: seq<Step>, catalog: Catalog, raws: seq<Step>, steps: seq<Step>, raw: Step, step: Step)
    requires Pointwise(plan, catalog, raws, steps) && Normalized(plan, catalog, raw, step)
    ensures Pointwise(plan, catalog, raws + [raw], steps + [step])
  {
  }

  lemma JustifiedStays(plan: seq<Step>, catalog: Catalog, steps: seq<Step>, diagnostics: seq<Diagnostic>,
                       more: seq<Step>)
    requires AllJustified(plan, catalog, steps, diagnostics)
    ensures AllJustified(plan, catalog, steps + more, diagnostics)
  {
  }

  lemma DuplicateSeen(plan: seq<Step>, catalog: Catalog, i: nat, steps: seq<Step>, diagnostics: seq<Diagnostic>)
    requires i < |plan| && Checked(plan, catalog, plan[..i], steps, diagnostics) && plan[i].id in Ids(plan[..i])
    ensures Checked(plan, catalog, plan[..i + 1], steps, diagnostics + [Diagnostic(plan[i].id, DuplicateStepId)])
  {
    assert plan[..i + 1] == plan[..i] + [plan[i]];
    SurvivorsStep(catalog, plan, i);
    ReportGrows(plan, catalog, i, diagnostics, [Diagnostic(plan[i].id, DuplicateStepId)]);
    var s :| s in plan[..i] && s.id == plan[i].id;
    var j :| 0 <= j < i && plan[j] == s;
    assert !UniqueIds(plan[..i + 1]) by { assert plan[..i + 1][j].id == plan[..i + 1][i].id; }
    assert Justified(plan, catalog, steps, Diagnostic(plan[i].id, DuplicateStepId));
  }

  lemma CleanGrows(plan: seq<Step>, catalog: Catalog, i: nat)
    requires i < |plan| && plan[i].id !in Ids(plan[..i])
    ensures Clean(plan, catalog, plan[..i + 1]) <==> Clean(plan, catalog, plan[..i]) && Sound(plan, catalog, plan[i])
  {
    var a, b := plan[..i], plan[..i + 1];
    assert b == a + [plan[i]];
    assert forall k | 0 <= k < i :: a[k] == b[k] && a[k] in a;
    if Clean(plan, catalog, b) { assert b[i] == plan[i]; }
  }

  lemma FreshIds(plan: seq<Step>, i: nat, steps: seq<Step>, step: Step)
    requires i < |plan| && UniqueIds(steps) && Ids(steps) <= Ids(plan[..i])
    requires step.id == plan[i].id && plan[i].id !in Ids(plan[..i])
    ensures UniqueIds(steps + [step]) && Ids(steps + [step]) <= Ids(plan[..i + 1])
  {
    assert plan[..i + 1] == plan[..i] + [plan[i]];
    assert Ids(steps + [step]) <= Ids(steps) + {step.id};
    forall k | 0 <= k < |steps| ensures steps[k].id != step.id { assert steps[k] in steps; }
  }

  lemma FreshJustified(plan: seq<Step>, catalog: Catalog, raw: Step, steps: seq<Step>, step: Option<Step>,
                       problems: seq<Diagnostic>)
    requires raw in plan && (step.Some? ==> step.value in steps && step.value.id == raw.id)
    requires forall d | d in problems :: AboutStep(plan, catalog, raw, step, d)
    ensures AllJustified(plan, catalog, steps, problems)
  {
  }

  lemma JustifiedTogether(plan: seq<Step>, catalog: Catalog, steps: seq<Step>, a: seq<Diagnostic>, b: seq<Diagnostic>)
    requires AllJustified(plan, catalog, steps, a) && AllJustified(plan, catalog, steps, b)
    ensures AllJustified(plan, catalog, steps, a + b)
  {
  }

  lemma FreshChecked(plan: seq<Step>, catalog: Catalog, i: nat, steps: seq<Step>, diagnostics: seq<Diagnostic>,
                     step: Option<Step>, problems: seq<Diagnostic>)
    requires i < |plan| && Checked(plan, catalog, plan[..i], steps, diagnostics) && plan[i].id !in Ids(plan[..i])
    requires step.Some? <==> Recognized(catalog, plan[i])
    requires step.Some? ==> Normalized(plan, catalog, plan[i], step.value)
    requires step.None? ==> problems != []
    requires StepReported(plan, catalog, plan[i], problems)
    requires problems == [] <==> Sound(plan, catalog, plan[i])
    requires forall d | d in problems :: AboutStep(plan, catalog, plan[i], step, d)
    ensures Checked(plan, catalog, plan[..i + 1], steps + (if step.Some? then [step.value] else []),
                    diagnostics + problems)
  {
    var more := if step.Some? then [step.value] else [];
    CleanGrows(plan, catalog, i);
    SurvivorsStep(catalog, plan, i);
    ReportGrows(plan, catalog, i, diagnostics, problems);
    JustifiedStays(plan, catalog, steps, diagnostics, more);
    if step.Some? {
      FreshIds(plan, i, steps, step.value);
      PointwiseStep(plan, catalog, Survivors(catalog, plan[..i]), steps, plan[i], step.value);
      assert step.value in steps + more;
    } else {
      IdsGrow(plan, i);
      assert steps + more == steps;
    }
    FreshJustified(plan, catalog, plan[i], steps + more, step, problems);
    JustifiedTogether(plan, catalog, steps + more, diagnostics, problems);
  }

  lemma IdsGrow(plan: seq<Step>, i: nat)
    requires i < |plan|
    ensures Ids(plan[..i + 1]) == Ids(plan[..i]) + {plan[i].id}
  {
    assert plan[..i + 1] == plan[..i] + [plan[i]];
  }

  function CountMutating(steps: seq<Step>, catalog: Catalog): nat {
    if steps == [] then 0
    else
      var mutating := steps[0].capability in catalog && catalog[steps[0].capability].mutating;
      (if mutating then 1 else 0) + CountMutating(steps[1..], catalog)
  }

  ghost predicate DependenciesKnown(plan: seq<Step>, steps: seq<Step>) {
    forall s, dep | s in steps && dep in s.dependsOn :: dep in Ids(plan)
  }

  /** The loop over the proposed steps: each is checked once, a repeated id is reported. */
  method CheckSteps(plan: seq<Step>, catalog: Catalog) returns (steps: seq<Step>, diagnostics: seq<Diagnostic>)
    ensures Checked(plan, catalog, plan, steps, diagnostics)
  {
    diagnostics, steps := [], [];
    var seen: set<string> := {};
    for i := 0 to |plan|
      invariant seen == Ids(plan[..i]) && Checked(plan, catalog, plan[..i], steps, diagnostics)
    {
      var raw := plan[i];
      IdsGrow(plan, i);
      if raw.id in seen {
        DuplicateSeen(plan, catalog, i, steps, diagnostics);
        diagnostics := diagnostics + [Diagnostic(raw.id, DuplicateStepId)];
      } else {
        seen := seen + {raw.id};
        var step, problems := CheckStep(plan, catalog, raw);
        FreshChecked(plan, catalog, i, steps, diagnostics, step, problems);
        steps := steps + (if step.Some? then [step.value] else []);
        diagnostics := diagnostics + problems;
      }
    }
    assert plan[..|plan|] == plan;
  }

  function CycleReport(unknown: seq<Diagnostic>, cycle: Option<string>): seq<Diagnostic> {
    if cycle.Some? then unknown + [Diagnostic(cycle.value, DependencyCycle)] else unknown
  }

  lemma AllTrue(plan: seq<Step>, catalog: Catalog, steps: seq<Step>, diagnostics: seq<Diagnostic>,
                unknown: seq<Diagnostic>, cycle: Option<string>)
    requires AllJustified(plan, catalog, steps, diagnostics)
    requires forall d | d in unknown :: d.code.UnknownDependency? && Justified(plan, map[], steps, d)
    requires cycle.Some? ==> OnCycle(GraphOf(steps), cycle.value)
    ensures var all := diagnostics + CycleReport(unknown, cycle);
      && (forall d | d in all :: Justified(plan, catalog, steps, d))
      && ((exists d :: d in all && d.code.DependencyCycle?) <==> cycle.Some?)
  {
    var all := diagnostics + CycleReport(unknown, cycle);
    if cycle.Some? { assert Diagnostic(cycle.value, DependencyCycle) in all; }
    forall d | d in all ensures Justified(plan, catalog, steps, d) && (d.code.DependencyCycle? ==> cycle.Some?) {
      assert d in diagnostics || d in unknown || cycle.Some?;
    }
  }

  lemma UnknownsReported(plan: seq<Step>, steps: seq<Step>, diagnostics: seq<Diagnostic>, unknown: seq<Diagnostic>,
                         cycle: Option<string>)
    requires AllReported(plan, steps, unknown)
    ensures AllReported(plan, steps, diagnostics + CycleReport(unknown, cycle))
  {
  }

  lemma NothingUnknown(plan: seq<Step>, steps: seq<Step>, unknown: seq<Diagnostic>)
    requires AllReported(plan, steps, unknown)
    requires forall d | d in unknown :: d.code.UnknownDependency? && Justified(plan, map[], steps, d)
    ensures unknown == [] <==> DependenciesKnown(plan, steps)
  {
    if unknown != [] { assert unknown[0] in unknown; }
  }

  /** Accepts a plan exactly when every step is acceptable on its own, every dependency names a
      plan step and the dependency graph is acyclic; whatever it reports is true of the plan. */
  method ValidateProposedPlan(plan: seq<Step>, catalog: Catalog) returns (v: Validation)
    ensures v.ok <==> Clean(plan, catalog, plan) && DependenciesKnown(plan, v.steps) && !Cyclic(GraphOf(v.steps))
    ensures v.ok <==> v.diagnostics == []
    ensures Pointwise(plan, catalog, Survivors(catalog, plan), v.steps) && (v.ok ==> Survivors(catalog, plan) == plan)
    ensures Reported(plan, catalog, |plan|, v.diagnostics) && AllReported(plan, v.steps, v.diagnostics)
    ensures UniqueIds(v.steps) && Ids(v.steps) <= Ids(plan)
    ensures forall d | d in v.diagnostics :: Justified(plan, catalog, v.steps, d)
    ensures (exists d :: d in v.diagnostics && d.code.DependencyCycle?) <==> Cyclic(GraphOf(v.steps))
    ensures v.mutatingStepCount == CountMutating(v.steps, catalog)
  {
    var steps, diagnostics := CheckSteps(plan, catalog);
    var unknown, cycle := CheckDependencies(plan, steps);
    var all := diagnostics + CycleReport(unknown, cycle);
    AllTrue(plan, catalog, steps, diagnostics, unknown, cycle);
    ReportStays(plan, catalog, |plan|, diagnostics, CycleReport(unknown, cycle));
    UnknownsReported(plan, steps, diagnostics, unknown, cycle);
    NothingUnknown(plan, steps, unknown);
    assert all == [] <==> diagnostics == [] && unknown == [] && cycle.None?;
    if Clean(plan, catalog, plan) { CleanSurvive(plan, catalog, plan); }
    v := Validation(all == [], CountMutating(steps, catalog), steps, all);
  }
}
