/** The Operator's turn ledger and the reducer that folds it into working memory. */
module TurnLedger {
  import opened Prelude
  import opened Sorting

  datatype PlanStep = PlanStep(id: string, capability: string, summary: string, mutating: bool)

  datatype Role = User | Operator | System

  datatype Content =
    | Message(text: string)
    | Plan(summary: string, steps: seq<PlanStep>)
    | Approval(planSeq: nat)
    | Rejection(planSeq: nat, reason: Option<string>)
    | Execution(planSeq: nat, stepId: string, failed: bool, detail: Option<string>)
    | Error(message: string)
    | Note(verification: Option<Verification>)

  datatype Verification = Verification(status: string, summary: string)

  datatype Turn = Turn(seqNo: nat, role: Role, content: Content)

  predicate BySeq(a: Turn, b: Turn) { a.seqNo <= b.seqNo }

  /** Sequence numbers identify turns. */
  ghost predicate DistinctSeqs(turns: seq<Turn>) {
    forall i, j | 0 <= i < j < |turns| :: turns[i].seqNo != turns[j].seqNo
  }

  /** Ascending sequence numbers, none repeated. */
  ghost predicate Ordered(s: seq<Turn>) {
    forall i, j | 0 <= i < j < |s| :: s[i].seqNo < s[j].seqNo
  }

  function InOrder(turns: seq<Turn>): seq<Turn> { Sort(turns, BySeq) }

  lemma SeqOrder(turns: seq<Turn>)
    requires DistinctSeqs(turns)
    ensures TotalOn(BySeq, turns) && Separates(BySeq, turns)
  {
    forall a, b | a in turns && b in turns && BySeq(a, b) && BySeq(b, a) ensures a == b {
      var i :| 0 <= i < |turns| && turns[i] == a;
      var j :| 0 <= j < |turns| && turns[j] == b;
    }
  }

  lemma InOrderIsOrdered(turns: seq<Turn>)
    requires DistinctSeqs(turns)
    ensures Ordered(InOrder(turns)) && multiset(InOrder(turns)) == multiset(turns)
    ensures forall t :: t in InOrder(turns) <==> t in turns
  {
    var s := InOrder(turns);
    SeqOrder(turns);
    SortSorted(turns, BySeq);
    SameMembers(turns, s);
    assert Distinct(turns);
    PermutedDistinct(turns, s);
    forall i, j | 0 <= i < j < |s| ensures s[i].seqNo < s[j].seqNo {
      assert BySeq(s[i], s[j]) && s[i] in turns && s[j] in turns;
    }
  }

  datatype Decision = Pending | Approved | Rejected

  datatype Ran = Ran(failed: bool, detail: Option<string>)

  /** What the reducer accumulates about one plan. */
  datatype Progress = Progress(decision: Decision, decisionSeq: Option<nat>, reason: Option<string>,
                               ran: map<string, Ran>)

  const FRESH := Progress(Pending, None, None, map[])

  function Advance(plan: nat, f: Progress, t: Turn): Progress {
    if t.seqNo <= plan then f
    else
      match t.content
      case Approval(p) =>
        if p == plan then f.(decision := Approved, decisionSeq := Some(t.seqNo), reason := None) else f
      case Rejection(p, reason) =>
        if p == plan then f.(decision := Rejected, decisionSeq := Some(t.seqNo), reason := reason) else f
      case Execution(p, id, failed, detail) => if p == plan then f.(ran := f.ran[id := Ran(failed, detail)]) else f
      case _ => f
  }

  function Folded(plan: nat, s: seq<Turn>): Progress {
    if s == [] then FRESH else Advance(plan, Folded(plan, s[..|s| - 1]), s[|s| - 1])
  }

  function LatestPlan(s: seq<Turn>): Option<Turn> {
    if s == [] then None
    else if s[|s| - 1].content.Plan? then Some(s[|s| - 1])
    else LatestPlan(s[..|s| - 1])
  }

  datatype Status = NotRun | Succeeded | Failed

  datatype StepState = StepState(step: PlanStep, status: Status, detail: Option<string>)

  datatype PlanState = PlanState(seqNo: nat, summary: string, decision: Decision, decisionSeq: Option<nat>,
                                 reason: Option<string>, steps: seq<StepState>, succeeded: nat, failed: nat,
                                 pending: nat)

  datatype Said = Said(seqNo: nat, role: Role, text: string)

  datatype Conversation = Conversation(latestPlan: Option<PlanState>, pendingApproval: bool, recent: seq<Said>,
                                       lastError: Option<(nat, string)>)

  function StateOf(step: PlanStep, ran: map<string, Ran>): StepState {
    if step.id !in ran then StepState(step, NotRun, None)
    else StepState(step, if ran[step.id].failed then Failed else Succeeded, ran[step.id].detail)
  }

  function StepStates(steps: seq<PlanStep>, ran: map<string, Ran>): seq<StepState> {
    seq(|steps|, i requires 0 <= i < |steps| => StateOf(steps[i], ran))
  }

  function CountStatus(steps: seq<StepState>, status: Status): nat {
    if steps == [] then 0
    else CountStatus(steps[..|steps| - 1], status) + if steps[|steps| - 1].status == status then 1 else 0
  }

  lemma {:induction false} CountsPartition(steps: seq<StepState>)
    ensures CountStatus(steps, Succeeded) + CountStatus(steps, Failed) + CountStatus(steps, NotRun) == |steps|
  {
    if steps != [] { CountsPartition(steps[..|steps| - 1]); }
  }

  function PlanStateOf(t: Turn, f: Progress): PlanState
    requires t.content.Plan?
  {
    var steps := StepStates(t.content.steps, f.ran);
    CountsPartition(steps);
    var succeeded, failed := CountStatus(steps, Succeeded), CountStatus(steps, Failed);
    PlanState(t.seqNo, t.content.summary, f.decision, f.decisionSeq, f.reason, steps, succeeded, failed,
              |steps| - succeeded - failed)
  }

  /** The loop over the ledger for one plan. */
  method DerivePlanState(planTurn: Turn, ordered: seq<Turn>) returns (p: PlanState)
    requires planTurn.content.Plan?
    ensures p == PlanStateOf(planTurn, Folded(planTurn.seqNo, ordered))
  {
    var decision, decisionSeq, reason, ran := Pending, None, None, map[];
    for i := 0 to |ordered|
      invariant Progress(decision, decisionSeq, reason, ran) == Folded(planTurn.seqNo, ordered[..i])
    {
      var t := ordered[i];
      assert ordered[..i + 1][..i] == ordered[..i];
      if t.seqNo > planTurn.seqNo {
        match t.content {
          case Approval(plan) =>
            if plan == planTurn.seqNo { decision, decisionSeq, reason := Approved, Some(t.seqNo), None; }
          case Rejection(plan, why) =>
            if plan == planTurn.seqNo { decision, decisionSeq, reason := Rejected, Some(t.seqNo), why; }
          case Execution(plan, id, failed, detail) =>
            if plan == planTurn.seqNo { ran := ran[id := Ran(failed, detail)]; }
          case _ =>
        }
      }
    }
    assert ordered[..|ordered|] == ordered;
    p := PlanStateOf(planTurn, Progress(decision, decisionSeq, reason, ran));
  }

  function Messages(s: seq<Turn>): seq<Said> {
    if s == [] then []
    else
      var t := s[|s| - 1];
      Messages(s[..|s| - 1]) + if t.content.Message? then [Said(t.seqNo, t.role, t.content.text)] else []
  }

  function LastError(s: seq<Turn>): Option<(nat, string)> {
    if s == [] then None
    else if s[|s| - 1].content.Error? then Some((s[|s| - 1].seqNo, s[|s| - 1].content.message))
    else LastError(s[..|s| - 1])
  }

  function Last<T>(s: seq<T>, n: nat): seq<T> { if |s| <= n then s else s[|s| - n..] }

  function Derived(turns: seq<Turn>, window: nat): Conversation {
    var ordered := InOrder(turns);
    var plan := LatestPlan(ordered);
    var state :=
      if plan.Some? && plan.value.content.Plan? then Some(PlanStateOf(plan.value, Folded(plan.value.seqNo, ordered)))
      else None;
    Conversation(state, state.Some? && state.value.decision == Pending, Last(Messages(ordered), window),
                 LastError(ordered))
  }

  method DeriveConversationState(turns: seq<Turn>, messageWindow: int) returns (c: Conversation)
    ensures c == Derived(turns, if messageWindow < 1 then 1 else messageWindow)
  {
    var ordered := InOrder(turns);
    var window: nat := if messageWindow < 1 then 1 else messageWindow;
    var plan: Option<Turn>, error: Option<(nat, string)> := None, None;
    for i := 0 to |ordered|
      invariant plan == LatestPlan(ordered[..i]) && error == LastError(ordered[..i])
      invariant plan.Some? ==> plan.value.content.Plan?
    {
      assert ordered[..i + 1][..i] == ordered[..i];
      if ordered[i].content.Plan? { plan := Some(ordered[i]); }
      if ordered[i].content.Error? { error := Some((ordered[i].seqNo, ordered[i].content.message)); }
    }
    assert ordered[..|ordered|] == ordered;
    var recent := RecentMessages(ordered, window);
    if plan.None? { return Conversation(None, false, recent, error); }
    var state := DerivePlanState(plan.value, ordered);
    c := Conversation(Some(state), state.decision == Pending, recent, error);
  }

  /** Walks back from the newest turn until the window is full. */
  method RecentMessages(ordered: seq<Turn>, window: nat) returns (recent: seq<Said>)
    ensures recent == Last(Messages(ordered), window)
  {
    var i := |ordered|;
    recent := [];
    assert ordered[..i] == ordered;
    while i > 0 && |recent| < window
      invariant 0 <= i <= |ordered| && |recent| <= window && Messages(ordered) == Messages(ordered[..i]) + recent
    {
      i := i - 1;
      assert ordered[..i + 1][..i] == ordered[..i];
      var t := ordered[i];
      if t.content.Message? { recent := [Said(t.seqNo, t.role, t.content.text)] + recent; }
    }
    if |recent| == window && i > 0 {
      assert Messages(ordered)[|Messages(ordered)| - window..] == recent;
    }
  }

  /** The state depends on the turns, not on the order they arrive in. */
  lemma OrderDoesNotMatter(turns: seq<Turn>, other: seq<Turn>, window: nat)
    requires DistinctSeqs(turns) && multiset(turns) == multiset(other)
    ensures Derived(turns, window) == Derived(other, window)
  {
    SeqOrder(turns);
    SortForgetsOrder(turns, other, BySeq);
  }

  /** The turns after a sequence number. */
  function Later(s: seq<Turn>, k: nat): seq<Turn> {
    if s == [] then [] else Later(s[..|s| - 1], k) + if s[|s| - 1].seqNo > k then [s[|s| - 1]] else []
  }

  lemma {:induction false} LaterMembers(s: seq<Turn>, k: nat)
    ensures forall t :: t in Later(s, k) <==> t in s && t.seqNo > k
  {
    if s != [] {
      LaterMembers(s[..|s| - 1], k);
      assert s == s[..|s| - 1] + [s[|s| - 1]];
    }
  }

  lemma {:induction false} LaterOrdered(s: seq<Turn>, k: nat)
    requires Ordered(s)
    ensures Ordered(Later(s, k))
  {
    if s != [] {
      var n := |s| - 1;
      LaterOrdered(s[..n], k);
      LaterMembers(s[..n], k);
      forall t | t in Later(s[..n], k) ensures t.seqNo < s[n].seqNo {
        var i :| 0 <= i < n && s[i] == t;
      }
    }
  }

  /** Turns up to the plan do not bear on it. */
  lemma {:induction false} FoldSkipsEarlier(plan: nat, s: seq<Turn>)
    ensures Folded(plan, s) == Folded(plan, Later(s, plan))
  {
    if s != [] {
      var n := |s| - 1;
      FoldSkipsEarlier(plan, s[..n]);
      if s[n].seqNo > plan {
        assert Later(s, plan)[..|Later(s, plan)| - 1] == Later(s[..n], plan);
      } else {
        assert Later(s, plan) == Later(s[..n], plan);
      }
    }
  }

  /** Ordered ledgers with the same turns are the same sequence. */
  lemma OrderedUnique(s: seq<Turn>, t: seq<Turn>)
    requires Ordered(s) && Ordered(t) && forall x :: x in s <==> x in t
    ensures s == t
  {
    DistinctPermutes(s, t);
    assert DistinctSeqs(s);
    SeqOrder(s);
    SortedUnique(s, t, BySeq);
  }

  lemma {:induction false} LatestPlanIs(s: seq<Turn>, p: Turn)
    requires Ordered(s) && p in s && p.content.Plan? && forall t | t in s && t.content.Plan? :: t.seqNo <= p.seqNo
    ensures LatestPlan(s) == Some(p)
  {
    var n := |s| - 1;
    if s[n].content.Plan? {
      var i :| 0 <= i < |s| && s[i] == p;
      assert s[n] in s;
    } else {
      var i :| 0 <= i < |s| && s[i] == p;
      assert p in s[..n];
      LatestPlanIs(s[..n], p);
    }
  }

  ghost predicate IsLatestPlan(turns: seq<Turn>, p: Turn) {
    p in turns && p.content.Plan? && forall t | t in turns && t.content.Plan? :: t.seqNo <= p.seqNo
  }

  lemma PlanStateDerived(turns: seq<Turn>, window: nat, p: Turn)
    requires DistinctSeqs(turns) && IsLatestPlan(turns, p)
    ensures Derived(turns, window).latestPlan == Some(PlanStateOf(p, Folded(p.seqNo, Later(InOrder(turns), p.seqNo))))
  {
    InOrderIsOrdered(turns);
    LatestPlanIs(InOrder(turns), p);
    FoldSkipsEarlier(p.seqNo, InOrder(turns));
  }

  /** Any slice of a ledger that holds the latest plan and every turn after it yields the same plan
      state and the same pending approval as the whole ledger. */
  lemma SliceIsEnough(ledger: seq<Turn>, slice: seq<Turn>, p: Turn, window: nat, window': nat)
    requires DistinctSeqs(ledger) && DistinctSeqs(slice) && IsLatestPlan(ledger, p)
    requires p in slice && forall t | t in slice :: t in ledger
    requires forall t | t in ledger && t.seqNo > p.seqNo :: t in slice
    ensures Derived(slice, window').latestPlan == Derived(ledger, window).latestPlan
    ensures Derived(slice, window').pendingApproval == Derived(ledger, window).pendingApproval
  {
    PlanStateDerived(ledger, window, p);
    PlanStateDerived(slice, window', p);
    SameLater(ledger, slice, p.seqNo);
  }

  lemma SameLater(ledger: seq<Turn>, slice: seq<Turn>, plan: nat)
    requires DistinctSeqs(ledger) && DistinctSeqs(slice)
    requires (forall t | t in slice :: t in ledger) && forall t | t in ledger && t.seqNo > plan :: t in slice
    ensures Later(InOrder(ledger), plan) == Later(InOrder(slice), plan)
  {
    InOrderIsOrdered(ledger);
    InOrderIsOrdered(slice);
    LaterMembers(InOrder(ledger), plan);
    LaterMembers(InOrder(slice), plan);
    LaterOrdered(InOrder(ledger), plan);
    LaterOrdered(InOrder(slice), plan);
    OrderedUnique(Later(InOrder(ledger), plan), Later(InOrder(slice), plan));
  }

  predicate Decides(plan: nat, t: Turn) {
    t.seqNo > plan
      && ((t.content.Approval? && t.content.planSeq == plan) || (t.content.Rejection? && t.content.planSeq == plan))
  }

  predicate Runs(plan: nat, id: string, t: Turn) {
    t.seqNo > plan && t.content.Execution? && t.content.planSeq == plan && t.content.stepId == id
  }

  /** The last deciding turn speaks for the plan. */
  ghost predicate DecidedBy(s: seq<Turn>, plan: nat, f: Progress) {
    if f.decision == Pending then f.decisionSeq.None? && forall t | t in s :: !Decides(plan, t)
    else exists t :: t in s && SpeaksFor(s, plan, t, f)
  }

  ghost predicate SpeaksFor(s: seq<Turn>, plan: nat, t: Turn, f: Progress) {
    && Decides(plan, t) && f.decisionSeq == Some(t.seqNo)
    && f.decision == (if t.content.Approval? then Approved else Rejected)
    && f.reason == (if t.content.Rejection? then t.content.reason else None)
    && forall u | u in s && Decides(plan, u) :: u.seqNo <= t.seqNo
  }

  /** The last execution turn of a step speaks for the step. */
  ghost predicate RanBy(s: seq<Turn>, plan: nat, id: string, f: Progress) {
    if id !in f.ran then forall t | t in s :: !Runs(plan, id, t)
    else exists t :: t in s && LastRun(s, plan, id, t) && f.ran[id] == Ran(t.content.failed, t.content.detail)
  }

  ghost predicate LastRun(s: seq<Turn>, plan: nat, id: string, t: Turn) {
    Runs(plan, id, t) && forall u | u in s && Runs(plan, id, u) :: u.seqNo <= t.seqNo
  }

  lemma {:induction false} FoldDecision(plan: nat, s: seq<Turn>)
    requires Ordered(s)
    ensures DecidedBy(s, plan, Folded(plan, s))
  {
    if s != [] {
      var n := |s| - 1;
      var t, before, f := s[n], Folded(plan, s[..n]), Folded(plan, s);
      FoldDecision(plan, s[..n]);
      assert s == s[..n] + [t];
      assert forall u | u in s[..n] :: u.seqNo < t.seqNo;
      if Decides(plan, t) {
        assert SpeaksFor(s, plan, t, f);
      } else if before.decision != Pending {
        var v :| v in s[..n] && SpeaksFor(s[..n], plan, v, before);
        assert v in s && SpeaksFor(s, plan, v, f);
      }
    }
  }

  lemma AdvanceRuns(plan: nat, f: Progress, t: Turn, id: string)
    ensures var f' := Advance(plan, f, t);
      if Runs(plan, id, t) then id in f'.ran && f'.ran[id] == Ran(t.content.failed, t.content.detail)
      else (id in f'.ran <==> id in f.ran) && (id in f.ran ==> f'.ran[id] == f.ran[id])
  {
  }

  lemma LastRunGrows(s: seq<Turn>, t: Turn, plan: nat, id: string, v: Turn)
    requires Ordered(s + [t])
    requires if Runs(plan, id, t) then v == t else v in s && LastRun(s, plan, id, v)
    ensures v in s + [t] && LastRun(s + [t], plan, id, v)
  {
    forall u | u in s ensures u.seqNo < t.seqNo {
      var i :| 0 <= i < |s| && s[i] == u;
      assert (s + [t])[i] == u && (s + [t])[|s|] == t;
    }
  }

  lemma {:induction false} FoldRuns(plan: nat, s: seq<Turn>, id: string)
    requires Ordered(s)
    ensures RanBy(s, plan, id, Folded(plan, s))
  {
    if s != [] {
      var n := |s| - 1;
      var t, before := s[n], Folded(plan, s[..n]);
      FoldRuns(plan, s[..n], id);
      AdvanceRuns(plan, before, t, id);
      assert s == s[..n] + [t];
      if Runs(plan, id, t) {
        LastRunGrows(s[..n], t, plan, id, t);
      } else if id in before.ran {
        var v :| v in s[..n] && LastRun(s[..n], plan, id, v)
          && before.ran[id] == Ran(v.content.failed, v.content.detail);
        LastRunGrows(s[..n], t, plan, id, v);
      }
    }
  }

  /** What the derived plan state means: its decision is that of the plan's last deciding turn, and
      each step's status that of its last execution turn. */
  lemma PlanStateMeaning(turns: seq<Turn>, window: nat, p: Turn) returns (f: Progress)
    requires DistinctSeqs(turns) && IsLatestPlan(turns, p)
    ensures f == Folded(p.seqNo, InOrder(turns)) && Derived(turns, window).latestPlan == Some(PlanStateOf(p, f))
    ensures DecidedBy(turns, p.seqNo, f) && forall id :: RanBy(turns, p.seqNo, id, f)
  {
    var s := InOrder(turns);
    f := Folded(p.seqNo, s);
    PlanStateDerived(turns, window, p);
    FoldSkipsEarlier(p.seqNo, s);
    InOrderIsOrdered(turns);
    FoldDecision(p.seqNo, s);
    if f.decision != Pending {
      var t :| t in s && SpeaksFor(s, p.seqNo, t, f);
      assert t in turns && SpeaksFor(turns, p.seqNo, t, f);
    }
    forall id ensures RanBy(turns, p.seqNo, id, f) {
      FoldRuns(p.seqNo, s, id);
      if id in f.ran {
        var t :| t in s && LastRun(s, p.seqNo, id, t) && f.ran[id] == Ran(t.content.failed, t.content.detail);
        assert t in turns && LastRun(turns, p.seqNo, id, t);
      }
    }
  }
}
