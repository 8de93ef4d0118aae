/** The history summarizer, and its agreement with the ledger's plan state. */
module ConversationMemory {
  import opened Prelude
  import opened Sorting
  import opened TurnLedger

  datatype Account = Account(seqNo: nat, summary: string, capabilities: set<string>, mutatingSteps: set<string>,
                             decision: Decision, succeeded: nat, failed: nat)

  /** The running summary; the accounts stand in the order their plans were met. */
  datatype Memory = Memory(accounts: seq<Account>, applied: nat, lastError: Option<(nat, string)>,
                           lastVerification: Option<(nat, Verification)>)

  const BLANK := Memory([], 0, None, None)

  datatype Fact = Fact(seqNo: nat, summary: string, decision: Decision, executed: bool, changesApplied: nat,
                       changesFailed: nat)

  datatype Facts = Facts(decided: seq<Fact>, rejectedCapabilities: set<string>, appliedChangeCount: nat,
                         lastDrift: Option<(nat, string)>, lastError: Option<(nat, string)>)

  function MutatingIds(steps: seq<PlanStep>): set<string> {
    set i | 0 <= i < |steps| && steps[i].mutating :: steps[i].id
  }

  function CapabilitiesOf(steps: seq<PlanStep>): set<string> {
    set i | 0 <= i < |steps| && |steps[i].capability| > 0 :: steps[i].capability
  }

  /** The position of a plan's account. */
  function Find(accounts: seq<Account>, plan: nat): (i: Option<nat>)
    ensures i.Some? ==> i.value < |accounts| && accounts[i.value].seqNo == plan
    ensures i.None? ==> forall k | 0 <= k < |accounts| :: accounts[k].seqNo != plan
  {
    if accounts == [] then None
    else if accounts[|accounts| - 1].seqNo == plan then Some(|accounts| - 1)
    else Find(accounts[..|accounts| - 1], plan)
  }

  function Opened(t: Turn): Account
    requires t.content.Plan?
  {
    Account(t.seqNo, t.content.summary, CapabilitiesOf(t.content.steps), MutatingIds(t.content.steps), Pending, 0, 0)
  }

  function Decide(m: Memory, plan: nat, d: Decision): Memory {
    match Find(m.accounts, plan)
    case Some(i) => m.(accounts := m.accounts[i := m.accounts[i].(decision := d)])
    case None => m
  }

  /** Only a step the plan recorded as mutating counts as a change. */
  function Count(m: Memory, plan: nat, id: string, failed: bool): Memory {
    match Find(m.accounts, plan)
    case None => m
    case Some(i) =>
      var a := m.accounts[i];
      if id !in a.mutatingSteps then m
      else if failed then m.(accounts := m.accounts[i := a.(failed := a.failed + 1)])
      else m.(accounts := m.accounts[i := a.(succeeded := a.succeeded + 1)], applied := m.applied + 1)
  }

  function Note(m: Memory, t: Turn): Memory {
    match t.content
    case Plan(_, _) => m.(accounts := m.accounts + [Opened(t)])
    case Approval(plan) => Decide(m, plan, Approved)
    case Rejection(plan, _) => Decide(m, plan, Rejected)
    case Execution(plan, id, failed, _) => Count(m, plan, id, failed)
    case Error(message) => m.(lastError := Some((t.seqNo, message)))
    case Note(v) => if v.Some? && v.value.status != "" then m.(lastVerification := Some((t.seqNo, v.value))) else m
    case Message(_) => m
  }

  function Noted(s: seq<Turn>): Memory {
    if s == [] then BLANK else Note(Noted(s[..|s| - 1]), s[|s| - 1])
  }

  function FactOf(a: Account): Fact {
    Fact(a.seqNo, a.summary, a.decision, a.succeeded + a.failed > 0, a.succeeded, a.failed)
  }

  function Decided(accounts: seq<Account>): seq<Fact> {
    if accounts == [] then []
    else
      var a := accounts[|accounts| - 1];
      Decided(accounts[..|accounts| - 1]) + if a.decision == Pending then [] else [FactOf(a)]
  }

  function RejectedCapabilities(accounts: seq<Account>): set<string> {
    if accounts == [] then {}
    else
      var a := accounts[|accounts| - 1];
      RejectedCapabilities(accounts[..|accounts| - 1]) + if a.decision == Rejected then a.capabilities else {}
  }

  function Summary(m: Memory, cap: nat): Facts {
    Facts(Last(Decided(m.accounts), cap), RejectedCapabilities(m.accounts), m.applied,
          if m.lastVerification.Some? && m.lastVerification.value.1.status == "drifted"
          then Some((m.lastVerification.value.0, m.lastVerification.value.1.summary)) else None,
          m.lastError)
  }

  /** Folds the whole history, then keeps the most recent decided plans. */
  method SummarizeHistory(turns: seq<Turn>, planCap: int) returns (facts: Facts)
    ensures facts == Summary(Noted(InOrder(turns)), if planCap < 1 then 1 else planCap)
  {
    var ordered := InOrder(turns);
    var m := BLANK;
    for i := 0 to |ordered|
      invariant m == Noted(ordered[..i])
    {
      assert ordered[..i + 1][..i] == ordered[..i];
      m := Note(m, ordered[i]);
    }
    assert ordered[..|ordered|] == ordered;
    var decided, rejected := [], {};
    for i := 0 to |m.accounts|
      invariant decided == Decided(m.accounts[..i]) && rejected == RejectedCapabilities(m.accounts[..i])
    {
      var a := m.accounts[i];
      assert m.accounts[..i + 1][..i] == m.accounts[..i];
      if a.decision != Pending {
        decided := decided + [FactOf(a)];
        if a.decision == Rejected { rejected := rejected + a.capabilities; }
      }
    }
    assert m.accounts[..|m.accounts|] == m.accounts;
    var drift := None;
    if m.lastVerification.Some? && m.lastVerification.value.1.status == "drifted" {
      drift := Some((m.lastVerification.value.0, m.lastVerification.value.1.summary));
    }
    facts := Facts(Last(decided, if planCap < 1 then 1 else planCap), rejected, m.applied, drift, m.lastError);
  }

  /** Succeeded, and failed, executions of a plan's mutating steps. */
  function Changes(s: seq<Turn>, p: Turn, failed: bool): nat
    requires p.content.Plan?
  {
    if s == [] then 0
    else
      var t := s[|s| - 1];
      Changes(s[..|s| - 1], p, failed) +
      if t.seqNo > p.seqNo && t.content.Execution? && t.content.planSeq == p.seqNo && t.content.failed == failed
        && t.content.stepId in MutatingIds(p.content.steps) then 1 else 0
  }

  /** An account says of its plan what the ledger's reducer says. */
  predicate Agrees(a: Account, p: Turn, s: seq<Turn>)
    requires p.content.Plan?
  {
    && a.seqNo == p.seqNo && a.summary == p.content.summary && a.mutatingSteps == MutatingIds(p.content.steps)
    && a.decision == Folded(p.seqNo, s).decision
    && a.succeeded == Changes(s, p, false) && a.failed == Changes(s, p, true)
  }

  ghost predicate Ascending(accounts: seq<Account>) {
    forall i, j | 0 <= i < j < |accounts| :: accounts[i].seqNo < accounts[j].seqNo
  }

  lemma FindIs(accounts: seq<Account>, i: nat)
    requires Ascending(accounts) && i < |accounts|
    ensures Find(accounts, accounts[i].seqNo) == Some(i)
  {
  }

  /** Deciding or counting touches one account and keeps its place. */
  lemma NoteKeepsPlaces(m: Memory, t: Turn, i: nat)
    requires i < |m.accounts| && Ascending(m.accounts)
    ensures i < |Note(m, t).accounts| && Note(m, t).accounts[i].seqNo == m.accounts[i].seqNo
    ensures |Note(m, t).accounts| == |m.accounts| + if t.content.Plan? then 1 else 0
  {
  }

  /** The accounts ascend and none is newer than the last turn. */
  lemma {:induction false} AccountsAscend(s: seq<Turn>)
    requires Ordered(s)
    ensures Ascending(Noted(s).accounts)
    ensures forall i | 0 <= i < |Noted(s).accounts| :: s != [] && Noted(s).accounts[i].seqNo <= s[|s| - 1].seqNo
  {
    if s != [] {
      var n := |s| - 1;
      AccountsAscend(s[..n]);
      var m := Noted(s[..n]);
      forall i | 0 <= i < |m.accounts|
        ensures Noted(s).accounts[i].seqNo == m.accounts[i].seqNo < s[n].seqNo
      {
        NoteKeepsPlaces(m, s[n], i);
      }
      if |m.accounts| > 0 { NoteKeepsPlaces(m, s[n], 0); }
    }
  }

  lemma {:induction false} NothingBefore(s: seq<Turn>, p: Turn)
    requires p.content.Plan? && forall t | t in s :: t.seqNo <= p.seqNo
    ensures Folded(p.seqNo, s) == FRESH && Changes(s, p, false) == 0 && Changes(s, p, true) == 0
  {
    if s != [] {
      assert s[|s| - 1] in s;
      NothingBefore(s[..|s| - 1], p);
    }
  }

  lemma LaterTurnAgrees(m: Memory, s: seq<Turn>, t: Turn, p: Turn, i: nat)
    requires p.content.Plan? && i < |m.accounts| && Ascending(m.accounts) && Agrees(m.accounts[i], p, s)
    requires t.seqNo > p.seqNo
    ensures i < |Note(m, t).accounts| && Agrees(Note(m, t).accounts[i], p, s + [t])
  {
    assert (s + [t])[..|s|] == s;
    FindIs(m.accounts, i);
    NoteKeepsPlaces(m, t, i);
  }

  lemma NewAccountAgrees(s: seq<Turn>, p: Turn)
    requires Ordered(s) && s != [] && s[|s| - 1] == p && p.content.Plan?
    ensures var i := |Noted(s[..|s| - 1]).accounts|; i < |Noted(s).accounts| && Agrees(Noted(s).accounts[i], p, s)
  {
    forall t | t in s ensures t.seqNo <= p.seqNo { var k :| 0 <= k < |s| && s[k] == t; }
    NothingBefore(s, p);
  }

  lemma EarlierMember(s: seq<Turn>, p: Turn)
    requires s != [] && p in s && s[|s| - 1] != p && Ordered(s)
    ensures p in s[..|s| - 1] && s[|s| - 1].seqNo > p.seqNo && s == s[..|s| - 1] + [s[|s| - 1]]
  {
    var k :| 0 <= k < |s| && s[k] == p;
    assert s[..|s| - 1][k] == p;
  }

  /** For every plan of the history the summarizer keeps the decision the reducer derives, and counts
      its changes. */
  lemma {:induction false} AccountAgrees(s: seq<Turn>, p: Turn) returns (i: nat)
    requires Ordered(s) && p in s && p.content.Plan?
    ensures i < |Noted(s).accounts| && Agrees(Noted(s).accounts[i], p, s)
  {
    var n := |s| - 1;
    if s[n] == p {
      i := |Noted(s[..n]).accounts|;
      NewAccountAgrees(s, p);
    } else {
      EarlierMember(s, p);
      i := AccountAgrees(s[..n], p);
      AccountsAscend(s[..n]);
      LaterTurnAgrees(Noted(s[..n]), s[..n], s[n], p, i);
    }
  }

  function Total(accounts: seq<Account>): nat {
    if accounts == [] then 0 else Total(accounts[..|accounts| - 1]) + accounts[|accounts| - 1].succeeded
  }

  lemma {:induction false} TotalUpdate(accounts: seq<Account>, i: nat, a: Account)
    requires i < |accounts|
    ensures Total(accounts[i := a]) == Total(accounts) - accounts[i].succeeded + a.succeeded
  {
    var n := |accounts| - 1;
    if i < n {
      assert accounts[i := a][..n] == accounts[..n][i := a];
      TotalUpdate(accounts[..n], i, a);
    } else {
      assert accounts[i := a][..n] == accounts[..n];
    }
  }

  /** Every applied change is booked on exactly one plan. */
  lemma {:induction false} ChangesConserved(s: seq<Turn>)
    ensures Noted(s).applied == Total(Noted(s).accounts)
  {
    if s != [] {
      var n := |s| - 1;
      var m, t := Noted(s[..n]), s[n];
      ChangesConserved(s[..n]);
      match t.content
      case Plan(_, _) => assert Noted(s).accounts[..|m.accounts|] == m.accounts;
      case Approval(plan) => BookingKept(m, plan);
      case Rejection(plan, _) => BookingKept(m, plan);
      case Execution(plan, _, _, _) => BookingKept(m, plan);
      case _ =>
    }
  }

  lemma BookingKept(m: Memory, plan: nat)
    requires m.applied == Total(m.accounts)
    ensures forall d :: Decide(m, plan, d).applied == Total(Decide(m, plan, d).accounts)
    ensures forall id, failed :: Count(m, plan, id, failed).applied == Total(Count(m, plan, id, failed).accounts)
  {
    var i := Find(m.accounts, plan);
    if i.Some? {
      var a := m.accounts[i.value];
      forall d ensures Total(m.accounts[i.value := a.(decision := d)]) == Total(m.accounts) {
        TotalUpdate(m.accounts, i.value, a.(decision := d));
      }
      TotalUpdate(m.accounts, i.value, a.(failed := a.failed + 1));
      TotalUpdate(m.accounts, i.value, a.(succeeded := a.succeeded + 1));
    }
  }

  ghost predicate UniqueStepIds(steps: seq<PlanStep>) {
    forall i, j | 0 <= i < j < |steps| :: steps[i].id != steps[j].id
  }

  predicate Applied(step: PlanStep, ran: map<string, Ran>) {
    step.mutating && StateOf(step, ran).status == Succeeded
  }

  function AppliedSteps(steps: seq<PlanStep>, ran: map<string, Ran>): nat {
    if steps == [] then 0
    else AppliedSteps(steps[..|steps| - 1], ran) + if Applied(steps[|steps| - 1], ran) then 1 else 0
  }

  function AppliedIds(steps: seq<PlanStep>, ran: map<string, Ran>): set<string> {
    set step | step in steps && Applied(step, ran) :: step.id
  }

  lemma AppliedIdsGrow(steps: seq<PlanStep>, last: PlanStep, ran: map<string, Ran>)
    ensures AppliedIds(steps + [last], ran) == AppliedIds(steps, ran) + if Applied(last, ran) then {last.id} else {}
  {
  }

  lemma {:induction false} AppliedCount(steps: seq<PlanStep>, ran: map<string, Ran>)
    requires UniqueStepIds(steps)
    ensures AppliedSteps(steps, ran) == |AppliedIds(steps, ran)|
  {
    if steps != [] {
      var n := |steps| - 1;
      AppliedCount(steps[..n], ran);
      assert steps == steps[..n] + [steps[n]];
      AppliedIdsGrow(steps[..n], steps[n], ran);
      assert steps[n].id !in AppliedIds(steps[..n], ran);
    }
  }

  predicate IsChange(t: Turn, p: Turn, id: string)
    requires p.content.Plan?
  {
    Runs(p.seqNo, id, t) && !t.content.failed && id in MutatingIds(p.content.steps)
  }

  /** Distinct changed steps need distinct execution turns. */
  lemma {:induction false} ChangesCoverSteps(s: seq<Turn>, p: Turn, ids: set<string>)
    requires p.content.Plan? && forall id | id in ids :: exists t :: t in s && IsChange(t, p, id)
    ensures |ids| <= Changes(s, p, false)
  {
    if s == [] {
      assert ids == {};
    } else {
      var n := |s| - 1;
      var t := s[n];
      assert s == s[..n] + [t];
      var rest := if t.content.Execution? && IsChange(t, p, t.content.stepId) then ids - {t.content.stepId} else ids;
      forall id | id in rest ensures exists u :: u in s[..n] && IsChange(u, p, id) {
        var u :| u in s && IsChange(u, p, id);
      }
      ChangesCoverSteps(s[..n], p, rest);
    }
  }

  lemma AppliedStepsChanged(s: seq<Turn>, p: Turn)
    requires Ordered(s) && p.content.Plan? && UniqueStepIds(p.content.steps)
    ensures AppliedSteps(p.content.steps, Folded(p.seqNo, s).ran) <= Changes(s, p, false)
  {
    var steps, ran := p.content.steps, Folded(p.seqNo, s).ran;
    AppliedCount(steps, ran);
    forall id | id in AppliedIds(steps, ran) ensures exists t :: t in s && IsChange(t, p, id) {
      var step :| step in steps && Applied(step, ran) && step.id == id;
      var i :| 0 <= i < |steps| && steps[i] == step;
      FoldRuns(p.seqNo, s, id);
      var t :| t in s && LastRun(s, p.seqNo, id, t) && ran[id] == Ran(t.content.failed, t.content.detail);
    }
    ChangesCoverSteps(s, p, AppliedIds(steps, ran));
  }

  lemma {:induction false} DecidedLast(accounts: seq<Account>)
    requires accounts != [] && accounts[|accounts| - 1].decision != Pending
    ensures Decided(accounts) != [] && Decided(accounts)[|Decided(accounts)| - 1] == FactOf(accounts[|accounts| - 1])
  {
  }

  lemma LatestIsLastAccount(s: seq<Turn>, p: Turn, i: nat)
    requires Ordered(s) && IsLatestPlan(s, p) && i < |Noted(s).accounts| && Noted(s).accounts[i].seqNo == p.seqNo
    ensures i == |Noted(s).accounts| - 1
  {
    AccountsAscend(s);
    var last := |Noted(s).accounts| - 1;
    AccountIsPlan(s, last);
  }

  lemma {:induction false} AccountIsPlan(s: seq<Turn>, i: nat)
    requires Ordered(s) && i < |Noted(s).accounts|
    ensures exists q :: q in s && q.content.Plan? && q.seqNo == Noted(s).accounts[i].seqNo
  {
    var n := |s| - 1;
    var m := Noted(s[..n]);
    AccountsAscend(s[..n]);
    if i < |m.accounts| {
      NoteKeepsPlaces(m, s[n], i);
      AccountIsPlan(s[..n], i);
      var q :| q in s[..n] && q.content.Plan? && q.seqNo == m.accounts[i].seqNo;
      assert q in s;
    } else {
      if |m.accounts| > 0 { NoteKeepsPlaces(m, s[n], 0); }
      assert s[n] in s;
    }
  }

  /** Once the latest plan is decided it closes the summary, whatever the cap, with the decision the
      reducer derives and at least as many changes as it has succeeded mutating steps. */
  lemma SummaryAgreesWithState(turns: seq<Turn>, p: Turn, cap: nat, window: nat)
    requires DistinctSeqs(turns) && IsLatestPlan(turns, p) && UniqueStepIds(p.content.steps) && cap >= 1
    requires Folded(p.seqNo, InOrder(turns)).decision != Pending
    ensures Derived(turns, window).latestPlan.Some?
    ensures var facts, state := Summary(Noted(InOrder(turns)), cap), Derived(turns, window).latestPlan.value;
      && facts.decided != []
      && var fact := facts.decided[|facts.decided| - 1];
        && fact.seqNo == state.seqNo == p.seqNo && fact.summary == state.summary && fact.decision == state.decision
        && AppliedSteps(p.content.steps, Folded(p.seqNo, InOrder(turns)).ran) <= fact.changesApplied
        && fact.changesApplied <= facts.appliedChangeCount
  {
    InOrderIsOrdered(turns);
    var f := PlanStateMeaning(turns, window, p);
    LatestFact(InOrder(turns), p, cap);
  }

  lemma LatestFact(s: seq<Turn>, p: Turn, cap: nat)
    requires Ordered(s) && IsLatestPlan(s, p) && UniqueStepIds(p.content.steps) && cap >= 1
    requires Folded(p.seqNo, s).decision != Pending
    ensures var facts := Summary(Noted(s), cap);
      && facts.decided != []
      && var fact := facts.decided[|facts.decided| - 1];
        && fact.seqNo == p.seqNo && fact.summary == p.content.summary && fact.decision == Folded(p.seqNo, s).decision
        && AppliedSteps(p.content.steps, Folded(p.seqNo, s).ran) <= fact.changesApplied
        && fact.changesApplied <= facts.appliedChangeCount
  {
    var i := AccountAgrees(s, p);
    LatestIsLastAccount(s, p, i);
    AppliedStepsChanged(s, p);
    DecidedLast(Noted(s).accounts);
    ChangesConserved(s);
  }

  predicate IsFactOf(accounts: seq<Account>, i: int, f: Fact) {
    0 <= i < |accounts| && accounts[i].decision != Pending && f == FactOf(accounts[i])
  }

  lemma {:induction false} FactsOfAccounts(accounts: seq<Account>, f: Fact)
    ensures f in Decided(accounts) <==> exists i :: IsFactOf(accounts, i, f)
  {
    if accounts != [] {
      var n := |accounts| - 1;
      FactsOfAccounts(accounts[..n], f);
      if i :| IsFactOf(accounts, i, f) {
        assert i < n ==> IsFactOf(accounts[..n], i, f);
      }
      if i :| IsFactOf(accounts[..n], i, f) { assert IsFactOf(accounts, i, f); }
      assert accounts[n].decision != Pending ==> IsFactOf(accounts, n, FactOf(accounts[n]));
    }
  }

  ghost predicate HasFact(facts: seq<Fact>, plan: nat) { exists f :: f in facts && f.seqNo == plan }

  /** Before the cap, the plans with a fact are exactly the decided ones. */
  lemma FactMeansDecided(turns: seq<Turn>, p: Turn)
    requires DistinctSeqs(turns) && p in turns && p.content.Plan?
    ensures HasFact(Decided(Noted(InOrder(turns)).accounts), p.seqNo) <==>
      Folded(p.seqNo, InOrder(turns)).decision != Pending
  {
    InOrderIsOrdered(turns);
    var s := InOrder(turns);
    var accounts := Noted(s).accounts;
    var i := AccountAgrees(s, p);
    AccountsAscend(s);
    FactsOfAccounts(accounts, FactOf(accounts[i]));
    assert accounts[i].decision != Pending ==> IsFactOf(accounts, i, FactOf(accounts[i]));
    if HasFact(Decided(accounts), p.seqNo) {
      var f :| f in Decided(accounts) && f.seqNo == p.seqNo;
      FactsOfAccounts(accounts, f);
    }
  }

  /** A plan nobody decided leaves no fact, whatever the cap. */
  lemma UndecidedLeavesNoFact(turns: seq<Turn>, p: Turn, cap: nat)
    requires DistinctSeqs(turns) && p in turns && p.content.Plan? && Folded(p.seqNo, InOrder(turns)).decision == Pending
    ensures !HasFact(Summary(Noted(InOrder(turns)), cap).decided, p.seqNo)
  {
    FactMeansDecided(turns, p);
    var all := Decided(Noted(InOrder(turns)).accounts);
    forall f | f in Last(all, cap) ensures f.seqNo != p.seqNo { assert f in all; }
  }
}
