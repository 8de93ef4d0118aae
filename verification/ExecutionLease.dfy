/** The single-owner execution lease: the local guard of one executor, and every interleaving of
    many executors on one lock key. */
module ExecutionLease {
  import opened Prelude

  datatype LossReason = OwnershipLost | RenewalFailed

  /** What a renewal comes back with: renewed at a Redis instant, not the owner, or an error that
      leaves open whether the script ran. */
  datatype Reply = Renewed(at: nat) | NotOwner | Broken

  datatype Flight = Idle | Sent | Answered(reply: Reply)

  /** The local state of one guard. The abort flag stands for its AbortSignal. */
  datatype Guard = Guard(reason: LossReason, stopped: bool, aborted: bool, timer: bool, inFlight: Flight)

  const FRESH := Guard(OwnershipLost, false, false, true, Idle)

  predicate Finished(g: Guard) { g.stopped || g.aborted }

  /** The first loss is recorded; later ones change nothing. */
  function Lose(g: Guard, reason: LossReason): Guard {
    if Finished(g) then g else g.(reason := reason, timer := false, aborted := true)
  }

  /** A check joins the renewal in flight, or starts one; a finished guard refuses it outright. */
  function Ask(g: Guard): Guard {
    if Finished(g) || g.inFlight != Idle then g else g.(inFlight := Sent)
  }

  /** Whether the answer in flight confirms ownership. */
  predicate Confirms(g: Guard, reply: Reply) { !g.stopped && reply.Renewed? }

  function Settle(g: Guard, reply: Reply): Guard {
    var idle := g.(inFlight := Idle);
    match reply
    case Renewed(_) => idle
    case NotOwner => Lose(idle, OwnershipLost)
    case Broken => Lose(idle, RenewalFailed)
  }

  function Halt(g: Guard): Guard {
    if g.stopped then g else g.(stopped := true, timer := false)
  }

  /** A lost guard has no renewal in flight, and the timer runs exactly while the guard is live. */
  predicate Sound(g: Guard) {
    (g.aborted ==> g.inFlight == Idle) && (g.timer <==> !Finished(g))
  }

  class ExecutionLeaseGuard {
    var reason: LossReason
    var stopped: bool
    var aborted: bool
    var timer: bool
    var inFlight: Flight

    ghost function View(): Guard reads this { Guard(reason, stopped, aborted, timer, inFlight) }

    ghost predicate Valid() reads this { Sound(View()) }

    constructor ()
      ensures Valid() && View() == FRESH
    {
      reason, stopped, aborted, timer, inFlight := OwnershipLost, false, false, true, Idle;
    }

    method LoseOwnership(next: LossReason)
      modifies this
      ensures View() == Lose(old(View()), next)
    {
      if stopped || aborted { return; }
      reason := next;
      timer := false;
      aborted := true;
    }

    /** Returns whether a new Redis operation goes out. */
    method ConfirmOwned() returns (sends: bool)
      requires Valid()
      modifies this
      ensures Valid() && View() == Ask(old(View()))
      ensures sends <==> !Finished(old(View())) && old(inFlight) == Idle
    {
      if stopped || aborted { return false; }
      if inFlight != Idle { return false; }
      inFlight := Sent;
      sends := true;
    }

    /** The rest of a renewal once Redis has answered; every caller that joined it gets the result. */
    method SettleRenewal(reply: Reply) returns (confirmed: bool)
      requires Valid() && inFlight != Idle
      modifies this
      ensures Valid() && View() == Settle(old(View()), reply)
      ensures confirmed <==> Confirms(old(View()), reply)
    {
      inFlight := Idle;
      if reply.Broken? {
        LoseOwnership(RenewalFailed);
        return false;
      }
      if stopped { return false; }
      if reply.Renewed? { return true; }
      LoseOwnership(OwnershipLost);
      confirmed := false;
    }

    method Stop()
      requires Valid()
      modifies this
      ensures Valid() && View() == Halt(old(View()))
    {
      if stopped { return; }
      stopped := true;
      timer := false;
    }
  }

  datatype Lock = Lock(owner: nat, expires: nat)

  /** One lock key, its clock, the guards of all executors that ever took it, and for the record
      when Redis last renewed each owner and which renewal was last confirmed to it. */
  datatype State = State(now: nat, lock: Option<Lock>, guards: map<nat, Guard>, released: set<nat>,
                         renewedAt: map<nat, nat>, confirmedAt: map<nat, nat>)

  datatype Event =
    | Tick(elapsed: nat)
    | Acquire(owner: nat)
    | Check(owner: nat)
    | Evaluate(owner: nat, answered: bool)
    | Drop(owner: nat)
    | Deliver(owner: nat)
    | StopGuard(owner: nat)
    | Release(owner: nat)

  const INITIAL := State(0, None, map[], {}, map[], map[])

  predicate Held(s: State, o: nat) {
    s.lock.Some? && s.lock.value.owner == o && s.now < s.lock.value.expires
  }

  predicate Free(s: State) {
    s.lock.None? || s.lock.value.expires <= s.now
  }

  function Owner(e: Event): Option<nat> {
    match e
    case Tick(_) => None
    case Acquire(o) => None
    case Check(o) => Some(o)
    case Evaluate(o, _) => Some(o)
    case Drop(o) => Some(o)
    case Deliver(o) => Some(o)
    case StopGuard(o) => Some(o)
    case Release(o) => Some(o)
  }

  /** Owner tokens are fresh, a renewal is evaluated once, and the route releases after it stops. */
  predicate Enabled(s: State, e: Event) {
    && (Owner(e).Some? ==> Owner(e).value in s.guards)
    && match e
      case Acquire(o) => o !in s.guards && Free(s)
      case Evaluate(o, _) => s.guards[o].inFlight == Sent
      case Drop(o) => s.guards[o].inFlight == Sent
      case Deliver(o) => s.guards[o].inFlight.Answered?
      case Release(o) => s.guards[o].stopped
      case _ => true
  }

  function Answer(s: State, o: nat, reply: Reply): State
    requires o in s.guards
  {
    s.(guards := s.guards[o := s.guards[o].(inFlight := Answered(reply))])
  }

  /** The compare-and-expire script, atomic in Redis. Its reply may still be lost on the way. */
  function Renew(ttl: nat, s: State, o: nat, answered: bool): State
    requires o in s.guards
  {
    if Held(s, o) then
      Answer(s.(lock := Some(Lock(o, s.now + ttl)), renewedAt := s.renewedAt[o := s.now]), o,
             if answered then Renewed(s.now) else Broken)
    else Answer(s, o, if answered then NotOwner else Broken)
  }

  function Step(ttl: nat, s: State, e: Event): State
    requires Enabled(s, e)
  {
    match e
    case Tick(d) => s.(now := s.now + d)
    case Acquire(o) =>
      s.(lock := Some(Lock(o, s.now + ttl)), guards := s.guards[o := FRESH], renewedAt := s.renewedAt[o := s.now])
    case Check(o) => s.(guards := s.guards[o := Ask(s.guards[o])])
    case Evaluate(o, answered) => Renew(ttl, s, o, answered)
    case Drop(o) => Answer(s, o, Broken)
    case Deliver(o) =>
      var g := s.guards[o];
      var reply := g.inFlight.reply;
      var s' := s.(guards := s.guards[o := Settle(g, reply)]);
      if Confirms(g, reply) then s'.(confirmedAt := s.confirmedAt[o := reply.at]) else s'
    case StopGuard(o) => s.(guards := s.guards[o := Halt(s.guards[o])])
    case Release(o) =>
      var s' := s.(released := s.released + {o});
      if Held(s, o) then s'.(lock := None) else s'
  }

  /** An owner renewed less than one lifetime ago that has not released still holds the lock. */
  predicate Protected(ttl: nat, s: State, o: nat) {
    o in s.renewedAt && o !in s.released && s.now < s.renewedAt[o] + ttl ==>
      s.lock.Some? && s.lock.value.owner == o && s.renewedAt[o] + ttl <= s.lock.value.expires
  }

  predicate Recorded(s: State, o: nat) {
    && (o in s.confirmedAt ==> o in s.renewedAt && s.confirmedAt[o] <= s.renewedAt[o])
    && (o in s.guards ==>
      && Sound(s.guards[o])
      && (s.guards[o].inFlight.Answered? && s.guards[o].inFlight.reply.Renewed? ==>
        o in s.renewedAt && s.guards[o].inFlight.reply.at <= s.renewedAt[o] <= s.now))
    && (o in s.renewedAt ==> o in s.guards && s.renewedAt[o] <= s.now)
    && (o in s.released ==> o in s.guards && s.guards[o].stopped)
  }

  ghost predicate Invariant(ttl: nat, s: State) {
    forall o :: Protected(ttl, s, o) && Recorded(s, o)
  }

  lemma StepKeeps(ttl: nat, s: State, e: Event)
    requires ttl > 0 && Invariant(ttl, s) && Enabled(s, e)
    ensures Invariant(ttl, Step(ttl, s, e))
  {
    forall o ensures Protected(ttl, Step(ttl, s, e), o) && Recorded(Step(ttl, s, e), o) {
      StepProtects(ttl, s, e, o);
      StepRecords(ttl, s, e, o);
    }
  }

  lemma StepProtects(ttl: nat, s: State, e: Event, o: nat)
    requires ttl > 0 && Enabled(s, e) && Protected(ttl, s, o) && Recorded(s, o)
    ensures Protected(ttl, Step(ttl, s, e), o)
  {
  }

  lemma StepRecords(ttl: nat, s: State, e: Event, o: nat)
    requires ttl > 0 && Enabled(s, e) && Recorded(s, o)
    ensures Recorded(Step(ttl, s, e), o)
  {
    match e
    case Evaluate(p, answered) => EvaluateRecords(ttl, s, p, answered, o);
    case Deliver(p) => DeliverRecords(ttl, s, p, o);
    case _ =>
  }

  lemma EvaluateRecords(ttl: nat, s: State, p: nat, answered: bool, o: nat)
    requires ttl > 0 && Enabled(s, Evaluate(p, answered)) && Recorded(s, o)
    ensures Recorded(Step(ttl, s, Evaluate(p, answered)), o)
  {
  }

  lemma DeliverRecords(ttl: nat, s: State, p: nat, o: nat)
    requires ttl > 0 && Enabled(s, Deliver(p)) && Recorded(s, o)
    ensures Recorded(Step(ttl, s, Deliver(p)), o)
  {
  }

  ghost predicate IsRun(ttl: nat, run: seq<State>) {
    && |run| > 0 && run[0] == INITIAL
    && forall i | 0 <= i < |run| - 1 :: Follows(ttl, run[i], run[i + 1])
  }

  ghost predicate Follows(ttl: nat, s: State, s': State) {
    exists e :: Enabled(s, e) && s' == Step(ttl, s, e)
  }

  lemma {:induction false} RunKeeps(ttl: nat, run: seq<State>, i: nat)
    requires ttl > 0 && IsRun(ttl, run) && i < |run|
    ensures Invariant(ttl, run[i])
  {
    if i > 0 {
      RunKeeps(ttl, run, i - 1);
      assert Follows(ttl, run[i - 1], run[i - 1 + 1]);
      var e :| Enabled(run[i - 1], e) && run[i] == Step(ttl, run[i - 1], e);
      StepKeeps(ttl, run[i - 1], e);
    }
  }

  /** In every interleaving: a mutation that starts less than one lifetime after the renewal that
      confirmed it starts while its executor holds the lock and no other executor does. */
  lemma MutationIsExclusive(ttl: nat, run: seq<State>, i: nat, o: nat)
    requires ttl > 0 && IsRun(ttl, run) && i < |run|
    requires o in run[i].confirmedAt && o !in run[i].released && run[i].now < run[i].confirmedAt[o] + ttl
    ensures Held(run[i], o) && forall p | p != o :: !Held(run[i], p)
  {
    RunKeeps(ttl, run, i);
    assert Protected(ttl, run[i], o) && Recorded(run[i], o);
  }

  lemma FinishedStays(ttl: nat, s: State, e: Event, o: nat)
    requires ttl > 0 && Invariant(ttl, s) && Enabled(s, e) && o in s.guards && Finished(s.guards[o])
    ensures SameConfirmation(s, Step(ttl, s, e), o)
  {
    assert Recorded(s, o);
  }

  /** The guard is finished and was last confirmed when it was before. */
  ghost predicate SameConfirmation(s: State, s': State, o: nat) {
    && o in s'.guards && Finished(s'.guards[o])
    && (o in s'.confirmedAt <==> o in s.confirmedAt)
    && (o in s.confirmedAt ==> s'.confirmedAt[o] == s.confirmedAt[o])
  }

  lemma FinishedFollows(ttl: nat, s: State, s': State, o: nat)
    requires ttl > 0 && Invariant(ttl, s) && Follows(ttl, s, s') && o in s.guards && Finished(s.guards[o])
    ensures SameConfirmation(s, s', o)
  {
    var e :| Enabled(s, e) && s' == Step(ttl, s, e);
    FinishedStays(ttl, s, e, o);
  }

  /** Once a guard is lost or stopped it stays so, and it never confirms ownership again. */
  lemma {:induction false} NoConfirmationAfterTheEnd(ttl: nat, run: seq<State>, i: nat, j: nat, o: nat)
    requires ttl > 0 && IsRun(ttl, run) && i <= j < |run|
    requires o in run[i].guards && Finished(run[i].guards[o])
    ensures SameConfirmation(run[i], run[j], o)
  {
    if i < j {
      NoConfirmationAfterTheEnd(ttl, run, i, j - 1, o);
      RunKeeps(ttl, run, j - 1);
      assert Follows(ttl, run[j - 1], run[j - 1 + 1]);
      FinishedFollows(ttl, run[j - 1], run[j], o);
    }
  }

  /** The bound is exact: one lifetime after its confirmation an executor that has lost nothing
      locally can find another owner holding the lock. */
  lemma LateMutationOverlaps(ttl: nat) returns (run: seq<State>)
    requires ttl > 0
    ensures IsRun(ttl, run)
    ensures var s := run[|run| - 1];
      && 0 in s.confirmedAt && 0 in s.guards && s.now == s.confirmedAt[0] + ttl
      && !Finished(s.guards[0]) && 0 !in s.released && Held(s, 1)
  {
    run := FirstConfirmed(ttl);
    var s := run[|run| - 1];
    RunGrows(ttl, run, Tick(ttl));
    var later := Step(ttl, s, Tick(ttl));
    RunGrows(ttl, run + [later], Acquire(1));
    run := run + [later] + [Step(ttl, later, Acquire(1))];
  }

  lemma FirstConfirmed(ttl: nat) returns (run: seq<State>)
    requires ttl > 0
    ensures IsRun(ttl, run)
    ensures run[|run| - 1] == State(0, Some(Lock(0, ttl)), map[0 := FRESH], {}, map[0 := 0], map[0 := 0])
  {
    var s1 := Step(ttl, INITIAL, Acquire(0));
    var s2 := Step(ttl, s1, Check(0));
    var s3 := Step(ttl, s2, Evaluate(0, true));
    RunGrows(ttl, [INITIAL], Acquire(0));
    RunGrows(ttl, [INITIAL, s1], Check(0));
    RunGrows(ttl, [INITIAL, s1, s2], Evaluate(0, true));
    RunGrows(ttl, [INITIAL, s1, s2, s3], Deliver(0));
    run := [INITIAL, s1, s2, s3, Step(ttl, s3, Deliver(0))];
  }

  lemma RunGrows(ttl: nat, run: seq<State>, e: Event)
    requires IsRun(ttl, run) && Enabled(run[|run| - 1], e)
    ensures IsRun(ttl, run + [Step(ttl, run[|run| - 1], e)])
  {
    var more := run + [Step(ttl, run[|run| - 1], e)];
    forall i | 0 <= i < |more| - 1 ensures Follows(ttl, more[i], more[i + 1]) {
      if i < |run| - 1 { assert Follows(ttl, run[i], run[i + 1]); }
    }
  }
}
