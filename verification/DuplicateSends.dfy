/** How often an outbox row can be sent: never more often than it was claimed, and twice as soon as
    one of the conditions for at most once is dropped. */
module DuplicateSends {
  import opened Prelude
  import opened Outbox

  // ---- At most one send per claim ----

  /** The worker claimed the row and has not tried to send it yet. */
  ghost predicate Owes(worker: Worker, id: nat) {
    exists i :: 0 <= i < |worker.queue| && worker.queue[i].id == id && (i > 0 || worker.phase == Ready)
  }

  ghost predicate ClaimsOnce(worker: Worker) {
    && (worker.queue == [] ==> worker.phase == Ready)
    && forall i, j | 0 <= i < j < |worker.queue| :: worker.queue[i].id != worker.queue[j].id
  }

  ghost function Owing(workers: map<nat, Worker>, id: nat): set<nat> {
    set w | w in workers && Owes(workers[w], id)
  }

  function Attempts(s: State, id: nat): nat { if id in s.rows then s.rows[id].attempts else 0 }

  /** Every claim pays for one send: those made and those still owed. */
  ghost predicate Paid(s: State, id: nat) {
    && (forall w | w in s.workers :: ClaimsOnce(s.workers[w]))
    && Sends(s, id) + |Owing(s.workers, id)| <= Attempts(s, id)
  }

  /** A worker that changes without taking on the row owes no more than before. */
  lemma OwesLess(workers: map<nat, Worker>, w: nat, worker: Worker, id: nat)
    requires Owes(worker, id) ==> w in workers && Owes(workers[w], id)
    ensures |Owing(workers[w := worker], id)| <= |Owing(workers, id)|
    ensures w in workers && Owes(workers[w], id) && !Owes(worker, id) ==>
      |Owing(workers[w := worker], id)| < |Owing(workers, id)|
  {
    var after, before := Owing(workers[w := worker], id), Owing(workers, id);
    if w in workers && Owes(workers[w], id) && !Owes(worker, id) {
      assert after == before - {w};
    } else {
      SubsetSize(after, before);
    }
  }

  lemma OwesOneMore(workers: map<nat, Worker>, w: nat, worker: Worker, id: nat)
    ensures |Owing(workers[w := worker], id)| <= |Owing(workers, id)| + 1
  {
    SubsetSize(Owing(workers[w := worker], id), Owing(workers, id) + {w});
  }

  lemma ClaimPays(cfg: Config, s: State, w: nat, ids: seq<nat>, id: nat)
    requires Enabled(cfg, s, Claim(w, ids)) && Paid(s, id)
    ensures Paid(Step(cfg, s, Claim(w, ids)), id)
  {
    var s' := Step(cfg, s, Claim(w, ids));
    if id in ids { OwesOneMore(s.workers, w, s'.workers[w], id); } else { OwesLess(s.workers, w, s'.workers[w], id); }
  }

  lemma SendPays(cfg: Config, s: State, e: Event, id: nat)
    requires e.Send? && Enabled(cfg, s, e) && Paid(s, id)
    ensures Paid(Step(cfg, s, e), id)
  {
    var s' := Step(cfg, s, e);
    if id == s.workers[e.w].queue[0].id { assert Owes(s.workers[e.w], id) && !Owes(s'.workers[e.w], id); }
    OwesLess(s.workers, e.w, s'.workers[e.w], id);
  }

  lemma DropPays(cfg: Config, s: State, e: Event, id: nat)
    requires (e.Start? || e.Mark? || e.Recover? || e.Crash? || e.Stop?) && Enabled(cfg, s, e) && Paid(s, id)
    ensures Paid(Step(cfg, s, e), id)
  {
    var s' := Step(cfg, s, e);
    if Owes(s'.workers[e.w], id) { StillOwes(cfg, s, e, id); }
    OwesLess(s.workers, e.w, s'.workers[e.w], id);
  }

  lemma StillOwes(cfg: Config, s: State, e: Event, id: nat)
    requires (e.Start? || e.Mark? || e.Recover? || e.Crash? || e.Stop?) && Enabled(cfg, s, e)
    requires Owes(Step(cfg, s, e).workers[e.w], id)
    ensures e.w in s.workers && Owes(s.workers[e.w], id)
  {
    var q := Step(cfg, s, e).workers[e.w].queue;
    var i :| 0 <= i < |q| && q[i].id == id && (i > 0 || Step(cfg, s, e).workers[e.w].phase == Ready);
    assert q == s.workers[e.w].queue || q == s.workers[e.w].queue[1..];
    assert s.workers[e.w].queue[i].id == id || s.workers[e.w].queue[i + 1].id == id;
  }

  lemma StepPays(cfg: Config, s: State, e: Event, id: nat)
    requires Enabled(cfg, s, e) && Paid(s, id)
    ensures Paid(Step(cfg, s, e), id)
  {
    match e
    case Tick(_) =>
    case Enqueue(_, _) =>
    case Claim(w, ids) => ClaimPays(cfg, s, w, ids, id);
    case Send(_, _, _) => SendPays(cfg, s, e, id);
    case _ => DropPays(cfg, s, e, id);
  }

  lemma FollowsPays(cfg: Config, s: State, s': State, id: nat)
    requires Follows(cfg, s, s') && Paid(s, id)
    ensures Paid(s', id)
  {
    var e :| Enabled(cfg, s, e) && s' == Step(cfg, s, e);
    StepPays(cfg, s, e, id);
  }

  lemma {:induction false} RunPays(cfg: Config, run: seq<State>, i: nat, id: nat)
    requires IsRun(cfg, run) && i < |run|
    ensures Paid(run[i], id)
  {
    if i == 0 {
      assert Owing(INITIAL.workers, id) == {};
    } else {
      RunPays(cfg, run, i - 1, id);
      assert Follows(cfg, run[i - 1], run[i - 1 + 1]);
      FollowsPays(cfg, run[i - 1], run[i], id);
    }
  }

  /** Whatever is lost and whoever crashes: no row is sent more often than it was claimed. */
  lemma SentAtMostAsClaimed(cfg: Config, run: seq<State>, i: nat, id: nat)
    requires IsRun(cfg, run) && i < |run|
    ensures Sends(run[i], id) <= Attempts(run[i], id)
  {
    RunPays(cfg, run, i, id);
  }

  // ---- Each condition of at most once is needed ----

  /** A failed dispatch is recorded, and no worker crashes before it is. */
  predicate Records(s: State, e: Event) {
    match e
    case Recover(_, stored, _, _) => stored
    case Crash(w) => w in s.workers ==> s.workers[w].phase == Ready
    case _ => true
  }

  predicate Faultless(s: State, e: Event, recorded: bool) { Lossless(s, e) && (recorded ==> Records(s, e)) }

  ghost predicate FaultlessFollows(cfg: Config, s: State, s': State, recorded: bool) {
    exists e :: Enabled(cfg, s, e) && Faultless(s, e, recorded) && s' == Step(cfg, s, e)
  }

  /** Nothing but step k went wrong, and there `e` did. */
  ghost predicate LosesAt(cfg: Config, run: seq<State>, k: int, e: Event, recorded: bool) {
    && 0 <= k < |run| - 1 && Enabled(cfg, run[k], e) && !Lossless(run[k], e) && run[k + 1] == Step(cfg, run[k], e)
    && forall i | 0 <= i < |run| - 1 && i != k :: FaultlessFollows(cfg, run[i], run[i + 1], recorded)
  }

  /** A run in which no lock ever runs out under a worker and no step is faulty, except for `lost` if
      it is given; when `recorded`, every failure is recorded too. */
  ghost predicate IsFaultyRun(cfg: Config, run: seq<State>, lost: Option<Event>, recorded: bool) {
    && |run| > 0 && run[0] == INITIAL
    && (forall i | 0 <= i < |run| :: Timely(run[i]))
    && match lost
      case None => forall i | 0 <= i < |run| - 1 :: FaultlessFollows(cfg, run[i], run[i + 1], recorded)
      case Some(e) => exists k :: LosesAt(cfg, run, k, e, recorded)
  }

  ghost predicate Ends(cfg: Config, s: State, lost: Option<Event>, recorded: bool) {
    exists run :: IsFaultyRun(cfg, run, lost, recorded) && run[|run| - 1] == s
  }

  ghost predicate Goes(cfg: Config, s: State, e: Event, s': State) {
    Enabled(cfg, s, e) && s' == Step(cfg, s, e) && Timely(s')
  }

  lemma FaultlessNext(cfg: Config, s: State, e: Event, s': State, lost: Option<Event>, recorded: bool)
    requires Ends(cfg, s, lost, recorded) && Goes(cfg, s, e, s') && Faultless(s, e, recorded)
    ensures Ends(cfg, s', lost, recorded)
  {
    var run :| IsFaultyRun(cfg, run, lost, recorded) && run[|run| - 1] == s;
    assert FaultlessFollows(cfg, s, s', recorded);
    if lost.Some? {
      var k :| LosesAt(cfg, run, k, lost.value, recorded);
      LossStays(cfg, run, k, lost.value, s', recorded);
    }
    assert IsFaultyRun(cfg, run + [s'], lost, recorded);
  }

  lemma LossStays(cfg: Config, run: seq<State>, k: int, e: Event, s': State, recorded: bool)
    requires LosesAt(cfg, run, k, e, recorded) && FaultlessFollows(cfg, run[|run| - 1], s', recorded)
    ensures LosesAt(cfg, run + [s'], k, e, recorded)
  {
    var longer := run + [s'];
    assert longer[k] == run[k] && longer[k + 1] == run[k + 1];
    forall i | 0 <= i < |longer| - 1 && i != k ensures FaultlessFollows(cfg, longer[i], longer[i + 1], recorded) {
      if i < |run| - 1 { assert FaultlessFollows(cfg, run[i], run[i + 1], recorded); }
    }
  }

  lemma FaultyNext(cfg: Config, s: State, e: Event, s': State, recorded: bool)
    requires Ends(cfg, s, None, recorded) && Goes(cfg, s, e, s') && !Lossless(s, e)
    ensures Ends(cfg, s', Some(e), recorded)
  {
    var run :| IsFaultyRun(cfg, run, None, recorded) && run[|run| - 1] == s;
    assert LosesAt(cfg, run + [s'], |run| - 1, e, recorded);
    assert IsFaultyRun(cfg, run + [s'], Some(e), recorded);
  }

  const WAITING := State(0, map[7 := Row(None, At(0), None, 0, 0)], map[1 := IDLE], map[])

  function FirstRow(cfg: Config): Row { Row(None, At(0), Some(cfg.lockDuration), 1, 1) }

  function FirstClaim(cfg: Config): seq<Entry> { [Entry(7, 1, cfg.lockDuration)] }

  /** The only worker on its first dispatch of the only row. */
  function FirstDispatch(cfg: Config, phase: Phase, sends: map<nat, nat>): State {
    State(0, map[7 := FirstRow(cfg)], map[1 := Worker(FirstClaim(cfg), phase, false)], sends)
  }

  /** The row was sent once, and its worker is done with it. */
  function GivenUp(r: Row): State { State(0, map[7 := r], map[1 := IDLE], map[7 := 1]) }

  lemma Waiting(cfg: Config, recorded: bool)
    ensures Ends(cfg, WAITING, None, recorded)
  {
    var queued := INITIAL.(rows := WAITING.rows);
    assert IsFaultyRun(cfg, [INITIAL], None, recorded);
    assert Goes(cfg, INITIAL, Enqueue(7, 0), queued);
    FaultlessNext(cfg, INITIAL, Enqueue(7, 0), queued, None, recorded);
    assert Goes(cfg, queued, Start(1), WAITING);
    FaultlessNext(cfg, queued, Start(1), WAITING, None, recorded);
  }

  lemma FirstClaimGoes(cfg: Config)
    requires ValidConfig(cfg)
    ensures Goes(cfg, WAITING, Claim(1, [7]), FirstDispatch(cfg, Ready, map[]))
  {
    var s, s' := FirstDispatch(cfg, Ready, map[]), Step(cfg, WAITING, Claim(1, [7]));
    assert s'.rows == s.rows;
    assert s'.workers[1].queue == FirstClaim(cfg);
  }

  lemma SendGoes(cfg: Config, ok: bool)
    ensures Goes(cfg, FirstDispatch(cfg, Ready, map[]), Send(1, true, ok),
                 FirstDispatch(cfg, if ok then Sent else Erred, map[7 := 1]))
  {
  }

  lemma MarkFails(cfg: Config)
    ensures Goes(cfg, FirstDispatch(cfg, Sent, map[7 := 1]), Mark(1, false, false),
                 FirstDispatch(cfg, Erred, map[7 := 1]))
  {
  }

  lemma GivesUp(cfg: Config)
    ensures Goes(cfg, FirstDispatch(cfg, Sent, map[7 := 1]), Crash(1), GivenUp(FirstRow(cfg)))
    ensures Goes(cfg, FirstDispatch(cfg, Erred, map[7 := 1]), Recover(1, false, false, 0.0), GivenUp(FirstRow(cfg)))
    ensures Goes(cfg, FirstDispatch(cfg, Erred, map[7 := 1]), Recover(1, true, true, 0.0),
                 GivenUp(AfterFailure(cfg, FirstRow(cfg), 1, 0, 0.0)))
  {
    assert FirstClaim(cfg)[1..] == [];
  }

  predicate Losing(e: Event) {
    e == Send(1, true, false) || e == Mark(1, false, false) || e == Crash(1)
  }

  lemma SentOrErred(cfg: Config, recorded: bool)
    requires ValidConfig(cfg)
    ensures Ends(cfg, FirstDispatch(cfg, Sent, map[7 := 1]), None, recorded)
    ensures Ends(cfg, FirstDispatch(cfg, Erred, map[7 := 1]), Some(Send(1, true, false)), recorded)
  {
    var ready := FirstDispatch(cfg, Ready, map[]);
    Waiting(cfg, recorded);
    FirstClaimGoes(cfg);
    FaultlessNext(cfg, WAITING, Claim(1, [7]), ready, None, recorded);
    SendGoes(cfg, true);
    SendGoes(cfg, false);
    FaultlessNext(cfg, ready, Send(1, true, true), FirstDispatch(cfg, Sent, map[7 := 1]), None, recorded);
    FaultyNext(cfg, ready, Send(1, true, false), FirstDispatch(cfg, Erred, map[7 := 1]), recorded);
  }

  /** A send or a mark went wrong, and the worker has to record it. */
  lemma ErredAfter(cfg: Config, e: Event, recorded: bool)
    requires ValidConfig(cfg) && Losing(e) && !e.Crash?
    ensures Ends(cfg, FirstDispatch(cfg, Erred, map[7 := 1]), Some(e), recorded)
  {
    SentOrErred(cfg, recorded);
    if e.Mark? {
      MarkFails(cfg);
      FaultyNext(cfg, FirstDispatch(cfg, Sent, map[7 := 1]), e, FirstDispatch(cfg, Erred, map[7 := 1]), recorded);
    }
  }

  /** The send reached the stream, and the row can be claimed again. */
  lemma GivenUpAfter(cfg: Config, e: Event, recorded: bool) returns (r: Row)
    requires ValidConfig(cfg) && Losing(e) && (recorded ==> e.Crash? || cfg.maxAttempts >= 2)
    ensures Ends(cfg, GivenUp(r), Some(e), recorded) && r.dispatchedAt.None? && r.availableAt.At?
  {
    GivesUp(cfg);
    if e.Crash? {
      r := FirstRow(cfg);
      SentOrErred(cfg, recorded);
      FaultyNext(cfg, FirstDispatch(cfg, Sent, map[7 := 1]), e, GivenUp(r), recorded);
    } else {
      ErredAfter(cfg, e, recorded);
      r := if recorded then AfterFailure(cfg, FirstRow(cfg), 1, 0, 0.0) else FirstRow(cfg);
      FaultlessNext(cfg, FirstDispatch(cfg, Erred, map[7 := 1]), Recover(1, recorded, recorded, 0.0), GivenUp(r),
                    Some(e), recorded);
    }
  }

  /** Once the row can be claimed again it is sent a second time. */
  lemma SecondDispatch(cfg: Config, r: Row) returns (later: State, again: State, last: State)
    requires ValidConfig(cfg) && r.dispatchedAt.None? && r.availableAt.At?
    ensures Goes(cfg, GivenUp(r), Tick(ClaimableFrom(r)), later)
    ensures Goes(cfg, later, Claim(1, [7]), again) && Goes(cfg, again, Send(1, true, true), last) && Sends(last, 7) == 2
  {
    later := GivenUp(r).(now := ClaimableFrom(r));
    again := Step(cfg, later, Claim(1, [7]));
    last := Step(cfg, again, Send(1, true, true));
  }

  /** No lock runs out under a worker, and still one lost answer to a send, one mark that is not
      stored or one crash before the mark is enough to send a row twice, even if every failure is
      recorded, as long as the failure is not the row's last attempt. */
  lemma LostAnswerSendsTwice(cfg: Config, e: Event, recorded: bool)
    requires ValidConfig(cfg) && Losing(e) && (recorded ==> e.Crash? || cfg.maxAttempts >= 2)
    ensures exists s :: Ends(cfg, s, Some(e), recorded) && Sends(s, 7) == 2
  {
    var r := GivenUpAfter(cfg, e, recorded);
    var later, again, last := SecondDispatch(cfg, r);
    FaultlessNext(cfg, GivenUp(r), Tick(ClaimableFrom(r)), later, Some(e), recorded);
    FaultlessNext(cfg, later, Claim(1, [7]), again, Some(e), recorded);
    FaultlessNext(cfg, again, Send(1, true, true), last, Some(e), recorded);
  }

  // ---- With every failure recorded ----

  ghost predicate RecordedFollows(cfg: Config, s: State, s': State) {
    exists e :: Enabled(cfg, s, e) && Records(s, e) && s' == Step(cfg, s, e)
  }

  /** No lock runs out under a worker and every failure is recorded; sends and marks may lose their
      answers. */
  ghost predicate IsRecordedRun(cfg: Config, run: seq<State>) {
    && |run| > 0 && run[0] == INITIAL
    && (forall i | 0 <= i < |run| :: Timely(run[i]))
    && forall i | 0 <= i < |run| - 1 :: RecordedFollows(cfg, run[i], run[i + 1])
  }

  predicate InDispatch(s: State, w: nat, id: nat) {
    w in s.workers && s.workers[w].queue != [] && s.workers[w].phase != Ready && s.workers[w].queue[0].id == id
  }

  /** A row that was sent is dispatched, abandoned or still being dispatched. */
  predicate SettledOnce(s: State, id: nat) {
    && Sends(s, id) <= 1
    && (Sends(s, id) == 1 ==>
      && id in s.rows
      && (s.rows[id].dispatchedAt.Some? || s.rows[id].availableAt.Never? || InDispatch(s, s.rows[id].lockedBy, id)))
  }

  lemma ClaimSettledOnce(cfg: Config, s: State, w: nat, ids: seq<nat>, id: nat)
    requires AllHold(s) && Timely(s) && Enabled(cfg, s, Claim(w, ids)) && SettledOnce(s, id)
    ensures SettledOnce(Step(cfg, s, Claim(w, ids)), id)
  {
    if Sends(s, id) == 1 && InDispatch(s, s.rows[id].lockedBy, id) {
      var v := s.rows[id].lockedBy;
      assert Holds(s, v);
      forall k | 0 <= k < |ids| ensures id != ids[k] { ClaimMissesHeld(s, v, 0, ids[k]); }
    }
  }

  lemma StepSettledOnce(cfg: Config, s: State, e: Event, id: nat)
    requires cfg.maxAttempts == 1 && AllHold(s) && Timely(s) && Enabled(cfg, s, e) && Records(s, e)
    requires e.Recover? ==> WorkerOk(s, e.w)
    requires SettledOnce(s, id)
    ensures SettledOnce(Step(cfg, s, e), id)
  {
    match e
    case Claim(w, ids) => ClaimSettledOnce(cfg, s, w, ids, id);
    case Send(w, _, _) => HeadInHand(s, w);
    case Mark(w, _, _) => HeadInHand(s, w);
    case Recover(w, _, _, _) => HeadInHand(s, w);
    case _ =>
  }

  lemma RecordedFollowsOnce(cfg: Config, s: State, s': State, id: nat)
    requires cfg.maxAttempts == 1 && Invariant(cfg, s) && AllHold(s) && Timely(s) && RecordedFollows(cfg, s, s')
    requires SettledOnce(s, id)
    ensures SettledOnce(s', id)
  {
    var e :| Enabled(cfg, s, e) && Records(s, e) && s' == Step(cfg, s, e);
    if e.Recover? { assert WorkerOk(s, e.w); }
    StepSettledOnce(cfg, s, e, id);
  }

  lemma RecordedIsTimely(cfg: Config, run: seq<State>)
    requires IsRecordedRun(cfg, run)
    ensures IsTimelyRun(cfg, run)
  {
    forall i | 0 <= i < |run| - 1 ensures Follows(cfg, run[i], run[i + 1]) {
      assert RecordedFollows(cfg, run[i], run[i + 1]);
    }
  }

  lemma {:induction false} RecordedRunOnce(cfg: Config, run: seq<State>, i: nat, id: nat)
    requires ValidConfig(cfg) && cfg.maxAttempts == 1 && IsRecordedRun(cfg, run) && i < |run|
    ensures SettledOnce(run[i], id)
  {
    if i > 0 {
      RecordedRunOnce(cfg, run, i - 1, id);
      RecordedIsTimely(cfg, run);
      TimelyRunHolds(cfg, run, i - 1);
      RunKeeps(cfg, run, i - 1);
      assert RecordedFollows(cfg, run[i - 1], run[i - 1 + 1]);
      RecordedFollowsOnce(cfg, run[i - 1], run[i], id);
    }
  }

  ghost predicate RecordingIsEnough(cfg: Config) {
    forall run, i, id: nat | IsRecordedRun(cfg, run) && 0 <= i < |run| :: Sends(run[i], id) <= 1
  }

  lemma LossIsRecorded(cfg: Config, run: seq<State>, k: int)
    requires IsFaultyRun(cfg, run, Some(Send(1, true, false)), true)
    requires LosesAt(cfg, run, k, Send(1, true, false), true)
    ensures IsRecordedRun(cfg, run)
  {
    forall i | 0 <= i < |run| - 1 ensures RecordedFollows(cfg, run[i], run[i + 1]) {
      if i != k { assert FaultlessFollows(cfg, run[i], run[i + 1], true); }
    }
  }

  /** Recording every failure keeps a row from being sent twice exactly when the first failure is the
      last: with a single attempt the row is abandoned instead. */
  lemma RecordingExact(cfg: Config)
    requires ValidConfig(cfg)
    ensures RecordingIsEnough(cfg) <==> cfg.maxAttempts == 1
  {
    if cfg.maxAttempts == 1 {
      forall run, i, id: nat | IsRecordedRun(cfg, run) && 0 <= i < |run| ensures Sends(run[i], id) <= 1 {
        RecordedRunOnce(cfg, run, i, id);
      }
    } else {
      var e := Send(1, true, false);
      LostAnswerSendsTwice(cfg, e, true);
      var s :| Ends(cfg, s, Some(e), true) && Sends(s, 7) == 2;
      var run :| IsFaultyRun(cfg, run, Some(e), true) && run[|run| - 1] == s;
      var k :| LosesAt(cfg, run, k, e, true);
      LossIsRecorded(cfg, run, k);
    }
  }
}
