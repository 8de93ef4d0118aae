/** The transactional outbox: rows that any number of workers claim, send to a stream and mark. */
module Outbox {
  import opened Prelude

  /** When a row may be claimed; an abandoned row never. */
  datatype Available = At(time: nat) | Never

  datatype Row = Row(dispatchedAt: Option<nat>, availableAt: Available, lockedUntil: Option<nat>, lockedBy: nat,
                     attempts: nat)

  datatype Config = Config(batchSize: nat, lockDuration: nat, maxAttempts: nat)

  predicate ValidConfig(cfg: Config) { cfg.batchSize >= 1 && cfg.lockDuration >= 1 && cfg.maxAttempts >= 1 }

  predicate Claimable(r: Row, now: nat) {
    && r.dispatchedAt.None?
    && r.availableAt.At? && r.availableAt.time <= now
    && (r.lockedUntil.None? || r.lockedUntil.value < now)
  }

  function Pow2(n: nat): nat { if n == 0 then 1 else 2 * Pow2(n - 1) }

  function BackoffBase(attempts: nat): nat {
    var doubled := Pow2(if attempts < 6 then attempts else 6);
    if doubled < 60 then doubled else 60
  }

  /** `random` is the draw from [0, 1) that spreads retries. */
  function BackoffSeconds(attempts: nat, random: real): (seconds: nat)
    requires 0.0 <= random < 1.0
  {
    var base := BackoffBase(attempts) as real;
    assert random * 0.3 * base >= 0.0;
    (base + random * 0.3 * base).Floor
  }

  lemma BaseBounds(attempts: nat)
    ensures attempts >= 1 ==> 2 <= BackoffBase(attempts)
    ensures 1 <= BackoffBase(attempts) <= 60
  {
    assert Pow2(1) == 2 && Pow2(2) == 4 && Pow2(3) == 8 && Pow2(4) == 16 && Pow2(5) == 32 && Pow2(6) == 64;
  }

  /** A claimed row has been attempted at least once, so its retry waits 2 to 77 seconds. */
  lemma BackoffBounds(attempts: nat, random: real)
    requires attempts >= 1 && 0.0 <= random < 1.0
    ensures 2 <= BackoffBase(attempts) <= BackoffSeconds(attempts, random) <= 77
  {
    BaseBounds(attempts);
    var base := BackoffBase(attempts) as real;
    assert 0.0 <= random * 0.3 < 0.3;
    assert 0.0 <= random * 0.3 * base <= 0.3 * base <= 18.0;
    assert random * 0.3 * base <= random * 0.3 * 60.0;
  }

  function Claimed(r: Row, worker: nat, until: nat): Row {
    r.(lockedUntil := Some(until), lockedBy := worker, attempts := r.attempts + 1)
  }

  function Marked(r: Row, now: nat): Row { r.(dispatchedAt := Some(now), lockedUntil := None) }

  /** The row after a failed dispatch, decided by the attempt count the worker saw when it claimed. */
  function AfterFailure(cfg: Config, r: Row, attempts: nat, now: nat, random: real): Row
    requires 0.0 <= random < 1.0
  {
    if attempts >= cfg.maxAttempts then r.(lockedUntil := None, availableAt := Never)
    else r.(lockedUntil := None, availableAt := At(now + BackoffSeconds(attempts, random)))
  }

  datatype Entry = Entry(id: nat, attempts: nat, until: nat)

  datatype Phase = Ready | Sent | Erred

  /** A worker's tick in progress: the claimed rows it still has to dispatch and how far the first
      one has come. */
  datatype Worker = Worker(queue: seq<Entry>, phase: Phase, stopping: bool)

  const IDLE := Worker([], Ready, false)

  datatype State = State(now: nat, rows: map<nat, Row>, workers: map<nat, Worker>, sends: map<nat, nat>)

  const INITIAL := State(0, map[], map[], map[])

  datatype Event =
    | Tick(elapsed: nat)
    | Enqueue(id: nat, at: nat)
    | Start(w: nat)
    | Claim(w: nat, ids: seq<nat>)
    | Send(w: nat, appended: bool, ok: bool)
    | Mark(w: nat, stored: bool, ok: bool)
    | Recover(w: nat, stored: bool, ok: bool, random: real)
    | Crash(w: nat)
    | Stop(w: nat)

  predicate Busy(s: State, w: nat, phase: Phase) {
    w in s.workers && s.workers[w].queue != [] && s.workers[w].phase == phase && s.workers[w].queue[0].id in s.rows
  }

  /** A success answer implies the effect; an error leaves it open. */
  predicate Enabled(cfg: Config, s: State, e: Event) {
    match e
    case Tick(_) => true
    case Enqueue(id, _) => id !in s.rows
    case Start(w) => w !in s.workers
    case Claim(w, ids) =>
      && w in s.workers && s.workers[w].queue == [] && s.workers[w].phase == Ready && !s.workers[w].stopping
      && |ids| <= cfg.batchSize
      && (forall i, j | 0 <= i < j < |ids| :: ids[i] != ids[j])
      && forall i | 0 <= i < |ids| :: ids[i] in s.rows && Claimable(s.rows[ids[i]], s.now)
    case Send(w, appended, ok) => Busy(s, w, Ready) && (ok ==> appended)
    case Mark(w, stored, ok) => Busy(s, w, Sent) && (ok ==> stored)
    case Recover(w, stored, ok, random) => Busy(s, w, Erred) && (ok ==> stored) && 0.0 <= random < 1.0
    case Crash(w) => w in s.workers
    case Stop(w) => w in s.workers
  }

  function ClaimRows(rows: map<nat, Row>, ids: seq<nat>, w: nat, until: nat): map<nat, Row> {
    map id | id in rows :: if id in ids then Claimed(rows[id], w, until) else rows[id]
  }

  function Put(s: State, w: nat, worker: Worker): State { s.(workers := s.workers[w := worker]) }

  function Next(worker: Worker): Worker
    requires worker.queue != []
  {
    worker.(queue := worker.queue[1..], phase := Ready)
  }

  function Sends(s: State, id: nat): nat { if id in s.sends then s.sends[id] else 0 }

  function Step(cfg: Config, s: State, e: Event): State
    requires Enabled(cfg, s, e)
  {
    match e
    case Tick(d) => s.(now := s.now + d)
    case Enqueue(id, at) => s.(rows := s.rows[id := Row(None, At(at), None, 0, 0)])
    case Start(w) => Put(s, w, IDLE)
    case Claim(w, ids) =>
      var until := s.now + cfg.lockDuration;
      var queue := seq(|ids|, i requires 0 <= i < |ids| => Entry(ids[i], s.rows[ids[i]].attempts + 1, until));
      Put(s.(rows := ClaimRows(s.rows, ids, w, until)), w, s.workers[w].(queue := queue))
    case Send(w, appended, ok) =>
      var id := s.workers[w].queue[0].id;
      var s' := if appended then s.(sends := s.sends[id := Sends(s, id) + 1]) else s;
      Put(s', w, s.workers[w].(phase := if ok then Sent else Erred))
    case Mark(w, stored, ok) =>
      var id := s.workers[w].queue[0].id;
      var s' := if stored then s.(rows := s.rows[id := Marked(s.rows[id], s.now)]) else s;
      Put(s', w, if ok then Next(s.workers[w]) else s.workers[w].(phase := Erred))
    case Recover(w, stored, ok, random) =>
      var c := s.workers[w].queue[0];
      var s' := if stored then s.(rows := s.rows[c.id := AfterFailure(cfg, s.rows[c.id], c.attempts, s.now, random)])
        else s;
      Put(s', w, if ok then Next(s.workers[w]) else s.workers[w].(queue := [], phase := Ready))
    case Crash(w) => Put(s, w, s.workers[w].(queue := [], phase := Ready))
    case Stop(w) => Put(s, w, s.workers[w].(stopping := true))
  }

  /** Dispatched rows were sent; an abandoned row used up its attempts. */
  predicate RowOk(cfg: Config, s: State, id: nat) {
    id in s.rows ==>
      && (s.rows[id].dispatchedAt.Some? ==> Sends(s, id) >= 1)
      && (s.rows[id].availableAt.Never? ==> s.rows[id].attempts >= cfg.maxAttempts)
  }

  /** A worker's entries are rows it claimed at an attempt that still counts, and a row it is about
      to mark was sent. */
  ghost predicate WorkerOk(s: State, w: nat) {
    w in s.workers ==>
      var me := s.workers[w];
      && (me.queue == [] ==> me.phase == Ready)
      && (forall i | 0 <= i < |me.queue| ::
        me.queue[i].id in s.rows && 1 <= me.queue[i].attempts <= s.rows[me.queue[i].id].attempts)
      && (me.phase == Sent ==> Sends(s, me.queue[0].id) >= 1)
  }

  ghost predicate Invariant(cfg: Config, s: State) {
    (forall id :: RowOk(cfg, s, id)) && forall w :: WorkerOk(s, w)
  }

  lemma StepKeeps(cfg: Config, s: State, e: Event)
    requires ValidConfig(cfg) && Invariant(cfg, s) && Enabled(cfg, s, e)
    ensures Invariant(cfg, Step(cfg, s, e))
  {
    forall id ensures RowOk(cfg, Step(cfg, s, e), id) {
      if e.Mark? || e.Recover? { assert WorkerOk(s, e.w); }
      StepKeepsRowOk(cfg, s, e, id);
    }
    forall w ensures WorkerOk(Step(cfg, s, e), w) { StepKeepsWorkerOk(cfg, s, e, w); }
  }

  lemma StepKeepsRowOk(cfg: Config, s: State, e: Event, id: nat)
    requires ValidConfig(cfg) && Enabled(cfg, s, e) && RowOk(cfg, s, id)
    requires e.Mark? || e.Recover? ==> WorkerOk(s, e.w)
    ensures RowOk(cfg, Step(cfg, s, e), id)
  {
  }

  lemma StepKeepsWorkerOk(cfg: Config, s: State, e: Event, w: nat)
    requires ValidConfig(cfg) && Enabled(cfg, s, e) && WorkerOk(s, w)
    ensures WorkerOk(Step(cfg, s, e), w)
  {
    match e
    case Claim(v, ids) => ClaimKeepsWorkerOk(cfg, s, v, ids, w);
    case Recover(v, stored, ok, random) => RecoverKeepsWorkerOk(cfg, s, v, stored, ok, random, w);
    case _ =>
  }

  lemma RecoverKeepsWorkerOk(cfg: Config, s: State, v: nat, stored: bool, ok: bool, random: real, w: nat)
    requires ValidConfig(cfg) && Enabled(cfg, s, Recover(v, stored, ok, random)) && WorkerOk(s, w)
    ensures WorkerOk(Step(cfg, s, Recover(v, stored, ok, random)), w)
  {
  }

  lemma ClaimKeepsWorkerOk(cfg: Config, s: State, v: nat, ids: seq<nat>, w: nat)
    requires ValidConfig(cfg) && Enabled(cfg, s, Claim(v, ids)) && WorkerOk(s, w)
    ensures WorkerOk(Step(cfg, s, Claim(v, ids)), w)
  {
  }

  ghost predicate Follows(cfg: Config, s: State, s': State) {
    exists e :: Enabled(cfg, s, e) && s' == Step(cfg, s, e)
  }

  ghost predicate IsRun(cfg: Config, run: seq<State>) {
    && |run| > 0 && run[0] == INITIAL
    && forall i | 0 <= i < |run| - 1 :: Follows(cfg, run[i], run[i + 1])
  }

  lemma {:induction false} RunKeeps(cfg: Config, run: seq<State>, i: nat)
    requires ValidConfig(cfg) && IsRun(cfg, run) && i < |run|
    ensures Invariant(cfg, run[i])
  {
    if i > 0 {
      RunKeeps(cfg, run, i - 1);
      assert Follows(cfg, run[i - 1], run[i - 1 + 1]);
      var e :| Enabled(cfg, run[i - 1], e) && run[i] == Step(cfg, run[i - 1], e);
      StepKeeps(cfg, run[i - 1], e);
    }
  }

  /** The first instant from which a row left alone can be claimed. */
  function ClaimableFrom(r: Row): nat
    requires r.availableAt.At?
  {
    var unlocked := if r.lockedUntil.Some? then r.lockedUntil.value + 1 else 0;
    if r.availableAt.time < unlocked then unlocked else r.availableAt.time
  }

  /** For any number of workers, crashes and failures: a row is dispatched, and then it was sent; or
      abandoned, and then its attempts are used up; or a worker can claim it again later. */
  lemma NothingIsLost(cfg: Config, run: seq<State>, i: nat, id: nat)
    requires ValidConfig(cfg) && IsRun(cfg, run) && i < |run| && id in run[i].rows
    ensures var s, r := run[i], run[i].rows[id];
      || (r.dispatchedAt.Some? && Sends(s, id) >= 1)
      || (r.availableAt.Never? && r.attempts >= cfg.maxAttempts)
      || (r.availableAt.At? && forall t | t >= ClaimableFrom(r) :: Claimable(r, t))
  {
    RunKeeps(cfg, run, i);
    assert RowOk(cfg, run[i], id);
  }

  lemma StepKeepsRow(cfg: Config, s: State, e: Event, id: nat)
    requires ValidConfig(cfg) && Enabled(cfg, s, e) && id in s.rows
    ensures var s' := Step(cfg, s, e);
      && id in s'.rows && s.rows[id].attempts <= s'.rows[id].attempts
      && (s.rows[id].dispatchedAt.Some? ==> s'.rows[id].dispatchedAt.Some?)
      && Sends(s, id) <= Sends(s', id)
  {
  }

  /** Rows stay, their attempts only grow, and a dispatched row stays dispatched. */
  lemma {:induction false} DispatchedIsPermanent(cfg: Config, run: seq<State>, i: nat, j: nat, id: nat)
    requires ValidConfig(cfg) && IsRun(cfg, run) && i <= j < |run| && id in run[i].rows
    ensures id in run[j].rows && run[i].rows[id].attempts <= run[j].rows[id].attempts
    ensures run[i].rows[id].dispatchedAt.Some? ==> run[j].rows[id].dispatchedAt.Some?
  {
    if i < j {
      DispatchedIsPermanent(cfg, run, i, j - 1, id);
      assert Follows(cfg, run[j - 1], run[j - 1 + 1]);
      var e :| Enabled(cfg, run[j - 1], e) && run[j] == Step(cfg, run[j - 1], e);
      StepKeepsRow(cfg, run[j - 1], e, id);
    }
  }

  /** The answer to a send comes back, a mark is stored, and no worker crashes in between. */
  predicate Lossless(s: State, e: Event) {
    match e
    case Send(_, appended, ok) => ok == appended
    case Mark(_, stored, _) => stored
    case Crash(w) => w in s.workers ==> s.workers[w].phase != Sent
    case _ => true
  }

  /** Every row in a worker's hands is still under the lock it was claimed with. */
  ghost predicate Timely(s: State) {
    forall w, i | w in s.workers && 0 <= i < |s.workers[w].queue| :: s.now <= s.workers[w].queue[i].until
  }

  /** No lock ever runs out under a worker. */
  ghost predicate IsTimelyRun(cfg: Config, run: seq<State>) {
    IsRun(cfg, run) && forall i | 0 <= i < |run| :: Timely(run[i])
  }

  ghost predicate CarefulFollows(cfg: Config, s: State, s': State) {
    exists e :: Enabled(cfg, s, e) && Lossless(s, e) && s' == Step(cfg, s, e)
  }

  ghost predicate IsLosslessRun(cfg: Config, run: seq<State>) {
    && |run| > 0 && run[0] == INITIAL
    && forall i | 0 <= i < |run| - 1 :: CarefulFollows(cfg, run[i], run[i + 1])
  }

  ghost predicate IsCarefulRun(cfg: Config, run: seq<State>) {
    IsLosslessRun(cfg, run) && forall i | 0 <= i < |run| :: Timely(run[i])
  }

  // ---- What a worker holds while its locks run ----

  /** Entry i of a worker's queue: a row it locked, not abandoned and not dispatched; only the row of
      a mark whose answer was lost is dispatched already. */
  predicate InHand(s: State, w: nat, me: Worker, i: int)
    requires 0 <= i < |me.queue|
  {
    var c := me.queue[i];
    && c.id in s.rows && s.rows[c.id].lockedBy == w && s.rows[c.id].availableAt.At?
    && (s.rows[c.id].dispatchedAt.None? ==> s.rows[c.id].lockedUntil == Some(c.until))
    && (s.rows[c.id].dispatchedAt.Some? ==> i == 0 && me.phase == Erred)
  }

  ghost predicate Holds(s: State, w: nat) {
    w in s.workers ==>
      var me := s.workers[w];
      && (me.queue == [] ==> me.phase == Ready)
      && (forall i, j | 0 <= i < j < |me.queue| :: me.queue[i].id != me.queue[j].id)
      && forall i | 0 <= i < |me.queue| :: InHand(s, w, me, i)
  }

  ghost predicate AllHold(s: State) { forall w :: Holds(s, w) }

  /** A claim cannot touch a row that some worker still holds under a running lock. */
  lemma ClaimMissesHeld(s: State, w: nat, i: nat, id: nat)
    requires Holds(s, w) && Timely(s) && w in s.workers && i < |s.workers[w].queue|
    requires id in s.rows && Claimable(s.rows[id], s.now)
    ensures s.workers[w].queue[i].id != id
  {
    assert InHand(s, w, s.workers[w], i);
  }

  lemma ClaimHolds(cfg: Config, s: State, w: nat, ids: seq<nat>, v: nat)
    requires AllHold(s) && Timely(s) && Enabled(cfg, s, Claim(w, ids))
    ensures Holds(Step(cfg, s, Claim(w, ids)), v)
  {
    var s' := Step(cfg, s, Claim(w, ids));
    assert Holds(s, v);
    if v in s.workers && v != w {
      forall i | 0 <= i < |s.workers[v].queue| ensures InHand(s', v, s'.workers[v], i) {
        assert InHand(s, v, s.workers[v], i);
        forall k | 0 <= k < |ids| ensures s.workers[v].queue[i].id != ids[k] { ClaimMissesHeld(s, v, i, ids[k]); }
      }
    }
  }

  /** Only the row at the head of one queue changes: every other worker holds what it held. */
  lemma OthersHold(s: State, s': State, w: nat, v: nat)
    requires AllHold(s) && w in s.workers && s.workers[w].queue != [] && v != w
    requires v in s'.workers <==> v in s.workers
    requires v in s.workers ==> s'.workers[v] == s.workers[v]
    requires var id := s.workers[w].queue[0].id; id in s'.rows && s'.rows == s.rows[id := s'.rows[id]]
    ensures Holds(s', v)
  {
    assert Holds(s, w) && Holds(s, v);
    assert InHand(s, w, s.workers[w], 0);
    if v in s.workers {
      forall i | 0 <= i < |s.workers[v].queue| ensures InHand(s', v, s'.workers[v], i) {
        assert InHand(s, v, s.workers[v], i);
      }
    }
  }

  /** Finishing the head of a queue leaves the rest of it in hand. */
  lemma RestHolds(s: State, s': State, w: nat)
    requires AllHold(s) && w in s.workers && s.workers[w].queue != []
    requires w in s'.workers && s'.workers[w] == Next(s.workers[w])
    requires var id := s.workers[w].queue[0].id; id in s'.rows && s'.rows == s.rows[id := s'.rows[id]]
    ensures Holds(s', w)
  {
    assert Holds(s, w);
    var q := s.workers[w].queue;
    forall i | 0 <= i < |q| - 1 ensures InHand(s', w, s'.workers[w], i) {
      assert InHand(s, w, s.workers[w], i + 1);
      assert q[0].id != q[i + 1].id;
    }
  }

  lemma SendHolds(cfg: Config, s: State, e: Event, v: nat)
    requires AllHold(s) && e.Send? && Enabled(cfg, s, e)
    ensures Holds(Step(cfg, s, e), v)
  {
    var s' := Step(cfg, s, e);
    assert Holds(s, v);
    if v in s.workers {
      forall i | 0 <= i < |s.workers[v].queue| ensures InHand(s', v, s'.workers[v], i) {
        assert InHand(s, v, s.workers[v], i);
      }
    }
  }

  lemma MarkHolds(cfg: Config, s: State, e: Event, v: nat)
    requires AllHold(s) && e.Mark? && Enabled(cfg, s, e)
    ensures Holds(Step(cfg, s, e), v)
  {
    var s' := Step(cfg, s, e);
    var id := s.workers[e.w].queue[0].id;
    assert s.rows == s.rows[id := s.rows[id]];
    if v != e.w {
      OthersHold(s, s', e.w, v);
    } else if e.ok {
      RestHolds(s, s', v);
    } else {
      UnansweredHolds(cfg, s, e);
    }
  }

  /** A mark whose answer is lost leaves its row at the head of the queue. */
  lemma UnansweredHolds(cfg: Config, s: State, e: Event)
    requires AllHold(s) && e.Mark? && Enabled(cfg, s, e) && !e.ok
    ensures Holds(Step(cfg, s, e), e.w)
  {
    var s', q := Step(cfg, s, e), s.workers[e.w].queue;
    assert Holds(s, e.w);
    forall i | 0 <= i < |q| ensures InHand(s', e.w, s'.workers[e.w], i) {
      assert InHand(s, e.w, s.workers[e.w], i);
      if i > 0 { assert q[0].id != q[i].id; }
    }
  }

  lemma RecoverHolds(cfg: Config, s: State, e: Event, v: nat)
    requires AllHold(s) && e.Recover? && Enabled(cfg, s, e)
    ensures Holds(Step(cfg, s, e), v)
  {
    var s' := Step(cfg, s, e);
    var id := s.workers[e.w].queue[0].id;
    assert s.rows == s.rows[id := s.rows[id]];
    if v != e.w { OthersHold(s, s', e.w, v); } else if e.ok { RestHolds(s, s', v); }
  }

  lemma OtherHolds(cfg: Config, s: State, e: Event, v: nat)
    requires AllHold(s) && Enabled(cfg, s, e)
    requires e.Tick? || e.Enqueue? || e.Start? || e.Crash? || e.Stop?
    ensures Holds(Step(cfg, s, e), v)
  {
    var s' := Step(cfg, s, e);
    assert Holds(s, v);
    if v in s.workers {
      forall i | 0 <= i < |s'.workers[v].queue| ensures InHand(s', v, s'.workers[v], i) {
        assert InHand(s, v, s.workers[v], i);
      }
    }
  }

  lemma StepHolds(cfg: Config, s: State, e: Event)
    requires AllHold(s) && Timely(s) && Enabled(cfg, s, e)
    ensures AllHold(Step(cfg, s, e))
  {
    forall v ensures Holds(Step(cfg, s, e), v) {
      match e
      case Claim(w, ids) => ClaimHolds(cfg, s, w, ids, v);
      case Send(_, _, _) => SendHolds(cfg, s, e, v);
      case Mark(_, _, _) => MarkHolds(cfg, s, e, v);
      case Recover(_, _, _, _) => RecoverHolds(cfg, s, e, v);
      case _ => OtherHolds(cfg, s, e, v);
    }
  }

  lemma FollowsHolds(cfg: Config, s: State, s': State)
    requires AllHold(s) && Timely(s) && Follows(cfg, s, s')
    ensures AllHold(s')
  {
    var e :| Enabled(cfg, s, e) && s' == Step(cfg, s, e);
    StepHolds(cfg, s, e);
  }

  lemma {:induction false} TimelyRunHolds(cfg: Config, run: seq<State>, i: nat)
    requires IsTimelyRun(cfg, run) && i < |run|
    ensures AllHold(run[i])
  {
    if i > 0 {
      TimelyRunHolds(cfg, run, i - 1);
      assert Follows(cfg, run[i - 1], run[i - 1 + 1]);
      FollowsHolds(cfg, run[i - 1], run[i]);
    }
  }

  // ---- At most once ----

  predicate Marking(s: State, w: nat, id: nat) {
    w in s.workers && s.workers[w].queue != [] && s.workers[w].phase == Sent && s.workers[w].queue[0].id == id
  }

  /** A row that was sent is dispatched or about to be marked by the worker that sent it. */
  predicate SentOnce(s: State, id: nat) {
    && Sends(s, id) <= 1
    && (Sends(s, id) == 1 ==> id in s.rows && (s.rows[id].dispatchedAt.Some? || Marking(s, s.rows[id].lockedBy, id)))
  }

  lemma ClaimSentOnce(cfg: Config, s: State, w: nat, ids: seq<nat>, id: nat)
    requires AllHold(s) && Timely(s) && Enabled(cfg, s, Claim(w, ids)) && SentOnce(s, id)
    ensures SentOnce(Step(cfg, s, Claim(w, ids)), id)
  {
    if Sends(s, id) == 1 && s.rows[id].dispatchedAt.None? {
      var v := s.rows[id].lockedBy;
      assert Holds(s, v);
      forall k | 0 <= k < |ids| ensures id != ids[k] { ClaimMissesHeld(s, v, 0, ids[k]); }
    }
  }

  lemma StepSentOnce(cfg: Config, s: State, e: Event, id: nat)
    requires AllHold(s) && Timely(s) && Enabled(cfg, s, e) && Lossless(s, e) && SentOnce(s, id)
    ensures SentOnce(Step(cfg, s, e), id)
  {
    match e
    case Claim(w, ids) => ClaimSentOnce(cfg, s, w, ids, id);
    case Send(w, _, _) => HeadInHand(s, w);
    case Mark(w, _, _) => HeadInHand(s, w);
    case Recover(w, _, _, _) => HeadInHand(s, w);
    case _ =>
  }

  lemma HeadInHand(s: State, w: nat)
    requires AllHold(s) && w in s.workers && s.workers[w].queue != []
    ensures InHand(s, w, s.workers[w], 0)
  {
    assert Holds(s, w);
  }

  lemma CarefulFollowsOnce(cfg: Config, s: State, s': State, id: nat)
    requires AllHold(s) && Timely(s) && CarefulFollows(cfg, s, s') && SentOnce(s, id)
    ensures SentOnce(s', id)
  {
    var e :| Enabled(cfg, s, e) && Lossless(s, e) && s' == Step(cfg, s, e);
    StepSentOnce(cfg, s, e, id);
  }

  lemma CarefulIsTimely(cfg: Config, run: seq<State>)
    requires IsCarefulRun(cfg, run)
    ensures IsTimelyRun(cfg, run)
  {
    forall i | 0 <= i < |run| - 1 ensures Follows(cfg, run[i], run[i + 1]) {
      assert CarefulFollows(cfg, run[i], run[i + 1]);
    }
  }

  lemma {:induction false} CarefulRunOnce(cfg: Config, run: seq<State>, i: nat, id: nat)
    requires IsCarefulRun(cfg, run) && i < |run|
    ensures SentOnce(run[i], id)
  {
    if i > 0 {
      CarefulRunOnce(cfg, run, i - 1, id);
      CarefulIsTimely(cfg, run);
      TimelyRunHolds(cfg, run, i - 1);
      assert CarefulFollows(cfg, run[i - 1], run[i - 1 + 1]);
      CarefulFollowsOnce(cfg, run[i - 1], run[i], id);
    }
  }

  /** If no lock runs out under a worker and no answer is lost, each row is sent at most once. */
  lemma SentAtMostOnce(cfg: Config, run: seq<State>, i: nat, id: nat)
    requires ValidConfig(cfg) && IsCarefulRun(cfg, run) && i < |run|
    ensures Sends(run[i], id) <= 1
  {
    CarefulRunOnce(cfg, run, i, id);
  }

  lemma LosslessGrows(cfg: Config, run: seq<State>, e: Event)
    requires IsLosslessRun(cfg, run) && Enabled(cfg, run[|run| - 1], e) && Lossless(run[|run| - 1], e)
    ensures IsLosslessRun(cfg, run + [Step(cfg, run[|run| - 1], e)])
  {
    var longer := run + [Step(cfg, run[|run| - 1], e)];
    forall i | 0 <= i < |longer| - 1 ensures CarefulFollows(cfg, longer[i], longer[i + 1]) {
      if i < |run| - 1 { assert CarefulFollows(cfg, run[i], run[i + 1]); }
    }
  }

  /** Without the lock bound it fails although nothing is lost: results are stored by row id alone,
      so a slow worker and the one that claimed after it both send the row. */
  lemma ExpiredLockSendsTwice(cfg: Config)
    requires ValidConfig(cfg)
    ensures exists run :: IsLosslessRun(cfg, run) && Sends(run[|run| - 1], 7) == 2
  {
    var s := OverdueState(cfg);
    Overdue(cfg);
    var s1, s2, s3 := BothSend(cfg);
    var run :| IsLosslessRun(cfg, run) && run[|run| - 1] == s;
    LosslessGrows(cfg, run, Claim(2, [7]));
    LosslessGrows(cfg, run + [s1], Send(1, true, true));
    LosslessGrows(cfg, run + [s1] + [s2], Send(2, true, true));
    var longer := run + [s1] + [s2] + [s3];
    assert longer[|longer| - 1] == s3;
  }

  /** The second worker may claim the overdue row, and then both send it. */
  lemma BothSend(cfg: Config) returns (s1: State, s2: State, s3: State)
    requires ValidConfig(cfg)
    ensures Enabled(cfg, OverdueState(cfg), Claim(2, [7])) && s1 == Step(cfg, OverdueState(cfg), Claim(2, [7]))
    ensures Enabled(cfg, s1, Send(1, true, true)) && s2 == Step(cfg, s1, Send(1, true, true))
    ensures Enabled(cfg, s2, Send(2, true, true)) && s3 == Step(cfg, s2, Send(2, true, true))
    ensures Sends(s3, 7) == 2
  {
    var s := OverdueState(cfg);
    s1 := Step(cfg, s, Claim(2, [7]));
    assert s1.rows[7] == Claimed(s.rows[7], 2, s.now + cfg.lockDuration);
    s2 := Step(cfg, s1, Send(1, true, true));
    s3 := Step(cfg, s2, Send(2, true, true));
  }

  /** One worker claimed the only row and its lock has just run out. */
  function OverdueState(cfg: Config): State {
    State(cfg.lockDuration + 1, map[7 := Row(None, At(0), Some(cfg.lockDuration), 1, 1)],
          map[1 := Worker([Entry(7, 1, cfg.lockDuration)], Ready, false), 2 := IDLE], map[])
  }

  const STARTED := State(0, map[7 := Row(None, At(0), None, 0, 0)], map[1 := IDLE, 2 := IDLE], map[])

  lemma Started(cfg: Config)
    ensures exists run :: IsLosslessRun(cfg, run) && run[|run| - 1] == STARTED
  {
    var s1 := Step(cfg, INITIAL, Enqueue(7, 0));
    var s2 := Step(cfg, s1, Start(1));
    LosslessGrows(cfg, [INITIAL], Enqueue(7, 0));
    LosslessGrows(cfg, [INITIAL] + [s1], Start(1));
    LosslessGrows(cfg, [INITIAL] + [s1] + [s2], Start(2));
    assert Step(cfg, s2, Start(2)) == STARTED;
  }

  lemma ClaimAndWait(cfg: Config)
    requires ValidConfig(cfg)
    ensures Enabled(cfg, STARTED, Claim(1, [7]))
    ensures Step(cfg, Step(cfg, STARTED, Claim(1, [7])), Tick(cfg.lockDuration + 1)) == OverdueState(cfg)
  {
    var s := Step(cfg, STARTED, Claim(1, [7]));
    assert s.rows == OverdueState(cfg).rows;
    assert s.workers[1].queue == [Entry(7, 1, cfg.lockDuration)];
    assert s.workers == OverdueState(cfg).workers;
  }

  lemma Overdue(cfg: Config)
    requires ValidConfig(cfg)
    ensures exists run :: IsLosslessRun(cfg, run) && run[|run| - 1] == OverdueState(cfg)
  {
    Started(cfg);
    var run :| IsLosslessRun(cfg, run) && run[|run| - 1] == STARTED;
    ClaimAndWait(cfg);
    LosslessGrows(cfg, run, Claim(1, [7]));
    LosslessGrows(cfg, run + [Step(cfg, STARTED, Claim(1, [7]))], Tick(cfg.lockDuration + 1));
  }

  /** How recording a failed dispatch went. */
  datatype Record = Record(stored: bool, ok: bool, random: real)

  /** How the dispatch of one claimed row went: sent and marked, the send failed, or the mark did. */
  datatype Attempt =
    | Delivered
    | Unsent(appended: bool, record: Record)
    | Unmarked(stored: bool, record: Record)

  predicate ValidRecord(r: Record) { 0.0 <= r.random < 1.0 && (r.ok ==> r.stored) }

  predicate ValidAttempt(a: Attempt) { a.Delivered? || ValidRecord(a.record) }

  /** Whether the batch goes on; a failure that could not be recorded ends the tick. */
  predicate GoesOn(a: Attempt) { a.Delivered? || a.record.ok }

  function Recorded(cfg: Config, r: Row, attempts: nat, now: nat, record: Record): Row
    requires ValidRecord(record)
  {
    if record.stored then AfterFailure(cfg, r, attempts, now, record.random) else r
  }

  function RowAfter(cfg: Config, r: Row, attempts: nat, now: nat, a: Attempt): Row
    requires ValidAttempt(a)
  {
    match a
    case Delivered => Marked(r, now)
    case Unsent(_, record) => Recorded(cfg, r, attempts, now, record)
    case Unmarked(stored, record) => Recorded(cfg, if stored then Marked(r, now) else r, attempts, now, record)
  }

  function SendsAfter(sends: map<nat, nat>, id: nat, a: Attempt): map<nat, nat> {
    if a.Unsent? && !a.appended then sends else sends[id := (if id in sends then sends[id] else 0) + 1]
  }

  function WorkerAfter(worker: Worker, a: Attempt): Worker
    requires worker.queue != []
  {
    if GoesOn(a) then Next(worker) else worker.(queue := [], phase := Ready)
  }

  function Dispatched(cfg: Config, s: State, w: nat, a: Attempt): State
    requires Busy(s, w, Ready) && ValidAttempt(a)
  {
    var c := s.workers[w].queue[0];
    s.(rows := s.rows[c.id := RowAfter(cfg, s.rows[c.id], c.attempts, s.now, a)],
       sends := SendsAfter(s.sends, c.id, a),
       workers := s.workers[w := WorkerAfter(s.workers[w], a)])
  }

  ghost predicate Leads(cfg: Config, s: State, s': State, steps: nat)
    decreases steps
  {
    if steps == 0 then s == s' else exists mid :: Follows(cfg, s, mid) && Leads(cfg, mid, s', steps - 1)
  }

  lemma OneStep(cfg: Config, s: State, e: Event)
    requires Enabled(cfg, s, e)
    ensures Follows(cfg, s, Step(cfg, s, e)) && Leads(cfg, s, Step(cfg, s, e), 1)
  {
    var s' := Step(cfg, s, e);
    StepFollows(cfg, s, e, s');
    assert Leads(cfg, s', s', 0);
  }

  lemma StepFollows(cfg: Config, s: State, e: Event, s': State)
    requires Enabled(cfg, s, e) && s' == Step(cfg, s, e)
    ensures Follows(cfg, s, s')
  {
  }

  /** Recording a failure is the last step of a dispatch. */
  lemma RecordStep(cfg: Config, s: State, w: nat, record: Record, last: State)
    requires Busy(s, w, Erred) && ValidRecord(record)
    requires var c := s.workers[w].queue[0];
      && last.now == s.now && last.sends == s.sends
      && last.rows == s.rows[c.id := Recorded(cfg, s.rows[c.id], c.attempts, s.now, record)]
      && last.workers
        == s.workers[w := if record.ok then Next(s.workers[w]) else s.workers[w].(queue := [], phase := Ready)]
    ensures Leads(cfg, s, last, 1)
  {
    var e := Recover(w, record.stored, record.ok, record.random);
    assert Step(cfg, s, e).rows == last.rows;
    OneStep(cfg, s, e);
  }

  lemma MarkStep(cfg: Config, s: State, w: nat, last: State)
    requires Busy(s, w, Sent)
    requires var c := s.workers[w].queue[0];
      && last.now == s.now && last.sends == s.sends
      && last.rows == s.rows[c.id := Marked(s.rows[c.id], s.now)]
      && last.workers == s.workers[w := Next(s.workers[w])]
    ensures Leads(cfg, s, last, 1)
  {
    OneStep(cfg, s, Mark(w, true, true));
  }

  lemma DeliveredIsAPath(cfg: Config, s: State, w: nat)
    requires Busy(s, w, Ready)
    ensures Leads(cfg, s, Dispatched(cfg, s, w, Delivered), 2)
  {
    var s1, last := Step(cfg, s, Send(w, true, true)), Dispatched(cfg, s, w, Delivered);
    OneStep(cfg, s, Send(w, true, true));
    assert last.workers == s1.workers[w := WorkerAfter(s.workers[w], Delivered)];
    MarkStep(cfg, s1, w, last);
  }

  lemma UnsentIsAPath(cfg: Config, s: State, w: nat, a: Attempt)
    requires Busy(s, w, Ready) && ValidAttempt(a) && a.Unsent?
    ensures Leads(cfg, s, Dispatched(cfg, s, w, a), 2)
  {
    var s1, last := Step(cfg, s, Send(w, a.appended, false)), Dispatched(cfg, s, w, a);
    OneStep(cfg, s, Send(w, a.appended, false));
    assert last.workers == s1.workers[w := WorkerAfter(s.workers[w], a)];
    RecordStep(cfg, s1, w, a.record, last);
  }

  lemma UnmarkedIsAPath(cfg: Config, s: State, w: nat, a: Attempt)
    requires Busy(s, w, Ready) && ValidAttempt(a) && a.Unmarked?
    ensures Leads(cfg, s, Dispatched(cfg, s, w, a), 3)
  {
    var s1, last := Step(cfg, s, Send(w, true, true)), Dispatched(cfg, s, w, a);
    OneStep(cfg, s, Send(w, true, true));
    assert last.workers == s1.workers[w := WorkerAfter(s.workers[w], a)];
    MarkThenRecord(cfg, s1, w, a.stored, a.record, last);
  }

  /** The dispatcher's straight-line code is a path of the state machine, whatever fails. */
  lemma DispatchIsAPath(cfg: Config, s: State, w: nat, a: Attempt)
    requires Busy(s, w, Ready) && ValidAttempt(a)
    ensures Leads(cfg, s, Dispatched(cfg, s, w, a), if a.Unmarked? then 3 else 2)
  {
    match a
    case Delivered => DeliveredIsAPath(cfg, s, w);
    case Unsent(_, _) => UnsentIsAPath(cfg, s, w, a);
    case Unmarked(_, _) => UnmarkedIsAPath(cfg, s, w, a);
  }

  lemma MarkThenRecord(cfg: Config, s: State, w: nat, stored: bool, record: Record, last: State)
    requires Busy(s, w, Sent) && ValidRecord(record)
    requires var c := s.workers[w].queue[0];
      && last.now == s.now && last.sends == s.sends
      && last.rows == s.rows[c.id := RowAfter(cfg, s.rows[c.id], c.attempts, s.now, Unmarked(stored, record))]
      && last.workers
        == s.workers[w := if record.ok then Next(s.workers[w]) else s.workers[w].(queue := [], phase := Ready)]
    ensures Leads(cfg, s, last, 2)
  {
    var s1 := Step(cfg, s, Mark(w, stored, false));
    OneStep(cfg, s, Mark(w, stored, false));
    var c := s.workers[w].queue[0];
    assert last.rows == s1.rows[c.id := Recorded(cfg, s1.rows[c.id], c.attempts, s1.now, record)];
    assert last.workers
      == s1.workers[w := if record.ok then Next(s1.workers[w]) else s1.workers[w].(queue := [], phase := Ready)];
    RecordStep(cfg, s1, w, record, last);
  }

  ghost predicate ValidBatch(rows: map<nat, Row>, batch: seq<Entry>, attempts: seq<Attempt>) {
    && |attempts| == |batch| && (forall i | 0 <= i < |batch| :: batch[i].id in rows)
    && forall i | 0 <= i < |batch| :: ValidAttempt(attempts[i])
  }

  /** The rows after the first n dispatches of a batch. */
  ghost function BatchRows(cfg: Config, rows: map<nat, Row>, batch: seq<Entry>, now: nat, attempts: seq<Attempt>,
                           n: nat): (r: map<nat, Row>)
    requires n <= |batch| && ValidBatch(rows, batch, attempts)
    ensures r.Keys == rows.Keys
  {
    if n == 0 then rows
    else
      var before, c := BatchRows(cfg, rows, batch, now, attempts, n - 1), batch[n - 1];
      before[c.id := RowAfter(cfg, before[c.id], c.attempts, now, attempts[n - 1])]
  }

  ghost function BatchSends(sends: map<nat, nat>, batch: seq<Entry>, attempts: seq<Attempt>, n: nat): map<nat, nat>
    requires n <= |batch| == |attempts|
  {
    if n == 0 then sends
    else SendsAfter(BatchSends(sends, batch, attempts, n - 1), batch[n - 1].id, attempts[n - 1])
  }

  /** A batch is dispatched up to and with the first attempt that does not let the tick go on. */
  ghost predicate StopsAfter(attempts: seq<Attempt>, n: nat) {
    && n <= |attempts|
    && (forall i | 0 <= i < n - 1 :: GoesOn(attempts[i]))
    && (n < |attempts| ==> n > 0 && !GoesOn(attempts[n - 1]))
  }

  /** The batch a claim returns: the chosen rows, each with the attempt just counted. */
  ghost predicate IsBatch(batch: seq<Entry>, rows: map<nat, Row>, ids: seq<nat>, until: nat) {
    && |batch| == |ids|
    && forall i | 0 <= i < |ids| :: ids[i] in rows && batch[i] == Entry(ids[i], rows[ids[i]].attempts + 1, until)
  }

  /** The rows a claim may take: those claimable now that no other claim has locked at this instant. */
  function Offered(rows: map<nat, Row>, now: nat, skipped: set<nat>): set<nat> {
    set id | id in rows && id !in skipped && Claimable(rows[id], now)
  }

  function Since(rows: map<nat, Row>, id: nat): nat {
    if id in rows && rows[id].availableAt.At? then rows[id].availableAt.time else 0
  }

  /** The claim takes up to `limit` of them, those available longest. */
  ghost predicate OldestOf(rows: map<nat, Row>, offered: set<nat>, limit: nat, chosen: set<nat>) {
    && chosen <= offered && |chosen| <= limit
    && (chosen != offered ==> |chosen| == limit)
    && forall id, left | id in chosen && left in offered - chosen :: Since(rows, id) <= Since(rows, left)
  }

  function Members(ids: seq<nat>): set<nat> { set id | id in ids }

  /** What the claiming query returns, in any order. */
  ghost predicate Chosen(rows: map<nat, Row>, now: nat, limit: nat, skipped: set<nat>, ids: seq<nat>) {
    && (forall i, j | 0 <= i < j < |ids| :: ids[i] != ids[j])
    && OldestOf(rows, Offered(rows, now, skipped), limit, Members(ids))
  }

  predicate IsOldest(rows: map<nat, Row>, left: set<nat>, id: nat) {
    id in left && forall o | o in left :: Since(rows, id) <= Since(rows, o)
  }

  lemma {:induction false} OldestExists(rows: map<nat, Row>, left: set<nat>) returns (id: nat)
    requires left != {}
    ensures IsOldest(rows, left, id)
    decreases |left|
  {
    var one :| one in left;
    var rest := left - {one};
    id := one;
    if rest != {} {
      id := OldestExists(rows, rest);
      OlderOfTwo(rows, rest, id, one);
      if Since(rows, one) < Since(rows, id) { id := one; }
      assert rest + {one} == left;
    }
  }

  lemma OlderOfTwo(rows: map<nat, Row>, rest: set<nat>, id: nat, one: nat)
    requires IsOldest(rows, rest, id)
    ensures IsOldest(rows, rest + {one}, if Since(rows, one) < Since(rows, id) then one else id)
  {
  }

  ghost predicate Taken(rows: map<nat, Row>, offered: set<nat>, chosen: set<nat>, left: set<nat>) {
    && chosen <= offered && left == offered - chosen
    && forall id, o | id in chosen && o in left :: Since(rows, id) <= Since(rows, o)
  }

  lemma TakesNext(rows: map<nat, Row>, offered: set<nat>, chosen: set<nat>, left: set<nat>, id: nat)
    requires Taken(rows, offered, chosen, left) && IsOldest(rows, left, id)
    ensures Taken(rows, offered, chosen + {id}, left - {id})
    ensures |chosen + {id}| == |chosen| + 1 && |left - {id}| < |left|
  {
  }

  method ChooseOldest(rows: map<nat, Row>, offered: set<nat>, limit: nat) returns (chosen: set<nat>)
    ensures OldestOf(rows, offered, limit, chosen)
  {
    chosen := {};
    var left := offered;
    while left != {} && |chosen| < limit
      invariant Taken(rows, offered, chosen, left) && |chosen| <= limit
      decreases |left|
    {
      ghost var some := OldestExists(rows, left);
      var id :| IsOldest(rows, left, id);
      TakesNext(rows, offered, chosen, left, id);
      chosen, left := chosen + {id}, left - {id};
    }
  }

  method Listed(chosen: set<nat>) returns (ids: seq<nat>)
    ensures forall i, j | 0 <= i < j < |ids| :: ids[i] != ids[j]
    ensures Members(ids) == chosen
  {
    ids := [];
    var left := chosen;
    while left != {}
      invariant forall i, j | 0 <= i < j < |ids| :: ids[i] != ids[j]
      invariant left !! Members(ids) && left + Members(ids) == chosen
      decreases |left|
    {
      var id :| id in left;
      ids, left := ids + [id], left - {id};
    }
  }

  /** A query's choice is one the protocol allows an idle worker. */
  lemma ChosenEnabled(cfg: Config, s: State, w: nat, skipped: set<nat>, ids: seq<nat>)
    requires w in s.workers && s.workers[w] == IDLE && Chosen(s.rows, s.now, cfg.batchSize, skipped, ids)
    ensures Enabled(cfg, s, Claim(w, ids))
  {
    DistinctSize(ids);
    forall i | 0 <= i < |ids| ensures ids[i] in s.rows && Claimable(s.rows[ids[i]], s.now) {
      assert ids[i] in Members(ids);
    }
  }

  lemma {:induction false} DistinctSize(ids: seq<nat>)
    requires forall i, j | 0 <= i < j < |ids| :: ids[i] != ids[j]
    ensures |Members(ids)| == |ids|
  {
    if ids != [] {
      var n := |ids| - 1;
      DistinctSize(ids[..n]);
      assert Members(ids) == Members(ids[..n]) + {ids[n]};
    }
  }

  /** A claim that took effect although its answer was lost leaves rows locked that nobody dispatches;
      to the others it is a worker that crashed right after its claim. */
  lemma LostClaimIsAPath(cfg: Config, s: State, w: nat, ids: seq<nat>)
    requires Enabled(cfg, s, Claim(w, ids))
    ensures Leads(cfg, s, s.(rows := ClaimRows(s.rows, ids, w, s.now + cfg.lockDuration)), 2)
  {
    var claimed := Step(cfg, s, Claim(w, ids));
    var last := Step(cfg, claimed, Crash(w));
    OneStep(cfg, s, Claim(w, ids));
    OneStep(cfg, claimed, Crash(w));
    assert last.workers == s.workers;
    assert last == s.(rows := ClaimRows(s.rows, ids, w, s.now + cfg.lockDuration));
  }

  /** Whether the claiming statement came back; if it did not, it may have taken effect all the same. */
  datatype ClaimReply = Answered | Unanswered(stored: bool)

  class OutboxDispatcher {
    const cfg: Config
    const worker: nat
    var rows: map<nat, Row>
    var sends: map<nat, nat>
    var timer: bool
    var running: bool
    var stopping: bool

    constructor (cfg: Config, worker: nat, rows: map<nat, Row>)
      ensures this.cfg == cfg && this.worker == worker && this.rows == rows && sends == map[]
      ensures !timer && !running && !stopping
    {
      this.cfg, this.worker, this.rows, sends := cfg, worker, rows, map[];
      timer, running, stopping := false, false, false;
    }

    /** The claiming statement: it locks the rows available longest, counts an attempt on each and
        returns them. */
    method ClaimBatch(now: nat, skipped: set<nat>) returns (ids: seq<nat>, batch: seq<Entry>)
      modifies this`rows
      ensures Chosen(old(rows), now, cfg.batchSize, skipped, ids)
      ensures rows == ClaimRows(old(rows), ids, worker, now + cfg.lockDuration)
      ensures IsBatch(batch, old(rows), ids, now + cfg.lockDuration)
    {
      var chosen := ChooseOldest(rows, Offered(rows, now, skipped), cfg.batchSize);
      ids := Listed(chosen);
      var before, until := rows, now + cfg.lockDuration;
      forall i | 0 <= i < |ids| ensures ids[i] in before { assert ids[i] in Members(ids); }
      batch := seq(|ids|, i requires 0 <= i < |ids| && ids[i] in before =>
        Entry(ids[i], before[ids[i]].attempts + 1, until));
      rows := ClaimRows(rows, ids, worker, until);
    }

    method Dispatch(c: Entry, now: nat, a: Attempt) returns (goesOn: bool)
      requires c.id in rows && ValidAttempt(a)
      modifies this`rows, this`sends
      ensures rows == old(rows)[c.id := RowAfter(cfg, old(rows)[c.id], c.attempts, now, a)]
      ensures sends == SendsAfter(old(sends), c.id, a)
      ensures goesOn <==> GoesOn(a)
    {
      if a.Delivered? || a.Unmarked? || a.appended {
        sends := sends[c.id := (if c.id in sends then sends[c.id] else 0) + 1];
      }
      if a.Delivered? || (a.Unmarked? && a.stored) {
        rows := rows[c.id := Marked(rows[c.id], now)];
      }
      if a.Delivered? { return true; }
      if a.record.stored {
        rows := rows[c.id := AfterFailure(cfg, rows[c.id], c.attempts, now, a.record.random)];
      } else {
        rows := rows[c.id := rows[c.id]];
      }
      goesOn := a.record.ok;
    }

    method DispatchAll(batch: seq<Entry>, now: nat, attempts: seq<Attempt>) returns (n: nat)
      requires ValidBatch(rows, batch, attempts)
      modifies this`rows, this`sends
      ensures n <= |batch| && StopsAfter(attempts, n)
      ensures rows == BatchRows(cfg, old(rows), batch, now, attempts, n)
      ensures sends == BatchSends(old(sends), batch, attempts, n)
    {
      n := 0;
      var goesOn := true;
      while n < |batch| && goesOn
        invariant n <= |batch| && rows == BatchRows(cfg, old(rows), batch, now, attempts, n)
        invariant sends == BatchSends(old(sends), batch, attempts, n)
        invariant goesOn ==> forall i | 0 <= i < n :: GoesOn(attempts[i])
        invariant !goesOn ==> n > 0 && !GoesOn(attempts[n - 1]) && forall i | 0 <= i < n - 1 :: GoesOn(attempts[i])
      {
        goesOn := Dispatch(batch[n], now, attempts[n]);
        n := n + 1;
      }
    }

    /** One poll: skipped while another is running or after a stop, otherwise a claimed batch is
        dispatched row by row up to the first failure that cannot be recorded. A claim that is not
        answered ends the poll. */
    method Tick(now: nat, skipped: set<nat>, reply: ClaimReply, fate: nat -> Attempt)
        returns (ids: seq<nat>, batch: seq<Entry>, attempts: seq<Attempt>, n: nat)
      requires forall i: nat :: ValidAttempt(fate(i))
      modifies this`rows, this`sends, this`running
      ensures old(running) || stopping ==> rows == old(rows) && sends == old(sends) && running == old(running)
      ensures !old(running) && !stopping ==> !running
      ensures !old(running) && !stopping && reply == Unanswered(false) ==> rows == old(rows) && sends == old(sends)
      ensures !old(running) && !stopping && reply != Unanswered(false) ==>
        Chosen(old(rows), now, cfg.batchSize, skipped, ids)
      ensures !old(running) && !stopping && reply == Unanswered(true) ==>
        rows == ClaimRows(old(rows), ids, worker, now + cfg.lockDuration) && sends == old(sends)
      ensures !old(running) && !stopping && reply.Answered? ==>
        && IsBatch(batch, old(rows), ids, now + cfg.lockDuration)
        && |attempts| == |batch| && (forall i: nat | i < |batch| :: attempts[i] == fate(i)) && StopsAfter(attempts, n)
      ensures !old(running) && !stopping && reply.Answered? ==>
        && rows == BatchRows(cfg, ClaimRows(old(rows), ids, worker, now + cfg.lockDuration), batch, now, attempts, n)
        && sends == BatchSends(old(sends), batch, attempts, n)
    {
      ids, batch, attempts, n := [], [], [], 0;
      if running || stopping { return; }
      running := true;
      if reply != Unanswered(false) {
        ids, batch := ClaimBatch(now, skipped);
        if reply.Answered? {
          attempts := seq(|batch|, i requires 0 <= i < |batch| => fate(i));
          n := DispatchAll(batch, now, attempts);
        }
      }
      running := false;
    }

    /** Stops the timer and waits until a running poll has ended; `ends(k)` says whether it ends during
        pause k. No poll starts meanwhile or afterwards. */
    method Stop(ends: nat -> bool, ghost last: nat) returns (pauses: nat)
      requires running ==> ends(last)
      modifies this`timer, this`stopping, this`running
      ensures stopping && !timer && !running
      ensures !old(running) ==> pauses == 0
      ensures old(running) ==> pauses > 0 && ends(pauses - 1) && forall k: nat | k < pauses - 1 :: !ends(k)
    {
      stopping := true;
      timer := false;
      pauses := 0;
      while running
        invariant stopping && !timer
        invariant running ==> pauses <= last && forall k: nat | k < pauses :: !ends(k)
        invariant running ==> old(running)
        invariant !running && old(running) ==>
          pauses > 0 && ends(pauses - 1) && forall k: nat | k < pauses - 1 :: !ends(k)
        invariant !old(running) ==> pauses == 0
        decreases if running then last + 1 - pauses else 0
      {
        if ends(pauses) { running := false; }
        pauses := pauses + 1;
      }
    }
  }
}
