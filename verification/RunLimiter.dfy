/** The cross-replica run limiter: three Redis scripts over one sorted set, and the leases of any
    number of clients that call them. */
module RunLimiter {
  import opened Prelude

  /** A scope's sorted set: each owner's expiry score, and the expiry of the key itself. A key whose
      time has come is gone, whatever members it still listed. */
  datatype Slots = Slots(scores: map<nat, nat>, keyExpires: nat)

  const EMPTY := Slots(map[], 0)

  /** What Redis has under the key at an instant. */
  function Seen(k: Slots, now: nat): Slots {
    if k.keyExpires <= now then EMPTY else k
  }

  function Prune(scores: map<nat, nat>, now: nat): map<nat, nat> {
    map o | o in scores && scores[o] > now :: scores[o]
  }

  datatype Params = Params(max: nat, ttl: nat)

  predicate ValidParams(p: Params) { p.max >= 1 && p.ttl >= 1 }

  function AcquireScript(p: Params, k: Slots, now: nat, owner: nat): (Slots, bool) {
    var live := Prune(Seen(k, now).scores, now);
    if |live| >= p.max then (Slots(live, now + p.ttl), false)
    else (Slots(live[owner := now + p.ttl], now + p.ttl), true)
  }

  function RenewScript(p: Params, k: Slots, now: nat, owner: nat): (Slots, bool) {
    var seen := Seen(k, now);
    if owner !in seen.scores then (seen, false)
    else (Slots(seen.scores[owner := now + p.ttl], now + p.ttl), true)
  }

  function ReleaseScript(k: Slots, now: nat, owner: nat): Slots {
    var seen := Seen(k, now);
    var left := seen.scores - {owner};
    if left == map[] then EMPTY else Slots(left, seen.keyExpires)
  }

  /** The client side of one lease. */
  datatype Lease = Lease(released: bool, aborted: bool, renewing: Flight)

  datatype Flight = Idle | Sent | Answered(renewed: bool) | Failed

  predicate Running(l: Lease) { !l.released && !l.aborted }

  function BeginRenew(l: Lease): Lease {
    if l.released || l.renewing != Idle || l.aborted then l else l.(renewing := Sent)
  }

  /** A reply that is not a success, or an error, ends the run unless it was already released. */
  function EndRenew(l: Lease, ok: bool): Lease {
    l.(renewing := Idle, aborted := l.aborted || (!ok && !l.released))
  }

  function BeginRelease(l: Lease): Lease { l.(released := true) }

  class OperatorRunLease {
    var released: bool
    var aborted: bool
    var renewing: Flight
    var timer: bool

    ghost function View(): Lease reads this { Lease(released, aborted, renewing) }

    ghost predicate Valid() reads this { timer <==> Running(View()) }

    constructor ()
      ensures Valid() && View() == Lease(false, false, Idle)
    {
      released, aborted, renewing, timer := false, false, Idle, true;
    }

    /** The renewal timer fires. */
    method Renew() returns (sends: bool)
      requires Valid()
      modifies this
      ensures Valid() && View() == BeginRenew(old(View()))
      ensures sends <==> Running(old(View())) && old(renewing) == Idle
    {
      if released || renewing != Idle || aborted { return false; }
      renewing := Sent;
      sends := true;
    }

    method LoseLease()
      requires Valid()
      modifies this
      ensures Valid() && View() == old(View()).(aborted := old(aborted) || !old(released))
    {
      if released || aborted { return; }
      timer := false;
      aborted := true;
    }

    method SettleRenewal(ok: bool)
      requires Valid()
      modifies this
      ensures Valid() && View() == EndRenew(old(View()), ok)
    {
      renewing := Idle;
      if !released && !ok { LoseLease(); }
    }

    /** Returns whether the release script goes out. */
    method Release() returns (sends: bool)
      requires Valid()
      modifies this
      ensures Valid() && View() == BeginRelease(old(View()))
      ensures sends <==> !old(released)
    {
      if released { return false; }
      released := true;
      timer := false;
      sends := true;
    }
  }

  /** One scope with all its clients. `used` are the owner tokens ever drawn, `freed` those whose
      release script ran, `confirmedAt` when an owner last acquired or renewed, by Redis' clock. */
  datatype State = State(now: nat, key: Slots, leases: map<nat, Lease>, used: set<nat>, freed: set<nat>,
                         confirmedAt: map<nat, nat>)

  const INITIAL := State(0, EMPTY, map[], {}, {}, map[])

  datatype Event =
    | Tick(elapsed: nat)
    | Acquire(owner: nat, answered: bool)
    | Timer(owner: nat)
    | EvalRenew(owner: nat, answered: bool)
    | DropRenew(owner: nat)
    | Settle(owner: nat)
    | CallRelease(owner: nat)
    | EvalRelease(owner: nat)

  /** Owner tokens are fresh; a release script runs only after the client called release. */
  predicate Enabled(s: State, e: Event) {
    match e
    case Tick(_) => true
    case Acquire(o, _) => o !in s.used
    case Timer(o) => o in s.leases
    case EvalRenew(o, _) => o in s.leases && s.leases[o].renewing == Sent
    case DropRenew(o) => o in s.leases && s.leases[o].renewing == Sent
    case Settle(o) => o in s.leases && s.leases[o].renewing !in {Idle, Sent}
    case CallRelease(o) => o in s.leases
    case EvalRelease(o) => o in s.leases && s.leases[o].released
  }

  function Put(s: State, o: nat, l: Lease): State { s.(leases := s.leases[o := l]) }

  function Step(p: Params, s: State, e: Event): State
    requires Enabled(s, e)
  {
    match e
    case Tick(d) => s.(now := s.now + d)
    case Acquire(o, answered) =>
      var (key, admitted) := AcquireScript(p, s.key, s.now, o);
      var s' := s.(key := key, used := s.used + {o});
      if !admitted then s'
      else
        var s'' := s'.(confirmedAt := s.confirmedAt[o := s.now]);
        if answered then Put(s'', o, Lease(false, false, Idle)) else s''
    case Timer(o) => Put(s, o, BeginRenew(s.leases[o]))
    case EvalRenew(o, answered) =>
      var (key, renewed) := RenewScript(p, s.key, s.now, o);
      var s' := Put(s.(key := key), o, s.leases[o].(renewing := if answered then Answered(renewed) else Failed));
      if renewed then s'.(confirmedAt := s.confirmedAt[o := s.now]) else s'
    case DropRenew(o) => Put(s, o, s.leases[o].(renewing := Failed))
    case Settle(o) => Put(s, o, EndRenew(s.leases[o], s.leases[o].renewing == Answered(true)))
    case CallRelease(o) => Put(s, o, BeginRelease(s.leases[o]))
    case EvalRelease(o) => s.(key := ReleaseScript(s.key, s.now, o), freed := s.freed + {o})
  }

  /** The members Redis would list at this instant. */
  function Members(s: State): map<nat, nat> { Seen(s.key, s.now).scores }

  /** A listed owner's score is one lifetime after its confirmation and the key outlives it; an owner
      confirmed less than one lifetime ago that has not been freed is listed. */
  predicate Accounted(p: Params, s: State, o: nat) {
    && (o in s.key.scores ==>
      && o in s.confirmedAt && o !in s.freed
      && s.key.scores[o] == s.confirmedAt[o] + p.ttl <= s.key.keyExpires)
    && (o in s.confirmedAt ==> o in s.used && s.confirmedAt[o] <= s.now)
    && (o in s.confirmedAt && o !in s.freed && s.now < s.confirmedAt[o] + p.ttl ==> o in s.key.scores)
    && (o in s.leases ==> o in s.confirmedAt)
    && (o in s.freed ==> o in s.leases && s.leases[o].released)
  }

  ghost predicate Invariant(p: Params, s: State) {
    |s.key.scores| <= p.max && forall o :: Accounted(p, s, o)
  }

  lemma FewerKeys(a: map<nat, nat>, b: map<nat, nat>)
    requires a.Keys <= b.Keys
    ensures |a| <= |b|
  {
    SubsetSize(a.Keys, b.Keys);
    assert |a.Keys| == |a| && |b.Keys| == |b|;
  }

  lemma AcquireSize(p: Params, s: State, o: nat)
    requires ValidParams(p) && Invariant(p, s) && o !in s.used
    ensures |AcquireScript(p, s.key, s.now, o).0.scores| <= p.max
  {
    var live := Prune(Seen(s.key, s.now).scores, s.now);
    assert Accounted(p, s, o);
    FewerKeys(live, s.key.scores);
    if |live| < p.max { assert live[o := s.now + p.ttl].Keys == live.Keys + {o}; }
  }

  lemma AcquireKeeps(p: Params, s: State, o: nat, answered: bool)
    requires ValidParams(p) && Invariant(p, s) && o !in s.used
    ensures Invariant(p, Step(p, s, Acquire(o, answered)))
  {
    AcquireSize(p, s, o);
    forall q ensures Accounted(p, Step(p, s, Acquire(o, answered)), q) { assert Accounted(p, s, q); }
  }

  lemma RenewKeeps(p: Params, s: State, o: nat, answered: bool)
    requires ValidParams(p) && Invariant(p, s) && Enabled(s, EvalRenew(o, answered))
    ensures Invariant(p, Step(p, s, EvalRenew(o, answered)))
  {
    var seen := Seen(s.key, s.now);
    if o in seen.scores { FewerKeys(seen.scores[o := s.now + p.ttl], s.key.scores); }
    forall q ensures Accounted(p, Step(p, s, EvalRenew(o, answered)), q) { assert Accounted(p, s, q); }
  }

  lemma ReleaseKeeps(p: Params, s: State, o: nat)
    requires ValidParams(p) && Invariant(p, s) && Enabled(s, EvalRelease(o))
    ensures Invariant(p, Step(p, s, EvalRelease(o)))
  {
    FewerKeys(Seen(s.key, s.now).scores - {o}, s.key.scores);
    forall q ensures Accounted(p, Step(p, s, EvalRelease(o)), q) { assert Accounted(p, s, q); }
  }

  lemma StepKeeps(p: Params, s: State, e: Event)
    requires ValidParams(p) && Invariant(p, s) && Enabled(s, e)
    ensures Invariant(p, Step(p, s, e))
  {
    match e
    case Acquire(o, answered) => AcquireKeeps(p, s, o, answered);
    case EvalRenew(o, answered) => RenewKeeps(p, s, o, answered);
    case EvalRelease(o) => ReleaseKeeps(p, s, o);
    case _ => forall q ensures Accounted(p, Step(p, s, e), q) { assert Accounted(p, s, q); }
  }

  ghost predicate Follows(p: Params, s: State, s': State) {
    exists e :: Enabled(s, e) && s' == Step(p, s, e)
  }

  ghost predicate IsRun(p: Params, run: seq<State>) {
    && |run| > 0 && run[0] == INITIAL
    && forall i | 0 <= i < |run| - 1 :: Follows(p, run[i], run[i + 1])
  }

  lemma {:induction false} RunKeeps(p: Params, run: seq<State>, i: nat)
    requires ValidParams(p) && IsRun(p, run) && i < |run|
    ensures Invariant(p, run[i])
  {
    if i > 0 {
      RunKeeps(p, run, i - 1);
      assert Follows(p, run[i - 1], run[i - 1 + 1]);
      var e :| Enabled(run[i - 1], e) && run[i] == Step(p, run[i - 1], e);
      StepKeeps(p, run[i - 1], e);
    }
  }

  /** Owners admitted or renewed less than one lifetime ago and not yet freed. */
  function Current(p: Params, s: State): set<nat> {
    set o | o in s.confirmedAt && o !in s.freed && s.now < s.confirmedAt[o] + p.ttl
  }

  /** In every interleaving the slot set respects the limit, the key's own expiry drops no live
      member, and so current runs never exceed the limit. */
  lemma LimitHolds(p: Params, run: seq<State>, i: nat)
    requires ValidParams(p) && IsRun(p, run) && i < |run|
    ensures |Members(run[i])| <= p.max
    ensures forall o | o in run[i].key.scores && run[i].now < run[i].key.scores[o] :: o in Members(run[i])
    ensures Current(p, run[i]) <= Members(run[i]).Keys && |Current(p, run[i])| <= p.max
  {
    RunKeeps(p, run, i);
    var s := run[i];
    forall o ensures o in s.key.scores && s.now < s.key.scores[o] ==> o in Members(s) { assert Accounted(p, s, o); }
    forall o | o in Current(p, s) ensures o in Members(s) { assert Accounted(p, s, o); }
    SubsetSize(Current(p, s), Members(s).Keys);
  }

  ghost predicate Gone(s: State, o: nat) {
    o in s.used && o !in Members(s)
  }

  lemma GoneStaysGone(p: Params, s: State, e: Event, o: nat)
    requires ValidParams(p) && Enabled(s, e) && Gone(s, o)
    ensures Gone(Step(p, s, e), o)
  {
  }

  lemma GoneFollows(p: Params, s: State, s': State, o: nat)
    requires ValidParams(p) && Follows(p, s, s') && Gone(s, o)
    ensures Gone(s', o)
  {
    var e :| Enabled(s, e) && s' == Step(p, s, e);
    GoneStaysGone(p, s, e, o);
  }

  /** An owner that was released or pruned never reappears in the slot set. */
  lemma {:induction false} NeverReappears(p: Params, run: seq<State>, i: nat, j: nat, o: nat)
    requires ValidParams(p) && IsRun(p, run) && i <= j < |run|
    requires Gone(run[i], o)
    ensures Gone(run[j], o)
  {
    if i < j {
      NeverReappears(p, run, i, j - 1, o);
      assert Follows(p, run[j - 1], run[j - 1 + 1]);
      GoneFollows(p, run[j - 1], run[j], o);
    }
  }

  function RunningLeases(s: State): set<nat> {
    set o | o in s.leases && Running(s.leases[o])
  }

  /** Runs still going that were last confirmed a lifetime ago. */
  function StaleLeases(p: Params, s: State): set<nat> {
    set o | o in RunningLeases(s) && o in s.confirmedAt && s.confirmedAt[o] + p.ttl <= s.now
  }

  /** The runs still going exceed the limit by no more than those last confirmed a lifetime ago; so
      an overrun has such a run. */
  lemma OverrunMeansStale(p: Params, run: seq<State>, i: nat)
    requires ValidParams(p) && IsRun(p, run) && i < |run|
    ensures |RunningLeases(run[i])| <= p.max + |StaleLeases(p, run[i])|
    ensures |RunningLeases(run[i])| > p.max ==> StaleLeases(p, run[i]) != {}
  {
    LimitHolds(p, run, i);
    RunKeeps(p, run, i);
    var s := run[i];
    forall o | o in RunningLeases(s) ensures o in Current(p, s) + StaleLeases(p, s) { assert Accounted(p, s, o); }
    SubsetSize(RunningLeases(s), Current(p, s) + StaleLeases(p, s));
  }

  ghost predicate Reachable(p: Params, s: State) {
    exists run :: IsRun(p, run) && run[|run| - 1] == s
  }

  lemma ReachStep(p: Params, s: State, e: Event)
    requires Reachable(p, s) && Enabled(s, e)
    ensures Reachable(p, Step(p, s, e))
  {
    var run :| IsRun(p, run) && run[|run| - 1] == s;
    var longer := run + [Step(p, s, e)];
    StepFollows(p, s, e);
    forall i | 0 <= i < |longer| - 1 ensures Follows(p, longer[i], longer[i + 1]) {
      if i < |run| - 1 { assert Follows(p, run[i], run[i + 1]); }
    }
    assert IsRun(p, longer);
  }

  function Live(s: State): map<nat, nat> { Prune(Seen(s.key, s.now).scores, s.now) }

  ghost predicate Named(s: State, n: nat) { s.used == s.leases.Keys == s.confirmedAt.Keys == Upto(n) }

  predicate Hung(p: Params, s: State, o: nat) {
    o in s.leases && s.leases[o] == Lease(false, false, Sent) && o in s.confirmedAt && s.confirmedAt[o] + p.ttl <= s.now
  }

  predicate JustAdmitted(s: State, o: nat) {
    o in s.leases && s.leases[o] == Lease(false, false, Idle) && o in s.confirmedAt && s.confirmedAt[o] == s.now
  }

  ghost predicate Slotted(p: Params, s: State, m: nat) {
    |Live(s)| == m && s.key.keyExpires <= s.now + p.ttl && Live(s).Keys <= s.used
  }

  /** All runs so far: the first n hang in a renewal, their last confirmation a lifetime ago, and the
      others were admitted just now and hold the live slots. */
  ghost predicate Crowded(p: Params, s: State, n: nat, all: nat) {
    && n <= all && Named(s, all) && Slotted(p, s, all - n)
    && forall o | o in Upto(all) :: if o < n then Hung(p, s, o) else JustAdmitted(s, o)
  }

  function WithLease(p: Params, s: State, o: nat): State {
    State(s.now, Slots(Live(s)[o := s.now + p.ttl], s.now + p.ttl), s.leases[o := Lease(false, false, Idle)],
          s.used + {o}, s.freed, s.confirmedAt[o := s.now])
  }

  lemma AdmittedIs(p: Params, s: State, o: nat)
    requires |Live(s)| < p.max && o !in s.used
    ensures Enabled(s, Acquire(o, true)) && Step(p, s, Acquire(o, true)) == WithLease(p, s, o)
  {
  }

  lemma LiveGrows(p: Params, s: State, o: nat)
    requires p.ttl >= 1 && o !in Live(s)
    ensures Live(WithLease(p, s, o)).Keys == Live(s).Keys + {o} && |Live(WithLease(p, s, o))| == |Live(s)| + 1
  {
    var live := Live(WithLease(p, s, o));
    assert live == Live(s)[o := s.now + p.ttl];
    assert |live| == |live.Keys| && |Live(s)| == |Live(s).Keys|;
  }

  lemma NamesGrow(p: Params, s: State, n: nat)
    requires Named(s, n)
    ensures Named(WithLease(p, s, n), n + 1)
  {
    assert Upto(n + 1) == Upto(n) + {n};
    assert WithLease(p, s, n).leases.Keys == s.leases.Keys + {n};
    assert WithLease(p, s, n).confirmedAt.Keys == s.confirmedAt.Keys + {n};
  }

  lemma SlotsGrow(p: Params, s: State, m: nat, o: nat)
    requires ValidParams(p) && Slotted(p, s, m) && o !in s.used
    ensures Slotted(p, WithLease(p, s, o), m + 1)
  {
    LiveGrows(p, s, o);
  }

  lemma OthersStay(p: Params, s: State, o: nat, q: nat)
    requires o != q
    ensures Hung(p, s, q) ==> Hung(p, WithLease(p, s, o), q)
    ensures JustAdmitted(s, q) ==> JustAdmitted(WithLease(p, s, o), q)
  {
  }

  lemma CrowdGrows(p: Params, s: State, n: nat, all: nat)
    requires ValidParams(p) && Crowded(p, s, n, all)
    ensures Crowded(p, WithLease(p, s, all), n, all + 1)
  {
    NamesGrow(p, s, all);
    SlotsGrow(p, s, all - n, all);
    var s' := WithLease(p, s, all);
    forall o | o in Upto(all + 1) ensures if o < n then Hung(p, s', o) else JustAdmitted(s', o) {
      if o < all {
        assert o in Upto(all);
        OthersStay(p, s, all, o);
      }
    }
  }

  /** Below the limit one more run is admitted. */
  lemma OneMoreAdmitted(p: Params, s: State, n: nat, all: nat)
    requires ValidParams(p) && Reachable(p, s) && Crowded(p, s, n, all) && all < n + p.max
    ensures Reachable(p, WithLease(p, s, all)) && Crowded(p, WithLease(p, s, all), n, all + 1)
  {
    AdmittedIs(p, s, all);
    ReachStep(p, s, Acquire(all, true));
    CrowdGrows(p, s, n, all);
  }

  /** A renewal that gets no answer: a lifetime later its client has noticed nothing, and the slot is
      free again. */
  function WithHang(p: Params, s: State, o: nat): State {
    s.(now := s.now + p.ttl, leases := s.leases[o := Lease(false, false, Sent)])
  }

  lemma HangIs(p: Params, s: State, o: nat)
    requires o in s.leases && s.leases[o] == Lease(false, false, Idle)
    ensures Enabled(s, Timer(o)) && Step(p, Step(p, s, Timer(o)), Tick(p.ttl)) == WithHang(p, s, o)
  {
  }

  lemma CrowdHangs(p: Params, s: State, n: nat)
    requires ValidParams(p) && Crowded(p, s, n, n + 1)
    ensures Crowded(p, WithHang(p, s, n), n + 1, n + 1)
  {
    var s' := WithHang(p, s, n);
    assert s'.leases.Keys == s.leases.Keys + {n} == s.leases.Keys by { assert n in Upto(n + 1); }
    assert Live(s') == map[];
    forall o | o in Upto(n + 1) ensures Hung(p, s', o) {}
  }

  lemma OneMoreHangs(p: Params, s: State, n: nat)
    requires ValidParams(p) && Reachable(p, s) && Crowded(p, s, n, n + 1)
    ensures Reachable(p, WithHang(p, s, n)) && Crowded(p, WithHang(p, s, n), n + 1, n + 1)
  {
    assert n in Upto(n + 1);
    HangIs(p, s, n);
    ReachStep(p, s, Timer(n));
    ReachStep(p, Step(p, s, Timer(n)), Tick(p.ttl));
    CrowdHangs(p, s, n);
  }

  lemma NobodyYet(p: Params)
    ensures Reachable(p, INITIAL) && Crowded(p, INITIAL, 0, 0)
  {
    assert Live(INITIAL) == map[];
    assert IsRun(p, [INITIAL]);
  }

  lemma {:induction false} HungRuns(p: Params, n: nat) returns (s: State)
    requires ValidParams(p)
    ensures Reachable(p, s) && Crowded(p, s, n, n)
  {
    if n == 0 {
      NobodyYet(p);
      s := INITIAL;
    } else {
      s := HungRuns(p, n - 1);
      s := OneMoreHungRun(p, s, n);
    }
  }

  lemma OneMoreHungRun(p: Params, before: State, n: nat) returns (s: State)
    requires ValidParams(p) && n > 0 && Reachable(p, before) && Crowded(p, before, n - 1, n - 1)
    ensures Reachable(p, s) && Crowded(p, s, n, n)
  {
    OneMoreAdmitted(p, before, n - 1, n - 1);
    OneMoreHangs(p, WithLease(p, before, n - 1), n - 1);
    s := WithHang(p, WithLease(p, before, n - 1), n - 1);
  }

  lemma {:induction false} AdmittedBeside(p: Params, n: nat, m: nat) returns (s: State)
    requires ValidParams(p) && m <= p.max
    ensures Reachable(p, s) && Crowded(p, s, n, n + m)
  {
    if m == 0 {
      s := HungRuns(p, n);
    } else {
      var before := AdmittedBeside(p, n, m - 1);
      OneMoreAdmitted(p, before, n, n + m - 1);
      s := WithLease(p, before, n + m - 1);
    }
  }

  lemma CrowdCounts(p: Params, s: State, n: nat, all: nat)
    requires ValidParams(p) && Crowded(p, s, n, all)
    ensures RunningLeases(s) == Upto(all) && StaleLeases(p, s) == Upto(n)
  {
    assert RunningLeases(s) == Upto(all);
    forall o | o in Upto(all) ensures o in StaleLeases(p, s) <==> o in Upto(n) {}
  }

  /** The bound is reached at every limit and for every number of stale runs: renewals that hang
      leave their runs going beside as many as the limit admits, because the client has no deadline
      of its own. */
  lemma HungRenewalOverruns(p: Params, n: nat)
    requires ValidParams(p)
    ensures exists s :: Reachable(p, s) && |RunningLeases(s)| == p.max + n && |StaleLeases(p, s)| == n
  {
    var s := AdmittedBeside(p, n, p.max);
    CrowdCounts(p, s, n, n + p.max);
  }

  lemma StepFollows(p: Params, s: State, e: Event)
    requires Enabled(s, e)
    ensures Follows(p, s, Step(p, s, e))
  {
  }
}
