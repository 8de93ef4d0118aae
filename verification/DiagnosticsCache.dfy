/** The console's diagnostics cache: a generation stamp, a short-lived cache and shared in-flight
    computations, under every interleaving of requests, completions and invalidations. */
module DiagnosticsCache {
  import opened Prelude

  const TTL := 8000

  /** A finished report. The payload stands for the computation that produced it. */
  datatype Entry = Entry(at: nat, generation: nat, payload: nat)

  /** The module-level state: keyed by the requesting account. */
  datatype Core = Core(cache: map<string, Entry>, inFlight: map<string, nat>, generation: nat)

  const COLD := Core(map[], map[], 0)

  predicate Fresh(k: Core, key: string, now: nat) {
    key in k.cache && k.cache[key].generation == k.generation && now < k.cache[key].at + TTL
  }

  function Invalidated(k: Core): Core { Core(map[], map[], k.generation + 1) }

  /** A request that the cache cannot answer joins the computation in flight or starts `c`. */
  function Joined(k: Core, key: string, c: nat): Core {
    if key in k.inFlight then k else k.(inFlight := k.inFlight[key := c])
  }

  /** Only the slot of the computation itself is cleared; a mutation may have replaced it. */
  function Cleared(k: Core, key: string, c: nat): Core {
    if key in k.inFlight && k.inFlight[key] == c then k.(inFlight := k.inFlight - {key}) else k
  }

  /** Only a report of the current generation is stored. */
  function Remembered(k: Core, key: string, e: Entry): Core {
    if e.generation == k.generation then k.(cache := k.cache[key := e]) else k
  }

  datatype Lookup = Hit(entry: Entry) | Await(computation: nat, starts: bool)

  class Diagnostics {
    var cache: map<string, Entry>
    var inFlight: map<string, nat>
    var generation: nat

    ghost function View(): Core reads this { Core(cache, inFlight, generation) }

    constructor ()
      ensures View() == COLD
    {
      cache, inFlight, generation := map[], map[], 0;
    }

    method Invalidate()
      modifies this
      ensures View() == Invalidated(old(View()))
    {
      generation := generation + 1;
      cache := map[];
      inFlight := map[];
    }

    /** The synchronous first half of a request; `next` names a computation it may start. */
    method Handle(key: string, now: nat, next: nat) returns (found: Lookup)
      modifies this
      ensures found.Hit? <==> Fresh(old(View()), key, now)
      ensures found.Hit? ==> View() == old(View()) && found.entry == old(cache)[key]
      ensures found.Await? ==> View() == Joined(old(View()), key, next)
      ensures found.Await? ==>
        key in inFlight && found.computation == inFlight[key] && (found.starts <==> key !in old(inFlight))
    {
      if key in cache && cache[key].generation == generation && now - cache[key].at < TTL {
        return Hit(cache[key]);
      }
      if key in inFlight { return Await(inFlight[key], false); }
      inFlight := inFlight[key := next];
      found := Await(next, true);
    }

    method Finally(key: string, c: nat)
      modifies this
      ensures View() == Cleared(old(View()), key, c)
    {
      if key in inFlight && inFlight[key] == c { inFlight := inFlight - {key}; }
    }

    /** The second half of a request whose computation succeeded. */
    method Remember(key: string, e: Entry)
      modifies this
      ensures View() == Remembered(old(View()), key, e)
    {
      if e.generation == generation { cache := cache[key := e]; }
    }
  }

  datatype Result = Running | Failed | Finished(entry: Entry)

  /** A computation: the account it reads for, the event it began at and the stamp it took. */
  datatype Computation = Computation(key: string, begun: nat, generation: nat, result: Result)

  datatype Answer = Waiting(on: nat) | Refused | Served(entry: Entry)

  datatype Request = Request(key: string, begun: nat, answer: Answer)

  /** `step` numbers the events; `invalidations` are those at which a mutation invalidated. */
  datatype State = State(step: nat, now: nat, core: Core, computations: map<nat, Computation>,
                         requests: map<nat, Request>,
                         invalidations: seq<nat>)

  const INITIAL := State(0, 0, COLD, map[], map[], [])

  datatype Event =
    | Tick(elapsed: nat)
    | Mutate
    | Arrive(r: nat, key: string, c: nat)
    | Settle(c: nat, ok: bool)
    | Finalize(c: nat)
    | Resume(r: nat)

  predicate Enabled(s: State, e: Event) {
    match e
    case Tick(_) => true
    case Mutate => true
    case Arrive(r, key, c) => r !in s.requests && c !in s.computations
    case Settle(c, _) => c in s.computations && s.computations[c].result == Running
    case Finalize(c) => c in s.computations && s.computations[c].result != Running
    case Resume(r) =>
      && r in s.requests && s.requests[r].answer.Waiting?
      && s.requests[r].answer.on in s.computations && s.computations[s.requests[r].answer.on].result != Running
  }

  function Advance(s: State, e: Event): State
    requires Enabled(s, e)
  {
    match e
    case Tick(d) => s.(now := s.now + d)
    case Mutate => s.(core := Invalidated(s.core), invalidations := s.invalidations + [s.step])
    case Arrive(r, key, c) =>
      if Fresh(s.core, key, s.now) then s.(requests := s.requests[r := Request(key, s.step, Served(s.core.cache[key]))])
      else
        var core := Joined(s.core, key, c);
        var s' := s.(core := core, requests := s.requests[r := Request(key, s.step, Waiting(core.inFlight[key]))]);
        if key in s.core.inFlight then s'
        else s'.(computations := s.computations[c := Computation(key, s.step, s.core.generation, Running)])
    case Settle(c, ok) =>
      var comp := s.computations[c];
      var result := if ok then Finished(Entry(s.now, comp.generation, c)) else Failed;
      s.(computations := s.computations[c := comp.(result := result)])
    case Finalize(c) => s.(core := Cleared(s.core, s.computations[c].key, c))
    case Resume(r) =>
      var req := s.requests[r];
      match s.computations[req.answer.on].result
      case Finished(entry) =>
        s.(core := Remembered(s.core, req.key, entry), requests := s.requests[r := req.(answer := Served(entry))])
      case _ => s.(requests := s.requests[r := req.(answer := Refused)])
  }

  function Step(s: State, e: Event): State
    requires Enabled(s, e)
  {
    Advance(s, e).(step := s.step + 1)
  }

  /** The stamp taken at an event counts the invalidations before it. */
  ghost predicate Stamped(s: State, begun: nat, generation: nat) {
    && begun < s.step && generation <= |s.invalidations|
    && forall k | 0 <= k < |s.invalidations| :: s.invalidations[k] < begun <==> k < generation
  }

  /** A report belongs to a finished computation of the account. */
  predicate Genuine(s: State, key: string, e: Entry) {
    && e.payload in s.computations && s.computations[e.payload].result == Finished(e)
    && s.computations[e.payload].key == key && s.computations[e.payload].generation == e.generation
    && e.at <= s.now
  }

  ghost predicate ComputationOk(s: State, c: nat) {
    c in s.computations ==>
      var comp := s.computations[c];
      && Stamped(s, comp.begun, comp.generation)
      && (comp.result.Finished? ==> Genuine(s, comp.key, comp.result.entry) && comp.result.entry.payload == c)
      && (comp.result == Running && comp.generation == s.core.generation ==>
        comp.key in s.core.inFlight && s.core.inFlight[comp.key] == c)
  }

  ghost predicate KeyOk(s: State, key: string) {
    && (key in s.core.cache ==> Genuine(s, key, s.core.cache[key]) && s.core.cache[key].generation == s.core.generation)
    && (key in s.core.inFlight ==>
      && s.core.inFlight[key] in s.computations
      && s.computations[s.core.inFlight[key]].key == key
      && s.computations[s.core.inFlight[key]].generation == s.core.generation)
  }

  /** The computation behind a request's answer, if there is one. */
  function Behind(a: Answer): Option<nat> {
    match a
    case Waiting(c) => Some(c)
    case Served(e) => Some(e.payload)
    case Refused => None
  }

  /** A request's computation is for its account and began after every invalidation the request
      came after. */
  ghost predicate Current(s: State, r: nat) {
    var req := s.requests;
    r in req && Behind(req[r].answer).Some? ==>
      var c := Behind(req[r].answer).value;
      && c in s.computations && s.computations[c].key == req[r].key
      && (req[r].answer.Served? ==> Genuine(s, req[r].key, req[r].answer.entry))
      && forall k | 0 <= k < |s.invalidations| && s.invalidations[k] < req[r].begun ::
        s.invalidations[k] < s.computations[c].begun
  }

  ghost predicate Invariant(s: State) {
    && s.core.generation == |s.invalidations|
    && (forall k | 0 <= k < |s.invalidations| :: s.invalidations[k] < s.step)
    && (forall r | r in s.requests :: s.requests[r].begun < s.step)
    && (forall c :: ComputationOk(s, c))
    && (forall key :: KeyOk(s, key))
    && forall r :: Current(s, r)
  }

  lemma BasicsKept(s: State, e: Event)
    requires Invariant(s) && Enabled(s, e)
    ensures var s' := Step(s, e);
      && s'.core.generation == |s'.invalidations|
      && (forall k | 0 <= k < |s'.invalidations| :: s'.invalidations[k] < s'.step)
      && forall r | r in s'.requests :: s'.requests[r].begun < s'.step
  {
  }

  lemma ComputationKept(s: State, e: Event, c: nat)
    requires Invariant(s) && Enabled(s, e)
    ensures ComputationOk(Step(s, e), c)
  {
    assert ComputationOk(s, c);
    match e
    case Arrive(r, key, d) =>
      assert KeyOk(s, key);
      ArrivalKeepsComputation(s, r, key, d, c);
    case Finalize(d) =>
      assert ComputationOk(s, d);
      FinalizeKeepsComputation(s, d, c);
    case _ =>
  }

  lemma ArrivalKeepsComputation(s: State, r: nat, key: string, d: nat, c: nat)
    requires Enabled(s, Arrive(r, key, d)) && ComputationOk(s, c) && KeyOk(s, key)
    requires s.core.generation == |s.invalidations|
    requires forall k | 0 <= k < |s.invalidations| :: s.invalidations[k] < s.step
    ensures ComputationOk(Step(s, Arrive(r, key, d)), c)
  {
  }

  lemma FinalizeKeepsComputation(s: State, d: nat, c: nat)
    requires Enabled(s, Finalize(d)) && ComputationOk(s, c) && ComputationOk(s, d)
    ensures ComputationOk(Step(s, Finalize(d)), c)
  {
  }

  lemma KeyKept(s: State, e: Event, key: string)
    requires Invariant(s) && Enabled(s, e)
    ensures KeyOk(Step(s, e), key)
  {
    assert KeyOk(s, key);
    if e.Settle? { assert ComputationOk(s, e.c); }
    if e.Resume? {
      assert Current(s, e.r);
      assert ComputationOk(s, s.requests[e.r].answer.on);
    }
  }

  lemma RequestKept(s: State, e: Event, r: nat)
    requires Invariant(s) && Enabled(s, e)
    ensures Current(Step(s, e), r)
  {
    assert Current(s, r);
    if e.Arrive? && e.r == r {
      assert KeyOk(s, e.key);
      if Fresh(s.core, e.key, s.now) { assert ComputationOk(s, s.core.cache[e.key].payload); }
      else if e.key in s.core.inFlight { assert ComputationOk(s, s.core.inFlight[e.key]); }
    } else if r in s.requests && Behind(s.requests[r].answer).Some? {
      assert ComputationOk(s, Behind(s.requests[r].answer).value);
    }
  }

  lemma StepKeeps(s: State, e: Event)
    requires Invariant(s) && Enabled(s, e)
    ensures Invariant(Step(s, e))
  {
    BasicsKept(s, e);
    forall c ensures ComputationOk(Step(s, e), c) { ComputationKept(s, e, c); }
    forall key ensures KeyOk(Step(s, e), key) { KeyKept(s, e, key); }
    forall r ensures Current(Step(s, e), r) { RequestKept(s, e, r); }
  }

  ghost predicate Follows(s: State, s': State) {
    exists e :: Enabled(s, e) && s' == Step(s, e)
  }

  ghost predicate IsRun(run: seq<State>) {
    |run| > 0 && run[0] == INITIAL && forall i | 0 <= i < |run| - 1 :: Follows(run[i], run[i + 1])
  }

  lemma {:induction false} RunKeeps(run: seq<State>, i: nat)
    requires IsRun(run) && i < |run|
    ensures Invariant(run[i])
  {
    if i > 0 {
      RunKeeps(run, i - 1);
      assert Follows(run[i - 1], run[i - 1 + 1]);
      var e :| Enabled(run[i - 1], e) && run[i] == Step(run[i - 1], e);
      StepKeeps(run[i - 1], e);
    }
  }

  /** Whatever interleaves: a served report was computed for the requesting account, and by a
      computation that began after every invalidation that preceded the request. */
  lemma NeverStaleNeverForeign(run: seq<State>, i: nat, r: nat)
    requires IsRun(run) && i < |run| && r in run[i].requests && run[i].requests[r].answer.Served?
    ensures var s, req := run[i], run[i].requests[r];
      var c := req.answer.entry.payload;
      && c in s.computations && s.computations[c].key == req.key
      && s.computations[c].result == Finished(req.answer.entry)
      && forall k | 0 <= k < |s.invalidations| && s.invalidations[k] < req.begun ::
        s.invalidations[k] < s.computations[c].begun
  {
    RunKeeps(run, i);
    assert Current(run[i], r);
  }

  /** At most one computation per account runs against the current state. */
  lemma OneComputationEach(run: seq<State>, i: nat, c: nat, d: nat)
    requires IsRun(run) && i < |run| && c in run[i].computations && d in run[i].computations
    requires var s := run[i];
      && s.computations[c].key == s.computations[d].key
      && s.computations[c].result == s.computations[d].result == Running
      && s.computations[c].generation == s.computations[d].generation == s.core.generation
    ensures c == d
  {
    RunKeeps(run, i);
    assert ComputationOk(run[i], c) && ComputationOk(run[i], d);
  }

  /** A request waits on a computation that began no later than it arrived. */
  predicate JoinedInTime(s: State, r: nat) {
    r in s.requests && s.requests[r].answer.Waiting? && s.requests[r].answer.on in s.computations ==>
      s.computations[s.requests[r].answer.on].begun <= s.requests[r].begun
  }

  lemma StepJoinsInTime(s: State, e: Event, r: nat)
    requires Invariant(s) && Enabled(s, e) && JoinedInTime(s, r)
    ensures JoinedInTime(Step(s, e), r)
  {
    assert Current(s, r);
    if e.Arrive? && e.r == r && e.key in s.core.inFlight {
      assert KeyOk(s, e.key);
      assert ComputationOk(s, s.core.inFlight[e.key]);
    }
  }

  lemma {:induction false} RunJoinsInTime(run: seq<State>, i: nat, r: nat)
    requires IsRun(run) && i < |run|
    ensures JoinedInTime(run[i], r)
  {
    if i > 0 {
      RunJoinsInTime(run, i - 1, r);
      RunKeeps(run, i - 1);
      assert Follows(run[i - 1], run[i - 1 + 1]);
      var e :| Enabled(run[i - 1], e) && run[i] == Step(run[i - 1], e);
      StepJoinsInTime(run[i - 1], e, r);
    }
  }

  /** Nothing has changed since the request arrived. */
  ghost predicate UnchangedSince(s: State, begun: nat) {
    forall k | 0 <= k < |s.invalidations| :: s.invalidations[k] < begun
  }

  /** A waiting request is resumed with a report of the current state exactly when nothing changed
      since it arrived. */
  lemma ResumedCurrent(run: seq<State>, i: nat, r: nat)
    requires IsRun(run) && i < |run| && Enabled(run[i], Resume(r))
    requires run[i].computations[run[i].requests[r].answer.on].result.Finished?
    ensures var s := run[i];
      s.computations[s.requests[r].answer.on].result.entry.generation == s.core.generation <==>
      UnchangedSince(s, s.requests[r].begun)
  {
    var s := run[i];
    var c := s.requests[r].answer.on;
    RunKeeps(run, i);
    RunJoinsInTime(run, i, r);
    assert Current(s, r) && ComputationOk(s, c);
    StampedAll(s, s.computations[c].begun, s.computations[c].generation);
  }

  lemma StampedAll(s: State, begun: nat, generation: nat)
    requires Stamped(s, begun, generation)
    ensures generation == |s.invalidations| <==> UnchangedSince(s, begun)
  {
    if generation < |s.invalidations| { assert !(s.invalidations[generation] < begun); }
  }

  ghost predicate IsServed(s: State, r: nat) { r in s.requests && s.requests[r].answer.Served? }

  /** Whichever way a request is served, from the cache or after waiting, the report is of the current
      state exactly when nothing changed since the request arrived. */
  lemma ServedCurrent(run: seq<State>, i: nat, r: nat)
    requires IsRun(run) && i + 1 < |run| && !IsServed(run[i], r) && IsServed(run[i + 1], r)
    ensures var s := run[i + 1];
      s.requests[r].answer.entry.generation == s.core.generation <==> UnchangedSince(s, s.requests[r].begun)
  {
    assert Follows(run[i], run[i + 1]);
    var e :| Enabled(run[i], e) && run[i + 1] == Step(run[i], e);
    if e.Resume? && e.r == r {
      ResumedCurrent(run, i, r);
    } else {
      RunKeeps(run, i);
    }
  }

  /** A report computed across a change is served to the request that was waiting for it. */
  lemma ServedAcrossChange(key: string) returns (run: seq<State>)
    ensures IsRun(run)
    ensures var s := run[|run| - 1];
      IsServed(s, 0) && s.requests[0].key == key && s.requests[0].answer.entry.generation < s.core.generation
  {
    var s1 := Step(INITIAL, Arrive(0, key, 0));
    var s2 := Step(s1, Mutate);
    var s3 := Step(s2, Settle(0, true));
    RunGrows([INITIAL], Arrive(0, key, 0));
    RunGrows([INITIAL, s1], Mutate);
    RunGrows([INITIAL, s1, s2], Settle(0, true));
    RunGrows([INITIAL, s1, s2, s3], Resume(0));
    run := [INITIAL, s1, s2, s3, Step(s3, Resume(0))];
  }

  lemma RunGrows(run: seq<State>, e: Event)
    requires IsRun(run) && Enabled(run[|run| - 1], e)
    ensures IsRun(run + [Step(run[|run| - 1], e)])
  {
    var more := run + [Step(run[|run| - 1], e)];
    forall i | 0 <= i < |more| - 1 ensures Follows(more[i], more[i + 1]) {
      if i < |run| - 1 { assert Follows(run[i], run[i + 1]); }
    }
  }
}
