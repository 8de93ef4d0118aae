/**
 * Provider failover of the model gateway: the order in which the providers are tried, the run
 * through that order, and the memory of recent failures that shapes the next order.
 */
module ProviderGateway {
  import opened Prelude

  const DEPRIORITIZATION_MS := 60000

  /** A configured provider and the identity its failures are remembered under. */
  datatype Provider = Provider(id: string, failureKey: string)

  /** When each failure identity last failed. */
  type Failures = map<string, int>

  function Prune(failures: Failures, now: int): Failures {
    map k | k in failures && now - failures[k] < DEPRIORITIZATION_MS :: failures[k]
  }

  /** The position of the first provider the caller's preference names; an empty preference names none. */
  function PreferredAt(available: seq<Provider>, preference: string): (at: Option<nat>)
    ensures at.Some? <==> preference != "" && exists k :: 0 <= k < |available| && available[k].id == preference
    ensures at.Some? ==> at.value < |available| && available[at.value].id == preference
    ensures at.Some? ==> forall k :: 0 <= k < at.value ==> available[k].id != preference
  {
    if available == [] || preference == "" then None
    else if available[0].id == preference then Some(0)
    else
      match PreferredAt(available[1..], preference)
      case None => None
      case Some(k) => Some(k + 1)
  }

  // ---- The failover order ----

  /** Preferred provider, then those without a recent failure, then those with one. */
  function Group(available: seq<Provider>, preferred: Option<nat>, failures: Failures, i: nat): (g: nat)
    requires i < |available|
  {
    if preferred == Some(i) then 0 else if available[i].failureKey in failures then 2 else 1
  }

  predicate Before(available: seq<Provider>, preferred: Option<nat>, failures: Failures, i: nat, j: nat)
    requires i < |available| && j < |available|
  {
    var gi, gj := Group(available, preferred, failures, i), Group(available, preferred, failures, j);
    gi < gj || (gi == gj && i < j)
  }

  /** The positions below n of group g, as configured. */
  ghost predicate IsGroup(available: seq<Provider>, preferred: Option<nat>, failures: Failures, n: nat, g: nat,
                          s: seq<nat>)
    requires n <= |available|
  {
    && (forall a :: 0 <= a < |s| ==> s[a] < n && Group(available, preferred, failures, s[a]) == g)
    && (forall i: nat :: i < n && Group(available, preferred, failures, i) == g ==> i in s)
    && (forall a, b :: 0 <= a < b < |s| ==> s[a] < s[b])
  }

  predicate Covers(order: seq<nat>, n: nat) {
    (forall a :: 0 <= a < |order| ==> order[a] < n) && (forall i: nat :: i < n ==> i in order)
  }

  /** Every provider once, by group and inside a group as configured. */
  predicate FailoverOrder(available: seq<Provider>, preferred: Option<nat>, failures: Failures, order: seq<nat>) {
    && Covers(order, |available|)
    && forall a, b :: 0 <= a < b < |order| ==> Before(available, preferred, failures, order[a], order[b])
  }

  ghost predicate Ascends(available: seq<Provider>, preferred: Option<nat>, failures: Failures, order: seq<nat>) {
    && (forall a :: 0 <= a < |order| ==> order[a] < |available|)
    && forall a, b :: 0 <= a < b < |order| ==> Before(available, preferred, failures, order[a], order[b])
  }

  lemma {:induction false} AscendingUnique(available: seq<Provider>, preferred: Option<nat>, failures: Failures,
                                           s: seq<nat>, t: seq<nat>)
    requires Ascends(available, preferred, failures, s) && Ascends(available, preferred, failures, t)
    requires |s| == |t| && forall i :: i in s <==> i in t
    ensures s == t
  {
    if s != [] {
      SameRest(available, preferred, failures, s, t);
      AscendingUnique(available, preferred, failures, s[1..], t[1..]);
      assert s == [s[0]] + s[1..] && t == [t[0]] + t[1..];
    }
  }

  lemma SameRest(available: seq<Provider>, preferred: Option<nat>, failures: Failures, s: seq<nat>, t: seq<nat>)
    requires Ascends(available, preferred, failures, s) && Ascends(available, preferred, failures, t)
    requires s != [] && t != [] && forall i :: i in s <==> i in t
    ensures s[0] == t[0] && forall i :: i in s[1..] <==> i in t[1..]
  {
    assert s[0] in t && t[0] in s;
    var b :| 0 <= b < |t| && t[b] == s[0];
    var a :| 0 <= a < |s| && s[a] == t[0];
    assert s[0] !in s[1..] && t[0] !in t[1..];
    forall i ensures i in s[1..] <==> i in s && i != s[0] { RestMember(s, i); }
    forall i ensures i in t[1..] <==> i in t && i != t[0] { RestMember(t, i); }
  }

  lemma RestMember(s: seq<nat>, i: nat)
    requires s != [] && s[0] !in s[1..]
    ensures i in s[1..] <==> i in s && i != s[0]
  {
    assert s == [s[0]] + s[1..];
  }

  /** The order is fixed by the configuration, the preference and the failures: there is only one. */
  lemma OrderUnique(available: seq<Provider>, preferred: Option<nat>, failures: Failures, s: seq<nat>, t: seq<nat>)
    requires FailoverOrder(available, preferred, failures, s) && FailoverOrder(available, preferred, failures, t)
    ensures s == t
  {
    AscendingLength(s, |available|);
    AscendingLength(t, |available|);
    AscendingUnique(available, preferred, failures, s, t);
  }

  lemma {:induction false} AscendingLength(s: seq<nat>, n: nat)
    requires Covers(s, n) && forall a, b :: 0 <= a < b < |s| ==> s[a] != s[b]
    ensures |s| == n
  {
    if n == 0 {
      assert |s| == 0;
    } else {
      assert n - 1 in s;
      var a :| 0 <= a < |s| && s[a] == n - 1;
      var rest := s[..a] + s[a + 1..];
      forall i: nat | i < n - 1 ensures i in rest {
        assert i in s;
        var b :| 0 <= b < |s| && s[b] == i;
        assert rest[if b < a then b else b - 1] == i;
      }
      AscendingLength(rest, n - 1);
    }
  }

  /** Once every failure is a minute old, the configured priority is back, after the preference. */
  lemma PriorityReturns(available: seq<Provider>, preferred: Option<nat>, failures: Failures, now: int, order: seq<nat>)
    requires forall k :: k in failures ==> now - failures[k] >= DEPRIORITIZATION_MS
    requires FailoverOrder(available, preferred, Prune(failures, now), order)
    ensures preferred.None? ==> order == seq(|available|, i => i)
    ensures forall a, b :: 0 <= a < b < |order| && preferred != Some(order[a]) ==> order[a] < order[b]
  {
    if preferred.None? {
      var configured := seq(|available|, i => i);
      forall i: nat | i < |available| ensures i in configured { assert configured[i] == i; }
      OrderUnique(available, None, Prune(failures, now), order, configured);
    }
  }

  // ---- One run through the order ----

  /** What one provider call comes to. */
  datatype Reply =
    | Success(value: string)
    | Interrupted                 // the stream had already reached the client
    | Rejected(reason: string)    // a terminal API error
    | Transient(reason: string)

  datatype Attempt = Attempt(provider: string, reason: string)

  datatype Outcome =
    | Unavailable
    | Aborted
    | Served(value: string)
    | StreamInterrupted
    | ProviderError(provider: string, reason: string)
    | AllFailed(attempts: seq<Attempt>)

  /** What the run cannot decide, by attempt: the reply, the cancellation, the clock, and what other
      runs make of the shared memory while the call is awaited. */
  datatype Env = Env(reply: nat -> Reply, abortedBefore: nat -> bool, abortedAfter: nat -> bool, clock: nat -> int,
                     others: (nat, Failures) -> Failures)

  /** The first n attempts each failed in a way that lets the run move on. */
  ghost predicate MovedOn(env: Env, n: nat) {
    forall i: nat :: i < n ==> !env.abortedBefore(i) && env.reply(i).Transient? && !env.abortedAfter(i)
  }

  /** A run that made `calls` calls and ended as `outcome`. */
  ghost predicate Explained(available: seq<Provider>, order: seq<nat>, env: Env, calls: nat, outcome: Outcome) {
    && Covers(order, |available|) && calls <= |order|
    && match outcome
       case Unavailable => available == [] && calls == 0
       case Aborted =>
         || (calls < |order| && MovedOn(env, calls) && env.abortedBefore(calls))
         || (EndsAt(env, calls) && !env.reply(calls - 1).Success? && env.abortedAfter(calls - 1))
       case Served(value) => EndsAt(env, calls) && env.reply(calls - 1) == Success(value)
       case StreamInterrupted =>
         EndsAt(env, calls) && !env.abortedAfter(calls - 1) && env.reply(calls - 1).Interrupted?
       case ProviderError(provider, reason) =>
         && EndsAt(env, calls) && !env.abortedAfter(calls - 1) && env.reply(calls - 1) == Rejected(reason)
         && provider == available[order[calls - 1]].id
       case AllFailed(attempts) =>
         && available != [] && calls == |order| == |attempts| && MovedOn(env, calls)
         && forall k :: 0 <= k < calls ==> Reports(attempts[k], available, order, env, k)
  }

  /** Attempt `calls - 1` was made and is the last. */
  ghost predicate EndsAt(env: Env, calls: nat) {
    0 < calls && MovedOn(env, calls - 1) && !env.abortedBefore(calls - 1)
  }

  ghost predicate Reports(attempt: Attempt, available: seq<Provider>, order: seq<nat>, env: Env, k: nat)
    requires k < |order| && order[k] < |available|
  {
    attempt.provider == available[order[k]].id && env.reply(k) == Transient(attempt.reason)
  }

  /** The memory once the first n calls have failed, each recorded on top of what it then found. */
  ghost function AfterFailures(available: seq<Provider>, order: seq<nat>, env: Env, n: nat,
                               failures: Failures): Failures
    requires n <= |order| && Covers(order, |available|)
  {
    if n == 0 then failures
    else
      var found := env.others(n - 1, AfterFailures(available, order, env, n - 1, failures));
      found[available[order[n - 1]].failureKey := env.clock(n - 1)]
  }

  /** How many of the calls count against their provider: a cancelled or served one does not. */
  ghost function Blamed(env: Env, calls: nat, outcome: Outcome): nat {
    if outcome.Served? || (outcome.Aborted? && calls > 0 && !MovedOn(env, calls)) then
      if calls == 0 then 0 else calls - 1
    else calls
  }

  ghost function MemoryAfter(available: seq<Provider>, order: seq<nat>, env: Env, calls: nat, outcome: Outcome,
                             failures: Failures): Failures
    requires Explained(available, order, env, calls, outcome)
  {
    var blamed := Blamed(env, calls, outcome);
    var memory := AfterFailures(available, order, env, blamed, failures);
    if blamed == calls then memory
    else
      var found := env.others(calls - 1, memory);
      if outcome.Served? then found - {available[order[calls - 1]].failureKey} else found
  }

  class Gateway {
    var failures: Failures

    constructor ()
      ensures failures == map[]
    {
      failures := map[];
    }

    method SplitByHealth(available: seq<Provider>, preferred: Option<nat>) returns (normal: seq<nat>, failing: seq<nat>)
      ensures IsGroup(available, preferred, failures, |available|, 1, normal)
      ensures IsGroup(available, preferred, failures, |available|, 2, failing)
    {
      normal, failing := [], [];
      for i := 0 to |available|
        invariant IsGroup(available, preferred, failures, i, 1, normal)
        invariant IsGroup(available, preferred, failures, i, 2, failing)
      {
        if preferred != Some(i) {
          if available[i].failureKey in failures {
            failing := failing + [i];
          } else {
            normal := normal + [i];
          }
        }
      }
    }

    method ProviderOrder(available: seq<Provider>, preference: string, now: int) returns (order: seq<nat>)
      modifies this
      ensures failures == Prune(old(failures), now)
      ensures FailoverOrder(available, PreferredAt(available, preference), failures, order)
      ensures |order| == |available|
    {
      failures := Prune(failures, now);
      var preferred := PreferredAt(available, preference);
      var normal, failing := SplitByHealth(available, preferred);
      order := (if preferred.Some? then [preferred.value] else []) + normal + failing;
      GroupsInOrder(available, preferred, failures, normal, failing, order);
      AscendingLength(order, |available|);
    }

    /** Tries the providers in order until one serves, the run is cancelled or a failure is final. */
    method TryEach(available: seq<Provider>, order: seq<nat>, env: Env) returns (outcome: Outcome, calls: nat)
      requires available != [] && Covers(order, |available|)
      modifies this
      ensures !outcome.Unavailable? && Explained(available, order, env, calls, outcome)
      ensures failures == MemoryAfter(available, order, env, calls, outcome, old(failures))
    {
      calls := 0;
      var attempts := [];
      while calls < |order|
        invariant calls <= |order| && MovedOn(env, calls) && |attempts| == calls
        invariant forall k :: 0 <= k < calls ==> Reports(attempts[k], available, order, env, k)
        invariant failures == AfterFailures(available, order, env, calls, old(failures))
      {
        if env.abortedBefore(calls) { return Aborted, calls; }
        var provider, reply, at := available[order[calls]], env.reply(calls), calls;
        calls := calls + 1;
        failures := env.others(at, failures);
        if reply.Success? {
          failures := failures - {provider.failureKey};
          return Served(reply.value), calls;
        }
        if env.abortedAfter(at) { return Aborted, calls; }
        failures := failures[provider.failureKey := env.clock(at)];
        match reply {
          case Interrupted => return StreamInterrupted, calls;
          case Rejected(reason) => return ProviderError(provider.id, reason), calls;
          case Transient(reason) => attempts := attempts + [Attempt(provider.id, reason)];
        }
      }
      outcome := AllFailed(attempts);
    }

    method RunWithFailover(available: seq<Provider>, preference: string, now: int, env: Env)
        returns (outcome: Outcome, calls: nat, order: seq<nat>)
      modifies this
      ensures Explained(available, order, env, calls, outcome)
      ensures outcome.Unavailable? ==> failures == old(failures)
      ensures !outcome.Unavailable? ==>
        FailoverOrder(available, PreferredAt(available, preference), Prune(old(failures), now), order)
      ensures !outcome.Unavailable? ==>
        failures == MemoryAfter(available, order, env, calls, outcome, Prune(old(failures), now))
    {
      if available == [] { return Unavailable, 0, []; }
      order := ProviderOrder(available, preference, now);
      outcome, calls := TryEach(available, order, env);
    }
  }

  lemma GroupsInOrder(available: seq<Provider>, preferred: Option<nat>, failures: Failures,
                      normal: seq<nat>, failing: seq<nat>, order: seq<nat>)
    requires preferred.Some? ==> preferred.value < |available|
    requires IsGroup(available, preferred, failures, |available|, 1, normal)
    requires IsGroup(available, preferred, failures, |available|, 2, failing)
    requires order == (if preferred.Some? then [preferred.value] else []) + normal + failing
    ensures FailoverOrder(available, preferred, failures, order)
    ensures forall a, b :: 0 <= a < b < |order| ==> order[a] != order[b]
  {
    var head := if preferred.Some? then [preferred.value] else [];
    var cut := |head| + |normal|;
    forall a | 0 <= a < |order| ensures order[a] < |available| {
      assert a < |head| || a >= cut || order[a] == normal[a - |head|];
      assert a < cut || order[a] == failing[a - cut];
    }
    forall i: nat | i < |available| ensures i in order {
      assert preferred == Some(i) ==> order[0] == i;
      assert preferred == Some(i) || i in normal || i in failing;
    }
    forall a, b | 0 <= a < b < |order| ensures Before(available, preferred, failures, order[a], order[b]) {
      assert b < |head| || b >= cut || order[b] == normal[b - |head|];
      assert b < cut || order[b] == failing[b - cut];
      assert a < |head| || a >= cut || order[a] == normal[a - |head|];
      assert a < cut || order[a] == failing[a - cut];
    }
  }

  // ---- What a failure does to the next order ----

  predicate Recent(failures: Failures, key: string, now: int) {
    key in failures && now - failures[key] < DEPRIORITIZATION_MS
  }

  /** No other run was served by this endpoint from call k on. */
  ghost predicate NotServedElsewhere(env: Env, key: string, now: int, k: nat) {
    forall m: nat, f: Failures | m > k && Recent(f, key, now) :: Recent(env.others(m, f), key, now)
  }

  /** A blamed call stays in the memory as a recent failure. */
  lemma {:induction false} BlamedRemembered(available: seq<Provider>, order: seq<nat>, env: Env, n: nat,
                                            failures: Failures, k: nat, now: int)
    requires k < n <= |order| && Covers(order, |available|)
    requires forall m: nat :: k <= m < n ==> now - env.clock(m) < DEPRIORITIZATION_MS
    requires NotServedElsewhere(env, available[order[k]].failureKey, now, k)
    ensures Recent(AfterFailures(available, order, env, n, failures), available[order[k]].failureKey, now)
  {
    if k < n - 1 { BlamedRemembered(available, order, env, n - 1, failures, k, now); }
  }

  /**
   * For a minute after a run, a provider that failed in it comes after every provider that is not
   * remembered as failing, unless the caller prefers it or the same endpoint has served since.
   */
  lemma FailureFallsBehind(available: seq<Provider>, order: seq<nat>, env: Env, calls: nat, outcome: Outcome,
                           failures: Failures, k: nat, now: int, preferred: Option<nat>, next: seq<nat>, a: nat, b: nat)
    requires Explained(available, order, env, calls, outcome) && k < Blamed(env, calls, outcome)
    requires outcome.Served? ==> available[order[k]].failureKey != available[order[calls - 1]].failureKey
    requires forall m: nat :: k <= m < calls ==> now - env.clock(m) < DEPRIORITIZATION_MS
    requires NotServedElsewhere(env, available[order[k]].failureKey, now, k)
    requires FailoverOrder(available, preferred,
                           Prune(MemoryAfter(available, order, env, calls, outcome, failures), now), next)
    requires a < |next| && next[a] == order[k] && preferred != Some(next[a])
    requires b < |next|
    requires available[next[b]].failureKey !in MemoryAfter(available, order, env, calls, outcome, failures)
    ensures b < a
  {
    BlamedRemembered(available, order, env, Blamed(env, calls, outcome), failures, k, now);
    var memory := MemoryAfter(available, order, env, calls, outcome, failures);
    assert Recent(memory, available[order[k]].failureKey, now);
    assert available[order[k]].failureKey in Prune(memory, now);
    assert a != b;
    assert Group(available, preferred, Prune(memory, now), next[b])
      < Group(available, preferred, Prune(memory, now), next[a]);
  }
}
