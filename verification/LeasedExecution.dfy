/** Executors under the lease: the ownership checks of each executor are answered by the guards of
    one lease run, and no mutation starts while another executor holds the lock. */
module LeasedExecution {
  import opened DependencyWaves
  import opened Prelude
  import Executor = GovernedExecutor
  import Lease = ExecutionLease

  /** An executor on a lease run: its owner token, its environment, and the position in the lease
      run of every moment it asks at. */
  datatype Session = Session(owner: nat, env: Executor.Env, at: nat -> nat)

  /** The executor runs under the lease: its moments follow the lease run, its ownership checks are
      answered by its guard, and its token is released only after it. */
  ghost predicate Tied(run: seq<Lease.State>, x: Session) {
    && x.env.leased
    && (forall m: nat :: x.at(m) < |run| && x.owner !in run[x.at(m)].released)
    && (forall m: nat, n: nat | m <= n :: x.at(m) <= x.at(n))
    && forall m: nat | x.env.owned(m) :: x.owner in run[x.at(m)].confirmedAt
  }

  /** A step that follows a granted check at once, two moments later, starts less than one lifetime
      after the renewal that answered the check. */
  ghost predicate Prompt(ttl: nat, run: seq<Lease.State>, x: Session)
    requires Tied(run, x)
  {
    forall m: nat | x.env.owned(m) :: run[x.at(m + 2)].now < run[x.at(m)].confirmedAt[x.owner] + ttl
  }

  lemma RenewalsGrow(ttl: nat, s: Lease.State, s': Lease.State, o: nat)
    requires ttl > 0 && Lease.Invariant(ttl, s) && Lease.Follows(ttl, s, s') && o in s.renewedAt
    ensures o in s'.renewedAt && s.renewedAt[o] <= s'.renewedAt[o]
  {
    var e :| Lease.Enabled(s, e) && s' == Lease.Step(ttl, s, e);
    assert Lease.Recorded(s, o);
  }

  lemma {:induction false} RenewalsGrowOver(ttl: nat, run: seq<Lease.State>, i: nat, j: nat, o: nat)
    requires ttl > 0 && Lease.IsRun(ttl, run) && i <= j < |run| && o in run[i].renewedAt
    ensures o in run[j].renewedAt && run[i].renewedAt[o] <= run[j].renewedAt[o]
  {
    if i < j {
      RenewalsGrowOver(ttl, run, i, j - 1, o);
      Lease.RunKeeps(ttl, run, j - 1);
      assert Lease.Follows(ttl, run[j - 1], run[j - 1 + 1]);
      RenewalsGrow(ttl, run[j - 1], run[j], o);
    }
  }

  /** An owner confirmed at i still holds the lock at j, less than one lifetime after that renewal. */
  lemma StillHolds(ttl: nat, run: seq<Lease.State>, i: nat, j: nat, o: nat)
    requires ttl > 0 && Lease.IsRun(ttl, run) && i <= j < |run| && o in run[i].confirmedAt
    requires o !in run[j].released && run[j].now < run[i].confirmedAt[o] + ttl
    ensures Alone(run[j], o)
  {
    Lease.RunKeeps(ttl, run, i);
    assert Lease.Recorded(run[i], o);
    RenewalsGrowOver(ttl, run, i, j, o);
    Lease.RunKeeps(ttl, run, j);
    assert Lease.Protected(ttl, run[j], o);
  }

  ghost predicate Alone(s: Lease.State, o: nat) {
    Lease.Held(s, o) && forall p | p != o :: !Lease.Held(s, p)
  }

  /** The write of this step, tried at `now`, reached the control plane. */
  ghost predicate Mutates(env: Executor.Env, step: Step, start: Executor.Run, now: nat) {
    step.capability in env.mutating && Executor.WriteEnd(env, step, start, now).run.effects != start.effects
  }

  /** Where the invocation of a write tried at `now` starts. */
  function Starts(x: Session, now: nat): nat { x.at(now + 3) }

  /** Every mutation starts while its own executor holds the lock and no other does. */
  lemma MutatesUnderLock(ttl: nat, run: seq<Lease.State>, x: Session, step: Step, start: Executor.Run, now: nat)
    requires ttl > 0 && Lease.IsRun(ttl, run) && Tied(run, x) && Prompt(ttl, run, x) && Mutates(x.env, step, start, now)
    ensures Alone(run[Starts(x, now)], x.owner)
  {
    Executor.WriteIsGuarded(x.env, step, start, now);
    assert x.env.owned(now + 1);
    StillHolds(ttl, run, x.at(now + 1), x.at(now + 1 + 2), x.owner);
  }

  /** Two executors on one key: whatever plans they apply and however they interleave, neither
      starts a mutation while the other holds the lock. */
  lemma NeverBoth(ttl: nat, run: seq<Lease.State>, x: Session, y: Session, step: Step, start: Executor.Run, now: nat,
                  step': Step, start': Executor.Run, now': nat)
    requires ttl > 0 && Lease.IsRun(ttl, run) && x.owner != y.owner
    requires Tied(run, x) && Prompt(ttl, run, x) && Tied(run, y) && Prompt(ttl, run, y)
    requires Mutates(x.env, step, start, now) && Mutates(y.env, step', start', now')
    ensures !Lease.Held(run[Starts(x, now)], y.owner) && !Lease.Held(run[Starts(y, now')], x.owner)
    ensures Starts(x, now) != Starts(y, now')
  {
    MutatesUnderLock(ttl, run, x, step, start, now);
    MutatesUnderLock(ttl, run, y, step', start', now');
  }
}
