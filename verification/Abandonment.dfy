/** Whether giving a row up is final. A failure is recorded by row id alone, with the attempt count
    its worker saw when it claimed: a worker that outlived its lock can bring an abandoned row back. */
module Abandonment {
  import opened Outbox
  import opened Prelude

  predicate Abandoned(s: State, id: nat) { id in s.rows && s.rows[id].availableAt.Never? }

  // ---- While locks run ----

  lemma StepKeepsAbandoned(cfg: Config, s: State, e: Event, id: nat)
    requires AllHold(s) && Enabled(cfg, s, e) && Abandoned(s, id)
    ensures Abandoned(Step(cfg, s, e), id)
  {
    if e.Recover? { HeadInHand(s, e.w); }
  }

  lemma FollowsKeepsAbandoned(cfg: Config, s: State, s': State, id: nat)
    requires AllHold(s) && Follows(cfg, s, s') && Abandoned(s, id)
    ensures Abandoned(s', id)
  {
    var e :| Enabled(cfg, s, e) && s' == Step(cfg, s, e);
    StepKeepsAbandoned(cfg, s, e, id);
  }

  /** If no lock runs out under a worker, an abandoned row stays abandoned, whatever is lost. */
  lemma {:induction false} AbandonedForGood(cfg: Config, run: seq<State>, i: nat, j: nat, id: nat)
    requires IsTimelyRun(cfg, run) && i <= j < |run| && Abandoned(run[i], id)
    ensures Abandoned(run[j], id)
  {
    if i < j {
      AbandonedForGood(cfg, run, i, j - 1, id);
      TimelyRunHolds(cfg, run, j - 1);
      assert Follows(cfg, run[j - 1], run[j - 1 + 1]);
      FollowsKeepsAbandoned(cfg, run[j - 1], run[j], id);
    }
  }

  // ---- With a single attempt ----

  lemma OneAttemptStep(cfg: Config, s: State, s': State, id: nat)
    requires cfg.maxAttempts == 1 && Invariant(cfg, s) && Follows(cfg, s, s') && Abandoned(s, id)
    ensures Abandoned(s', id)
  {
    var e :| Enabled(cfg, s, e) && s' == Step(cfg, s, e);
    if e.Recover? { assert WorkerOk(s, e.w); }
  }

  lemma {:induction false} OneAttemptForGood(cfg: Config, run: seq<State>, i: nat, j: nat, id: nat)
    requires ValidConfig(cfg) && cfg.maxAttempts == 1 && IsRun(cfg, run) && i <= j < |run| && Abandoned(run[i], id)
    ensures Abandoned(run[j], id)
  {
    if i < j {
      OneAttemptForGood(cfg, run, i, j - 1, id);
      RunKeeps(cfg, run, j - 1);
      assert Follows(cfg, run[j - 1], run[j - 1 + 1]);
      OneAttemptStep(cfg, run[j - 1], run[j], id);
    }
  }

  // ---- With more attempts and a lock that ran out ----

  ghost predicate Reachable(cfg: Config, s: State) {
    exists run :: IsRun(cfg, run) && run[|run| - 1] == s
  }

  lemma RunGrows(cfg: Config, run: seq<State>, e: Event)
    requires IsRun(cfg, run) && Enabled(cfg, run[|run| - 1], e)
    ensures IsRun(cfg, run + [Step(cfg, run[|run| - 1], e)])
  {
    var more := run + [Step(cfg, run[|run| - 1], e)];
    forall i | 0 <= i < |more| - 1 ensures Follows(cfg, more[i], more[i + 1]) {
      if i < |run| - 1 {
        assert Follows(cfg, run[i], run[i + 1]);
      } else {
        StepFollows(cfg, run[i], e, more[i + 1]);
      }
    }
  }

  lemma ReachStep(cfg: Config, s: State, e: Event)
    requires Reachable(cfg, s) && Enabled(cfg, s, e)
    ensures Reachable(cfg, Step(cfg, s, e))
  {
    var run :| IsRun(cfg, run) && run[|run| - 1] == s;
    RunGrows(cfg, run, e);
  }

  /** Worker 1 still holds its first claim of the row although the lock ran out; the row was claimed
      k times in all and worker 2 is free. */
  predicate Stalled(s: State, k: nat) {
    && 7 in s.rows && Claimable(s.rows[7], s.now) && s.rows[7].attempts == k
    && 1 in s.workers && s.workers[1].phase == Ready && s.workers[1].queue != []
    && s.workers[1].queue[0].id == 7 && s.workers[1].queue[0].attempts == 1
    && 2 in s.workers && s.workers[2] == IDLE
  }

  const STARTED := State(0, map[7 := Row(None, At(0), None, 0, 0)], map[1 := IDLE, 2 := IDLE], map[])

  lemma StartedReachable(cfg: Config)
    ensures Reachable(cfg, STARTED)
  {
    var s1 := Step(cfg, INITIAL, Enqueue(7, 0));
    assert IsRun(cfg, [INITIAL]);
    ReachStep(cfg, INITIAL, Enqueue(7, 0));
    ReachStep(cfg, s1, Start(1));
    ReachStep(cfg, Step(cfg, s1, Start(1)), Start(2));
    assert Step(cfg, Step(cfg, s1, Start(1)), Start(2)) == STARTED;
  }

  lemma FirstStall(cfg: Config)
    requires ValidConfig(cfg)
    ensures Enabled(cfg, STARTED, Claim(1, [7]))
    ensures Stalled(Step(cfg, Step(cfg, STARTED, Claim(1, [7])), Tick(cfg.lockDuration + 1)), 1)
  {
  }

  /** Worker 2 claims the row and crashes, and its lock runs out. */
  lemma NextStall(cfg: Config, s: State, k: nat)
    requires ValidConfig(cfg) && Stalled(s, k)
    ensures Enabled(cfg, s, Claim(2, [7])) && Enabled(cfg, Step(cfg, s, Claim(2, [7])), Crash(2))
    ensures Stalled(Step(cfg, Step(cfg, Step(cfg, s, Claim(2, [7])), Crash(2)), Tick(cfg.lockDuration + 1)), k + 1)
  {
  }

  lemma {:induction false} StalledReachable(cfg: Config, k: nat) returns (s: State)
    requires ValidConfig(cfg) && k >= 1
    ensures Reachable(cfg, s) && Stalled(s, k)
  {
    if k == 1 {
      StartedReachable(cfg);
      FirstStall(cfg);
      ReachStep(cfg, STARTED, Claim(1, [7]));
      ReachStep(cfg, Step(cfg, STARTED, Claim(1, [7])), Tick(cfg.lockDuration + 1));
      s := Step(cfg, Step(cfg, STARTED, Claim(1, [7])), Tick(cfg.lockDuration + 1));
    } else {
      var before := StalledReachable(cfg, k - 1);
      s := OneMoreStall(cfg, before, k);
    }
  }

  lemma OneMoreStall(cfg: Config, before: State, k: nat) returns (s: State)
    requires ValidConfig(cfg) && k >= 1 && Reachable(cfg, before) && Stalled(before, k - 1)
    ensures Reachable(cfg, s) && Stalled(s, k)
  {
    NextStall(cfg, before, k - 1);
    var claimed := Step(cfg, before, Claim(2, [7]));
    var crashed := Step(cfg, claimed, Crash(2));
    ReachStep(cfg, before, Claim(2, [7]));
    ReachStep(cfg, claimed, Crash(2));
    ReachStep(cfg, crashed, Tick(cfg.lockDuration + 1));
    s := Step(cfg, crashed, Tick(cfg.lockDuration + 1));
  }

  /** Worker 2 fails on the last attempt and gives the row up, while worker 1 is still about to try. */
  lemma GivesUp(cfg: Config, s: State) returns (s1: State, s2: State, s3: State)
    requires ValidConfig(cfg) && cfg.maxAttempts >= 2 && Stalled(s, cfg.maxAttempts - 1)
    ensures Enabled(cfg, s, Claim(2, [7])) && s1 == Step(cfg, s, Claim(2, [7]))
    ensures Enabled(cfg, s1, Send(2, false, false)) && s2 == Step(cfg, s1, Send(2, false, false))
    ensures Enabled(cfg, s2, Recover(2, true, true, 0.0)) && s3 == Step(cfg, s2, Recover(2, true, true, 0.0))
    ensures Abandoned(s3, 7) && s3.workers[1] == s.workers[1]
  {
    s1 := Step(cfg, s, Claim(2, [7]));
    assert s1.workers[2].queue[0] == Entry(7, cfg.maxAttempts, s.now + cfg.lockDuration);
    s2 := Step(cfg, s1, Send(2, false, false));
    s3 := Step(cfg, s2, Recover(2, true, true, 0.0));
  }

  /** Worker 1 fails too, and sets a new time by the count it saw. */
  lemma BringsBack(cfg: Config, s: State) returns (s1: State, s2: State)
    requires cfg.maxAttempts >= 2 && Abandoned(s, 7) && 1 in s.workers && s.workers[1].phase == Ready
    requires s.workers[1].queue != [] && s.workers[1].queue[0].id == 7 && s.workers[1].queue[0].attempts == 1
    ensures Enabled(cfg, s, Send(1, false, false)) && s1 == Step(cfg, s, Send(1, false, false))
    ensures Enabled(cfg, s1, Recover(1, true, true, 0.0)) && s2 == Step(cfg, s1, Recover(1, true, true, 0.0))
    ensures !Abandoned(s2, 7)
  {
    s1 := Step(cfg, s, Send(1, false, false));
    s2 := Step(cfg, s1, Recover(1, true, true, 0.0));
  }

  lemma AbandonedReachable(cfg: Config) returns (s: State)
    requires ValidConfig(cfg) && cfg.maxAttempts >= 2
    ensures Reachable(cfg, s) && Abandoned(s, 7) && 1 in s.workers && s.workers[1].phase == Ready
    ensures s.workers[1].queue != [] && s.workers[1].queue[0].id == 7 && s.workers[1].queue[0].attempts == 1
  {
    var stalled := StalledReachable(cfg, cfg.maxAttempts - 1);
    var s1, s2, s3 := GivesUp(cfg, stalled);
    ReachStep(cfg, stalled, Claim(2, [7]));
    ReachStep(cfg, s1, Send(2, false, false));
    ReachStep(cfg, s2, Recover(2, true, true, 0.0));
    s := s3;
  }

  /** A lock that runs out brings an abandoned row back, at every limit above one attempt. */
  lemma AbandonedComesBack(cfg: Config) returns (run: seq<State>, i: nat)
    requires ValidConfig(cfg) && cfg.maxAttempts >= 2
    ensures IsRun(cfg, run) && i < |run| && Abandoned(run[i], 7) && !Abandoned(run[|run| - 1], 7)
  {
    var s := AbandonedReachable(cfg);
    var s1, s2 := BringsBack(cfg, s);
    var before :| IsRun(cfg, before) && before[|before| - 1] == s;
    RunGrows(cfg, before, Send(1, false, false));
    RunGrows(cfg, before + [s1], Recover(1, true, true, 0.0));
    run, i := before + [s1] + [s2], |before| - 1;
  }

  ghost predicate AbandonmentIsFinal(cfg: Config) {
    forall run, i, j, id: nat | IsRun(cfg, run) && 0 <= i <= j < |run| && Abandoned(run[i], id) :: Abandoned(run[j], id)
  }

  /** Over all runs abandonment is final exactly when there is a single attempt. */
  lemma AbandonmentExact(cfg: Config)
    requires ValidConfig(cfg)
    ensures AbandonmentIsFinal(cfg) <==> cfg.maxAttempts == 1
  {
    if cfg.maxAttempts == 1 {
      forall run, i, j, id: nat | IsRun(cfg, run) && 0 <= i <= j < |run| && Abandoned(run[i], id)
        ensures Abandoned(run[j], id)
      {
        OneAttemptForGood(cfg, run, i, j, id);
      }
    } else {
      var run, i := AbandonedComesBack(cfg);
    }
  }
}
