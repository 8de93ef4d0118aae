/** The message-run state machine and the replay of its events. */
module MessageRun {
  import opened Prelude
  import opened Sorting

  datatype RunState =
    | Queued | Sending | WaitingForModel | Reasoning | WaitingForTool | WaitingForUserApproval
    | Executing | Streaming | Completed | Cancelled | Failed | Timeout

  const TERMINAL := {Completed, Cancelled, Failed, Timeout}

  function Transitions(from: RunState): set<RunState> {
    match from
    case Queued => {Sending, Cancelled, Failed, Timeout}
    case Sending => {WaitingForModel, Cancelled, Failed, Timeout}
    case WaitingForModel =>
      {Reasoning, WaitingForTool, WaitingForUserApproval, Streaming, Completed, Cancelled, Failed, Timeout}
    case Reasoning => {WaitingForTool, Streaming, Completed, Cancelled, Failed, Timeout}
    case WaitingForTool => {Executing, WaitingForUserApproval, Cancelled, Failed, Timeout}
    case WaitingForUserApproval => {Executing, Cancelled, Failed, Timeout}
    case Executing => {WaitingForTool, Streaming, Completed, Cancelled, Failed, Timeout}
    case Streaming => {WaitingForTool, Completed, Cancelled, Failed, Timeout}
    case _ => {}
  }

  datatype Snapshot = Snapshot(id: string, state: RunState, lastEventSeq: int, reason: Option<string>,
                               errorCode: Option<string>, errorDetail: Option<string>, completedAt: Option<string>)

  datatype Event = Event(eventSeq: int, state: RunState, reason: Option<string>, errorCode: Option<string>,
                         errorDetail: Option<string>, createdAt: Option<string>)

  datatype RunError = NotMonotonic | InvalidTransition(from: RunState, to: RunState)

  function OrElse<T>(a: Option<T>, b: Option<T>): Option<T> { if a.Some? then a else b }

  predicate CanTransition(from: RunState, to: RunState) { from == to || to in Transitions(from) }

  function ApplyEvent(run: Snapshot, e: Event): Result<Snapshot, RunError> {
    if e.eventSeq <= run.lastEventSeq then Err(NotMonotonic)
    else if !CanTransition(run.state, e.state) then Err(InvalidTransition(run.state, e.state))
    else Ok(Snapshot(run.id, e.state, e.eventSeq, OrElse(e.reason, run.reason), OrElse(e.errorCode, run.errorCode),
                     OrElse(e.errorDetail, run.errorDetail),
                     if e.state in TERMINAL then OrElse(e.createdAt, run.completedAt) else run.completedAt))
  }

  function Reduce(run: Snapshot, events: seq<Event>): Result<Snapshot, RunError>
    decreases |events|
  {
    if events == [] then Ok(run)
    else
      var next :- ApplyEvent(run, events[0]);
      Reduce(next, events[1..])
  }

  predicate BySeq(a: Event, b: Event) { a.eventSeq <= b.eventSeq }

  function FoldEvents(run: Snapshot, events: seq<Event>): Result<Snapshot, RunError> {
    Reduce(run, Sort(events, BySeq))
  }

  ghost predicate Increasing(events: seq<Event>, floor: int) {
    && (forall i | 0 <= i < |events| :: floor < events[i].eventSeq)
    && forall i, j | 0 <= i < j < |events| :: events[i].eventSeq < events[j].eventSeq
  }

  /** A replay that succeeds saw strictly increasing event numbers, and ends at the last of them. */
  lemma {:induction false} ReduceIncreases(run: Snapshot, events: seq<Event>)
    requires Reduce(run, events).Ok?
    ensures Increasing(events, run.lastEventSeq)
    ensures Reduce(run, events).value.lastEventSeq ==
      if events == [] then run.lastEventSeq else events[|events| - 1].eventSeq
    decreases |events|
  {
    if events != [] {
      var next := ApplyEvent(run, events[0]).value;
      ReduceIncreases(next, events[1..]);
      forall i | 1 <= i < |events| ensures next.lastEventSeq < events[i].eventSeq {
        assert events[i] == events[1..][i - 1];
      }
      forall i, j | 0 <= i < j < |events| ensures events[i].eventSeq < events[j].eventSeq {
        if i > 0 { assert events[1..][i - 1].eventSeq < events[1..][j - 1].eventSeq; }
      }
    }
  }

  lemma {:induction false} ReduceAppend(run: Snapshot, a: seq<Event>, b: seq<Event>)
    ensures Reduce(run, a + b) == if Reduce(run, a).Ok? then Reduce(Reduce(run, a).value, b) else Reduce(run, a)
    decreases |a|
  {
    if a == [] {
      assert a + b == b;
    } else {
      assert (a + b)[1..] == a[1..] + b;
      var next := ApplyEvent(run, a[0]);
      if next.Ok? { ReduceAppend(next.value, a[1..], b); }
    }
  }

  lemma SeqTotal(events: seq<Event>)
    ensures TotalOn(BySeq, events)
  {
  }

  /** A successful fold is of events with distinct numbers. */
  lemma OkMeansDistinct(run: Snapshot, events: seq<Event>)
    requires FoldEvents(run, events).Ok?
    ensures Separates(BySeq, events)
  {
    var sorted := Sort(events, BySeq);
    ReduceIncreases(run, sorted);
    SameMembers(events, sorted);
    forall a, b | a in events && b in events && BySeq(a, b) && BySeq(b, a) ensures a == b {
      var i :| 0 <= i < |sorted| && sorted[i] == a;
      var j :| 0 <= j < |sorted| && sorted[j] == b;
    }
  }

  /** Replay does not depend on arrival order: either every order fails, or all agree. */
  lemma ArrivalOrderDoesNotMatter(run: Snapshot, a: seq<Event>, b: seq<Event>)
    requires multiset(a) == multiset(b)
    ensures FoldEvents(run, a).Ok? <==> FoldEvents(run, b).Ok?
    ensures FoldEvents(run, a).Ok? ==> FoldEvents(run, a) == FoldEvents(run, b)
  {
    SeqTotal(a);
    SeqTotal(b);
    if FoldEvents(run, a).Ok? {
      OkMeansDistinct(run, a);
      SortForgetsOrder(a, b, BySeq);
    }
    if FoldEvents(run, b).Ok? {
      OkMeansDistinct(run, b);
      SortForgetsOrder(b, a, BySeq);
    }
  }

  lemma SortConcat(a: seq<Event>, b: seq<Event>)
    requires Separates(BySeq, a + b) && forall x, y | x in a && y in b :: x.eventSeq < y.eventSeq
    ensures Sort(a + b, BySeq) == Sort(a, BySeq) + Sort(b, BySeq)
  {
    var s, t := Sort(a, BySeq), Sort(b, BySeq);
    SortedJoin(a, b);
    SeqTotal(a + b);
    SortSorted(a + b, BySeq);
    SameMembers(a + b, Sort(a + b, BySeq));
    SeqTotal(Sort(a + b, BySeq));
    SortedUnique(Sort(a + b, BySeq), s + t, BySeq);
  }

  lemma SortedJoin(a: seq<Event>, b: seq<Event>)
    requires forall x, y | x in a && y in b :: x.eventSeq < y.eventSeq
    ensures Sorted(BySeq, Sort(a, BySeq) + Sort(b, BySeq))
  {
    SeqTotal(a);
    SeqTotal(b);
    SortSorted(a, BySeq);
    SortSorted(b, BySeq);
    SameMembers(a, Sort(a, BySeq));
    SameMembers(b, Sort(b, BySeq));
    SortedApart(Sort(a, BySeq), Sort(b, BySeq));
  }

  lemma SortedApart(s: seq<Event>, t: seq<Event>)
    requires Sorted(BySeq, s) && Sorted(BySeq, t)
    requires forall x, y | x in s && y in t :: x.eventSeq < y.eventSeq
    ensures Sorted(BySeq, s + t)
  {
    forall i, j | 0 <= i < j < |s + t| ensures BySeq((s + t)[i], (s + t)[j]) {
      if i < |s| && j >= |s| { assert s[i] in s && t[j - |s|] in t; }
    }
  }

  /** The events of a successful fold lie between the run's last number and the result's. */
  lemma FoldBounds(run: Snapshot, events: seq<Event>, e: Event)
    requires FoldEvents(run, events).Ok? && e in events
    ensures run.lastEventSeq < e.eventSeq <= FoldEvents(run, events).value.lastEventSeq
  {
    var s := Sort(events, BySeq);
    SameMembers(events, s);
    ReduceBounds(run, s, e);
  }

  lemma ReduceBounds(run: Snapshot, events: seq<Event>, e: Event)
    requires Reduce(run, events).Ok? && e in events
    ensures run.lastEventSeq < e.eventSeq <= Reduce(run, events).value.lastEventSeq
  {
    ReduceIncreases(run, events);
    var i :| 0 <= i < |events| && events[i] == e;
  }

  lemma BatchesAreOrdered(run: Snapshot, a: seq<Event>, b: seq<Event>)
    requires FoldEvents(run, a).Ok? && FoldEvents(FoldEvents(run, a).value, b).Ok?
    ensures Separates(BySeq, a + b) && forall x, y | x in a && y in b :: x.eventSeq < y.eventSeq
  {
    var mid := FoldEvents(run, a).value;
    OkMeansDistinct(run, a);
    OkMeansDistinct(mid, b);
    forall x, y | x in a && y in b ensures x.eventSeq < y.eventSeq {
      FoldBounds(run, a, x);
      FoldBounds(mid, b, y);
    }
  }

  /** Replay in two batches and replay at once agree, whenever the batches replay. */
  lemma BatchingDoesNotMatter(run: Snapshot, a: seq<Event>, b: seq<Event>)
    requires FoldEvents(run, a).Ok? && FoldEvents(FoldEvents(run, a).value, b).Ok?
    ensures FoldEvents(run, a + b) == FoldEvents(FoldEvents(run, a).value, b)
  {
    BatchesAreOrdered(run, a, b);
    SortConcat(a, b);
    ReduceAppend(run, Sort(a, BySeq), Sort(b, BySeq));
  }

  /** Conversely, a replay splits into batches at any event number. */
  lemma ReplaySplits(run: Snapshot, a: seq<Event>, b: seq<Event>)
    requires FoldEvents(run, a + b).Ok? && forall x, y | x in a && y in b :: x.eventSeq < y.eventSeq
    ensures FoldEvents(run, a).Ok? && FoldEvents(FoldEvents(run, a).value, b) == FoldEvents(run, a + b)
  {
    OkMeansDistinct(run, a + b);
    SortConcat(a, b);
    ReduceAppend(run, Sort(a, BySeq), Sort(b, BySeq));
  }

  /** Terminal states absorb: a replay from one succeeds only on events that repeat it. */
  lemma {:induction false} TerminalAbsorbs(run: Snapshot, events: seq<Event>)
    requires run.state in TERMINAL && Reduce(run, events).Ok?
    ensures Reduce(run, events).value.state == run.state
    ensures forall i | 0 <= i < |events| :: events[i].state == run.state
    decreases |events|
  {
    if events != [] {
      TerminalAbsorbs(ApplyEvent(run, events[0]).value, events[1..]);
      assert forall i | 1 <= i < |events| :: events[i] == events[1..][i - 1];
    }
  }

  /** A repeated terminal event may rewrite the completion time. */
  lemma CompletionTimeRewritten(run: Snapshot, e: Event)
    requires run.state in TERMINAL && e.state == run.state && run.lastEventSeq < e.eventSeq
    ensures FoldEvents(run, [e]).Ok? && FoldEvents(run, [e]).value.completedAt == OrElse(e.createdAt, run.completedAt)
  {
    SortOfSorted([e], BySeq);
    var next := ApplyEvent(run, e).value;
    assert [e][1..] == [] && Reduce(next, [e][1..]) == Ok(next);
  }

  /** The event with the newest number among those that carry a time. */
  ghost predicate NewestStamp(events: seq<Event>, e: Event) {
    && e in events && e.createdAt.Some?
    && forall f | f in events && f.createdAt.Some? :: f.eventSeq <= e.eventSeq
  }

  lemma {:induction false} ReduceStamps(run: Snapshot, events: seq<Event>)
    requires run.state in TERMINAL && Reduce(run, events).Ok?
    ensures var at := Reduce(run, events).value.completedAt;
      || (at == run.completedAt && forall i | 0 <= i < |events| :: events[i].createdAt.None?)
      || exists i :: LastStamp(events, i) && events[i].createdAt == at
    decreases |events|
  {
    if events != [] {
      var next, rest := ApplyEvent(run, events[0]).value, events[1..];
      ReduceStamps(next, rest);
      var at := Reduce(run, events).value.completedAt;
      assert forall j | 1 <= j < |events| :: events[j] == rest[j - 1];
      if at == next.completedAt && forall i | 0 <= i < |rest| :: rest[i].createdAt.None? {
        if events[0].createdAt.Some? { assert LastStamp(events, 0); }
      } else {
        var i :| LastStamp(rest, i) && rest[i].createdAt == at;
        assert LastStamp(events, i + 1);
      }
    }
  }

  ghost predicate LastStamp(events: seq<Event>, i: int) {
    0 <= i < |events| && events[i].createdAt.Some? && forall j | i < j < |events| :: events[j].createdAt.None?
  }

  /** The last stamp of a replay in order is the only newest one. */
  lemma LastIsNewest(run: Snapshot, events: seq<Event>, i: int, e: Event)
    requires Reduce(run, events).Ok? && LastStamp(events, i)
    ensures NewestStamp(events, e) <==> e == events[i]
  {
    ReduceIncreases(run, events);
    forall f | f in events && f.createdAt.Some? ensures f.eventSeq <= events[i].eventSeq {
      var j :| 0 <= j < |events| && events[j] == f;
    }
    if NewestStamp(events, e) {
      var j :| 0 <= j < |events| && events[j] == e;
      assert events[i] in events;
    }
  }

  lemma StampsSorted(events: seq<Event>, e: Event)
    ensures NewestStamp(Sort(events, BySeq), e) <==> NewestStamp(events, e)
  {
    SameMembers(events, Sort(events, BySeq));
  }

  /** The completion time of a finished run after any further replay: that of the newest event with
      a time, and the old one if there is none. So it is final exactly when the newest such event
      repeats it. */
  lemma CompletionTimeKept(run: Snapshot, events: seq<Event>)
    requires run.state in TERMINAL && FoldEvents(run, events).Ok?
    ensures var at := FoldEvents(run, events).value.completedAt;
      && (forall e | NewestStamp(events, e) :: at == e.createdAt)
      && ((forall e | e in events :: e.createdAt.None?) ==> at == run.completedAt)
      && (at == run.completedAt <==> forall e | NewestStamp(events, e) :: e.createdAt == run.completedAt)
  {
    var sorted := Sort(events, BySeq);
    ReduceStamps(run, sorted);
    SameMembers(events, sorted);
    forall e ensures NewestStamp(sorted, e) <==> NewestStamp(events, e) { StampsSorted(events, e); }
    if i :| LastStamp(sorted, i) && sorted[i].createdAt == FoldEvents(run, events).value.completedAt {
      forall e ensures NewestStamp(events, e) <==> e == sorted[i] { LastIsNewest(run, sorted, i, e); }
    } else {
      assert forall e | e in sorted :: e.createdAt.None?;
    }
  }

  /** The state a replay is in when it meets event k. */
  function StateBefore(run: Snapshot, events: seq<Event>, k: nat): RunState
    requires k < |events|
  {
    if k == 0 then run.state else events[k - 1].state
  }

  /** Work is only executed after it was announced: whenever a replay meets an executing event, the
      state before it waits for a tool or an approval, or is executing already. */
  lemma {:induction false} ExecutionIsAnnounced(run: Snapshot, events: seq<Event>, k: nat)
    requires Reduce(run, events).Ok? && k < |events| && events[k].state == Executing
    ensures StateBefore(run, events, k) in {Executing, WaitingForTool, WaitingForUserApproval}
    decreases k
  {
    if k > 0 {
      var next := ApplyEvent(run, events[0]).value;
      ExecutionIsAnnounced(next, events[1..], k - 1);
      assert StateBefore(next, events[1..], k - 1) == StateBefore(run, events, k);
    }
  }

  ghost predicate FreshSnapshot(run: Snapshot) { run.completedAt.Some? ==> run.state in TERMINAL }

  /** Only a finished run carries a completion time. */
  lemma {:induction false} CompletionMeansTerminal(run: Snapshot, events: seq<Event>)
    requires FreshSnapshot(run) && Reduce(run, events).Ok?
    ensures FreshSnapshot(Reduce(run, events).value) && Reduce(run, events).value.id == run.id
    decreases |events|
  {
    if events != [] { CompletionMeansTerminal(ApplyEvent(run, events[0]).value, events[1..]); }
  }

  /** The reason of a replayed run is the newest one given. */
  lemma {:induction false} NewestReasonWins(run: Snapshot, events: seq<Event>)
    requires Reduce(run, events).Ok?
    ensures var r := Reduce(run, events).value.reason;
      || (r == run.reason && forall i | 0 <= i < |events| :: events[i].reason.None?)
      || exists i :: 0 <= i < |events| && events[i].reason == r && r.Some?
           && forall j | i < j < |events| :: events[j].reason.None?
    decreases |events|
  {
    if events != [] {
      var next, rest := ApplyEvent(run, events[0]).value, events[1..];
      NewestReasonWins(next, rest);
      var r := Reduce(run, events).value.reason;
      assert forall j | 1 <= j < |events| :: events[j] == rest[j - 1];
      if r == next.reason && forall i | 0 <= i < |rest| :: rest[i].reason.None? {
        if events[0].reason.Some? { assert events[0].reason == r; }
      } else {
        var i :| 0 <= i < |rest| && rest[i].reason == r && r.Some? && forall j | i < j < |rest| :: rest[j].reason.None?;
        assert events[i + 1].reason == r;
      }
    }
  }
}
