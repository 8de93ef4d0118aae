/** The receipt cap of a group under concurrency: the bound on its live receipts is reached at every
    cap, so the cap itself is kept exactly where the group's transactions never overlap. */
module ReceiptCap {
  import opened CodeUnits
  import opened IdempotencyReceipts
  import opened Prelude

  /** A table of n live receipts of one group, written at the start. */
  ghost predicate Table(s: State, g: Group, n: nat) {
    && s.now == 0 && s.rows.Keys == s.used == Upto(n)
    && forall id | id in s.rows :: s.rows[id].group == g && s.rows[id].expires == 1
  }

  lemma TableCounts(s: State, g: Group, n: nat)
    requires Table(s, g, n)
    ensures Counted(s.rows, g, 0) == Live(s, g) == Upto(n)
  {
  }

  lemma TableGrows(s: State, g: Group, n: nat, r: Receipt)
    requires Table(s, g, n) && r.group == g && r.expires == 1
    ensures Table(WithReceipt(s, n, r), g, n + 1)
  {
    assert WithReceipt(s, n, r).rows.Keys == s.rows.Keys + {n};
    assert Upto(n + 1) == Upto(n) + {n};
  }

  /** Keys that no slot of the crowd uses, because they are longer. */
  function LongKey(n: nat): (k: string)
    ensures |k| == n
  {
    if n == 0 then "" else LongKey(n - 1) + "k"
  }

  ghost predicate KeysBeyond(s: State, length: nat, n: nat) {
    forall id | id in s.rows :: length < |s.rows[id].digest.key| <= length + n
  }

  function SlotIn(g: Group, key: string): Slot { Slot(g.operation, g.zone, g.scope, key) }

  /** One mutation after the other fills a group up to its cap. */
  lemma {:induction false} Filled(cfg: Config, b: Bounds, ring: Ring, response: Response, length: nat, n: nat)
      returns (s: State)
    requires n <= cfg.max && ring in b.rings && b.open >= 1
    ensures ReachableWithin(cfg, b, s) && s.txs == map[] && Table(s, b.group, n) && KeysBeyond(s, length, n)
  {
    if n == 0 {
      ReachStart(cfg, b);
      s := INITIAL;
    } else {
      var before := Filled(cfg, b, ring, response, length, n - 1);
      s := OneMoreFilled(cfg, b, ring, response, length, n - 1, before);
    }
  }

  lemma OneMoreFilled(cfg: Config, b: Bounds, ring: Ring, response: Response, length: nat, n: nat, before: State)
      returns (s: State)
    requires n < cfg.max && ring in b.rings && b.open >= 1
    requires ReachableWithin(cfg, b, before) && before.txs == map[] && Table(before, b.group, n)
    requires KeysBeyond(before, length, n)
    ensures ReachableWithin(cfg, b, s) && s.txs == map[] && Table(s, b.group, n + 1) && KeysBeyond(s, length, n + 1)
  {
    var slot := SlotIn(b.group, LongKey(length + n + 1));
    var r := ReceiptOf(slot, ring, [], response, 1);
    s := WithReceipt(before, n, r);
    NoneMatches(before, slot, ring, length + n);
    TableCounts(before, b.group, n);
    AloneGoesThrough(cfg, b, before, slot, ring, [], response, n);
    TableGrows(before, b.group, n, r);
    BeyondGrows(before, length, n, r);
  }

  lemma NoneMatches(s: State, slot: Slot, ring: Ring, length: nat)
    requires |slot.key| > length && forall id | id in s.rows :: |s.rows[id].digest.key| <= length
    ensures forall id | id in s.rows :: !Matches(slot, ring, s.rows[id])
  {
  }

  lemma BeyondGrows(s: State, length: nat, n: nat, r: Receipt)
    requires KeysBeyond(s, length, n) && |r.digest.key| == length + n + 1
    ensures KeysBeyond(WithReceipt(s, n, r), length, n + 1)
  {
  }

  /** The transactions lo to hi, all told "new" and none of them committed. */
  function Crowd(s: State, slots: seq<Slot>, ring: Ring, lo: nat, hi: nat): State
    requires hi <= |slots|
  {
    s.(txs := map t | t in Upto(hi) && t >= lo :: Tx(slots[t], ring, [], 0, Decided(New), {}))
  }

  /** Slots of one group, each with a lock of its own. */
  ghost predicate Apart(cfg: Config, g: Group, slots: seq<Slot>) {
    && (forall t | 0 <= t < |slots| :: GroupOf(slots[t]) == g)
    && forall t, u | 0 <= t < u < |slots| :: cfg.lockOf(slots[t]) != cfg.lockOf(slots[u])
  }

  lemma CrowdOpen(s: State, slots: seq<Slot>, ring: Ring, lo: nat, hi: nat, tx: Tx, g: Group)
    requires hi < |slots|
    ensures |Open(Put(Crowd(s, slots, ring, lo, hi), hi, tx), g)| <= hi + 1
    ensures |Open(Crowd(s, slots, ring, lo, hi), g)| <= hi
  {
    SubsetSize(Open(Put(Crowd(s, slots, ring, lo, hi), hi, tx), g), Upto(hi + 1));
    SubsetSize(Open(Crowd(s, slots, ring, lo, hi), g), Upto(hi));
  }

  /** A step of the newcomer beside the crowd. */
  lemma CrowdStep(cfg: Config, b: Bounds, s: State, slots: seq<Slot>, ring: Ring, k: nat, from: State, e: Event, tx: Tx)
    requires k < |slots| <= b.open && ReachableWithin(cfg, b, from) && Enabled(cfg, from, e)
    requires e.Begin? ==> e.ring in b.rings
    requires Step(cfg, from, e) == Put(Crowd(s, slots, ring, 0, k), k, tx)
    ensures ReachableWithin(cfg, b, Put(Crowd(s, slots, ring, 0, k), k, tx))
  {
    CrowdOpen(s, slots, ring, 0, k, tx, b.group);
    ReachStep(cfg, b, from, e, Put(Crowd(s, slots, ring, 0, k), k, tx));
  }

  /** The newcomer in one of its phases, beside the crowd. */
  function Newcomer(s: State, slots: seq<Slot>, ring: Ring, k: nat, phase: Phase): State
    requires k < |slots|
  {
    Put(Crowd(s, slots, ring, 0, k), k, Tx(slots[k], ring, [], 0, phase, {}))
  }

  /** The newcomer moves on to its next phase. */
  lemma JoinNext(cfg: Config, b: Bounds, s: State, slots: seq<Slot>, ring: Ring, k: nat, phase: Phase, e: Event,
                 next: Phase)
    requires k < |slots| <= b.open && ReachableWithin(cfg, b, Newcomer(s, slots, ring, k, phase)) && !e.Begin?
    requires Enabled(cfg, Newcomer(s, slots, ring, k, phase), e)
    requires Step(cfg, Newcomer(s, slots, ring, k, phase), e) == Newcomer(s, slots, ring, k, next)
    ensures ReachableWithin(cfg, b, Newcomer(s, slots, ring, k, next))
  {
    CrowdStep(cfg, b, s, slots, ring, k, Newcomer(s, slots, ring, k, phase), e, Tx(slots[k], ring, [], 0, next, {}));
  }

  lemma BeginStep(cfg: Config, s: State, slots: seq<Slot>, ring: Ring, k: nat)
    requires k < |slots| && s.now == 0
    ensures var crowd, e := Crowd(s, slots, ring, 0, k), Begin(k, slots[k], ring, []);
      Enabled(cfg, crowd, e) && Step(cfg, crowd, e) == Newcomer(s, slots, ring, k, Begun)
  {
  }

  lemma LockStep(cfg: Config, g: Group, s: State, slots: seq<Slot>, ring: Ring, k: nat)
    requires k < |slots| && Apart(cfg, g, slots)
    ensures var begun := Newcomer(s, slots, ring, k, Begun);
      Enabled(cfg, begun, Lock(k)) && Step(cfg, begun, Lock(k)) == Newcomer(s, slots, ring, k, Locked)
  {
    var begun := Newcomer(s, slots, ring, k, Begun);
    assert Step(cfg, begun, Lock(k)).txs == Newcomer(s, slots, ring, k, Locked).txs;
  }

  lemma SweepStep(cfg: Config, s: State, slots: seq<Slot>, ring: Ring, k: nat)
    requires k < |slots| && forall id | id in s.rows :: !Matches(slots[k], ring, s.rows[id])
    ensures var locked := Newcomer(s, slots, ring, k, Locked);
      Enabled(cfg, locked, Sweep(k)) && Step(cfg, locked, Sweep(k)) == Newcomer(s, slots, ring, k, Cleared)
  {
    assert Swept(s.rows, slots[k], ring, 0) == {};
    var locked := Newcomer(s, slots, ring, k, Locked);
    assert Step(cfg, locked, Sweep(k)).txs == Newcomer(s, slots, ring, k, Cleared).txs;
  }

  lemma SelectStep(cfg: Config, s: State, slots: seq<Slot>, ring: Ring, k: nat)
    requires k < |slots| && forall id | id in s.rows :: !Matches(slots[k], ring, s.rows[id])
    ensures var cleared := Newcomer(s, slots, ring, k, Cleared);
      Enabled(cfg, cleared, Select(k, None))
        && Step(cfg, cleared, Select(k, None)) == Newcomer(s, slots, ring, k, Missed)
  {
    assert s.rows - {} == s.rows;
    assert Found(s.rows, slots[k], ring, 0) == {};
    var cleared := Newcomer(s, slots, ring, k, Cleared);
    assert Step(cfg, cleared, Select(k, None)).txs == Newcomer(s, slots, ring, k, Missed).txs;
  }

  lemma CountStep(cfg: Config, s: State, slots: seq<Slot>, ring: Ring, k: nat)
    requires k < |slots| && |Counted(s.rows, GroupOf(slots[k]), 0)| < cfg.max
    ensures var missed := Newcomer(s, slots, ring, k, Missed);
      Enabled(cfg, missed, Count(k)) && Step(cfg, missed, Count(k)) == Newcomer(s, slots, ring, k, Decided(New))
  {
    assert s.rows - {} == s.rows;
    var missed := Newcomer(s, slots, ring, k, Missed);
    assert Step(cfg, missed, Count(k)).txs == Newcomer(s, slots, ring, k, Decided(New)).txs;
  }

  lemma JoinCleared(cfg: Config, b: Bounds, s: State, slots: seq<Slot>, ring: Ring, k: nat)
    requires Apart(cfg, b.group, slots) && k < |slots| <= b.open && ring in b.rings && s.now == 0
    requires forall id | id in s.rows :: !Matches(slots[k], ring, s.rows[id])
    requires ReachableWithin(cfg, b, Crowd(s, slots, ring, 0, k))
    ensures ReachableWithin(cfg, b, Newcomer(s, slots, ring, k, Cleared))
  {
    var e := Begin(k, slots[k], ring, []);
    BeginStep(cfg, s, slots, ring, k);
    CrowdStep(cfg, b, s, slots, ring, k, Crowd(s, slots, ring, 0, k), e, Tx(slots[k], ring, [], 0, Begun, {}));
    LockStep(cfg, b.group, s, slots, ring, k);
    JoinNext(cfg, b, s, slots, ring, k, Begun, Lock(k), Locked);
    SweepStep(cfg, s, slots, ring, k);
    JoinNext(cfg, b, s, slots, ring, k, Locked, Sweep(k), Cleared);
  }

  lemma JoinAdmitted(cfg: Config, b: Bounds, s: State, slots: seq<Slot>, ring: Ring, k: nat)
    requires k < |slots| <= b.open && ReachableWithin(cfg, b, Newcomer(s, slots, ring, k, Cleared))
    requires forall id | id in s.rows :: !Matches(slots[k], ring, s.rows[id])
    requires |Counted(s.rows, GroupOf(slots[k]), 0)| < cfg.max
    ensures ReachableWithin(cfg, b, Newcomer(s, slots, ring, k, Decided(New)))
  {
    SelectStep(cfg, s, slots, ring, k);
    JoinNext(cfg, b, s, slots, ring, k, Cleared, Select(k, None), Missed);
    CountStep(cfg, s, slots, ring, k);
    JoinNext(cfg, b, s, slots, ring, k, Missed, Count(k), Decided(New));
  }

  lemma CrowdGrows(s: State, slots: seq<Slot>, ring: Ring, k: nat)
    requires k < |slots|
    ensures Newcomer(s, slots, ring, k, Decided(New)) == Crowd(s, slots, ring, 0, k + 1)
  {
    assert Newcomer(s, slots, ring, k, Decided(New)).txs == Crowd(s, slots, ring, 0, k + 1).txs;
  }

  /** While nothing is committed one more transaction of the group is told "new". */
  lemma Joined(cfg: Config, b: Bounds, s: State, slots: seq<Slot>, ring: Ring, k: nat)
    requires Apart(cfg, b.group, slots) && k < |slots| <= b.open && ring in b.rings && s.now == 0
    requires forall id | id in s.rows :: !Matches(slots[k], ring, s.rows[id])
    requires |Counted(s.rows, b.group, 0)| < cfg.max
    requires ReachableWithin(cfg, b, Crowd(s, slots, ring, 0, k))
    ensures ReachableWithin(cfg, b, Crowd(s, slots, ring, 0, k + 1))
  {
    JoinCleared(cfg, b, s, slots, ring, k);
    JoinAdmitted(cfg, b, s, slots, ring, k);
    CrowdGrows(s, slots, ring, k);
  }

  lemma {:induction false} AllJoined(cfg: Config, b: Bounds, s: State, slots: seq<Slot>, ring: Ring, k: nat)
    requires Apart(cfg, b.group, slots) && k <= |slots| <= b.open && ring in b.rings
    requires ReachableWithin(cfg, b, s) && s.txs == map[] && s.now == 0 && |Counted(s.rows, b.group, 0)| < cfg.max
    requires forall t, id | 0 <= t < |slots| && id in s.rows :: !Matches(slots[t], ring, s.rows[id])
    ensures ReachableWithin(cfg, b, Crowd(s, slots, ring, 0, k))
  {
    if k == 0 {
      assert Crowd(s, slots, ring, 0, 0).txs == map[];
    } else {
      AllJoined(cfg, b, s, slots, ring, k - 1);
      Joined(cfg, b, s, slots, ring, k - 1);
    }
  }

  /** The crowd whose first transaction has stored its receipt. */
  function FirstStored(s: State, slots: seq<Slot>, ring: Ring, lo: nat, n: nat, r: Receipt): State
    requires lo < |slots|
  {
    Put(Crowd(s, slots, ring, lo, |slots|).(used := s.used + {n}), lo, Tx(slots[lo], ring, [], 0, Stored(n, r), {}))
  }

  lemma FirstStores(cfg: Config, b: Bounds, s: State, slots: seq<Slot>, ring: Ring, lo: nat, n: nat, response: Response)
    requires lo < |slots| <= b.open && n !in s.used
    requires ReachableWithin(cfg, b, Crowd(s, slots, ring, lo, |slots|))
    ensures ReachableWithin(cfg, b, FirstStored(s, slots, ring, lo, n, ReceiptOf(slots[lo], ring, [], response, 1)))
  {
    var stored := FirstStored(s, slots, ring, lo, n, ReceiptOf(slots[lo], ring, [], response, 1));
    SubsetSize(Open(stored, b.group), Upto(|slots|));
    ReachStep(cfg, b, Crowd(s, slots, ring, lo, |slots|), Complete(lo, n, response, 1), stored);
  }

  lemma FirstCommits(cfg: Config, b: Bounds, s: State, slots: seq<Slot>, ring: Ring, lo: nat, n: nat, r: Receipt)
    requires lo < |slots| <= b.open && ReachableWithin(cfg, b, FirstStored(s, slots, ring, lo, n, r))
    ensures ReachableWithin(cfg, b, Crowd(WithReceipt(s, n, r), slots, ring, lo + 1, |slots|))
  {
    var stored, left :=
      FirstStored(s, slots, ring, lo, n, r), Crowd(WithReceipt(s, n, r), slots, ring, lo + 1, |slots|);
    assert s.rows - {} == s.rows;
    assert Step(cfg, stored, Commit(lo)).txs == left.txs;
    SubsetSize(Open(left, b.group), Upto(|slots|));
    ReachStep(cfg, b, stored, Commit(lo), left);
  }

  /** A table of n receipts that a run within the bounds can leave behind beside part of the crowd. */
  ghost predicate Left(cfg: Config, b: Bounds, s: State, slots: seq<Slot>, ring: Ring, lo: nat, n: nat) {
    lo <= |slots| && Table(s, b.group, n) && ReachableWithin(cfg, b, Crowd(s, slots, ring, lo, |slots|))
  }

  /** The first of the crowd records its receipt and leaves. */
  lemma FirstLeaves(cfg: Config, b: Bounds, s: State, slots: seq<Slot>, ring: Ring, k: nat, n: nat, response: Response)
      returns (s': State)
    requires Apart(cfg, b.group, slots) && 0 < k <= |slots| <= b.open && n > 0
    requires Left(cfg, b, s, slots, ring, k - 1, n - 1)
    ensures Left(cfg, b, s', slots, ring, k, n)
  {
    var r := ReceiptOf(slots[k - 1], ring, [], response, 1);
    s' := WithReceipt(s, n - 1, r);
    FirstStores(cfg, b, s, slots, ring, k - 1, n - 1, response);
    FirstCommits(cfg, b, s, slots, ring, k - 1, n - 1, r);
    TableGrows(s, b.group, n - 1, r);
  }

  lemma {:induction false} AllLeave(cfg: Config, b: Bounds, s: State, slots: seq<Slot>, ring: Ring, k: nat, n: nat,
                                    response: Response) returns (last: State)
    requires Apart(cfg, b.group, slots) && k <= |slots| <= b.open && k <= n && Left(cfg, b, s, slots, ring, 0, n - k)
    ensures Left(cfg, b, last, slots, ring, k, n)
  {
    if k == 0 {
      last := s;
    } else {
      last := AllLeave(cfg, b, s, slots, ring, k - 1, n - 1, response);
      last := FirstLeaves(cfg, b, last, slots, ring, k, n, response);
    }
  }

  function LongestKey(slots: seq<Slot>): (n: nat)
    ensures forall t | 0 <= t < |slots| :: |slots[t].key| <= n
  {
    if slots == [] then 0
    else
      var rest, last := LongestKey(slots[..|slots| - 1]), |slots[|slots| - 1].key|;
      if last > rest then last else rest
  }

  /** The bound is reached at every cap: c transactions of a group that hash to different locks are
      all told "new" over a table with room for one. */
  lemma CapReached(cfg: Config, ring: Ring, g: Group, slots: seq<Slot>, response: Response)
    requires cfg.max >= 1 && |slots| >= 1 && Apart(cfg, g, slots)
    ensures exists s :: ReachableWithin(cfg, Bounds({ring}, g, |slots|), s) && |Live(s, g)| == cfg.max + |slots| - 1
  {
    var b, length := Bounds({ring}, g, |slots|), LongestKey(slots);
    var full := Filled(cfg, b, ring, response, length, cfg.max - 1);
    TableCounts(full, g, cfg.max - 1);
    AllJoined(cfg, b, full, slots, ring, |slots|);
    var last := AllLeave(cfg, b, full, slots, ring, |slots|, cfg.max - 1 + |slots|, response);
    TableCounts(last, g, cfg.max - 1 + |slots|);
    assert Live(Crowd(last, slots, ring, |slots|, |slots|), g) == Live(last, g);
  }

  /** In no run with at most c open transactions of the group do its live receipts exceed the cap. */
  ghost predicate CapKept(cfg: Config, g: Group, c: nat) {
    forall run, i | IsRun(cfg, run) && (forall k | 0 <= k < |run| :: |Open(run[k], g)| <= c) && 0 <= i < |run| ::
      |Live(run[i], g)| <= cfg.max
  }

  /** All slots of a group hash to one lock. */
  ghost predicate OneLock(cfg: Config, g: Group) {
    forall a, b | GroupOf(a) == g && GroupOf(b) == g :: cfg.lockOf(a) == cfg.lockOf(b)
  }

  lemma OneLockOneInside(cfg: Config, s: State, g: Group)
    requires Invariant(cfg, s) && OneLock(cfg, g)
    ensures |Inside(s, g)| <= 1
  {
    if Inside(s, g) != {} {
      var t :| t in Inside(s, g);
      forall u | u in Inside(s, g) ensures u == t { assert Exclusive(cfg, s, t, u); }
      assert Inside(s, g) == {t};
    }
  }

  /** At most one transaction of the group at a time is past its lock. */
  lemma OneInside(cfg: Config, run: seq<State>, k: nat, g: Group, c: nat)
    requires IsRun(cfg, run) && k < |run| && |Open(run[k], g)| <= c && (c <= 1 || OneLock(cfg, g))
    ensures |Inside(run[k], g)| <= 1
  {
    if c <= 1 {
      SubsetSize(Inside(run[k], g), Open(run[k], g));
    } else {
      RunKeeps(cfg, run, k);
      OneLockOneInside(cfg, run[k], g);
    }
  }

  lemma CapKeptSerially(cfg: Config, g: Group, c: nat)
    requires c <= 1 || OneLock(cfg, g)
    ensures CapKept(cfg, g, c)
  {
    forall run, i | IsRun(cfg, run) && (forall k | 0 <= k < |run| :: |Open(run[k], g)| <= c) && 0 <= i < |run|
      ensures |Live(run[i], g)| <= cfg.max
    {
      forall k | 0 <= k < |run| ensures |Inside(run[k], g)| <= 1 { OneInside(cfg, run, k, g, c); }
      CapHolds(cfg, run, i, g, 1);
    }
  }

  lemma CapKeptAtZero(cfg: Config, g: Group, c: nat)
    requires cfg.max == 0
    ensures CapKept(cfg, g, c)
  {
    forall run, i | IsRun(cfg, run) && (forall k | 0 <= k < |run| :: |Open(run[k], g)| <= c) && 0 <= i < |run|
      ensures |Live(run[i], g)| <= cfg.max
    {
      NothingUnderNoCap(cfg, run, i);
      assert Live(run[i], g) == {};
    }
  }

  lemma CapBroken(cfg: Config, g: Group, a: Slot, b: Slot, c: nat)
    requires cfg.max >= 1 && c >= 2 && Apart(cfg, g, [a, b])
    ensures !CapKept(cfg, g, c)
  {
    var ring := Ring(0, 0);
    CapReached(cfg, ring, g, [a, b], Response(201, "", None));
    var s :| ReachableWithin(cfg, Bounds({ring}, g, 2), s) && |Live(s, g)| == cfg.max + 1;
    var run :| IsBoundedRun(cfg, Bounds({ring}, g, 2), run) && run[|run| - 1] == s;
    assert |Live(run[|run| - 1], g)| > cfg.max;
  }

  /** The cap is checked under a per-key lock: it holds exactly where a group's transactions never
      overlap, where they all share one lock, or where nothing is admitted. */
  lemma CapExact(cfg: Config, g: Group, c: nat)
    ensures CapKept(cfg, g, c) <==> c <= 1 || cfg.max == 0 || OneLock(cfg, g)
  {
    if c <= 1 || OneLock(cfg, g) {
      CapKeptSerially(cfg, g, c);
    } else if cfg.max == 0 {
      CapKeptAtZero(cfg, g, c);
    } else {
      var a, b :| GroupOf(a) == g && GroupOf(b) == g && cfg.lockOf(a) != cfg.lockOf(b);
      CapBroken(cfg, g, a, b, c);
    }
  }
}
