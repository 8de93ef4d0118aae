/** Idempotency receipts: the statements of one mutation's transaction, and every interleaving of
    many such transactions over one table. */
module IdempotencyReceipts {
  import opened CanonicalJson
  import opened CodeUnits
  import opened Prelude

  /** What a client may reuse a key for. */
  datatype Slot = Slot(operation: string, zone: string, scope: string, key: string)

  datatype Group = Group(operation: string, zone: string, scope: string)

  /** The keyed digest of an idempotency key. Digests are injective, so the pair stands for it. */
  datatype Digest = Digest(hmacKey: nat, key: string)

  datatype Response = Response(status: nat, body: string, resourceId: Option<string>)

  /** A receipt row. The request digest stands for the canonical text it was taken of. */
  datatype Receipt = Receipt(group: Group, digest: Digest, request: Text, response: Response, expires: nat)

  /** The writing key and the previous one; a ring of one key repeats it. */
  datatype Ring = Ring(current: nat, previous: nat)

  datatype Outcome = New | Replayed(response: Response) | Conflict | Limit

  function GroupOf(slot: Slot): Group { Group(slot.operation, slot.zone, slot.scope) }

  function SlotOf(r: Receipt): Slot { Slot(r.group.operation, r.group.zone, r.group.scope, r.digest.key) }

  predicate Holds(ring: Ring, hmacKey: nat) { hmacKey == ring.current || hmacKey == ring.previous }

  predicate Matches(slot: Slot, ring: Ring, r: Receipt) {
    r.group == GroupOf(slot) && r.digest in {Digest(ring.current, slot.key), Digest(ring.previous, slot.key)}
  }

  lemma MatchesIsSlotAndKey(slot: Slot, ring: Ring, r: Receipt)
    ensures Matches(slot, ring, r) <==> SlotOf(r) == slot && Holds(ring, r.digest.hmacKey)
  {
  }

  /** The rows the sweep removes, those the lookup may return, and those the cap counts, for a
      transaction that started at `start`. */
  function Swept(rows: map<nat, Receipt>, slot: Slot, ring: Ring, start: nat): set<nat> {
    set id | id in rows && Matches(slot, ring, rows[id]) && rows[id].expires <= start
  }

  function Found(rows: map<nat, Receipt>, slot: Slot, ring: Ring, start: nat): set<nat> {
    set id | id in rows && Matches(slot, ring, rows[id]) && rows[id].expires > start
  }

  function Counted(rows: map<nat, Receipt>, group: Group, start: nat): set<nat> {
    set id | id in rows && rows[id].group == group && rows[id].expires > start
  }

  function VerdictOn(r: Receipt, request: Text): Outcome {
    if r.request != request then Conflict else Replayed(r.response)
  }

  /** What a transaction running alone is told. */
  ghost predicate Answers(rows: map<nat, Receipt>, slot: Slot, ring: Ring, request: Text, start: nat, max: nat,
                          outcome: Outcome) {
    if Found(rows, slot, ring, start) == {} then
      outcome == if |Counted(rows, GroupOf(slot), start)| >= max then Limit else New
    else exists id :: id in Found(rows, slot, ring, start) && outcome == VerdictOn(rows[id], request)
  }

  class ReceiptStore {
    var rows: map<nat, Receipt>
    var created: nat
    var replayed: nat
    var conflicts: nat
    var expired: nat

    constructor ()
      ensures rows == map[] && created == replayed == conflicts == expired == 0
    {
      rows, created, replayed, conflicts, expired := map[], 0, 0, 0, 0;
    }

    /** The lookup half of a mutation: it drops expired receipts of the key, then answers from a
        live one or admits the mutation under the cap. An unprintable request throws first. */
    method StartIdempotency(slot: Slot, ring: Ring, request: Json, start: nat, max: nat)
        returns (r: Result<Outcome, TypeError>)
      requires Valid(request)
      modifies this
      ensures r.Ok? <==> Canonical(request).Ok?
      ensures r.Ok? <==> Supported(request)
      ensures r.Err? ==> rows == old(rows) && created == old(created) && expired == old(expired)
      ensures r.Ok? ==> rows == old(rows) - Swept(old(rows), slot, ring, start) && created == old(created)
      ensures r.Ok? ==> expired == old(expired) + |Swept(old(rows), slot, ring, start)|
      ensures r.Ok? ==> Answers(old(rows), slot, ring, Canonical(request).value, start, max, r.value)
      ensures replayed == old(replayed) + (if r.Ok? && r.value.Replayed? then 1 else 0)
      ensures conflicts == old(conflicts) + (if r.Ok? && r.value.Conflict? then 1 else 0)
    {
      CanonicalDomain(request);
      var text := Canonical(request);
      if text.Err? { return Err(text.error); }
      var gone := Swept(rows, slot, ring, start);
      rows, expired := rows - gone, expired + |gone|;
      var found := Found(rows, slot, ring, start);
      assert found == Found(old(rows), slot, ring, start);
      if found == {} {
        assert Counted(rows, GroupOf(slot), start) == Counted(old(rows), GroupOf(slot), start);
        return Ok(if |Counted(rows, GroupOf(slot), start)| >= max then Limit else New);
      }
      var id :| id in found;
      if rows[id].request != text.value {
        conflicts := conflicts + 1;
        return Ok(Conflict);
      }
      replayed := replayed + 1;
      r := Ok(Replayed(rows[id].response));
    }

    /** The other half: it records the response under the writing key. From then on the slot answers
        from the new receipt under every ring that holds the writing key, and no other slot does. */
    method CompleteIdempotency(id: nat, slot: Slot, ring: Ring, request: Text, response: Response, start: nat,
                               retention: nat)
      requires id !in rows
      modifies this
      ensures rows == old(rows)[id := ReceiptOf(slot, ring, request, response, start + retention)]
      ensures Recorded(old(rows), rows, slot, ring, request, response, start + retention)
      ensures created == old(created) + 1
      ensures replayed == old(replayed) && conflicts == old(conflicts) && expired == old(expired)
    {
      RecordedAnswers(rows, id, slot, ring, request, response, start + retention);
      rows := rows[id := ReceiptOf(slot, ring, request, response, start + retention)];
      created := created + 1;
    }
  }

  /** What a lookup is told after a receipt was recorded in a slot that had none: its response for
      the same text and a conflict for any other, until it expires; other slots find what they found. */
  ghost predicate Recorded(before: map<nat, Receipt>, after: map<nat, Receipt>, slot: Slot, ring: Ring, request: Text,
                           response: Response, expires: nat) {
    && (forall other, reader, at: nat | other != slot ::
      Found(after, other, reader, at) == Found(before, other, reader, at))
    && (forall reader, asked, at: nat, max, outcome
          | Holds(reader, ring.current) && at < expires && Found(before, slot, reader, at) == {} ::
          Answers(after, slot, reader, asked, at, max, outcome) == (outcome == VerdictFor(asked, request, response)))
  }

  function VerdictFor(asked: Text, request: Text, response: Response): Outcome {
    if asked == request then Replayed(response) else Conflict
  }

  lemma RecordedAnswers(rows: map<nat, Receipt>, id: nat, slot: Slot, ring: Ring, request: Text, response: Response,
                        expires: nat)
    requires id !in rows
    ensures Recorded(rows, rows[id := ReceiptOf(slot, ring, request, response, expires)], slot, ring, request, response,
                     expires)
  {
    var r := ReceiptOf(slot, ring, request, response, expires);
    var after := rows[id := r];
    forall other, reader, at: nat | other != slot
      ensures Found(after, other, reader, at) == Found(rows, other, reader, at)
    {
      MatchesIsSlotAndKey(other, reader, r);
    }
    forall reader, asked, at: nat, max, outcome
      | Holds(reader, ring.current) && at < expires && Found(rows, slot, reader, at) == {}
      ensures Answers(after, slot, reader, asked, at, max, outcome) == (outcome == VerdictFor(asked, request, response))
    {
      assert Found(after, slot, reader, at) == {id};
    }
  }

  datatype Phase =
    | Begun
    | Locked
    | Cleared
    | Missed
    | Decided(outcome: Outcome)
    | Stored(id: nat, receipt: Receipt)

  /** An open transaction; `deleted` are the rows it removed, still visible to the others. */
  datatype Tx = Tx(slot: Slot, ring: Ring, request: Text, start: nat, phase: Phase, deleted: set<nat>)

  datatype State = State(now: nat, rows: map<nat, Receipt>, txs: map<nat, Tx>, used: set<nat>)

  const INITIAL := State(0, map[], map[], {})

  /** The cap, and the advisory lock a slot hashes to; different slots may share a lock. */
  datatype Config = Config(max: nat, lockOf: Slot -> nat)

  datatype Event =
    | Tick(elapsed: nat)
    | Begin(t: nat, slot: Slot, ring: Ring, request: Text)
    | Lock(t: nat)
    | Sweep(t: nat)
    | Select(t: nat, pick: Option<nat>)
    | Count(t: nat)
    | Complete(t: nat, id: nat, response: Response, retention: nat)
    | Commit(t: nat)
    | Rollback(t: nat)
    | Clean(ids: set<nat>)

  predicate In(s: State, t: nat, phase: Phase) { t in s.txs && s.txs[t].phase == phase }

  predicate HoldsLock(s: State, t: nat) { t in s.txs && !s.txs[t].phase.Begun? }

  /** What a transaction's statements see: the committed rows without those it removed. */
  function Sees(s: State, t: nat): map<nat, Receipt>
    requires t in s.txs
  {
    s.rows - s.txs[t].deleted
  }

  ghost predicate Enabled(cfg: Config, s: State, e: Event) {
    match e
    case Tick(_) => true
    case Begin(t, _, _, _) => t !in s.txs
    case Lock(t) =>
      In(s, t, Begun) && forall u | HoldsLock(s, u) :: cfg.lockOf(s.txs[u].slot) != cfg.lockOf(s.txs[t].slot)
    case Sweep(t) => In(s, t, Locked)
    case Select(t, pick) =>
      && In(s, t, Cleared)
      && var found := Found(Sees(s, t), s.txs[t].slot, s.txs[t].ring, s.txs[t].start);
        if found == {} then pick.None? else pick.Some? && pick.value in found
    case Count(t) => In(s, t, Missed)
    case Complete(t, id, _, _) => In(s, t, Decided(New)) && id !in s.used
    case Commit(t) => t in s.txs
    case Rollback(t) => t in s.txs
    case Clean(ids) => forall id | id in ids && id in s.rows :: s.rows[id].expires <= s.now
  }

  function Put(s: State, t: nat, tx: Tx): State { s.(txs := s.txs[t := tx]) }

  /** The rows once a transaction has committed. */
  function Committed(rows: map<nat, Receipt>, tx: Tx): map<nat, Receipt> {
    var left := rows - tx.deleted;
    if tx.phase.Stored? then left[tx.phase.id := tx.phase.receipt] else left
  }

  ghost function Step(cfg: Config, s: State, e: Event): State
    requires Enabled(cfg, s, e)
  {
    match e
    case Tick(d) => s.(now := s.now + d)
    case Begin(t, slot, ring, request) => Put(s, t, Tx(slot, ring, request, s.now, Begun, {}))
    case Lock(t) => Put(s, t, s.txs[t].(phase := Locked))
    case Sweep(t) =>
      var tx := s.txs[t];
      Put(s, t, tx.(phase := Cleared, deleted := Swept(s.rows, tx.slot, tx.ring, tx.start)))
    case Select(t, pick) =>
      var tx := s.txs[t];
      Put(s, t, tx.(phase := if pick.None? then Missed else Decided(VerdictOn(Sees(s, t)[pick.value], tx.request))))
    case Count(t) =>
      var tx := s.txs[t];
      var full := |Counted(Sees(s, t), GroupOf(tx.slot), tx.start)| >= cfg.max;
      Put(s, t, tx.(phase := Decided(if full then Limit else New)))
    case Complete(t, id, response, retention) =>
      var tx := s.txs[t];
      var receipt :=
        Receipt(GroupOf(tx.slot), Digest(tx.ring.current, tx.slot.key), tx.request, response, tx.start + retention);
      Put(s.(used := s.used + {id}), t, tx.(phase := Stored(id, receipt)))
    case Commit(t) => s.(rows := Committed(s.rows, s.txs[t]), txs := s.txs - {t})
    case Rollback(t) => s.(txs := s.txs - {t})
    case Clean(ids) => s.(rows := s.rows - ids)
  }

  /** A transaction past its lookup without a hit. */
  predicate FoundNothing(phase: Phase) { phase.Missed? || phase in {Decided(New), Decided(Limit)} || phase.Stored? }

  /** A transaction that was told "new". */
  predicate Admitted(phase: Phase) { phase == Decided(New) || phase.Stored? }

  predicate PastSweep(phase: Phase) { !phase.Begun? && !phase.Locked? }

  /** What a transaction knows about one row. */
  predicate RowKnown(s: State, tx: Tx, id: nat) {
    && (id in tx.deleted ==> id in s.used && (id in s.rows ==> s.rows[id].expires <= tx.start))
    && (id in s.rows && Matches(tx.slot, tx.ring, s.rows[id]) && PastSweep(tx.phase) ==>
      s.rows[id].expires <= tx.start ==> id in tx.deleted)
    && (id in s.rows && Matches(tx.slot, tx.ring, s.rows[id]) && FoundNothing(tx.phase) ==> id in tx.deleted)
  }

  ghost predicate TxOk(s: State, t: nat) {
    t in s.txs ==>
      var tx := s.txs[t];
      && tx.start <= s.now
      && (forall id :: RowKnown(s, tx, id))
      && (tx.phase.Stored? ==> tx.phase.id in s.used && tx.phase.id !in s.rows && Writes(tx, tx.phase.receipt))
  }

  predicate Writes(tx: Tx, r: Receipt) {
    r.group == GroupOf(tx.slot) && r.digest == Digest(tx.ring.current, tx.slot.key) && r.request == tx.request
  }

  /** One holder per lock, so one per slot; a stored row id belongs to one transaction. */
  ghost predicate Exclusive(cfg: Config, s: State, t: nat, u: nat) {
    && (HoldsLock(s, t) && HoldsLock(s, u) && t != u ==> cfg.lockOf(s.txs[t].slot) != cfg.lockOf(s.txs[u].slot))
    && (t in s.txs && u in s.txs && t != u && s.txs[t].phase.Stored? && s.txs[u].phase.Stored? ==>
      s.txs[t].phase.id != s.txs[u].phase.id)
    && (t in s.txs && u in s.txs && s.txs[t].phase.Stored? ==> s.txs[t].phase.id !in s.txs[u].deleted)
  }

  ghost predicate Invariant(cfg: Config, s: State) {
    && s.rows.Keys <= s.used
    && (forall t :: TxOk(s, t))
    && forall t, u :: Exclusive(cfg, s, t, u)
  }

  lemma SameLockSameSlot(cfg: Config, s: State, t: nat, u: nat)
    requires Invariant(cfg, s) && HoldsLock(s, t) && HoldsLock(s, u) && t != u
    ensures s.txs[t].slot != s.txs[u].slot
  {
    assert Exclusive(cfg, s, t, u);
  }

  /** A step that leaves the rows alone and changes one transaction. */
  lemma TouchKeeps(cfg: Config, s: State, s': State, t: nat)
    requires Invariant(cfg, s) && t in s'.txs && s' == s.(used := s'.used, txs := s.txs[t := s'.txs[t]])
    requires s.used <= s'.used
    requires TxOk(s', t) && forall u :: Exclusive(cfg, s', t, u) && Exclusive(cfg, s', u, t)
    ensures Invariant(cfg, s')
  {
    forall u ensures TxOk(s', u) {
      assert TxOk(s, u);
      if u in s.txs && u != t {
        forall id ensures RowKnown(s', s'.txs[u], id) { assert RowKnown(s, s.txs[u], id); }
      }
    }
    forall u, v ensures Exclusive(cfg, s', u, v) {
      assert Exclusive(cfg, s, u, v);
      assert Exclusive(cfg, s', t, u) && Exclusive(cfg, s', t, v);
    }
  }

  lemma LookupKeeps(cfg: Config, s: State, e: Event)
    requires Invariant(cfg, s) && Enabled(cfg, s, e) && (e.Begin? || e.Lock? || e.Sweep? || e.Select? || e.Count?)
    ensures Invariant(cfg, Step(cfg, s, e))
  {
    var s', t := Step(cfg, s, e), e.t;
    assert TxOk(s, t);
    forall id ensures RowKnown(s', s'.txs[t], id) {
      if t in s.txs { assert RowKnown(s, s.txs[t], id); }
      if e.Select? && e.pick.None? {
        assert id !in Found(Sees(s, t), s.txs[t].slot, s.txs[t].ring, s.txs[t].start);
      }
    }
    forall u ensures Exclusive(cfg, s', t, u) && Exclusive(cfg, s', u, t) {
      assert Exclusive(cfg, s, t, u) && Exclusive(cfg, s, u, t) && TxOk(s, u);
    }
    TouchKeeps(cfg, s, s', t);
  }

  lemma CompleteKeeps(cfg: Config, s: State, e: Event)
    requires Invariant(cfg, s) && Enabled(cfg, s, e) && e.Complete?
    ensures Invariant(cfg, Step(cfg, s, e))
  {
    var s', t := Step(cfg, s, e), e.t;
    assert TxOk(s, t);
    forall id ensures RowKnown(s', s'.txs[t], id) { assert RowKnown(s, s.txs[t], id); }
    forall u ensures Exclusive(cfg, s', t, u) && Exclusive(cfg, s', u, t) {
      assert Exclusive(cfg, s, t, u) && Exclusive(cfg, s, u, t) && TxOk(s, u);
      if u in s.txs { assert RowKnown(s, s.txs[u], e.id); }
    }
    TouchKeeps(cfg, s, s', t);
  }

  /** A row that appears belongs to a slot whose lock its writer held, so no other transaction past
      its sweep can match it. */
  lemma CommitKeeps(cfg: Config, s: State, t: nat)
    requires Invariant(cfg, s) && t in s.txs
    ensures Invariant(cfg, Step(cfg, s, Commit(t)))
  {
    var s', tx := Step(cfg, s, Commit(t)), s.txs[t];
    assert TxOk(s, t);
    forall u ensures TxOk(s', u) {
      if u in s'.txs {
        assert TxOk(s, u) && Exclusive(cfg, s, t, u);
        forall id ensures RowKnown(s', s'.txs[u], id) {
          assert RowKnown(s, s.txs[u], id) && RowKnown(s, tx, id);
          if tx.phase.Stored? && id == tx.phase.id { FreshRowUnknown(cfg, s, t, u, id); }
        }
      }
    }
    forall u, v ensures Exclusive(cfg, s', u, v) { assert Exclusive(cfg, s, u, v); }
  }

  lemma FreshRowUnknown(cfg: Config, s: State, t: nat, u: nat, id: nat)
    requires Invariant(cfg, s) && t in s.txs && u in s.txs && u != t
    requires s.txs[t].phase.Stored? && id == s.txs[t].phase.id
    ensures PastSweep(s.txs[u].phase) ==> !Matches(s.txs[u].slot, s.txs[u].ring, s.txs[t].phase.receipt)
    ensures id !in s.txs[u].deleted
  {
    if PastSweep(s.txs[u].phase) { SameLockSameSlot(cfg, s, t, u); }
    assert TxOk(s, t) && Exclusive(cfg, s, t, u);
  }

  lemma DropKeeps(cfg: Config, s: State, s': State)
    requires Invariant(cfg, s) && s'.now >= s.now && s'.used == s.used
    requires s'.rows.Keys <= s.rows.Keys && forall id | id in s'.rows :: s'.rows[id] == s.rows[id]
    requires s'.txs.Keys <= s.txs.Keys && forall t | t in s'.txs :: s'.txs[t] == s.txs[t]
    ensures Invariant(cfg, s')
  {
    forall t ensures TxOk(s', t) {
      assert TxOk(s, t);
      if t in s'.txs {
        forall id ensures RowKnown(s', s'.txs[t], id) { assert RowKnown(s, s.txs[t], id); }
      }
    }
    forall t, u ensures Exclusive(cfg, s', t, u) { assert Exclusive(cfg, s, t, u); }
  }

  lemma StepKeeps(cfg: Config, s: State, e: Event)
    requires Invariant(cfg, s) && Enabled(cfg, s, e)
    ensures Invariant(cfg, Step(cfg, s, e))
  {
    match e
    case Complete(_, _, _, _) => CompleteKeeps(cfg, s, e);
    case Commit(t) => CommitKeeps(cfg, s, t);
    case Tick(_) => DropKeeps(cfg, s, Step(cfg, s, e));
    case Rollback(_) => DropKeeps(cfg, s, Step(cfg, s, e));
    case Clean(_) => DropKeeps(cfg, s, Step(cfg, s, e));
    case _ => LookupKeeps(cfg, s, e);
  }

  ghost predicate Follows(cfg: Config, s: State, s': State) {
    exists e :: Enabled(cfg, s, e) && s' == Step(cfg, s, e)
  }

  ghost predicate IsRun(cfg: Config, run: seq<State>) {
    && |run| > 0 && run[0] == INITIAL
    && forall i | 0 <= i < |run| - 1 :: Follows(cfg, run[i], run[i + 1])
  }

  lemma {:induction false} RunKeeps(cfg: Config, run: seq<State>, i: nat)
    requires IsRun(cfg, run) && i < |run|
    ensures Invariant(cfg, run[i])
  {
    if i > 0 {
      RunKeeps(cfg, run, i - 1);
      assert Follows(cfg, run[i - 1], run[i - 1 + 1]);
      var e :| Enabled(cfg, run[i - 1], e) && run[i] == Step(cfg, run[i - 1], e);
      StepKeeps(cfg, run[i - 1], e);
    }
  }

  /** A receipt stays in the table, unchanged, for as long as it is live. */
  lemma LiveReceiptStays(cfg: Config, s: State, e: Event, id: nat)
    requires Invariant(cfg, s) && Enabled(cfg, s, e) && id in s.rows && Step(cfg, s, e).now < s.rows[id].expires
    ensures var s' := Step(cfg, s, e); id in s'.rows && s'.rows[id] == s.rows[id]
  {
    if e.Commit? {
      assert TxOk(s, e.t);
      assert RowKnown(s, s.txs[e.t], id);
    }
  }

  lemma {:induction false} LiveReceiptLasts(cfg: Config, run: seq<State>, i: nat, j: nat, id: nat)
    requires IsRun(cfg, run) && i <= j < |run| && id in run[i].rows && run[j].now < run[i].rows[id].expires
    ensures id in run[j].rows && run[j].rows[id] == run[i].rows[id]
  {
    if i < j {
      RunKeeps(cfg, run, j - 1);
      assert Follows(cfg, run[j - 1], run[j - 1 + 1]);
      TimePasses(cfg, run[j - 1], run[j]);
      LiveReceiptLasts(cfg, run, i, j - 1, id);
      LiveReceiptFollows(cfg, run[j - 1], run[j], id);
    }
  }

  lemma TimePasses(cfg: Config, s: State, s': State)
    requires Follows(cfg, s, s')
    ensures s.now <= s'.now
  {
  }

  lemma LiveReceiptFollows(cfg: Config, s: State, s': State, id: nat)
    requires Invariant(cfg, s) && Follows(cfg, s, s') && id in s.rows && s'.now < s.rows[id].expires
    ensures id in s'.rows && s'.rows[id] == s.rows[id]
  {
    var e :| Enabled(cfg, s, e) && s' == Step(cfg, s, e);
    LiveReceiptStays(cfg, s, e, id);
  }

  /** While a receipt is live and its key is in a transaction's ring, that transaction is not told
      "new" for the receipt's slot, in any interleaving. */
  lemma NoSecondNew(cfg: Config, run: seq<State>, i: nat, j: nat, id: nat, t: nat)
    requires IsRun(cfg, run) && i <= j < |run| && id in run[i].rows && run[j].now < run[i].rows[id].expires
    requires t in run[j].txs && run[j].txs[t].slot == SlotOf(run[i].rows[id])
    requires Holds(run[j].txs[t].ring, run[i].rows[id].digest.hmacKey)
    ensures !FoundNothing(run[j].txs[t].phase)
  {
    LiveReceiptLasts(cfg, run, i, j, id);
    RunKeeps(cfg, run, j);
    var s, tx := run[j], run[j].txs[t];
    MatchesIsSlotAndKey(tx.slot, tx.ring, s.rows[id]);
    assert TxOk(s, t);
    assert RowKnown(s, tx, id);
  }

  /** At most one open transaction of a slot is past the lock, so two are never told "new" at once. */
  lemma OneAtATime(cfg: Config, run: seq<State>, i: nat, t: nat, u: nat)
    requires IsRun(cfg, run) && i < |run| && t in run[i].txs && u in run[i].txs && t != u
    requires run[i].txs[t].slot == run[i].txs[u].slot
    ensures !(Admitted(run[i].txs[t].phase) && Admitted(run[i].txs[u].phase))
  {
    RunKeeps(cfg, run, i);
    if HoldsLock(run[i], t) && HoldsLock(run[i], u) { SameLockSameSlot(cfg, run[i], t, u); }
  }

  /** The receipt of an admitted transaction never collides with a committed one. */
  lemma InsertNeverCollides(cfg: Config, run: seq<State>, i: nat, t: nat, id: nat)
    requires IsRun(cfg, run) && i < |run| && t in run[i].txs && Admitted(run[i].txs[t].phase)
    requires id in Sees(run[i], t)
    ensures !(run[i].rows[id].group == GroupOf(run[i].txs[t].slot)
      && run[i].rows[id].digest == Digest(run[i].txs[t].ring.current, run[i].txs[t].slot.key))
  {
    RunKeeps(cfg, run, i);
    assert TxOk(run[i], t);
    assert RowKnown(run[i], run[i].txs[t], id);
  }

  /** With a live receipt under the ring, the lookup answers from a recorded receipt of the slot: the
      recorded response for a request that means the same, a conflict for any other. */
  lemma AnswersFromReceipt(cfg: Config, run: seq<State>, i: nat, t: nat, pick: Option<nat>, live: nat, asked: Json,
                           recorded: Json)
    requires IsRun(cfg, run) && i < |run| && Enabled(cfg, run[i], Select(t, pick))
    requires live in run[i].rows && run[i].now < run[i].rows[live].expires
    requires Matches(run[i].txs[t].slot, run[i].txs[t].ring, run[i].rows[live])
    requires Valid(asked) && Supported(asked) && Canonical(asked) == Ok(run[i].txs[t].request)
    requires Valid(recorded) && Supported(recorded)
    ensures pick.Some? && pick.value in run[i].rows
    ensures var r, after := run[i].rows[pick.value], Step(cfg, run[i], Select(t, pick)).txs[t].phase;
      && SlotOf(r) == run[i].txs[t].slot
      && (Canonical(recorded) == Ok(r.request) ==>
        after == Decided(if Meaning(asked) == Meaning(recorded) then Replayed(r.response) else Conflict))
  {
    var s, tx := run[i], run[i].txs[t];
    RunKeeps(cfg, run, i);
    assert TxOk(s, t);
    assert RowKnown(s, tx, live);
    assert live in Found(Sees(s, t), tx.slot, tx.ring, tx.start);
    MatchesIsSlotAndKey(tx.slot, tx.ring, s.rows[pick.value]);
    CanonicalFaithful(asked, recorded);
  }

  /** Two rings between which a receipt written under one is found under the other. */
  predicate Compatible(a: Ring, b: Ring) { Holds(a, b.current) && Holds(b, a.current) }

  ghost predicate RotationSafe(rings: set<Ring>) { forall a, b | a in rings && b in rings :: Compatible(a, b) }

  /** Every transaction uses one of the rings, and every receipt was written under one. */
  ghost predicate UsesRings(s: State, rings: set<Ring>) {
    && (forall t | t in s.txs :: s.txs[t].ring in rings)
    && forall id | id in s.rows :: exists ring :: ring in rings && s.rows[id].digest.hmacKey == ring.current
  }

  ghost predicate OneReceiptEach(s: State) {
    forall i, j | i in s.rows && j in s.rows && SlotOf(s.rows[i]) == SlotOf(s.rows[j]) :: i == j
  }

  lemma StaysSingle(cfg: Config, s: State, e: Event, rings: set<Ring>)
    requires Invariant(cfg, s) && Enabled(cfg, s, e) && RotationSafe(rings) && UsesRings(s, rings) && OneReceiptEach(s)
    requires e.Begin? ==> e.ring in rings
    ensures UsesRings(Step(cfg, s, e), rings) && OneReceiptEach(Step(cfg, s, e))
  {
    if e.Commit? && s.txs[e.t].phase.Stored? {
      var s', tx := Step(cfg, s, e), s.txs[e.t];
      assert TxOk(s, e.t);
      forall id | id in s'.rows && id != tx.phase.id ensures SlotOf(s'.rows[id]) != SlotOf(tx.phase.receipt) {
        assert RowKnown(s, tx, id);
        MatchesIsSlotAndKey(tx.slot, tx.ring, s.rows[id]);
      }
    }
  }

  ghost predicate IsRotationRun(cfg: Config, run: seq<State>, rings: set<Ring>) {
    IsRun(cfg, run) && forall i, t | 0 <= i < |run| && t in run[i].txs :: run[i].txs[t].ring in rings
  }

  /** Over a rotation whose rings are pairwise compatible every slot has at most one receipt, so the
      receipt an equal request replays is the only one there is. */
  lemma {:induction false} RotationKeepsOneReceipt(cfg: Config, run: seq<State>, rings: set<Ring>, i: nat)
    requires RotationSafe(rings) && IsRotationRun(cfg, run, rings) && i < |run|
    ensures UsesRings(run[i], rings) && OneReceiptEach(run[i])
  {
    if i > 0 {
      RotationKeepsOneReceipt(cfg, run, rings, i - 1);
      RunKeeps(cfg, run, i - 1);
      assert Follows(cfg, run[i - 1], run[i - 1 + 1]);
      var e :| Enabled(cfg, run[i - 1], e) && run[i] == Step(cfg, run[i - 1], e);
      if e.Begin? { assert e.t in run[i].txs && run[i].txs[e.t].ring == e.ring; }
      StaysSingle(cfg, run[i - 1], e, rings);
    }
  }

  ghost predicate Reachable(cfg: Config, rings: set<Ring>, s: State) {
    exists run :: IsRotationRun(cfg, run, rings) && run[|run| - 1] == s
  }

  /** Which rings a run uses, and how many transactions of one group are open at a time. */
  datatype Bounds = Bounds(rings: set<Ring>, group: Group, open: nat)

  ghost predicate IsBoundedRun(cfg: Config, b: Bounds, run: seq<State>) {
    IsRotationRun(cfg, run, b.rings) && forall k | 0 <= k < |run| :: |Open(run[k], b.group)| <= b.open
  }

  ghost predicate ReachableWithin(cfg: Config, b: Bounds, s: State) {
    exists run :: IsBoundedRun(cfg, b, run) && run[|run| - 1] == s
  }

  lemma WithinIsReachable(cfg: Config, b: Bounds, s: State)
    requires ReachableWithin(cfg, b, s)
    ensures Reachable(cfg, b.rings, s)
  {
    var run :| IsBoundedRun(cfg, b, run) && run[|run| - 1] == s;
  }

  lemma ReachStart(cfg: Config, b: Bounds)
    ensures ReachableWithin(cfg, b, INITIAL)
  {
    assert Open(INITIAL, b.group) == {};
    assert IsBoundedRun(cfg, b, [INITIAL]);
  }

  lemma ReachStep(cfg: Config, b: Bounds, s: State, e: Event, s': State)
    requires ReachableWithin(cfg, b, s) && Enabled(cfg, s, e) && s' == Step(cfg, s, e)
    requires (e.Begin? ==> e.ring in b.rings) && |Open(s', b.group)| <= b.open
    ensures ReachableWithin(cfg, b, s')
  {
    var run :| IsBoundedRun(cfg, b, run) && run[|run| - 1] == s;
    var longer := run + [s'];
    assert Follows(cfg, s, s');
    forall i | 0 <= i < |longer| - 1 ensures Follows(cfg, longer[i], longer[i + 1]) {
      if i < |run| - 1 { assert Follows(cfg, run[i], run[i + 1]); }
    }
    forall t | t in s'.txs ensures s'.txs[t].ring in b.rings {
      if t in s.txs { assert run[|run| - 1].txs[t].ring in b.rings; }
    }
    assert IsBoundedRun(cfg, b, longer);
  }

  function Alone(s: State, tx: Tx): State { s.(txs := map[0 := tx]) }

  /** A step of the only open transaction. */
  lemma AloneStep(cfg: Config, b: Bounds, s: State, e: Event, s': State, tx: Tx)
    requires ReachableWithin(cfg, b, s) && Enabled(cfg, s, e) && Step(cfg, s, e) == Alone(s', tx)
    requires (e.Begin? ==> e.ring in b.rings) && b.open >= 1
    ensures ReachableWithin(cfg, b, Alone(s', tx))
  {
    SubsetSize(Open(Alone(s', tx), b.group), {0});
    ReachStep(cfg, b, s, e, Alone(s', tx));
  }

  /** A transaction with the table to itself gets as far as its sweep. */
  lemma AloneIsCleared(cfg: Config, b: Bounds, s: State, slot: Slot, ring: Ring, request: Text)
    requires ReachableWithin(cfg, b, s) && s.txs == map[] && ring in b.rings && b.open >= 1
    requires forall id | id in s.rows :: !Matches(slot, ring, s.rows[id])
    ensures ReachableWithin(cfg, b, Alone(s, Tx(slot, ring, request, s.now, Cleared, {})))
  {
    var tx := Tx(slot, ring, request, s.now, Begun, {});
    AloneStep(cfg, b, s, Begin(0, slot, ring, request), s, tx);
    AloneStep(cfg, b, Alone(s, tx), Lock(0), s, tx.(phase := Locked));
    assert Swept(s.rows, slot, ring, s.now) == {};
    AloneStep(cfg, b, Alone(s, tx.(phase := Locked)), Sweep(0), s, tx.(phase := Cleared));
  }

  /** And, below the cap, as far as being told "new". */
  lemma AloneIsAdmitted(cfg: Config, b: Bounds, s: State, slot: Slot, ring: Ring, request: Text)
    requires ReachableWithin(cfg, b, s) && s.txs == map[] && ring in b.rings && b.open >= 1
    requires forall id | id in s.rows :: !Matches(slot, ring, s.rows[id])
    requires |Counted(s.rows, GroupOf(slot), s.now)| < cfg.max
    ensures ReachableWithin(cfg, b, Alone(s, Tx(slot, ring, request, s.now, Decided(New), {})))
  {
    AloneIsCleared(cfg, b, s, slot, ring, request);
    var tx := Tx(slot, ring, request, s.now, Cleared, {});
    assert s.rows - {} == s.rows;
    assert Found(s.rows, slot, ring, s.now) == {};
    AloneStep(cfg, b, Alone(s, tx), Select(0, None), s, tx.(phase := Missed));
    AloneStep(cfg, b, Alone(s, tx.(phase := Missed)), Count(0), s, tx.(phase := Decided(New)));
  }

  function ReceiptOf(slot: Slot, ring: Ring, request: Text, response: Response, expires: nat): Receipt {
    Receipt(GroupOf(slot), Digest(ring.current, slot.key), request, response, expires)
  }

  /** The state once a receipt has been added. */
  function WithReceipt(s: State, id: nat, r: Receipt): State {
    s.(used := s.used + {id}, rows := s.rows[id := r])
  }

  lemma AloneIsRecorded(cfg: Config, b: Bounds, s: State, slot: Slot, ring: Ring, request: Text, response: Response,
                        id: nat)
    requires ReachableWithin(cfg, b, Alone(s, Tx(slot, ring, request, s.now, Decided(New), {})))
    requires s.txs == map[] && id !in s.used && b.open >= 1
    ensures ReachableWithin(cfg, b, WithReceipt(s, id, ReceiptOf(slot, ring, request, response, s.now + 1)))
  {
    var tx, r := Tx(slot, ring, request, s.now, Decided(New), {}), ReceiptOf(slot, ring, request, response, s.now + 1);
    var s1, last := s.(used := s.used + {id}), WithReceipt(s, id, r);
    AloneStep(cfg, b, Alone(s, tx), Complete(0, id, response, 1), s1, tx.(phase := Stored(id, r)));
    assert s1.rows - {} == s.rows;
    assert Open(last, b.group) == {};
    assert Step(cfg, Alone(s1, tx.(phase := Stored(id, r))), Commit(0)).txs == map[];
    ReachStep(cfg, b, Alone(s1, tx.(phase := Stored(id, r))), Commit(0), last);
  }

  /** A mutation with the table to itself is admitted and recorded. */
  lemma AloneGoesThrough(cfg: Config, b: Bounds, s: State, slot: Slot, ring: Ring, request: Text, response: Response,
                         id: nat)
    requires ReachableWithin(cfg, b, s) && s.txs == map[] && ring in b.rings && b.open >= 1 && id !in s.used
    requires forall id | id in s.rows :: !Matches(slot, ring, s.rows[id])
    requires |Counted(s.rows, GroupOf(slot), s.now)| < cfg.max
    ensures ReachableWithin(cfg, b, WithReceipt(s, id, ReceiptOf(slot, ring, request, response, s.now + 1)))
  {
    AloneIsAdmitted(cfg, b, s, slot, ring, request);
    AloneIsRecorded(cfg, b, s, slot, ring, request, response, id);
  }

  /** Whenever a receipt written under one ring is not found under another, one slot can be told
      "new" again: at the latest when the first receipt has expired, because the sweep misses it. */
  lemma IncompatibleRingsDouble(cfg: Config, rings: set<Ring>, a: Ring, b: Ring, slot: Slot, request: Text,
                                response: Response)
    requires cfg.max >= 1 && a in rings && b in rings && !Holds(b, a.current)
    ensures exists s :: Reachable(cfg, rings, s) && !OneReceiptEach(s)
  {
    var bounds, first := Bounds(rings, GroupOf(slot), 1), ReceiptOf(slot, a, request, response, 1);
    ReachStart(cfg, bounds);
    assert Counted(INITIAL.rows, GroupOf(slot), 0) == {};
    AloneGoesThrough(cfg, bounds, INITIAL, slot, a, request, response, 0);
    var s := WithReceipt(INITIAL, 0, first);
    var later := s.(now := 1);
    assert Open(later, GroupOf(slot)) == {};
    ReachStep(cfg, bounds, s, Tick(1), later);
    assert Counted(later.rows, GroupOf(slot), 1) == {};
    AloneGoesThrough(cfg, bounds, later, slot, b, request, response, 1);
    var s' := WithReceipt(later, 1, ReceiptOf(slot, b, request, response, 2));
    WithinIsReachable(cfg, bounds, s');
    assert 0 in s'.rows && 1 in s'.rows && SlotOf(s'.rows[0]) == SlotOf(s'.rows[1]);
  }

  /** A cap of zero admits nothing. */
  lemma {:induction false} NothingUnderNoCap(cfg: Config, run: seq<State>, i: nat)
    requires IsRun(cfg, run) && i < |run| && cfg.max == 0
    ensures run[i].rows == map[] && forall t | t in run[i].txs :: !Admitted(run[i].txs[t].phase)
  {
    if i > 0 {
      NothingUnderNoCap(cfg, run, i - 1);
      assert Follows(cfg, run[i - 1], run[i - 1 + 1]);
      var e :| Enabled(cfg, run[i - 1], e) && run[i] == Step(cfg, run[i - 1], e);
    }
  }

  /** A rotation keeps one receipt per slot in every interleaving exactly when its rings are pairwise
      compatible, or nothing is ever admitted. */
  lemma RotationExact(cfg: Config, rings: set<Ring>)
    ensures RotationSafe(rings) || cfg.max == 0 <==> forall s | Reachable(cfg, rings, s) :: OneReceiptEach(s)
  {
    if cfg.max == 0 {
      forall s | Reachable(cfg, rings, s) ensures OneReceiptEach(s) {
        var run :| IsRotationRun(cfg, run, rings) && run[|run| - 1] == s;
        NothingUnderNoCap(cfg, run, |run| - 1);
      }
    } else if RotationSafe(rings) {
      forall s | Reachable(cfg, rings, s) ensures OneReceiptEach(s) {
        var run :| IsRotationRun(cfg, run, rings) && run[|run| - 1] == s;
        RotationKeepsOneReceipt(cfg, run, rings, |run| - 1);
      }
    } else {
      var a, b :| a in rings && b in rings && !Compatible(a, b);
      var slot, response := Slot("", "", "", ""), Response(201, "", None);
      if !Holds(b, a.current) {
        IncompatibleRingsDouble(cfg, rings, a, b, slot, [], response);
      } else {
        IncompatibleRingsDouble(cfg, rings, b, a, slot, [], response);
      }
    }
  }

  /** Live committed receipts of a group, its open transactions, and those told "new". */
  function Live(s: State, g: Group): set<nat> { Counted(s.rows, g, s.now) }

  function Open(s: State, g: Group): set<nat> { set t | t in s.txs && GroupOf(s.txs[t].slot) == g }

  /** The open transactions of a group that hold their lock. */
  function Inside(s: State, g: Group): set<nat> { set t | t in Open(s, g) && HoldsLock(s, t) }

  function AdmittedIn(s: State, g: Group): set<nat> { set t | t in Open(s, g) && Admitted(s.txs[t].phase) }

  /** Being told "new" leaves room for the receipts of the other open transactions only. */
  lemma AdmissionBound(cfg: Config, s: State, t: nat, g: Group)
    requires Invariant(cfg, s) && In(s, t, Missed) && GroupOf(s.txs[t].slot) == g
    requires Step(cfg, s, Count(t)).txs[t].phase == Decided(New)
    ensures |Live(s, g)| < cfg.max
  {
    var tx := s.txs[t];
    assert TxOk(s, t);
    forall id | id in Live(s, g) ensures id in Counted(Sees(s, t), g, tx.start) { assert RowKnown(s, tx, id); }
    SubsetSize(Live(s, g), Counted(Sees(s, t), g, tx.start));
  }

  /** Live receipts plus admitted transactions: a commit turns one into the other. */
  lemma SumKept(cfg: Config, s: State, e: Event, g: Group, c: nat)
    requires Invariant(cfg, s) && Enabled(cfg, s, e) && c >= 1
    requires |Inside(Step(cfg, s, e), g)| <= c
    requires |Live(s, g)| + |AdmittedIn(s, g)| <= cfg.max + c - 1
    ensures var s' := Step(cfg, s, e); |Live(s', g)| + |AdmittedIn(s', g)| <= cfg.max + c - 1
  {
    var s' := Step(cfg, s, e);
    if e.Count? && s'.txs[e.t].phase == Decided(New) && GroupOf(s.txs[e.t].slot) == g {
      AdmissionBound(cfg, s, e.t, g);
      assert Live(s', g) == Live(s, g);
      SubsetSize(AdmittedIn(s', g), Inside(s', g));
    } else if e.Commit? && s.txs[e.t].phase.Stored? && GroupOf(s.txs[e.t].slot) == g {
      assert AdmittedIn(s', g) == AdmittedIn(s, g) - {e.t};
      SubsetSize(Live(s', g), Live(s, g) + {s.txs[e.t].phase.id});
    } else {
      NothingAdded(cfg, s, e, g);
      SubsetSize(Live(s', g), Live(s, g));
      SubsetSize(AdmittedIn(s', g), AdmittedIn(s, g));
    }
  }

  lemma NothingAdded(cfg: Config, s: State, e: Event, g: Group)
    requires Invariant(cfg, s) && Enabled(cfg, s, e)
    requires !(e.Count? && Step(cfg, s, e).txs[e.t].phase == Decided(New) && GroupOf(s.txs[e.t].slot) == g)
    requires !(e.Commit? && s.txs[e.t].phase.Stored? && GroupOf(s.txs[e.t].slot) == g)
    ensures Live(Step(cfg, s, e), g) <= Live(s, g)
    ensures AdmittedIn(Step(cfg, s, e), g) <= AdmittedIn(s, g)
  {
    if e.Commit? { assert TxOk(s, e.t); }
  }

  /** With at most c transactions of a group past their locks at a time, its live receipts never
      exceed the cap by more than c - 1. */
  lemma {:induction false} CapHolds(cfg: Config, run: seq<State>, i: nat, g: Group, c: nat)
    requires IsRun(cfg, run) && i < |run| && c >= 1
    requires forall k | 0 <= k < |run| :: |Inside(run[k], g)| <= c
    ensures |Live(run[i], g)| + |AdmittedIn(run[i], g)| <= cfg.max + c - 1
  {
    if i > 0 {
      CapHolds(cfg, run, i - 1, g, c);
      RunKeeps(cfg, run, i - 1);
      assert Follows(cfg, run[i - 1], run[i - 1 + 1]);
      var e :| Enabled(cfg, run[i - 1], e) && run[i] == Step(cfg, run[i - 1], e);
      SumKept(cfg, run[i - 1], e, g, c);
    } else {
      assert Live(run[0], g) == {} && AdmittedIn(run[0], g) == {};
    }
  }
}
