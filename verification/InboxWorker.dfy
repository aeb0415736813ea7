/**
 * The sync inbox worker: claim a row under a lease, apply it in a business transaction that also reserves
 * an idempotency receipt, acknowledge in a third transaction.
 *
 * Every transaction is one step. Steps of any number of workers interleave; a worker may crash between
 * any two; every `now` is arbitrary, so the clocks of the workers need not agree.
 */
module InboxWorker {
  import opened Options

  datatype Envelope = Envelope(ownerId: string, nodeId: string, clientEventId: string, eventType: string, content: int)

  datatype Identity = Identity(ownerId: string, nodeId: string, clientEventId: string, eventType: string)

  function IdentityOf(e: Envelope): Identity {
    Identity(e.ownerId, e.nodeId, e.clientEventId, e.eventType)
  }

  predicate SameEvent(a: Envelope, b: Envelope) {
    a.ownerId == b.ownerId && a.nodeId == b.nodeId && a.clientEventId == b.clientEventId
  }

  datatype Status = Accepted | Processing | Retry | Applied | Dead

  datatype Row = Row(
    envelope: Envelope,
    status: Status,
    attempts: nat,
    receivedAt: int,
    lockedBy: Option<nat>,
    lockedAt: Option<int>,
    nextAttemptAt: Option<int>)
  {
    predicate Terminal() { status.Applied? || status.Dead? }
  }

  datatype Claim = Claim(rowId: nat, envelope: Envelope, attempts: nat, key: string)

  /** Where a worker process is between its transactions. */
  datatype Worker = Idle | Claimed(claim: Claim) | Committed(claim: Claim) | Failed(claim: Claim, permanent: bool)

  datatype Effect = Effect(key: string, rowId: nat, envelope: Envelope)

  /** A row of the receipts table; `effectNo` counts the receipts before it. */
  datatype Receipt = Receipt(identity: Identity, effectNo: nat)

  datatype Settings<!B> = Settings(
    registered: set<string>,            // event types with a handler
    handler: (B, Envelope) -> B,        // what a successful handler does to the business tables
    leaseSeconds: int,
    maxAttempts: nat,
    keyOf: Envelope -> string)          // the idempotency key; nothing below needs it to be injective

  datatype State<B> = State(
    rows: map<nat, Row>,
    receipts: map<string, Receipt>,
    business: B,
    effects: seq<Effect>,               // the handler effects committed so far, oldest first
    workers: map<nat, Worker>)

  datatype Event =
    | Accept(id: nat, envelope: Envelope, receivedAt: int)
    | ClaimRow(w: nat, id: nat, now: int)
    | Commit(w: nat)
    | CommitUnseen(w: nat)              // the commit happens but the worker sees an exception
    | Abort(w: nat, permanent: bool)
    | Ack(w: nat)
    | MarkFailed(w: nat, now: int)
    | Crash(w: nat)

  function WorkerOf<B>(s: State<B>, w: nat): Worker {
    if w in s.workers then s.workers[w] else Idle
  }

  function OrElse(t: Option<int>, other: int): int {
    if t.Some? then t.value else other
  }

  /** The rows a claim may return. Which of them it returns depends on the locks other workers hold. */
  predicate Claimable<B>(cfg: Settings<B>, row: Row, now: int) {
    && row.envelope.eventType in cfg.registered
    && match row.status
       case Accepted => true
       case Retry => OrElse(row.nextAttemptAt, row.receivedAt) <= now
       case Processing => OrElse(row.lockedAt, row.receivedAt) <= now - cfg.leaseSeconds
       case _ => false
  }

  predicate ReceiptFits<B>(cfg: Settings<B>, receipts: map<string, Receipt>, e: Envelope) {
    cfg.keyOf(e) in receipts ==> receipts[cfg.keyOf(e)].identity == IdentityOf(e)
  }

  predicate HoldsLease(rows: map<nat, Row>, w: nat, c: Claim) {
    c.rowId in rows && rows[c.rowId].status.Processing? && rows[c.rowId].lockedBy == Some(w)
  }

  function ClaimedRow(row: Row, w: nat, now: int): Row {
    row.(status := Processing, attempts := row.attempts + 1,
         lockedBy := Some(w), lockedAt := Some(now), nextAttemptAt := None)
  }

  function AppliedRow(row: Row): Row {
    row.(status := Applied, lockedBy := None, lockedAt := None, nextAttemptAt := None)
  }

  function Min(a: int, b: int): int { if a < b then a else b }

  function Doubled(k: nat): nat { if k == 0 then 1 else 2 * Doubled(k - 1) }

  function FailedRow<B>(cfg: Settings<B>, row: Row, c: Claim, permanent: bool, now: int): Row {
    var limit := if permanent then c.attempts else cfg.maxAttempts;
    var delay := Min(Doubled(if c.attempts >= 1 then c.attempts - 1 else 0), 300);
    if c.attempts >= limit then row.(status := Dead, nextAttemptAt := None, lockedBy := None, lockedAt := None)
    else row.(status := Retry, nextAttemptAt := Some(now + delay), lockedBy := None, lockedAt := None)
  }

  /** `reserve` and the handler in one transaction: a known key commits nothing new. */
  function Committing<B>(cfg: Settings<B>, s: State<B>, c: Claim): State<B> {
    if c.key in s.receipts then s
    else s.(receipts := s.receipts[c.key := Receipt(IdentityOf(c.envelope), |s.effects|)],
            business := cfg.handler(s.business, c.envelope),
            effects := s.effects + [Effect(c.key, c.rowId, c.envelope)])
  }

  function Step<B>(cfg: Settings<B>, s: State<B>, e: Event): State<B> {
    match e
    case Accept(id, envelope, receivedAt) =>
      if id in s.rows || exists k | k in s.rows :: SameEvent(s.rows[k].envelope, envelope) then s
      else s.(rows := s.rows[id := Row(envelope, Accepted, 0, receivedAt, None, None, None)])
    case ClaimRow(w, id, now) =>
      if WorkerOf(s, w).Idle? && id in s.rows && Claimable(cfg, s.rows[id], now) then
        var row := ClaimedRow(s.rows[id], w, now);
        s.(rows := s.rows[id := row],
           workers := s.workers[w := Claimed(Claim(id, row.envelope, row.attempts, cfg.keyOf(row.envelope)))])
      else s
    case Commit(w) =>
      if WorkerOf(s, w).Claimed? && ReceiptFits(cfg, s.receipts, s.workers[w].claim.envelope) then
        Committing(cfg, s, s.workers[w].claim).(workers := s.workers[w := Committed(s.workers[w].claim)])
      else s
    case CommitUnseen(w) =>
      if WorkerOf(s, w).Claimed? && ReceiptFits(cfg, s.receipts, s.workers[w].claim.envelope) then
        Committing(cfg, s, s.workers[w].claim).(workers := s.workers[w := Failed(s.workers[w].claim, false)])
      else s
    case Abort(w, permanent) =>
      if WorkerOf(s, w).Claimed? then s.(workers := s.workers[w := Failed(s.workers[w].claim, permanent)]) else s
    case Ack(w) =>
      if WorkerOf(s, w).Committed? then
        var c := s.workers[w].claim;
        s.(rows := if HoldsLease(s.rows, w, c) then s.rows[c.rowId := AppliedRow(s.rows[c.rowId])] else s.rows,
           workers := s.workers[w := Idle])
      else s
    case MarkFailed(w, now) =>
      if WorkerOf(s, w).Failed? then
        var c := s.workers[w].claim;
        s.(rows := if HoldsLease(s.rows, w, c)
                   then s.rows[c.rowId := FailedRow(cfg, s.rows[c.rowId], c, s.workers[w].permanent, now)] else s.rows,
           workers := s.workers[w := Idle])
      else s
    case Crash(w) => s.(workers := s.workers[w := Idle])
  }

  function Run<B>(cfg: Settings<B>, s: State<B>, events: seq<Event>): State<B>
    decreases |events|
  {
    if events == [] then s else Run(cfg, Step(cfg, s, events[0]), events[1..])
  }

  function Start<B>(business: B): State<B> { State(map[], map[], business, [], map[]) }

  /** The business tables after applying each logged effect once, in commit order. */
  function Replay<B>(cfg: Settings<B>, initial: B, effects: seq<Effect>): B
    decreases |effects|
  {
    if effects == [] then initial
    else cfg.handler(Replay(cfg, initial, effects[..|effects| - 1]), effects[|effects| - 1].envelope)
  }

  // ---------- What every step keeps ----------

  ghost predicate KeysDistinct(effects: seq<Effect>) {
    forall i, j :: 0 <= i < j < |effects| ==> effects[i].key != effects[j].key
  }

  ghost predicate RowsDistinct(rows: map<nat, Row>) {
    forall a, b :: a in rows && b in rows && SameEvent(rows[a].envelope, rows[b].envelope) ==> a == b
  }

  ghost predicate EffectOk<B>(cfg: Settings<B>, s: State<B>, i: nat)
    requires i < |s.effects|
  {
    var f := s.effects[i];
    && f.key == cfg.keyOf(f.envelope) && f.key in s.receipts
    && s.receipts[f.key] == Receipt(IdentityOf(f.envelope), i)
    && f.rowId in s.rows && s.rows[f.rowId].envelope == f.envelope
  }

  /** Receipts and logged effects correspond one to one; a receipt names the event whose effect it was. */
  ghost predicate ReceiptsMatchEffects<B>(cfg: Settings<B>, s: State<B>) {
    && (forall i :: 0 <= i < |s.effects| ==> EffectOk(cfg, s, i))
    && (forall k ::
          k in s.receipts ==> s.receipts[k].effectNo < |s.effects| && s.effects[s.receipts[k].effectNo].key == k)
  }

  predicate Receipted<B>(cfg: Settings<B>, s: State<B>, e: Envelope) {
    cfg.keyOf(e) in s.receipts && s.receipts[cfg.keyOf(e)].identity == IdentityOf(e)
  }

  ghost predicate ClaimOk<B>(cfg: Settings<B>, s: State<B>, c: Claim) {
    c.rowId in s.rows && s.rows[c.rowId].envelope == c.envelope && c.key == cfg.keyOf(c.envelope)
  }

  ghost predicate WorkersOk<B>(cfg: Settings<B>, s: State<B>) {
    forall w :: w in s.workers ==>
      && (!s.workers[w].Idle? ==> ClaimOk(cfg, s, s.workers[w].claim))
      && (s.workers[w].Committed? ==> Receipted(cfg, s, s.workers[w].claim.envelope))
  }

  ghost predicate Inv<B>(cfg: Settings<B>, initial: B, s: State<B>) {
    && s.business == Replay(cfg, initial, s.effects)
    && RowsDistinct(s.rows)
    && ReceiptsMatchEffects(cfg, s)
    && (forall id :: id in s.rows && s.rows[id].status.Applied? ==> Receipted(cfg, s, s.rows[id].envelope))
    && WorkersOk(cfg, s)
  }

  /** Rows keep their envelope; none disappears; a finished row stays as it is. */
  ghost predicate RowsKept(before: map<nat, Row>, after: map<nat, Row>) {
    forall id :: id in before ==> id in after && after[id].envelope == before[id].envelope
                                  && (before[id].Terminal() ==> after[id] == before[id])
  }

  lemma StepKeepsRows<B>(cfg: Settings<B>, s: State<B>, e: Event)
    ensures RowsKept(s.rows, Step(cfg, s, e).rows)
    ensures forall k ::
              k in s.receipts ==> k in Step(cfg, s, e).receipts && Step(cfg, s, e).receipts[k] == s.receipts[k]
  {
  }

  lemma CommittingKeepsReceipts<B>(cfg: Settings<B>, s: State<B>, c: Claim)
    requires ReceiptsMatchEffects(cfg, s) && ClaimOk(cfg, s, c) && c.key !in s.receipts
    ensures ReceiptsMatchEffects(cfg, Committing(cfg, s, c))
  {
    var t := Committing(cfg, s, c);
    forall i | 0 <= i < |t.effects|
      ensures EffectOk(cfg, t, i)
    {
      if i < |s.effects| {
        assert EffectOk(cfg, s, i);
      }
    }
  }

  lemma CommittingReplays<B>(cfg: Settings<B>, initial: B, s: State<B>, c: Claim)
    requires s.business == Replay(cfg, initial, s.effects) && c.key !in s.receipts
    ensures Committing(cfg, s, c).business == Replay(cfg, initial, Committing(cfg, s, c).effects)
  {
    var t := Committing(cfg, s, c);
    assert t.effects[..|t.effects| - 1] == s.effects;
  }

  lemma CommittingKeepsInv<B>(cfg: Settings<B>, initial: B, s: State<B>, w: nat, next: Worker)
    requires Inv(cfg, initial, s)
    requires WorkerOf(s, w).Claimed? && ReceiptFits(cfg, s.receipts, s.workers[w].claim.envelope)
    requires next == Committed(s.workers[w].claim) || next == Failed(s.workers[w].claim, false)
    ensures Inv(cfg, initial, Committing(cfg, s, s.workers[w].claim).(workers := s.workers[w := next]))
  {
    var c := s.workers[w].claim;
    var t := Committing(cfg, s, c);
    if c.key !in s.receipts {
      CommittingKeepsReceipts(cfg, s, c);
      CommittingReplays(cfg, initial, s, c);
    }
    assert Receipted(cfg, t, c.envelope);
    WorkerMoveKeepsInv(cfg, initial, t, w, next);
  }

  lemma WorkerMoveKeepsInv<B>(cfg: Settings<B>, initial: B, s: State<B>, w: nat, next: Worker)
    requires Inv(cfg, initial, s)
    requires next.Idle? || (ClaimOk(cfg, s, next.claim) && (next.Committed? ==> Receipted(cfg, s, next.claim.envelope)))
    ensures Inv(cfg, initial, s.(workers := s.workers[w := next]))
  {
    var t := s.(workers := s.workers[w := next]);
    forall i | 0 <= i < |t.effects|
      ensures EffectOk(cfg, t, i)
    {
      assert EffectOk(cfg, s, i);
    }
  }

  lemma RowUpdateKeepsInv<B>(cfg: Settings<B>, initial: B, s: State<B>, t: State<B>)
    requires Inv(cfg, initial, s)
    requires t.receipts == s.receipts && t.business == s.business && t.effects == s.effects
    requires RowsKept(s.rows, t.rows) && RowsDistinct(t.rows) && WorkersOk(cfg, t)
    requires forall id :: id in t.rows && t.rows[id].status.Applied? ==> Receipted(cfg, t, t.rows[id].envelope)
    ensures Inv(cfg, initial, t)
  {
    forall i | 0 <= i < |t.effects|
      ensures EffectOk(cfg, t, i)
    {
      assert EffectOk(cfg, s, i);
    }
  }

  /** A row that changes anything but its envelope, unfinished before, keeps the invariant. */
  lemma RowChangeKeepsInv<B>(cfg: Settings<B>, initial: B, s: State<B>, id: nat, row: Row)
    requires Inv(cfg, initial, s) && id in s.rows
    requires row.envelope == s.rows[id].envelope && !s.rows[id].Terminal()
    requires row.status.Applied? ==> Receipted(cfg, s, row.envelope)
    ensures Inv(cfg, initial, s.(rows := s.rows[id := row]))
  {
    var t := s.(rows := s.rows[id := row]);
    assert forall k :: k in t.rows <==> k in s.rows;
    assert forall k :: k in t.rows ==> t.rows[k].envelope == s.rows[k].envelope;
    RowUpdateKeepsInv(cfg, initial, s, t);
  }

  lemma AcceptKeepsInv<B>(cfg: Settings<B>, initial: B, s: State<B>, id: nat, e: Envelope, receivedAt: int)
    requires Inv(cfg, initial, s)
    ensures Inv(cfg, initial, Step(cfg, s, Accept(id, e, receivedAt)))
  {
    var t := Step(cfg, s, Accept(id, e, receivedAt));
    if t != s {
      assert forall k :: k in s.rows ==> k != id && !SameEvent(s.rows[k].envelope, e) && t.rows[k] == s.rows[k];
      RowUpdateKeepsInv(cfg, initial, s, t);
    }
  }

  lemma FinishKeepsInv<B>(cfg: Settings<B>, initial: B, s: State<B>, w: nat, e: Event)
    requires Inv(cfg, initial, s)
    requires e == Ack(w) || (e.MarkFailed? && e.w == w)
    ensures Inv(cfg, initial, Step(cfg, s, e))
  {
    if WorkerOf(s, w).Committed? || WorkerOf(s, w).Failed? {
      var c := s.workers[w].claim;
      assert ClaimOk(cfg, s, c);
      var rows := Step(cfg, s, e).rows;
      if rows != s.rows {
        RowChangeKeepsInv(cfg, initial, s, c.rowId, rows[c.rowId]);
      }
      WorkerMoveKeepsInv(cfg, initial, s.(rows := rows), w, Idle);
    }
  }

  lemma ClaimKeepsInv<B>(cfg: Settings<B>, initial: B, s: State<B>, w: nat, id: nat, now: int)
    requires Inv(cfg, initial, s)
    requires WorkerOf(s, w).Idle? && id in s.rows && Claimable(cfg, s.rows[id], now)
    ensures Inv(cfg, initial, Step(cfg, s, ClaimRow(w, id, now)))
  {
    var row := ClaimedRow(s.rows[id], w, now);
    RowChangeKeepsInv(cfg, initial, s, id, row);
    WorkerMoveKeepsInv(cfg, initial, s.(rows := s.rows[id := row]), w,
                       Claimed(Claim(id, row.envelope, row.attempts, cfg.keyOf(row.envelope))));
  }

  lemma StepKeepsInv<B>(cfg: Settings<B>, initial: B, s: State<B>, e: Event)
    requires Inv(cfg, initial, s)
    ensures Inv(cfg, initial, Step(cfg, s, e))
  {
    match e
    case Accept(id, envelope, receivedAt) => AcceptKeepsInv(cfg, initial, s, id, envelope, receivedAt);
    case ClaimRow(w, id, now) =>
      if WorkerOf(s, w).Idle? && id in s.rows && Claimable(cfg, s.rows[id], now) {
        ClaimKeepsInv(cfg, initial, s, w, id, now);
      }
    case Commit(w) =>
      if WorkerOf(s, w).Claimed? && ReceiptFits(cfg, s.receipts, s.workers[w].claim.envelope) {
        CommittingKeepsInv(cfg, initial, s, w, Committed(s.workers[w].claim));
      }
    case CommitUnseen(w) =>
      if WorkerOf(s, w).Claimed? && ReceiptFits(cfg, s.receipts, s.workers[w].claim.envelope) {
        CommittingKeepsInv(cfg, initial, s, w, Failed(s.workers[w].claim, false));
      }
    case Abort(w, permanent) =>
      if WorkerOf(s, w).Claimed? {
        WorkerMoveKeepsInv(cfg, initial, s, w, Failed(s.workers[w].claim, permanent));
      }
    case Ack(w) => FinishKeepsInv(cfg, initial, s, w, e);
    case MarkFailed(w, _) => FinishKeepsInv(cfg, initial, s, w, e);
    case Crash(w) => WorkerMoveKeepsInv(cfg, initial, s, w, Idle);
  }

  lemma {:induction false} RunKeepsInv<B>(cfg: Settings<B>, initial: B, s: State<B>, events: seq<Event>)
    requires Inv(cfg, initial, s)
    ensures Inv(cfg, initial, Run(cfg, s, events))
    decreases |events|
  {
    if events != [] {
      StepKeepsInv(cfg, initial, s, events[0]);
      RunKeepsInv(cfg, initial, Step(cfg, s, events[0]), events[1..]);
    }
  }

  // ---------- What holds after every run ----------

  /** No key's effect commits twice, and the business tables are each effect applied once in commit order. */
  lemma EffectsOnceInOrder<B>(cfg: Settings<B>, initial: B, events: seq<Event>)
    ensures var t := Run(cfg, Start(initial), events);
            KeysDistinct(t.effects) && t.business == Replay(cfg, initial, t.effects)
  {
    RunKeepsInv(cfg, initial, Start(initial), events);
    var t := Run(cfg, Start(initial), events);
    forall i, j | 0 <= i < j < |t.effects|
      ensures t.effects[i].key != t.effects[j].key
    {
      assert EffectOk(cfg, t, i) && EffectOk(cfg, t, j);
    }
  }

  ghost predicate EffectOf<B>(s: State<B>, e: Envelope, i: int) {
    0 <= i < |s.effects| && s.effects[i].envelope == e
  }

  /** A row marked applied has exactly one committed effect, and it is the effect of that very row. */
  lemma AppliedRowHasItsOneEffect<B>(cfg: Settings<B>, initial: B, events: seq<Event>, id: nat)
    requires id in Run(cfg, Start(initial), events).rows
    requires Run(cfg, Start(initial), events).rows[id].status.Applied?
    ensures var t := Run(cfg, Start(initial), events);
            && (exists i :: EffectOf(t, t.rows[id].envelope, i))
            && (forall i, j :: EffectOf(t, t.rows[id].envelope, i) && EffectOf(t, t.rows[id].envelope, j) ==> i == j)
  {
    RunKeepsInv(cfg, initial, Start(initial), events);
    var t := Run(cfg, Start(initial), events);
    var e := t.rows[id].envelope;
    assert Receipted(cfg, t, e);
    var i := t.receipts[cfg.keyOf(e)].effectNo;
    assert EffectOk(cfg, t, i);
    assert t.effects[i].rowId == id;
    assert EffectOf(t, e, i);
    forall k | EffectOf(t, e, k) ensures k == i {
      assert EffectOk(cfg, t, k);
    }
  }

  lemma {:induction false} RunKeepsRows<B>(cfg: Settings<B>, s: State<B>, events: seq<Event>)
    ensures RowsKept(s.rows, Run(cfg, s, events).rows)
    ensures forall k ::
              k in s.receipts ==> k in Run(cfg, s, events).receipts && Run(cfg, s, events).receipts[k] == s.receipts[k]
    decreases |events|
  {
    if events != [] {
      StepKeepsRows(cfg, s, events[0]);
      RunKeepsRows(cfg, Step(cfg, s, events[0]), events[1..]);
    }
  }

  lemma {:induction false} RunAppend<B>(cfg: Settings<B>, s: State<B>, a: seq<Event>, b: seq<Event>)
    ensures Run(cfg, s, a + b) == Run(cfg, Run(cfg, s, a), b)
    decreases |a|
  {
    if a == [] {
      assert a + b == b;
    } else {
      assert (a + b)[1..] == a[1..] + b;
      RunAppend(cfg, Step(cfg, s, a[0]), a[1..], b);
    }
  }

  /** Some time is late enough for any row that is not finished. */
  function LateEnough<B>(cfg: Settings<B>, row: Row): int {
    match row.status
    case Retry => OrElse(row.nextAttemptAt, row.receivedAt)
    case Processing => OrElse(row.lockedAt, row.receivedAt) + cfg.leaseSeconds
    case _ => 0
  }

  /**
   * Nothing is lost and nothing is stuck for good: whatever happened before, an unfinished row of a
   * registered type can still be applied, by any idle worker, exactly when the receipt of its key is
   * free or its own. A foreign receipt blocks it in every continuation.
   */
  lemma CanBeAppliedIff<B>(cfg: Settings<B>, initial: B, before: seq<Event>, id: nat, w: nat)
    requires var s := Run(cfg, Start(initial), before);
             id in s.rows && !s.rows[id].Terminal() && s.rows[id].envelope.eventType in cfg.registered
                 && WorkerOf(s, w).Idle?
    ensures var s := Run(cfg, Start(initial), before);
            ReceiptFits(cfg, s.receipts, s.rows[id].envelope) <==>
            exists after: seq<Event> :: AppliedAfter(cfg, s, after, id)
  {
    var s := Run(cfg, Start(initial), before);
    RunKeepsInv(cfg, initial, Start(initial), before);
    if ReceiptFits(cfg, s.receipts, s.rows[id].envelope) {
      FinishingApplies(cfg, s, id, w);
    }
    forall after: seq<Event> | AppliedAfter(cfg, s, after, id)
      ensures ReceiptFits(cfg, s.receipts, s.rows[id].envelope)
    {
      RunKeepsRows(cfg, s, after);
      RunKeepsInv(cfg, initial, s, after);
      assert Receipted(cfg, Run(cfg, s, after), s.rows[id].envelope);
    }
  }

  ghost predicate AppliedAfter<B>(cfg: Settings<B>, s: State<B>, events: seq<Event>, id: nat) {
    id in Run(cfg, s, events).rows && Run(cfg, s, events).rows[id].status.Applied?
  }

  lemma FinishingApplies<B>(cfg: Settings<B>, s: State<B>, id: nat, w: nat)
    requires id in s.rows && !s.rows[id].Terminal() && s.rows[id].envelope.eventType in cfg.registered
             && WorkerOf(s, w).Idle?
    requires ReceiptFits(cfg, s.receipts, s.rows[id].envelope)
    ensures AppliedAfter(cfg, s, [ClaimRow(w, id, LateEnough(cfg, s.rows[id])), Commit(w), Ack(w)], id)
  {
    var now := LateEnough(cfg, s.rows[id]);
    var s1 := Step(cfg, s, ClaimRow(w, id, now));
    var s2 := Step(cfg, s1, Commit(w));
    var s3 := Step(cfg, s2, Ack(w));
    RunThree(cfg, s, ClaimRow(w, id, now), Commit(w), Ack(w));
  }

  lemma RunOne<B>(cfg: Settings<B>, s: State<B>, e: Event, rest: seq<Event>)
    ensures Run(cfg, s, [e] + rest) == Run(cfg, Step(cfg, s, e), rest)
  {
    assert ([e] + rest)[1..] == rest;
  }

  lemma RunThree<B>(cfg: Settings<B>, s: State<B>, a: Event, b: Event, c: Event)
    ensures Run(cfg, s, [a, b, c]) == Step(cfg, Step(cfg, Step(cfg, s, a), b), c)
  {
    assert [a, b, c] == [a] + ([b] + ([c] + []));
    RunOne(cfg, s, a, [b] + ([c] + []));
    RunOne(cfg, Step(cfg, s, a), b, [c] + []);
    RunOne(cfg, Step(cfg, Step(cfg, s, a), b), c, []);
  }

  // ---------- A dead row may have its effect ----------

  predicate DeadWithReceipt<B>(cfg: Settings<B>, s: State<B>, id: nat) {
    id in s.rows && s.rows[id].status.Dead? && Receipted(cfg, s, s.rows[id].envelope)
  }

  /** A failure is recorded that finishes off row `id` although its effect has committed. */
  predicate KillsCommitted<B>(cfg: Settings<B>, s: State<B>, e: Event, id: nat) {
    e.MarkFailed? && WorkerOf(s, e.w).Failed? &&
    var c := s.workers[e.w].claim;
    c.rowId == id && HoldsLease(s.rows, e.w, c) && Receipted(cfg, s, c.envelope)
    && FailedRow(cfg, s.rows[id], c, s.workers[e.w].permanent, e.now).status.Dead?
  }

  /** A worker whose claim on row `id` has been overtaken commits after the row was given up. */
  predicate CommitsDead<B>(cfg: Settings<B>, s: State<B>, e: Event, id: nat) {
    (e.Commit? || e.CommitUnseen?) && WorkerOf(s, e.w).Claimed? &&
    var c := s.workers[e.w].claim;
    c.rowId == id && c.key !in s.receipts && id in s.rows && s.rows[id].status.Dead?
  }

  lemma CommitMakesDeadIff<B>(cfg: Settings<B>, initial: B, s: State<B>, e: Event, id: nat)
    requires Inv(cfg, initial, s) && !DeadWithReceipt(cfg, s, id) && (e.Commit? || e.CommitUnseen?)
    ensures DeadWithReceipt(cfg, Step(cfg, s, e), id) <==> CommitsDead(cfg, s, e, id)
  {
    if WorkerOf(s, e.w).Claimed? {
      assert ClaimOk(cfg, s, s.workers[e.w].claim);
      if id in s.rows && IdentityOf(s.rows[id].envelope) == IdentityOf(s.workers[e.w].claim.envelope) {
        assert SameEvent(s.rows[id].envelope, s.rows[s.workers[e.w].claim.rowId].envelope);
      }
    }
  }

  lemma FailureMakesDeadIff<B>(cfg: Settings<B>, initial: B, s: State<B>, e: Event, id: nat)
    requires Inv(cfg, initial, s) && !DeadWithReceipt(cfg, s, id) && !e.Commit? && !e.CommitUnseen?
    ensures DeadWithReceipt(cfg, Step(cfg, s, e), id) <==> KillsCommitted(cfg, s, e, id)
  {
    if e.MarkFailed? && WorkerOf(s, e.w).Failed? {
      assert ClaimOk(cfg, s, s.workers[e.w].claim);
    }
  }

  /** Some step of the run is one of the two. */
  predicate EverDeadAndCommitted<B>(cfg: Settings<B>, s: State<B>, events: seq<Event>, id: nat)
    decreases |events|
  {
    events != [] &&
    (KillsCommitted(cfg, s, events[0], id) || CommitsDead(cfg, s, events[0], id)
     || EverDeadAndCommitted(cfg, Step(cfg, s, events[0]), events[1..], id))
  }

  lemma {:induction false} DeadWithReceiptIff<B>(cfg: Settings<B>, initial: B, s: State<B>, events: seq<Event>, id: nat)
    requires Inv(cfg, initial, s) && !DeadWithReceipt(cfg, s, id)
    ensures DeadWithReceipt(cfg, Run(cfg, s, events), id) <==> EverDeadAndCommitted(cfg, s, events, id)
    decreases |events|
  {
    if events != [] {
      var t := Step(cfg, s, events[0]);
      StepKeepsInv(cfg, initial, s, events[0]);
      if events[0].Commit? || events[0].CommitUnseen? {
        CommitMakesDeadIff(cfg, initial, s, events[0], id);
      } else {
        FailureMakesDeadIff(cfg, initial, s, events[0], id);
      }
      if DeadWithReceipt(cfg, t, id) {
        RunKeepsRows(cfg, t, events[1..]);
      } else {
        DeadWithReceiptIff(cfg, initial, t, events[1..], id);
      }
    }
  }

  lemma ReceiptedIffEffect<B>(cfg: Settings<B>, initial: B, s: State<B>, id: nat)
    requires Inv(cfg, initial, s) && id in s.rows
    ensures Receipted(cfg, s, s.rows[id].envelope) <==> exists i :: EffectOf(s, s.rows[id].envelope, i)
  {
    var e := s.rows[id].envelope;
    if Receipted(cfg, s, e) {
      var i := s.receipts[cfg.keyOf(e)].effectNo;
      assert EffectOk(cfg, s, i) && s.effects[i].rowId == id;
      assert EffectOf(s, e, i);
    }
    forall i | EffectOf(s, e, i) ensures Receipted(cfg, s, e) {
      assert EffectOk(cfg, s, i);
    }
  }

  /**
   * After every run: a row is dead and its effect has committed all the same, exactly if at some step a failure
   * finished off the row after the commit, or an overtaken worker committed after the row was dead.
   */
  lemma DeadRowHasItsEffectIff<B>(cfg: Settings<B>, initial: B, events: seq<Event>, id: nat)
    ensures var t := Run(cfg, Start(initial), events);
            (id in t.rows && t.rows[id].status.Dead? && exists i :: EffectOf(t, t.rows[id].envelope, i))
            <==> EverDeadAndCommitted(cfg, Start(initial), events, id)
  {
    var t := Run(cfg, Start(initial), events);
    RunKeepsInv(cfg, initial, Start(initial), events);
    DeadWithReceiptIff(cfg, initial, Start(initial), events, id);
    if id in t.rows {
      ReceiptedIffEffect(cfg, initial, t, id);
    }
  }

  /**
   * It happens to every event a worker can claim: worker 0 outlives its lease inside the handler, worker 1 claims
   * the row, fails for good and marks it dead; then worker 0 commits and finds its acknowledgement refused.
   */
  lemma DeadRowMayHaveItsEffect<B>(cfg: Settings<B>, initial: B, e: Envelope)
    requires e.eventType in cfg.registered
    ensures var t := Run(cfg, Start(initial), [Accept(0, e, 0), ClaimRow(0, 0, 0), ClaimRow(1, 0, cfg.leaseSeconds)]
                                              + [Abort(1, true), MarkFailed(1, cfg.leaseSeconds), Commit(0)]);
            0 in t.rows && t.rows[0].status.Dead? && EffectOf(t, e, 0) && t.business == cfg.handler(initial, e)
  {
    var late := cfg.leaseSeconds;
    var s3 := Step(cfg, Step(cfg, Step(cfg, Start(initial), Accept(0, e, 0)), ClaimRow(0, 0, 0)), ClaimRow(1, 0, late));
    RunAppend(cfg, Start(initial), [Accept(0, e, 0), ClaimRow(0, 0, 0), ClaimRow(1, 0, late)],
              [Abort(1, true), MarkFailed(1, late), Commit(0)]);
    RunThree(cfg, Start(initial), Accept(0, e, 0), ClaimRow(0, 0, 0), ClaimRow(1, 0, late));
    assert s3.workers == map[0 := Claimed(Claim(0, e, 1, cfg.keyOf(e))), 1 := Claimed(Claim(0, e, 2, cfg.keyOf(e)))];
    GivenUpAndCommitted(cfg, s3, e, late);
    RunThree(cfg, s3, Abort(1, true), MarkFailed(1, late), Commit(0));
  }

  lemma GivenUpAndCommitted<B>(cfg: Settings<B>, s: State<B>, e: Envelope, now: int)
    requires 0 in s.rows && s.rows[0].status.Processing? && s.rows[0].lockedBy == Some(1) && s.receipts == map[]
             && s.effects == []
    requires s.workers == map[0 := Claimed(Claim(0, e, 1, cfg.keyOf(e))), 1 := Claimed(Claim(0, e, 2, cfg.keyOf(e)))]
    ensures var t := Step(cfg, Step(cfg, Step(cfg, s, Abort(1, true)), MarkFailed(1, now)), Commit(0));
            0 in t.rows && t.rows[0].status.Dead? && EffectOf(t, e, 0) && t.business == cfg.handler(s.business, e)
  {
  }

  // ---------- The key the store builds ----------

  function KeyOf(e: Envelope): string {
    "sync-inbox:" + e.ownerId + ":" + e.nodeId + ":" + e.clientEventId
  }

  lemma SplitAtColon(a: string, x: string, b: string, y: string)
    requires ':' !in a && ':' !in b
    requires a + ":" + x == b + ":" + y
    ensures a == b && x == y
  {
    var s, t := a + ":" + x, b + ":" + y;
    assert s[|a|] == ':' && t[|b|] == ':';
    assert s[..|a|] == a && t[..|b|] == b;
    assert s[|a| + 1..] == x && t[|b| + 1..] == y;
  }

  /** The key tells events apart as long as owner and node carry no colon ... */
  lemma KeysIdentifyEvents(a: Envelope, b: Envelope)
    requires ':' !in a.ownerId && ':' !in a.nodeId && ':' !in b.ownerId && ':' !in b.nodeId
    ensures KeyOf(a) == KeyOf(b) <==> SameEvent(a, b)
  {
    if KeyOf(a) == KeyOf(b) {
      var tailA, tailB := a.nodeId + ":" + a.clientEventId, b.nodeId + ":" + b.clientEventId;
      var n := |"sync-inbox:"|;
      assert KeyOf(a)[n..] == a.ownerId + ":" + tailA;
      assert KeyOf(b)[n..] == b.ownerId + ":" + tailB;
      SplitAtColon(a.ownerId, tailA, b.ownerId, tailB);
      SplitAtColon(a.nodeId, a.clientEventId, b.nodeId, b.clientEventId);
    }
  }

  ghost predicate SharesKey(a: Envelope, b: Envelope) {
    ':' !in b.ownerId && !SameEvent(a, b) && KeyOf(a) == KeyOf(b)
  }

  /** ... and, as owner ids carry none, exactly events with a colon in the client's node or event id have a namesake. */
  lemma KeyIsSharedIff(a: Envelope)
    requires ':' !in a.ownerId
    ensures (exists b :: SharesKey(a, b)) <==> ':' in a.nodeId || ':' in a.clientEventId
    ensures (exists b :: SharesKey(a, b)) ==> exists b :: SharesKey(a, b) && b.ownerId == a.ownerId
  {
    if ':' in a.nodeId {
      var i :| 0 <= i < |a.nodeId| && a.nodeId[i] == ':';
      var b := a.(nodeId := a.nodeId[..i], clientEventId := a.nodeId[i + 1..] + ":" + a.clientEventId);
      assert a.nodeId == a.nodeId[..i] + ":" + a.nodeId[i + 1..];
      assert KeyOf(b) == KeyOf(a);
      assert SharesKey(a, b);
    } else if ':' in a.clientEventId {
      var i :| 0 <= i < |a.clientEventId| && a.clientEventId[i] == ':';
      var b := a.(nodeId := a.nodeId + ":" + a.clientEventId[..i], clientEventId := a.clientEventId[i + 1..]);
      assert a.clientEventId == a.clientEventId[..i] + ":" + a.clientEventId[i + 1..];
      assert KeyOf(b) == KeyOf(a);
      assert SharesKey(a, b);
    } else {
      forall b | KeyOf(b) == KeyOf(a) && ':' !in b.ownerId ensures SameEvent(a, b) {
        OnlyItself(a, b);
      }
    }
  }

  lemma OnlyColon(a: string, x: string, b: string, y: string)
    requires ':' !in a && ':' !in x
    requires a + ":" + x == b + ":" + y
    ensures a == b && x == y
  {
    var s := a + ":" + x;
    assert (b + ":" + y)[|b|] == ':';
    assert forall i :: 0 <= i < |s| && i != |a| ==> s[i] == if i < |a| then a[i] else x[i - |a| - 1];
    assert |a| == |b|;
    assert s[..|a|] == a && (b + ":" + y)[..|b|] == b;
    assert s[|a| + 1..] == x && (b + ":" + y)[|b| + 1..] == y;
  }

  lemma OnlyItself(a: Envelope, b: Envelope)
    requires ':' !in a.ownerId && ':' !in a.nodeId && ':' !in a.clientEventId && ':' !in b.ownerId
             && KeyOf(a) == KeyOf(b)
    ensures SameEvent(a, b)
  {
    var tailA, tailB := a.nodeId + ":" + a.clientEventId, b.nodeId + ":" + b.clientEventId;
    var n := |"sync-inbox:"|;
    assert KeyOf(a)[n..] == a.ownerId + ":" + tailA;
    assert KeyOf(b)[n..] == b.ownerId + ":" + tailB;
    SplitAtColon(a.ownerId, tailA, b.ownerId, tailB);
    OnlyColon(a.nodeId, a.clientEventId, b.nodeId, b.clientEventId);
  }

  /** Of two events that share a key the one that commits second never applies: the receipt names the first. */
  lemma SharedKeyBlocks<B>(cfg: Settings<B>, initial: B, events: seq<Event>, i: nat, id: nat)
    requires cfg.keyOf == KeyOf
    requires var t := Run(cfg, Start(initial), events);
             i < |t.effects| && id in t.rows && SharesKey(t.effects[i].envelope, t.rows[id].envelope)
    ensures var t := Run(cfg, Start(initial), events);
            !ReceiptFits(cfg, t.receipts, t.rows[id].envelope) && !t.rows[id].status.Applied?
  {
    var t := Run(cfg, Start(initial), events);
    RunKeepsInv(cfg, initial, Start(initial), events);
    assert EffectOk(cfg, t, i);
  }
}
