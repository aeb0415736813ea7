/** `process_one` on the tables themselves, and the steps of the interleaved system it performs. */
module InboxStore {
  import opened Options
  import opened InboxRetries
  import opened InboxWorker

  /** What the business transaction meets. */
  datatype Verdict = HandlerSucceeds | HandlerRaises(permanent: bool) | CommitReportsFailure

  /** The steps one undisturbed call takes, given the row its claim returned. */
  function Trace<B>(cfg: Settings<B>, receipts: map<string, Receipt>, e: Envelope, w: nat, id: nat, verdict: Verdict,
                    now: int)
    : seq<Event>
  {
    var key := cfg.keyOf(e);
    if !ReceiptFits(cfg, receipts, e) then [ClaimRow(w, id, now), Abort(w, false), MarkFailed(w, now)]
    else if verdict.CommitReportsFailure? then [ClaimRow(w, id, now), CommitUnseen(w), MarkFailed(w, now)]
    else if verdict.HandlerRaises? && key !in receipts
        then [ClaimRow(w, id, now), Abort(w, verdict.permanent), MarkFailed(w, now)]
    else [ClaimRow(w, id, now), Commit(w), Ack(w)]
  }

  /** The handler is called, in a transaction that has reserved the receipt. */
  predicate Handles<B>(cfg: Settings<B>, receipts: map<string, Receipt>, e: Envelope) {
    cfg.keyOf(e) !in receipts
  }

  /** The business transaction ends without an exception. */
  predicate Succeeds<B>(cfg: Settings<B>, receipts: map<string, Receipt>, e: Envelope, verdict: Verdict) {
    ReceiptFits(cfg, receipts, e) && !verdict.CommitReportsFailure?
    && !(verdict.HandlerRaises? && Handles(cfg, receipts, e))
  }

  predicate FailsForGood<B>(cfg: Settings<B>, receipts: map<string, Receipt>, e: Envelope, verdict: Verdict) {
    verdict.HandlerRaises? && verdict.permanent && Handles(cfg, receipts, e)
  }

  /** What one call does to its row: one more attempt, and applied, dead or put off. */
  ghost predicate RowEnds<B>(cfg: Settings<B>, before: State<B>, id: nat, verdict: Verdict, now: int, after: State<B>)
    requires id in before.rows
  {
    var was := before.rows[id];
    var fine := Succeeds(cfg, before.receipts, was.envelope, verdict);
    var last := FailsForGood(cfg, before.receipts, was.envelope, verdict) || was.attempts + 1 >= cfg.maxAttempts;
    && after.rows.Keys == before.rows.Keys && (forall k ::
          k in before.rows && k != id ==> after.rows[k] == before.rows[k])
    && var row := after.rows[id];
       && row.envelope == was.envelope && row.receivedAt == was.receivedAt && row.attempts == was.attempts + 1
       && Tidy(row)
       && (row.status.Applied? <==> fine)
       && (row.status.Dead? <==> !fine && last)
       && (!fine && !last ==> row.status.Retry? && row.nextAttemptAt == Some(now + DelayAfter(row.attempts)))
  }

  /** And to the other tables: the effect and its receipt, both or neither. */
  ghost predicate EffectsEnd<B>(cfg: Settings<B>, before: State<B>, id: nat, verdict: Verdict, after: State<B>)
    requires id in before.rows
  {
    var e := before.rows[id].envelope;
    if Handles(cfg, before.receipts, e) && !verdict.HandlerRaises? then
      && after.effects == before.effects + [Effect(cfg.keyOf(e), id, e)]
      && after.business == cfg.handler(before.business, e)
      && after.receipts == before.receipts[cfg.keyOf(e) := Receipt(IdentityOf(e), |before.effects|)]
    else
      after.effects == before.effects && after.business == before.business && after.receipts == before.receipts
  }

  class Store<B> {
    const cfg: Settings<B>
    var rows: map<nat, Row>
    var receipts: map<string, Receipt>
    var business: B
    var effects: seq<Effect>

    constructor (cfg: Settings<B>, initial: B)
      ensures this.cfg == cfg
      ensures rows == map[] && receipts == map[] && business == initial && effects == []
    {
      this.cfg := cfg;
      rows, receipts, business, effects := map[], map[], initial, [];
    }

    function Seen(w: nat): State<B>
      reads this
    {
      State(rows, receipts, business, effects, map[w := Idle])
    }

    method ClaimInbox(w: nat, id: nat, now: int) returns (c: Claim)
      requires id in rows && Claimable(cfg, rows[id], now)
      modifies this`rows
      ensures rows == old(rows)[id := ClaimedRow(old(rows)[id], w, now)]
      ensures c == Claim(id, rows[id].envelope, rows[id].attempts, cfg.keyOf(rows[id].envelope))
    {
      var row := rows[id];
      rows := rows[id := row.(status := Processing, attempts := row.attempts + 1, lockedBy := Some(w),
                              lockedAt := Some(now), nextAttemptAt := None)];
      c := Claim(id, row.envelope, row.attempts + 1, cfg.keyOf(row.envelope));
    }

    /** Insert-if-absent; `None` when the key already belongs to another event. */
    method Reserve(c: Claim) returns (first: Option<bool>)
      requires c.key == cfg.keyOf(c.envelope)
      modifies this`receipts
      ensures first.None? <==> !ReceiptFits(cfg, old(receipts), c.envelope)
      ensures first.Some? ==> first.value == (c.key !in old(receipts))
      ensures receipts == if first == Some(true)
              then old(receipts)[c.key := Receipt(IdentityOf(c.envelope), |effects|)] else old(receipts)
    {
      if c.key !in receipts {
        receipts := receipts[c.key := Receipt(IdentityOf(c.envelope), |effects|)];
        return Some(true);
      }
      if receipts[c.key].identity != IdentityOf(c.envelope) {
        return None;
      }
      return Some(false);
    }

    /**
     * At most one row. `pick` is the row the claiming query returns, `None` when every claimable row is
     * absent or locked. The tables move exactly as the corresponding steps of the interleaved system.
     */
    method ProcessOne(w: nat, pick: Option<nat>, verdict: Verdict, now: int) returns (processed: bool)
      requires pick.Some? ==> pick.value in rows && Claimable(cfg, rows[pick.value], now)
      modifies this
      ensures processed <==> pick.Some?
      ensures pick.None? ==> Seen(w) == old(Seen(w))
      ensures pick.Some? ==>
                Seen(w) == Run(cfg, old(Seen(w)),
                               Trace(cfg, old(receipts), old(rows)[pick.value].envelope, w, pick.value, verdict, now))
      ensures pick.Some? ==> RowEnds(cfg, old(Seen(w)), pick.value, verdict, now, Seen(w))
      ensures pick.Some? ==> EffectsEnd(cfg, old(Seen(w)), pick.value, verdict, Seen(w))
    {
      if pick.None? {
        return false;
      }
      var id := pick.value;
      ghost var before := Seen(w);
      var c := ClaimInbox(w, id, now);
      var beforeReceipts := receipts;
      var failed := false;
      var permanent := false;
      var first := Reserve(c);
      if first.None? {
        failed := true;
      } else if verdict.HandlerRaises? && first.value {
        // The business transaction rolls back: the reserved receipt goes with it.
        receipts := beforeReceipts;
        failed, permanent := true, verdict.permanent;
      } else {
        if first.value {
          business := cfg.handler(business, c.envelope);
          effects := effects + [Effect(c.key, c.rowId, c.envelope)];
        }
        failed := verdict.CommitReportsFailure?;
      }
      if failed {
        rows := rows[id := FailedRow(cfg, rows[id], c, permanent, now)];
      } else {
        rows := rows[id := AppliedRow(rows[id])];
      }
      CallIsTrace(cfg, before, w, id, verdict, now, Seen(w));
      CallEnds(cfg, before, w, id, verdict, now, Seen(w));
      return true;
    }
  }

  /** The tables after one undisturbed call. */
  ghost function AfterCall<B>(cfg: Settings<B>, s: State<B>, w: nat, id: nat, verdict: Verdict, now: int): State<B>
    requires id in s.rows
  {
    var row := ClaimedRow(s.rows[id], w, now);
    var c := Claim(id, row.envelope, row.attempts, cfg.keyOf(row.envelope));
    if !ReceiptFits(cfg, s.receipts, row.envelope) then
      s.(rows := s.rows[id := FailedRow(cfg, row, c, false, now)])
    else if verdict.HandlerRaises? && c.key !in s.receipts then
      s.(rows := s.rows[id := FailedRow(cfg, row, c, verdict.permanent, now)])
    else
      var after := if verdict.CommitReportsFailure? then FailedRow(cfg, row, c, false, now) else AppliedRow(row);
      Committing(cfg, s, c).(rows := s.rows[id := after])
  }

  lemma CallEnds<B>(cfg: Settings<B>, s: State<B>, w: nat, id: nat, verdict: Verdict, now: int, t: State<B>)
    requires id in s.rows && t == AfterCall(cfg, s, w, id, verdict, now)
    ensures RowEnds(cfg, s, id, verdict, now, t) && EffectsEnd(cfg, s, id, verdict, t)
  {
    var row := ClaimedRow(s.rows[id], w, now);
    var c := Claim(id, row.envelope, row.attempts, cfg.keyOf(row.envelope));
    FailureIs(cfg, row, c, FailsForGood(cfg, s.receipts, row.envelope, verdict), now);
  }

  lemma AbortedCall<B>(cfg: Settings<B>, s: State<B>, w: nat, id: nat, permanent: bool, now: int)
    requires s.workers == map[w := Idle] && id in s.rows && Claimable(cfg, s.rows[id], now)
    ensures var row := ClaimedRow(s.rows[id], w, now);
            var c := Claim(id, row.envelope, row.attempts, cfg.keyOf(row.envelope));
            Run(cfg, s, [ClaimRow(w, id, now), Abort(w, permanent), MarkFailed(w, now)])
            == s.(rows := s.rows[id := FailedRow(cfg, row, c, permanent, now)])
  {
    var row := ClaimedRow(s.rows[id], w, now);
    var c := Claim(id, row.envelope, row.attempts, cfg.keyOf(row.envelope));
    RunThree(cfg, s, ClaimRow(w, id, now), Abort(w, permanent), MarkFailed(w, now));
    var s1 := Step(cfg, s, ClaimRow(w, id, now));
    assert s1 == s.(rows := s.rows[id := row], workers := map[w := Claimed(c)]);
    var s2 := Step(cfg, s1, Abort(w, permanent));
    assert s2 == s1.(workers := map[w := Failed(c, permanent)]);
    var s3 := Step(cfg, s2, MarkFailed(w, now));
    assert s3.rows == s.rows[id := FailedRow(cfg, row, c, permanent, now)];
    assert s3.workers == map[w := Idle];
  }

  lemma CommittedCall<B>(cfg: Settings<B>, s: State<B>, w: nat, id: nat, now: int)
    requires s.workers == map[w := Idle] && id in s.rows && Claimable(cfg, s.rows[id], now)
    requires ReceiptFits(cfg, s.receipts, s.rows[id].envelope)
    ensures var row := ClaimedRow(s.rows[id], w, now);
            var c := Claim(id, row.envelope, row.attempts, cfg.keyOf(row.envelope));
            Run(cfg, s, [ClaimRow(w, id, now), Commit(w), Ack(w)])
            == Committing(cfg, s, c).(rows := s.rows[id := AppliedRow(row)])
  {
    var row := ClaimedRow(s.rows[id], w, now);
    var c := Claim(id, row.envelope, row.attempts, cfg.keyOf(row.envelope));
    RunThree(cfg, s, ClaimRow(w, id, now), Commit(w), Ack(w));
    var s1 := Step(cfg, s, ClaimRow(w, id, now));
    assert s1 == s.(rows := s.rows[id := row], workers := map[w := Claimed(c)]);
    var s2 := Step(cfg, s1, Commit(w));
    assert s2 == Committing(cfg, s1, c).(workers := map[w := Committed(c)]);
    var s3 := Step(cfg, s2, Ack(w));
    assert s3.rows == s.rows[id := AppliedRow(row)];
    assert s3.workers == map[w := Idle];
  }

  lemma UnseenCommitCall<B>(cfg: Settings<B>, s: State<B>, w: nat, id: nat, now: int)
    requires s.workers == map[w := Idle] && id in s.rows && Claimable(cfg, s.rows[id], now)
    requires ReceiptFits(cfg, s.receipts, s.rows[id].envelope)
    ensures var row := ClaimedRow(s.rows[id], w, now);
            var c := Claim(id, row.envelope, row.attempts, cfg.keyOf(row.envelope));
            Run(cfg, s, [ClaimRow(w, id, now), CommitUnseen(w), MarkFailed(w, now)])
            == Committing(cfg, s, c).(rows := s.rows[id := FailedRow(cfg, row, c, false, now)])
  {
    var row := ClaimedRow(s.rows[id], w, now);
    var c := Claim(id, row.envelope, row.attempts, cfg.keyOf(row.envelope));
    RunThree(cfg, s, ClaimRow(w, id, now), CommitUnseen(w), MarkFailed(w, now));
    var s1 := Step(cfg, s, ClaimRow(w, id, now));
    assert s1 == s.(rows := s.rows[id := row], workers := map[w := Claimed(c)]);
    var s2 := Step(cfg, s1, CommitUnseen(w));
    assert s2 == Committing(cfg, s1, c).(workers := map[w := Failed(c, false)]);
    var s3 := Step(cfg, s2, MarkFailed(w, now));
    assert s3.rows == s.rows[id := FailedRow(cfg, row, c, false, now)];
    assert s3.workers == map[w := Idle];
  }

  lemma CallIsTrace<B>(cfg: Settings<B>, s: State<B>, w: nat, id: nat, verdict: Verdict, now: int, t: State<B>)
    requires s.workers == map[w := Idle] && id in s.rows && Claimable(cfg, s.rows[id], now)
    requires t == AfterCall(cfg, s, w, id, verdict, now)
    ensures t == Run(cfg, s, Trace(cfg, s.receipts, s.rows[id].envelope, w, id, verdict, now))
  {
    var e := s.rows[id].envelope;
    if !ReceiptFits(cfg, s.receipts, e) {
      AbortedCall(cfg, s, w, id, false, now);
    } else if verdict.HandlerRaises? && cfg.keyOf(e) !in s.receipts {
      AbortedCall(cfg, s, w, id, verdict.permanent, now);
    } else if verdict.CommitReportsFailure? {
      UnseenCommitCall(cfg, s, w, id, now);
    } else {
      CommittedCall(cfg, s, w, id, now);
    }
  }
}
