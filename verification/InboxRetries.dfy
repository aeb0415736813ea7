/** How often and when a row is tried: leases, delays after failures, and what makes a row dead. */
module InboxRetries {
  import opened Options
  import opened InboxWorker

  // ---------- One recorded failure ----------

  /** Seconds until the next attempt: one after the first, doubled after each more, five minutes at most. */
  function DelayAfter(attempts: nat): (seconds: nat)
    ensures 1 <= seconds <= 300
  {
    if attempts <= 1 then 1 else if 2 * DelayAfter(attempts - 1) < 300 then 2 * DelayAfter(attempts - 1) else 300
  }

  lemma {:induction false} DelayIsDoubled(attempts: nat)
    ensures DelayAfter(attempts) == Min(Doubled(if attempts >= 1 then attempts - 1 else 0), 300)
  {
    if attempts > 1 {
      DelayIsDoubled(attempts - 1);
    }
  }

  /**
   * A recorded failure makes the row dead exactly if it is permanent or the attempts are used up. Otherwise it is tried
   * again after the delay. Nothing else of the row changes but its lock.
   */
  lemma FailureIs<B>(cfg: Settings<B>, row: Row, c: Claim, permanent: bool, now: int)
    ensures var after := FailedRow(cfg, row, c, permanent, now);
            && (after.status.Dead? <==> permanent || c.attempts >= cfg.maxAttempts)
            && (after.status.Dead? || after.status.Retry?)
            && after.nextAttemptAt == (if after.status.Dead? then None else Some(now + DelayAfter(c.attempts)))
            && after.lockedBy == None && after.lockedAt == None
            && after.envelope == row.envelope && after.attempts == row.attempts && after.receivedAt == row.receivedAt
  {
    DelayIsDoubled(c.attempts);
  }

  // ---------- When a row can be claimed ----------

  /** A claimed row can be taken over exactly when its lease has lapsed, a failed one exactly after its delay. */
  lemma ClaimableIff<B>(cfg: Settings<B>, row: Row, w: nat, c: Claim, permanent: bool, now: int, later: int)
    requires row.envelope.eventType in cfg.registered
    ensures Claimable(cfg, ClaimedRow(row, w, now), later) <==> later >= now + cfg.leaseSeconds
    ensures Claimable(cfg, FailedRow(cfg, row, c, permanent, now), later) <==>
            !permanent && c.attempts < cfg.maxAttempts && later >= now + DelayAfter(c.attempts)
    ensures Claimable(cfg, Row(row.envelope, Accepted, 0, now, None, None, None), later)
    ensures !Claimable(cfg, AppliedRow(row), later)
  {
    DelayIsDoubled(c.attempts);
  }

  /** A row of a type without a handler is never claimed. */
  lemma {:induction false} UnregisteredWaits<B>(cfg: Settings<B>, s: State<B>, events: seq<Event>, id: nat)
    requires id in s.rows && s.rows[id].status.Accepted? && s.rows[id].envelope.eventType !in cfg.registered
    ensures id in Run(cfg, s, events).rows && Run(cfg, s, events).rows[id] == s.rows[id]
    decreases |events|
  {
    if events != [] {
      UnregisteredWaits(cfg, Step(cfg, s, events[0]), events[1..], id);
    }
  }

  /** A row is locked exactly while it is processed, and has a next attempt exactly while it waits for one. */
  predicate Tidy(row: Row) {
    && (row.status.Processing? <==> row.lockedBy.Some?) && (row.status.Processing? <==> row.lockedAt.Some?)
    && (row.status.Retry? <==> row.nextAttemptAt.Some?)
  }

  lemma {:induction false} RowsAreTidy<B>(cfg: Settings<B>, s: State<B>, events: seq<Event>)
    requires forall id :: id in s.rows ==> Tidy(s.rows[id])
    ensures forall id :: id in Run(cfg, s, events).rows ==> Tidy(Run(cfg, s, events).rows[id])
    decreases |events|
  {
    if events != [] {
      StepKeepsTidy(cfg, s, events[0]);
      RowsAreTidy(cfg, Step(cfg, s, events[0]), events[1..]);
    }
  }

  lemma StepKeepsTidy<B>(cfg: Settings<B>, s: State<B>, e: Event)
    requires forall id :: id in s.rows ==> Tidy(s.rows[id])
    ensures forall id :: id in Step(cfg, s, e).rows ==> Tidy(Step(cfg, s, e).rows[id])
  {
  }

  predicate Disturbs<B>(cfg: Settings<B>, row: Row, e: Event, id: nat) {
    || (e.ClaimRow? && e.id == id && Claimable(cfg, row, e.now))
    || ((e.Ack? || e.MarkFailed?) && row.status.Processing? && row.lockedBy == Some(e.w))
  }

  /**
   * Over any run: until somebody claims a row at a time at which it can be claimed, or the holder of its lease answers,
   * nothing touches it, whatever overtaken workers do.
   */
  lemma {:induction false} RowRests<B>(cfg: Settings<B>, s: State<B>, events: seq<Event>, id: nat)
    requires id in s.rows && forall i :: 0 <= i < |events| ==> !Disturbs(cfg, s.rows[id], events[i], id)
    ensures id in Run(cfg, s, events).rows && Run(cfg, s, events).rows[id] == s.rows[id]
    decreases |events|
  {
    if events != [] {
      assert !Disturbs(cfg, s.rows[id], events[0], id);
      RowRests(cfg, Step(cfg, s, events[0]), events[1..], id);
    }
  }

  // ---------- What makes a row dead ----------

  /** The lease a worker holds was taken by the claim it is working on. */
  ghost predicate AttemptsMatch<B>(s: State<B>) {
    forall w :: w in s.workers && !s.workers[w].Idle? && HoldsLease(s.rows, w, s.workers[w].claim) ==>
                  s.rows[s.workers[w].claim.rowId].attempts == s.workers[w].claim.attempts
  }

  lemma StepKeepsAttempts<B>(cfg: Settings<B>, s: State<B>, e: Event)
    requires AttemptsMatch(s)
    ensures AttemptsMatch(Step(cfg, s, e))
  {
    var t := Step(cfg, s, e);
    forall w | w in t.workers && !t.workers[w].Idle? && HoldsLease(t.rows, w, t.workers[w].claim)
      ensures t.rows[t.workers[w].claim.rowId].attempts == t.workers[w].claim.attempts
    {
      if w in s.workers && !s.workers[w].Idle? {
        assert t.workers[w].claim == s.workers[w].claim;
      }
    }
  }

  /** A failure of row `id` is recorded by the holder of its lease, and it is permanent or the last one allowed. */
  predicate Kills<B>(cfg: Settings<B>, s: State<B>, e: Event, id: nat) {
    && e.MarkFailed? && WorkerOf(s, e.w).Failed? && s.workers[e.w].claim.rowId == id
    && HoldsLease(s.rows, e.w, s.workers[e.w].claim)
    && (s.workers[e.w].permanent || s.rows[id].attempts >= cfg.maxAttempts)
  }

  predicate IsDead<B>(s: State<B>, id: nat) {
    id in s.rows && s.rows[id].status.Dead?
  }

  lemma DiesIff<B>(cfg: Settings<B>, s: State<B>, e: Event, id: nat)
    requires AttemptsMatch(s) && !IsDead(s, id)
    ensures IsDead(Step(cfg, s, e), id) <==> Kills(cfg, s, e, id)
  {
    if e.MarkFailed? && WorkerOf(s, e.w).Failed? && id in s.rows {
      FailureIs(cfg, s.rows[id], s.workers[e.w].claim, s.workers[e.w].permanent, e.now);
    }
  }

  predicate EverKilled<B>(cfg: Settings<B>, s: State<B>, events: seq<Event>, id: nat)
    decreases |events|
  {
    events != [] && (Kills(cfg, s, events[0], id) || EverKilled(cfg, Step(cfg, s, events[0]), events[1..], id))
  }

  lemma {:induction false} DeadIffKilled<B>(cfg: Settings<B>, s: State<B>, events: seq<Event>, id: nat)
    requires AttemptsMatch(s) && !IsDead(s, id)
    ensures IsDead(Run(cfg, s, events), id) <==> EverKilled(cfg, s, events, id)
    decreases |events|
  {
    if events != [] {
      var t := Step(cfg, s, events[0]);
      StepKeepsAttempts(cfg, s, events[0]);
      DiesIff(cfg, s, events[0], id);
      if IsDead(t, id) {
        RunKeepsRows(cfg, t, events[1..]);
      } else {
        DeadIffKilled(cfg, t, events[1..], id);
      }
    }
  }

  /** After every run a row is dead exactly if at some step a permanent or a last failure of it was recorded. */
  lemma DeadIff<B>(cfg: Settings<B>, initial: B, events: seq<Event>, id: nat)
    ensures IsDead(Run(cfg, Start(initial), events), id) <==> EverKilled(cfg, Start(initial), events, id)
  {
    DeadIffKilled(cfg, Start(initial), events, id);
  }

  // ---------- Without permanent failures ----------

  /** Dead rows have used up their attempts, and rows that wait have not. */
  ghost predicate AttemptsDecide<B>(cfg: Settings<B>, s: State<B>) {
    && AttemptsMatch(s)
    && (forall w :: w in s.workers && s.workers[w].Failed? ==> !s.workers[w].permanent)
    && (forall id :: id in s.rows && s.rows[id].status.Dead? ==> s.rows[id].attempts >= cfg.maxAttempts)
    && (forall id :: id in s.rows && s.rows[id].status.Retry? ==> s.rows[id].attempts < cfg.maxAttempts)
  }

  lemma FailureDecides<B>(cfg: Settings<B>, s: State<B>, w: nat, now: int)
    requires AttemptsDecide(cfg, s)
    ensures var t := Step(cfg, s, MarkFailed(w, now));
            forall id :: id in t.rows ==>
                           && (t.rows[id].status.Dead? ==> t.rows[id].attempts >= cfg.maxAttempts)
                           && (t.rows[id].status.Retry? ==> t.rows[id].attempts < cfg.maxAttempts)
  {
    if WorkerOf(s, w).Failed? && HoldsLease(s.rows, w, s.workers[w].claim) {
      var c := s.workers[w].claim;
      FailureIs(cfg, s.rows[c.rowId], c, false, now);
    }
  }

  lemma StepDecides<B>(cfg: Settings<B>, s: State<B>, e: Event)
    requires AttemptsDecide(cfg, s) && !(e.Abort? && e.permanent)
    ensures AttemptsDecide(cfg, Step(cfg, s, e))
  {
    StepKeepsAttempts(cfg, s, e);
    if e.MarkFailed? {
      FailureDecides(cfg, s, e.w, e.now);
    }
  }

  lemma {:induction false} RunDecides<B>(cfg: Settings<B>, s: State<B>, events: seq<Event>)
    requires AttemptsDecide(cfg, s) && forall i :: 0 <= i < |events| ==> !(events[i].Abort? && events[i].permanent)
    ensures AttemptsDecide(cfg, Run(cfg, s, events))
    decreases |events|
  {
    if events != [] {
      assert !(events[0].Abort? && events[0].permanent);
      StepDecides(cfg, s, events[0]);
      RunDecides(cfg, Step(cfg, s, events[0]), events[1..]);
    }
  }

  /** Over every run without a permanent failure: a dead row was tried `maxAttempts` times, a waiting one fewer. */
  lemma NoEarlyDeath<B>(cfg: Settings<B>, initial: B, events: seq<Event>, id: nat)
    requires forall i :: 0 <= i < |events| ==> !(events[i].Abort? && events[i].permanent)
    requires id in Run(cfg, Start(initial), events).rows
    ensures var row := Run(cfg, Start(initial), events).rows[id];
            && (row.status.Dead? ==> row.attempts >= cfg.maxAttempts)
            && (row.status.Retry? ==> row.attempts < cfg.maxAttempts)
  {
    RunDecides(cfg, Start(initial), events);
  }
}
