/** The per-user ledger takes the steps the script takes: same delta, same manual cases, same keyed rows. */
module CreditRun {
  import opened Options
  import opened CreditKeys
  import opened L = CreditLedger
  import R = CreditRebase

  /** The three reads end with the delta `BuildBaseline` computes from what they saw, or on the manual list with it. */
  lemma ReadsBuildTheBaseline(s: L.State, user: nat, entitled: int, evidenceThen: int, consumedThen: int)
    requires s.reader == L.HasConsumption(entitled, evidenceThen, consumedThen)
    ensures var b := R.BaselineOf(user, entitled, R.Consumption(true, Some(consumedThen)),
                                  Some(R.Account(Some(s.wallet))));
            && b.Built?
            && L.Step(s, L.ReadAccount).reader
               == if b.baseline.manualReason.Some? then L.Idle
                   else L.Computed(b.baseline.delta, L.Miss(L.Slack(s), L.Pending(s), L.Carried(s)))
  {
  }

  /** The ledger's rows are the outbox's events under this user's two keys. */
  predicate SameRows(s: L.State, events: map<string, R.Command>, batch: string, user: nat) {
    && SameRow(s.grant, events, Key(batch, user, Grant))
    && SameRow(s.revoke, events, Key(batch, user, Revoke))
  }

  predicate SameRow(row: Option<L.Row>, events: map<string, R.Command>, key: string) {
    && (row.Some? <==> key in events)
    && (row.Some? ==> row.value.amount == events[key].amount)
  }

  /** Applying one baseline does the same in the ledger and in the outbox, and leaves other users' rows alone. */
  lemma ApplyActsOnOneUser(s: L.State, events: map<string, R.Command>, batch: string, b: R.UserBaseline, user: nat)
    requires s.reader.Computed? && b.delta == s.reader.delta && SameRows(s, events, batch, user)
    ensures SameRows(if b.userId == user then L.Step(s, L.Apply) else s, R.Apply(events, batch, b, {}), batch, user)
  {
    if b.delta != 0 {
      var key := R.KeyOf(batch, b);
      forall kind | Key(batch, user, kind) == key
        ensures b.userId == user && kind == R.CommandOf(b).kind
      {
        KeysIdentify(batch, user, kind, batch, b.userId, R.CommandOf(b).kind);
      }
    }
  }
}
