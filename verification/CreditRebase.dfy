/** The rebase script: a baseline per user, two lists, and keyed commands in the outbox. */
module CreditRebase {
  import opened Options
  import opened CreditKeys

  datatype ManualReason = ConsumptionIndeterminate | NegativeTarget | AccountUnreadable

  /** Answers of the credit service; a missing number makes `_to_decimal` raise. */
  datatype Consumption = Consumption(determinate: bool, walletConsumed: Option<int>)
  datatype Account = Account(remaining: Option<int>)

  datatype UserBaseline = UserBaseline(
    userId: nat,
    entitled: int,
    consumed: int,
    target: int,
    current: Option<int>,
    delta: int,
    manualReason: Option<ManualReason>)

  datatype Outcome = Built(baseline: UserBaseline) | ValueError

  // ---------- One baseline ----------

  predicate Applicable(entitled: int, c: Consumption, a: Option<Account>) {
    && c.determinate && c.walletConsumed.Some? && c.walletConsumed.value <= entitled
    && a.Some? && a.value.remaining.Some?
  }

  /**
   * A user is adjusted automatically only when consumption is attributed, covers no more than the entitlement, and the
   * balance was read; the delta then carries that balance to entitlement minus consumption. Anything undecided goes
   * to the manual list with delta 0, the first reason in this order; a missing number aborts the whole run.
   */
  method BuildBaseline(userId: nat, entitled: int, consumption: Consumption, account: Option<Account>)
    returns (r: Outcome)
    ensures r.Built? ==> r.baseline.userId == userId
    ensures r.Built? && r.baseline.manualReason.None? <==> Applicable(entitled, consumption, account)
    ensures r.Built? && r.baseline.manualReason.None? ==>
              account.value.remaining.value + r.baseline.delta == entitled - consumption.walletConsumed.value
    ensures r.Built? && r.baseline.manualReason.Some? ==> r.baseline.delta == 0
    ensures r.Built? ==> r.baseline.entitled == entitled
    ensures r.Built? && consumption.determinate ==>
              && consumption.walletConsumed.Some? && r.baseline.consumed == consumption.walletConsumed.value
              && r.baseline.target == entitled - consumption.walletConsumed.value
    ensures r.Built? ==> r.baseline.current == if r.baseline.manualReason.None? then account.value.remaining else None
    ensures r.Built? && r.baseline.manualReason == Some(ConsumptionIndeterminate) <==> !consumption.determinate
    ensures r.Built? && r.baseline.manualReason == Some(NegativeTarget) <==>
              consumption.determinate && consumption.walletConsumed.Some? && entitled < consumption.walletConsumed.value
    ensures r.Built? && r.baseline.manualReason == Some(AccountUnreadable) <==>
              consumption.determinate && consumption.walletConsumed.Some?
                  && consumption.walletConsumed.value <= entitled && account.None?
    ensures r == BaselineOf(userId, entitled, consumption, account)
  {
    var baseline := UserBaseline(userId, entitled, 0, 0, None, 0, None);
    if !consumption.determinate {
      return Built(baseline.(manualReason := Some(ConsumptionIndeterminate)));
    }
    if consumption.walletConsumed.None? {
      return ValueError;
    }
    baseline := baseline.(consumed := consumption.walletConsumed.value);
    baseline := baseline.(target := entitled - baseline.consumed);
    if baseline.target < 0 {
      return Built(baseline.(manualReason := Some(NegativeTarget)));
    }
    if account.None? {
      return Built(baseline.(manualReason := Some(AccountUnreadable)));
    }
    if account.value.remaining.None? {
      return ValueError;
    }
    baseline := baseline.(current := account.value.remaining);
    baseline := baseline.(delta := baseline.target - baseline.current.value);
    return Built(baseline);
  }

  function BaselineOf(userId: nat, entitled: int, c: Consumption, a: Option<Account>): Outcome {
    if !c.determinate then Built(UserBaseline(userId, entitled, 0, 0, None, 0, Some(ConsumptionIndeterminate)))
    else if c.walletConsumed.None? then ValueError
    else
      var target := entitled - c.walletConsumed.value;
      var known := UserBaseline(userId, entitled, c.walletConsumed.value, target, None, 0, None);
      if target < 0 then Built(known.(manualReason := Some(NegativeTarget)))
      else if a.None? then Built(known.(manualReason := Some(AccountUnreadable)))
      else if a.value.remaining.None? then ValueError
      else Built(known.(current := a.value.remaining, delta := target - a.value.remaining.value))
  }

  // ---------- All users ----------

  /** What the evidence tables and the credit service say about each user. */
  datatype Sources = Sources(entitled: map<nat, int>, consumption: nat -> Consumption, account: nat -> Option<Account>)

  function OutcomeFor(user: nat, src: Sources): Outcome {
    BaselineOf(user, if user in src.entitled then src.entitled[user] else 0, src.consumption(user),
               if src.consumption(user).determinate then src.account(user) else None)
  }

  /** The baselines of the users that are manual, or not, in the order of the users. */
  function Baselines(users: seq<nat>, src: Sources, manual: bool): seq<UserBaseline>
    requires forall u :: u in users ==> OutcomeFor(u, src).Built?
  {
    if users == [] then []
    else
      var b := OutcomeFor(users[|users| - 1], src).baseline;
      Baselines(users[..|users| - 1], src, manual) + if b.manualReason.Some? == manual then [b] else []
  }

  datatype Lists = Lists(applicable: seq<UserBaseline>, manual: seq<UserBaseline>)

  method ComputeBaselines(users: seq<nat>, src: Sources) returns (r: Option<Lists>)
    ensures r.None? <==> exists i :: 0 <= i < |users| && OutcomeFor(users[i], src).ValueError?
    ensures r.Some? ==> (forall u :: u in users ==> OutcomeFor(u, src).Built?)
                        && r.value.applicable == Baselines(users, src, false)
                        && r.value.manual == Baselines(users, src, true)
  {
    var applicable, manual := [], [];
    for i := 0 to |users|
      invariant forall u :: u in users[..i] ==> OutcomeFor(u, src).Built?
      invariant applicable == Baselines(users[..i], src, false)
      invariant manual == Baselines(users[..i], src, true)
    {
      var user := users[i];
      var credits := if user in src.entitled then src.entitled[user] else 0;
      var consumption := src.consumption(user);
      var account := if consumption.determinate then src.account(user) else None;
      var outcome := BuildBaseline(user, credits, consumption, account);
      assert outcome == OutcomeFor(user, src);
      if outcome.ValueError? {
        return None;
      }
      assert users[..i + 1] == users[..i] + [user];
      assert users[..i + 1][..i] == users[..i];
      if outcome.baseline.manualReason.Some? {
        manual := manual + [outcome.baseline];
      } else {
        applicable := applicable + [outcome.baseline];
      }
    }
    assert users[..|users|] == users;
    return Some(Lists(applicable, manual));
  }

  /** Every user lands on exactly one list, and on the automatic one exactly when its answers decide everything. */
  lemma {:induction false} ListedOnceIff(users: seq<nat>, src: Sources, user: nat)
    requires forall u :: u in users ==> OutcomeFor(u, src).Built?
    requires user in users
    ensures var entitled := if user in src.entitled then src.entitled[user] else 0;
            var a := Applicable(entitled, src.consumption(user), src.account(user));
            && (a <==> OutcomeFor(user, src).baseline in Baselines(users, src, false))
            && (!a <==> OutcomeFor(user, src).baseline in Baselines(users, src, true))
  {
    BaselinesHold(users, src, false, OutcomeFor(user, src).baseline);
    BaselinesHold(users, src, true, OutcomeFor(user, src).baseline);
  }

  lemma {:induction false} BaselinesHold(users: seq<nat>, src: Sources, manual: bool, b: UserBaseline)
    requires forall u :: u in users ==> OutcomeFor(u, src).Built?
    ensures b in Baselines(users, src, manual) <==>
            b.userId in users && b == OutcomeFor(b.userId, src).baseline && b.manualReason.Some? == manual
  {
    if users != [] {
      var n := |users| - 1;
      BaselinesHold(users[..n], src, manual, b);
      assert users == users[..n] + [users[n]];
    }
  }

  // ---------- Applying ----------

  datatype Command = Command(userId: nat, kind: Kind, amount: int)
  datatype Summary = Summary(granted: nat, revoked: nat, skipped: nat, failed: nat)

  function CommandOf(b: UserBaseline): Command
    requires b.delta != 0
  {
    if b.delta > 0 then Command(b.userId, Grant, b.delta) else Command(b.userId, Revoke, -b.delta)
  }

  function KeyOf(batch: string, b: UserBaseline): string
    requires b.delta != 0
  {
    Key(batch, b.userId, CommandOf(b).kind)
  }

  predicate Enqueues(b: UserBaseline, raises: set<nat>) {
    b.delta != 0 && b.userId !in raises
  }

  function Apply(events: map<string, Command>, batch: string, b: UserBaseline, raises: set<nat>): map<string, Command> {
    if Enqueues(b, raises) && KeyOf(batch, b) !in events then events[KeyOf(batch, b) := CommandOf(b)] else events
  }

  function ApplyAll(events: map<string, Command>, batch: string, bs: seq<UserBaseline>,
                    raises: set<nat>): map<string, Command>
  {
    if bs == [] then events
    else Apply(ApplyAll(events, batch, bs[..|bs| - 1], raises), batch, bs[|bs| - 1], raises)
  }

  function Counted(t: Summary, b: UserBaseline, raises: set<nat>): Summary {
    if b.delta == 0 then t.(skipped := t.skipped + 1)
    else if b.userId in raises then t.(failed := t.failed + 1)
    else if b.delta > 0 then t.(granted := t.granted + 1)
    else t.(revoked := t.revoked + 1)
  }

  function Tally(bs: seq<UserBaseline>, raises: set<nat>): (t: Summary)
    ensures t.granted + t.revoked + t.skipped + t.failed == |bs|
    ensures t.failed == 0 <==> forall i :: 0 <= i < |bs| && bs[i].delta != 0 ==> bs[i].userId !in raises
  {
    if bs == [] then Summary(0, 0, 0, 0) else Counted(Tally(bs[..|bs| - 1], raises), bs[|bs| - 1], raises)
  }

  class Outbox {
    var events: map<string, Command>

    /** An existing event under the key is returned as it is. */
    method Enqueue(key: string, command: Command)
      modifies this
      ensures events == if key in old(events) then old(events) else old(events)[key := command]
    {
      if key !in events {
        events := events[key := command];
      }
    }

    method ApplyOne(batch: string, b: UserBaseline, raises: set<nat>, sofar: Summary) returns (summary: Summary)
      modifies this
      ensures events == Apply(old(events), batch, b, raises)
      ensures summary == Counted(sofar, b, raises)
    {
      if b.delta == 0 {
        summary := sofar.(skipped := sofar.skipped + 1);
      } else if b.userId in raises {
        summary := sofar.(failed := sofar.failed + 1);
      } else if b.delta > 0 {
        Enqueue(Key(batch, b.userId, Grant), Command(b.userId, Grant, b.delta));
        summary := sofar.(granted := sofar.granted + 1);
      } else {
        Enqueue(Key(batch, b.userId, Revoke), Command(b.userId, Revoke, -b.delta));
        summary := sofar.(revoked := sofar.revoked + 1);
      }
    }

    /** One transaction per user; `raises` are the users whose transaction fails. */
    method ApplyBaselines(batch: string, baselines: seq<UserBaseline>, raises: set<nat>) returns (summary: Summary)
      modifies this
      ensures events == ApplyAll(old(events), batch, baselines, raises)
      ensures summary == Tally(baselines, raises)
    {
      summary := Summary(0, 0, 0, 0);
      for i := 0 to |baselines|
        invariant events == ApplyAll(old(events), batch, baselines[..i], raises)
        invariant summary == Tally(baselines[..i], raises)
      {
        assert baselines[..i + 1][..i] == baselines[..i];
        summary := ApplyOne(batch, baselines[i], raises, summary);
      }
      assert baselines[..|baselines|] == baselines;
    }
  }

  predicate OnePerUser(bs: seq<UserBaseline>) {
    forall i, j :: 0 <= i < j < |bs| ==> bs[i].userId != bs[j].userId
  }

  predicate Asks(batch: string, bs: seq<UserBaseline>, raises: set<nat>, i: int, key: string) {
    0 <= i < |bs| && Enqueues(bs[i], raises) && KeyOf(batch, bs[i]) == key
  }

  lemma OnlyOneAsks(batch: string, bs: seq<UserBaseline>, raises: set<nat>, i: int, j: int, key: string)
    requires OnePerUser(bs) && Asks(batch, bs, raises, i, key) && Asks(batch, bs, raises, j, key)
    ensures i == j
  {
    KeysIdentify(batch, bs[i].userId, CommandOf(bs[i]).kind, batch, bs[j].userId, CommandOf(bs[j]).kind);
  }

  lemma AsksInPrefix(batch: string, bs: seq<UserBaseline>, raises: set<nat>, n: nat, key: string)
    requires n <= |bs|
    ensures forall i :: Asks(batch, bs[..n], raises, i, key) <==> i < n && Asks(batch, bs, raises, i, key)
  {
  }

  /**
   * What the outbox holds afterwards: what it held, untouched, and one command for every user with a non-zero delta.
   */
  lemma {:induction false} OutboxAfter(events: map<string, Command>, batch: string, bs: seq<UserBaseline>,
                                       raises: set<nat>, key: string)
    requires OnePerUser(bs)
    ensures var after := ApplyAll(events, batch, bs, raises);
            && (key in after <==> key in events || exists i :: Asks(batch, bs, raises, i, key))
            && (key in events ==> after[key] == events[key])
            && (forall i :: Asks(batch, bs, raises, i, key) && key !in events ==> after[key] == CommandOf(bs[i]))
    decreases |bs|
  {
    if bs != [] {
      var n := |bs| - 1;
      OutboxAfter(events, batch, bs[..n], raises, key);
      AsksInPrefix(batch, bs, raises, n, key);
      var before := ApplyAll(events, batch, bs[..n], raises);
      if Asks(batch, bs, raises, n, key) {
        forall i | Asks(batch, bs, raises, i, key)
          ensures i == n
        {
          OnlyOneAsks(batch, bs, raises, i, n, key);
        }
      }
      assert key in Apply(before, batch, bs[n], raises) <==> key in before || Asks(batch, bs, raises, n, key);
    }
  }

  /** User `i` asks for its credits to go up or down, and its transaction does not fail. */
  predicate Moves(bs: seq<UserBaseline>, raises: set<nat>, i: int, kind: Kind) {
    0 <= i < |bs| && bs[i].userId !in raises && (if kind.Grant? then bs[i].delta > 0 else bs[i].delta < 0)
  }

  /** A new event is a grant of a positive delta or a revocation of a negative one, under that user's key. */
  lemma NewEventsAre(events: map<string, Command>, batch: string, bs: seq<UserBaseline>, raises: set<nat>, key: string)
    requires OnePerUser(bs) && key !in events
    ensures key in ApplyAll(events, batch, bs, raises) <==>
            exists i, kind :: Moves(bs, raises, i, kind) && key == Key(batch, bs[i].userId, kind)
    ensures forall i, kind :: Moves(bs, raises, i, kind) && key == Key(batch, bs[i].userId, kind) ==>
              ApplyAll(events, batch, bs, raises)[key]
              == Command(bs[i].userId, kind, if kind.Grant? then bs[i].delta else -bs[i].delta)
  {
    OutboxAfter(events, batch, bs, raises, key);
    forall i, kind
      ensures Moves(bs, raises, i, kind) && key == Key(batch, bs[i].userId, kind) ==> Asks(batch, bs, raises, i, key)
    {
    }
    forall i | Asks(batch, bs, raises, i, key)
      ensures Moves(bs, raises, i, CommandOf(bs[i]).kind) && key == Key(batch, bs[i].userId, CommandOf(bs[i]).kind)
    {
    }
  }

  /** The positions whose baseline meets a condition. */
  function Where(bs: seq<UserBaseline>, p: UserBaseline -> bool): set<nat> {
    set i: nat | i < |bs| && p(bs[i])
  }

  lemma OneMoreWhere(bs: seq<UserBaseline>, b: UserBaseline, p: UserBaseline -> bool)
    ensures |Where(bs + [b], p)| == |Where(bs, p)| + if p(b) then 1 else 0
  {
    assert Where(bs + [b], p) == Where(bs, p) + if p(b) then {|bs|} else {};
  }

  lemma TallyMore(bs: seq<UserBaseline>, b: UserBaseline, raises: set<nat>)
    ensures Tally(bs + [b], raises) == Counted(Tally(bs, raises), b, raises)
  {
    assert (bs + [b])[..|bs|] == bs;
  }

  /** The summary counts the users granted to, revoked from, skipped and failed. */
  lemma {:induction false} TallyIs(bs: seq<UserBaseline>, raises: set<nat>)
    ensures Tally(bs, raises).granted == |Where(bs, (b: UserBaseline) => b.delta > 0 && b.userId !in raises)|
    ensures Tally(bs, raises).revoked == |Where(bs, (b: UserBaseline) => b.delta < 0 && b.userId !in raises)|
    ensures Tally(bs, raises).skipped == |Where(bs, (b: UserBaseline) => b.delta == 0)|
    ensures Tally(bs, raises).failed == |Where(bs, (b: UserBaseline) => b.delta != 0 && b.userId in raises)|
    decreases |bs|
  {
    if bs != [] {
      var init, last := bs[..|bs| - 1], bs[|bs| - 1];
      assert bs == init + [last];
      TallyIs(init, raises);
      TallyMore(init, last, raises);
      OneMoreWhere(init, last, (b: UserBaseline) => b.delta > 0 && b.userId !in raises);
      OneMoreWhere(init, last, (b: UserBaseline) => b.delta < 0 && b.userId !in raises);
      OneMoreWhere(init, last, (b: UserBaseline) => b.delta == 0);
      OneMoreWhere(init, last, (b: UserBaseline) => b.delta != 0 && b.userId in raises);
    }
  }

  /**
   * A run that broke off after any users, with any failures, and is repeated with the same baselines leaves the outbox
   * as one undisturbed run does: no command is missing, none is doubled.
   */
  lemma RepeatIsOneRun(events: map<string, Command>, batch: string, bs: seq<UserBaseline>, done: nat, raises: set<nat>)
    requires OnePerUser(bs) && done <= |bs|
    ensures ApplyAll(ApplyAll(events, batch, bs[..done], raises), batch, bs, {}) == ApplyAll(events, batch, bs, {})
  {
    var first := ApplyAll(events, batch, bs[..done], raises);
    var both, one := ApplyAll(first, batch, bs, {}), ApplyAll(events, batch, bs, {});
    forall key
      ensures key in both <==> key in one
      ensures key in both ==> both[key] == one[key]
    {
      OutboxAfter(events, batch, bs[..done], raises, key);
      OutboxAfter(first, batch, bs, {}, key);
      OutboxAfter(events, batch, bs, {}, key);
      forall i | Asks(batch, bs[..done], raises, i, key)
        ensures Asks(batch, bs, {}, i, key)
      {
      }
    }
    assert both.Keys == one.Keys;
  }
}
