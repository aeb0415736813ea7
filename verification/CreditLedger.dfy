/**
 * One user's credits while a rebase batch reads, computes, enqueues and is run again, and while the user keeps
 * spending. Amounts count the smallest step `format_credits` keeps, 10^-5 credit.
 */
module CreditLedger {
  import opened Options
  import opened CreditKeys

  /**
   * What the three reads behind one delta missed of each other: `slack` was spent between the reads of consumption and
   * account; `pending` is what the entitlement read saw of orders and the account read did not; `carried` is what the
   * entitlement read saw of the batch's own rows, less what the account read saw of them.
   */
  datatype Miss = Miss(slack: int, pending: int, carried: int) {
    function Sum(): int { slack + pending + carried }
  }

  /** A row under one of the batch's two keys for this user. */
  datatype Row = Row(amount: int, miss: Miss, executed: bool, settled: bool)

  datatype Reader =
    | Idle
    | HasEntitled(entitled: int, evidenceThen: int)
    | HasConsumption(entitled: int, evidenceThen: int, consumed: int)
    | Computed(delta: int, miss: Miss)

  /**
   * `evidence` is the entitlement proved by orders and by events other than this batch's own; `inFlight` is the part
   * of it whose credits have not reached the wallet.
   */
  datatype State = State(
    evidence: int, inFlight: int, wallet: int, consumed: int, grant: Option<Row>, revoke: Option<Row>, reader: Reader)

  datatype Event =
    | Spend(n: int)
    | Foreign(n: int)    // a grant or revocation of somebody else, complete on both sides
    | Evidence(n: int)   // proof that appears before the wallet moves: a paid order not delivered yet
    | Credit(n: int)     // the wallet moves without new proof: that order is delivered
    | ReadEntitled
    | ReadConsumption
    | ReadAccount
    | Apply
    | Execute(kind: Kind)
    | Settle(kind: Kind)
    | Crash              // also: the user goes to the manual list

  function Sign(kind: Kind): int {
    if kind.Grant? then 1 else -1
  }

  function RowOf(s: State, kind: Kind): Option<Row> {
    if kind.Grant? then s.grant else s.revoke
  }

  function WithRow(s: State, kind: Kind, row: Row): State {
    if kind.Grant? then s.(grant := Some(row)) else s.(revoke := Some(row))
  }

  /** What the batch's succeeded rows add to the entitlement when it is read again. */
  function Settled(s: State): int {
    (if s.grant.Some? && s.grant.value.settled then s.grant.value.amount else 0)
    - (if s.revoke.Some? && s.revoke.value.settled then s.revoke.value.amount else 0)
  }

  /** What the batch's executed rows moved in the wallet. */
  function Moved(s: State): int {
    (if s.grant.Some? && s.grant.value.executed then s.grant.value.amount else 0)
    - (if s.revoke.Some? && s.revoke.value.executed then s.revoke.value.amount else 0)
  }

  /** How far the wallet is below entitlement minus consumption. */
  function Owed(s: State): int {
    s.evidence - s.consumed - s.wallet
  }

  /** `enqueue`: an existing row under the key is returned as it is. */
  function Enqueue(s: State, kind: Kind, amount: int, miss: Miss): State {
    if RowOf(s, kind).Some? then s else WithRow(s, kind, Row(amount, miss, false, false))
  }

  /** Spent since consumption was read. */
  function Slack(s: State): int
    requires s.reader.HasConsumption?
  {
    s.consumed - s.reader.consumed
  }

  /** In flight now, less what has appeared as evidence since the entitlement was read. */
  function Pending(s: State): int
    requires s.reader.HasConsumption?
  {
    s.inFlight - (s.evidence - s.reader.evidenceThen)
  }

  /** What the entitlement read counted of the batch's own rows, less what they have moved by now. */
  function Carried(s: State): int
    requires s.reader.HasConsumption?
  {
    s.reader.entitled - s.reader.evidenceThen - Moved(s)
  }

  function Step(s: State, e: Event): State {
    match e
    case Spend(n) =>
      if 0 < n <= s.wallet then s.(wallet := s.wallet - n, consumed := s.consumed + n) else s
    case Foreign(n) => s.(evidence := s.evidence + n, wallet := s.wallet + n)
    case Evidence(n) => s.(evidence := s.evidence + n, inFlight := s.inFlight + n)
    case Credit(n) => s.(wallet := s.wallet + n, inFlight := s.inFlight - n)
    case ReadEntitled => s.(reader := HasEntitled(s.evidence + Settled(s), s.evidence))
    case ReadConsumption =>
      if s.reader.HasEntitled?
          then s.(reader := HasConsumption(s.reader.entitled, s.reader.evidenceThen, s.consumed)) else s
    case ReadAccount =>
      if s.reader.HasConsumption? then
        var target := s.reader.entitled - s.reader.consumed;
        if target < 0 then s.(reader := Idle)
        else s.(reader := Computed(target - s.wallet, Miss(Slack(s), Pending(s), Carried(s))))
      else s
    case Apply =>
      if s.reader.Computed? then
        var next := s.(reader := Idle);
        if s.reader.delta > 0 then Enqueue(next, Grant, s.reader.delta, s.reader.miss)
        else if s.reader.delta < 0 then Enqueue(next, Revoke, -s.reader.delta, s.reader.miss)
        else next
      else s
    case Execute(kind) =>
      var row := RowOf(s, kind);
      if row.Some? && !row.value.executed && (kind.Revoke? ==> row.value.amount <= s.wallet) then
        WithRow(s, kind, row.value.(executed := true)).(wallet := s.wallet + Sign(kind) * row.value.amount)
      else s
    case Settle(kind) =>
      var row := RowOf(s, kind);
      if row.Some? && row.value.executed then WithRow(s, kind, row.value.(settled := true)) else s
    case Crash => s.(reader := Idle)
  }

  function Run(s: State, run: seq<Event>): State
    decreases |run|
  {
    if run == [] then s else Run(Step(s, run[0]), run[1..])
  }

  predicate Fresh(s: State) {
    s.grant.None? && s.revoke.None? && s.reader.Idle?
  }

  // ---------- Over every run whatsoever ----------

  /** What the user is owed beyond the orders in flight, had the batch moved nothing. */
  function Gap(s: State): int {
    Owed(s) - s.inFlight + Moved(s)
  }

  lemma StepKeepsGap(s: State, e: Event)
    ensures Gap(Step(s, e)) == Gap(s)
  {
  }

  /**
   * Conservation: reads, computing, spending, orders, crashes and reruns move nothing but what the keyed rows move,
   * once each.
   */
  lemma {:induction false} GapOverRun(s: State, run: seq<Event>)
    ensures Gap(Run(s, run)) == Gap(s)
    decreases |run|
  {
    if run != [] {
      StepKeepsGap(s, run[0]);
      GapOverRun(Step(s, run[0]), run[1..]);
    }
  }

  predicate Kept(before: Option<Row>, after: Option<Row>) {
    before.Some? ==>
      && after.Some? && after.value.amount == before.value.amount && after.value.miss == before.value.miss
      && (before.value.executed ==> after.value.executed) && (before.value.settled ==> after.value.settled)
  }

  /** A key, once used, keeps its amount for ever, and is executed at most once, whatever later runs compute. */
  lemma {:induction false} RowsAreWrittenOnce(s: State, run: seq<Event>, kind: Kind)
    ensures Kept(RowOf(s, kind), RowOf(Run(s, run), kind))
    decreases |run|
  {
    if run != [] {
      RowsAreWrittenOnce(Step(s, run[0]), run[1..], kind);
    }
  }

  /** What the world does to the debt and to the orders in flight; and a crash forgets what was read, nothing else. */
  lemma WorldMoves(s: State, n: int)
    ensures Owed(Step(s, Spend(n))) == Owed(s) && Step(s, Spend(n)).inFlight == s.inFlight
    ensures 0 < n <= s.wallet ==> Step(s, Spend(n)).consumed == s.consumed + n
    ensures n <= 0 || n > s.wallet ==> Step(s, Spend(n)) == s
    ensures Step(s, Foreign(n)).evidence == s.evidence + n && Owed(Step(s, Foreign(n))) == Owed(s)
    ensures Step(s, Foreign(n)).inFlight == s.inFlight && Step(s, Foreign(n)).reader == s.reader
    ensures Owed(Step(s, Evidence(n))) == Owed(s) + n && Step(s, Evidence(n)).inFlight == s.inFlight + n
    ensures Step(s, Evidence(n)).wallet == s.wallet && Step(s, Evidence(n)).reader == s.reader
    ensures Owed(Step(s, Credit(n))) == Owed(s) - n && Step(s, Credit(n)).inFlight == s.inFlight - n
    ensures Step(s, Credit(n)).evidence == s.evidence && Step(s, Credit(n)).reader == s.reader
    ensures Step(s, Crash) == s.(reader := Step(s, Crash).reader) && Step(Step(s, Crash), Apply) == Step(s, Crash)
    ensures Step(Step(s, Crash), ReadConsumption) == Step(Step(s, Crash), ReadAccount) == Step(s, Crash)
  {
  }

  // ---------- Clean reads: exactly once ----------

  /**
   * A completed read is clean if nothing was spent inside it and it missed no credit whose proof it saw, or the
   * reverse.
   */
  predicate CleanReads(s: State, run: seq<Event>)
    decreases |run|
  {
    run != [] ==>
      && (run[0].ReadAccount? && s.reader.HasConsumption? ==> Slack(s) == 0 && Pending(s) == 0)
      && CleanReads(Step(s, run[0]), run[1..])
  }

  predicate RowIs(row: Option<Row>, amount: int) {
    row.Some? ==> amount > 0 && row.value.amount == amount && (row.value.settled ==> row.value.executed)
  }

  predicate ReadIs(s: State, entitled: int, evidenceThen: int, d: int) {
    entitled == evidenceThen || (entitled == evidenceThen + d && Moved(s) == d)
  }

  predicate CleanInv(s: State, d: int) {
    && Gap(s) == d
    && RowIs(s.grant, d) && RowIs(s.revoke, -d)
    && (s.reader.HasEntitled? || s.reader.HasConsumption? ==> ReadIs(s, s.reader.entitled, s.reader.evidenceThen, d))
    && (s.reader.Computed? ==> s.reader.delta == 0 || s.reader.delta == d)
  }

  lemma CleanStepKeepsInv(s: State, e: Event, d: int)
    requires CleanInv(s, d)
    requires e.ReadAccount? && s.reader.HasConsumption? ==> Slack(s) == 0 && Pending(s) == 0
    ensures CleanInv(Step(s, e), d)
  {
    StepKeepsGap(s, e);
  }

  lemma {:induction false} CleanRunKeepsInv(s: State, run: seq<Event>, d: int)
    requires CleanInv(s, d) && CleanReads(s, run)
    ensures CleanInv(Run(s, run), d)
    decreases |run|
  {
    if run != [] {
      CleanStepKeepsInv(s, run[0], d);
      CleanRunKeepsInv(Step(s, run[0]), run[1..], d);
    }
  }

  /**
   * Any number of runs of the batch, crashes between any two steps, spending and orders at any time a read is not
   * disturbed by: the wallet is adjusted by the initial gap or not at all, never twice, and once adjusted it equals
   * entitlement minus consumption as soon as no order is in flight.
   */
  lemma AdjustedExactlyOnce(s: State, run: seq<Event>)
    requires Fresh(s) && CleanReads(s, run)
    ensures var t := Run(s, run);
            && (Moved(t) == 0 || Moved(t) == Gap(s))
            && (Moved(t) == Gap(s) <==> t.wallet == t.evidence - t.consumed - t.inFlight)
  {
    CleanRunKeepsInv(s, run, Gap(s));
  }

  lemma RunCons(s: State, e: Event, rest: seq<Event>)
    ensures Run(s, [e] + rest) == Run(Step(s, e), rest)
  {
    assert ([e] + rest)[1..] == rest;
  }

  lemma RunTwo(s: State, a: Event, b: Event)
    ensures Run(s, [a, b]) == Step(Step(s, a), b)
  {
    assert [a, b] == [a] + [b] && [b] == [b] + [];
    RunCons(s, a, [b]);
    RunCons(Step(s, a), b, []);
  }

  lemma RunThree(s: State, a: Event, b: Event, c: Event)
    ensures Run(s, [a, b, c]) == Step(Step(Step(s, a), b), c)
  {
    assert [a, b, c] == [a] + [b, c];
    RunCons(s, a, [b, c]);
    RunTwo(Step(s, a), b, c);
  }

  /**
   * A rerun after the row succeeded does not compute zero. It computes the same delta again, and what is in flight on
   * top, since the batch's own event now counts as entitlement; unless the target turns negative: then the user goes
   * to the manual list.
   */
  lemma RerunComputesTheSameDelta(s: State, run: seq<Event>)
    requires Fresh(s) && CleanReads(s, run)
    requires exists kind :: RowOf(Run(s, run), kind).Some? && RowOf(Run(s, run), kind).value.settled
    ensures var t := Run(s, run);
            var delta := Gap(s) + t.inFlight;
            Run(t, [ReadEntitled, ReadConsumption, ReadAccount])
            == t.(reader := if t.wallet + delta < 0 then Idle else Computed(delta, Miss(0, t.inFlight, 0)))
  {
    CleanRunKeepsInv(s, run, Gap(s));
    RunThree(Run(s, run), ReadEntitled, ReadConsumption, ReadAccount);
  }

  /** One undisturbed pass, and what follows when its command succeeds. */
  function PassThatSucceeds(kind: Kind): seq<Event> {
    [ReadEntitled, ReadConsumption, ReadAccount] + [Apply, Execute(kind), Settle(kind)]
  }

  function KindOfGap(d: int): Kind {
    if d > 0 then Grant else Revoke
  }

  function AfterSuccess(s: State, d: int): State
    requires d != 0
  {
    WithRow(s.(wallet := s.wallet + d), KindOfGap(d), Row(if d > 0 then d else -d, Miss(0, 0, 0), true, true))
  }

  lemma PassSucceeds(s: State, d: int)
    requires Fresh(s) && s.inFlight == 0 && d == Owed(s) != 0 && s.evidence >= s.consumed && s.wallet + d >= 0
    requires d < 0 ==> -d <= s.wallet
    ensures Run(s, PassThatSucceeds(KindOfGap(d))) == AfterSuccess(s, d)
  {
    var computed := s.(reader := Computed(d, Miss(0, 0, 0)));
    ReadsCompute(s, d);
    RunApp(s, [ReadEntitled, ReadConsumption, ReadAccount], [Apply, Execute(KindOfGap(d)), Settle(KindOfGap(d))]);
    CommandSucceeds(computed, d);
  }

  lemma ReadsCompute(s: State, d: int)
    requires Fresh(s) && s.inFlight == 0 && d == Owed(s) && s.wallet + d >= 0
    ensures Run(s, [ReadEntitled, ReadConsumption, ReadAccount]) == s.(reader := Computed(d, Miss(0, 0, 0)))
  {
    var read := Step(Step(s, ReadEntitled), ReadConsumption);
    assert read == s.(reader := HasConsumption(s.evidence, s.evidence, s.consumed));
    RunThree(s, ReadEntitled, ReadConsumption, ReadAccount);
  }

  lemma CommandSucceeds(s: State, d: int)
    requires s.grant.None? && s.revoke.None? && s.reader == Computed(d, Miss(0, 0, 0)) && d != 0
    requires d < 0 ==> -d <= s.wallet
    ensures Run(s, [Apply, Execute(KindOfGap(d)), Settle(KindOfGap(d))]) == AfterSuccess(s.(reader := Idle), d)
  {
    var kind, amount := KindOfGap(d), if d > 0 then d else -d;
    var asked := Step(s, Apply);
    assert asked == WithRow(s.(reader := Idle), kind, Row(amount, Miss(0, 0, 0), false, false));
    RunThree(s, Apply, Execute(kind), Settle(kind));
  }

  /** For instance from every fresh state with a debt: the pass settles it, and the next one computes the same again. */
  lemma NextPassComputesTheSame(s: State, d: int)
    requires Fresh(s) && s.inFlight == 0 && d == Owed(s) != 0 && s.evidence >= s.consumed && s.wallet + d >= 0
    requires d < 0 ==> -d <= s.wallet
    ensures var t := Run(s, PassThatSucceeds(KindOfGap(d)));
            && t.wallet == t.evidence - t.consumed
            && (t.wallet + d >= 0 ==>
                  Run(t, [ReadEntitled, ReadConsumption, ReadAccount]).reader == Computed(d, Miss(0, 0, 0)))
  {
    PassSucceeds(s, d);
    var t := AfterSuccess(s, d);
    RunThree(t, ReadEntitled, ReadConsumption, ReadAccount);
  }

  // ---------- Reads that are not clean ----------

  /** A row moves the gap, plus what its reads missed. */
  predicate RowMoves(row: Option<Row>, kind: Kind, d: int) {
    row.Some? ==> Sign(kind) * row.value.amount == d + row.value.miss.Sum() && row.value.miss.slack >= 0
  }

  predicate RowsInv(s: State, d: int) {
    && Gap(s) == d
    && (s.reader.HasConsumption? ==> Slack(s) >= 0)
    && (s.reader.Computed? ==> s.reader.delta == d + s.reader.miss.Sum() && s.reader.miss.slack >= 0)
    && RowMoves(s.grant, Grant, d) && RowMoves(s.revoke, Revoke, d)
  }

  lemma RowsStep(s: State, e: Event, d: int)
    requires RowsInv(s, d)
    ensures RowsInv(Step(s, e), d)
  {
    StepKeepsGap(s, e);
  }

  lemma {:induction false} RowsRun(s: State, run: seq<Event>, d: int)
    requires RowsInv(s, d)
    ensures RowsInv(Run(s, run), d)
    decreases |run|
  {
    if run != [] {
      RowsStep(s, run[0], d);
      RowsRun(Step(s, run[0]), run[1..], d);
    }
  }

  /** What an executed row adds to the wallet. */
  function Adds(row: Option<Row>, d: int): int {
    if row.Some? && row.value.executed then d + row.value.miss.Sum() else 0
  }

  /** How far the wallet is above entitlement minus consumption, the orders in flight counted as delivered. */
  function Excess(s: State): int {
    s.wallet + s.inFlight - (s.evidence - s.consumed)
  }

  /**
   * Over every run, with either key, both or none in use: the wallet is off by the gap each executed row closes once
   * more than needed, plus all that the reads behind those rows missed. Once no order is in flight it is right if and
   * only if that is zero.
   */
  lemma WalletIsRightIff(s: State, run: seq<Event>)
    requires Fresh(s)
    ensures var t, d := Run(s, run), Gap(s);
            && Excess(t) == Adds(t.grant, d) + Adds(t.revoke, d) - d
            && (t.inFlight == 0 ==>
                  (t.wallet == t.evidence - t.consumed <==> Adds(t.grant, d) + Adds(t.revoke, d) == d))
  {
    RowsRun(s, run, Gap(s));
  }

  /** When both rows are executed, what their reads missed has to undo the gap. */
  lemma BothKeysRightIff(s: State, run: seq<Event>)
    requires Fresh(s) && Run(s, run).grant.Some? && Run(s, run).revoke.Some?
    requires Run(s, run).grant.value.executed && Run(s, run).revoke.value.executed && Run(s, run).inFlight == 0
    ensures var t := Run(s, run);
            t.wallet == t.evidence - t.consumed
            <==> t.grant.value.miss.Sum() + t.revoke.value.miss.Sum() == -Gap(s)
  {
    WalletIsRightIff(s, run);
  }

  predicate NoRows(s: State) {
    s.grant.None? && s.revoke.None?
  }

  /** Reads that met no row of the batch carry nothing. */
  predicate FirstRowInv(s: State) {
    && (NoRows(s) ==>
          && (s.reader.HasEntitled? || s.reader.HasConsumption? ==> s.reader.entitled == s.reader.evidenceThen)
          && (s.reader.Computed? ==> s.reader.miss.carried == 0))
    && (s.grant.Some? && s.revoke.None? ==> s.grant.value.miss.carried == 0)
    && (s.revoke.Some? && s.grant.None? ==> s.revoke.value.miss.carried == 0)
  }

  lemma {:induction false} FirstRowRun(s: State, run: seq<Event>)
    requires FirstRowInv(s)
    ensures FirstRowInv(Run(s, run))
    decreases |run|
  {
    if run != [] {
      FirstRowRun(Step(s, run[0]), run[1..]);
    }
  }

  /**
   * While only one key is in use, its row executed and no order in flight, the wallet is right if and only if what was
   * spent between the reads and what was pending at them cancel; if orders are never delivered ahead of their proof,
   * only if both are zero.
   */
  lemma OneKeyRightIff(s: State, run: seq<Event>, kind: Kind)
    requires Fresh(s)
    requires RowOf(Run(s, run), kind).Some? && RowOf(Run(s, run), kind).value.executed
    requires RowOf(Run(s, run), if kind.Grant? then Revoke else Grant).None?
    ensures var t := Run(s, run);
            var miss := RowOf(t, kind).value.miss;
            && Excess(t) == miss.slack + miss.pending
            && (t.inFlight == 0 ==> (t.wallet == t.evidence - t.consumed <==> miss.slack + miss.pending == 0))
            && (t.inFlight == 0 && miss.pending >= 0 ==>
                  (t.wallet == t.evidence - t.consumed <==> miss.slack == 0 && miss.pending == 0))
  {
    WalletIsRightIff(s, run);
    RowsRun(s, run, Gap(s));
    FirstRowRun(s, run);
  }

  // ---------- When a rerun is not absorbed ----------

  /** With one key in use, applying again changes no row exactly when the new delta has not the opposite sign. */
  lemma RerunAbsorbedIff(s: State, kind: Kind)
    requires s.reader.Computed? && RowOf(s, kind).Some?
    requires RowOf(s, if kind.Grant? then Revoke else Grant).None?
    ensures Step(s, Apply) == s.(reader := Idle) <==> Sign(kind) * s.reader.delta >= 0
  {
  }

  lemma RunApp(s: State, a: seq<Event>, b: seq<Event>)
    ensures Run(s, a + b) == Run(Run(s, a), b)
    decreases |a|
  {
    if a == [] {
      assert a + b == b;
    } else {
      assert (a + b)[1..] == a[1..] + b;
      RunApp(Step(s, a[0]), a[1..], b);
    }
  }

  function OnePass(spent: int): seq<Event> {
    [ReadEntitled, ReadConsumption, Spend(spent), ReadAccount, Apply]
  }

  lemma RunFive(s: State, a: Event, b: Event, c: Event, d: Event, e: Event)
    ensures Run(s, [a, b, c, d, e]) == Step(Step(Step(Step(Step(s, a), b), c), d), e)
  {
    assert [a, b, c, d, e] == [a, b] + [c, d, e];
    RunApp(s, [a, b], [c, d, e]);
    RunTwo(s, a, b);
    RunThree(Step(Step(s, a), b), c, d, e);
  }

  /** A state after the three reads of one pass, with `spent` between the last two. */
  function AfterReads(s: State, spent: int): State {
    s.(wallet := s.wallet - spent, consumed := s.consumed + spent,
       reader := Computed(s.evidence + Settled(s) - s.consumed - (s.wallet - spent),
                          Miss(spent, s.inFlight, Settled(s) - Moved(s))))
  }

  predicate CanPass(s: State, spent: int) {
    (spent == 0 || 0 < spent <= s.wallet) && s.evidence + Settled(s) >= s.consumed
  }

  lemma PassSteps(s: State, spent: int)
    requires CanPass(s, spent)
    ensures Step(Step(Step(Step(s, ReadEntitled), ReadConsumption), Spend(spent)), ReadAccount) == AfterReads(s, spent)
  {
    var read := Step(Step(s, ReadEntitled), ReadConsumption);
    assert read == s.(reader := HasConsumption(s.evidence + Settled(s), s.evidence, s.consumed));
  }

  lemma RunPass(s: State, spent: int, t: State)
    requires CanPass(s, spent) && t == Step(AfterReads(s, spent), Apply)
    ensures Run(s, OnePass(spent)) == t
  {
    PassSteps(s, spent);
    RunFive(s, ReadEntitled, ReadConsumption, Spend(spent), ReadAccount, Apply);
  }

  lemma RunThenThen(s: State, a: seq<Event>, u: State, b: seq<Event>, v: State, c: seq<Event>)
    requires Run(s, a) == u && Run(u, b) == v
    ensures Run(s, a + b + c) == Run(v, c)
  {
    RunApp(s, a + b, c);
    RunApp(s, a, b);
  }

  /**
   * After every run that uses one key: another pass, undisturbed, leaves the rows as they are exactly if the gap with
   * the orders in flight, and with what the batch's rows count as entitlement beyond what they moved, has not the
   * opposite sign; otherwise it takes the other key.
   */
  lemma RerunOverRunsAbsorbedIff(s: State, run: seq<Event>, kind: Kind)
    requires Fresh(s) && RowOf(Run(s, run), kind).Some?
    requires RowOf(Run(s, run), if kind.Grant? then Revoke else Grant).None?
    requires Run(s, run).evidence + Settled(Run(s, run)) >= Run(s, run).consumed
    ensures var t := Run(s, run);
            var u := Run(t, OnePass(0));
            u.grant == t.grant && u.revoke == t.revoke
            <==> Sign(kind) * (Gap(s) + t.inFlight + Settled(t) - Moved(t)) >= 0
  {
    var t := Run(s, run);
    GapOverRun(s, run);
    RunPass(t, 0, Step(AfterReads(t, 0), Apply));
  }

  /**
   * The rerun safety the script claims does not hold in general. A wallet that is `over` too high gets its revocation
   * enqueued; the batch is run again while more than that is spent between its two reads. It now computes a grant,
   * which has another key. Both apply, and the wallet ends up too high again.
   */
  lemma RerunAppliesBothKeys(s: State, over: int, spent: int)
    requires Fresh(s) && Owed(s) == -over && s.evidence >= s.consumed
    requires 0 < over < spent && spent + over <= s.wallet
    ensures var t := Run(s, OnePass(0) + OnePass(spent) + [Execute(Revoke), Execute(Grant)]);
            && t.revoke == Some(Row(over, Miss(0, s.inFlight, 0), true, false))
            && t.grant == Some(Row(spent - over, Miss(spent, s.inFlight, 0), true, false))
            && t.wallet == t.evidence - t.consumed + (spent - over)
  {
    var u := FirstPassRevokes(s, over);
    var v := SecondPassGrants(u, over, spent);
    RunThenThen(s, OnePass(0), u, OnePass(spent), v, [Execute(Revoke), Execute(Grant)]);
    RunTwo(v, Execute(Revoke), Execute(Grant));
  }

  lemma FirstPassRevokes(s: State, over: int) returns (u: State)
    requires Fresh(s) && Owed(s) == -over && s.evidence >= s.consumed && over > 0
    ensures Run(s, OnePass(0)) == u && u == s.(revoke := Some(Row(over, Miss(0, s.inFlight, 0), false, false)))
  {
    u := s.(revoke := Some(Row(over, Miss(0, s.inFlight, 0), false, false)));
    RunPass(s, 0, u);
  }

  lemma SecondPassGrants(u: State, over: int, spent: int) returns (v: State)
    requires u.grant.None? && u.revoke.Some? && !u.revoke.value.executed && !u.revoke.value.settled && u.reader.Idle?
    requires Owed(u) == -over && u.evidence >= u.consumed && 0 < over < spent <= u.wallet
    ensures Run(u, OnePass(spent)) == v
    ensures v == u.(wallet := u.wallet - spent, consumed := u.consumed + spent,
                    grant := Some(Row(spent - over, Miss(spent, u.inFlight, 0), false, false)))
  {
    v := u.(wallet := u.wallet - spent, consumed := u.consumed + spent,
            grant := Some(Row(spent - over, Miss(spent, u.inFlight, 0), false, false)));
    RunPass(u, spent, v);
  }

  /**
   * An order paid but not yet delivered counts as entitlement: the batch makes the wallet meet it, and then the
   * delivery comes on top, whatever the wallet was before.
   */
  lemma PaidOrderIsCreditedTwice(s: State, n: int)
    requires Fresh(s) && s.evidence + n >= s.consumed
    ensures var t := Run(s, [Evidence(n)] + OnePass(0) + [Execute(Grant), Execute(Revoke), Credit(n)]);
            t.inFlight == s.inFlight && t.wallet == t.evidence - t.consumed + n
  {
    var paid := Step(s, Evidence(n));
    var delta := Owed(s) + n;
    var computed := paid.(reader := Computed(delta, Miss(0, paid.inFlight, 0)));
    var applied := Step(computed, Apply);
    assert [Evidence(n)] == [Evidence(n)] + [];
    RunCons(s, Evidence(n), []);
    RunPass(paid, 0, applied);
    RunThenThen(s, [Evidence(n)], paid, OnePass(0), applied, [Execute(Grant), Execute(Revoke), Credit(n)]);
    RunThree(applied, Execute(Grant), Execute(Revoke), Credit(n));
  }
}
