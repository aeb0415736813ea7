/** What the 30 days before a purge promise, what they do not, and how a purge ends. */
module CloudNodeCountdown {
  import opened Options
  import opened CloudNodeRetention

  // ---------- Every purge follows its own mark ----------

  /** The deadline the log leaves standing: set by a mark, cleared by a restore. */
  function Countdown(log: seq<Entry>): Option<int>
    decreases |log|
  {
    if log == [] then None
    else
      match log[|log| - 1]
      case MarkedAt(at, _) => Some(at + RETENTION)
      case RestoredAt(_, _, _) => None
      case _ => Countdown(log[..|log| - 1])
  }

  /**
   * The purge at `k` was made against an owner without entitlement, against the mark at `j`, with no restore between.
   */
  ghost predicate FollowsMark(log: seq<Entry>, j: nat, k: nat) {
    && j < k < |log| && log[k].PurgedAt? && log[j].MarkedAt?
    && log[j].at + RETENTION < log[k].at && !log[k].entitled
    && forall i :: j < i < k ==> !log[i].RestoredAt? && !log[i].MarkedAt?
  }

  ghost predicate PurgesFollowMarks(log: seq<Entry>) {
    forall k :: 0 <= k < |log| && log[k].PurgedAt? ==> exists j: nat :: FollowsMark(log, j, k)
  }

  lemma {:induction false} CountdownHasItsMark(log: seq<Entry>) returns (j: nat)
    requires Countdown(log).Some?
    ensures j < |log| && log[j].MarkedAt? && log[j].at == Countdown(log).value - RETENTION
    ensures forall i :: j < i < |log| ==> !log[i].RestoredAt? && !log[i].MarkedAt?
    decreases |log|
  {
    var last := |log| - 1;
    if log[last].MarkedAt? {
      j := last;
    } else {
      j := CountdownHasItsMark(log[..last]);
    }
  }

  /** The log ends in a mark with no start after it. */
  predicate Resting(log: seq<Entry>)
    decreases |log|
  {
    log != [] &&
    match log[|log| - 1]
    case MarkedAt(_, _) => true
    case StartedAt(_) => false
    case RestoredAt(_, runs, _) => !runs && Resting(log[..|log| - 1])
    case PurgedAt(_, _) => Resting(log[..|log| - 1])
  }

  ghost predicate TimesAscend(log: seq<Entry>, clock: int) {
    && (forall i, j :: 0 <= i < j < |log| ==> log[i].at <= log[j].at)
    && (forall i :: 0 <= i < |log| ==> log[i].at <= clock)
  }

  /** A sweep's purge still holds the row it began with. */
  predicate PurgeHolds(s: State) {
    s.txn.Some? && !s.txn.value.byOwner ==> s.node.status.Stopped? && s.node.retainUntil.Some?
  }

  ghost predicate Inv(s: State) {
    && (s.node.retainUntil.Some? ==> Countdown(s.log) == s.node.retainUntil)
    && PurgesFollowMarks(s.log)
    && TimesAscend(s.log, s.clock)
    && (Resting(s.log) ==> !s.node.running)
    && (s.node.running ==> s.node.volume)
    && PurgeHolds(s)
  }

  lemma AppendKeepsPurges(log: seq<Entry>, e: Entry)
    requires PurgesFollowMarks(log)
    requires e.PurgedAt? ==> exists j: nat :: FollowsMark(log + [e], j, |log|)
    ensures PurgesFollowMarks(log + [e])
  {
    var longer := log + [e];
    forall k | 0 <= k < |longer| && longer[k].PurgedAt?
      ensures exists j: nat :: FollowsMark(longer, j, k)
    {
      if k < |log| {
        var j: nat :| FollowsMark(log, j, k);
        assert FollowsMark(longer, j, k);
      }
    }
  }

  lemma CountdownAppend(log: seq<Entry>, e: Entry)
    ensures Countdown(log + [e]) == match e
                                    case MarkedAt(at, _) => Some(at + RETENTION)
                                    case RestoredAt(_, _, _) => None
                                    case _ => Countdown(log)
    ensures Resting(log + [e]) <==> e.MarkedAt? || (!e.Starts() && Resting(log))
  {
    assert (log + [e])[..|log|] == log;
  }

  lemma PurgeFollowsMark(log: seq<Entry>, e: Entry)
    requires PurgesFollowMarks(log) && e.PurgedAt? && !e.entitled
    requires Countdown(log).Some? && Countdown(log).value < e.at
    ensures PurgesFollowMarks(log + [e])
  {
    var j := CountdownHasItsMark(log);
    assert FollowsMark(log + [e], j, |log|);
    AppendKeepsPurges(log, e);
  }

  lemma PurgeBeginsKeepsInv(s: State, sweepNow: int, entitled: bool)
    requires Inv(s)
    ensures Inv(Step(s, PurgeBegins(sweepNow, entitled)))
  {
    var t := Step(s, PurgeBegins(sweepNow, entitled));
    if t != s {
      PurgeFollowsMark(s.log, PurgedAt(s.clock, entitled));
      CountdownAppend(s.log, PurgedAt(s.clock, entitled));
    }
  }

  lemma RestoreKeepsInv(s: State, entitled: bool, start: StartAnswer, commits: bool)
    requires Inv(s)
    ensures Inv(Step(s, Restore(entitled, start, commits)))
  {
    var t := Step(s, Restore(entitled, start, commits));
    LoggedKeepsInv(s, t,
                   if commits then RestoredAt(s.clock, RestoreHost(s.node, entitled, start), entitled)
                   else StartedAt(s.clock));
  }

  lemma RetainKeepsInv(s: State, entitled: bool, stop: StopAnswer, commits: bool)
    requires Inv(s)
    ensures Inv(Step(s, Retain(entitled, stop, commits)))
  {
    LoggedKeepsInv(s, Step(s, Retain(entitled, stop, commits)), MarkedAt(s.clock, entitled));
  }

  lemma CallsKeepsInv(s: State, r: nat, answer: HostAnswer)
    requires Inv(s)
    ensures Inv(Step(s, Calls(r, answer)))
  {
    LoggedKeepsInv(s, Step(s, Calls(r, answer)), StartedAt(s.clock));
  }

  lemma SweepKeepsInv(s: State, e: Event)
    requires Inv(s)
    ensures Inv(SweepStep(s, e))
  {
    match e
    case PurgeBegins(sweepNow, entitled) => PurgeBeginsKeepsInv(s, sweepNow, entitled);
    case Retain(entitled, stop, commits) => RetainKeepsInv(s, entitled, stop, commits);
    case Restore(entitled, start, commits) => RestoreKeepsInv(s, entitled, start, commits);
    case _ =>
  }

  lemma RequestKeepsInv(s: State, e: Event)
    requires Inv(s)
    ensures Inv(RequestStep(s, e))
  {
    match e
    case Calls(r, answer) => CallsKeepsInv(s, r, answer);
    case _ => QuietKeepsInv(s, RequestStep(s, e));
  }

  lemma WorldKeepsInv(s: State, e: Event)
    requires Inv(s) && ActorOf(e).World?
    ensures Inv(Step(s, e))
  {
    match e
    case HostStarts => LoggedKeepsInv(s, Step(s, e), StartedAt(s.clock));
    case _ => QuietKeepsInv(s, Step(s, e));
  }

  lemma StepKeepsInv(s: State, e: Event)
    requires Inv(s)
    ensures Inv(Step(s, e))
  {
    match ActorOf(e)
    case World => WorldKeepsInv(s, e);
    case Sweeper => SweepKeepsInv(s, e);
    case Purger =>
      if s.txn.Some? {
        PurgeStepKeepsInv(s, s.txn.value, e);
      }
    case Requester => RequestKeepsInv(s, e);
    case Sessions => QuietKeepsInv(s, SessionStep(s, e));
  }

  /** A step that logs nothing and brings nothing up. */
  lemma QuietKeepsInv(s: State, t: State)
    requires Inv(s) && t.log == s.log && t.clock >= s.clock
    requires t.node.running ==> s.node.running && t.node.volume
    requires t.node.retainUntil.Some? ==> t.node.retainUntil == s.node.retainUntil
    requires PurgeHolds(t)
    ensures Inv(t)
  {
  }

  lemma PurgeStepKeepsInv(s: State, txn: Txn, e: Event)
    requires Inv(s) && s.txn == Some(txn)
    ensures Inv(PurgeStep(s, txn, e))
  {
    QuietKeepsInv(s, PurgeStep(s, txn, e));
  }

  lemma LoggedKeepsInv(s: State, t: State, entry: Entry)
    requires Inv(s) && !entry.PurgedAt? && entry.at == s.clock == t.clock
    requires t.log == s.log || t.log == s.log + [entry]
    requires t.node.running ==> t.node.volume
    requires t.txn == s.txn && PurgeHolds(t)
    requires t.node.retainUntil.Some? ==>
               t.node.retainUntil == if t.log == s.log || entry.StartedAt? then s.node.retainUntil
                                     else if entry.MarkedAt? then Some(entry.at + RETENTION) else None
    requires t.node.running && !s.node.running ==> t.log != s.log && entry.Starts()
    requires t.log != s.log && entry.MarkedAt? ==> !t.node.running
    ensures Inv(t)
  {
    CountdownAppend(s.log, entry);
    AppendKeepsPurges(s.log, entry);
  }

  lemma {:induction false} RunKeepsInv(s: State, events: seq<Event>)
    requires Inv(s)
    ensures Inv(Run(s, events))
    decreases |events|
  {
    if events != [] {
      StepKeepsInv(s, events[0]);
      RunKeepsInv(Step(s, events[0]), events[1..]);
    }
  }

  lemma BornIsInv(clock: int, birth: Birth)
    ensures Inv(Born(clock, birth))
  {
  }

  /**
   * Whatever owners, hosts, entitlements and failed commits do: each purge comes more than 30 days after a
   * committed mark that nothing has restored since, and its owner was not entitled when the row was locked.
   */
  lemma EveryPurgeFollowsAMark(clock: int, birth: Birth, events: seq<Event>, k: nat)
    requires k < |Run(Born(clock, birth), events).log| && Run(Born(clock, birth), events).log[k].PurgedAt?
    ensures exists j: nat :: FollowsMark(Run(Born(clock, birth), events).log, j, k)
  {
    RunKeepsInv(Born(clock, birth), events);
  }

  // ---------- Entitlement under the lock ----------

  predicate Respects(e: Entry) {
    match e
    case MarkedAt(_, entitled) => !entitled
    case RestoredAt(_, _, entitled) => entitled
    case PurgedAt(_, entitled) => !entitled
    case StartedAt(_) => true
  }

  /** A step logs at most one entry, and that entry respects what the code saw of the entitlement. */
  lemma StepRespects(s: State, e: Event)
    ensures s.log <= Step(s, e).log && |Step(s, e).log| <= |s.log| + 1
    ensures |Step(s, e).log| > |s.log| ==> Respects(Step(s, e).log[|s.log|])
  {
  }

  /** Over every run: nobody entitled is marked or purged, and nobody else restored. */
  lemma {:induction false} EntitlementIsRespected(s: State, events: seq<Event>, k: nat)
    requires forall i :: 0 <= i < |s.log| ==> Respects(s.log[i])
    requires k < |Run(s, events).log|
    ensures Respects(Run(s, events).log[k])
    decreases |events|
  {
    if events != [] {
      StepRespects(s, events[0]);
      var t := Step(s, events[0]);
      forall i | 0 <= i < |t.log|
        ensures Respects(t.log[i])
      {
        assert i < |s.log| ==> t.log[i] == s.log[i];
      }
      EntitlementIsRespected(t, events[1..], k);
    }
  }

  /** Seen under the lock it leaves row and host alone: entitled owners' in retention and purge, others' in restore. */
  lemma EntitledIsLeftAlone(s: State, now: int, stop: StopAnswer, start: StartAnswer, commits: bool)
    ensures Step(s, Retain(true, stop, commits)) == s
    ensures Step(s, Restore(false, start, commits)) == s
    ensures Step(s, PurgeBegins(now, true)) == s
  {
  }

  /** A stopped or retired row is not marked again, and one without a countdown or retired is not restored. */
  lemma NothingToDo(s: State, entitled: bool, stop: StopAnswer, start: StartAnswer, commits: bool)
    ensures s.node.status.Stopped? || s.node.Retired() ==> Step(s, Retain(entitled, stop, commits)) == s
    ensures s.node.retainUntil.None? || s.node.Retired() ==> Step(s, Restore(entitled, start, commits)) == s
  {
  }

  /** So no number of further sweeps moves the deadline of a node that rests. */
  lemma {:induction false} DeadlineIsNotMoved(s: State, events: seq<Event>)
    requires s.node.status.Stopped?
    requires forall i :: 0 <= i < |events| ==> events[i].Retain? || events[i].Tick?
    ensures Run(s, events).node == s.node && Run(s, events).log == s.log
    decreases |events|
  {
    if events != [] {
      assert events[0].Retain? || events[0].Tick?;
      DeadlineIsNotMoved(Step(s, events[0]), events[1..]);
    }
  }

  // ---------- What the retention period does not promise ----------

  /** A step brings a resting container up exactly when it logs a start. */
  lemma StartsIffLogged(s: State, e: Event)
    requires Inv(s) && !s.node.running
    ensures s.log <= Step(s, e).log <= s.log + Step(s, e).log[|s.log|..] && |Step(s, e).log| <= |s.log| + 1
    ensures Step(s, e).node.running <==> |Step(s, e).log| > |s.log| && Step(s, e).log[|s.log|].Starts()
  {
  }

  /** The host starts the container by itself, a request has it started, or a restore that is not committed did. */
  predicate LeavesItUp(s: State, e: Event) {
    || (e.HostStarts? && s.node.volume)
    || (e.Calls? && CanCall(s, e.r) && RunsAfter(s.node, s.pending[e.r].request, e.answer)
        && (s.pending[e.r].request.Start? || s.pending[e.r].request.Restart? || s.pending[e.r].request.Resize?
            || s.pending[e.r].request.Reauthorize?))
    || (e.Restore? && s.txn.None? && !e.commits && RestoreVerdict(s.node, e.entitled, e.start) != Untouched
        && RestoreHost(s.node, e.entitled, e.start))
  }

  /** Whatever ran before, exactly these are logged as starts, at their time. */
  lemma LoggedStartIff(s: State, e: Event)
    ensures LeavesItUp(s, e) ==> Step(s, e).log == s.log + [StartedAt(s.clock)]
    ensures !LeavesItUp(s, e) ==> forall i :: |s.log| <= i < |Step(s, e).log| ==> !Step(s, e).log[i].StartedAt?
  {
  }

  /** No start in the log from entry `from` on. */
  ghost predicate NoStart(log: seq<Entry>, from: nat, upTo: nat) {
    forall x :: from <= x < upTo && x < |log| ==> !log[x].Starts()
  }

  ghost predicate RestsThroughout(s: State, events: seq<Event>) {
    forall i :: 0 <= i <= |events| ==> !Run(s, events[..i]).node.running
  }

  lemma RestsOneMore(s: State, init: seq<Event>, e: Event, events: seq<Event>)
    requires Inv(s) && events == init + [e] && s.log <= Run(s, init).log
    requires RestsThroughout(s, init) <==> NoStart(Run(s, init).log, |s.log|, |Run(s, init).log|)
    ensures s.log <= Run(s, events).log
    ensures RestsThroughout(s, events) <==> NoStart(Run(s, events).log, |s.log|, |Run(s, events).log|)
  {
    RunKeepsInv(s, init);
    RunSnoc(s, init, e);
    PrefixesSplit(s, init, e, events);
    LogGrows(Run(s, init), e);
    if RestsThroughout(s, init) {
      assert init[..|init|] == init;
      StartsIffLogged(Run(s, init), e);
    }
  }

  lemma {:induction false} RestsIff(s: State, events: seq<Event>)
    requires Inv(s) && !s.node.running
    ensures s.log <= Run(s, events).log
    ensures RestsThroughout(s, events) <==> NoStart(Run(s, events).log, |s.log|, |Run(s, events).log|)
    decreases |events|
  {
    if events == [] {
      assert events[..0] == [];
    } else {
      var n := |events| - 1;
      RestsIff(s, events[..n]);
      RestsOneMore(s, events[..n], events[n], events);
    }
  }

  lemma LogGrows(s: State, e: Event)
    ensures s.log <= Step(s, e).log
  {
  }

  lemma PrefixesSplit(s: State, init: seq<Event>, e: Event, events: seq<Event>)
    requires events == init + [e]
    ensures RestsThroughout(s, events) <==> RestsThroughout(s, init) && !Run(s, events).node.running
  {
    forall i | 0 <= i <= |init| ensures events[..i] == init[..i] {}
    assert events[..|events|] == events;
  }

  /**
   * Between a mark and the purge that follows it the container never ran exactly when the log has no start between
   * them; every start was then more than 30 days before the purge. The countdown itself promises nothing of the kind.
   */
  lemma RestedBeforePurgeIff(clock: int, birth: Birth, before: seq<Event>, between: seq<Event>, sweepNow: int,
                             entitled: bool, j: nat, k: nat)
    requires |Run(Born(clock, birth), before).log| == j + 1 && Run(Born(clock, birth), before).log[j].MarkedAt?
    requires |Run(Run(Born(clock, birth), before), between).log| == k
    requires FollowsMark(Step(Run(Run(Born(clock, birth), before), between), PurgeBegins(sweepNow, entitled)).log, j, k)
    ensures var s := Run(Born(clock, birth), before);
            var log := Step(Run(s, between), PurgeBegins(sweepNow, entitled)).log;
            && (RestsThroughout(s, between) <==> NoStart(log, j + 1, k))
            && (RestsThroughout(s, between) ==>
                forall x :: 0 <= x < k && log[x].Starts() ==> log[x].at + RETENTION < log[k].at)
  {
    var s := Run(Born(clock, birth), before);
    var t := Run(s, between);
    BornIsInv(clock, birth);
    RunKeepsInv(Born(clock, birth), before);
    RunKeepsInv(s, between);
    assert Resting(s.log);
    RestsIff(s, between);
    var log := Step(t, PurgeBegins(sweepNow, entitled)).log;
    assert t.log == log[..k];
    assert NoStart(log, j + 1, k) <==> NoStart(t.log, j + 1, k);
  }

  /** A request of the owner that the host grants, up to its write. */
  lemma HostGrants(s: State, r: nat, request: Request) returns (t: State)
    requires r !in s.pending && (request.Start? || request.Stop? || request.Restart?)
    ensures t == Step(Step(s, Loads(r, request)), Calls(r, HostOk))
    ensures t.pending == s.pending[r := Answered(request, SeenOf(s.node), s.node.codes)]
    ensures t.node == s.node.(running := RunsAfter(s.node, request, HostOk)) && t.txn == s.txn && t.clock == s.clock
    ensures t.log == if t.node.running && !request.Stop? then s.log + [StartedAt(s.clock)] else s.log
  {
    t := Step(Step(s, Loads(r, request)), Calls(r, HostOk));
  }

  lemma StartsAgain(s: State, r: nat) returns (t: State)
    requires s.txn.None? && s.node.volume && r !in s.pending
    ensures t == Step(Step(Step(s, Loads(r, Start)), Calls(r, HostOk)), Writes(r))
    ensures t.log == s.log + [StartedAt(s.clock)] && t.clock == s.clock && t.txn.None? && r !in t.pending
    ensures t.node.retainUntil == s.node.retainUntil
  {
    var granted := HostGrants(s, r, Start);
    t := Step(granted, Writes(r));
  }

  lemma StopsAgain(s: State, r: nat) returns (t: State)
    requires s.txn.None? && r !in s.pending
    ensures t == Step(Step(Step(s, Loads(r, Stop)), Calls(r, HostOk)), Writes(r))
    ensures t.log == s.log && t.clock == s.clock && t.txn.None? && t.node.status.Stopped?
    ensures t.node.retainUntil == s.node.retainUntil
  {
    var granted := HostGrants(s, r, Stop);
    t := Step(granted, Writes(r));
  }

  lemma OwnerStarts(s: State, r: nat, rest: seq<Event>) returns (t: State)
    requires s.txn.None? && s.node.volume && r !in s.pending
    ensures Run(s, [Loads(r, Start), Calls(r, HostOk), Writes(r)] + rest) == Run(t, rest)
    ensures t.log == s.log + [StartedAt(s.clock)] && t.clock == s.clock && t.txn.None? && r !in t.pending
    ensures t.node.retainUntil == s.node.retainUntil
  {
    t := StartsAgain(s, r);
    RunThreeTo(s, Loads(r, Start), Calls(r, HostOk), Writes(r), t, rest);
  }

  lemma OwnerStops(s: State, r: nat, rest: seq<Event>) returns (t: State)
    requires s.txn.None? && r !in s.pending
    ensures Run(s, [Loads(r, Stop), Calls(r, HostOk), Writes(r)] + rest) == Run(t, rest)
    ensures t.log == s.log && t.clock == s.clock && t.txn.None? && t.node.status.Stopped?
    ensures t.node.retainUntil == s.node.retainUntil
  {
    t := StopsAgain(s, r);
    RunThreeTo(s, Loads(r, Stop), Calls(r, HostOk), Writes(r), t, rest);
  }

  lemma Ticks(s: State, seconds: nat, rest: seq<Event>) returns (t: State)
    ensures Run(s, [Tick(seconds)] + rest) == Run(t, rest) && t == s.(clock := s.clock + seconds)
  {
    RunOne(s, Tick(seconds), rest);
    t := Step(s, Tick(seconds));
  }

  lemma SweepPurges(s: State) returns (t: State)
    requires s.txn.None? && Overdue(s.node, s.clock)
    ensures Run(s, [PurgeBegins(s.clock, false)] + []) == t && t.log == s.log + [PurgedAt(s.clock, false)]
  {
    RunOne(s, PurgeBegins(s.clock, false), []);
    t := Step(s, PurgeBegins(s.clock, false));
  }

  function OwnerStopsIt(r: nat, now: int): seq<Event> {
    [Loads(r, Stop), Calls(r, HostOk), Writes(r)] + ([PurgeBegins(now, false)] + [])
  }

  lemma StoppedAndPurged(s: State, r: nat)
    requires s.txn.None? && r !in s.pending && s.node.retainUntil.Some? && s.node.retainUntil.value < s.clock
    ensures Run(s, OwnerStopsIt(r, s.clock)).log == s.log + [PurgedAt(s.clock, false)]
  {
    var stopped := OwnerStops(s, r, [PurgeBegins(s.clock, false)] + []);
    var purged := SweepPurges(stopped);
  }

  lemma OwnerStartsAndWaits(s: State, r: nat, rest: seq<Event>) returns (t: State)
    requires s.txn.None? && s.node.volume && r !in s.pending
    ensures Run(s, [Loads(r, Start), Calls(r, HostOk), Writes(r)] + ([Tick(1)] + rest)) == Run(t, rest)
    ensures t.log == s.log + [StartedAt(s.clock)] && t.clock == s.clock + 1 && t.txn.None? && r !in t.pending
    ensures t.node.retainUntil == s.node.retainUntil
  {
    var started := OwnerStarts(s, r, [Tick(1)] + rest);
    t := Ticks(started, 1, rest);
  }

  function OwnerRunsItOnceMore(r: nat, deadline: int): seq<Event> {
    [Loads(r, Start), Calls(r, HostOk), Writes(r)] + ([Tick(1)] + OwnerStopsIt(r, deadline + 1))
  }

  /**
   * For instance: the owner of any retained node who starts it at its deadline, and stops it again a second later, can
   * lose it at the next sweep, right after it was last running.
   */
  lemma PurgedSecondsAfterRunning(s: State, r: nat)
    requires s.txn.None? && s.node.volume && s.node.retainUntil == Some(s.clock) && r !in s.pending
    ensures Run(s, OwnerRunsItOnceMore(r, s.clock)).log
            == s.log + [StartedAt(s.clock)] + [PurgedAt(s.clock + 1, false)]
  {
    var later := OwnerStartsAndWaits(s, r, OwnerStopsIt(r, s.clock + 1));
    StoppedAndPurged(later, r);
  }

  /** So can the owner of a new node whose subscription has ended. */
  lemma NewNodePurgedSecondsAfterRunning(clock: int, r: nat)
    ensures var late := clock + RETENTION;
            Run(Born(clock, Up), [Retain(false, StopOk, true)] + ([Tick(RETENTION)] + OwnerRunsItOnceMore(r, late))).log
            == [StartedAt(clock), MarkedAt(clock, false), StartedAt(late), PurgedAt(late + 1, false)]
  {
    var s := Born(clock, Up);
    var t := Step(s, Retain(false, StopOk, true));
    var u := Step(t, Tick(RETENTION));
    RunOne(s, Retain(false, StopOk, true), [Tick(RETENTION)] + OwnerRunsItOnceMore(r, clock + RETENTION));
    RunOne(t, Tick(RETENTION), OwnerRunsItOnceMore(r, clock + RETENTION));
    assert u.log == [StartedAt(clock), MarkedAt(clock, false)];
    assert u.node.retainUntil == Some(u.clock) && u.pending == map[];
    PurgedSecondsAfterRunning(u, r);
  }

  // ---------- How an attempted purge ends ----------

  /**
   * When the sweep's purge of a node ends, the row is a candidate of later sweeps exactly if nothing was committed,
   * stranded in `deleting` exactly if something was raised and the rest committed, and `deleted` exactly otherwise.
   */
  lemma PurgeEndsIff(clock: int, birth: Birth, events: seq<Event>, commits: bool)
    requires var s := Run(Born(clock, birth), events); s.txn.Some? && !s.txn.value.byOwner
    ensures var s := Run(Born(clock, birth), events);
            var t, stage := Step(s, PurgeEnds(commits)), s.txn.value.stage;
            && ((exists now :: Overdue(t.node, now)) <==> !Commits(s.txn.value, commits))
            && (t.node.status.Deleting? <==> commits && stage.Broken?)
            && (t.node.status.Deleted? <==> commits && stage.RowRetired?)
  {
    BornIsInv(clock, birth);
    RunKeepsInv(Born(clock, birth), events);
    var s := Run(Born(clock, birth), events);
    var t := Step(s, PurgeEnds(commits));
    if !Commits(s.txn.value, commits) {
      assert Overdue(t.node, t.node.retainUntil.value + 1);
    }
  }

  /** A row stranded in `deleting` is never touched by any later sweep. */
  lemma {:induction false} FailedPurgeIsNeverRetried(s: State, events: seq<Event>)
    requires s.node.status.Deleting? && s.txn.None?
    requires forall i :: 0 <= i < |events| ==> IsSweepStep(events[i]) || events[i].Tick?
    ensures Run(s, events).node == s.node && Run(s, events).log == s.log
    decreases |events|
  {
    if events != [] {
      assert IsSweepStep(events[0]) || events[0].Tick?;
      FailedPurgeIsNeverRetried(Step(s, events[0]), events[1..]);
    }
  }
}
