/**
 * The sessions of a hosted node against the volume they belong to. A purge ends one session, the one the row recorded
 * when the purge loaded it. Every exchange of an authorization code and every refresh of a token makes another one.
 */
module CloudNodeCredentials {
  import opened Options
  import opened CloudNodeCountdown
  import opened CloudNodeRetention

  // ---------- Sessions over a run ----------

  function IssuedBy(s: State, e: Event): set<nat> {
    match e
    case Issues(r, x) => if CanIssue(s, r, x) then {x} else {}
    case RefreshIssues(x, next) => if CanRefresh(s, x, next) then {next} else {}
    case _ => {}
  }

  /** The session an event is aimed at, accepted or not. */
  function AimedAt(s: State, e: Event): set<nat> {
    match e
    case Lapses(x) => {x}
    case RefreshIssues(x, next) => if CanRefresh(s, x, next) then {x} else {}
    case Revokes(ok, revoked) =>
      if s.txn.Some? && s.txn.value.stage.Begun? && (ok || revoked) then Only(s.txn.value.seen.session) else {}
    case Calls(r, answer) =>
      if CanCall(s, r) && s.pending[r].request.Logout? && (answer.HostOk? || answer.done) then
        Only(s.pending[r].seen.session)
      else {}
    case _ => {}
  }

  function EndedBy(s: State, e: Event): set<nat> {
    AimedAt(s, e) * s.node.sessions
  }

  function IssuedOver(s: State, events: seq<Event>): set<nat>
    decreases |events|
  {
    if events == [] then {} else IssuedBy(s, events[0]) + IssuedOver(Step(s, events[0]), events[1..])
  }

  function EndedOver(s: State, events: seq<Event>): set<nat>
    decreases |events|
  {
    if events == [] then {} else EndedBy(s, events[0]) + EndedOver(Step(s, events[0]), events[1..])
  }

  predicate Known(s: State) {
    s.node.sessions <= s.ever
  }

  /** A step takes the ended sessions away and adds the issued ones, which are new. */
  predicate Moves(s: State, e: Event) {
    && Step(s, e).node.sessions == s.node.sessions - EndedBy(s, e) + IssuedBy(s, e)
    && Step(s, e).ever == s.ever + IssuedBy(s, e) && IssuedBy(s, e) !! s.ever
  }

  lemma SessionStepMoves(s: State, e: Event)
    requires ActorOf(e).Sessions?
    ensures Moves(s, e)
  {
  }

  lemma CallsMoves(s: State, r: nat, answer: HostAnswer)
    ensures Moves(s, Calls(r, answer))
  {
  }

  lemma RequestMoves(s: State, e: Event)
    requires ActorOf(e).Requester? && !e.Calls?
    ensures Moves(s, e)
  {
  }

  lemma PurgeMoves(s: State, e: Event)
    requires ActorOf(e).Purger?
    ensures Moves(s, e)
  {
  }

  lemma StepMovesSessions(s: State, e: Event)
    ensures Moves(s, e)
  {
    match ActorOf(e)
    case Purger => PurgeMoves(s, e);
    case Requester =>
      if e.Calls? {
        CallsMoves(s, e.r, e.answer);
      } else {
        RequestMoves(s, e);
      }
    case Sessions => SessionStepMoves(s, e);
    case _ =>
  }

  lemma {:induction false} IssuedAreNew(s: State, events: seq<Event>)
    requires Known(s)
    ensures IssuedOver(s, events) !! s.ever
    decreases |events|
  {
    if events != [] {
      StepMovesSessions(s, events[0]);
      IssuedAreNew(Step(s, events[0]), events[1..]);
    }
  }

  lemma SetsAddUp(before: set<nat>, ended: set<nat>, issued: set<nat>, laterIssued: set<nat>, laterEnded: set<nat>)
    requires ended <= before && issued !! before && laterIssued !! before
    ensures (before - ended + issued + laterIssued) - laterEnded
            == before + (issued + laterIssued) - (ended + laterEnded)
  {
  }

  /** Over every run the accepted sessions are those of the start and those issued since, without those ended since. */
  lemma {:induction false} SessionsOverRun(s: State, events: seq<Event>)
    requires Known(s)
    ensures Known(Run(s, events))
    ensures Run(s, events).node.sessions == s.node.sessions + IssuedOver(s, events) - EndedOver(s, events)
    decreases |events|
  {
    if events != [] {
      var t := Step(s, events[0]);
      StepMovesSessions(s, events[0]);
      SessionsOverRun(t, events[1..]);
      IssuedAreNew(t, events[1..]);
      SetsAddUp(s.node.sessions, EndedBy(s, events[0]), IssuedBy(s, events[0]), IssuedOver(t, events[1..]),
                EndedOver(t, events[1..]));
    }
  }

  /** A session that survives a purge's revocation, and what happens until the volume is deleted. */
  ghost predicate Survives(s: State, between: seq<Event>, x: nat)
    requires s.txn.Some?
  {
    var revoked := Step(s, Revokes(true, true));
    && ((x in s.node.sessions && Some(x) != s.txn.value.seen.session) || x in IssuedOver(revoked, between))
    && x !in EndedOver(revoked, between)
  }

  /**
   * Over every run: a purge deletes the volume under an accepted session exactly if a session other than the one the
   * purge had loaded was accepted when it revoked, or one was issued after that, and nothing has ended it.
   */
  lemma OutlivesTheVolumeIff(clock: int, birth: Birth, before: seq<Event>, between: seq<Event>, outcome: DeleteAnswer)
    requires Run(Born(clock, birth), before).txn.Some? && Run(Born(clock, birth), before).txn.value.stage.Begun?
    requires var t := Run(Step(Run(Born(clock, birth), before), Revokes(true, true)), between);
             t.txn.Some? && t.txn.value.stage.Revoked?
    requires Removes(outcome)
    ensures var s := Run(Born(clock, birth), before);
            var t := Step(Run(Step(s, Revokes(true, true)), between), AgentDeletes(outcome));
            !t.node.volume && (t.node.sessions != {} <==> exists x :: Survives(s, between, x))
  {
    var s := Run(Born(clock, birth), before);
    var revoked := Step(s, Revokes(true, true));
    SessionsOverRun(Born(clock, birth), before);
    RevokesTheLoadedOne(s);
    SessionsOverRun(revoked, between);
    var t := Run(revoked, between);
    DeletingKeepsSessions(t, outcome);
    forall x
      ensures x in t.node.sessions <==> Survives(s, between, x)
    {
    }
    if t.node.sessions != {} {
      var x :| x in t.node.sessions;
      assert Survives(s, between, x);
    }
  }

  lemma RevokesTheLoadedOne(s: State)
    requires s.txn.Some? && s.txn.value.stage.Begun?
    ensures Step(s, Revokes(true, true)).node.sessions == s.node.sessions - Only(s.txn.value.seen.session)
    ensures Step(s, Revokes(true, true)).ever == s.ever
  {
  }

  lemma DeletingKeepsSessions(s: State, outcome: DeleteAnswer)
    requires s.txn.Some? && s.txn.value.stage.Revoked? && Removes(outcome)
    ensures Step(s, AgentDeletes(outcome)).node == Removed(s.node)
  {
  }

  // ---------- Steps that let a session slip ----------

  /** No session is accepted past the revocation of a purge, nor without a volume. */
  predicate NoneLeft(s: State) {
    && (s.txn.Some? && s.txn.value.stage.PastRevocation() ==> s.node.sessions == {})
    && (!s.node.volume ==> s.node.sessions == {})
  }

  /** A revocation that misses a session, or a session issued after it. */
  predicate Slips(s: State, e: Event) {
    match e
    case Revokes(ok, _) =>
      ok && s.txn.Some? && s.txn.value.stage.Begun? && s.node.sessions - Only(s.txn.value.seen.session) != {}
    case Issues(r, x) => CanIssue(s, r, x) && s.txn.Some? && s.txn.value.stage.PastRevocation()
    case RefreshIssues(x, next) =>
      CanRefresh(s, x, next) && (!s.node.volume || (s.txn.Some? && s.txn.value.stage.PastRevocation()))
    case _ => false
  }

  lemma SlipsIff(s: State, e: Event)
    requires NoneLeft(s) && (s.node.running ==> s.node.volume)
    ensures !NoneLeft(Step(s, e)) <==> Slips(s, e)
  {
    match ActorOf(e)
    case Purger =>
    case Requester => RequestSlipsIff(s, e);
    case Sessions =>
    case _ =>
  }

  lemma RequestSlipsIff(s: State, e: Event)
    requires NoneLeft(s) && (s.node.running ==> s.node.volume) && ActorOf(e).Requester?
    ensures !NoneLeft(Step(s, e)) <==> Slips(s, e)
  {
    if e.Issues? && CanIssue(s, e.r, e.session) {
      assert e.session in Step(s, e).node.sessions;
    }
  }

  predicate NoneLeftThroughout(s: State, events: seq<Event>)
    decreases |events|
  {
    NoneLeft(s) && (events != [] ==> NoneLeftThroughout(Step(s, events[0]), events[1..]))
  }

  predicate NeverSlips(s: State, events: seq<Event>)
    decreases |events|
  {
    events != [] ==> !Slips(s, events[0]) && NeverSlips(Step(s, events[0]), events[1..])
  }

  lemma {:induction false} NeverSlipsIff(s: State, events: seq<Event>)
    requires Inv(s) && NoneLeft(s)
    ensures NoneLeftThroughout(s, events) <==> NeverSlips(s, events)
    ensures NeverSlips(s, events) ==> NoneLeft(Run(s, events))
    decreases |events|
  {
    if events != [] {
      StepKeepsInv(s, events[0]);
      SlipsIff(s, events[0]);
      if NoneLeft(Step(s, events[0])) {
        NeverSlipsIff(Step(s, events[0]), events[1..]);
      }
    }
  }

  /** Over every run: at no moment is a session left behind exactly if no step lets one slip. */
  lemma NoneLeftBehindIff(clock: int, birth: Birth, events: seq<Event>)
    ensures NoneLeftThroughout(Born(clock, birth), events) <==> NeverSlips(Born(clock, birth), events)
  {
    BornIsInv(clock, birth);
    NeverSlipsIff(Born(clock, birth), events);
  }

  /** Then no volume is gone while a session of the node is still accepted, wherever the purge raises. */
  lemma CredentialGoesBeforeTheVolume(clock: int, birth: Birth, events: seq<Event>)
    requires NeverSlips(Born(clock, birth), events) && !Run(Born(clock, birth), events).node.volume
    ensures Run(Born(clock, birth), events).node.sessions == {}
  {
    BornIsInv(clock, birth);
    NeverSlipsIff(Born(clock, birth), events);
  }

  // ---------- The ordinary ways to slip ----------

  /** The deletion of a node by its owner, with every answer good. */
  function OwnerDeletesIt(r: nat): seq<Event> {
    [Loads(r, Delete), OwnerDeletes(r), Revokes(true, true)] + ([AgentDeletes(DeleteOk)] + [])
  }

  lemma OwnerPurges(s: State, r: nat) returns (t: State)
    requires s.txn.None? && r !in s.pending
    ensures t == Step(Step(Step(s, Loads(r, Delete)), OwnerDeletes(r)), Revokes(true, true))
    ensures t.node == Unrecorded(s.node, s.node.session) && t.txn.Some? && t.txn.value.stage.Revoked?
    ensures t.ever == s.ever && t.pending == s.pending
  {
    var begun := Step(Step(s, Loads(r, Delete)), OwnerDeletes(r));
    assert begun.pending == s.pending;
    assert begun.node == s.node && begun.txn == Some(Txn(true, Begun, SeenOf(s.node), false));
    t := Step(begun, Revokes(true, true));
  }

  lemma OwnerDeletesAround(s: State, r: nat)
    requires s.txn.None? && r !in s.pending
    ensures Run(s, OwnerDeletesIt(r)).node == Removed(Unrecorded(s.node, s.node.session))
  {
    var revoked := OwnerPurges(s, r);
    RunThreeTo(s, Loads(r, Delete), OwnerDeletes(r), Revokes(true, true), revoked, [AgentDeletes(DeleteOk)] + []);
    RunOne(revoked, AgentDeletes(DeleteOk), []);
  }

  /**
   * Nothing out of order is needed: once the node has refreshed its token, the session on the row is dead, the purge
   * revokes that one, and the node's real session outlives the volume.
   */
  lemma RefreshedSessionOutlives(s: State, x: nat, next: nat, r: nat)
    requires s.txn.None? && r !in s.pending && Known(s)
    requires x in s.node.sessions && s.node.session == Some(x) && next !in s.ever
    ensures var t := Run(s, [RefreshChecks(x)] + ([RefreshIssues(x, next)] + OwnerDeletesIt(r)));
            !t.node.volume && next in t.node.sessions
  {
    var refreshed := Refreshes(s, x, next);
    RunTwo(s, RefreshChecks(x), RefreshIssues(x, next), OwnerDeletesIt(r));
    OwnerDeletesAround(refreshed, r);
  }

  lemma Refreshes(s: State, x: nat, next: nat) returns (t: State)
    requires x in s.node.sessions && next !in s.ever
    ensures t == Step(Step(s, RefreshChecks(x)), RefreshIssues(x, next)) && t.txn == s.txn && t.pending == s.pending
    ensures t.node == s.node.(sessions := s.node.sessions - {x} + {next})
  {
    var checked := Step(s, RefreshChecks(x));
    assert checked == s.(refreshing := s.refreshing + multiset{x});
    t := Step(checked, RefreshIssues(x, next));
  }

  lemma FirstExchange(clock: int, r: nat, x: nat) returns (t: State)
    ensures t == Step(Step(Step(Born(clock, Up), Issues(r, x)), Records(r)), Writes(r))
    ensures t.txn.None? && t.pending == map[] && t.node.sessions == {x} && t.node.session == Some(x) && t.ever == {x}
  {
    var issued := Step(Born(clock, Up), Issues(r, x));
    assert issued.pending == map[r := Issued(x)];
    var recording := Step(issued, Records(r));
    assert recording.pending == map[r := Recording(x, SeenOf(issued.node))];
    t := Step(recording, Writes(r));
  }

  /** For instance a node that exchanged its code, refreshed once, and is deleted by its owner. */
  lemma NewNodesSessionOutlives(clock: int, r: nat, x: nat, next: nat)
    requires next != x
    ensures var t := Run(Born(clock, Up), [Issues(r, x), Records(r), Writes(r)]
                                          + ([RefreshChecks(x)] + ([RefreshIssues(x, next)] + OwnerDeletesIt(r))));
            !t.node.volume && next in t.node.sessions
  {
    var s := FirstExchange(clock, r, x);
    RunThreeTo(Born(clock, Up), Issues(r, x), Records(r), Writes(r), s,
               [RefreshChecks(x)] + ([RefreshIssues(x, next)] + OwnerDeletesIt(r)));
    RefreshedSessionOutlives(s, x, next, r);
  }

  /** Nor does the purge reach a code exchanged between its revocation and its deletion: nobody looks at the status. */
  lemma LateExchangeOutlivesTheVolume(s: State, r: nat, x: nat)
    requires s.txn.Some? && s.txn.value.stage.Revoked? && CanIssue(s, r, x)
    ensures var t := Step(Step(s, Issues(r, x)), AgentDeletes(DeleteOk)); !t.node.volume && x in t.node.sessions
  {
  }

  lemma NewNodesLateExchangeOutlives(clock: int, r: nat, q: nat, x: nat)
    ensures var t := Run(Born(clock, Up), [Loads(q, Delete), OwnerDeletes(q), Revokes(true, true)]
                                          + ([Issues(r, x)] + ([AgentDeletes(DeleteOk)] + [])));
            !t.node.volume && x in t.node.sessions
  {
    var s := Born(clock, Up);
    var revoked := OwnerPurges(s, q);
    var end := [AgentDeletes(DeleteOk)] + [];
    RunThreeTo(s, Loads(q, Delete), OwnerDeletes(q), Revokes(true, true), revoked, [Issues(r, x)] + end);
    RunOne(revoked, Issues(r, x), end);
    RunOne(Step(revoked, Issues(r, x)), AgentDeletes(DeleteOk), []);
    LateExchangeOutlivesTheVolume(revoked, r, x);
  }
}
