/**
 * One hosted node over its whole life: subscription lapses, the nightly sweep, its owner, its host, its sessions.
 *
 * Retain and restore hold the row lock from their decision to their commit and are one step each; what others ask the
 * host meanwhile can as well come before or after. A purge is a transaction of several steps, with failures between
 * them; while it holds the row, other writers wait. Everybody else loads the row without a lock, acts, and writes
 * later; a column is then written only if its value differs from the one loaded. Any transaction may fail; the row
 * then keeps its old value, the host and the issued sessions do not.
 */
module CloudNodeRetention {
  import opened Options

  const RETENTION_DAYS: int := 30
  const SECONDS_PER_DAY: int := 86_400
  const RETENTION: int := RETENTION_DAYS * SECONDS_PER_DAY

  datatype Status = Provisioning | Starting | Online | Stopped | Updating | Failed | Deleting | Deleted

  datatype Node = Node(
    status: Status,
    retainUntil: Option<int>,
    failureDetail: bool,     // the row carries a failure detail
    session: Option<nat>,    // the session the row records as the node's credential
    running: bool,           // the container, as it really is on the host
    volume: bool,            // container and data volume still exist
    sessions: set<nat>,      // the node's sessions whose tokens are accepted
    codes: nat)              // authorization codes that can be exchanged
  {
    predicate Retired() { status.Deleting? || status.Deleted? }
  }

  function Only(session: Option<nat>): set<nat> {
    if session.Some? then {session.value} else {}
  }

  datatype StopAnswer = StopOk | StopNotFound | StopUnreachable(stoppedAnyway: bool) | StopRejected
  datatype StartAnswer = StartOk | StartError(startedAnyway: bool)

  /** How a whole purge goes: cleanly, past an error of the host, or raising before or after the host was asked. */
  datatype PurgeAnswer =
    | PurgeClean
    | PurgeAgentError(removedAnyway: bool)
    | RaisesRevoking(revoked: bool)
    | RaisesAfterwards(removed: bool)
  {
    predicate Raises() { RaisesRevoking? || RaisesAfterwards? }
  }

  datatype Verdict =
    | Untouched | Marked | MarkUnreachable | MarkFailed | Restored | RestoreFailed
    | Purged | PurgeFailed | PurgeUnreachable

  // ---------- The three actions under the row lock ----------

  function RetainVerdict(n: Node, entitled: bool, stop: StopAnswer): Verdict {
    if n.status.Stopped? || n.Retired() || entitled then Untouched
    else match stop
      case StopOk => Marked
      case StopNotFound => Marked
      case StopUnreachable(_) => MarkUnreachable
      case StopRejected => MarkFailed
  }

  /** The row as the retain action would commit it; `at` is the clock when the mark is made. */
  function RetainRow(n: Node, entitled: bool, stop: StopAnswer, at: int): Node {
    match RetainVerdict(n, entitled, stop)
    case Marked => n.(status := Stopped, retainUntil := Some(at + RETENTION))
    case MarkFailed => n.(failureDetail := true)
    case _ => n
  }

  function RetainHost(n: Node, entitled: bool, stop: StopAnswer): bool {
    match RetainVerdict(n, entitled, stop)
    case Marked => false
    case MarkUnreachable => n.running && !stop.stoppedAnyway
    case _ => n.running
  }

  function RestoreVerdict(n: Node, entitled: bool, start: StartAnswer): Verdict {
    if n.retainUntil.None? || n.Retired() || !entitled then Untouched
    else if start.StartOk? then Restored else RestoreFailed
  }

  function RestoreRow(n: Node, entitled: bool, start: StartAnswer): Node {
    match RestoreVerdict(n, entitled, start)
    case Restored => n.(status := Starting, retainUntil := None, failureDetail := false)
    case RestoreFailed => n.(status := Failed, retainUntil := None, failureDetail := true)
    case _ => n
  }

  /** A host can start only a container it still has. */
  function RestoreHost(n: Node, entitled: bool, start: StartAnswer): bool {
    match RestoreVerdict(n, entitled, start)
    case Restored => n.volume
    case RestoreFailed => n.running || (start.startedAnyway && n.volume)
    case _ => n.running
  }

  predicate Overdue(n: Node, now: int) {
    n.status.Stopped? && n.retainUntil.Some? && n.retainUntil.value < now
  }

  function PurgeVerdict(n: Node, now: int, entitled: bool, answer: PurgeAnswer): Verdict {
    if !Overdue(n, now) || entitled then Untouched
    else if answer.Raises() then PurgeFailed else Purged
  }

  /** The row a purge leaves; one that raised has only flushed `deleting`. */
  function PurgeRow(n: Node, answer: PurgeAnswer): Node {
    match answer
    case PurgeClean => n.(status := Deleted, retainUntil := None, session := None)
    case PurgeAgentError(_) => n.(status := Deleted, retainUntil := None, session := None, failureDetail := true)
    case RaisesRevoking(revoked) => n.(status := Deleting, session := if revoked then None else n.session)
    case RaisesAfterwards(_) => n.(status := Deleting, session := None)
  }

  function Removed(n: Node): Node {
    n.(running := false, volume := false)
  }

  /** Revocation ends the recorded session and no other. */
  function Unrecorded(n: Node, session: Option<nat>): Node {
    n.(sessions := n.sessions - Only(session))
  }

  function PurgeHost(n: Node, answer: PurgeAnswer): Node {
    match answer
    case PurgeClean => Unrecorded(Removed(n), n.session)
    case PurgeAgentError(removedAnyway) => Unrecorded(if removedAnyway then Removed(n) else n, n.session)
    case RaisesRevoking(revoked) => if revoked then Unrecorded(n, n.session) else n
    case RaisesAfterwards(removed) => Unrecorded(if removed then Removed(n) else n, n.session)
  }

  // ---------- Requests ----------

  datatype Request =
    | Start | Stop | Restart | Resize
    | Reauthorize
    | Logout                                  // of the device, by its owner
    | Delete                                  // of the node, by its owner
    | Report(status: Status, detail: bool)    // what the host says about the container
  {
    /** Asks the host to bring the container up. */
    predicate Starts() { Start? || Restart? || Resize? || Reauthorize? }

    /** Does something outside the database before it writes. */
    predicate Acts() { !Delete? && !Report? }
  }

  /** On an error, `done` is whether the container runs, or the session is ended, all the same. */
  datatype HostAnswer = HostOk | HostError(done: bool)

  /** The columns of the row as somebody loaded them. */
  datatype Seen = Seen(status: Status, marked: bool, failureDetail: bool, session: Option<nat>)

  function SeenOf(n: Node): Seen {
    Seen(n.status, n.retainUntil.Some?, n.failureDetail, n.session)
  }

  /** How far a request has come. The last two exchange an authorization code for a session. */
  datatype Pending =
    | Loaded(request: Request, seen: Seen)
    | Answered(request: Request, seen: Seen, revokes: nat)   // a reauthorization revokes the codes it found
    | Issued(issued: nat)
    | Recording(issued: nat, seen: Seen)
  {
    /** A host that reports `online` is refused. */
    predicate CanWrite() { Answered? || Recording? || (Loaded? && request.Report? && !request.status.Online?) }
  }

  function Changed(was: Status, now: Status): Option<Status> {
    if was == now then None else Some(now)
  }

  /** The status a request will write, if any. A value equal to the loaded one is not written. */
  function WillWrite(p: Pending): Option<Status> {
    match p
    case Loaded(Report(status, _), seen) => Changed(seen.status, status)
    case Answered(Stop, seen, _) => Changed(seen.status, Stopped)
    case Answered(request, seen, _) => if request.Starts() then Changed(seen.status, Starting) else None
    case Recording(_, seen) =>
      if seen.status.Online? || seen.status.Updating? then None else Changed(seen.status, Starting)
    case _ => None
  }

  function DetailWritten(n: Node, p: Pending): bool {
    match p
    case Loaded(Report(_, detail), seen) => if detail then true else n.failureDetail && !seen.failureDetail
    case Answered(request, seen, _) => n.failureDetail && !(request.Starts() && seen.failureDetail)
    case Recording(_, seen) => n.failureDetail && !seen.failureDetail
    case _ => n.failureDetail
  }

  function SessionWritten(n: Node, p: Pending): Option<nat> {
    match p
    case Answered(Logout, seen, _) => if seen.session.Some? then None else n.session
    case Recording(issued, _) => Some(issued)
    case _ => n.session
  }

  function CodesLeft(codes: nat, used: nat): nat {
    if codes >= used then codes - used else 0
  }

  function CodesWritten(n: Node, p: Pending): nat {
    match p
    case Answered(Reauthorize, _, revokes) => CodesLeft(n.codes, revokes) + 1
    case Recording(_, _) => CodesLeft(n.codes, 1)
    case _ => n.codes
  }

  /** What a request commits. The row is not looked at again. */
  function Written(n: Node, p: Pending): Node {
    n.(status := if WillWrite(p).Some? then WillWrite(p).value else n.status,
       failureDetail := DetailWritten(n, p), session := SessionWritten(n, p), codes := CodesWritten(n, p))
  }

  function RunsAfter(n: Node, request: Request, answer: HostAnswer): bool {
    n.volume &&
    match request
    case Stop => answer.HostError? && n.running && answer.done
    case Start => answer.HostOk? || n.running || answer.done
    case Logout => n.running
    case _ => answer.HostOk? || answer.done
  }

  function Called(n: Node, p: Pending, answer: HostAnswer): Node
    requires p.Loaded?
  {
    var ended := p.request.Logout? && (answer.HostOk? || answer.done);
    n.(running := RunsAfter(n, p.request, answer),
       sessions := if ended then n.sessions - Only(p.seen.session) else n.sessions)
  }

  // ---------- Runs ----------

  datatype DeleteAnswer = DeleteOk | DeleteError(removedAnyway: bool) | DeleteRaises(removedAnyway: bool)

  datatype Stage =
    | Begun                       // `deleting` is flushed
    | Revoked                     // the recorded session is ended
    | AgentAsked(error: bool)     // the host was asked to delete container and volume
    | RowRetired(error: bool)
    | Broken                      // something raised
  {
    predicate PastRevocation() { Revoked? || AgentAsked? || RowRetired? }
  }

  /**
   * A purge in progress. The sweep loads the row under its lock, an owner's request before it has one. The sweep
   * catches what the purge raises; in an owner's request it ends the transaction.
   */
  datatype Txn = Txn(byOwner: bool, stage: Stage, seen: Seen, cleared: bool)

  datatype Event =
    | Tick(seconds: nat)
    | Retain(entitled: bool, stop: StopAnswer, commits: bool)
    | Restore(entitled: bool, start: StartAnswer, commits: bool)
    | PurgeBegins(sweepNow: int, entitled: bool)
    | OwnerDeletes(r: nat)
    | Revokes(ok: bool, revoked: bool)
    | AgentDeletes(outcome: DeleteAnswer)
    | Retires(ok: bool)
    | PurgeEnds(commits: bool)
    | Loads(r: nat, request: Request)
    | Calls(r: nat, answer: HostAnswer)
    | Issues(r: nat, session: nat)                // the container's code is accepted, tokens are issued
    | Records(r: nat)                             // the exchange loads the row
    | Writes(r: nat)
    | Drops(r: nat)                               // the request's transaction is rolled back
    | RefreshChecks(session: nat)                 // the container's refresh token is found valid
    | RefreshIssues(session: nat, next: nat)     // and replaced by tokens of a new session
    | Lapses(session: nat)                        // a session expires or is ended elsewhere
    | CodesLapse
    | HostStarts                                  // the host brings the container up by itself
    | ContainerExits

  datatype Entry =
    | MarkedAt(at: int, entitled: bool)      // what the code saw of the owner's entitlement under the lock
    | RestoredAt(at: int, runs: bool, entitled: bool)
    | PurgedAt(at: int, entitled: bool)
    | StartedAt(at: int)                 // a call, or the host itself, left the container running
  {
    predicate Starts() { StartedAt? || (RestoredAt? && runs) }
  }

  datatype State = State(
    clock: int,
    node: Node,
    txn: Option<Txn>,
    pending: map<nat, Pending>,
    ever: set<nat>,               // all sessions issued so far
    refreshing: multiset<nat>,    // checked refresh tokens whose new session is not issued yet
    log: seq<Entry>)

  /** The row moves only when the transaction commits; the host has already acted. */
  function WithRow(before: Node, row: Node, commits: bool): Node {
    if commits then
      before.(status := row.status, retainUntil := row.retainUntil, failureDetail := row.failureDetail,
              session := row.session)
    else before
  }

  predicate HoldsCode(p: Pending) {
    p.Issued? || p.Recording? || (p.Answered? && p.request.Reauthorize? && p.revokes > 0)
  }

  /** An exchange, or a reauthorization that revokes codes, holds them locked until it ends. */
  predicate CodeHeld(s: State) {
    exists r | r in s.pending :: HoldsCode(s.pending[r])
  }

  /** Reauthorizing is refused unless the row said `failed`. */
  predicate CanCall(s: State, r: nat) {
    r in s.pending && s.pending[r].Loaded? && s.pending[r].request.Acts()
    && (s.pending[r].request.Reauthorize? ==> s.pending[r].seen.status.Failed? && !CodeHeld(s))
  }

  predicate CanIssue(s: State, r: nat, session: nat) {
    r !in s.pending && s.node.running && s.node.codes > 0 && !CodeHeld(s) && session !in s.ever
  }

  predicate CanRefresh(s: State, session: nat, next: nat) {
    session in s.refreshing && next !in s.ever
  }

  /** One event inside the purge transaction. */
  function PurgeStep(s: State, txn: Txn, e: Event): State {
    var n := s.node;
    match e
    case Revokes(ok, revoked) =>
      if !txn.stage.Begun? then s
      else
        s.(node := if ok || revoked then Unrecorded(n, txn.seen.session) else n,
           txn := Some(txn.(stage := if ok then Revoked else Broken, cleared := ok || revoked)))
    case AgentDeletes(outcome) =>
      if !txn.stage.Revoked? then s
      else
        s.(node := if Removes(outcome) then Removed(n) else n, txn := Some(txn.(stage := StageAfter(outcome))))
    case Retires(ok) =>
      if !txn.stage.AgentAsked? then s
      else s.(txn := Some(txn.(stage := if ok then RowRetired(txn.stage.error) else Broken)))
    case PurgeEnds(commits) => s.(node := if Commits(txn, commits) then Ended(n, txn) else n, txn := None)
    case _ => s
  }

  predicate Removes(outcome: DeleteAnswer) {
    outcome.DeleteOk? || outcome.removedAnyway
  }

  function StageAfter(outcome: DeleteAnswer): Stage {
    match outcome
    case DeleteOk => AgentAsked(false)
    case DeleteError(_) => AgentAsked(true)
    case DeleteRaises(_) => Broken
  }

  /** Whether ending the transaction changes the row: it got to the end, or the sweep swallowed what was raised. */
  predicate Commits(txn: Txn, commits: bool) {
    commits && (txn.stage.RowRetired? || (txn.stage.Broken? && !txn.byOwner))
  }

  function Ended(n: Node, txn: Txn): Node {
    var row := n.(session := if txn.cleared && txn.seen.session.Some? then None else n.session);
    if txn.stage.RowRetired? then
      row.(status := Deleted, retainUntil := if txn.seen.marked then None else n.retainUntil,
           failureDetail := n.failureDetail || txn.stage.error)
    else row.(status := Deleting)
  }

  /** One event of a request. */
  function RequestStep(s: State, e: Event): State {
    var n := s.node;
    match e
    case Loads(r, request) => if r in s.pending then s else s.(pending := s.pending[r := Loaded(request, SeenOf(n))])
    case Calls(r, answer) =>
      if !CanCall(s, r) then s
      else
        var p := s.pending[r];
        s.(node := Called(n, p, answer),
           pending := if answer.HostOk? then s.pending[r := Answered(p.request, p.seen, n.codes)] else s.pending - {r},
           log := if p.request.Starts() && RunsAfter(n, p.request, answer) then s.log + [StartedAt(s.clock)] else s.log)
    case Issues(r, x) =>
      if !CanIssue(s, r, x) then s
      else s.(node := n.(sessions := n.sessions + {x}), pending := s.pending[r := Issued(x)], ever := s.ever + {x})
    case Records(r) =>
      if r !in s.pending || !s.pending[r].Issued? then s
      else s.(pending := s.pending[r := Recording(s.pending[r].issued, SeenOf(n))])
    case Writes(r) =>
      if s.txn.Some? || r !in s.pending || !s.pending[r].CanWrite() then s
      else s.(node := Written(n, s.pending[r]), pending := s.pending - {r})
    case Drops(r) => s.(pending := s.pending - {r})
    case OwnerDeletes(r) =>
      if s.txn.Some? || r !in s.pending || !s.pending[r].Loaded? || !s.pending[r].request.Delete? then s
      else s.(txn := Some(Txn(true, Begun, s.pending[r].seen, false)), pending := s.pending - {r})
    case _ => s
  }

  /** One event of a session or a code. */
  function SessionStep(s: State, e: Event): State {
    var n := s.node;
    match e
    case RefreshChecks(x) => if x !in n.sessions then s else s.(refreshing := s.refreshing + multiset{x})
    case RefreshIssues(x, next) =>
      if !CanRefresh(s, x, next) then s
      else
        s.(node := n.(sessions := n.sessions - {x} + {next}), ever := s.ever + {next},
           refreshing := s.refreshing - multiset{x})
    case Lapses(x) => s.(node := n.(sessions := n.sessions - {x}))
    case CodesLapse => s.(node := n.(codes := 0))
    case _ => s
  }

  /** One event of the sweep or of the host. */
  function SweepStep(s: State, e: Event): State {
    var n := s.node;
    match e
    case Retain(entitled, stop, commits) =>
      if s.txn.Some? then s
      else
        s.(node := WithRow(n.(running := RetainHost(n, entitled, stop)), RetainRow(n, entitled, stop, s.clock),
                           commits),
           log := if RetainVerdict(n, entitled, stop).Marked? && commits then s.log + [MarkedAt(s.clock, entitled)]
                  else s.log)
    case Restore(entitled, start, commits) =>
      if s.txn.Some? || RestoreVerdict(n, entitled, start).Untouched? then s
      else
        var runs := RestoreHost(n, entitled, start);
        s.(node := WithRow(n.(running := runs), RestoreRow(n, entitled, start), commits),
           log := if commits then s.log + [RestoredAt(s.clock, runs, entitled)]
                  else if runs then s.log + [StartedAt(s.clock)] else s.log)
    case PurgeBegins(sweepNow, entitled) =>
      // A sweep reads its clock once, at its start.
      if s.txn.Some? || sweepNow > s.clock || !Overdue(n, sweepNow) || entitled then s
      else s.(txn := Some(Txn(false, Begun, SeenOf(n), false)), log := s.log + [PurgedAt(s.clock, entitled)])
    case _ => s
  }

  datatype Actor = World | Sweeper | Purger | Requester | Sessions

  function ActorOf(e: Event): Actor {
    match e
    case Tick(_) => World
    case HostStarts => World
    case ContainerExits => World
    case Retain(_, _, _) => Sweeper
    case Restore(_, _, _) => Sweeper
    case PurgeBegins(_, _) => Sweeper
    case Revokes(_, _) => Purger
    case AgentDeletes(_) => Purger
    case Retires(_) => Purger
    case PurgeEnds(_) => Purger
    case RefreshChecks(_) => Sessions
    case RefreshIssues(_, _) => Sessions
    case Lapses(_) => Sessions
    case CodesLapse => Sessions
    case _ => Requester
  }

  function Step(s: State, e: Event): State {
    match ActorOf(e)
    case World =>
      (match e
       case Tick(seconds) => s.(clock := s.clock + seconds)
       case HostStarts =>
         if s.node.volume then s.(node := s.node.(running := true), log := s.log + [StartedAt(s.clock)]) else s
       case _ => s.(node := s.node.(running := false)))
    case Sweeper => SweepStep(s, e)
    case Purger => if s.txn.Some? then PurgeStep(s, s.txn.value, e) else s
    case Requester => RequestStep(s, e)
    case Sessions => SessionStep(s, e)
  }

  /** Only requests add or remove requests. */
  lemma OthersKeepPending(s: State, e: Event)
    requires !ActorOf(e).Requester?
    ensures Step(s, e).pending == s.pending
  {
    match ActorOf(e)
    case Sweeper => SweepKeepsPending(s, e);
    case Purger =>
      if s.txn.Some? {
        PurgeKeepsPending(s, s.txn.value, e);
      }
    case _ =>
  }

  lemma SweepKeepsPending(s: State, e: Event)
    ensures SweepStep(s, e).pending == s.pending
  {
  }

  lemma PurgeKeepsPending(s: State, txn: Txn, e: Event)
    ensures PurgeStep(s, txn, e).pending == s.pending
  {
  }

  function Run(s: State, events: seq<Event>): State
    decreases |events|
  {
    if events == [] then s else Run(Step(s, events[0]), events[1..])
  }

  /** What `create_node` achieved at the host. */
  datatype Birth = Up | ErrorUp | ErrorDown | ErrorMissing

  /** A node as `create_node` leaves it. */
  function Born(clock: int, birth: Birth): State {
    var runs := birth.Up? || birth.ErrorUp?;
    State(clock,
          Node(if birth.Up? then Starting else Failed, None, !birth.Up?, None, runs, !birth.ErrorMissing?, {}, 1),
          None, map[], {}, multiset{}, if runs then [StartedAt(clock)] else [])
  }

  // ---------- Runs, put together ----------

  lemma {:induction false} RunAppend(s: State, a: seq<Event>, b: seq<Event>)
    ensures Run(s, a + b) == Run(Run(s, a), b)
    decreases |a|
  {
    if a == [] {
      assert a + b == b;
    } else {
      assert (a + b)[1..] == a[1..] + b;
      RunAppend(Step(s, a[0]), a[1..], b);
    }
  }

  lemma RunOne(s: State, e: Event, rest: seq<Event>)
    ensures Run(s, [e] + rest) == Run(Step(s, e), rest)
  {
    assert ([e] + rest)[1..] == rest;
  }

  lemma RunSnoc(s: State, events: seq<Event>, e: Event)
    ensures Run(s, events + [e]) == Step(Run(s, events), e)
  {
    RunAppend(s, events, [e]);
    assert [e] == [e] + [];
    RunOne(Run(s, events), e, []);
  }

  lemma RunTwo(s: State, a: Event, b: Event, rest: seq<Event>)
    ensures Run(s, [a] + ([b] + rest)) == Run(Step(Step(s, a), b), rest)
  {
    RunOne(s, a, [b] + rest);
    RunOne(Step(s, a), b, rest);
  }

  lemma RunThree(s: State, a: Event, b: Event, c: Event, rest: seq<Event>)
    ensures Run(s, [a, b, c] + rest) == Run(Step(Step(Step(s, a), b), c), rest)
  {
    assert [a, b, c] + rest == [a] + ([b] + ([c] + rest));
    RunTwo(s, a, b, [c] + rest);
    RunOne(Step(Step(s, a), b), c, rest);
  }

  lemma RunThreeTo(s: State, a: Event, b: Event, c: Event, t: State, rest: seq<Event>)
    requires t == Step(Step(Step(s, a), b), c)
    ensures Run(s, [a, b, c] + rest) == Run(t, rest)
  {
    RunThree(s, a, b, c, rest);
  }

  /** The steps sweeps are made of, whatever becomes of them. */
  predicate IsSweepStep(e: Event) {
    e.Retain? || e.Restore? || e.PurgeBegins? || e.Revokes? || e.AgentDeletes? || e.Retires? || e.PurgeEnds?
  }
}
