/** What the requests of owners, hosts and containers do to a node, undisturbed and not. */
module CloudNodeRequests {
  import opened Options
  import opened CloudNodeRetention

  // ---------- Created ----------

  /** A new node has one code and no session; it is starting exactly if the host said so, else failed with a detail. */
  lemma NewNodes(clock: int, birth: Birth)
    ensures var n := Born(clock, birth).node;
            && (if birth.Up? then n.status.Starting? && !n.failureDetail else n.status.Failed? && n.failureDetail)
            && n.codes == 1 && n.sessions == {} && n.session.None? && n.retainUntil.None?
            && (n.running ==> n.volume) && (n.volume <==> birth != ErrorMissing)
            && (n.running <==> Born(clock, birth).log == [StartedAt(clock)])
            && (n.running <==> birth != ErrorDown && birth != ErrorMissing)
  {
    assert Born(clock, birth).log == [StartedAt(clock)] || Born(clock, birth).log == [];
  }

  // ---------- Undisturbed ----------

  predicate CanStart(s: State, r: nat) {
    s.txn.None? && r !in s.pending && (s.node.running ==> s.node.volume)
  }

  /** A request from loading the row to writing it, with the host's consent. */
  function Granted(s: State, r: nat, request: Request): State {
    Step(Step(Step(s, Loads(r, request)), Calls(r, HostOk)), Writes(r))
  }

  lemma Forgets<K, V>(m: map<K, V>, k: K, v: V)
    requires k !in m
    ensures m[k := v] - {k} == m
  {
  }

  lemma GrantedPending(s: State, r: nat, request: Request)
    requires CanStart(s, r) && request.Acts() && !request.Reauthorize?
    ensures Granted(s, r, request).pending == s.pending && Granted(s, r, request).txn == s.txn
    ensures Granted(s, r, request).node
            == Written(Called(s.node, Loaded(request, SeenOf(s.node)), HostOk),
                       Answered(request, SeenOf(s.node), s.node.codes))
  {
    var called := Step(Step(s, Loads(r, request)), Calls(r, HostOk));
    assert called.pending == s.pending[r := Answered(request, SeenOf(s.node), s.node.codes)];
    Forgets(s.pending, r, Answered(request, SeenOf(s.node), s.node.codes));
  }

  /** Start, restart and resize leave the node starting, with its container up and no failure detail. */
  lemma StartsLeaveItStarting(s: State, r: nat, request: Request)
    requires CanStart(s, r) && (request.Start? || request.Restart? || request.Resize?)
    ensures Granted(s, r, request).pending == s.pending
    ensures Granted(s, r, request).node
            == s.node.(status := Starting, failureDetail := false, running := s.node.volume)
  {
    GrantedPending(s, r, request);
  }

  /** A stop leaves it stopped, with its container down, and its countdown, session and codes as they were. */
  lemma StopLeavesItStopped(s: State, r: nat)
    requires CanStart(s, r)
    ensures Granted(s, r, Stop).pending == s.pending
    ensures Granted(s, r, Stop).node == s.node.(status := Stopped, running := false)
  {
    GrantedPending(s, r, Stop);
  }

  /** Logging the device out ends the recorded session and no other. */
  lemma LogoutEndsTheRecorded(s: State, r: nat)
    requires CanStart(s, r)
    ensures Granted(s, r, Logout).pending == s.pending
    ensures Granted(s, r, Logout).node
            == s.node.(session := None, sessions := s.node.sessions - Only(s.node.session))
  {
    GrantedPending(s, r, Logout);
  }

  /** Reauthorizing a failed node revokes its codes, mints one and starts the container; other nodes are refused. */
  lemma ReauthorizeMintsOneCode(s: State, r: nat)
    requires CanStart(s, r) && !CodeHeld(s)
    ensures s.node.status.Failed? ==>
              && Granted(s, r, Reauthorize).pending == s.pending
              && Granted(s, r, Reauthorize).node
                 == s.node.(status := Starting, failureDetail := false, running := s.node.volume, codes := 1)
    ensures !s.node.status.Failed? ==>
              Step(Step(s, Loads(r, Reauthorize)), Calls(r, HostOk)) == Step(s, Loads(r, Reauthorize))
  {
    var seen := SeenOf(s.node);
    var loaded := Step(s, Loads(r, Reauthorize));
    assert loaded.pending == s.pending[r := Loaded(Reauthorize, seen)];
    StillNotHeld(s, r, loaded);
    if s.node.status.Failed? {
      MintsWhenCalled(s, loaded, r);
    }
  }

  lemma MintsWhenCalled(s: State, loaded: State, r: nat)
    requires CanStart(s, r) && s.node.status.Failed? && !CodeHeld(loaded)
    requires loaded == s.(pending := s.pending[r := Loaded(Reauthorize, SeenOf(s.node))])
    ensures var t := Step(Step(loaded, Calls(r, HostOk)), Writes(r));
            && t.pending == s.pending
            && t.node == s.node.(status := Starting, failureDetail := false, running := s.node.volume, codes := 1)
  {
    var answered := Answered(Reauthorize, SeenOf(s.node), s.node.codes);
    var called := Step(loaded, Calls(r, HostOk));
    assert called.pending == s.pending[r := answered];
    Forgets(s.pending, r, answered);
  }

  lemma StillNotHeld(s: State, r: nat, t: State)
    requires !CodeHeld(s) && r !in s.pending && r in t.pending && t.pending[r].Loaded?
    requires t.pending == s.pending[r := t.pending[r]]
    ensures !CodeHeld(t)
  {
    forall q | q in t.pending
      ensures !HoldsCode(t.pending[q])
    {
      assert q != r ==> t.pending[q] == s.pending[q];
    }
  }

  /** A report overwrites status and failure detail, whatever they were; only `online` is not taken. */
  lemma ReportOverwrites(s: State, r: nat, status: Status, detail: bool)
    requires CanStart(s, r)
    ensures var t := Step(Step(s, Loads(r, Report(status, detail))), Writes(r));
            if status.Online? then t == Step(s, Loads(r, Report(status, detail)))
            else t.node == s.node.(status := status, failureDetail := detail) && t.pending == s.pending
  {
    var loaded := Loaded(Report(status, detail), SeenOf(s.node));
    assert Step(s, Loads(r, Report(status, detail))).pending == s.pending[r := loaded];
    Forgets(s.pending, r, loaded);
  }

  /** An exchange uses up one code, adds a session, records it, and starts a node that was not up already. */
  lemma ExchangeRecordsItsSession(s: State, r: nat, x: nat)
    requires s.txn.None? && CanIssue(s, r, x)
    ensures var t := Step(Step(Step(s, Issues(r, x)), Records(r)), Writes(r));
            && t.pending == s.pending && x in t.node.sessions && t.node.session == Some(x)
            && t.node == s.node.(
                 sessions := s.node.sessions + {x}, session := Some(x), codes := s.node.codes - 1,
                 failureDetail := false,
                 status := if s.node.status.Online? || s.node.status.Updating? then s.node.status else Starting)
  {
    var issued := Step(s, Issues(r, x));
    var recording := Recording(x, SeenOf(issued.node));
    assert Step(issued, Records(r)).pending == s.pending[r := recording];
    Forgets(s.pending, r, recording);
  }

  /** Without a code, while another request holds the codes, or from a container that is down, nothing is issued. */
  lemma NoCodeNoSession(s: State, r: nat, x: nat)
    requires s.node.codes == 0 || CodeHeld(s) || !s.node.running || x in s.ever
    ensures Step(s, Issues(r, x)) == s
  {
  }

  // ---------- Refused by the host ----------

  /** An error of the host leaves the row as it is; container and session are as the host left them all the same. */
  lemma ErrorLeavesTheRow(s: State, r: nat, request: Request, done: bool)
    requires CanStart(s, r) && request.Acts() && !request.Reauthorize?
    ensures var t := Step(Step(s, Loads(r, request)), Calls(r, HostError(done)));
            && t.pending == s.pending
            && t.node == s.node.(running := t.node.running, sessions := t.node.sessions)
            && (request.Stop? ==> t.node.running == (s.node.running && done))
            && (request.Start? ==> t.node.running == (s.node.volume && (s.node.running || done)))
            && (request.Restart? || request.Resize? ==> t.node.running == (s.node.volume && done))
            && (request.Logout? ==> t.node.running == s.node.running)
            && t.node.sessions == (if request.Logout? && done then s.node.sessions - Only(s.node.session)
                                   else s.node.sessions)
  {
    var loaded := Loaded(request, SeenOf(s.node));
    assert Step(s, Loads(r, request)).pending == s.pending[r := loaded];
    Forgets(s.pending, r, loaded);
  }

  // ---------- Overtaken ----------

  /** A status is written over whatever stands there now, unless it is the one that was loaded. */
  function Lands(loaded: Status, written: Status, now: Status): Status {
    if written == loaded then now else written
  }

  lemma LateStatus(n: Node, seen: Seen, revokes: nat, request: Request)
    ensures request.Stop? ==>
              Written(n, Answered(request, seen, revokes)).status == Lands(seen.status, Stopped, n.status)
    ensures request.Starts() ==>
              Written(n, Answered(request, seen, revokes)).status == Lands(seen.status, Starting, n.status)
    ensures request.Logout? ==> Written(n, Answered(request, seen, revokes)).status == n.status
    ensures request.Report? ==>
              Written(n, Loaded(request, seen)).status == Lands(seen.status, request.status, n.status)
  {
  }

  lemma LateExchange(n: Node, seen: Seen, x: nat)
    ensures var t := Written(n, Recording(x, seen));
            && t.session == Some(x) && t.sessions == n.sessions
            && t.status == (if seen.status.Online? || seen.status.Updating? then n.status
                            else Lands(seen.status, Starting, n.status))
            && t.failureDetail == (n.failureDetail && !seen.failureDetail)
            && t.codes == (if n.codes > 0 then n.codes - 1 else 0)
  {
  }

  /** A failure detail is cleared only by those who saw one, and written by reports that carry one. */
  lemma LateDetail(n: Node, seen: Seen, revokes: nat, request: Request)
    ensures request.Starts() ==>
              Written(n, Answered(request, seen, revokes)).failureDetail == (n.failureDetail && !seen.failureDetail)
    ensures request.Stop? || request.Logout? ==>
              Written(n, Answered(request, seen, revokes)).failureDetail == n.failureDetail
    ensures request.Report? ==>
              Written(n, Loaded(request, seen)).failureDetail
              == (request.detail || (n.failureDetail && !seen.failureDetail))
  {
  }

  /** The recorded session is dropped only by a logout that saw one; a reauthorization leaves one code more. */
  lemma LateSessionAndCodes(n: Node, seen: Seen, revokes: nat, request: Request)
    requires !request.Report?
    ensures var t := Written(n, Answered(request, seen, revokes));
            && t.session == (if request.Logout? && seen.session.Some? then None else n.session)
            && t.codes == (if !request.Reauthorize? then n.codes
                           else if n.codes > revokes then n.codes - revokes + 1 else 1)
            && t.running == n.running && t.volume == n.volume && t.retainUntil == n.retainUntil
  {
  }

  // ---------- Who waits for whom ----------

  /** While a code is being exchanged, or codes are being replaced, nobody else exchanges or replaces one. */
  lemma OthersWait(s: State, r: nat, q: nat, x: nat, answer: HostAnswer)
    requires r in s.pending
    requires s.pending[r].Issued? || s.pending[r].Recording?
             || (s.pending[r].Answered? && s.pending[r].request.Reauthorize? && s.pending[r].revokes > 0)
    ensures Step(s, Issues(q, x)) == s
    ensures q in s.pending && s.pending[q].Loaded? && s.pending[q].request.Reauthorize? ==>
              Step(s, Calls(q, answer)) == s
  {
    assert HoldsCode(s.pending[r]);
  }

  /** A refresh issues nothing unless its token was found valid before, and each check is good for one. */
  lemma RefreshNeedsItsCheck(s: State, session: nat, next: nat)
    ensures session !in s.refreshing || next in s.ever ==> Step(s, RefreshIssues(session, next)) == s
    ensures session in s.refreshing && next !in s.ever ==>
              && Step(s, RefreshIssues(session, next)).refreshing[session] == s.refreshing[session] - 1
              && Step(s, RefreshIssues(session, next)).node.sessions == s.node.sessions - {session} + {next}
    ensures session !in s.node.sessions ==> Step(s, RefreshChecks(session)) == s
  {
  }

  /** While a purge holds the row, no sweep step, write or second deletion goes on. */
  lemma RowIsHeld(s: State, e: Event)
    requires s.txn.Some? && (e.Retain? || e.Restore? || e.PurgeBegins? || e.Writes? || e.OwnerDeletes?)
    ensures Step(s, e) == s
  {
  }

  /** Sessions and codes that lapse take nothing else with them. */
  lemma LapsesAlone(s: State, x: nat)
    ensures Step(s, Lapses(x)) == s.(node := s.node.(sessions := s.node.sessions - {x}))
    ensures Step(s, CodesLapse) == s.(node := s.node.(codes := 0))
  {
  }

  // ---------- Deleted by the owner ----------

  function ToDelete(r: nat): seq<Event> {
    [Loads(r, Delete), OwnerDeletes(r)]
  }

  function ThenPurging(ok: bool, revoked: bool, outcome: DeleteAnswer, retires: bool, commits: bool): seq<Event> {
    [Revokes(ok, revoked), AgentDeletes(outcome), Retires(retires)] + [PurgeEnds(commits)]
  }

  /** The row as the owner found it, with what was really done to its session, container and volume. */
  function ReallyDone(n: Node, ends: bool, removes: bool): Node {
    n.(sessions := if ends then n.sessions - Only(n.session) else n.sessions,
       running := n.running && !removes, volume := n.volume && !removes)
  }

  /**
   * An owner's deletion retires the row only if nothing raises and the transaction commits; otherwise the row is as
   * before, whatever was ended and removed on the way.
   */
  lemma OwnersDeletion(s: State, r: nat, ok: bool, revoked: bool, outcome: DeleteAnswer, retires: bool, commits: bool)
    requires s.txn.None? && r !in s.pending
    ensures var t := Run(s, ToDelete(r) + ThenPurging(ok, revoked, outcome, retires, commits));
            var done := ReallyDone(s.node, ok || revoked, ok && Removes(outcome));
            && t.txn.None? && t.pending == s.pending
            && t.node == if ok && !outcome.DeleteRaises? && retires && commits then
                           done.(status := Deleted, retainUntil := None, session := None,
                                 failureDetail := s.node.failureDetail || outcome.DeleteError?)
                         else done
  {
    var purging := ThenPurging(ok, revoked, outcome, retires, commits);
    RunAppend(s, ToDelete(r), purging);
    var begun := Begins(s, r);
    RunThree(begun, purging[0], purging[1], purging[2], [PurgeEnds(commits)]);
    RunOne(Step(Step(Step(begun, purging[0]), purging[1]), purging[2]), PurgeEnds(commits), []);
    assert [PurgeEnds(commits)] + [] == [PurgeEnds(commits)];
    PurgesOn(s, begun, ok, revoked, outcome, retires, commits);
  }

  lemma Begins(s: State, r: nat) returns (t: State)
    requires s.txn.None? && r !in s.pending
    ensures t == Run(s, ToDelete(r)) && t == s.(txn := Some(Txn(true, Begun, SeenOf(s.node), false)))
  {
    var loaded := Step(s, Loads(r, Delete));
    assert loaded.pending == s.pending[r := Loaded(Delete, SeenOf(s.node))];
    Forgets(s.pending, r, Loaded(Delete, SeenOf(s.node)));
    t := Step(loaded, OwnerDeletes(r));
    assert ToDelete(r) == [Loads(r, Delete)] + [OwnerDeletes(r)];
    RunOne(s, Loads(r, Delete), [OwnerDeletes(r)]);
    assert [OwnerDeletes(r)] + [] == [OwnerDeletes(r)];
    RunOne(loaded, OwnerDeletes(r), []);
  }

  lemma PurgesOn(s: State, begun: State, ok: bool, revoked: bool, outcome: DeleteAnswer, retires: bool, commits: bool)
    requires begun == s.(txn := Some(Txn(true, Begun, SeenOf(s.node), false)))
    ensures var t := Step(Step(Step(Step(begun, Revokes(ok, revoked)), AgentDeletes(outcome)), Retires(retires)),
                          PurgeEnds(commits));
            var done := ReallyDone(s.node, ok || revoked, ok && Removes(outcome));
            && t.txn.None? && t.pending == s.pending
            && t.node == if ok && !outcome.DeleteRaises? && retires && commits then
                           done.(status := Deleted, retainUntil := None, session := None,
                                 failureDetail := s.node.failureDetail || outcome.DeleteError?)
                         else done
  {
    var a := Step(begun, Revokes(ok, revoked));
    var b := Step(a, AgentDeletes(outcome));
    if ok {
      assert b.txn == Some(Txn(true, StageAfter(outcome), SeenOf(s.node), true));
    } else {
      assert b == a;
    }
  }

  /** A deletion overtaken by others: what it had not loaded, it does not clear. */
  lemma LatePurge(s: State, seen: Seen, cleared: bool, error: bool, byOwner: bool)
    requires s.txn == Some(Txn(byOwner, RowRetired(error), seen, cleared))
    ensures var t := Step(s, PurgeEnds(true)).node;
            && t.status.Deleted? && t.failureDetail == (s.node.failureDetail || error)
            && t.session == (if cleared && seen.session.Some? then None else s.node.session)
            && t.retainUntil == (if seen.marked then None else s.node.retainUntil)
  {
  }

  // ---------- Codes over runs ----------

  /** At most one request holds codes. */
  predicate OneHolder(s: State) {
    forall r, q :: r in s.pending && q in s.pending && HoldsCode(s.pending[r]) && HoldsCode(s.pending[q]) ==> r == q
  }

  lemma PendingFollows(s: State, e: Event)
    ensures !ActorOf(e).Requester? ==> Step(s, e).pending == s.pending
    ensures ActorOf(e).Requester? ==> NewHolderIsAlone(s, Step(s, e))
  {
    if ActorOf(e).Requester? {
      RequestsFollow(s, e);
    } else {
      OthersKeepPending(s, e);
    }
  }

  /** Whoever starts to hold codes does so while nobody does; everybody else who holds them did before. */
  predicate NewHolderIsAlone(s: State, t: State) {
    forall r :: r in t.pending && HoldsCode(t.pending[r]) ==>
      (r in s.pending && HoldsCode(s.pending[r])) || (!CodeHeld(s) && forall q :: q in t.pending && q != r ==>
                                                      q in s.pending && t.pending[q] == s.pending[q])
  }

  lemma RequestsFollow(s: State, e: Event)
    requires ActorOf(e).Requester?
    ensures NewHolderIsAlone(s, RequestStep(s, e))
  {
  }

  lemma {:induction false} OneHolderAtATime(s: State, events: seq<Event>)
    requires OneHolder(s)
    ensures OneHolder(Run(s, events))
    decreases |events|
  {
    if events != [] {
      PendingFollows(s, events[0]);
      StaysAlone(s, Step(s, events[0]));
      OneHolderAtATime(Step(s, events[0]), events[1..]);
    }
  }

  lemma StaysAlone(s: State, t: State)
    requires OneHolder(s) && (t.pending == s.pending || NewHolderIsAlone(s, t))
    ensures OneHolder(t)
  {
    forall r, q | r in t.pending && q in t.pending && HoldsCode(t.pending[r]) && HoldsCode(t.pending[q])
      ensures r == q
    {
      assert r in s.pending && HoldsCode(s.pending[r]) ==> CodeHeld(s);
      assert q in s.pending && HoldsCode(s.pending[q]) ==> CodeHeld(s);
    }
  }

  /** A reauthorization commits its code while one is left that it had not found when it revoked the others. */
  predicate Overlooks(s: State, e: Event) {
    && e.Writes? && s.txn.None? && e.r in s.pending && s.pending[e.r].Answered?
    && s.pending[e.r].request.Reauthorize? && s.node.codes > s.pending[e.r].revokes
  }

  lemma SecondCodeIff(s: State, e: Event)
    requires s.node.codes <= 1
    ensures Step(s, e).node.codes > 1 <==> Overlooks(s, e)
  {
    match ActorOf(e)
    case Requester => CodesFollow(s, e);
    case _ =>
  }

  lemma CodesFollow(s: State, e: Event)
    requires ActorOf(e).Requester? && s.node.codes <= 1
    ensures RequestStep(s, e).node.codes > 1 <==> Overlooks(s, e)
  {
  }

  /** At every moment of the run one code at most can be exchanged. */
  predicate OneCode(s: State, events: seq<Event>)
    decreases |events|
  {
    s.node.codes <= 1 && (events != [] ==> OneCode(Step(s, events[0]), events[1..]))
  }

  predicate NothingOverlooked(s: State, events: seq<Event>)
    decreases |events|
  {
    events != [] ==> !Overlooks(s, events[0]) && NothingOverlooked(Step(s, events[0]), events[1..])
  }

  /** Over every run one code at most is good exactly if no reauthorization overlooks one. */
  lemma {:induction false} OneCodeIff(s: State, events: seq<Event>)
    requires s.node.codes <= 1
    ensures OneCode(s, events) <==> NothingOverlooked(s, events)
    decreases |events|
  {
    if events != [] {
      SecondCodeIff(s, events[0]);
      var t := Step(s, events[0]);
      if t.node.codes <= 1 {
        OneCodeIff(t, events[1..]);
      }
    }
  }

  /** A failed node whose code has lapsed, with nobody about to change that. */
  predicate Lapsed(s: State) {
    s.node.status.Failed? && s.node.codes == 0 && s.txn.None? && !CodeHeld(s)
  }

  /** From any such node: two reauthorizations at once, every answer good and every transaction committed. */
  lemma ReauthorizedTwiceHasTwoCodes(s: State, r: nat, q: nat)
    requires Lapsed(s) && r !in s.pending && q !in s.pending && r != q
    ensures var events := [Loads(r, Reauthorize), Loads(q, Reauthorize), Calls(r, HostOk)]
                          + [Calls(q, HostOk), Writes(r), Writes(q)];
            Run(s, events).node.codes == 2 && !OneCode(s, events)
  {
    var first := [Loads(r, Reauthorize), Loads(q, Reauthorize), Calls(r, HostOk)];
    var second := [Calls(q, HostOk), Writes(r), Writes(q)];
    var t := BothLoaded(s, r, q);
    RunThree(s, first[0], first[1], first[2], second);
    var u := BothMint(t, r, q, SeenOf(s.node));
    RunThree(t, second[0], second[1], second[2], []);
    assert second + [] == second;
    EndsWithOne(s, first + second);
  }

  lemma BothLoaded(s: State, r: nat, q: nat) returns (t: State)
    requires Lapsed(s) && r !in s.pending && q !in s.pending && r != q
    ensures t == Step(Step(Step(s, Loads(r, Reauthorize)), Loads(q, Reauthorize)), Calls(r, HostOk))
    ensures t.node.codes == 0 && t.txn.None? && !CodeHeld(t) && {r, q} <= t.pending.Keys
    ensures t.pending[r] == Answered(Reauthorize, SeenOf(s.node), 0)
    ensures t.pending[q] == Loaded(Reauthorize, SeenOf(s.node))
  {
    var seen := SeenOf(s.node);
    var a := Step(s, Loads(r, Reauthorize));
    StillNotHeld(s, r, a);
    var b := Step(a, Loads(q, Reauthorize));
    StillNotHeld(a, q, b);
    t := Step(b, Calls(r, HostOk));
    NoCodesNoHolder(b, r, seen);
    assert t.pending == b.pending[r := Answered(Reauthorize, seen, 0)];
  }

  lemma BothMint(t: State, r: nat, q: nat, seen: Seen) returns (u: State)
    requires t.node.codes == 0 && t.txn.None? && !CodeHeld(t) && r != q && {r, q} <= t.pending.Keys
    requires t.pending[r] == Answered(Reauthorize, seen, 0) && seen.status.Failed?
    requires t.pending[q] == Loaded(Reauthorize, seen)
    ensures u == Step(Step(Step(t, Calls(q, HostOk)), Writes(r)), Writes(q)) && u.node.codes == 2
  {
    var d := Step(t, Calls(q, HostOk));
    assert d.pending[q] == Answered(Reauthorize, seen, 0) && d.pending[r] == t.pending[r];
    var e := Step(d, Writes(r));
    assert e.node.codes == 1 && e.pending[q] == d.pending[q];
    u := Step(e, Writes(q));
  }

  /** A reauthorization that found no code to revoke holds none. */
  lemma NoCodesNoHolder(s: State, r: nat, seen: Seen)
    requires !CodeHeld(s)
    ensures !CodeHeld(s.(pending := s.pending[r := Answered(Reauthorize, seen, 0)]))
  {
    var t := s.(pending := s.pending[r := Answered(Reauthorize, seen, 0)]);
    forall q | q in t.pending
      ensures !HoldsCode(t.pending[q])
    {
      assert q != r ==> t.pending[q] == s.pending[q];
    }
  }

  lemma {:induction false} EndsWithOne(s: State, events: seq<Event>)
    ensures OneCode(s, events) ==> Run(s, events).node.codes <= 1
    decreases |events|
  {
    if events != [] {
      EndsWithOne(Step(s, events[0]), events[1..]);
    }
  }
}
