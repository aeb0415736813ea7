/** What a row that says `stopped` promises about the container, and every way that promise is broken. */
module CloudNodeContainers {
  import opened Options
  import opened CloudNodeRetention

  /** Will write another status over `stopped` when its transaction commits. */
  predicate Corrects(p: Pending) {
    p.CanWrite() && WillWrite(p).Some? && !WillWrite(p).value.Stopped?
  }

  ghost predicate Corrected(s: State) {
    exists r :: r in s.pending && Corrects(s.pending[r])
  }

  ghost predicate CorrectedByOther(s: State, r: nat) {
    exists q :: q in s.pending && q != r && Corrects(s.pending[q])
  }

  /** A row that says `stopped` has a running container only while a request that will write it right is under way. */
  ghost predicate StoppedMeansStopped(s: State) {
    s.node.status.Stopped? && s.node.running ==> Corrected(s)
  }

  /**
   * A host that is asked to start brings the container up although the row will go on saying `stopped`: its answer is
   * an error, or the request had loaded `starting`, so that it will find nothing to write.
   */
  predicate StartsUnrecorded(s: State, r: nat, answer: HostAnswer) {
    && CanCall(s, r) && s.pending[r].request.Starts() && RunsAfter(s.node, s.pending[r].request, answer)
    && (answer.HostError? || s.pending[r].seen.status.Starting?)
  }

  /** A request writes `stopped` over a container that runs: an untrue report, or a stop that comes after a start. */
  ghost predicate WritesWrong(s: State, r: nat) {
    && s.txn.None? && r in s.pending && s.pending[r].CanWrite() && s.node.running
    && WillWrite(s.pending[r]) == Some(Stopped) && !CorrectedByOther(s, r)
  }

  /** The ways a step can leave a container running under a `stopped` row that nothing will correct. */
  ghost predicate LeavesItRunning(s: State, e: Event) {
    var n := s.node;
    match e
    case Restore(entitled, start, commits) =>
      && s.txn.None? && n.status.Stopped? && !commits && !Corrected(s)
      && !RestoreVerdict(n, entitled, start).Untouched? && RestoreHost(n, entitled, start)
    case HostStarts => n.status.Stopped? && n.volume && !Corrected(s)
    case Calls(r, answer) => n.status.Stopped? && StartsUnrecorded(s, r, answer) && !Corrected(s)
    case Writes(r) => WritesWrong(s, r)
    case Drops(r) =>
      // The only request that would have written the row right does not commit.
      n.status.Stopped? && n.running && r in s.pending && Corrects(s.pending[r]) && !CorrectedByOther(s, r)
    case _ => false
  }

  lemma Unpends(s: State, r: nat, t: State)
    requires r in s.pending && t.pending == s.pending - {r}
    ensures Corrected(t) <==> CorrectedByOther(s, r)
    ensures Corrected(s) <==> CorrectedByOther(s, r) || Corrects(s.pending[r])
  {
    if CorrectedByOther(s, r) {
      var q :| q in s.pending && q != r && Corrects(s.pending[q]);
      assert q in t.pending;
    }
    if Corrected(t) {
      var q :| q in t.pending && Corrects(t.pending[q]);
      assert q in s.pending && q != r;
    }
  }

  lemma Pends(s: State, r: nat, p: Pending, t: State)
    requires t.pending == s.pending[r := p] && (r in s.pending ==> !Corrects(s.pending[r]))
    ensures Corrected(t) <==> Corrected(s) || Corrects(p)
  {
    assert t.pending[r] == p;
    if Corrected(s) {
      var q :| q in s.pending && Corrects(s.pending[q]);
      assert t.pending[q] == s.pending[q];
    }
  }

  lemma CallsIff(s: State, r: nat, answer: HostAnswer)
    requires StoppedMeansStopped(s)
    ensures !StoppedMeansStopped(Step(s, Calls(r, answer))) <==> LeavesItRunning(s, Calls(r, answer))
  {
    if CanCall(s, r) {
      var p, t := s.pending[r], Step(s, Calls(r, answer));
      if answer.HostOk? {
        Pends(s, r, Answered(p.request, p.seen, s.node.codes), t);
      } else {
        Unpends(s, r, t);
      }
    }
  }

  lemma LoadsIff(s: State, e: Event)
    requires StoppedMeansStopped(s) && (e.Loads? || e.Issues? || e.Records?)
    ensures StoppedMeansStopped(Step(s, e))
  {
    var t := Step(s, e);
    if t.pending != s.pending {
      Pends(s, e.r, t.pending[e.r], t);
    }
  }

  lemma EndsIff(s: State, e: Event)
    requires StoppedMeansStopped(s) && (e.Writes? || e.Drops? || e.OwnerDeletes?)
    ensures !StoppedMeansStopped(Step(s, e)) <==> LeavesItRunning(s, e)
  {
    var t := Step(s, e);
    if e.r in s.pending {
      if t.pending == s.pending - {e.r} {
        Unpends(s, e.r, t);
      }
    } else {
      assert s.pending - {e.r} == s.pending;
    }
  }

  /** One step breaks the promise exactly in these ways. */
  lemma StoppedButRunningIff(s: State, e: Event)
    requires StoppedMeansStopped(s)
    ensures !StoppedMeansStopped(Step(s, e)) <==> LeavesItRunning(s, e)
  {
    if ActorOf(e).Requester? {
      RequestIff(s, e);
    } else {
      OthersIff(s, e);
    }
  }

  lemma RequestIff(s: State, e: Event)
    requires StoppedMeansStopped(s) && ActorOf(e).Requester?
    ensures !StoppedMeansStopped(Step(s, e)) <==> LeavesItRunning(s, e)
  {
    match e
    case Calls(r, answer) => CallsIff(s, r, answer);
    case Writes(_) => EndsIff(s, e);
    case Drops(_) => EndsIff(s, e);
    case OwnerDeletes(_) => EndsIff(s, e);
    case _ => LoadsIff(s, e);
  }

  lemma OthersIff(s: State, e: Event)
    requires StoppedMeansStopped(s) && !ActorOf(e).Requester?
    ensures !StoppedMeansStopped(Step(s, e)) <==> LeavesItRunning(s, e)
  {
    OthersKeepPending(s, e);
    assert Corrected(Step(s, e)) <==> Corrected(s);
  }

  ghost predicate PromiseKept(s: State, events: seq<Event>)
    decreases |events|
  {
    StoppedMeansStopped(s) && (events != [] ==> PromiseKept(Step(s, events[0]), events[1..]))
  }

  ghost predicate NeverLeftRunning(s: State, events: seq<Event>)
    decreases |events|
  {
    events != [] ==> !LeavesItRunning(s, events[0]) && NeverLeftRunning(Step(s, events[0]), events[1..])
  }

  lemma {:induction false} PromiseKeptIff(s: State, events: seq<Event>)
    requires StoppedMeansStopped(s)
    ensures PromiseKept(s, events) <==> NeverLeftRunning(s, events)
    ensures NeverLeftRunning(s, events) ==> StoppedMeansStopped(Run(s, events))
    decreases |events|
  {
    if events != [] {
      StoppedButRunningIff(s, events[0]);
      if StoppedMeansStopped(Step(s, events[0])) {
        PromiseKeptIff(Step(s, events[0]), events[1..]);
      }
    }
  }

  /**
   * Over every run: the promise is kept at every moment exactly if no step is one of these; and then a row that says
   * `stopped` with no request under way has no running container.
   */
  lemma StoppedNodesDoNotRun(clock: int, birth: Birth, events: seq<Event>)
    ensures PromiseKept(Born(clock, birth), events) <==> NeverLeftRunning(Born(clock, birth), events)
    ensures var t := Run(Born(clock, birth), events);
            NeverLeftRunning(Born(clock, birth), events) && t.node.status.Stopped? && t.pending == map[] ==>
              !t.node.running
  {
    PromiseKeptIff(Born(clock, birth), events);
  }

  predicate CommittedSweepStep(e: Event) {
    IsSweepStep(e) && (e.Restore? ==> e.commits)
  }

  lemma SweepStepKeepsPromise(s: State, e: Event)
    requires StoppedMeansStopped(s) && (CommittedSweepStep(e) || e.Tick?)
    ensures StoppedMeansStopped(Step(s, e))
  {
    StoppedButRunningIff(s, e);
  }

  /** Any number of sweeps whose transactions commit keep the promise, whatever is under way and the host answers. */
  lemma {:induction false} CommittedSweepsKeepThePromise(s: State, events: seq<Event>)
    requires StoppedMeansStopped(s)
    requires forall i :: 0 <= i < |events| ==> CommittedSweepStep(events[i]) || events[i].Tick?
    ensures PromiseKept(s, events)
    decreases |events|
  {
    if events != [] {
      SweepStepKeepsPromise(s, events[0]);
      CommittedSweepsKeepThePromise(Step(s, events[0]), events[1..]);
    }
  }

  /**
   * Every answer can be good and every transaction commit: a restart loads `starting`, the sweep stops the node, the
   * restart reaches the host, and has nothing to write.
   */
  lemma RestartLosesItsWrite(clock: int, r: nat)
    ensures var t := Run(Born(clock, Up), [Loads(r, Restart), Retain(false, StopOk, true), Calls(r, HostOk)]
                                          + ([Writes(r)] + []));
            t.node.status.Stopped? && t.node.running && t.pending == map[] && t.txn.None?
  {
    var s := Born(clock, Up);
    var retained := LoadsThenRetained(clock, r);
    var called := RestartsRetained(retained, r, SeenOf(s.node));
    RunThreeTo(s, Loads(r, Restart), Retain(false, StopOk, true), Calls(r, HostOk), called, [Writes(r)] + []);
    RunOne(called, Writes(r), []);
  }

  lemma LoadsThenRetained(clock: int, r: nat) returns (t: State)
    ensures t == Step(Step(Born(clock, Up), Loads(r, Restart)), Retain(false, StopOk, true))
    ensures t.pending == map[r := Loaded(Restart, SeenOf(Born(clock, Up).node))]
    ensures t.node.status.Stopped? && t.node.volume && t.txn.None?
  {
    var loaded := Step(Born(clock, Up), Loads(r, Restart));
    assert loaded.pending == map[r := Loaded(Restart, SeenOf(Born(clock, Up).node))];
    t := Step(loaded, Retain(false, StopOk, true));
  }

  lemma RestartsRetained(s: State, r: nat, seen: Seen) returns (t: State)
    requires s.pending == map[r := Loaded(Restart, seen)] && seen.status.Starting?
    requires s.node.status.Stopped? && s.node.volume && s.txn.None?
    ensures t == Step(s, Calls(r, HostOk)) && t.pending == map[r := Answered(Restart, seen, s.node.codes)]
    ensures t.node.status.Stopped? && t.node.running && t.txn.None?
  {
    t := Step(s, Calls(r, HostOk));
    assert t.pending == map[r := Answered(Restart, seen, s.node.codes)];
  }
}
