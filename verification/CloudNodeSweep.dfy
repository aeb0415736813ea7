/**
 * One round of the retention sweep over the whole table: collect, then act node by node, phase after phase.
 *
 * `Answers` holds what the world says about one node during the round: whether its row could be locked in
 * each phase, whether its owner is entitled at each moment the code asks, and how the host answers.
 */
module CloudNodeSweep {
  import opened Options
  import opened CloudNodeCountdown
  import opened CloudNodeRetention

  datatype Answers = Answers(
    entitledWhenCollected: bool,
    retainLock: bool, entitledForRetain: bool, stop: StopAnswer, markedAt: int,
    restoreLock: bool, entitledForRestore: bool, start: StartAnswer,
    purgeLock: bool, entitledForPurge: bool, purge: PurgeAnswer)

  datatype World = World(now: int, healthy: bool, answers: nat -> Answers)

  // ---------- One node, phase by phase ----------

  predicate RetainCandidate(n: Node, a: Answers) {
    !n.status.Stopped? && !n.Retired() && !a.entitledWhenCollected
  }

  function RetainPhaseVerdict(n: Node, a: Answers): Verdict {
    if RetainCandidate(n, a) && a.retainLock then RetainVerdict(n, a.entitledForRetain, a.stop) else Untouched
  }

  function RetainPhase(n: Node, a: Answers): Node {
    if RetainCandidate(n, a) && a.retainLock then
      RetainRow(n, a.entitledForRetain, a.stop, a.markedAt).(running := RetainHost(n, a.entitledForRetain, a.stop))
    else n
  }

  predicate RestoreCandidate(n: Node) {
    n.retainUntil.Some? && !n.Retired()
  }

  function RestorePhaseVerdict(n: Node, a: Answers): Verdict {
    if RestoreCandidate(n) && a.restoreLock then RestoreVerdict(n, a.entitledForRestore, a.start) else Untouched
  }

  function RestorePhase(n: Node, a: Answers): Node {
    if RestoreCandidate(n) && a.restoreLock then
      RestoreRow(n, a.entitledForRestore, a.start).(running := RestoreHost(n, a.entitledForRestore, a.start))
    else n
  }

  function PurgePhaseVerdict(n: Node, w: World, a: Answers): Verdict {
    if !Overdue(n, w.now) then Untouched
    else if !w.healthy then PurgeUnreachable
    else if a.purgeLock then PurgeVerdict(n, w.now, a.entitledForPurge, a.purge)
    else Untouched
  }

  function PurgePhase(n: Node, w: World, a: Answers): Node {
    var v := PurgePhaseVerdict(n, w, a);
    if v.Purged? || v.PurgeFailed? then WithRow(PurgeHost(n, a.purge), PurgeRow(n, a.purge), true) else n
  }

  function AfterSweep(n: Node, w: World, a: Answers): Node {
    PurgePhase(RestorePhase(RetainPhase(n, a), a), w, a)
  }

  datatype Phase = ToRetain | ToRestore | ToPurge

  function Act(p: Phase, n: Node, w: World, a: Answers): Node {
    match p case ToRetain => RetainPhase(n, a) case ToRestore => RestorePhase(n, a) case ToPurge => PurgePhase(n, w, a)
  }

  function ActVerdict(p: Phase, n: Node, w: World, a: Answers): Verdict {
    match p
    case ToRetain => RetainPhaseVerdict(n, a)
    case ToRestore => RestorePhaseVerdict(n, a)
    case ToPurge => PurgePhaseVerdict(n, w, a)
  }

  predicate Candidate(p: Phase, n: Node, w: World, a: Answers) {
    match p case ToRetain => RetainCandidate(n, a) case ToRestore => RestoreCandidate(n)
        case ToPurge => Overdue(n, w.now)
  }

  function ActAll(p: Phase, nodes: map<nat, Node>, w: World): map<nat, Node> {
    map id | id in nodes :: Act(p, nodes[id], w, w.answers(id))
  }

  /** How many nodes a phase gives one verdict: what the counter of that verdict must grow by. */
  function CountIn(p: Phase, nodes: map<nat, Node>, w: World, v: Verdict): nat {
    |set id | id in nodes && ActVerdict(p, nodes[id], w, w.answers(id)) == v|
  }

  function Total(nodes: map<nat, Node>, w: World, v: Verdict): nat {
    var retained := ActAll(ToRetain, nodes, w);
    var restored := ActAll(ToRestore, retained, w);
    CountIn(ToRetain, nodes, w, v) + CountIn(ToRestore, retained, w, v) + CountIn(ToPurge, restored, w, v)
  }

  datatype Summary = Summary(succeeded: nat, skippedAgentUnreachable: nat, failed: nat, purgeAgentErrors: nat)

  // ---------- One candidate, under its row lock ----------

  method RetainLocked(n: Node, a: Answers) returns (row: Node, verdict: Verdict)
    requires RetainCandidate(n, a)
    ensures row == RetainPhase(n, a) && verdict == RetainPhaseVerdict(n, a)
  {
    row, verdict := n, Untouched;
    if !a.retainLock || row.status.Stopped? || row.Retired() || a.entitledForRetain {
      return;
    }
    match a.stop {
      case StopUnreachable(stoppedAnyway) =>
        row, verdict := row.(running := row.running && !stoppedAnyway), MarkUnreachable;
      case StopRejected =>
        row, verdict := row.(failureDetail := true), MarkFailed;
      case _ =>
        row, verdict := row.(running := false, status := Stopped, retainUntil := Some(a.markedAt + RETENTION)), Marked;
    }
  }

  method RestoreLocked(n: Node, a: Answers) returns (row: Node, verdict: Verdict)
    requires RestoreCandidate(n)
    ensures row == RestorePhase(n, a) && verdict == RestorePhaseVerdict(n, a)
  {
    row, verdict := n, Untouched;
    if !a.restoreLock || row.retainUntil.None? || row.Retired() || !a.entitledForRestore {
      return;
    }
    // The countdown goes first: an entitled owner's data must not keep it even when the start fails.
    row := row.(retainUntil := None);
    match a.start {
      case StartOk =>
        row, verdict := row.(status := Starting, failureDetail := false, running := row.volume), Restored;
      case StartError(startedAnyway) =>
        row := row.(status := Failed, failureDetail := true, running := row.running || (startedAnyway && row.volume));
        verdict := RestoreFailed;
    }
  }

  /** The purge, step by step: `deleting` is flushed, the credential revoked, the host asked, the row retired. */
  method PurgeLocked(n: Node, w: World, a: Answers) returns (row: Node, verdict: Verdict)
    requires Overdue(n, w.now) && w.healthy
    ensures row == PurgePhase(n, w, a) && verdict == PurgePhaseVerdict(n, w, a)
  {
    row, verdict := n, Untouched;
    if !a.purgeLock || !row.status.Stopped? || row.retainUntil.None? || row.retainUntil.value >= w.now
        || a.entitledForPurge {
      return;
    }
    row, verdict := row.(status := Deleting), PurgeFailed;
    var recorded := row.session;
    if a.purge.RaisesRevoking? && !a.purge.revoked {
      return;
    }
    row := row.(sessions := row.sessions - Only(recorded), session := None);
    if a.purge.RaisesRevoking? {
      return;
    }
    if a.purge.PurgeClean? || (a.purge.PurgeAgentError? && a.purge.removedAnyway)
       || (a.purge.RaisesAfterwards? && a.purge.removed) {
      row := row.(running := false, volume := false);
    }
    if a.purge.RaisesAfterwards? {
      return;
    }
    row := row.(status := Deleted, retainUntil := None, failureDetail := row.failureDetail || a.purge.PurgeAgentError?);
    verdict := Purged;
  }

  // ---------- The table ----------

  class Fleet {
    var nodes: map<nat, Node>
    var counters: multiset<Verdict>

    constructor (nodes: map<nat, Node>)
      ensures this.nodes == nodes && counters == multiset{}
    {
      this.nodes, this.counters := nodes, multiset{};
    }

    method RetainOne(id: nat, w: World)
      requires id in nodes && RetainCandidate(nodes[id], w.answers(id))
      modifies this
      ensures nodes == old(nodes)[id := RetainPhase(old(nodes)[id], w.answers(id))]
      ensures counters == old(counters) + multiset{RetainPhaseVerdict(old(nodes)[id], w.answers(id))}
    {
      var row, verdict := RetainLocked(nodes[id], w.answers(id));
      nodes, counters := nodes[id := row], counters + multiset{verdict};
    }

    method RestoreOne(id: nat, w: World)
      requires id in nodes && RestoreCandidate(nodes[id])
      modifies this
      ensures nodes == old(nodes)[id := RestorePhase(old(nodes)[id], w.answers(id))]
      ensures counters == old(counters) + multiset{RestorePhaseVerdict(old(nodes)[id], w.answers(id))}
    {
      var row, verdict := RestoreLocked(nodes[id], w.answers(id));
      nodes, counters := nodes[id := row], counters + multiset{verdict};
    }

    method PurgeOne(id: nat, w: World)
      requires id in nodes && Overdue(nodes[id], w.now) && w.healthy
      modifies this
      ensures nodes == old(nodes)[id := PurgePhase(old(nodes)[id], w, w.answers(id))]
      ensures counters == old(counters) + multiset{PurgePhaseVerdict(old(nodes)[id], w, w.answers(id))}
    {
      var row, verdict := PurgeLocked(nodes[id], w, w.answers(id));
      nodes, counters := nodes[id := row], counters + multiset{verdict};
    }

    /** One candidate of one phase; with the host down, a purge candidate is only counted. */
    method ActOn(p: Phase, id: nat, w: World)
      requires id in nodes && Candidate(p, nodes[id], w, w.answers(id))
      modifies this
      ensures nodes == old(nodes)[id := Act(p, old(nodes)[id], w, w.answers(id))]
      ensures forall v :: counters[v] == old(counters)[v] + One(ActVerdict(p, old(nodes)[id], w, w.answers(id)) == v)
    {
      match p {
        case ToRetain => RetainOne(id, w);
        case ToRestore => RestoreOne(id, w);
        case ToPurge =>
          if w.healthy {
            PurgeOne(id, w);
          } else {
            counters := counters + multiset{PurgeUnreachable};
          }
      }
    }

    /** The candidates of one phase, in whatever order the query returns them. */
    method RunPhase(p: Phase, w: World) returns (candidates: set<nat>)
      modifies this
      ensures nodes == ActAll(p, old(nodes), w)
      ensures forall v :: v != Untouched ==> counters[v] == old(counters)[v] + CountIn(p, old(nodes), w, v)
      ensures candidates == set id | id in old(nodes) && Candidate(p, old(nodes)[id], w, w.answers(id))
    {
      var table := nodes;
      candidates := set id | id in table && Candidate(p, table[id], w, w.answers(id));
      ActOnEach(p, candidates, w);
    }

    method ActOnEach(p: Phase, candidates: set<nat>, w: World)
      requires candidates == set id | id in nodes && Candidate(p, nodes[id], w, w.answers(id))
      modifies this
      ensures nodes == ActAll(p, old(nodes), w)
      ensures forall v :: v != Untouched ==> counters[v] == old(counters)[v] + CountIn(p, old(nodes), w, v)
    {
      ghost var table, base := nodes, counters;
      var todo := candidates;
      ghost var done := table.Keys - todo;
      SkippedUnchanged(p, table, w, done, candidates);
      while todo != {}
        invariant todo <= candidates && done == table.Keys - todo
        invariant HalfDone(p, table, w, nodes, done)
        invariant Tallied(p, table, w, base, counters, done)
        decreases |todo|
      {
        var id :| id in todo;
        ghost var sofar, rows := counters, nodes;
        ActOn(p, id, w);
        OneMoreActedOn(p, table, w, rows, nodes, done, id);
        OneMoreTallied(p, table, w, base, sofar, counters, done, id);
        todo, done := todo - {id}, done + {id};
      }
      assert done == table.Keys;
      AllTallied(p, table, w, base, counters);
      EveryNodeActedOn(p, table, w, nodes);
    }

    /** The whole round: retain, restore, purge, roll up. */
    method Sweep(w: World) returns (r: Summary)
      modifies this
      ensures nodes == map id | id in old(nodes) :: AfterSweep(old(nodes)[id], w, w.answers(id))
      ensures r.succeeded == Total(old(nodes), w, Marked) + Total(old(nodes), w, Restored)
              + Total(old(nodes), w, Purged)
      ensures r.skippedAgentUnreachable
              == Total(old(nodes), w, MarkUnreachable) + Total(old(nodes), w, PurgeUnreachable)
      ensures r.failed == Total(old(nodes), w, MarkFailed) + Total(old(nodes), w, RestoreFailed)
              + Total(old(nodes), w, PurgeFailed)
      ensures r.purgeAgentErrors == if w.healthy then |AgentErrors(old(nodes), w)| else 0
    {
      var overdue := RunPhases(w);
      var agentErrors := 0;
      if w.healthy {
        agentErrors := |Residues(nodes, overdue)|;
      }
      r := RollUp(agentErrors);
    }

    /** Fresh counters, then the three phases; returns the candidates of the last. */
    method RunPhases(w: World) returns (overdue: set<nat>)
      modifies this
      ensures nodes == map id | id in old(nodes) :: AfterSweep(old(nodes)[id], w, w.answers(id))
      ensures forall v :: v != Untouched ==> counters[v] == Total(old(nodes), w, v)
      ensures Residues(nodes, overdue) == AgentErrors(old(nodes), w)
    {
      counters := multiset{};
      ghost var before := nodes;
      overdue := RunPhase(ToRetain, w);
      overdue := RunPhase(ToRestore, w);
      overdue := RunPhase(ToPurge, w);
      PhasesCompose(before, w);
      ResiduesAreAgentErrors(before, w);
    }

    method RollUp(agentErrors: nat) returns (r: Summary)
      ensures r.succeeded == counters[Marked] + counters[Restored] + counters[Purged]
      ensures r.skippedAgentUnreachable == counters[MarkUnreachable] + counters[PurgeUnreachable]
      ensures r.failed == counters[MarkFailed] + counters[RestoreFailed] + counters[PurgeFailed]
      ensures r.purgeAgentErrors == agentErrors
    {
      r := Summary(counters[Marked] + counters[Restored] + counters[Purged],
                   counters[MarkUnreachable] + counters[PurgeUnreachable],
                   counters[MarkFailed] + counters[RestoreFailed] + counters[PurgeFailed],
                   agentErrors);
    }
  }

  function Residues(nodes: map<nat, Node>, ids: set<nat>): set<nat> {
    set id | id in ids && id in nodes && nodes[id].status.Deleted? && nodes[id].failureDetail
  }

  function BeforePurge(nodes: map<nat, Node>, w: World): map<nat, Node> {
    ActAll(ToRestore, ActAll(ToRetain, nodes, w), w)
  }

  ghost predicate HalfDone(p: Phase, before: map<nat, Node>, w: World, now: map<nat, Node>, done: set<nat>) {
    now.Keys == before.Keys
    && forall id :: id in before ==> now[id] == if id in done then Act(p, before[id], w, w.answers(id)) else before[id]
  }

  lemma OneMoreActedOn(p: Phase, before: map<nat, Node>, w: World, now: map<nat, Node>, next: map<nat, Node>,
                       done: set<nat>, id: nat)
    requires HalfDone(p, before, w, now, done) && id in before && id !in done
    requires next == now[id := Act(p, now[id], w, w.answers(id))]
    ensures HalfDone(p, before, w, next, done + {id})
  {
  }

  lemma EveryNodeActedOn(p: Phase, before: map<nat, Node>, w: World, after: map<nat, Node>)
    requires HalfDone(p, before, w, after, before.Keys)
    ensures after == ActAll(p, before, w)
  {
  }

  lemma PhasesCompose(nodes: map<nat, Node>, w: World)
    ensures ActAll(ToPurge, BeforePurge(nodes, w), w) == map id | id in nodes :: AfterSweep(nodes[id], w, w.answers(id))
  {
  }

  lemma ResiduesAreAgentErrors(nodes: map<nat, Node>, w: World)
    ensures var overdue := set id | id in BeforePurge(nodes, w)
            && Candidate(ToPurge, BeforePurge(nodes, w)[id], w, w.answers(id));
            Residues(ActAll(ToPurge, BeforePurge(nodes, w), w), overdue) == AgentErrors(nodes, w)
  {
    PhasesCompose(nodes, w);
  }

  /** What the `purge_agent_error` query counts: overdue rows now deleted that carry a failure detail. */
  function AgentErrors(nodes: map<nat, Node>, w: World): set<nat> {
    set id | id in nodes
      && Overdue(RestorePhase(RetainPhase(nodes[id], w.answers(id)), w.answers(id)), w.now)
      && AfterSweep(nodes[id], w, w.answers(id)).status.Deleted?
      && AfterSweep(nodes[id], w, w.answers(id)).failureDetail
  }

  // ---------- Counting over a set of nodes ----------

  function One(b: bool): nat { if b then 1 else 0 }

  ghost function VerdictsOf(p: Phase, nodes: map<nat, Node>, w: World): map<nat, Verdict> {
    map id | id in nodes :: ActVerdict(p, nodes[id], w, w.answers(id))
  }

  ghost function With(verdicts: map<nat, Verdict>, v: Verdict, ids: set<nat>): set<nat>
    requires ids <= verdicts.Keys
  {
    set id | id in ids && verdicts[id] == v
  }

  lemma OneMoreWith(verdicts: map<nat, Verdict>, v: Verdict, done: set<nat>, id: nat)
    requires done <= verdicts.Keys && id in verdicts && id !in done
    ensures |With(verdicts, v, done + {id})| == |With(verdicts, v, done)| + One(verdicts[id] == v)
  {
    if verdicts[id] == v {
      assert With(verdicts, v, done + {id}) == With(verdicts, v, done) + {id};
    } else {
      assert With(verdicts, v, done + {id}) == With(verdicts, v, done);
    }
  }

  ghost function Verdicts(p: Phase, nodes: map<nat, Node>, w: World, v: Verdict, ids: set<nat>): set<nat>
    requires ids <= nodes.Keys
  {
    With(VerdictsOf(p, nodes, w), v, ids)
  }

  ghost predicate Tallied(p: Phase, nodes: map<nat, Node>, w: World, base: multiset<Verdict>,
                          counters: multiset<Verdict>, ids: set<nat>)
    requires ids <= nodes.Keys
  {
    forall v :: v != Untouched ==> counters[v] == base[v] + |Verdicts(p, nodes, w, v, ids)|
  }

  lemma OneMoreTallied(p: Phase, nodes: map<nat, Node>, w: World, base: multiset<Verdict>,
                       before: multiset<Verdict>, after: multiset<Verdict>, done: set<nat>, id: nat)
    requires done <= nodes.Keys && id in nodes && id !in done
    requires Tallied(p, nodes, w, base, before, done)
    requires forall v :: after[v] == before[v] + One(ActVerdict(p, nodes[id], w, w.answers(id)) == v)
    ensures Tallied(p, nodes, w, base, after, done + {id})
  {
    var verdicts := VerdictsOf(p, nodes, w);
    forall v | v != Untouched
      ensures after[v] == base[v] + |Verdicts(p, nodes, w, v, done + {id})|
    {
      OneMoreWith(verdicts, v, done, id);
      assert after[v] == before[v] + One(verdicts[id] == v);
    }
  }

  lemma AllTallied(p: Phase, nodes: map<nat, Node>, w: World, base: multiset<Verdict>, counters: multiset<Verdict>)
    requires Tallied(p, nodes, w, base, counters, nodes.Keys)
    ensures forall v :: v != Untouched ==> counters[v] == base[v] + CountIn(p, nodes, w, v)
  {
    forall v
      ensures |Verdicts(p, nodes, w, v, nodes.Keys)| == CountIn(p, nodes, w, v)
    {
      assert Verdicts(p, nodes, w, v, nodes.Keys) == set id | id in nodes
             && ActVerdict(p, nodes[id], w, w.answers(id)) == v;
    }
  }

  /** A node no phase collects keeps its row and gets no verdict. */
  lemma SkippedUnchanged(p: Phase, nodes: map<nat, Node>, w: World, done: set<nat>, candidates: set<nat>)
    requires done == nodes.Keys - candidates
    requires candidates == set id | id in nodes && Candidate(p, nodes[id], w, w.answers(id))
    ensures forall id :: id in done ==> Act(p, nodes[id], w, w.answers(id)) == nodes[id]
    ensures forall v :: v != Untouched ==> Verdicts(p, nodes, w, v, done) == {}
  {
  }

  // ---------- What a round promises ----------

  /** A round repeats under one frozen world: what the queries saw of the owner's entitlement, the locks see as well. */
  predicate Frozen(w: World, a: Answers) {
    a.entitledForRestore == a.entitledWhenCollected && a.entitledForPurge == a.entitledWhenCollected
  }

  predicate Success(v: Verdict) { v.Marked? || v.Restored? || v.Purged? }

  predicate NoSuccessFor(m: Node, w: World, a: Answers) {
    var retained := Act(ToRetain, m, w, a);
    var restored := Act(ToRestore, retained, w, a);
    && !Success(ActVerdict(ToRetain, m, w, a))
    && !Success(ActVerdict(ToRestore, retained, w, a))
    && !Success(ActVerdict(ToPurge, restored, w, a))
  }

  /** Nothing is left for the sweep to do with `m`, whatever it may still note on the row. */
  predicate Idle(m: Node, w: World, a: Answers) {
    && AfterSweep(m, w, a).status == m.status && AfterSweep(m, w, a).retainUntil == m.retainUntil
    && NoSuccessFor(m, w, a)
  }

  lemma IdleWhenEntitled(m: Node, w: World, a: Answers)
    requires Frozen(w, a) && a.entitledWhenCollected
    requires m.retainUntil.None? || m.Retired() || !a.restoreLock
    ensures Idle(m, w, a)
  {
  }

  lemma IdleWhenNotEntitled(m: Node, w: World, a: Answers)
    requires Frozen(w, a) && !a.entitledWhenCollected
    requires !RetainPhaseVerdict(m, a).Marked?
    requires !PurgePhaseVerdict(m, w, a).Purged? && !PurgePhaseVerdict(m, w, a).PurgeFailed?
    ensures Idle(m, w, a)
  {
  }

  lemma SecondSweepIsIdle(n: Node, w: World, a: Answers)
    requires Frozen(w, a)
    ensures Idle(AfterSweep(n, w, a), w, a)
  {
    var m := AfterSweep(n, w, a);
    var retained := RetainPhase(n, a);
    var restored := RestorePhase(retained, a);
    if a.entitledWhenCollected {
      assert retained == n;
      assert m == restored;
      IdleWhenEntitled(m, w, a);
    } else {
      assert restored == retained;
      assert !RetainPhaseVerdict(retained, a).Marked?;
      IdleWhenNotEntitled(m, w, a);
    }
  }

  /** Run twice in one frozen world, the sweep changes nothing the second time and reports no success. */
  lemma SweepIsAFixedPoint(nodes: map<nat, Node>, w: World)
    requires forall id :: id in nodes ==> Frozen(w, w.answers(id))
    ensures var once := map id | id in nodes :: AfterSweep(nodes[id], w, w.answers(id));
            && Total(once, w, Marked) + Total(once, w, Restored) + Total(once, w, Purged) == 0
            && forall id :: id in nodes ==>
                 var twice := AfterSweep(once[id], w, w.answers(id));
                 twice.status == once[id].status && twice.retainUntil == once[id].retainUntil
  {
    var once := map id | id in nodes :: AfterSweep(nodes[id], w, w.answers(id));
    forall id | id in nodes
      ensures Idle(once[id], w, w.answers(id))
    {
      SecondSweepIsIdle(nodes[id], w, w.answers(id));
    }
    NoSuccessInAnyPhase(once, w);
  }

  lemma NoSuccessInAnyPhase(nodes: map<nat, Node>, w: World)
    requires forall id :: id in nodes ==> NoSuccessFor(nodes[id], w, w.answers(id))
    ensures Total(nodes, w, Marked) + Total(nodes, w, Restored) + Total(nodes, w, Purged) == 0
  {
    NoSuccess(ToRetain, nodes, w);
    var retained := ActAll(ToRetain, nodes, w);
    NoSuccess(ToRestore, retained, w);
    var restored := ActAll(ToRestore, retained, w);
    NoSuccess(ToPurge, restored, w);
  }

  lemma NoSuccess(p: Phase, nodes: map<nat, Node>, w: World)
    requires forall id :: id in nodes ==> !Success(ActVerdict(p, nodes[id], w, w.answers(id)))
    ensures CountIn(p, nodes, w, Marked) + CountIn(p, nodes, w, Restored) + CountIn(p, nodes, w, Purged) == 0
  {
    forall v | Success(v)
      ensures CountIn(p, nodes, w, v) == 0
    {
      assert (set id | id in nodes && ActVerdict(p, nodes[id], w, w.answers(id)) == v) == {};
    }
  }

  lemma RetainMakesNoneOverdue(n: Node, w: World, a: Answers)
    requires a.markedAt >= w.now
    ensures Overdue(RetainPhase(n, a), w.now) <==> Overdue(n, w.now)
  {
  }

  lemma RestoreTakesBack(n: Node, w: World, a: Answers)
    ensures Overdue(RestorePhase(n, a), w.now) <==> Overdue(n, w.now) && !(a.restoreLock && a.entitledForRestore)
  {
  }

  /** A last-day renewal wins: seen by the restore or only by the purge's own check, the volume survives the round. */
  lemma LastDayRenewalSurvives(n: Node, w: World, a: Answers)
    requires n.volume && !n.Retired()
    requires (a.restoreLock && a.entitledForRestore) || a.entitledForPurge
    ensures AfterSweep(n, w, a).volume && !AfterSweep(n, w, a).Retired()
    ensures a.restoreLock && a.entitledForRestore ==> AfterSweep(n, w, a).retainUntil == None
  {
    var retained := RetainPhase(n, a);
    var restored := RestorePhase(retained, a);
    RestoreTakesBack(retained, w, a);
    assert restored.volume && !restored.Retired();
    assert PurgePhase(restored, w, a) == restored;
  }

  /** A round purges exactly the overdue rows it could lock whose owner is not entitled and was not restored first. */
  lemma PurgedIff(n: Node, w: World, a: Answers)
    requires !n.Retired() && a.markedAt >= w.now
    ensures AfterSweep(n, w, a).status.Deleted? <==>
            && Overdue(n, w.now) && !(a.restoreLock && a.entitledForRestore)
            && w.healthy && a.purgeLock && !a.entitledForPurge && !a.purge.Raises()
  {
    var retained := RetainPhase(n, a);
    var restored := RestorePhase(retained, a);
    RetainMakesNoneOverdue(n, w, a);
    RestoreTakesBack(retained, w, a);
    assert !restored.Retired();
  }

  /**
   * `purge_agent_error` counts more than host failures: a node whose row already carried a failure detail is
   * counted however cleanly it was removed, because marking a node for retention does not clear the detail.
   */
  lemma CountedAsAgentErrorIff(n: Node, w: World, a: Answers)
    requires Overdue(n, w.now) && !(a.restoreLock && a.entitledForRestore)
    requires AfterSweep(n, w, a).status.Deleted?
    ensures AfterSweep(n, w, a).failureDetail <==> a.purge.PurgeAgentError? || n.failureDetail
  {
  }

  // ---------- A round is a run of steps ----------

  function PurgeEvents(answer: PurgeAnswer): seq<Event> {
    match answer
    case PurgeClean => [Revokes(true, true), AgentDeletes(DeleteOk), Retires(true)]
    case PurgeAgentError(gone) => [Revokes(true, true), AgentDeletes(DeleteError(gone)), Retires(true)]
    case RaisesRevoking(revoked) => [Revokes(false, revoked)]
    case RaisesAfterwards(gone) => [Revokes(true, true), AgentDeletes(DeleteRaises(gone))]
  }

  function RetainEvents(n: Node, a: Answers): seq<Event> {
    if RetainCandidate(n, a) && a.retainLock then [Retain(a.entitledForRetain, a.stop, true)] else []
  }

  function RestoreEvents(n: Node, a: Answers): seq<Event> {
    if RestoreCandidate(n) && a.restoreLock then [Restore(a.entitledForRestore, a.start, true)] else []
  }

  function PurgingEvents(n: Node, w: World, a: Answers): seq<Event> {
    if Overdue(n, w.now) && w.healthy && a.purgeLock && !a.entitledForPurge then
      [PurgeBegins(w.now, false)] + (PurgeEvents(a.purge) + [PurgeEnds(true)])
    else []
  }

  lemma RunTwo(s: State, a: Event, b: Event, rest: seq<Event>)
    ensures Run(s, [a, b] + rest) == Run(Step(Step(s, a), b), rest)
  {
    assert [a, b] + rest == [a] + ([b] + rest);
    RunOne(s, a, [b] + rest);
    RunOne(Step(s, a), b, rest);
  }

  /** A purge as it begins under the sweep's lock. */
  predicate JustBegun(s: State) {
    s.txn == Some(Txn(false, Begun, SeenOf(s.node), false))
  }

  lemma CleanSteps(s: State) returns (t: State)
    requires JustBegun(s)
    ensures t == Step(Step(Step(s, Revokes(true, true)), AgentDeletes(DeleteOk)), Retires(true))
    ensures t.node == PurgeHost(s.node, PurgeClean) && t.clock == s.clock
    ensures t.txn == Some(Txn(false, RowRetired(false), SeenOf(s.node), true))
  {
    t := Step(Step(Step(s, Revokes(true, true)), AgentDeletes(DeleteOk)), Retires(true));
  }

  lemma ErrorSteps(s: State, gone: bool) returns (t: State)
    requires JustBegun(s)
    ensures t == Step(Step(Step(s, Revokes(true, true)), AgentDeletes(DeleteError(gone))), Retires(true))
    ensures t.node == PurgeHost(s.node, PurgeAgentError(gone)) && t.clock == s.clock
    ensures t.txn == Some(Txn(false, RowRetired(true), SeenOf(s.node), true))
  {
    t := Step(Step(Step(s, Revokes(true, true)), AgentDeletes(DeleteError(gone))), Retires(true));
  }

  lemma RaisingSteps(s: State, gone: bool) returns (t: State)
    requires JustBegun(s)
    ensures t == Step(Step(s, Revokes(true, true)), AgentDeletes(DeleteRaises(gone)))
    ensures t.node == PurgeHost(s.node, RaisesAfterwards(gone)) && t.clock == s.clock
    ensures t.txn == Some(Txn(false, Broken, SeenOf(s.node), true))
  {
    t := Step(Step(s, Revokes(true, true)), AgentDeletes(DeleteRaises(gone)));
  }

  lemma StepsBeforeTheEnd(s: State, answer: PurgeAnswer) returns (t: State)
    requires JustBegun(s)
    ensures Run(s, PurgeEvents(answer) + [PurgeEnds(true)]) == Run(t, [PurgeEnds(true)])
    ensures t.node == PurgeHost(s.node, answer) && t.clock == s.clock && t.txn.Some? && !t.txn.value.byOwner
    ensures t.txn.value.seen == SeenOf(s.node) && t.txn.value.cleared == !(answer.RaisesRevoking? && !answer.revoked)
    ensures t.txn.value.stage == if answer.Raises() then Broken else RowRetired(answer.PurgeAgentError?)
  {
    var end := [PurgeEnds(true)];
    match answer
    case PurgeClean =>
      t := CleanSteps(s);
      RunThreeTo(s, Revokes(true, true), AgentDeletes(DeleteOk), Retires(true), t, end);
    case PurgeAgentError(gone) =>
      t := ErrorSteps(s, gone);
      RunThreeTo(s, Revokes(true, true), AgentDeletes(DeleteError(gone)), Retires(true), t, end);
    case RaisesRevoking(revoked) =>
      RunOne(s, Revokes(false, revoked), end);
      t := Step(s, Revokes(false, revoked));
    case RaisesAfterwards(gone) =>
      t := RaisingSteps(s, gone);
      RunTwo(s, Revokes(true, true), AgentDeletes(DeleteRaises(gone)), end);
  }

  /** The steps inside a purge add up to one answer of the whole purge. */
  lemma PurgeIsSteps(s: State, answer: PurgeAnswer)
    requires JustBegun(s)
    ensures var t := Run(s, PurgeEvents(answer) + [PurgeEnds(true)]);
            t.node == WithRow(PurgeHost(s.node, answer), PurgeRow(s.node, answer), true) && t.clock == s.clock
                && t.txn.None?
  {
    var t := StepsBeforeTheEnd(s, answer);
    assert [PurgeEnds(true)] == [PurgeEnds(true)] + [];
    RunOne(t, PurgeEnds(true), []);
  }

  lemma RetainIsSteps(s: State, a: Answers)
    requires s.clock == a.markedAt && s.txn.None?
    ensures var t := Run(s, RetainEvents(s.node, a));
            t.node == RetainPhase(s.node, a) && t.clock == s.clock && t.txn.None?
  {
    if RetainEvents(s.node, a) != [] {
      RunOne(s, Retain(a.entitledForRetain, a.stop, true), []);
      assert RetainEvents(s.node, a) == RetainEvents(s.node, a) + [];
    }
  }

  lemma RestoreIsSteps(s: State, a: Answers)
    requires s.txn.None?
    ensures var t := Run(s, RestoreEvents(s.node, a));
            t.node == RestorePhase(s.node, a) && t.clock == s.clock && t.txn.None?
  {
    if RestoreEvents(s.node, a) != [] {
      RunOne(s, Restore(a.entitledForRestore, a.start, true), []);
      assert RestoreEvents(s.node, a) == RestoreEvents(s.node, a) + [];
    }
  }

  lemma PurgingIsSteps(s: State, w: World, a: Answers)
    requires w.now <= s.clock && s.txn.None?
    ensures Run(s, PurgingEvents(s.node, w, a)).node == PurgePhase(s.node, w, a)
  {
    if PurgingEvents(s.node, w, a) != [] {
      RunOne(s, PurgeBegins(w.now, false), PurgeEvents(a.purge) + [PurgeEnds(true)]);
      PurgeIsSteps(Step(s, PurgeBegins(w.now, false)), a.purge);
    }
  }

  /** For each node a committed round is a run of the interleaved system, so every property of runs covers it. */
  lemma RoundIsARun(s: State, w: World, a: Answers) returns (events: seq<Event>)
    requires w.now <= s.clock == a.markedAt && s.txn.None?
    ensures Run(s, events).node == AfterSweep(s.node, w, a)
    ensures forall i :: 0 <= i < |events| ==> IsSweepStep(events[i])
  {
    var e1 := RetainEvents(s.node, a);
    RetainIsSteps(s, a);
    var s1 := Run(s, e1);
    var e2 := RestoreEvents(s1.node, a);
    RestoreIsSteps(s1, a);
    var s2 := Run(s1, e2);
    var e3 := PurgingEvents(s2.node, w, a);
    PurgingIsSteps(s2, w, a);
    RunAppend(s1, e2, e3);
    RunAppend(s, e1, e2 + e3);
    events := e1 + (e2 + e3);
    SweepSteps(s.node, s1.node, s2.node, w, a);
  }

  lemma SweepSteps(n: Node, n1: Node, n2: Node, w: World, a: Answers)
    ensures forall e :: e in RetainEvents(n, a) + (RestoreEvents(n1, a) + PurgingEvents(n2, w, a)) ==> IsSweepStep(e)
  {
  }
}
