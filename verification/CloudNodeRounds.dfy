/** What one round of the sweep does to each node, decided by what the round was told about it. */
module CloudNodeRounds {
  import opened Options
  import opened CloudNodeRetention
  import opened CloudNodeSweep

  /** Collected, locked, still not entitled, and its host has stopped the container or no longer has it. */
  predicate Marks(n: Node, a: Answers) {
    && !n.status.Stopped? && !n.Retired() && !a.entitledWhenCollected
    && a.retainLock && !a.entitledForRetain && (a.stop.StopOk? || a.stop.StopNotFound?)
  }

  /** Exactly those nodes are stopped and get 30 days; a refusal leaves a failure detail, everything else no trace. */
  lemma MarkedIff(n: Node, a: Answers)
    ensures RetainPhaseVerdict(n, a).Marked? <==> Marks(n, a)
    ensures Marks(n, a) ==>
              RetainPhase(n, a) == n.(status := Stopped, retainUntil := Some(a.markedAt + RETENTION), running := false)
    ensures !Marks(n, a) ==>
              RetainPhase(n, a) == n.(failureDetail := RetainPhase(n, a).failureDetail,
                                      running := RetainPhase(n, a).running)
  {
  }

  /** The host is asked only about nodes that are collected, locked and not entitled under the lock. */
  predicate AsksToStop(n: Node, a: Answers) {
    !n.status.Stopped? && !n.Retired() && !a.entitledWhenCollected && a.retainLock && !a.entitledForRetain
  }

  /** An owner entitled when the row is locked keeps row and container through the phase. */
  lemma EntitledKeepsRowAndContainer(n: Node, a: Answers)
    requires a.entitledWhenCollected || a.entitledForRetain
    ensures RetainPhase(n, a) == n && RetainPhaseVerdict(n, a) == Untouched
  {
  }

  lemma StopAnswersDecide(n: Node, a: Answers)
    ensures !AsksToStop(n, a) ==> RetainPhase(n, a) == n && RetainPhaseVerdict(n, a).Untouched?
    ensures AsksToStop(n, a) ==>
              && (RetainPhaseVerdict(n, a).MarkFailed? <==> a.stop.StopRejected?)
              && (RetainPhaseVerdict(n, a).MarkUnreachable? <==> a.stop.StopUnreachable?)
              && (RetainPhase(n, a).failureDetail <==> n.failureDetail || a.stop.StopRejected?)
              && (RetainPhase(n, a).running <==>
                  n.running && (a.stop.StopRejected? || (a.stop.StopUnreachable? && !a.stop.stoppedAnyway)))
  {
  }

  /** Under its countdown, locked, and entitled again. */
  predicate Restores(n: Node, a: Answers) {
    n.retainUntil.Some? && !n.Retired() && a.restoreLock && a.entitledForRestore
  }

  /** Exactly those lose their countdown; the host's answer decides between starting and failed. */
  lemma RestoredIff(n: Node, a: Answers)
    ensures !Restores(n, a) ==> RestorePhase(n, a) == n && RestorePhaseVerdict(n, a).Untouched?
    ensures Restores(n, a) ==>
              var m := RestorePhase(n, a);
              && m.retainUntil == None && m.volume == n.volume && m.sessions == n.sessions && m.session == n.session
              && (a.start.StartOk? ==> m.status.Starting? && !m.failureDetail && m.running == n.volume
                                       && RestorePhaseVerdict(n, a).Restored?)
              && (a.start.StartError? ==> m.status.Failed? && m.failureDetail
                                          && RestorePhaseVerdict(n, a).RestoreFailed?
                                          && m.running == (n.running || (a.start.startedAnyway && n.volume)))
  {
  }

  // ---------- Counting ----------

  /** The phase that gives a verdict. */
  function PhaseOf(v: Verdict): Phase {
    match v
    case Restored => ToRestore
    case RestoreFailed => ToRestore
    case Purged => ToPurge
    case PurgeFailed => ToPurge
    case PurgeUnreachable => ToPurge
    case _ => ToRetain
  }

  lemma OnlyInItsPhase(p: Phase, n: Node, w: World, a: Answers)
    ensures ActVerdict(p, n, w, a).Untouched? || PhaseOf(ActVerdict(p, n, w, a)) == p
  {
  }

  lemma CountedAre(p: Phase, nodes: map<nat, Node>, w: World, v: Verdict, ids: set<nat>)
    requires ids <= nodes.Keys
    requires forall id :: id in nodes ==> (ActVerdict(p, nodes[id], w, w.answers(id)) == v <==> id in ids)
    ensures CountIn(p, nodes, w, v) == |ids|
  {
    assert (set id | id in nodes && ActVerdict(p, nodes[id], w, w.answers(id)) == v) == ids;
  }

  lemma NoneElsewhere(p: Phase, nodes: map<nat, Node>, w: World, v: Verdict)
    requires !v.Untouched? && PhaseOf(v) != p
    ensures CountIn(p, nodes, w, v) == 0
  {
    forall id | id in nodes
      ensures ActVerdict(p, nodes[id], w, w.answers(id)) != v
    {
      OnlyInItsPhase(p, nodes[id], w, w.answers(id));
    }
    CountedAre(p, nodes, w, v, {});
  }

  /** The table as a phase meets it. */
  function Before(p: Phase, nodes: map<nat, Node>, w: World): map<nat, Node> {
    match p
    case ToRetain => nodes
    case ToRestore => ActAll(ToRetain, nodes, w)
    case ToPurge => BeforePurge(nodes, w)
  }

  lemma TotalIsInItsPhase(nodes: map<nat, Node>, w: World, v: Verdict)
    requires !v.Untouched?
    ensures Total(nodes, w, v) == CountIn(PhaseOf(v), Before(PhaseOf(v), nodes, w), w, v)
  {
    forall p | p != PhaseOf(v)
      ensures CountIn(p, Before(p, nodes, w), w, v) == 0
    {
      NoneElsewhere(p, Before(p, nodes, w), w, v);
    }
    assert Total(nodes, w, v) == CountIn(ToRetain, Before(ToRetain, nodes, w), w, v)
                                 + CountIn(ToRestore, Before(ToRestore, nodes, w), w, v)
                                 + CountIn(ToPurge, Before(ToPurge, nodes, w), w, v);
  }

  /** How many nodes a round marks, and how many refuse or do not answer. */
  lemma MarkedAre(nodes: map<nat, Node>, w: World)
    ensures Total(nodes, w, Marked) == |set id | id in nodes && Marks(nodes[id], w.answers(id))|
    ensures Total(nodes, w, MarkFailed)
            == |set id | id in nodes && AsksToStop(nodes[id], w.answers(id)) && w.answers(id).stop.StopRejected?|
    ensures Total(nodes, w, MarkUnreachable)
            == |set id | id in nodes && AsksToStop(nodes[id], w.answers(id)) && w.answers(id).stop.StopUnreachable?|
  {
    TotalIsInItsPhase(nodes, w, Marked);
    TotalIsInItsPhase(nodes, w, MarkFailed);
    TotalIsInItsPhase(nodes, w, MarkUnreachable);
    forall id | id in nodes
      ensures RetainPhaseVerdict(nodes[id], w.answers(id)).Marked? <==> Marks(nodes[id], w.answers(id))
    {
      MarkedIff(nodes[id], w.answers(id));
    }
    CountedAre(ToRetain, nodes, w, Marked, set id | id in nodes && Marks(nodes[id], w.answers(id)));
    RefusedAre(nodes, w);
  }

  lemma RefusedAre(nodes: map<nat, Node>, w: World)
    ensures CountIn(ToRetain, nodes, w, MarkFailed)
            == |set id | id in nodes && AsksToStop(nodes[id], w.answers(id)) && w.answers(id).stop.StopRejected?|
    ensures CountIn(ToRetain, nodes, w, MarkUnreachable)
            == |set id | id in nodes && AsksToStop(nodes[id], w.answers(id)) && w.answers(id).stop.StopUnreachable?|
  {
    forall id | id in nodes
      ensures RetainPhaseVerdict(nodes[id], w.answers(id)).MarkFailed?
         <==> AsksToStop(nodes[id], w.answers(id)) && w.answers(id).stop.StopRejected?
      ensures RetainPhaseVerdict(nodes[id], w.answers(id)).MarkUnreachable?
         <==> AsksToStop(nodes[id], w.answers(id)) && w.answers(id).stop.StopUnreachable?
    {
      StopAnswersDecide(nodes[id], w.answers(id));
    }
    CountedAre(ToRetain, nodes, w, MarkFailed,
               set id | id in nodes && AsksToStop(nodes[id], w.answers(id)) && w.answers(id).stop.StopRejected?);
    CountedAre(ToRetain, nodes, w, MarkUnreachable,
               set id | id in nodes && AsksToStop(nodes[id], w.answers(id)) && w.answers(id).stop.StopUnreachable?);
  }

  /** Entitled again, under a countdown that this very round may have begun. */
  predicate ComesBack(n: Node, a: Answers) {
    (Marks(n, a) || (n.retainUntil.Some? && !n.Retired())) && a.restoreLock && a.entitledForRestore
  }

  lemma RetainThenRestore(n: Node, a: Answers)
    ensures Restores(RetainPhase(n, a), a) <==> ComesBack(n, a)
  {
  }

  /** How many it restores, and how many fail to start. */
  lemma RestoredAre(nodes: map<nat, Node>, w: World)
    ensures Total(nodes, w, Restored)
            == |set id | id in nodes && ComesBack(nodes[id], w.answers(id)) && w.answers(id).start.StartOk?|
    ensures Total(nodes, w, RestoreFailed)
            == |set id | id in nodes && ComesBack(nodes[id], w.answers(id)) && w.answers(id).start.StartError?|
  {
    TotalIsInItsPhase(nodes, w, Restored);
    TotalIsInItsPhase(nodes, w, RestoreFailed);
    var retained := ActAll(ToRetain, nodes, w);
    forall id | id in nodes
      ensures ActVerdict(ToRestore, retained[id], w, w.answers(id)) == Restored
         <==> ComesBack(nodes[id], w.answers(id)) && w.answers(id).start.StartOk?
      ensures ActVerdict(ToRestore, retained[id], w, w.answers(id)) == RestoreFailed
         <==> ComesBack(nodes[id], w.answers(id)) && w.answers(id).start.StartError?
    {
      RetainThenRestore(nodes[id], w.answers(id));
      RestoredIff(retained[id], w.answers(id));
    }
    CountedAre(ToRestore, retained, w, Restored,
               set id | id in nodes && ComesBack(nodes[id], w.answers(id)) && w.answers(id).start.StartOk?);
    CountedAre(ToRestore, retained, w, RestoreFailed,
               set id | id in nodes && ComesBack(nodes[id], w.answers(id)) && w.answers(id).start.StartError?);
  }

  /** Overdue when the purge comes across it, marks not being backdated. */
  predicate StillOverdue(n: Node, w: World, a: Answers) {
    Overdue(n, w.now) && !(a.restoreLock && a.entitledForRestore)
  }

  predicate Purges(n: Node, w: World, a: Answers) {
    StillOverdue(n, w, a) && w.healthy && a.purgeLock && !a.entitledForPurge
  }

  lemma PurgeVerdictsAre(n: Node, w: World, a: Answers)
    requires a.markedAt >= w.now
    ensures var v := PurgePhaseVerdict(RestorePhase(RetainPhase(n, a), a), w, a);
            && (v.Purged? <==> Purges(n, w, a) && !a.purge.Raises())
            && (v.PurgeFailed? <==> Purges(n, w, a) && a.purge.Raises())
            && (v.PurgeUnreachable? <==> StillOverdue(n, w, a) && !w.healthy)
  {
    RetainMakesNoneOverdue(n, w, a);
    RestoreTakesBack(RetainPhase(n, a), w, a);
  }

  /** Whether the recorded credential is ended, and whether the host gives container and volume up. */
  predicate EndsSession(answer: PurgeAnswer) {
    answer.RaisesRevoking? ==> answer.revoked
  }

  predicate GivesUp(answer: PurgeAnswer) {
    answer.PurgeClean? || (answer.PurgeAgentError? && answer.removedAnyway)
    || (answer.RaisesAfterwards? && answer.removed)
  }

  /** What a round leaves of a node it purges; nodes it does not purge leave the round as restoring left them. */
  lemma PurgeLeaves(n: Node, w: World, a: Answers)
    requires a.markedAt >= w.now
    ensures !Purges(n, w, a) ==> AfterSweep(n, w, a) == RestorePhase(RetainPhase(n, a), a)
    ensures Purges(n, w, a) ==>
              var m := AfterSweep(n, w, a);
              && (if a.purge.Raises() then m.status.Deleting? && m.retainUntil == n.retainUntil
                  else m.status.Deleted? && m.retainUntil.None?)
              && m.failureDetail == (n.failureDetail || a.purge.PurgeAgentError?)
              && m.session == (if EndsSession(a.purge) then None else n.session)
              && m.sessions == (if EndsSession(a.purge) then n.sessions - Only(n.session) else n.sessions)
              && m.running == (n.running && !GivesUp(a.purge)) && m.volume == (n.volume && !GivesUp(a.purge))
              && m.codes == n.codes
  {
    PurgeVerdictsAre(n, w, a);
  }

  /** A phase gives verdict `v` to exactly the nodes in `ids`. */
  predicate GivenTo(p: Phase, nodes: map<nat, Node>, w: World, v: Verdict, ids: set<nat>) {
    ids <= nodes.Keys && forall id :: id in nodes ==> (ActVerdict(p, nodes[id], w, w.answers(id)) == v <==> id in ids)
  }

  function PurgedIn(nodes: map<nat, Node>, w: World, raising: bool): set<nat> {
    set id | id in nodes && Purges(nodes[id], w, w.answers(id)) && w.answers(id).purge.Raises() == raising
  }

  function LeftIn(nodes: map<nat, Node>, w: World): set<nat> {
    set id | id in nodes && StillOverdue(nodes[id], w, w.answers(id)) && !w.healthy
  }

  lemma PurgesAreGiven(nodes: map<nat, Node>, w: World)
    requires forall id :: id in nodes ==> w.answers(id).markedAt >= w.now
    ensures GivenTo(ToPurge, BeforePurge(nodes, w), w, Purged, PurgedIn(nodes, w, false))
    ensures GivenTo(ToPurge, BeforePurge(nodes, w), w, PurgeFailed, PurgedIn(nodes, w, true))
    ensures GivenTo(ToPurge, BeforePurge(nodes, w), w, PurgeUnreachable, LeftIn(nodes, w))
  {
    var restored := BeforePurge(nodes, w);
    forall id | id in nodes
      ensures ActVerdict(ToPurge, restored[id], w, w.answers(id)) == Purged <==> id in PurgedIn(nodes, w, false)
      ensures ActVerdict(ToPurge, restored[id], w, w.answers(id)) == PurgeFailed <==> id in PurgedIn(nodes, w, true)
      ensures ActVerdict(ToPurge, restored[id], w, w.answers(id)) == PurgeUnreachable <==> id in LeftIn(nodes, w)
    {
      PurgeVerdictsAre(nodes[id], w, w.answers(id));
    }
  }

  /** How many it purges, how many raise, and how many it leaves to a healthier host. */
  lemma PurgedAre(nodes: map<nat, Node>, w: World)
    requires forall id :: id in nodes ==> w.answers(id).markedAt >= w.now
    ensures Total(nodes, w, Purged) == |PurgedIn(nodes, w, false)|
    ensures Total(nodes, w, PurgeFailed) == |PurgedIn(nodes, w, true)|
    ensures Total(nodes, w, PurgeUnreachable) == |LeftIn(nodes, w)|
  {
    PurgesAreGiven(nodes, w);
    PurgedTotal(nodes, w, Purged, PurgedIn(nodes, w, false));
    PurgedTotal(nodes, w, PurgeFailed, PurgedIn(nodes, w, true));
    PurgedTotal(nodes, w, PurgeUnreachable, LeftIn(nodes, w));
  }

  lemma PurgedTotal(nodes: map<nat, Node>, w: World, v: Verdict, ids: set<nat>)
    requires PhaseOf(v).ToPurge? && GivenTo(ToPurge, BeforePurge(nodes, w), w, v, ids)
    ensures Total(nodes, w, v) == |ids|
  {
    GivenIsTotal(nodes, w, v, ids);
  }

  lemma GivenIsTotal(nodes: map<nat, Node>, w: World, v: Verdict, ids: set<nat>)
    requires !v.Untouched? && GivenTo(PhaseOf(v), Before(PhaseOf(v), nodes, w), w, v, ids)
    ensures Total(nodes, w, v) == |ids|
  {
    TotalIsInItsPhase(nodes, w, v);
    CountedAre(PhaseOf(v), Before(PhaseOf(v), nodes, w), w, v, ids);
  }
}
