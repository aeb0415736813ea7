/** The resumable migration: owners in ascending order, one transaction each, a cursor behind the last one committed. */
module GrowthCursor {
  import opened Options

  /** How one attempt at an owner ends. `LostAck`: the commit took effect, and its answer was lost. */
  datatype Outcome =
    | Committed
    | Raised(transient: bool)
    | LostAck(transient: bool)

  predicate Ascending(s: seq<int>) {
    forall i, j :: 0 <= i < j < |s| ==> s[i] < s[j]
  }

  // ---------- One owner ----------

  datatype Tried = Tried(ok: bool, attempts: nat, commits: nat)

  /** From attempt number `attempt` on. */
  function TryFrom(outcome: nat -> Outcome, maxRetries: nat, attempt: nat): Tried
    requires attempt <= maxRetries
    decreases maxRetries - attempt
  {
    match outcome(attempt)
    case Committed => Tried(true, attempt + 1, 1)
    case Raised(transient) =>
      if attempt + 1 > maxRetries || !transient then Tried(false, attempt + 1, 0)
          else TryFrom(outcome, maxRetries, attempt + 1)
    case LostAck(transient) =>
      var rest := if attempt + 1 > maxRetries || !transient then Tried(false, attempt + 1, 0)
          else TryFrom(outcome, maxRetries, attempt + 1);
      rest.(commits := rest.commits + 1)
  }

  function Copies(user: int, n: nat): seq<int> {
    seq(n, i => user)
  }

  /**
   * An owner counts as done only after a commit; it is committed once, or not at all when it failed, unless an answer
   * was lost.
   */
  lemma {:induction false} CommittedOnceIff(outcome: nat -> Outcome, maxRetries: nat, attempt: nat)
    requires attempt <= maxRetries
    ensures var t := TryFrom(outcome, maxRetries, attempt);
            && attempt < t.attempts <= maxRetries + 1
            && (t.ok ==> t.commits >= 1)
            && (t.ok <==> outcome(t.attempts - 1).Committed?)
            && (t.commits == (if t.ok then 1 else 0) <==>
                forall k :: attempt <= k < t.attempts ==> !outcome(k).LostAck?)
    decreases maxRetries - attempt
  {
    var o := outcome(attempt);
    if !o.Committed? && attempt + 1 <= maxRetries && o.transient {
      CommittedOnceIff(outcome, maxRetries, attempt + 1);
      var t := TryFrom(outcome, maxRetries, attempt + 1);
      assert (forall k :: attempt <= k < t.attempts ==> !outcome(k).LostAck?)
        <==> !o.LostAck? && forall k :: attempt + 1 <= k < t.attempts ==> !outcome(k).LostAck?;
    }
  }

  /** An attempt after which another one is made, if there is one left. */
  predicate TriesAgain(o: Outcome) {
    !o.Committed? && o.transient
  }

  ghost predicate CommitsAt(outcome: nat -> Outcome, first: nat, k: nat) {
    first <= k && outcome(k).Committed? && forall j :: first <= j < k ==> TriesAgain(outcome(j))
  }

  /** Some attempt within the retries is committed, and every one before it fails for the moment only. */
  ghost predicate Succeeds(outcome: nat -> Outcome, maxRetries: nat, first: nat) {
    exists k: nat :: k <= maxRetries && CommitsAt(outcome, first, k)
  }

  /** Attempt `last` ends it: it is the last allowed or needs no other, and all before it did. */
  ghost predicate IsLastOf(outcome: nat -> Outcome, maxRetries: nat, first: nat, last: nat) {
    && first <= last <= maxRetries && (last == maxRetries || !TriesAgain(outcome(last)))
    && forall k :: first <= k < last ==> TriesAgain(outcome(k))
  }

  lemma SucceedsLater(outcome: nat -> Outcome, maxRetries: nat, first: nat)
    requires TriesAgain(outcome(first))
    ensures Succeeds(outcome, maxRetries, first) <==> Succeeds(outcome, maxRetries, first + 1)
  {
    if Succeeds(outcome, maxRetries, first) {
      var k: nat :| k <= maxRetries && CommitsAt(outcome, first, k);
      assert CommitsAt(outcome, first + 1, k);
    }
    var second := first + 1;
    if Succeeds(outcome, maxRetries, second) {
      var k: nat :| k <= maxRetries && CommitsAt(outcome, second, k);
      assert CommitsAt(outcome, first, k);
    }
  }

  /**
   * The attempts go on while they fail for the moment and retries are left, and no longer: the last one is the first
   * that does not, or the last allowed. So an owner is done exactly if an attempt within the retries is committed with
   * only passing failures before it.
   */
  lemma {:induction false} AttemptsAre(outcome: nat -> Outcome, maxRetries: nat, attempt: nat)
    requires attempt <= maxRetries
    ensures attempt < TryFrom(outcome, maxRetries, attempt).attempts <= maxRetries + 1
    ensures IsLastOf(outcome, maxRetries, attempt, TryFrom(outcome, maxRetries, attempt).attempts - 1)
    ensures TryFrom(outcome, maxRetries, attempt).ok <==> Succeeds(outcome, maxRetries, attempt)
    decreases maxRetries - attempt
  {
    if TriesAgain(outcome(attempt)) {
      SucceedsLater(outcome, maxRetries, attempt);
      if attempt < maxRetries {
        AttemptsAre(outcome, maxRetries, attempt + 1);
      }
    } else if outcome(attempt).Committed? {
      assert CommitsAt(outcome, attempt, attempt);
    }
  }

  /** The attempts whose commit took effect, acknowledged or not. */
  function TookEffect(outcome: nat -> Outcome, from: nat, upTo: nat): set<nat> {
    set k: nat | from <= k < upTo && !outcome(k).Raised?
  }

  lemma {:induction false} CommitsAre(outcome: nat -> Outcome, maxRetries: nat, attempt: nat)
    requires attempt <= maxRetries
    ensures TryFrom(outcome, maxRetries, attempt).commits
            == |TookEffect(outcome, attempt, TryFrom(outcome, maxRetries, attempt).attempts)|
    decreases maxRetries - attempt
  {
    var t := TryFrom(outcome, maxRetries, attempt);
    AttemptsAre(outcome, maxRetries, attempt);
    var later := TookEffect(outcome, attempt + 1, t.attempts);
    assert TookEffect(outcome, attempt, t.attempts) == later + if outcome(attempt).Raised? then {} else {attempt};
    if TriesAgain(outcome(attempt)) && attempt < maxRetries {
      CommitsAre(outcome, maxRetries, attempt + 1);
    } else {
      assert later == {};
    }
  }

  // ---------- Many owners ----------

  /** What the database answers, per owner and attempt. */
  type World = int -> nat -> Outcome

  /** `differs`: the owners whose shadow report finds differences. */
  datatype Plan = Plan(world: World, maxRetries: nat, apply: bool, differs: int -> bool)
  datatype Walked = Walked(commits: seq<int>, done: nat, failed: bool, differing: nat)

  /** Shadow mode asks once for a report and writes nothing. */
  function PlanOf(world: World, maxRetries: nat, apply: bool, shadow: bool, differs: int -> bool): Plan {
    if shadow then Plan(world, 0, false, differs) else Plan(world, maxRetries, apply, differs)
  }

  /** The first `upTo` owners one after the other, up to the first that fails for good. A dry run commits nothing. */
  function Walk(owners: seq<int>, upTo: nat, plan: Plan): (w: Walked)
    requires upTo <= |owners|
    ensures w.done <= upTo && (w.failed <==> w.done < upTo)
  {
    if upTo == 0 then Walked([], 0, false, 0)
    else
      var before := Walk(owners, upTo - 1, plan);
      if before.failed then before else Visit(before, owners[upTo - 1], plan)
  }

  function Visit(before: Walked, user: int, plan: Plan): Walked {
    var t := TryFrom(plan.world(user), plan.maxRetries, 0);
    Walked(before.commits + Copies(user, if plan.apply then t.commits else 0),
           before.done + (if t.ok then 1 else 0), !t.ok,
           before.differing + (if t.ok && plan.differs(user) then 1 else 0))
  }

  ghost predicate OwnerSucceeds(plan: Plan, user: int) {
    Succeeds(plan.world(user), plan.maxRetries, 0)
  }

  function DifferingUpTo(owners: seq<int>, n: nat, plan: Plan): set<nat>
    requires n <= |owners|
  {
    set i: nat | i < n && plan.differs(owners[i])
  }

  /** The walk stops at the first owner that does not succeed, and counts the reports that differ up to there. */
  lemma {:induction false} WalkIs(owners: seq<int>, upTo: nat, plan: Plan)
    requires upTo <= |owners|
    ensures var w := Walk(owners, upTo, plan);
            && (forall i :: 0 <= i < w.done ==> OwnerSucceeds(plan, owners[i]))
            && (w.failed ==> !OwnerSucceeds(plan, owners[w.done]))
            && w.differing == |DifferingUpTo(owners, w.done, plan)|
    decreases upTo
  {
    if upTo > 0 {
      WalkIs(owners, upTo - 1, plan);
      AttemptsAre(plan.world(owners[upTo - 1]), plan.maxRetries, 0);
      var before, w := Walk(owners, upTo - 1, plan), Walk(owners, upTo, plan);
      if w.done > before.done {
        OneMoreDiffering(owners, before.done, plan);
      }
    }
  }

  lemma OneMoreDiffering(owners: seq<int>, n: nat, plan: Plan)
    requires n < |owners|
    ensures |DifferingUpTo(owners, n + 1, plan)|
            == |DifferingUpTo(owners, n, plan)| + (if plan.differs(owners[n]) then 1 else 0)
  {
    assert DifferingUpTo(owners, n + 1, plan)
        == DifferingUpTo(owners, n, plan) + if plan.differs(owners[n]) then {n} else {};
  }

  /** Nothing after the first failing owner is touched. */
  lemma {:induction false} FailureEndsWalk(owners: seq<int>, i: nat, upTo: nat, plan: Plan)
    requires i <= upTo <= |owners| && Walk(owners, i, plan).failed
    ensures Walk(owners, upTo, plan) == Walk(owners, i, plan)
    decreases upTo
  {
    if i < upTo {
      FailureEndsWalk(owners, i, upTo - 1, plan);
    }
  }

  /** How many of the ascending candidates are at or below `after`. */
  function Passed(candidates: seq<int>, after: int): (n: nat)
    ensures n <= |candidates|
  {
    if candidates == [] then 0
    else if candidates[|candidates| - 1] <= after then |candidates|
    else Passed(candidates[..|candidates| - 1], after)
  }

  lemma {:induction false} PassedSplits(candidates: seq<int>, after: int)
    requires Ascending(candidates)
    ensures forall i :: 0 <= i < |candidates| ==> (candidates[i] <= after <==> i < Passed(candidates, after))
  {
    if candidates != [] && candidates[|candidates| - 1] > after {
      PassedSplits(candidates[..|candidates| - 1], after);
    }
  }

  function Min(a: int, b: int): int {
    if a <= b then a else b
  }

  /** The owners in `batches` full batches. */
  function InBatches(batches: nat, batchSize: nat): nat {
    if batches == 0 then 0 else InBatches(batches - 1, batchSize) + batchSize
  }

  lemma {:induction false} MoreBatchesMore(a: nat, b: nat, batchSize: nat)
    requires a <= b
    ensures InBatches(a, batchSize) <= InBatches(b, batchSize)
  {
    if a < b {
      MoreBatchesMore(a, b - 1, batchSize);
    }
  }

  /** The owners one run is to treat. */
  function Todo(candidates: seq<int>, after: int, batchSize: nat, maxBatches: nat): seq<int> {
    var rest := candidates[Passed(candidates, after)..];
    if maxBatches == 0 then rest else rest[..Min(|rest|, InBatches(maxBatches, batchSize))]
  }

  /** The owners of a run: the one asked for, whether or not it is a candidate, or the next candidates. */
  function TodoOf(candidates: seq<int>, owner: Option<int>, after: int, batchSize: nat, maxBatches: int): seq<int> {
    if maxBatches < 0 then [] else if owner.Some? then [owner.value] else Todo(candidates, after, batchSize, maxBatches)
  }

  /** Without `apply` nothing is committed. */
  lemma {:induction false} DryWalk(todo: seq<int>, n: nat, plan: Plan)
    requires n <= |todo| && !plan.apply
    ensures Walk(todo, n, plan).commits == []
    decreases n
  {
    if n > 0 {
      DryWalk(todo, n - 1, plan);
    }
  }

  function CursorAfter(todo: seq<int>, done: nat, after: int): int
    requires done <= |todo|
  {
    if done == 0 then after else todo[done - 1]
  }

  lemma PassedAt(candidates: seq<int>, after: int, n: nat)
    requires Ascending(candidates) && n <= |candidates|
    requires forall i :: 0 <= i < |candidates| ==> (candidates[i] <= after <==> i < n)
    ensures Passed(candidates, after) == n
  {
    PassedSplits(candidates, after);
    var m := Passed(candidates, after);
    assert (m < |candidates| ==> after < candidates[m]) && (n < |candidates| ==> after < candidates[n]);
  }

  /** Behind a cursor the query starts where the run left off. */
  lemma PassedAtCursor(candidates: seq<int>, after: int, processed: nat)
    requires Ascending(candidates) && Passed(candidates, after) + processed <= |candidates|
    ensures Passed(candidates, CursorAfter(candidates[Passed(candidates, after)..], processed, after))
            == Passed(candidates, after) + processed
  {
    PassedSplits(candidates, after);
    var from := Passed(candidates, after);
    if processed > 0 {
      assert candidates[from..][processed - 1] == candidates[from + processed - 1];
      PassedAt(candidates, candidates[from + processed - 1], from + processed);
    }
  }

  /** The batch limit cuts the list at a batch boundary. */
  lemma WholeBatchOrEnd(candidates: seq<int>, after: int, batchSize: nat, maxBatches: nat, batches: nat)
    requires maxBatches == 0 || batches < maxBatches
    ensures IsPart(candidates, after, Todo(candidates, after, batchSize, maxBatches), InBatches(batches, batchSize),
                   batchSize)
  {
    if maxBatches > 0 {
      MoreBatchesMore(batches + 1, maxBatches, batchSize);
    }
  }

  lemma EveryBatchWholeOrEnd(candidates: seq<int>, after: int, todo: seq<int>, batchSize: nat, maxBatches: nat)
    requires todo == Todo(candidates, after, batchSize, maxBatches)
    ensures forall b: nat :: maxBatches == 0 || b < maxBatches
                             ==> IsPart(candidates, after, todo, InBatches(b, batchSize), batchSize)
  {
    forall b: nat | maxBatches == 0 || b < maxBatches
      ensures IsPart(candidates, after, todo, InBatches(b, batchSize), batchSize)
    {
      WholeBatchOrEnd(candidates, after, batchSize, maxBatches, b);
    }
  }

  /** `todo` is a first part of what lies behind `after`, and does not cut the batch at `from` short. */
  ghost predicate IsPart(candidates: seq<int>, after: int, todo: seq<int>, from: nat, batchSize: nat) {
    var all := candidates[Passed(candidates, after)..];
    |todo| <= |all| && todo == all[..|todo|] && (|todo| == |all| || from + batchSize <= |todo|)
  }

  lemma NextBatch(candidates: seq<int>, after: int, todo: seq<int>, batchSize: nat, processed: nat, ids: seq<int>)
    requires Ascending(candidates) && processed <= |todo| && IsPart(candidates, after, todo, processed, batchSize)
    requires var rest := candidates[Passed(candidates, CursorAfter(todo, processed, after))..];
             ids == rest[..Min(|rest|, batchSize)]
    ensures processed + |ids| <= |todo| && todo[processed..processed + |ids|] == ids
    ensures |ids| <= batchSize && (|ids| < batchSize ==> processed + |ids| == |todo|)
  {
    var all := candidates[Passed(candidates, after)..];
    assert CursorAfter(todo, processed, after) == CursorAfter(all, processed, after);
    PassedAtCursor(candidates, after, processed);
    assert candidates[Passed(candidates, after) + processed..] == all[processed..];
  }

  /** What is committed and what the cursor is right after an owner. */
  datatype Moment = Moment(commits: seq<int>, cursor: int)

  /** The first `n` owners are done, and nothing else is. */
  ghost predicate Reached(m: Moment, start: seq<int>, todo: seq<int>, n: nat, plan: Plan, after: int) {
    n <= |todo| && !Walk(todo, n, plan).failed && m.commits == start + Walk(todo, n, plan).commits
        && m.cursor == CursorAfter(todo, n, after)
  }

  /** So it was from the start, after each of the first `n` owners. */
  ghost predicate ReachedEach(moments: seq<Moment>, start: seq<int>, todo: seq<int>, n: nat, plan: Plan, after: int) {
    |moments| == n + 1 && forall k :: 0 <= k <= n ==> Reached(moments[k], start, todo, k, plan, after)
  }

  /** The same, with the present moment the last of them and the reports that differ counted. */
  ghost predicate OnTrack(moments: seq<Moment>, now: Moment, differing: nat, start: seq<int>, todo: seq<int>, n: nat,
                          plan: Plan, after: int)
  {
    n <= |todo| && ReachedEach(moments, start, todo, n, plan, after) && moments[n] == now
        && differing == Walk(todo, n, plan).differing
  }

  lemma CursorOnTrack(moments: seq<Moment>, now: Moment, differing: nat, start: seq<int>, todo: seq<int>, n: nat,
                      plan: Plan, after: int)
    requires OnTrack(moments, now, differing, start, todo, n, plan, after)
    ensures n <= |todo| && now.cursor == CursorAfter(todo, n, after)
  {
    assert Reached(moments[n], start, todo, n, plan, after);
  }

  lemma StartsOnTrack(commits: seq<int>, todo: seq<int>, plan: Plan, after: int)
    ensures OnTrack([Moment(commits, after)], Moment(commits, after), 0, commits, todo, 0, plan, after)
  {
  }

  /** The run stopped at `user`, with the cursor behind the owner before. */
  ghost predicate Stopped(moments: seq<Moment>, m: Moment, start: seq<int>, todo: seq<int>, plan: Plan, after: int,
                          user: int)
  {
    var w := Walk(todo, |todo|, plan);
    && w.failed && m.commits == start + w.commits && m.cursor == CursorAfter(todo, w.done, after)
        && user == todo[w.done]
    && ReachedEach(moments, start, todo, w.done, plan, after)
  }

  /** One more owner: the run stays on track, or stops there. */
  lemma OneMore(moments: seq<Moment>, now: Moment, differing: nat, start: seq<int>, todo: seq<int>, n: nat,
                plan: Plan, after: int, commits: seq<int>)
    requires OnTrack(moments, now, differing, start, todo, n, plan, after) && n < |todo|
    requires var t := TryFrom(plan.world(todo[n]), plan.maxRetries, 0);
             commits == now.commits + Copies(todo[n], if plan.apply then t.commits else 0)
    ensures var t, next := TryFrom(plan.world(todo[n]), plan.maxRetries, 0), Moment(commits, todo[n]);
            && (t.ok ==> OnTrack(moments + [next], next, differing + (if plan.differs(todo[n]) then 1 else 0),
                                 start, todo, n + 1, plan, after))
            && (!t.ok ==> Stopped(moments, Moment(commits, now.cursor), start, todo, plan, after, todo[n]))
  {
    assert Reached(moments[n], start, todo, n, plan, after);
    var t := TryFrom(plan.world(todo[n]), plan.maxRetries, 0);
    if t.ok {
      assert Reached(Moment(commits, todo[n]), start, todo, n + 1, plan, after);
    } else {
      FailureEndsWalk(todo, n + 1, |todo|, plan);
    }
  }

  datatype Report =
    | Rejected
    | Failed(safeAfter: int, user: int)
    | Completed(nextCursor: int, processed: nat, differing: nat)

  /** The run treats all owners if they all succeed; otherwise it stops at the first that does not. */
  ghost predicate EndsAt(r: Report, todo: seq<int>, after: int, plan: Plan) {
    && (r.Completed? <==> forall i :: 0 <= i < |todo| ==> OwnerSucceeds(plan, todo[i]))
    && (r.Failed? ==> exists i :: 0 <= i < |todo| && StopsAt(r, todo, after, plan, i))
  }

  ghost predicate StopsAt(r: Report, todo: seq<int>, after: int, plan: Plan, i: nat)
    requires r.Failed? && i < |todo|
  {
    && r.user == todo[i] && !OwnerSucceeds(plan, todo[i]) && r.safeAfter == (if i == 0 then after else todo[i - 1])
    && forall k :: 0 <= k < i ==> OwnerSucceeds(plan, todo[k])
  }

  function ReportOf(w: Walked, todo: seq<int>, after: int): Report
    requires w.done <= |todo| && (w.failed ==> w.done < |todo|)
  {
    if w.failed then Failed(CursorAfter(todo, w.done, after), todo[w.done])
    else Completed(CursorAfter(todo, |todo|, after), |todo|, w.differing)
  }

  lemma ReportEnds(todo: seq<int>, after: int, plan: Plan)
    ensures EndsAt(ReportOf(Walk(todo, |todo|, plan), todo, after), todo, after, plan)
  {
    WalkIs(todo, |todo|, plan);
    var w := Walk(todo, |todo|, plan);
    if w.failed {
      assert StopsAt(ReportOf(w, todo, after), todo, after, plan, w.done);
    }
  }

  /** How many of `left` owners a run may treat. */
  function LeftFor(left: nat, batchSize: nat, maxBatches: nat): int {
    if maxBatches == 0 then left else Min(left, InBatches(maxBatches, batchSize))
  }

  class Migration {
    const candidates: seq<int>  // the owners of all six tables, without duplicates, in order
    var committed: seq<int>

    constructor (candidates: seq<int>)
      ensures this.candidates == candidates && committed == []
    {
      this.candidates, committed := candidates, [];
    }

    /** At most `batchSize` candidates above the cursor, in ascending order. */
    method NextOwnerIds(after: int, batchSize: nat) returns (ids: seq<int>)
      requires Ascending(candidates)
      ensures var rest := candidates[Passed(candidates, after)..]; ids == rest[..Min(|rest|, batchSize)]
    {
      PassedSplits(candidates, after);
      ghost var from := Passed(candidates, after);
      ids := [];
      for i := 0 to |candidates|
        invariant i <= from ==> ids == []
        invariant i > from ==> ids == candidates[from..from + Min(i - from, batchSize)]
      {
        if candidates[i] > after && |ids| < batchSize {
          ids := ids + [candidates[i]];
        }
      }
    }

    method MigrateOne(user: int, outcome: nat -> Outcome, maxRetries: nat, apply: bool)
      returns (ok: bool, attempts: nat)
      modifies this`committed
      ensures var t := TryFrom(outcome, maxRetries, 0);
              && ok == t.ok && attempts == t.attempts
              && committed == old(committed) + Copies(user, if apply then t.commits else 0)
      ensures ok <==> Succeeds(outcome, maxRetries, 0)
      ensures attempts >= 1 && IsLastOf(outcome, maxRetries, 0, attempts - 1)
    {
      AttemptsAre(outcome, maxRetries, 0);
      var attempt := 0;
      ghost var commits := 0;
      while true
        invariant attempt <= maxRetries
        invariant committed == old(committed) + Copies(user, if apply then commits else 0)
        invariant TryFrom(outcome, maxRetries, 0)
               == TryFrom(outcome, maxRetries, attempt)
                  .(commits := TryFrom(outcome, maxRetries, attempt).commits + commits)
        decreases maxRetries - attempt
      {
        var o := outcome(attempt);
        if !o.Raised? {
          commits := commits + 1;
          if apply {
            committed := committed + [user];
          }
        }
        if o.Committed? {
          return true, attempt + 1;
        }
        attempt := attempt + 1;
        if attempt > maxRetries || !o.transient {
          return false, attempt;
        }
      }
    }

    /** The inner loop of `_run`: one batch, `todo[from..]` being what the run has left. */
    method RunBatch(ids: seq<int>, plan: Plan, cursor0: int, differing0: nat,
                    ghost todo: seq<int>, ghost from: nat, ghost start: seq<int>, ghost after: int,
                    ghost moments0: seq<Moment>)
      returns (cursor: int, failed: Option<int>, differing: nat, ghost moments: seq<Moment>)
      requires from + |ids| <= |todo| && todo[from..from + |ids|] == ids
      requires OnTrack(moments0, Moment(committed, cursor0), differing0, start, todo, from, plan, after)
      modifies this`committed
      ensures failed.None?
              ==> OnTrack(moments, Moment(committed, cursor), differing, start, todo, from + |ids|, plan, after)
      ensures failed.Some? ==> Stopped(moments, Moment(committed, cursor), start, todo, plan, after, failed.value)
    {
      cursor, differing, moments := cursor0, differing0, moments0;
      for i := 0 to |ids|
        invariant OnTrack(moments, Moment(committed, cursor), differing, start, todo, from + i, plan, after)
      {
        var user := ids[i];
        assert todo[from + i] == user;
        ghost var before := Moment(committed, cursor);
        var ok, attempts := MigrateOne(user, plan.world(user), plan.maxRetries, plan.apply);
        OneMore(moments, before, differing, start, todo, from + i, plan, after, committed);
        if !ok {
          return cursor, Some(user), differing, moments;
        }
        cursor := user;
        differing := differing + if plan.differs(user) then 1 else 0;
        moments := moments + [Moment(committed, cursor)];
      }
      failed := None;
    }

    /** Batches until a failure, a short batch or the batch limit. */
    method RunBatches(batchSize: nat, maxBatches: nat, plan: Plan, after: int, ghost todo: seq<int>)
      returns (cursor: int, processed: nat, failed: Option<int>, differing: nat, ghost moments: seq<Moment>)
      requires Ascending(candidates) && batchSize >= 1
      requires forall b: nat ::
                 maxBatches == 0 || b < maxBatches
                 ==> IsPart(candidates, after, todo, InBatches(b, batchSize), batchSize)
      requires maxBatches > 0 ==> |todo| <= InBatches(maxBatches, batchSize)
      modifies this`committed
      ensures failed.None? ==>
                processed == |todo|
                    && OnTrack(moments, Moment(committed, cursor), differing, old(committed), todo, |todo|, plan, after)
      ensures failed.Some?
              ==> Stopped(moments, Moment(committed, cursor), old(committed), todo, plan, after, failed.value)
    {
      var batches := 0;
      cursor, processed, failed, differing := after, 0, None, 0;
      moments := [Moment(committed, cursor)];
      StartsOnTrack(committed, todo, plan, after);
      while maxBatches == 0 || batches < maxBatches
        invariant processed == InBatches(batches, batchSize) <= |todo|
        invariant maxBatches == 0 || batches <= maxBatches
        invariant failed.None?
                  && OnTrack(moments, Moment(committed, cursor), differing, old(committed), todo, processed, plan,
                             after)
        decreases |todo| - processed, if maxBatches == 0 then 0 else maxBatches - batches
      {
        var ownerIds := NextOwnerIds(cursor, batchSize);
        CursorOnTrack(moments, Moment(committed, cursor), differing, old(committed), todo, processed, plan, after);
        NextBatch(candidates, after, todo, batchSize, processed, ownerIds);
        if ownerIds == [] {
          break;
        }
        cursor, failed, differing, moments :=
          RunBatch(ownerIds, plan, cursor, differing, todo, processed, old(committed), after, moments);
        if failed.Some? {
          return;
        }
        processed := processed + |ownerIds|;
        batches := batches + 1;
        if |ownerIds| < batchSize {
          break;
        }
      }
    }

    /** `_run`: over the candidates behind `after`, or over one given owner. */
    method Run(after: int, owner: Option<int>, batchSize: int, maxBatches: int, maxRetries: int, apply: bool,
               shadow: bool, ticketBlank: bool, world: World, differs: int -> bool)
      returns (r: Report)
      requires Ascending(candidates)
      modifies this`committed
      ensures r.Rejected? <==> (apply && ticketBlank) || !(1 <= batchSize <= 1000) || !(0 <= maxRetries <= 10)
      ensures r.Rejected? ==> committed == old(committed)
      ensures !r.Rejected? ==>
                var todo := TodoOf(candidates, owner, after, batchSize, maxBatches);
                var w := Walk(todo, |todo|, PlanOf(world, maxRetries, apply, shadow, differs));
                && committed == old(committed) + w.commits
                && (shadow ==> committed == old(committed))
                && r == ReportOf(w, todo, after)
      ensures !r.Rejected? ==> EndsAt(r, TodoOf(candidates, owner, after, batchSize, maxBatches), after,
                                      if shadow then Plan(world, 0, false, differs)
                                      else Plan(world, maxRetries, apply, differs))
      ensures !r.Rejected? && !shadow ==>
                var todo := TodoOf(candidates, owner, after, batchSize, maxBatches);
                committed == old(committed) + Walk(todo, |todo|, Plan(world, maxRetries, apply, differs)).commits
      ensures !r.Rejected? && maxBatches < 0 ==> r == Completed(after, 0, 0)
      ensures !r.Rejected? && maxBatches >= 0 && owner.Some? ==>
                && (r.Completed? ==> r.nextCursor == owner.value && r.processed == 1)
                && (r.Failed? ==> r.safeAfter == after && r.user == owner.value)
      ensures r.Completed? && maxBatches >= 0 && owner.None? ==>
                r.processed == LeftFor(|candidates| - Passed(candidates, after), batchSize, maxBatches)
    {
      if (apply && ticketBlank) || !(1 <= batchSize <= 1000) || !(0 <= maxRetries <= 10) {
        return Rejected;
      }
      var plan := PlanOf(world, maxRetries, apply, shadow, differs);
      ghost var todo := TodoOf(candidates, owner, after, batchSize, maxBatches);
      ReportEnds(todo, after, plan);
      if !plan.apply {
        DryWalk(todo, |todo|, plan);
      }
      if maxBatches < 0 {
        return Completed(after, 0, 0);
      }
      if owner.Some? {
        StartsOnTrack(committed, todo, plan, after);
        var cursor, failed, differing, _ :=
          RunBatch([owner.value], plan, after, 0, todo, 0, committed, after, [Moment(committed, after)]);
        return if failed.Some? then Failed(cursor, failed.value) else Completed(cursor, 1, differing);
      }
      EveryBatchWholeOrEnd(candidates, after, todo, batchSize, maxBatches);
      var cursor, processed, failed, differing, _ := RunBatches(batchSize, maxBatches, plan, after, todo);
      r := if failed.Some? then Failed(cursor, failed.value) else Completed(cursor, processed, differing);
    }
  }
}
