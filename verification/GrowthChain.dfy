/** Chains of runs, each resumed from the cursor the one before reported. */
module GrowthChain {
  import opened GrowthCursor

  datatype Config = Config(batchSize: nat, maxBatches: nat, plan: Plan)
  datatype Progress = Progress(commits: seq<int>, cursor: int)

  /** What `Migration.Run` commits and the cursor it reports, failed or completed. */
  function OneRun(candidates: seq<int>, after: int, c: Config): Progress {
    var todo := Todo(candidates, after, c.batchSize, c.maxBatches);
    var w := Walk(todo, |todo|, c.plan);
    Progress(w.commits, CursorAfter(todo, w.done, after))
  }

  function Chain(candidates: seq<int>, after: int, configs: seq<Config>): Progress {
    if configs == [] then Progress([], after)
    else
      var before := Chain(candidates, after, configs[..|configs| - 1]);
      var last := OneRun(candidates, before.cursor, configs[|configs| - 1]);
      Progress(before.commits + last.commits, last.cursor)
  }

  /** No commit whose answer was lost. */
  ghost predicate Clean(plan: Plan) {
    plan.apply && forall user, k: nat :: !plan.world(user)(k).LostAck?
  }

  lemma {:induction false} CleanWalk(todo: seq<int>, n: nat, plan: Plan)
    requires n <= |todo| && Clean(plan)
    ensures Walk(todo, n, plan).commits == todo[..Walk(todo, n, plan).done]
    decreases n
  {
    if n > 0 {
      CleanWalk(todo, n - 1, plan);
      CommittedOnceIff(plan.world(todo[n - 1]), plan.maxRetries, 0);
    }
  }

  /** After every owner: what the run has committed is exactly the owners up to the cursor, each once, in order. */
  lemma EveryMomentIsResumable(moments: seq<Moment>, start: seq<int>, todo: seq<int>, n: nat, plan: Plan, after: int,
                               k: nat)
    requires ReachedEach(moments, start, todo, n, plan, after) && k <= n && Clean(plan)
    ensures k <= |todo| && moments[k].commits == start + todo[..k] && moments[k].cursor == CursorAfter(todo, k, after)
  {
    assert Reached(moments[k], start, todo, k, plan, after);
    CleanWalk(todo, k, plan);
  }

  /** In general the owners behind the cursor are committed, and besides them at most the owner the run failed on. */
  ghost predicate CoversPart(commits: seq<int>, all: seq<int>, from: nat, upTo: nat) {
    && from <= upTo <= |all|
    && (forall i :: from <= i < upTo ==> all[i] in commits)
    && (forall x :: x in commits ==> exists i :: from <= i < |all| && i <= upTo && all[i] == x)
  }

  lemma {:induction false} WalkCovers(todo: seq<int>, n: nat, plan: Plan)
    requires n <= |todo| && plan.apply
    ensures CoversPart(Walk(todo, n, plan).commits, todo, 0, Walk(todo, n, plan).done)
    decreases n
  {
    if n > 0 {
      WalkCovers(todo, n - 1, plan);
      if !Walk(todo, n - 1, plan).failed {
        OneMoreWalked(todo, n, plan);
      }
    }
  }

  lemma OneMoreWalked(todo: seq<int>, n: nat, plan: Plan)
    requires 0 < n <= |todo| && plan.apply && !Walk(todo, n - 1, plan).failed
    requires CoversPart(Walk(todo, n - 1, plan).commits, todo, 0, Walk(todo, n - 1, plan).done)
    ensures CoversPart(Walk(todo, n, plan).commits, todo, 0, Walk(todo, n, plan).done)
  {
    CommittedOnceIff(plan.world(todo[n - 1]), plan.maxRetries, 0);
    var commits := TryFrom(plan.world(todo[n - 1]), plan.maxRetries, 0).commits;
    OneMoreCovered(Walk(todo, n - 1, plan).commits, todo, n - 1, commits, Walk(todo, n, plan).done);
  }

  lemma CopyIsIn(user: int, n: nat)
    ensures n > 0 ==> user in Copies(user, n)
    ensures forall x :: x in Copies(user, n) ==> x == user
  {
    if n > 0 {
      assert Copies(user, n)[0] == user;
    }
  }

  lemma OneMoreCovered(commits: seq<int>, todo: seq<int>, i: nat, copies: nat, done: nat)
    requires i < |todo| && CoversPart(commits, todo, 0, i) && (done == i || (done == i + 1 && copies > 0))
    ensures CoversPart(commits + Copies(todo[i], copies), todo, 0, done)
  {
    CopyIsIn(todo[i], copies);
    var after := commits + Copies(todo[i], copies);
    forall x | x in after
      ensures exists j :: 0 <= j < |todo| && j <= done && todo[j] == x
    {
      if x in commits {
        var j :| 0 <= j < |todo| && j <= i && todo[j] == x;
      }
    }
  }

  lemma CursorMoves(candidates: seq<int>, after: int, c: Config)
    requires Ascending(candidates)
    ensures var todo := Todo(candidates, after, c.batchSize, c.maxBatches);
            var from, done := Passed(candidates, after), Walk(todo, |todo|, c.plan).done;
            && from + done <= |candidates| && Passed(candidates, OneRun(candidates, after, c).cursor) == from + done
            && |todo| <= |candidates| - from && todo == candidates[from..][..|todo|]
  {
    var todo := Todo(candidates, after, c.batchSize, c.maxBatches);
    var done := Walk(todo, |todo|, c.plan).done;
    var all := candidates[Passed(candidates, after)..];
    assert CursorAfter(todo, done, after) == CursorAfter(all, done, after);
    PassedAtCursor(candidates, after, done);
  }

  /** The commits are exactly the candidates above `after` and up to `cursor`. */
  ghost predicate CommitsBetween(commits: seq<int>, candidates: seq<int>, after: int, cursor: int) {
    Passed(candidates, after) <= Passed(candidates, cursor)
    && commits == candidates[Passed(candidates, after)..Passed(candidates, cursor)]
  }

  lemma CleanRun(candidates: seq<int>, after: int, c: Config)
    requires Ascending(candidates) && Clean(c.plan)
    ensures CommitsBetween(OneRun(candidates, after, c).commits, candidates, after, OneRun(candidates, after, c).cursor)
  {
    var todo := Todo(candidates, after, c.batchSize, c.maxBatches);
    CursorMoves(candidates, after, c);
    CleanWalk(todo, |todo|, c.plan);
  }

  lemma BetweenJoins(a: seq<int>, b: seq<int>, candidates: seq<int>, start: int, mid: int, end: int)
    requires CommitsBetween(a, candidates, start, mid) && CommitsBetween(b, candidates, mid, end)
    ensures CommitsBetween(a + b, candidates, start, end)
  {
  }

  /**
   * Whatever the batch sizes, batch limits, retries and failures: the commits of a chain of resumed runs are exactly
   * the candidates between the start and the last reported cursor, each once, in ascending order.
   */
  lemma {:induction false} ChainCommitsEachOnce(candidates: seq<int>, after: int, configs: seq<Config>)
    requires Ascending(candidates) && forall c :: c in configs ==> Clean(c.plan)
    ensures CommitsBetween(Chain(candidates, after, configs).commits, candidates, after,
                           Chain(candidates, after, configs).cursor)
    decreases |configs|
  {
    if |configs| > 0 {
      var init, last := configs[..|configs| - 1], configs[|configs| - 1];
      var before := Chain(candidates, after, init);
      ChainCommitsEachOnce(candidates, after, init);
      CleanRun(candidates, before.cursor, last);
      var end := OneRun(candidates, before.cursor, last);
      BetweenJoins(before.commits, end.commits, candidates, after, before.cursor, end.cursor);
    }
  }

  lemma CoversShift(commits: seq<int>, todo: seq<int>, candidates: seq<int>, from: nat, done: nat)
    requires from + |todo| <= |candidates| && todo == candidates[from..][..|todo|]
    requires CoversPart(commits, todo, 0, done)
    ensures CoversPart(commits, candidates, from, from + done)
  {
    forall i | from <= i < from + done
      ensures candidates[i] in commits
    {
      assert candidates[i] == todo[i - from];
    }
    forall x | x in commits
      ensures exists i :: from <= i < |candidates| && i <= from + done && candidates[i] == x
    {
      var j :| 0 <= j < |todo| && j <= done && todo[j] == x;
      assert candidates[from + j] == x;
    }
  }

  lemma RunCovers(candidates: seq<int>, after: int, c: Config)
    requires Ascending(candidates) && c.plan.apply
    ensures var r := OneRun(candidates, after, c);
            CoversPart(r.commits, candidates, Passed(candidates, after), Passed(candidates, r.cursor))
  {
    var todo := Todo(candidates, after, c.batchSize, c.maxBatches);
    var from := Passed(candidates, after);
    var w := Walk(todo, |todo|, c.plan);
    CursorMoves(candidates, after, c);
    WalkCovers(todo, |todo|, c.plan);
    CoversShift(w.commits, todo, candidates, from, w.done);
  }

  lemma CoversJoin(a: seq<int>, b: seq<int>, all: seq<int>, k: nat, l: nat, m: nat)
    requires CoversPart(a, all, k, l) && CoversPart(b, all, l, m)
    ensures CoversPart(a + b, all, k, m)
  {
    forall x | x in a + b
      ensures exists i :: k <= i < |all| && i <= m && all[i] == x
    {
      if x in a {
        var i :| k <= i < |all| && i <= l && all[i] == x;
      } else {
        var i :| l <= i < |all| && i <= m && all[i] == x;
      }
    }
  }

  /**
   * Even with lost answers: everything at or below the reported cursor is done, and above it at most the next owner
   * is.
   */
  lemma {:induction false} ChainCovers(candidates: seq<int>, after: int, configs: seq<Config>)
    requires Ascending(candidates) && forall c :: c in configs ==> c.plan.apply
    ensures var r := Chain(candidates, after, configs);
            CoversPart(r.commits, candidates, Passed(candidates, after), Passed(candidates, r.cursor))
    decreases |configs|
  {
    if |configs| > 0 {
      var init, last := configs[..|configs| - 1], configs[|configs| - 1];
      var before := Chain(candidates, after, init);
      ChainCovers(candidates, after, init);
      RunCovers(candidates, before.cursor, last);
      var end := OneRun(candidates, before.cursor, last);
      CoversJoin(before.commits, end.commits, candidates, Passed(candidates, after),
                 Passed(candidates, before.cursor), Passed(candidates, end.cursor));
    }
  }

  /** A run without batch limit that does not fail has treated every candidate above its start. */
  lemma UnlimitedRunFinishes(candidates: seq<int>, after: int, c: Config)
    requires Ascending(candidates) && c.maxBatches == 0
    requires var todo := Todo(candidates, after, c.batchSize, 0); !Walk(todo, |todo|, c.plan).failed
    ensures Passed(candidates, OneRun(candidates, after, c).cursor) == |candidates|
  {
    CursorMoves(candidates, after, c);
  }

  /** Full batches are that many owners. */
  lemma {:induction false} InBatchesIs(batches: nat, batchSize: nat)
    ensures InBatches(batches, batchSize) == batches * batchSize
  {
    if batches > 0 {
      InBatchesIs(batches - 1, batchSize);
    }
  }

  lemma RunMovesOn(candidates: seq<int>, start: int, c: Config)
    requires Ascending(candidates) && forall user :: user in candidates ==> OwnerSucceeds(c.plan, user)
    ensures Passed(candidates, OneRun(candidates, start, c).cursor)
            == if c.maxBatches == 0 then |candidates|
               else Min(|candidates|, Passed(candidates, start) + InBatches(c.maxBatches, c.batchSize))
  {
    CursorMoves(candidates, start, c);
    var todo := Todo(candidates, start, c.batchSize, c.maxBatches);
    AllDone(candidates, todo, c.plan);
  }

  lemma AllDone(candidates: seq<int>, todo: seq<int>, plan: Plan)
    requires forall user :: user in candidates ==> OwnerSucceeds(plan, user)
    requires forall i :: 0 <= i < |todo| ==> todo[i] in candidates
    ensures Walk(todo, |todo|, plan).done == |todo|
  {
    WalkIs(todo, |todo|, plan);
  }

  /**
   * The last run of a chain, none of whose owners fails, moves the cursor on: to the end without a batch limit, and
   * otherwise by the batches it is allowed, or to the end if that comes first.
   */
  lemma ChainMovesOn(candidates: seq<int>, after: int, configs: seq<Config>)
    requires Ascending(candidates) && configs != []
    requires forall user :: user in candidates ==> OwnerSucceeds(configs[|configs| - 1].plan, user)
    ensures var before := Chain(candidates, after, configs[..|configs| - 1]);
            var c := configs[|configs| - 1];
            Passed(candidates, Chain(candidates, after, configs).cursor)
            == if c.maxBatches == 0 then |candidates|
               else Min(|candidates|, Passed(candidates, before.cursor) + InBatches(c.maxBatches, c.batchSize))
  {
    var before := Chain(candidates, after, configs[..|configs| - 1]);
    RunMovesOn(candidates, before.cursor, configs[|configs| - 1]);
  }
}
