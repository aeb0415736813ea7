/** How long a key in Redis lives, what a heartbeat does for it, and what a search takes while nobody else moves. */
module SnowflakeLeases {
  import opened Options
  import opened SnowflakeIds
  import opened SnowflakeGenerator
  import opened SnowflakeCluster
  import opened NodeRegistry

  /** A grant, or a heartbeat while the key is there, keeps the key for exactly the time to live. */
  lemma LeaseLasts(s: State, p: nat, e: Event, ms: nat)
    requires (e == Attempt(p) && Acquires(s, p)) || (e == Heartbeat(p) && Holds(s, p) && Live(s, s.processes[p].pair))
    ensures Holds(Step(s, e), p)
    ensures var t := Step(s, e);
            Live(Step(t, Tick(ms)), t.processes[p].pair) <==> ms < NODE_TTL_MS
  {
  }

  /** Once a key has lapsed, no heartbeat brings it back: until somebody takes it, anybody can. */
  lemma {:induction false} LapsedStaysGrantable(s: State, events: seq<Event>, q: Pair)
    requires !Live(s, q) && forall i :: 0 <= i < |events| ==> !events[i].Attempt?
    ensures !Live(Run(s, events), q)
    decreases |events|
  {
    if events != [] {
      assert !events[0].Attempt?;
      LapsedStaysGrantable(Step(s, events[0]), events[1..], q);
    }
  }

  /** A release leaves the key grantable at once. A crash leaves it as it is. */
  lemma LeavingIsGrantable(s: State, p: nat)
    requires Holds(s, p)
    ensures !Live(Step(s, Release(p)), s.processes[p].pair) && !Holds(Step(s, Release(p)), p)
    ensures Step(s, Crash(p)).leases == s.leases && !Holds(Step(s, Crash(p)), p)
  {
  }

  function Attempts(p: nat, n: nat): seq<Event> {
    seq(n, i => Attempt(p))
  }

  lemma OneAttempt(s: State, p: nat, n: nat)
    requires n > 0
    ensures Run(s, Attempts(p, n)) == Run(Step(s, Attempt(p)), Attempts(p, n - 1))
  {
    assert Attempts(p, n)[1..] == Attempts(p, n - 1);
  }

  predicate SearchesAt(s: State, p: nat, next: nat) {
    p in s.processes && s.processes[p].Searching? && s.processes[p].next == next
  }

  /** The search of one process, undisturbed, takes the first free pair: what `AcquireNodeId` returns. */
  lemma {:induction false} SearchTakesFirstFree(s: State, p: nat, next: nat, i: nat)
    requires SearchesAt(s, p, next) && next <= i < PAIRS && Free(s.leases, s.now, s.processes[p].occupied, i)
    requires forall k: nat :: next <= k < i ==> !Free(s.leases, s.now, s.processes[p].occupied, k)
    ensures var t := Run(s, Attempts(p, i - next + 1));
            && t.leases == s.leases[PairAt(i) := s.now + NODE_TTL_MS]
            && t.processes == s.processes[p := Holding(PairAt(i), FRESH, false, s.now, s.now + NODE_TTL_MS)]
    decreases i - next
  {
    OneAttempt(s, p, i - next + 1);
    if next == i {
      assert Attempts(p, 0) == [];
    } else {
      assert !Free(s.leases, s.now, s.processes[p].occupied, next);
      var t := Step(s, Attempt(p));
      SearchTakesFirstFree(t, p, next + 1, i);
      assert s.processes[p := t.processes[p]] == t.processes;
    }
  }

  /** And it gives up exactly when none is free. */
  lemma {:induction false} SearchGivesUp(s: State, p: nat, next: nat)
    requires SearchesAt(s, p, next) && next <= PAIRS
    requires forall k: nat :: next <= k < PAIRS ==> !Free(s.leases, s.now, s.processes[p].occupied, k)
    ensures Run(s, Attempts(p, PAIRS - next + 1)) == s.(processes := s.processes[p := Exhausted])
    decreases PAIRS - next
  {
    OneAttempt(s, p, PAIRS - next + 1);
    if next == PAIRS {
      assert Attempts(p, 0) == [];
    } else {
      assert !Free(s.leases, s.now, s.processes[p].occupied, next);
      var t := Step(s, Attempt(p));
      SearchGivesUp(t, p, next + 1);
      assert t.processes[p := Exhausted] == s.processes[p := Exhausted];
    }
  }

  // ---------- A call of the generator, reading by reading ----------

  /** One reading now, and one after each of the gaps. */
  function Reads(p: nat, gaps: seq<nat>): seq<Event> {
    if gaps == [] then [ReadClock(p)] else [ReadClock(p)] + ([Tick(gaps[0])] + Reads(p, gaps[1..]))
  }

  function Times(now: int, gaps: seq<nat>): (times: seq<int>)
    ensures |times| == |gaps| + 1 && times[0] == now
    decreases |gaps|
  {
    if gaps == [] then [now] else [now] + Times(now + gaps[0], gaps[1..])
  }

  lemma RunOneThen(s: State, e: Event, rest: seq<Event>)
    ensures Run(s, [e] + rest) == Run(Step(s, e), rest)
  {
    assert ([e] + rest)[1..] == rest;
  }

  /** The step system ends where the call of the generator ends, and has returned its ID. */
  predicate EndsAs(m: Micro, h: Process, s: State, p: nat, t: State) {
    && Holds(t, p) && h.Holding? && t.leases == s.leases
    && match m
       case Issue(c) =>
         t.processes[p] == h.(counter := c, waiting := false) && t.issued == s.issued + [FieldsOf(h.pair, c)]
       case Wait(c) => t.processes[p] == h.(counter := c, waiting := true) && t.issued == s.issued
       case RolledBack(_) => t.processes[p] == h && t.issued == s.issued
  }

  /** A first reading that has to wait, and the polls behind it. */
  lemma {:induction false} WaitsThenPolls(s: State, p: nat, gaps: seq<nat>, c: Counter)
    requires Holds(s, p) && gaps != []
    requires Step(s, ReadClock(p)) == Waiting(s, p, c)
    requires forall i :: 0 <= i < |gaps| ==> Times(s.now, gaps)[i] <= c.lastTimestamp
    ensures EndsAs(PollAll(c, Times(s.now, gaps)[1..]), s.processes[p], s, p, Run(s, Reads(p, gaps)))
    decreases |gaps|, 0
  {
    var read := Waiting(s, p, c);
    var later := Step(read, Tick(gaps[0]));
    assert Times(s.now, gaps)[1..] == Times(later.now, gaps[1..]);
    RunOneThen(s, ReadClock(p), [Tick(gaps[0])] + Reads(p, gaps[1..]));
    RunOneThen(read, Tick(gaps[0]), Reads(p, gaps[1..]));
    forall i | 0 <= i < |gaps| - 1
      ensures Times(later.now, gaps[1..])[i] <= c.lastTimestamp
    {
      assert Times(s.now, gaps)[i + 1] == Times(later.now, gaps[1..])[i];
    }
    PollsInSteps(later, p, gaps[1..]);
    PollAllIssuesLater(c, Times(s.now, gaps)[1..]);
  }

  function Waiting(s: State, p: nat, c: Counter): State
    requires Holds(s, p)
  {
    s.(processes := s.processes[p := s.processes[p].(counter := c, waiting := true)])
  }

  lemma {:induction false} PollsInSteps(s: State, p: nat, gaps: seq<nat>)
    requires Holds(s, p) && s.processes[p].waiting
    requires forall i :: 0 <= i < |gaps| ==> Times(s.now, gaps)[i] <= s.processes[p].counter.lastTimestamp
    ensures EndsAs(PollAll(s.processes[p].counter, Times(s.now, gaps)), s.processes[p], s, p, Run(s, Reads(p, gaps)))
    decreases |gaps|, 1
  {
    if gaps == [] {
      OneReading(s, p);
      assert Times(s.now, gaps)[1..] == [];
    } else {
      assert Times(s.now, gaps)[0] <= s.processes[p].counter.lastTimestamp;
      WaitsThenPolls(s, p, gaps, s.processes[p].counter);
    }
  }

  lemma OneReading(s: State, p: nat)
    requires Holds(s, p)
    ensures Run(s, Reads(p, [])) == Read(s, p)
  {
    assert Reads(p, []) == [ReadClock(p)] + [];
    RunOneThen(s, ReadClock(p), []);
  }

  /**
   * A call whose readings are steps of their own is a call of the generator: it takes as many readings, and ends with
   * the same counter and ID, the same wait or the same refusal.
   */
  lemma CallInSteps(s: State, p: nat, gaps: seq<nat>)
    requires Holds(s, p) && !s.processes[p].waiting && s.processes[p].counter.InRange()
    requires gaps != [] ==> HasToWait(s.processes[p].counter, s.now)
    requires forall i :: 0 <= i < |gaps| ==> Times(s.now, gaps)[i] <= s.processes[p].counter.lastTimestamp
    ensures EndsAs(Call(s.processes[p].counter, Times(s.now, gaps)), s.processes[p], s, p, Run(s, Reads(p, gaps)))
  {
    NextSequence(s.processes[p].counter.sequence);
    if gaps == [] {
      OneReading(s, p);
      assert Times(s.now, gaps)[1..] == [];
    } else {
      WaitsThenPolls(s, p, gaps, Begin(s.processes[p].counter, s.now).counter);
    }
  }
}
