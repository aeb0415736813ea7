/**
 * Many processes sharing the (datacenter, worker) pairs through Redis leases: SET NX EX to take a pair,
 * EXPIRE as heartbeat, DEL on release. Steps of different processes interleave in any order.
 *
 * Time is one non-decreasing millisecond clock. A call of the generator is not one step: each clock
 * reading is a step of its own, so other processes move while a call busy-waits.
 */
module SnowflakeCluster {
  import opened Options
  import opened SnowflakeIds
  import opened SnowflakeGenerator

  const NODE_TTL_MS: int := 60_000
  const PAIRS: nat := 1024

  datatype Pair = Pair(datacenterId: int, workerId: int)

  function PairAt(i: nat): Pair { Pair(i / 32, i % 32) }

  datatype Process =
    | Searching(occupied: set<Pair>, next: nat)
    | Holding(pair: Pair, counter: Counter, waiting: bool, since: int, deadline: int)
    | Exhausted
    | Gone

  datatype State = State(
    now: int,
    leases: map<Pair, int>,        // Redis: key -> expiry; the key exists while now < expiry
    releasedAt: map<Pair, int>,    // when a pair was last deleted from Redis by its holder
    processes: map<nat, Process>,
    issued: seq<Fields>)           // every ID ever returned, oldest first

  datatype Event =
    | Tick(ms: nat)
    | Scan(p: nat, seen: set<Pair>)  // the keys a non-atomic SCAN happened to return
    | Attempt(p: nat)
    | Heartbeat(p: nat)
    | ReadClock(p: nat)
    | Release(p: nat)
    | Crash(p: nat)

  predicate Live(s: State, q: Pair) {
    q in s.leases && s.now < s.leases[q]
  }

  predicate Holds(s: State, p: nat) {
    p in s.processes && s.processes[p].Holding?
  }

  /** The pair the next attempt of `p` would take. */
  predicate Acquires(s: State, p: nat) {
    && p in s.processes && s.processes[p].Searching? && s.processes[p].next < PAIRS
    && var q := PairAt(s.processes[p].next);
       q !in s.processes[p].occupied && !Live(s, q)
  }

  function FieldsOf(q: Pair, c: Counter): Fields {
    Fields(c.lastTimestamp, q.datacenterId, q.workerId, c.sequence)
  }

  function PairOf(f: Fields): Pair { Pair(f.datacenterId, f.workerId) }

  function Attempted(s: State, p: nat): State
    requires p in s.processes && s.processes[p].Searching?
  {
    var proc := s.processes[p];
    if proc.next >= PAIRS then s.(processes := s.processes[p := Exhausted])
    else if Acquires(s, p) then
      var q := PairAt(proc.next);
      s.(leases := s.leases[q := s.now + NODE_TTL_MS],
         processes := s.processes[p := Holding(q, FRESH, false, s.now, s.now + NODE_TTL_MS)])
    else s.(processes := s.processes[p := proc.(next := proc.next + 1)])
  }

  /** EXPIRE touches an existing key only, and the process does not look at the answer. */
  function Renewed(s: State, p: nat): State
    requires Holds(s, p)
  {
    var proc := s.processes[p];
    s.(leases := if Live(s, proc.pair) then s.leases[proc.pair := s.now + NODE_TTL_MS] else s.leases,
       processes := s.processes[p := proc.(deadline := s.now + NODE_TTL_MS)])
  }

  /** One clock reading of the call in progress, or of a new call. */
  function Read(s: State, p: nat): State
    requires Holds(s, p)
  {
    var proc := s.processes[p];
    match if proc.waiting then Poll(proc.counter, s.now) else Begin(proc.counter, s.now)
    case Issue(c) =>
      s.(processes := s.processes[p := proc.(counter := c, waiting := false)],
         issued := s.issued + [FieldsOf(proc.pair, c)])
    case Wait(c) => s.(processes := s.processes[p := proc.(counter := c, waiting := true)])
    case RolledBack(_) => s
  }

  function Step(s: State, e: Event): State {
    match e
    case Tick(ms) => s.(now := s.now + ms)
    case Scan(p, seen) => if p in s.processes then s else s.(processes := s.processes[p := Searching(seen, 0)])
    case Attempt(p) => if p in s.processes && s.processes[p].Searching? then Attempted(s, p) else s
    case Heartbeat(p) => if Holds(s, p) then Renewed(s, p) else s
    case ReadClock(p) => if Holds(s, p) then Read(s, p) else s
    case Release(p) =>
      if Holds(s, p) then
        var q := s.processes[p].pair;
        s.(leases := s.leases - {q}, releasedAt := s.releasedAt[q := s.now], processes := s.processes[p := Gone])
      else s
    case Crash(p) => if p in s.processes then s.(processes := s.processes[p := Gone]) else s
  }

  function Run(s: State, events: seq<Event>): State
    decreases |events|
  {
    if events == [] then s else Run(Step(s, events[0]), events[1..])
  }

  function Start(now: int): State {
    State(now, map[], map[], map[], [])
  }

  /** Renewals land in time: time never passes the deadline of a process that still holds a pair. */
  ghost predicate RenewsInTime(s: State, e: Event) {
    e.Tick? ==> forall p :: Holds(s, p) ==> s.now + e.ms < s.processes[p].deadline
  }

  /** A pair is granted only once the millisecond of every ID issued for it has passed. */
  ghost predicate HandsOverFresh(s: State, e: Event) {
    e.Attempt? && Acquires(s, e.p) ==> !UsedNow(s, PairAt(s.processes[e.p].next))
  }

  /** Some ID of the pair carries the present millisecond. */
  ghost predicate UsedNow(s: State, q: Pair) {
    exists f :: f in s.issued && PairOf(f) == q && f.timestamp == s.now
  }

  ghost predicate Disciplined(s: State, events: seq<Event>)
    decreases |events|
  {
    events != [] ==>
      RenewsInTime(s, events[0]) && HandsOverFresh(s, events[0]) && Disciplined(Step(s, events[0]), events[1..])
  }

  // ---------- What every disciplined step keeps ----------

  ghost predicate OneHolderPerPair(s: State) {
    forall p, r :: Holds(s, p) && Holds(s, r) && s.processes[p].pair == s.processes[r].pair ==> p == r
  }

  ghost predicate HolderOk(s: State, h: Process)
    requires h.Holding?
  {
    && IsNode(h.pair.datacenterId, h.pair.workerId) && h.counter.InRange()
    && h.pair in s.leases && s.now < s.leases[h.pair] == h.deadline
    && 0 <= h.since <= s.now
    && (h.counter.lastTimestamp == -1 || h.since <= h.counter.lastTimestamp <= s.now)
    && (h.waiting ==> h.counter.lastTimestamp >= 0)
  }

  /** An ID of the holder's pair lies before its tenure or behind its counter. */
  ghost predicate Behind(h: Process, f: Fields)
    requires h.Holding?
  {
    || f.timestamp < h.since
    || f.timestamp < h.counter.lastTimestamp
    || (f.timestamp == h.counter.lastTimestamp && (h.waiting || f.sequence <= h.counter.sequence))
  }

  /** An issued ID predates whatever could make its pair free again. */
  ghost predicate IssuedOk(s: State, f: Fields) {
    && f.InRange() && f.timestamp <= s.now
    && var q := PairOf(f);
       if q in s.leases then f.timestamp < s.leases[q]
       else q in s.releasedAt && f.timestamp <= s.releasedAt[q]
  }

  ghost predicate Distinct(issued: seq<Fields>) {
    forall i, j :: 0 <= i < j < |issued| ==> issued[i] != issued[j]
  }

  ghost predicate HoldersOk(s: State) {
    forall p :: Holds(s, p) ==> HolderOk(s, s.processes[p])
  }

  ghost predicate AllIssuedOk(s: State) {
    forall i :: 0 <= i < |s.issued| ==> IssuedOk(s, s.issued[i])
  }

  ghost predicate AllBehind(s: State) {
    forall p, i :: Holds(s, p) && 0 <= i < |s.issued| && PairOf(s.issued[i]) == s.processes[p].pair ==>
                     Behind(s.processes[p], s.issued[i])
  }

  ghost predicate Inv(s: State) {
    s.now >= 0 && OneHolderPerPair(s) && HoldersOk(s) && AllIssuedOk(s) && AllBehind(s) && Distinct(s.issued)
  }

  lemma GrantKeepsHolders(s: State, p: nat)
    requires Inv(s) && Acquires(s, p)
    ensures OneHolderPerPair(Attempted(s, p)) && HoldersOk(Attempted(s, p))
  {
    var q := PairAt(s.processes[p].next);
    assert IsNode(q.datacenterId, q.workerId);
    forall r | Holds(s, r)
      ensures s.processes[r].pair != q
    {
      assert HolderOk(s, s.processes[r]);
    }
  }

  lemma GrantKeepsIssued(s: State, p: nat)
    requires Inv(s) && Acquires(s, p) && HandsOverFresh(s, Attempt(p))
    ensures AllIssuedOk(Attempted(s, p)) && AllBehind(Attempted(s, p))
  {
    var t := Attempted(s, p);
    var q := PairAt(s.processes[p].next);
    forall i | 0 <= i < |t.issued|
      ensures IssuedOk(t, t.issued[i])
      ensures PairOf(t.issued[i]) == q ==> t.issued[i].timestamp < s.now
    {
      assert IssuedOk(s, s.issued[i]) && s.issued[i] in s.issued;
    }
    forall r, i | Holds(t, r) && 0 <= i < |t.issued| && PairOf(t.issued[i]) == t.processes[r].pair
      ensures Behind(t.processes[r], t.issued[i])
    {
      if r != p {
        assert Holds(s, r) && t.processes[r] == s.processes[r];
      }
    }
  }

  lemma AttemptKeepsInv(s: State, p: nat)
    requires Inv(s) && HandsOverFresh(s, Attempt(p))
    requires p in s.processes && s.processes[p].Searching?
    ensures Inv(Attempted(s, p))
  {
    var t := Attempted(s, p);
    if Acquires(s, p) {
      GrantKeepsHolders(s, p);
      GrantKeepsIssued(s, p);
    } else {
      forall r | Holds(t, r) ensures r != p && t.processes[r] == s.processes[r] {}
    }
  }

  lemma HeartbeatKeepsInv(s: State, p: nat)
    requires Inv(s) && Holds(s, p)
    ensures Inv(Renewed(s, p))
  {
    var t := Renewed(s, p);
    assert HolderOk(s, s.processes[p]);
    forall r | Holds(t, r)
      ensures HolderOk(t, t.processes[r])
    {
      assert HolderOk(s, s.processes[r]);
    }
    forall i | 0 <= i < |t.issued|
      ensures IssuedOk(t, t.issued[i])
    {
      assert IssuedOk(s, s.issued[i]);
    }
  }

  lemma ReadingMovesForward(h: Process, now: int)
    requires h.Holding? && h.counter.InRange() && h.counter.lastTimestamp <= now
    ensures var m := if h.waiting then Poll(h.counter, now) else Begin(h.counter, now);
            && (m.Wait? ==> m.counter.InRange() && m.counter.lastTimestamp == h.counter.lastTimestamp == now)
            && (m.Issue? ==> m.counter.InRange() && m.counter.lastTimestamp == now
                             && (h.counter.lastTimestamp < now
                                 || (!h.waiting && h.counter.sequence < m.counter.sequence)))
  {
    NextSequence(h.counter.sequence);
  }

  lemma ReadKeepsHolders(s: State, p: nat)
    requires Inv(s) && Holds(s, p)
    ensures OneHolderPerPair(Read(s, p)) && HoldersOk(Read(s, p))
  {
    var t := Read(s, p);
    assert HolderOk(s, s.processes[p]);
    ReadingMovesForward(s.processes[p], s.now);
    forall r | Holds(t, r)
      ensures HolderOk(t, t.processes[r])
    {
      assert HolderOk(s, s.processes[r]);
    }
  }

  lemma ReadMovesPast(s: State, p: nat, f: Fields)
    requires HoldersOk(s) && Holds(s, p) && Behind(s.processes[p], f) && PairOf(f) == s.processes[p].pair
             && f.timestamp <= s.now
    ensures Behind(Read(s, p).processes[p], f)
    ensures |Read(s, p).issued| > |s.issued| ==> f != Read(s, p).issued[|s.issued|]
  {
    assert HolderOk(s, s.processes[p]);
    ReadingMovesForward(s.processes[p], s.now);
  }

  lemma ReadKeepsIssued(s: State, p: nat)
    requires Inv(s) && Holds(s, p)
    ensures AllIssuedOk(Read(s, p)) && AllBehind(Read(s, p)) && Distinct(Read(s, p).issued)
  {
    var t := Read(s, p);
    var h := s.processes[p];
    assert HolderOk(s, h);
    ReadingMovesForward(h, s.now);
    forall i | 0 <= i < |s.issued|
      ensures IssuedOk(t, s.issued[i])
      ensures PairOf(s.issued[i]) == h.pair ==> Behind(t.processes[p], s.issued[i])
      ensures |t.issued| > |s.issued| ==> s.issued[i] != t.issued[|s.issued|]
    {
      assert IssuedOk(s, s.issued[i]);
      if PairOf(s.issued[i]) == h.pair {
        ReadMovesPast(s, p, s.issued[i]);
      }
    }
  }

  lemma ReadKeepsInv(s: State, p: nat)
    requires Inv(s) && Holds(s, p)
    ensures Inv(Read(s, p))
  {
    ReadKeepsHolders(s, p);
    ReadKeepsIssued(s, p);
  }

  lemma TickKeepsInv(s: State, ms: nat)
    requires Inv(s) && RenewsInTime(s, Tick(ms))
    ensures Inv(Step(s, Tick(ms)))
  {
    var t := Step(s, Tick(ms));
    forall r | Holds(t, r)
      ensures HolderOk(t, t.processes[r])
    {
      assert Holds(s, r) && HolderOk(s, s.processes[r]);
    }
    forall i | 0 <= i < |t.issued|
      ensures IssuedOk(t, t.issued[i])
    {
      assert IssuedOk(s, s.issued[i]);
    }
  }

  lemma LeaveKeepsInv(s: State, p: nat, e: Event)
    requires Inv(s) && p in s.processes
    requires e == Crash(p) || (e == Release(p) && Holds(s, p))
    ensures Inv(Step(s, e))
  {
    var t := Step(s, e);
    forall r | Holds(t, r)
      ensures r != p && Holds(s, r) && HolderOk(t, t.processes[r])
    {
      assert HolderOk(s, s.processes[r]);
    }
    forall i | 0 <= i < |t.issued|
      ensures IssuedOk(t, t.issued[i])
    {
      assert IssuedOk(s, s.issued[i]);
    }
  }

  lemma StepKeepsInv(s: State, e: Event)
    requires Inv(s) && RenewsInTime(s, e) && HandsOverFresh(s, e)
    ensures Inv(Step(s, e))
  {
    match e
    case Tick(ms) => TickKeepsInv(s, ms);
    case Scan(p, seen) =>
      var t := Step(s, e);
      forall r | Holds(t, r) ensures Holds(s, r) && t.processes[r] == s.processes[r] {}
    case Attempt(p) => if p in s.processes && s.processes[p].Searching? { AttemptKeepsInv(s, p); }
    case Heartbeat(p) => if Holds(s, p) { HeartbeatKeepsInv(s, p); }
    case ReadClock(p) => if Holds(s, p) { ReadKeepsInv(s, p); }
    case Release(p) => if Holds(s, p) { LeaveKeepsInv(s, p, e); }
    case Crash(p) => if p in s.processes { LeaveKeepsInv(s, p, e); }
  }

  lemma {:induction false} RunKeepsInv(s: State, events: seq<Event>)
    requires Inv(s) && Disciplined(s, events)
    ensures Inv(Run(s, events))
    decreases |events|
  {
    if events != [] {
      StepKeepsInv(s, events[0]);
      RunKeepsInv(Step(s, events[0]), events[1..]);
    }
  }

  /** However the steps interleave, no two processes hold one pair when renewals land in time. */
  lemma NeverTwoHolders(now: nat, events: seq<Event>, p: nat, r: nat)
    requires Disciplined(Start(now), events)
    requires Holds(Run(Start(now), events), p) && Holds(Run(Start(now), events), r) && p != r
    ensures Run(Start(now), events).processes[p].pair != Run(Start(now), events).processes[r].pair
  {
    RunKeepsInv(Start(now), events);
  }

  /** ... and the cluster never returns one ID twice, across crashes, releases and reused pairs. */
  lemma NeverTheSameId(now: nat, events: seq<Event>, i: nat, j: nat)
    requires Disciplined(Start(now), events)
    requires i < j < |Run(Start(now), events).issued|
    ensures Pack(Run(Start(now), events).issued[i]) != Pack(Run(Start(now), events).issued[j])
  {
    RunKeepsInv(Start(now), events);
    var t := Run(Start(now), events);
    assert IssuedOk(t, t.issued[i]) && IssuedOk(t, t.issued[j]);
    if Pack(t.issued[i]) == Pack(t.issued[j]) {
      PackIsInjective(t.issued[i], t.issued[j]);
    }
  }

  // ---------- Why both conditions are needed ----------

  /**
   * A step gives a pair a second holder exactly when it grants a held pair whose key is gone, lapsed or deleted by
   * another.
   */
  lemma SecondHolderIff(s: State, e: Event)
    requires OneHolderPerPair(s)
    ensures !OneHolderPerPair(Step(s, e)) <==>
            e.Attempt? && Acquires(s, e.p)
            && exists r :: Holds(s, r) && s.processes[r].pair == PairAt(s.processes[e.p].next)
  {
    var t := Step(s, e);
    if e.Attempt? && Acquires(s, e.p) {
      var q := PairAt(s.processes[e.p].next);
      assert Holds(t, e.p) && t.processes[e.p].pair == q;
      forall r | Holds(s, r) ensures Holds(t, r) && t.processes[r] == s.processes[r] && r != e.p {}
      forall r | Holds(t, r) && r != e.p ensures Holds(s, r) && t.processes[r] == s.processes[r] {}
    } else {
      forall r | Holds(t, r) ensures Holds(s, r) && t.processes[r].pair == s.processes[r].pair {}
    }
  }

  /** Handing over a released pair in a later millisecond is enough, but more than is needed. */
  lemma LaterIsFresh(s: State, p: nat)
    requires Inv(s) && Acquires(s, p)
    requires var q := PairAt(s.processes[p].next); q in s.releasedAt ==> s.releasedAt[q] < s.now
    ensures HandsOverFresh(s, Attempt(p))
  {
    var q := PairAt(s.processes[p].next);
    forall f | f in s.issued && PairOf(f) == q
      ensures f.timestamp != s.now
    {
      assert IssuedOk(s, f);
    }
  }

  function FirstOf(f: Fields): Fields { f.(sequence := 0) }

  /** The sequence of a millisecond starts at zero, and nobody returns a later ID of it first. */
  ghost predicate FirstsIssued(s: State) {
    && s.now >= 0
    && (forall f :: f in s.issued ==> FirstOf(f) in s.issued)
    && (forall p :: Holds(s, p) && s.processes[p].counter.lastTimestamp != -1 ==>
                      FirstOf(FieldsOf(s.processes[p].pair, s.processes[p].counter)) in s.issued)
  }

  lemma StepKeepsFirsts(s: State, e: Event)
    requires FirstsIssued(s)
    ensures FirstsIssued(Step(s, e))
  {
    if e.ReadClock? && Holds(s, e.p) {
      ReadKeepsFirsts(s, e.p);
    }
  }

  lemma ReadKeepsFirsts(s: State, p: nat)
    requires FirstsIssued(s) && Holds(s, p)
    ensures FirstsIssued(Read(s, p))
  {
    var t := Read(s, p);
    forall f | f in t.issued
      ensures FirstOf(f) in t.issued
    {
      if f in s.issued {
        assert FirstOf(f) in s.issued;
      } else {
        var h, c := s.processes[p], t.processes[p].counter;
        assert f == FieldsOf(h.pair, c);
        if c.sequence != 0 {
          assert FirstOf(f) == FirstOf(FieldsOf(h.pair, h.counter));
        }
      }
    }
  }

  lemma {:induction false} FirstsOverRun(s: State, events: seq<Event>)
    requires FirstsIssued(s)
    ensures FirstsIssued(Run(s, events))
    decreases |events|
  {
    if events != [] {
      StepKeepsFirsts(s, events[0]);
      FirstsOverRun(Step(s, events[0]), events[1..]);
    }
  }

  /**
   * After every run, disciplined or not: a process that is granted a pair and reads its clock in the same millisecond
   * returns an ID of sequence zero, and that ID has been returned before exactly if the handover was not fresh.
   */
  lemma HandoverRepeatsIff(now: nat, events: seq<Event>, p: nat)
    requires Acquires(Run(Start(now), events), p)
    ensures var s := Run(Start(now), events);
            var first := Fields(s.now, PairAt(s.processes[p].next).datacenterId,
                                PairAt(s.processes[p].next).workerId, 0);
            && Step(Step(s, Attempt(p)), ReadClock(p)).issued == s.issued + [first]
            && (first in s.issued <==> !HandsOverFresh(s, Attempt(p)))
  {
    FirstsOverRun(Start(now), events);
    var s := Run(Start(now), events);
    var q := PairAt(s.processes[p].next);
    assert Step(s, Attempt(p)).processes[p] == Holding(q, FRESH, false, s.now, s.now + NODE_TTL_MS);
    forall f | f in s.issued && PairOf(f) == q && f.timestamp == s.now
      ensures Fields(s.now, q.datacenterId, q.workerId, 0) in s.issued
    {
      assert FirstOf(f) == Fields(s.now, q.datacenterId, q.workerId, 0);
    }
    assert PairOf(Fields(s.now, q.datacenterId, q.workerId, 0)) == q;
  }

  /**
   * A renewal that comes one tick too late: the lease lapses, the pair is handed out again, the late
   * EXPIRE succeeds on the new holder's key and goes unnoticed, and both processes return the same ID.
   */
  lemma LateRenewalRepeatsAnId(now: nat)
    ensures var t := Run(Start(now), [Scan(0, {}), Attempt(0), Tick(60_000), Scan(1, {}), Attempt(1), Heartbeat(0),
                                      ReadClock(0), ReadClock(1)]);
            && Holds(t, 0) && Holds(t, 1) && t.processes[0].pair == t.processes[1].pair
            && |t.issued| == 2 && t.issued[0] == t.issued[1]
  {
    var s5 := LapsedAndTakenAgain(now);
    var s6 := Step(s5, Heartbeat(0));
    var s7 := Step(s6, ReadClock(0));
    var s8 := Step(s7, ReadClock(1));
    RunEight(Start(now), Scan(0, {}), Attempt(0), Tick(60_000), Scan(1, {}), Attempt(1), Heartbeat(0), ReadClock(0),
             ReadClock(1));
  }

  lemma LapsedAndTakenAgain(now: nat) returns (s: State)
    ensures s == Step(Step(Step(Step(Step(Start(now), Scan(0, {})), Attempt(0)), Tick(60_000)), Scan(1, {})),
                      Attempt(1))
    ensures 0 in s.processes && 1 in s.processes && s.issued == [] && s.now == now + 60_000
    ensures s.processes[0] == Holding(Pair(0, 0), FRESH, false, now, now + 60_000)
    ensures s.processes[1] == Holding(Pair(0, 0), FRESH, false, now + 60_000, now + 120_000)
    ensures s.leases == map[Pair(0, 0) := now + 120_000]
  {
    var s2 := Step(Step(Start(now), Scan(0, {})), Attempt(0));
    assert s2.leases == map[Pair(0, 0) := now + 60_000];
    assert s2.processes[0] == Holding(Pair(0, 0), FRESH, false, now, now + 60_000);
    s := Step(Step(Step(s2, Tick(60_000)), Scan(1, {})), Attempt(1));
  }

  /** A released pair taken again in the same millisecond repeats an ID although every renewal was in time. */
  lemma SameMillisecondHandoverRepeatsAnId(now: nat)
    ensures var t := Run(Start(now),
                         [Scan(0, {}), Attempt(0), ReadClock(0), Release(0), Scan(1, {}), Attempt(1), ReadClock(1),
                          Tick(0)]);
            |t.issued| == 2 && t.issued[0] == t.issued[1] && Holds(t, 1) && !Holds(t, 0)
  {
    var s4 := ReleasedAfterOneId(now);
    var s5 := Step(s4, Scan(1, {}));
    var s6 := Step(s5, Attempt(1));
    assert s6.processes[1] == Holding(Pair(0, 0), FRESH, false, now, now + 60_000);
    var s7 := Step(s6, ReadClock(1));
    RunEight(Start(now), Scan(0, {}), Attempt(0), ReadClock(0), Release(0), Scan(1, {}), Attempt(1), ReadClock(1),
             Tick(0));
  }

  lemma ReleasedAfterOneId(now: nat) returns (s: State)
    ensures s == Step(Step(Step(Step(Start(now), Scan(0, {})), Attempt(0)), ReadClock(0)), Release(0))
    ensures s.now == now && s.leases == map[] && !Holds(s, 0)
    ensures s.issued == [Fields(now, 0, 0, 0)]
  {
    var s2 := Step(Step(Start(now), Scan(0, {})), Attempt(0));
    assert s2.processes[0] == Holding(Pair(0, 0), FRESH, false, now, now + 60_000);
    s := Step(Step(s2, ReadClock(0)), Release(0));
  }

  lemma RunEight(s: State, a: Event, b: Event, c: Event, d: Event, e: Event, f: Event, g: Event, h: Event)
    ensures Run(s, [a, b, c, d, e, f, g, h])
            == Step(Step(Step(Step(Step(Step(Step(Step(s, a), b), c), d), e), f), g), h)
  {
    RunFour(s, a, b, c, d, [e, f, g, h]);
    assert [a, b, c, d] + [e, f, g, h] == [a, b, c, d, e, f, g, h];
    RunFour(Step(Step(Step(Step(s, a), b), c), d), e, f, g, h, []);
    assert [e, f, g, h] + [] == [e, f, g, h];
  }

  lemma RunFour(s: State, a: Event, b: Event, c: Event, d: Event, rest: seq<Event>)
    ensures Run(s, [a, b, c, d] + rest) == Run(Step(Step(Step(Step(s, a), b), c), d), rest)
  {
    assert [a, b, c, d] + rest == [a] + ([b] + ([c] + ([d] + rest)));
    RunOne(s, a, [b] + ([c] + ([d] + rest)));
    RunOne(Step(s, a), b, [c] + ([d] + rest));
    RunOne(Step(Step(s, a), b), c, [d] + rest);
    RunOne(Step(Step(Step(s, a), b), c), d, rest);
  }

  lemma RunOne(s: State, e: Event, rest: seq<Event>)
    ensures Run(s, [e] + rest) == Run(Step(s, e), rest)
  {
    assert ([e] + rest)[1..] == rest;
  }
}
