/**
 * The ID generator of one process under an arbitrary clock.
 *
 * A call reads the clock once and, when it has to wait, again and again. The readings a call sees are
 * given as a finite list; a call that is still waiting when the list ends is `Spinning`: it has not
 * returned and still holds the lock, so no later call on that generator happens.
 */
module SnowflakeGenerator {
  import opened Options
  import opened IntegerBits
  import opened SnowflakeIds

  /** The two fields a call updates. */
  datatype Counter = Counter(sequence: int, lastTimestamp: int) {
    predicate InRange() { 0 <= sequence <= SEQUENCE_MASK }

    ghost predicate Before(next: Counter) {
      lastTimestamp < next.lastTimestamp || (lastTimestamp == next.lastTimestamp && sequence < next.sequence)
    }
  }

  const FRESH := Counter(0, -1)

  /** What one clock reading leads to. */
  datatype Micro = Issue(counter: Counter) | Wait(counter: Counter) | RolledBack(backMs: int)

  /** The first reading of a call. Waiting after a sequence wrap already has the sequence at zero. */
  function Begin(c: Counter, ts: int): Micro {
    if ts < c.lastTimestamp then
      if c.lastTimestamp - ts <= CLOCK_BACKWARD_TOLERANCE_MS then Wait(c) else RolledBack(c.lastTimestamp - ts)
    else if ts == c.lastTimestamp then
      var next := And(c.sequence + 1, SEQUENCE_MASK);
      if next == 0 then Wait(Counter(0, c.lastTimestamp)) else Issue(Counter(next, ts))
    else
      Issue(Counter(0, ts))
  }

  /** A reading taken while waiting. */
  function Poll(c: Counter, ts: int): Micro {
    if ts <= c.lastTimestamp then Wait(c) else Issue(Counter(0, ts))
  }

  function PollAll(c: Counter, readings: seq<int>): Micro {
    if readings == [] then Wait(c)
    else
      var m := Poll(c, readings[0]);
      if m.Wait? then PollAll(c, readings[1..]) else m
  }

  /** One whole call. */
  function Call(c: Counter, readings: seq<int>): Micro {
    if readings == [] then Wait(c)
    else
      var m := Begin(c, readings[0]);
      if m.Wait? then PollAll(m.counter, readings[1..]) else m
  }

  lemma NextSequence(sequence: int)
    requires 0 <= sequence <= SEQUENCE_MASK
    ensures And(sequence + 1, SEQUENCE_MASK) == if sequence == SEQUENCE_MASK then 0 else sequence + 1
  {
    SequenceMaskIsMod(sequence + 1);
    SmallMod(sequence + 1);
  }

  lemma SmallMod(x: int)
    requires 0 <= x <= 4096
    ensures x % 4096 == if x == 4096 then 0 else x
  {
  }

  lemma {:induction false} PollAllIssuesLater(c: Counter, readings: seq<int>)
    ensures var m := PollAll(c, readings);
            (m.Wait? && m.counter == c && (forall i :: 0 <= i < |readings| ==> readings[i] <= c.lastTimestamp)) ||
            (m.Issue? && m.counter.sequence == 0 && c.lastTimestamp < m.counter.lastTimestamp
             && m.counter.lastTimestamp in readings)
  {
    if readings != [] {
      PollAllIssuesLater(c, readings[1..]);
    }
  }

  /** Whatever the clock does, an issuing call moves strictly forward and uses a time it really read. */
  lemma CallMovesForward(c: Counter, readings: seq<int>)
    requires c.InRange()
    ensures var m := Call(c, readings);
            m.Issue? ==> m.counter.InRange() && c.Before(m.counter) && m.counter.lastTimestamp in readings
  {
    NextSequence(c.sequence);
    if readings != [] {
      var m := Begin(c, readings[0]);
      if m.Wait? {
        PollAllIssuesLater(m.counter, readings[1..]);
      }
    }
  }

  /** A call is refused exactly when its first reading lies further back than the tolerance. */
  lemma RefusedIff(c: Counter, readings: seq<int>)
    ensures Call(c, readings).RolledBack? <==>
            readings != [] && readings[0] + CLOCK_BACKWARD_TOLERANCE_MS < c.lastTimestamp
    ensures Call(c, readings).RolledBack? ==> Call(c, readings).backMs == c.lastTimestamp - readings[0]
  {
    if readings != [] {
      var m := Begin(c, readings[0]);
      if m.Wait? {
        PollAllIssuesLater(m.counter, readings[1..]);
      }
    }
  }

  /** A call has to wait at a first reading that is behind within the tolerance, or that has no sequence number left. */
  predicate HasToWait(c: Counter, first: int) {
    c.lastTimestamp - CLOCK_BACKWARD_TOLERANCE_MS <= first < c.lastTimestamp
    || (first == c.lastTimestamp && c.sequence == SEQUENCE_MASK)
  }

  /**
   * What a call issues. It waits only where it has to, then for the first reading past the last timestamp; otherwise it
   * takes the next sequence number of this millisecond, or the first of a later one, after a single reading.
   */
  lemma CallIssues(c: Counter, readings: seq<int>)
    requires c.InRange() && readings != []
    ensures readings[0] == c.lastTimestamp && c.sequence < SEQUENCE_MASK ==>
              Call(c, readings) == Issue(Counter(c.sequence + 1, c.lastTimestamp))
    ensures readings[0] > c.lastTimestamp ==> Call(c, readings) == Issue(Counter(0, readings[0]))
    ensures forall k: nat :: HasToWait(c, readings[0]) && FirstPast(readings, c.lastTimestamp, k) ==>
                               Call(c, readings) == Issue(Counter(0, readings[k]))
    ensures Call(c, readings).Wait? <==>
            HasToWait(c, readings[0]) && forall i :: 0 <= i < |readings| ==> readings[i] <= c.lastTimestamp
  {
    NextSequence(c.sequence);
    if HasToWait(c, readings[0]) {
      var m := Begin(c, readings[0]);
      PollAllIssuesLater(m.counter, readings[1..]);
      forall k: nat | FirstPast(readings, c.lastTimestamp, k)
        ensures Call(c, readings) == Issue(Counter(0, readings[k]))
      {
        assert FirstPast(readings[1..], c.lastTimestamp, k - 1);
        PollAllFindsFirst(m.counter, readings[1..], k - 1);
      }
    }
  }

  predicate IsNode(datacenterId: int, workerId: int) {
    0 <= datacenterId <= MAX_DATACENTER_ID && 0 <= workerId <= MAX_WORKER_ID
  }

  function IdOf(datacenterId: int, workerId: int, c: Counter): int {
    Pack(Fields(c.lastTimestamp, datacenterId, workerId, c.sequence))
  }

  /** The counters behind the IDs one node issues over a run of calls; a call that never returns ends the run. */
  function History(c: Counter, calls: seq<seq<int>>): seq<Counter>
    decreases |calls|
  {
    if calls == [] then []
    else
      var m := Call(c, calls[0]);
      if m.Issue? then [m.counter] + History(m.counter, calls[1..])
      else if m.RolledBack? then History(c, calls[1..])
      else []
  }

  lemma {:induction false} HistoryMovesForward(c: Counter, calls: seq<seq<int>>)
    requires c.InRange()
    ensures forall i ::
              0 <= i < |History(c, calls)| ==> History(c, calls)[i].InRange() && c.Before(History(c, calls)[i])
    ensures forall i, j :: 0 <= i < j < |History(c, calls)| ==> History(c, calls)[i].Before(History(c, calls)[j])
    decreases |calls|
  {
    if calls != [] {
      CallMovesForward(c, calls[0]);
      var m := Call(c, calls[0]);
      if m.Issue? {
        HistoryMovesForward(m.counter, calls[1..]);
      } else if m.RolledBack? {
        HistoryMovesForward(c, calls[1..]);
      }
    }
  }

  /** Where the counter is after the calls. */
  function Latest(c: Counter, issued: seq<Counter>): Counter {
    if issued == [] then c else issued[|issued| - 1]
  }

  /** No call of the run is still waiting. */
  predicate AllReturn(c: Counter, calls: seq<seq<int>>)
    decreases |calls|
  {
    calls != [] ==>
      var m := Call(c, calls[0]);
      !m.Wait? && AllReturn(if m.Issue? then m.counter else c, calls[1..])
  }

  /** One more call adds what it issues, if all before it returned. */
  lemma {:induction false} HistoryGrows(c: Counter, calls: seq<seq<int>>, readings: seq<int>, more: seq<seq<int>>)
    requires more == calls + [readings]
    ensures AllReturn(c, calls) ==>
              var m := Call(Latest(c, History(c, calls)), readings);
              History(c, more) == History(c, calls) + if m.Issue? then [m.counter] else []
    ensures !AllReturn(c, calls) ==> History(c, more) == History(c, calls)
    decreases |calls|
  {
    if calls == [] {
      assert more[1..] == [];
    } else {
      var m := Call(c, calls[0]);
      assert more[0] == calls[0] && more[1..] == calls[1..] + [readings];
      if m.Issue? {
        HistoryGrows(m.counter, calls[1..], readings, more[1..]);
      } else if m.RolledBack? {
        HistoryGrows(c, calls[1..], readings, more[1..]);
      }
    }
  }

  /** What follows a counter: the next number of its millisecond, or the first of a later one. */
  predicate Follows(c: Counter, next: Counter) {
    next == Counter(c.sequence + 1, c.lastTimestamp) || (next.sequence == 0 && c.lastTimestamp < next.lastTimestamp)
  }

  lemma CallFollows(c: Counter, readings: seq<int>)
    requires c.InRange() && Call(c, readings).Issue?
    ensures Follows(c, Call(c, readings).counter)
  {
    NextSequence(c.sequence);
    var m := Begin(c, readings[0]);
    if m.Wait? {
      PollAllIssuesLater(m.counter, readings[1..]);
    }
  }

  /** Over any run no sequence number is skipped: each counter follows the one before. */
  lemma {:induction false} NoNumberIsSkipped(c: Counter, calls: seq<seq<int>>, i: nat)
    requires c.InRange() && i < |History(c, calls)|
    ensures Follows(if i == 0 then c else History(c, calls)[i - 1], History(c, calls)[i])
    decreases |calls|
  {
    CallMovesForward(c, calls[0]);
    var m := Call(c, calls[0]);
    if m.Issue? {
      CallFollows(c, calls[0]);
      if i > 0 {
        NoNumberIsSkipped(m.counter, calls[1..], i - 1);
      }
    } else {
      NoNumberIsSkipped(c, calls[1..], i);
    }
  }

  /** Under any clock, the IDs of one node strictly increase over any run of calls. */
  lemma IdsStrictlyIncrease(datacenterId: int, workerId: int, c: Counter, calls: seq<seq<int>>, i: nat, j: nat)
    requires IsNode(datacenterId, workerId) && c.InRange()
    requires i < j < |History(c, calls)|
    ensures IdOf(datacenterId, workerId, History(c, calls)[i]) < IdOf(datacenterId, workerId, History(c, calls)[j])
  {
    HistoryMovesForward(c, calls);
    var a, b := History(c, calls)[i], History(c, calls)[j];
    PackOrder(Fields(a.lastTimestamp, datacenterId, workerId, a.sequence),
              Fields(b.lastTimestamp, datacenterId, workerId, b.sequence));
  }

  datatype Outcome =
    | Issued(id: int)
    | NotInitialized
    | NodeMissing
    | ClockRolledBack(backMs: int)
    | Spinning

  datatype InitOutcome = Ready | HalfConfigured | NodesExhausted | DatacenterOutOfRange | WorkerOutOfRange

  class Snowflake {
    var datacenterId: Option<int>
    var workerId: Option<int>
    var sequence: int
    var lastTimestamp: int
    var initialized: bool
    var autoAllocated: bool

    ghost predicate Valid()
      reads this
    {
      && 0 <= sequence <= SEQUENCE_MASK
      && (initialized ==> datacenterId.Some? && workerId.Some? && IsNode(datacenterId.value, workerId.value))
    }

    ghost function State(): Counter
      reads this
    {
      Counter(sequence, lastTimestamp)
    }

    constructor ()
      ensures Valid() && State() == FRESH && !initialized && datacenterId == None && workerId == None
    {
      datacenterId, workerId := None, None;
      sequence, lastTimestamp := 0, -1;
      initialized, autoAllocated := false, false;
    }

    /**
     * `fixedDatacenter` and `fixedWorker` are the two settings; `acquired` is what the node manager
     * hands out when neither is set, `None` when every pair is taken.
     */
    method Init(fixedDatacenter: Option<int>, fixedWorker: Option<int>, acquired: Option<(int, int)>)
      returns (r: InitOutcome)
      requires Valid()
      modifies this`datacenterId, this`workerId, this`initialized, this`autoAllocated
      ensures Valid()
      ensures initialized <==> r.Ready?
      ensures old(initialized) ==> r.Ready? && unchanged(this)
      ensures !old(initialized) ==>
                && (r.HalfConfigured? <==> fixedDatacenter.Some? != fixedWorker.Some?)
                && (r.NodesExhausted? <==> fixedDatacenter.None? && fixedWorker.None? && acquired.None?)
                && (r.HalfConfigured? || r.NodesExhausted? ==> unchanged(this))
      ensures !old(initialized) && !r.HalfConfigured? && !r.NodesExhausted? ==>
                && (if fixedDatacenter.Some? then datacenterId == fixedDatacenter && workerId == fixedWorker
                    else datacenterId == Some(acquired.value.0) && workerId == Some(acquired.value.1))
                && (autoAllocated <==> fixedDatacenter.None? || old(autoAllocated))
                && (r.DatacenterOutOfRange? <==> !(0 <= datacenterId.value < 32))
                && (r.WorkerOutOfRange? <==> 0 <= datacenterId.value < 32 && !(0 <= workerId.value < 32))
                && (r.Ready? <==> 0 <= datacenterId.value < 32 && 0 <= workerId.value < 32)
    {
      if initialized {
        return Ready;
      }
      if fixedDatacenter.Some? && fixedWorker.Some? {
        datacenterId, workerId := fixedDatacenter, fixedWorker;
      } else if fixedDatacenter.Some? || fixedWorker.Some? {
        return HalfConfigured;
      } else {
        if acquired.None? {
          return NodesExhausted;
        }
        datacenterId, workerId := Some(acquired.value.0), Some(acquired.value.1);
        autoAllocated := true;
      }
      if !(0 <= datacenterId.value <= MAX_DATACENTER_ID) {
        return DatacenterOutOfRange;
      }
      if !(0 <= workerId.value <= MAX_WORKER_ID) {
        return WorkerOutOfRange;
      }
      initialized := true;
      r := Ready;
    }

    /** The busy wait: the first reading past `last`, or `None` when the readings end before one. */
    static method TillNextMs(readings: seq<int>, last: int) returns (ts: Option<int>)
      ensures ts.None? <==> forall i :: 0 <= i < |readings| ==> readings[i] <= last
      ensures ts.Some? ==> exists k: nat :: FirstPast(readings, last, k) && ts.value == readings[k]
    {
      var i := 0;
      while i < |readings| && readings[i] <= last
        invariant 0 <= i <= |readings|
        invariant forall k :: 0 <= k < i ==> readings[k] <= last
      {
        i := i + 1;
      }
      if i < |readings| {
        assert FirstPast(readings, last, i);
        return Some(readings[i]);
      }
      return None;
    }

    /** The locked part up to the new counter: rollback, same millisecond, later millisecond. */
    method Advance(readings: seq<int>) returns (m: Micro)
      requires 0 <= sequence <= SEQUENCE_MASK
      modifies this`sequence, this`lastTimestamp
      ensures 0 <= sequence <= SEQUENCE_MASK
      ensures m == Call(old(State()), readings)
      ensures m.Issue? ==> State() == m.counter
      ensures m.RolledBack? ==> State() == old(State())
    {
      if readings == [] {
        return Wait(Counter(sequence, lastTimestamp));
      }
      ghost var start := State();
      NextSequence(sequence);
      var timestamp := readings[0];
      if timestamp < lastTimestamp {
        var backMs := lastTimestamp - timestamp;
        if backMs <= CLOCK_BACKWARD_TOLERANCE_MS {
          var next := TillNextMs(readings[1..], lastTimestamp);
          CallWaits(start, readings, start, next);
          if next.None? {
            return Wait(Counter(sequence, lastTimestamp));
          }
          timestamp := next.value;
        } else {
          return RolledBack(backMs);
        }
      }
      if timestamp == lastTimestamp {
        sequence := And(sequence + 1, SEQUENCE_MASK);
        if sequence == 0 {
          var next := TillNextMs(readings[1..], lastTimestamp);
          CallWaits(start, readings, Counter(0, lastTimestamp), next);
          if next.None? {
            return Wait(Counter(0, lastTimestamp));
          }
          timestamp := next.value;
        }
      } else {
        sequence := 0;
      }
      lastTimestamp := timestamp;
      m := Issue(Counter(sequence, timestamp));
    }

    /** One ID. Only an issuing call changes anything that a later call can see. */
    method Generate(readings: seq<int>) returns (r: Outcome)
      requires Valid()
      modifies this`sequence, this`lastTimestamp
      ensures Valid()
      ensures !initialized ==> r == NotInitialized
      ensures initialized && !r.Spinning? ==>
                match Call(old(State()), readings)
                case Issue(next) => State() == next && r == Issued(IdOf(datacenterId.value, workerId.value, next))
                case RolledBack(back) => r == ClockRolledBack(back)
                case Wait(_) => false
      ensures r.Spinning? <==> initialized && Call(old(State()), readings).Wait?
      ensures initialized && readings != [] ==>
                && (readings[0] == old(lastTimestamp) && old(sequence) < SEQUENCE_MASK ==>
                      r.Issued? && lastTimestamp == old(lastTimestamp) && sequence == old(sequence) + 1)
                && (readings[0] > old(lastTimestamp) ==> r.Issued? && lastTimestamp == readings[0] && sequence == 0)
                && (r.Spinning? ==> HasToWait(old(State()), readings[0]))
      ensures !r.Issued? && !r.Spinning? ==> State() == old(State())
      ensures r.Issued? ==> r.id > IdOf(datacenterId.value, workerId.value, old(State()))
      ensures r.Issued? ==> Parse(r.id) == Fields(lastTimestamp, datacenterId.value, workerId.value, sequence)
    {
      if !initialized {
        return NotInitialized;
      }
      if datacenterId.None? || workerId.None? {
        return NodeMissing;
      }
      ghost var start := State();
      if readings != [] {
        CallIssues(start, readings);
      }
      var m := Advance(readings);
      match m {
        case Wait(_) => r := Spinning;
        case RolledBack(backMs) => r := ClockRolledBack(backMs);
        case Issue(_) =>
          CallMovesForward(start, readings);
          IssuedIdIsLater(datacenterId.value, workerId.value, start, State());
          r := Issued(Pack(Fields(lastTimestamp, datacenterId.value, workerId.value, sequence)));
      }
    }
  }

  lemma IssuedIdIsLater(datacenterId: int, workerId: int, c: Counter, next: Counter)
    requires IsNode(datacenterId, workerId) && c.InRange() && next.InRange() && c.Before(next)
    ensures IdOf(datacenterId, workerId, c) < IdOf(datacenterId, workerId, next)
    ensures Parse(IdOf(datacenterId, workerId, next))
            == Fields(next.lastTimestamp, datacenterId, workerId, next.sequence)
  {
    var fields := Fields(next.lastTimestamp, datacenterId, workerId, next.sequence);
    ParseInvertsPack(fields);
    PackOrder(Fields(c.lastTimestamp, datacenterId, workerId, c.sequence), fields);
  }

  ghost predicate FirstPast(readings: seq<int>, last: int, k: nat) {
    k < |readings| && readings[k] > last && forall i :: 0 <= i < k ==> readings[i] <= last
  }

  /** The busy wait of the specification stops at the first reading past the last timestamp. */
  lemma {:induction false} PollAllFindsFirst(c: Counter, readings: seq<int>, k: nat)
    requires FirstPast(readings, c.lastTimestamp, k)
    ensures PollAll(c, readings) == Issue(Counter(0, readings[k]))
    decreases k
  {
    if k > 0 {
      assert readings[0] <= c.lastTimestamp;
      PollAllFindsFirst(c, readings[1..], k - 1);
    }
  }

  lemma CallWaits(c: Counter, readings: seq<int>, waiting: Counter, ts: Option<int>)
    requires readings != [] && Begin(c, readings[0]) == Wait(waiting)
    requires ts.None? ==> forall i :: 0 <= i < |readings[1..]| ==> readings[1..][i] <= waiting.lastTimestamp
    requires ts.Some? ==>
               exists k: nat :: FirstPast(readings[1..], waiting.lastTimestamp, k) && ts.value == readings[1..][k]
    ensures Call(c, readings) == if ts.None? then Wait(waiting) else Issue(Counter(0, ts.value))
    ensures ts.Some? ==> ts.value > waiting.lastTimestamp
  {
    WaitEnds(waiting, readings[1..], ts);
  }

  lemma WaitEnds(c: Counter, readings: seq<int>, ts: Option<int>)
    requires ts.None? ==> forall i :: 0 <= i < |readings| ==> readings[i] <= c.lastTimestamp
    requires ts.Some? ==> exists k: nat :: FirstPast(readings, c.lastTimestamp, k) && ts.value == readings[k]
    ensures PollAll(c, readings) == if ts.None? then Wait(c) else Issue(Counter(0, ts.value))
    ensures ts.Some? ==> ts.value > c.lastTimestamp
  {
    if ts.Some? {
      var k: nat :| FirstPast(readings, c.lastTimestamp, k) && ts.value == readings[k];
      PollAllFindsFirst(c, readings, k);
    } else {
      PollAllIssuesLater(c, readings);
    }
  }
}
