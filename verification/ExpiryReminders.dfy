/** The billing sweep: reminders 7, 3 and 1 days before expiry, then expiry itself. Times are microseconds. */
module ExpiryReminders {
  import opened Options

  const DAY := 86_400_000_000

  /** Remaining days, rounded up; 0 once expired. */
  function DaysUntil(when: int, now: int): nat {
    if when <= now then 0 else (when - now + DAY - 1) / DAY
  }

  predicate IsThreshold(days: int) {
    days == 7 || days == 3 || days == 1
  }

  /** The query's window: later than now, and at most seven days ahead. */
  predicate InWindow(when: int, now: int) {
    now < when <= now + 7 * DAY
  }

  lemma DaysUntilIs(when: int, now: int, days: nat)
    requires days >= 1
    ensures DaysUntil(when, now) == days <==> when - days * DAY <= now < when - (days - 1) * DAY
  {
  }

  /** The window holds exactly while 1 to 7 days are left. */
  lemma WindowIff(when: int, now: int)
    ensures InWindow(when, now) <==> 1 <= DaysUntil(when, now) <= 7
  {
  }

  /** A day later, a day less. */
  lemma DayLater(when: int, now: int)
    ensures DaysUntil(when, now + DAY) == if DaysUntil(when, now) == 0 then 0 else DaysUntil(when, now) - 1
  {
  }

  // ---------- Rows ----------

  datatype Status = Active | Expired

  /** `counts`: belongs to an owner, or is not on the free tier. `reachable`: the recipient is known. */
  datatype Row = Row(status: Status, counts: bool, reachable: bool, expiresAt: Option<int>)

  predicate Due(row: Row, now: int) {
    && row.status.Active? && row.counts && row.expiresAt.Some? && InWindow(row.expiresAt.value, now)
    && IsThreshold(DaysUntil(row.expiresAt.value, now)) && row.reachable
  }

  predicate Overdue(row: Row, now: int) {
    row.status.Active? && row.counts && row.expiresAt.Some? && row.expiresAt.value < now
  }

  function Expire(row: Row, now: int): Row {
    if Overdue(row, now) then row.(status := Expired) else row
  }

  datatype Kind = Entitlement | Subscription
  datatype Notice = Notice(kind: Kind, row: nat, daysLeft: nat)

  /** The days left to put into a reminder, where one is due. */
  function ReminderOf(row: Row, now: int): Option<nat> {
    if Due(row, now) then Some(DaysUntil(row.expiresAt.value, now)) else None
  }

  function RemindersOf(rows: seq<Row>, now: int): (due: seq<Option<nat>>)
    ensures |due| == |rows| && forall k :: 0 <= k < |rows| ==> due[k] == ReminderOf(rows[k], now)
  {
    seq(|rows|, k requires 0 <= k < |rows| => ReminderOf(rows[k], now))
  }

  /** One notice per due row, in row order. */
  function NoticesOf(kind: Kind, due: seq<Option<nat>>, upTo: nat): seq<Notice>
    requires upTo <= |due|
  {
    if upTo == 0 then []
    else NoticesOf(kind, due, upTo - 1) + if due[upTo - 1].Some? then [Notice(kind, upTo - 1, due[upTo - 1].value)]
        else []
  }

  function AllNotices(kind: Kind, rows: seq<Row>, now: int): seq<Notice> {
    NoticesOf(kind, RemindersOf(rows, now), |rows|)
  }

  function ExpireAll(rows: seq<Row>, now: int): (after: seq<Row>)
    ensures |after| == |rows| && forall k :: 0 <= k < |rows| ==> after[k] == Expire(rows[k], now)
  {
    seq(|rows|, k requires 0 <= k < |rows| => Expire(rows[k], now))
  }

  function OverdueRows(rows: seq<Row>, now: int, upTo: nat): set<nat>
    requires upTo <= |rows|
  {
    set k: nat | k < upTo && Overdue(rows[k], now)
  }

  /** The rows that expire between the two tables. */
  function Newly(before: seq<Row>, after: seq<Row>): set<nat> {
    set k: nat | k < |before| && k < |after| && before[k].status.Active? && after[k].status.Expired?
  }

  lemma OverdueExpireNewly(rows: seq<Row>, now: int)
    ensures OverdueRows(rows, now, |rows|) == Newly(rows, ExpireAll(rows, now))
  {
  }

  class Billing {
    var entitlements: seq<Row>
    var subscriptions: seq<Row>
    var sent: seq<Notice>

    constructor (entitlements: seq<Row>, subscriptions: seq<Row>)
      ensures this.entitlements == entitlements && this.subscriptions == subscriptions && sent == []
    {
      this.entitlements, this.subscriptions, this.sent := entitlements, subscriptions, [];
    }

    method Remind(kind: Kind, rows: seq<Row>, now: int, horizon: int) returns (reminded: nat)
      requires horizon == now + 7 * DAY
      modifies this`sent
      ensures sent == old(sent) + AllNotices(kind, rows, now)
      ensures reminded == |AllNotices(kind, rows, now)|
    {
      reminded := 0;
      ghost var due := RemindersOf(rows, now);
      for i := 0 to |rows|
        invariant sent == old(sent) + NoticesOf(kind, due, i)
        invariant reminded == |NoticesOf(kind, due, i)|
      {
        var row := rows[i];
        assert due[i] == ReminderOf(row, now);
        if row.status.Active? && row.counts && row.expiresAt.Some? && now < row.expiresAt.value <= horizon {
          var daysLeft := DaysUntil(row.expiresAt.value, now);
          if IsThreshold(daysLeft) && row.reachable {
            sent := sent + [Notice(kind, i, daysLeft)];
            reminded := reminded + 1;
          }
        }
      }
    }

    method ExpireOverdue(rows: seq<Row>, now: int) returns (after: seq<Row>, expired: nat)
      ensures after == ExpireAll(rows, now)
      ensures expired == |OverdueRows(rows, now, |rows|)|
    {
      after, expired := [], 0;
      for i := 0 to |rows|
        invariant |after| == i && forall k :: 0 <= k < i ==> after[k] == Expire(rows[k], now)
        invariant expired == |OverdueRows(rows, now, i)|
      {
        assert OverdueRows(rows, now, i + 1) == OverdueRows(rows, now, i) + if Overdue(rows[i], now) then {i} else {};
        if Overdue(rows[i], now) {
          after := after + [rows[i].(status := Expired)];
          expired := expired + 1;
        } else {
          after := after + [rows[i]];
        }
      }
    }

    /** Reminders first, on the rows as they were; then what lies before `now` expires. */
    method Sweep(now: int) returns (reminded: nat, expiredEnt: nat, expiredSub: nat)
      modifies this
      ensures entitlements == ExpireAll(old(entitlements), now) && subscriptions == ExpireAll(old(subscriptions), now)
      ensures sent == old(sent)
              + (AllNotices(Entitlement, old(entitlements), now) + AllNotices(Subscription, old(subscriptions), now))
      ensures reminded == |sent| - |old(sent)|
      ensures expiredEnt == |Newly(old(entitlements), entitlements)|
      ensures expiredSub == |Newly(old(subscriptions), subscriptions)|
    {
      var horizon := now + 7 * DAY;
      var first := Remind(Entitlement, entitlements, now, horizon);
      var second := Remind(Subscription, subscriptions, now, horizon);
      reminded := first + second;
      OverdueExpireNewly(entitlements, now);
      OverdueExpireNewly(subscriptions, now);
      entitlements, expiredEnt := ExpireOverdue(entitlements, now);
      subscriptions, expiredSub := ExpireOverdue(subscriptions, now);
    }
  }

  // ---------- One row over many sweeps ----------

  /** The reminders one row gets in sweeps at the given times. */
  function Reminders(row: Row, times: seq<int>): seq<nat>
    decreases |times|
  {
    if times == [] then []
    else
      AsList(ReminderOf(row, times[0])) + Reminders(Expire(row, times[0]), times[1..])
  }

  function Daily(start: int, n: nat): seq<int>
    decreases n
  {
    if n == 0 then [] else [start] + Daily(start + DAY, n - 1)
  }

  function ThresholdsUpTo(days: nat): seq<nat> {
    (if days >= 7 then [7] else []) + (if days >= 3 then [3] else []) + (if days >= 1 then [1] else [])
  }

  lemma NoMoreReminders(row: Row, times: seq<int>)
    requires row.expiresAt.Some? && forall i :: 0 <= i < |times| ==> row.expiresAt.value <= times[i]
    ensures Reminders(row, times) == []
    decreases |times|
  {
    if times != [] {
      assert !InWindow(row.expiresAt.value, times[0]);
      NoMoreReminders(Expire(row, times[0]), times[1..]);
    }
  }

  lemma {:induction false} DailyIsLater(start: int, n: nat)
    ensures |Daily(start, n)| == n && forall i :: 0 <= i < n ==> Daily(start, n)[i] >= start
    decreases n
  {
    if n > 0 {
      DailyIsLater(start + DAY, n - 1);
    }
  }

  lemma OneDay(row: Row, start: int, n: nat)
    requires row.status.Active? && row.counts && row.reachable && row.expiresAt.Some? && n > 0
             && start < row.expiresAt.value
    ensures var days := DaysUntil(row.expiresAt.value, start);
            Reminders(row, Daily(start, n))
                == (if IsThreshold(days) then [days] else []) + Reminders(row, Daily(start + DAY, n - 1))
  {
    var times := Daily(start, n);
    assert times[0] == start && times[1..] == Daily(start + DAY, n - 1);
    WindowIff(row.expiresAt.value, start);
    assert Expire(row, start) == row;
  }

  /**
   * Sweeps a day apart, a fixed expiry, first seen with `days` left: each threshold not above `days` is reminded of
   * exactly once, in order; seen a week or more ahead, these are 7, 3 and 1.
   */
  lemma {:induction false} EachThresholdOnce(row: Row, start: int, n: nat)
    requires row.status.Active? && row.counts && row.reachable && row.expiresAt.Some?
    requires DaysUntil(row.expiresAt.value, start) <= n
    ensures Reminders(row, Daily(start, n)) == ThresholdsUpTo(DaysUntil(row.expiresAt.value, start))
    decreases n
  {
    var days := DaysUntil(row.expiresAt.value, start);
    if days == 0 {
      DailyIsLater(start, n);
      NoMoreReminders(row, Daily(start, n));
    } else {
      OneDay(row, start, n);
      DayLater(row.expiresAt.value, start);
      EachThresholdOnce(row, start + DAY, n - 1);
      ThresholdsStep(days);
    }
  }

  lemma ThresholdsStep(days: nat)
    requires days > 0
    ensures ThresholdsUpTo(days) == (if IsThreshold(days) then [days] else []) + ThresholdsUpTo(days - 1)
  {
  }

  // ---------- Sweeps not exactly a day apart ----------

  ghost predicate DropsByOne(gap: int) {
    forall when, now :: DaysUntil(when, now) >= 1 ==> DaysUntil(when, now + gap) == DaysUntil(when, now) - 1
  }

  /** A gap longer than a day lets some expiry pass from 8 days left to fewer than 7: that reminder is never sent. */
  lemma LongerGapSkips(now: int, gap: int)
    requires gap > DAY
    ensures var when := now + 7 * DAY + 1; DaysUntil(when, now) == 8 && DaysUntil(when, now + gap) < 7
  {
  }

  /**
   * A shorter gap lets some expiry be seen with 7 days left twice; only the deduplication key then prevents a second
   * one.
   */
  lemma ShorterGapRepeats(now: int, gap: int)
    requires 0 <= gap < DAY
    ensures var when := now + 7 * DAY; DaysUntil(when, now) == 7 && DaysUntil(when, now + gap) == 7
  {
  }

  /** The days left drop by exactly one from sweep to sweep, whatever the expiry, only at a gap of exactly a day. */
  lemma DropsByOneIff(gap: int)
    requires gap >= 0
    ensures DropsByOne(gap) <==> gap == DAY
  {
    if gap == DAY {
      forall when, now | DaysUntil(when, now) >= 1
        ensures DaysUntil(when, now + gap) == DaysUntil(when, now) - 1
      {
        DayLater(when, now);
      }
    } else if gap > DAY {
      LongerGapSkips(0, gap);
      assert DaysUntil(7 * DAY + 1, 0 + gap) < DaysUntil(7 * DAY + 1, 0) - 1;
    } else {
      ShorterGapRepeats(0, gap);
      assert DaysUntil(7 * DAY, 0 + gap) == DaysUntil(7 * DAY, 0);
    }
  }

  // ---------- Sweeps at any times ----------

  predicate Ascends(times: seq<int>) {
    forall i, j :: 0 <= i < j < |times| ==> times[i] <= times[j]
  }

  function Count(s: seq<nat>, d: nat): nat {
    multiset(s)[d]
  }

  /** How many of the times fall into [from, upTo). */
  function CountWithin(times: seq<int>, from: int, upTo: int): nat {
    if times == [] then 0 else (if from <= times[0] < upTo then 1 else 0) + CountWithin(times[1..], from, upTo)
  }

  lemma CountOfParts(whole: seq<nat>, a: seq<nat>, b: seq<nat>, d: nat)
    requires whole == a + b
    ensures Count(whole, d) == Count(a, d) + Count(b, d)
  {
  }

  lemma {:induction false} NoneWithin(times: seq<int>, from: int, upTo: int)
    requires forall i :: 0 <= i < |times| ==> upTo <= times[i]
    ensures CountWithin(times, from, upTo) == 0
    decreases |times|
  {
    if times != [] {
      NoneWithin(times[1..], from, upTo);
    }
  }

  predicate Remindable(row: Row) {
    row.status.Active? && row.counts && row.reachable && row.expiresAt.Some?
  }

  /** A reminder with `d` days left is due exactly in [from, upTo). */
  ghost predicate DueWithin(row: Row, d: nat, from: int, upTo: int) {
    forall now :: ReminderOf(row, now) == Some(d) <==> from <= now < upTo
  }

  /** [from, upTo) is the day that begins `d` days before `when`. */
  predicate IsDayBefore(when: int, d: nat, from: int, upTo: int) {
    from == when - d * DAY && upTo == from + DAY
  }

  lemma DueAtThreshold(row: Row, d: nat, from: int, upTo: int)
    requires Remindable(row) && IsThreshold(d) && IsDayBefore(row.expiresAt.value, d, from, upTo)
    ensures DueWithin(row, d, from, upTo) && upTo <= row.expiresAt.value
  {
    var when := row.expiresAt.value;
    forall now
      ensures ReminderOf(row, now) == Some(d) <==> from <= now < upTo
    {
      DaysUntilIs(when, now, d);
      WindowIff(when, now);
    }
  }

  lemma OneMoreReminder(row: Row, times: seq<int>, d: nat, from: int, upTo: int)
    requires times != [] && DueWithin(row, d, from, upTo)
    requires Count(Reminders(Expire(row, times[0]), times[1..]), d) == CountWithin(times[1..], from, upTo)
    ensures Count(Reminders(row, times), d) == CountWithin(times, from, upTo)
  {
    var now := ReminderOf(row, times[0]);
    CountOfParts(Reminders(row, times), AsList(now), Reminders(Expire(row, times[0]), times[1..]), d);
    assert Count(AsList(now), d) == if now == Some(d) then 1 else 0;
  }

  lemma {:induction false} FiresAsOften(row: Row, times: seq<int>, d: nat, from: int, upTo: int)
    requires Remindable(row) && Ascends(times) && DueWithin(row, d, from, upTo) && upTo <= row.expiresAt.value
    ensures Count(Reminders(row, times), d) == CountWithin(times, from, upTo)
    decreases |times|
  {
    if times != [] {
      if row.expiresAt.value < times[0] {
        NoMoreReminders(Expire(row, times[0]), times[1..]);
        NoneWithin(times[1..], from, upTo);
      } else {
        FiresAsOften(row, times[1..], d, from, upTo);
      }
      OneMoreReminder(row, times, d, from, upTo);
    }
  }

  /**
   * Whenever the sweeps come: a threshold of d days is reminded of exactly as often as a sweep falls into the day that
   * begins d days before expiry; so once if and only if exactly one does.
   */
  lemma ThresholdFiresAsOften(row: Row, times: seq<int>, d: nat, from: int, upTo: int)
    requires Remindable(row) && IsThreshold(d) && Ascends(times) && IsDayBefore(row.expiresAt.value, d, from, upTo)
    ensures Count(Reminders(row, times), d) == CountWithin(times, from, upTo)
  {
    DueAtThreshold(row, d, from, upTo);
    FiresAsOften(row, times, d, from, upTo);
  }

  // ---------- Rows that are left alone, and rows that expire ----------

  lemma ExpireKeepsTheRest(row: Row, now: int)
    ensures Expire(row, now).counts == row.counts && Expire(row, now).reachable == row.reachable
    ensures Expire(row, now).expiresAt == row.expiresAt
  {
  }

  /** Reminders name 7, 3 or 1 days, and only active rows that count, with a reachable recipient, get any. */
  lemma {:induction false} OnlyRemindable(row: Row, times: seq<int>)
    ensures forall d :: d in Reminders(row, times) ==> d == 7 || d == 3 || d == 1
    ensures row.status.Expired? || !row.counts || !row.reachable || row.expiresAt.None? ==> Reminders(row, times) == []
    decreases |times|
  {
    if times != [] {
      ExpireKeepsTheRest(row, times[0]);
      OnlyRemindable(Expire(row, times[0]), times[1..]);
    }
  }

  /** One row after sweeps at the given times. */
  function After(row: Row, times: seq<int>): Row
    decreases |times|
  {
    if times == [] then row else After(Expire(row, times[0]), times[1..])
  }

  predicate PassedBy(row: Row, times: seq<int>) {
    row.expiresAt.Some? && exists i :: 0 <= i < |times| && row.expiresAt.value < times[i]
  }

  /**
   * Sweeps expire an active row exactly if it counts and some sweep comes after its date; a row of the free tier, one
   * without a date, and one swept at its very date stay. Nothing but the status changes.
   */
  lemma {:induction false} ExpiredIff(row: Row, times: seq<int>)
    ensures After(row, times).status.Expired? <==> row.status.Expired? || (row.counts && PassedBy(row, times))
    ensures After(row, times) == row.(status := After(row, times).status)
    decreases |times|
  {
    if times != [] {
      ExpireKeepsTheRest(row, times[0]);
      ExpiredIff(Expire(row, times[0]), times[1..]);
      PassedByFirst(row, times);
    }
  }

  lemma PassedByFirst(row: Row, times: seq<int>)
    requires times != []
    ensures PassedBy(row, times) <==>
            row.expiresAt.Some? && (row.expiresAt.value < times[0] || PassedBy(row, times[1..]))
  {
    if row.expiresAt.Some? {
      if i :| 0 <= i < |times[1..]| && row.expiresAt.value < times[1..][i] {
        assert row.expiresAt.value < times[i + 1];
      }
      if i :| 0 <= i < |times| && row.expiresAt.value < times[i] {
        assert i > 0 ==> times[1..][i - 1] == times[i];
      }
    }
  }

  // ---------- The whole table over many sweeps ----------

  datatype Table = Table(entitlements: seq<Row>, subscriptions: seq<Row>, sent: seq<Notice>)

  function RowsOf(t: Table, kind: Kind): seq<Row> {
    if kind.Entitlement? then t.entitlements else t.subscriptions
  }

  /** What `Billing.Sweep` does to the table. */
  function SweepOnce(t: Table, now: int): Table {
    Table(ExpireAll(t.entitlements, now), ExpireAll(t.subscriptions, now),
          t.sent + (AllNotices(Entitlement, t.entitlements, now) + AllNotices(Subscription, t.subscriptions, now)))
  }

  function SweepAll(t: Table, times: seq<int>): Table
    decreases |times|
  {
    if times == [] then t else SweepAll(SweepOnce(t, times[0]), times[1..])
  }

  /** The reminders sent for one row, in order. */
  function SentFor(sent: seq<Notice>, kind: Kind, row: nat): seq<nat> {
    SentUpTo(sent, |sent|, kind, row)
  }

  function SentUpTo(sent: seq<Notice>, upTo: nat, kind: Kind, row: nat): seq<nat>
    requires upTo <= |sent|
  {
    if upTo == 0 then [] else SentUpTo(sent, upTo - 1, kind, row) + DaysIf(sent[upTo - 1], kind, row)
  }

  function DaysIf(n: Notice, kind: Kind, row: nat): seq<nat> {
    if n.kind == kind && n.row == row then [n.daysLeft] else []
  }

  lemma {:induction false} SentInPrefix(a: seq<Notice>, b: seq<Notice>, upTo: nat, kind: Kind, row: nat)
    requires upTo <= |a|
    ensures SentUpTo(a + b, upTo, kind, row) == SentUpTo(a, upTo, kind, row)
    decreases upTo
  {
    if upTo > 0 {
      SentInPrefix(a, b, upTo - 1, kind, row);
    }
  }

  lemma {:induction false} SentInRest(a: seq<Notice>, b: seq<Notice>, upTo: nat, kind: Kind, row: nat)
    requires upTo <= |b|
    ensures SentUpTo(a + b, |a| + upTo, kind, row) == SentFor(a, kind, row) + SentUpTo(b, upTo, kind, row)
    decreases upTo
  {
    if upTo == 0 {
      SentInPrefix(a, b, |a|, kind, row);
    } else {
      SentInRest(a, b, upTo - 1, kind, row);
    }
  }

  lemma SentForJoins(a: seq<Notice>, b: seq<Notice>, kind: Kind, row: nat)
    ensures SentFor(a + b, kind, row) == SentFor(a, kind, row) + SentFor(b, kind, row)
  {
    SentInRest(a, b, |b|, kind, row);
  }

  lemma SentForSnoc(s: seq<Notice>, n: Notice, kind: Kind, row: nat)
    ensures SentFor(s + [n], kind, row) == SentFor(s, kind, row) + DaysIf(n, kind, row)
  {
    SentInPrefix(s, [n], |s|, kind, row);
  }

  function AsList(days: Option<nat>): seq<nat> {
    if days.Some? then [days.value] else []
  }

  /** What one round sends for row `row` while it goes through the first `upTo` rows. */
  function RoundFor(kind: Kind, due: seq<Option<nat>>, upTo: nat, k: Kind, row: nat): seq<nat>
    requires upTo <= |due|
  {
    SentFor(NoticesOf(kind, due, upTo), k, row)
  }

  lemma OtherRowsStep(kind: Kind, due: seq<Option<nat>>, upTo: nat, k: Kind, row: nat)
    requires 0 < upTo <= |due| && (k != kind || row != upTo - 1)
    ensures RoundFor(kind, due, upTo, k, row) == RoundFor(kind, due, upTo - 1, k, row)
  {
    if due[upTo - 1].Some? {
      SentForSnoc(NoticesOf(kind, due, upTo - 1), Notice(kind, upTo - 1, due[upTo - 1].value), k, row);
    } else {
      assert NoticesOf(kind, due, upTo) == NoticesOf(kind, due, upTo - 1);
    }
  }

  lemma {:induction false} NoneForOthers(kind: Kind, due: seq<Option<nat>>, upTo: nat, k: Kind, row: nat)
    requires upTo <= |due| && (k != kind || upTo <= row)
    ensures RoundFor(kind, due, upTo, k, row) == []
    decreases upTo
  {
    if upTo > 0 {
      NoneForOthers(kind, due, upTo - 1, k, row);
      OtherRowsStep(kind, due, upTo, k, row);
    }
  }

  lemma OwnRowStep(kind: Kind, due: seq<Option<nat>>, upTo: nat)
    requires 0 < upTo <= |due|
    ensures RoundFor(kind, due, upTo, kind, upTo - 1) == AsList(due[upTo - 1])
  {
    var before := NoticesOf(kind, due, upTo - 1);
    NoneForOthers(kind, due, upTo - 1, kind, upTo - 1);
    if due[upTo - 1].Some? {
      OwnNotice(before, Notice(kind, upTo - 1, due[upTo - 1].value), kind, upTo - 1);
      assert NoticesOf(kind, due, upTo) == before + [Notice(kind, upTo - 1, due[upTo - 1].value)];
    } else {
      assert NoticesOf(kind, due, upTo) == before;
    }
  }

  lemma OwnNotice(before: seq<Notice>, n: Notice, kind: Kind, row: nat)
    requires SentFor(before, kind, row) == [] && n.kind == kind && n.row == row
    ensures SentFor(before + [n], kind, row) == [n.daysLeft]
  {
    SentForSnoc(before, n, kind, row);
  }

  /** In one round a row gets its own reminder, if one is due, and never another row's. */
  lemma {:induction false} OneNoticePerRow(kind: Kind, due: seq<Option<nat>>, upTo: nat, row: nat)
    requires row < upTo <= |due|
    ensures RoundFor(kind, due, upTo, kind, row) == AsList(due[row])
    decreases upTo
  {
    if row == upTo - 1 {
      OwnRowStep(kind, due, upTo);
    } else {
      OtherRowsStep(kind, due, upTo, kind, row);
      OneNoticePerRow(kind, due, upTo - 1, row);
    }
  }

  lemma SweepNotifiesRow(t: Table, now: int, kind: Kind, row: nat)
    requires row < |RowsOf(t, kind)|
    ensures SentFor(SweepOnce(t, now).sent, kind, row)
            == SentFor(t.sent, kind, row) + AsList(ReminderOf(RowsOf(t, kind)[row], now))
  {
    NoticesForRow(Entitlement, t.entitlements, now, kind, row);
    NoticesForRow(Subscription, t.subscriptions, now, kind, row);
    SentForThree(t.sent, AllNotices(Entitlement, t.entitlements, now),
                 AllNotices(Subscription, t.subscriptions, now), kind, row);
  }

  lemma SentForThree(a: seq<Notice>, b: seq<Notice>, c: seq<Notice>, kind: Kind, row: nat)
    ensures SentFor(a + (b + c), kind, row) == SentFor(a, kind, row) + SentFor(b, kind, row) + SentFor(c, kind, row)
  {
    SentForJoins(a, b + c, kind, row);
    SentForJoins(b, c, kind, row);
  }

  lemma NoticesForRow(kind: Kind, rows: seq<Row>, now: int, k: Kind, row: nat)
    ensures SentFor(AllNotices(kind, rows, now), k, row) == if k == kind && row < |rows|
            then AsList(ReminderOf(rows[row], now)) else []
  {
    if k == kind && row < |rows| {
      OneNoticePerRow(kind, RemindersOf(rows, now), |rows|, row);
    } else {
      NoneForOthers(kind, RemindersOf(rows, now), |rows|, k, row);
    }
  }

  /** No row's reminders depend on another row. */
  lemma {:induction false} RowsAreIndependent(t: Table, times: seq<int>, kind: Kind, row: nat)
    requires row < |RowsOf(t, kind)|
    ensures SentFor(SweepAll(t, times).sent, kind, row)
            == SentFor(t.sent, kind, row) + Reminders(RowsOf(t, kind)[row], times)
    decreases |times|
  {
    if times != [] {
      SweepNotifiesRow(t, times[0], kind, row);
      RowsAreIndependent(SweepOnce(t, times[0]), times[1..], kind, row);
    }
  }

  /** The same in the whole table: a row gets each threshold's reminder as often as a sweep falls into its day. */
  lemma RemindedAsOftenAsSwept(t: Table, times: seq<int>, kind: Kind, row: nat, d: nat, from: int, upTo: int)
    requires row < |RowsOf(t, kind)| && Remindable(RowsOf(t, kind)[row]) && IsThreshold(d) && Ascends(times)
    requires IsDayBefore(RowsOf(t, kind)[row].expiresAt.value, d, from, upTo)
    ensures Count(SentFor(SweepAll(t, times).sent, kind, row), d)
            == Count(SentFor(t.sent, kind, row), d) + CountWithin(times, from, upTo)
  {
    RowsAreIndependent(t, times, kind, row);
    ThresholdFiresAsOften(RowsOf(t, kind)[row], times, d, from, upTo);
    CountOfParts(SentFor(SweepAll(t, times).sent, kind, row), SentFor(t.sent, kind, row),
                 Reminders(RowsOf(t, kind)[row], times), d);
  }

  /**
   * Daily sweeps, nothing sent before: every active row first seen at least 7 days ahead gets its 7, 3 and 1 day
   * reminder, each once.
   */
  lemma DailySweepsRemindOnce(t: Table, start: int, n: nat, kind: Kind, row: nat)
    requires row < |RowsOf(t, kind)| && SentFor(t.sent, kind, row) == []
    requires var r := RowsOf(t, kind)[row];
             && r.status.Active? && r.counts && r.reachable && r.expiresAt.Some?
             && 7 <= DaysUntil(r.expiresAt.value, start) <= n
    ensures SentFor(SweepAll(t, Daily(start, n)).sent, kind, row) == [7, 3, 1]
  {
    RowsAreIndependent(t, Daily(start, n), kind, row);
    EachThresholdOnce(RowsOf(t, kind)[row], start, n);
  }

  lemma {:induction false} TableAfter(t: Table, times: seq<int>, kind: Kind, row: nat)
    requires row < |RowsOf(t, kind)|
    ensures row < |RowsOf(SweepAll(t, times), kind)|
    ensures RowsOf(SweepAll(t, times), kind)[row] == After(RowsOf(t, kind)[row], times)
    decreases |times|
  {
    if times != [] {
      TableAfter(SweepOnce(t, times[0]), times[1..], kind, row);
    }
  }

  /**
   * In the whole table, after sweeps at any times: a row has expired exactly if it had, or it counts and some sweep
   * came after its date; an inactive, uncounted or unreachable row got no notice, and every notice names 7, 3 or 1.
   */
  lemma EveryRowAfterSweeps(t: Table, times: seq<int>, kind: Kind, row: nat)
    requires row < |RowsOf(t, kind)|
    ensures var was, sweeps := RowsOf(t, kind)[row], SweepAll(t, times);
            && row < |RowsOf(sweeps, kind)|
            && RowsOf(sweeps, kind)[row] == was.(status := RowsOf(sweeps, kind)[row].status)
            && (RowsOf(sweeps, kind)[row].status.Expired? <==>
                was.status.Expired? || (was.counts && PassedBy(was, times)))
            && (!Remindable(was) ==> SentFor(sweeps.sent, kind, row) == SentFor(t.sent, kind, row))
    ensures SentFor(t.sent, kind, row) == [] ==>
              forall d :: d in SentFor(SweepAll(t, times).sent, kind, row) ==> d == 7 || d == 3 || d == 1
  {
    var was := RowsOf(t, kind)[row];
    TableAfter(t, times, kind, row);
    ExpiredIff(was, times);
    RowsAreIndependent(t, times, kind, row);
    OnlyRemindable(was, times);
  }
}
