/**
 * The reminder scheduler: the reminders stored for a new event, and the
 * periodic round that sends the due ones and marks them sent.
 *
 * The notification table is a sequence of rows whose positions are their ids;
 * the query for due reminders, the date parser and message delivery are
 * passed in.
 */
module Scheduler {
  import opened Wrappers
  import opened Time

  /** How far ahead of now a round looks for due reminders, in minutes. */
  const CheckWindowMinutes: int := 2

  /** A row of the notification table: the event it is about, when to send it, and whether it was sent. */
  datatype Notification = Notification(eventId: int, time: DateTime, sent: bool)

  /** The clock: the current instant in UTC seconds and the UTC offset of the machine's local time. */
  datatype Clock = Clock(utc: int, localOffset: int)

  /** `datetime.now(tz)`: aware in `tz` when it is given, the machine's local time otherwise. */
  function Now(clock: Clock, tz: Option<int>): (r: DateTime)
    ensures r.offset == tz
    ensures tz.Some? ==> Instant(r) == clock.utc
    ensures tz.None? ==> r.wall == clock.utc + clock.localOffset
  {
    match tz
    case Some(offset) => DateTime(clock.utc + offset, tz)
    case None => DateTime(clock.utc + clock.localOffset, None)
  }

  /** `start - timedelta(minutes=minutes)`. */
  function ReminderTime(start: DateTime, minutes: int): (t: DateTime)
    ensures t.offset == start.offset && start.wall - t.wall == minutes * MinuteSeconds
  {
    Plus(start, -minutes * MinuteSeconds)
  }

  /** `t > datetime.now(t.tzinfo)`: both sides have the same zone, so their wall clocks are compared. */
  predicate InFuture(t: DateTime, clock: Clock): (b: bool)
    ensures Aware(t) ==> (b <==> Instant(t) > clock.utc)
  {
    t.wall > Now(clock, t.offset).wall
  }

  /** The rows `create_notifications` adds, in the order of the offsets: one per offset whose time is still ahead. */
  function Reminders(eventId: int, start: DateTime, times: seq<int>, clock: Clock): (rows: seq<Notification>)
    ensures |rows| <= |times|
    ensures forall k :: 0 <= k < |rows| ==> rows[k].eventId == eventId && !rows[k].sent && InFuture(rows[k].time, clock)
  {
    if times == [] then []
    else
      var t := ReminderTime(start, times[|times| - 1]);
      Reminders(eventId, start, times[..|times| - 1], clock) + (if InFuture(t, clock) then [Notification(eventId, t, false)] else [])
  }

  /** One offset gives its reminder when that time is still ahead, and nothing otherwise. */
  lemma RemindersSingle(eventId: int, start: DateTime, m: int, clock: Clock)
    ensures Reminders(eventId, start, [m], clock)
         == if InFuture(ReminderTime(start, m), clock) then [Notification(eventId, ReminderTime(start, m), false)] else []
  {
    assert [m][..0] == [];
  }

  /**
   * The reminders of two runs of offsets are those of the first followed by
   * those of the second: rows come in the order of the offsets, one for every
   * occurrence of an offset, repeated offsets included.
   */
  lemma {:induction false} RemindersAppend(eventId: int, start: DateTime, a: seq<int>, b: seq<int>, clock: Clock)
    ensures Reminders(eventId, start, a + b, clock) == Reminders(eventId, start, a, clock) + Reminders(eventId, start, b, clock)
    decreases |b|
  {
    if b == [] {
      assert a + b == a;
    } else {
      var init := b[..|b| - 1];
      RemindersAppend(eventId, start, a, init, clock);
      assert (a + b)[..|a + b| - 1] == a + init;
      assert (a + b)[|a + b| - 1] == b[|b| - 1];
    }
  }

  /** The table the bot's store keeps; a row's id is its position. */
  class NotificationStore {
    var rows: seq<Notification>

    constructor()
      ensures rows == []
    {
      rows := [];
    }

    /** `create_notification`: a new unsent row. */
    method Add(eventId: int, time: DateTime)
      modifies this
      ensures rows == old(rows) + [Notification(eventId, time, false)]
    {
      rows := rows + [Notification(eventId, time, false)];
    }

    /** `mark_notification_sent`: an unknown id changes nothing. */
    method MarkSent(id: nat)
      modifies this
      ensures rows == MarkedSent(old(rows), id)
    {
      if id < |rows| {
        rows := rows[id := rows[id].(sent := true)];
      }
    }
  }

  /** The table after row `id` is marked sent. */
  function MarkedSent(rows: seq<Notification>, id: nat): (r: seq<Notification>)
    ensures |r| == |rows|
    ensures forall k :: 0 <= k < |rows| ==> r[k].eventId == rows[k].eventId && r[k].time == rows[k].time
    ensures forall k :: 0 <= k < |rows| ==> (r[k].sent <==> rows[k].sent || k == id)
  {
    if id < |rows| then rows[id := rows[id].(sent := true)] else rows
  }

  /** The table after every id of `ids` is marked sent, in order. */
  function MarkedAll(rows: seq<Notification>, ids: seq<nat>): (r: seq<Notification>)
    ensures |r| == |rows|
    ensures forall k :: 0 <= k < |rows| ==> r[k].eventId == rows[k].eventId && r[k].time == rows[k].time
    ensures forall k :: 0 <= k < |rows| && rows[k].sent ==> r[k].sent
    decreases |ids|
  {
    if ids == [] then rows else MarkedAll(MarkedSent(rows, ids[0]), ids[1..])
  }

  /** `create_notifications`: a row for every offset whose reminder time has not passed. */
  method CreateNotifications(store: NotificationStore, eventId: int, start: DateTime, times: seq<int>, clock: Clock)
    modifies store
    ensures store.rows == old(store.rows) + Reminders(eventId, start, times, clock)
  {
    var i := 0;
    while i < |times|
      invariant 0 <= i <= |times|
      invariant store.rows == old(store.rows) + Reminders(eventId, start, times[..i], clock)
    {
      var time := ReminderTime(start, times[i]);
      assert times[..i + 1][..i] == times[..i];
      if InFuture(time, clock) {
        store.Add(eventId, time);
      }
      i := i + 1;
    }
    assert times[..i] == times;
  }

  /** A reminder is stored for an offset exactly when its time is still ahead; nothing else is stored. */
  lemma {:induction false} RemindersExact(eventId: int, start: DateTime, times: seq<int>, clock: Clock, m: int)
    requires m in times
    ensures Notification(eventId, ReminderTime(start, m), false) in Reminders(eventId, start, times, clock)
            <==> InFuture(ReminderTime(start, m), clock)
  {
    var init := times[..|times| - 1];
    if m in init {
      RemindersExact(eventId, start, init, clock, m);
    }
    RemindersTimes(eventId, start, init, clock);
  }

  /** Every stored reminder lies an offset of `times` before the start. */
  lemma {:induction false} RemindersTimes(eventId: int, start: DateTime, times: seq<int>, clock: Clock)
    ensures forall r :: r in Reminders(eventId, start, times, clock) ==> exists m :: m in times && r.time == ReminderTime(start, m)
  {
    if times != [] {
      var init := times[..|times| - 1];
      RemindersTimes(eventId, start, init, clock);
      forall r | r in Reminders(eventId, start, times, clock)
        ensures exists m :: m in times && r.time == ReminderTime(start, m)
      {
        if r in Reminders(eventId, start, init, clock) {
          var m :| m in init && r.time == ReminderTime(start, m);
          assert m in times;
        } else {
          assert r.time == ReminderTime(start, times[|times| - 1]);
        }
      }
    }
  }

  /** An event whose start has already passed gets no reminder for any non-negative offset. */
  lemma {:induction false} RemindersNoneAfterStart(eventId: int, start: DateTime, times: seq<int>, clock: Clock)
    requires !InFuture(start, clock)
    requires forall k :: 0 <= k < |times| ==> times[k] >= 0
    ensures Reminders(eventId, start, times, clock) == []
  {
    if times != [] {
      RemindersNoneAfterStart(eventId, start, times[..|times| - 1], clock);
    }
  }

  /** With the default offsets, an event 90 minutes ahead gets both reminders and one 30 minutes ahead only the 15-minute one. */
  lemma RemindersDefaultOffsets(eventId: int, clock: Clock, zone: int)
    ensures var start := Plus(Now(clock, Some(zone)), 90 * MinuteSeconds);
      Reminders(eventId, start, [15, 60], clock)
      == [Notification(eventId, ReminderTime(start, 15), false), Notification(eventId, ReminderTime(start, 60), false)]
    ensures var start := Plus(Now(clock, Some(zone)), 30 * MinuteSeconds);
      Reminders(eventId, start, [15, 60], clock) == [Notification(eventId, ReminderTime(start, 15), false)]
  {
    var times: seq<int> := [15, 60];
    assert times[..1] == [15];
    assert times[..1][..0] == [];
  }

  /** The value of the start column of a due row: a datetime, or text to be parsed. */
  datatype StartValue = At(dt: DateTime) | Written(text: string)

  /** A due reminder as the query returns it: its id, the event's summary and start, and the chat to send it to. */
  datatype Due = Due(id: nat, summary: string, chatId: int, start: StartValue)

  /** The reminder message: to whom, about what, and the minutes left. */
  datatype Reminder = Reminder(chatId: int, summary: string, eventTime: DateTime, minutesUntil: int)

  /** The bounds of the query for due reminders: now plus the window, and now. */
  function QueryBounds(now: DateTime): (bounds: (DateTime, DateTime))
    ensures bounds.1 == now && bounds.0.offset == now.offset
    ensures bounds.0.wall - now.wall == CheckWindowMinutes * MinuteSeconds
  {
    (Plus(now, CheckWindowMinutes * MinuteSeconds), now)
  }

  /** The start of the event, read in the configured zone when it is naive; None when the text does not parse. */
  function EventTime(start: StartValue, parse: string -> Option<DateTime>, zone: int): (t: Option<DateTime>)
    ensures t.Some? ==> Aware(t.value)
    ensures start.At? ==> t == Some(if Aware(start.dt) then start.dt else Localize(start.dt, zone))
    ensures start.Written? ==> (t.None? <==> parse(start.text).None?)
  {
    var raw := match start
      case At(dt) => Some(dt)
      case Written(text) => parse(text);
    match raw
    case None => None
    case Some(dt) => if Aware(dt) then Some(dt) else Some(Localize(dt, zone))
  }

  /** Python's `int(n / d)` for a positive divisor: the quotient rounded towards zero. */
  function TruncatedDiv(n: int, d: int): (q: int)
    requires d > 0
    ensures n >= 0 ==> q * d <= n < (q + 1) * d
    ensures n < 0 ==> (q - 1) * d < n <= q * d
  {
    if n >= 0 then n / d else -((-n) / d)
  }

  /** `max(0, int(seconds / 60))` for the time between now and the event. */
  function MinutesUntil(eventTime: DateTime, now: DateTime): (m: int)
    requires Aware(eventTime) && Aware(now)
    ensures m >= 0
    ensures Instant(eventTime) >= Instant(now) ==> m * MinuteSeconds <= Instant(eventTime) - Instant(now) < (m + 1) * MinuteSeconds
    ensures Instant(eventTime) - Instant(now) < MinuteSeconds ==> m == 0
  {
    var q := TruncatedDiv(Instant(eventTime) - Instant(now), MinuteSeconds);
    if q > 0 then q else 0
  }

  /** The reminder sent for a due row whose event starts at `eventTime`. */
  function ReminderFor(due: Due, eventTime: DateTime, now: DateTime): (r: Reminder)
    requires Aware(eventTime) && Aware(now)
    ensures r.minutesUntil >= 0
    ensures Instant(eventTime) - Instant(now) < MinuteSeconds ==> r.minutesUntil == 0
  {
    Reminder(due.chatId, due.summary, eventTime, MinutesUntil(eventTime, now))
  }

  /**
   * The ids a round marks sent, in order: those whose reminder was
   * delivered. A start that does not parse ends the round.
   */
  function Delivered(due: seq<Due>, parse: string -> Option<DateTime>, zone: int, now: DateTime,
                     send: Reminder -> bool): (ids: seq<nat>)
    requires Aware(now)
    ensures |ids| <= |due|
  {
    if due == [] then []
    else match EventTime(due[0].start, parse, zone)
      case None => []
      case Some(t) =>
        (if send(ReminderFor(due[0], t, now)) then [due[0].id] else []) + Delivered(due[1..], parse, zone, now, send)
  }

  /**
   * `check_and_send_notifications`: query the reminders due in the next two
   * minutes, send each and mark it sent once delivered.
   */
  method CheckAndSend(store: NotificationStore, clock: Clock, zone: int,
                      query: (DateTime, DateTime) -> seq<Due>,
                      parse: string -> Option<DateTime>, send: Reminder -> bool)
    modifies store
    ensures var now := Now(clock, Some(zone));
      var due := query(QueryBounds(now).0, QueryBounds(now).1);
      store.rows == MarkedAll(old(store.rows), Delivered(due, parse, zone, now, send))
  {
    var now := Now(clock, Some(zone));
    var bounds := QueryBounds(now);
    var due := query(bounds.0, bounds.1);
    var i := 0;
    while i < |due|
      invariant 0 <= i <= |due|
      invariant MarkedAll(old(store.rows), Delivered(due, parse, zone, now, send))
                == MarkedAll(store.rows, Delivered(due[i..], parse, zone, now, send))
    {
      var eventTime := EventTime(due[i].start, parse, zone);
      if eventTime.None? {
        return;
      }
      assert due[i..][1..] == due[i + 1..];
      var rest := Delivered(due[i + 1..], parse, zone, now, send);
      if send(ReminderFor(due[i], eventTime.value, now)) {
        assert ([due[i].id] + rest)[1..] == rest;
        store.MarkSent(due[i].id);
      } else {
        assert [] + rest == rest;
      }
      i := i + 1;
    }
  }

  /** A row is marked only after its reminder was delivered. */
  lemma {:induction false} DeliveredWereSent(due: seq<Due>, parse: string -> Option<DateTime>, zone: int, now: DateTime,
                                             send: Reminder -> bool, id: nat)
    requires Aware(now)
    requires id in Delivered(due, parse, zone, now, send)
    ensures exists k :: 0 <= k < |due| && due[k].id == id && EventTime(due[k].start, parse, zone).Some?
                        && send(ReminderFor(due[k], EventTime(due[k].start, parse, zone).value, now))
  {
    var t := EventTime(due[0].start, parse, zone);
    if send(ReminderFor(due[0], t.value, now)) && id == due[0].id {
      assert 0 < |due|;
    } else {
      DeliveredWereSent(due[1..], parse, zone, now, send, id);
      var k :| 0 <= k < |due[1..]| && due[1..][k].id == id && EventTime(due[1..][k].start, parse, zone).Some?
               && send(ReminderFor(due[1..][k], EventTime(due[1..][k].start, parse, zone).value, now));
      assert due[k + 1] == due[1..][k];
    }
  }

  /** A failed delivery does not stop the round: with every start readable, each delivered reminder is marked. */
  lemma {:induction false} DeliveryFailureContinues(due: seq<Due>, parse: string -> Option<DateTime>, zone: int,
                                                    now: DateTime, send: Reminder -> bool, k: nat)
    requires Aware(now)
    requires forall j :: 0 <= j < |due| ==> EventTime(due[j].start, parse, zone).Some?
    requires k < |due| && send(ReminderFor(due[k], EventTime(due[k].start, parse, zone).value, now))
    ensures due[k].id in Delivered(due, parse, zone, now, send)
  {
    if k > 0 {
      assert due[1..][k - 1] == due[k];
      DeliveryFailureContinues(due[1..], parse, zone, now, send, k - 1);
    }
  }

  /** A start that does not parse ends the round: nothing after it is sent. */
  lemma {:induction false} UnreadableStartStops(due: seq<Due>, parse: string -> Option<DateTime>, zone: int,
                                                now: DateTime, send: Reminder -> bool, k: nat)
    requires Aware(now)
    requires k < |due| && EventTime(due[k].start, parse, zone).None?
    ensures Delivered(due, parse, zone, now, send) == Delivered(due[..k], parse, zone, now, send)
  {
    if k == 0 {
      assert due[..0] == [];
    } else {
      assert due[..k][0] == due[0];
      assert due[..k][1..] == due[1..][..k - 1];
      UnreadableStartStops(due[1..], parse, zone, now, send, k - 1);
    }
  }

  /** After a round a row is sent exactly when it was sent before or its id was delivered. */
  lemma {:induction false} MarkedAllSent(rows: seq<Notification>, ids: seq<nat>, k: nat)
    requires k < |rows|
    ensures |MarkedAll(rows, ids)| == |rows|
    ensures MarkedAll(rows, ids)[k].sent <==> rows[k].sent || k in ids
    ensures MarkedAll(rows, ids)[k].time == rows[k].time
    decreases |ids|
  {
    if ids != [] {
      MarkedAllSent(MarkedSent(rows, ids[0]), ids[1..], k);
      assert ids == [ids[0]] + ids[1..];
    }
  }
}
