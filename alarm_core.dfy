/** The one-shot alarm state machine that all four alarm-clock variants share:
    the closure state (`alarmSet`, `alarmHour`, `alarmMinute`, `intervalId`),
    the browser's table of live intervals, the status line and a log of the
    notification and audio requests. Each function here is the specification
    of one step; the classes of the variant modules implement the steps on
    fields and are proved equal to these functions. */
module AlarmCore {
  import opened JsValues

  /** One reading of `new Date()`: hours, minutes, seconds. */
  datatype Reading = Reading(hour: int, minute: int, second: int)

  /** A request handed to a collaborator the model cannot see. */
  datatype Event =
    | Notification(title: string, body: string)   // showDesktopNotification(title, body)
    | AudioPlay(url: string)                      // new Audio(url).play()

  datatype Option<T> = None | Some(value: T)

  /** The browser's intervals: the handles still live and the next handle
      `setInterval` will return. Handles start at 1, so every handle is truthy. */
  datatype Timers = Timers(live: set<nat>, next: nat)

  /** Every live handle was handed out before: it lies between 1 and the
      next handle. */
  predicate WellIssued(t: Timers)
  {
    1 <= t.next && forall h :: h in t.live ==> 1 <= h < t.next
  }

  /** `setInterval(updateCurrentTime, 1000)`: one more live handle, and the
      handle returned was not live before. */
  function StartInterval(t: Timers): (r: Timers)
    ensures t.next in r.live && t.live <= r.live && r.live - t.live <= {t.next}
    ensures r.next > t.next
    ensures WellIssued(t) ==> WellIssued(r) && t.next !in t.live && |r.live| == |t.live| + 1
  {
    Timers(t.live + {t.next}, t.next + 1)
  }

  /** `clearInterval(id)`: the handle stops being live and no other does;
      `undefined` and a handle already cleared are a no-op. */
  function ClearInterval(t: Timers, id: Option<nat>): (r: Timers)
    ensures r.next == t.next && r.live <= t.live
    ensures id.Some? ==> id.value !in r.live && t.live - r.live <= {id.value}
    ensures id.None? || id.value !in t.live ==> r.live == t.live
    ensures WellIssued(t) ==> WellIssued(r)
  {
    if id.Some? then Timers(t.live - {id.value}, t.next) else t
  }

  /** `if (intervalId)`. */
  predicate Truthy(id: Option<nat>)
  {
    id.Some? && id.value != 0
  }

  const AlarmTitle := "\U{1F514} Despertador!"
  const AlarmBodyPrefix := "A hora que você definiu chegou: "
  const AudioUrl := "https://www.soundjay.com/buttons/beep-07.mp3"
  const ConfirmTitle := "\U{23F0} Alarme Definido!"
  const ConfirmBodyPrefix := "Seu alarme foi configurado para: "
  const ArmedStatusPrefix := "Alarme definido para "
  const FiredStatus := "Alarme disparado!"
  const CancelledStatus := "Alarme cancelado."

  function ArmedStatus(hour: JsValue, minute: JsValue): string
  {
    ArmedStatusPrefix + FormatHHMM(hour, minute)
  }

  /** The confirmation `setAlarm` sends in the carousel variants. */
  function Confirmation(hour: JsValue, minute: JsValue): Event
  {
    Notification(ConfirmTitle, ConfirmBodyPrefix + FormatHHMM(hour, minute))
  }

  /** The widget's state between two events. */
  datatype State = State(
    alarmSet: bool,
    alarmHour: JsValue,
    alarmMinute: JsValue,
    intervalId: Option<nat>,
    timers: Timers,
    status: string,
    events: seq<Event>)

  /** The state when the page has loaded: nothing armed, no interval. */
  function Initial(): (r: State)
    ensures !r.alarmSet && r.events == [] && Inv(r) && !Polling(r)
  {
    State(false, Undefined, Undefined, None, Timers({}, 1), "", [])
  }

  /** Polling is active while some interval is live. */
  predicate Polling(st: State)
  {
    st.timers.live != {}
  }

  /** The invariant the three operations keep: every live handle and the
      stored one were handed out by `setInterval`; the only interval that can
      be live is the one `intervalId` holds, and it is live exactly while the
      alarm is armed. */
  predicate Inv(st: State)
  {
    && WellIssued(st.timers)
    && (st.intervalId.Some? ==> 1 <= st.intervalId.value < st.timers.next)
    && (st.alarmSet ==> st.intervalId.Some? && st.timers.live == {st.intervalId.value})
    && (!st.alarmSet ==> st.timers.live == {})
  }

  /** The tick run on page load changes nothing: nothing is armed yet. */
  lemma LoadTickIdle(now: Reading, notifier: bool)
    ensures TickStep(Initial(), now, notifier) == Initial()
  {
  }

  /** Under the invariant at most one interval is ever live, and polling is
      active exactly while the alarm is armed. */
  lemma AtMostOneInterval(st: State)
    requires Inv(st)
    ensures |st.timers.live| <= 1
    ensures Polling(st) <==> st.alarmSet
  {
  }

  /** The number of alarm sounds requested: each firing requests exactly one. */
  function Rings(events: seq<Event>): nat
  {
    if events == [] then 0
    else Rings(events[..|events| - 1]) + (if events[|events| - 1].AudioPlay? then 1 else 0)
  }

  lemma {:induction false} RingsAppend(a: seq<Event>, b: seq<Event>)
    ensures Rings(a + b) == Rings(a) + Rings(b)
  {
    if b != [] {
      assert (a + b)[..|a + b| - 1] == a + b[..|b| - 1];
      assert (a + b)[|a + b| - 1] == b[|b| - 1];
      RingsAppend(a, b[..|b| - 1]);
    } else {
      assert a + b == a;
    }
  }

  /** What one firing asks of the collaborators: one alarm notification (when
      the notification function is available) and one sound. */
  function AlarmEvents(hour: JsValue, minute: JsValue, notifier: bool): (es: seq<Event>)
    ensures Rings(es) == 1
    ensures |es| == if notifier then 2 else 1
    ensures notifier ==> es[0] == Notification(AlarmTitle, AlarmBodyPrefix + FormatHHMM(hour, minute))
  {
    var es := (if notifier then [Notification(AlarmTitle, AlarmBodyPrefix + FormatHHMM(hour, minute))] else [])
      + [AudioPlay(AudioUrl)];
    assert Rings([AudioPlay(AudioUrl)]) == 1 by {
      assert [AudioPlay(AudioUrl)][..0] == [];
    }
    RingsAppend(if notifier then [Notification(AlarmTitle, AlarmBodyPrefix + FormatHHMM(hour, minute))] else [],
      [AudioPlay(AudioUrl)]);
    assert notifier ==> Rings([Notification(AlarmTitle, AlarmBodyPrefix + FormatHHMM(hour, minute))]) == 0 by {
      assert [Notification(AlarmTitle, AlarmBodyPrefix + FormatHHMM(hour, minute))][..0] == [];
    }
    es
  }

  /** The tick's guard without the `alarmSet` conjunct: the reading is the
      target's hour and minute at second 0. */
  predicate Matches(hour: JsValue, minute: JsValue, now: Reading)
  {
    StrictEquals(now.hour, hour) && StrictEquals(now.minute, minute) && now.second == 0
  }

  /** The tick's guard. */
  predicate Fires(st: State, now: Reading)
  {
    st.alarmSet && Matches(st.alarmHour, st.alarmMinute, now)
  }

  /** A firing tick: trigger, clear the interval, disarm, report. */
  function Fire(st: State, notifier: bool): (r: State)
    ensures !r.alarmSet && r.status == FiredStatus
    ensures r.alarmHour == st.alarmHour && r.alarmMinute == st.alarmMinute
    ensures r.events == st.events + AlarmEvents(st.alarmHour, st.alarmMinute, notifier)
    ensures Rings(r.events) == Rings(st.events) + 1
    ensures Inv(st) && st.alarmSet ==> Inv(r) && !Polling(r)
  {
    RingsAppend(st.events, AlarmEvents(st.alarmHour, st.alarmMinute, notifier));
    st.(events := st.events + AlarmEvents(st.alarmHour, st.alarmMinute, notifier),
        timers := ClearInterval(st.timers, st.intervalId),
        alarmSet := false,
        status := FiredStatus)
  }

  /** `updateCurrentTime`: fires exactly when the guard holds; any other tick
      leaves the whole state as it was. */
  function TickStep(st: State, now: Reading, notifier: bool): (r: State)
    ensures r.alarmSet <==> st.alarmSet && !Matches(st.alarmHour, st.alarmMinute, now)
    ensures Rings(r.events) == Rings(st.events) + (if Fires(st, now) then 1 else 0)
    ensures !Fires(st, now) ==> r == st
    ensures Fires(st, now) ==> r.status == FiredStatus
    ensures Inv(st) ==> Inv(r)
  {
    if Fires(st, now) then Fire(st, notifier) else st
  }

  /** The click handler's cancel branch. */
  function CancelStep(st: State): (r: State)
    ensures !r.alarmSet && r.status == CancelledStatus
    ensures r.events == st.events && r.alarmHour == st.alarmHour && r.alarmMinute == st.alarmMinute
    ensures Inv(st) ==> Inv(r) && !Polling(r)
  {
    st.(timers := ClearInterval(st.timers, st.intervalId), alarmSet := false, status := CancelledStatus)
  }

  /** The first part of arming: store the target, arm, show it, clear the
      interval `intervalId` holds and start a new one. */
  function Armed(st: State, hour: JsValue, minute: JsValue): (r: State)
    ensures r.alarmSet && r.alarmHour == hour && r.alarmMinute == minute
    ensures r.status == ArmedStatus(hour, minute) && r.events == st.events
    ensures r.intervalId == Some(st.timers.next)
    ensures Inv(st) ==> Inv(r) && r.timers.live == {st.timers.next}
  {
    var armed := st.(alarmHour := hour, alarmMinute := minute, alarmSet := true,
                     status := ArmedStatus(hour, minute));
    var cleared := if Truthy(armed.intervalId)
                   then armed.(timers := ClearInterval(armed.timers, armed.intervalId))
                   else armed;
    cleared.(timers := StartInterval(cleared.timers), intervalId := Some(cleared.timers.next))
  }

  /** What arming leaves behind, stated without the steps that get there:
      the target stored, armed unless the immediate tick already fired, the
      matching status, the requests of that firing and of the confirmation,
      and only the new interval live while armed. */
  predicate ArmedOutcome(st: State, r: State, hour: JsValue, minute: JsValue, now: Reading,
                         notifier: bool, confirm: bool)
  {
    && r.alarmHour == hour && r.alarmMinute == minute
    && (r.alarmSet <==> !Matches(hour, minute, now))
    && r.status == (if r.alarmSet then ArmedStatus(hour, minute) else FiredStatus)
    && r.events == st.events
         + (if r.alarmSet then [] else AlarmEvents(hour, minute, notifier))
         + (if confirm then [Confirmation(hour, minute)] else [])
    && (Inv(st) ==> Inv(r) && r.timers.live == if r.alarmSet then {st.timers.next} else {})
  }

  /** The arming tail of `setAlarm` once the target is known: `Armed`, then
      one tick at once and, where the variant does so, a confirmation
      notification. */
  function ArmStep(st: State, hour: JsValue, minute: JsValue, now: Reading, notifier: bool, confirm: bool): (r: State)
    ensures ArmedOutcome(st, r, hour, minute, now, notifier, confirm)
  {
    var ticked := TickStep(Armed(st, hour, minute), now, notifier);
    if confirm then ticked.(events := ticked.events + [Confirmation(hour, minute)]) else ticked
  }

  /** The ticks an interval delivers, one reading after another. */
  function RunTicks(st: State, readings: seq<Reading>, notifier: bool): (r: State)
    ensures r.alarmSet ==> r == st
    ensures Inv(st) ==> Inv(r)
    decreases |readings|
  {
    if readings == [] then st else RunTicks(TickStep(st, readings[0], notifier), readings[1..], notifier)
  }

  /** While disarmed, no tick changes anything. */
  lemma {:induction false} DisarmedTicks(st: State, readings: seq<Reading>, notifier: bool)
    requires !st.alarmSet
    ensures RunTicks(st, readings, notifier) == st
  {
    if readings != [] {
      DisarmedTicks(st, readings[1..], notifier);
    }
  }

  /** One-shot: whatever readings follow, an armed alarm ends up fired exactly
      when some reading matches its target, and unchanged otherwise; a second
      match never fires again. */
  lemma {:induction false} OneShot(st: State, readings: seq<Reading>, notifier: bool)
    ensures RunTicks(st, readings, notifier) ==
      if st.alarmSet && exists i :: 0 <= i < |readings| && Matches(st.alarmHour, st.alarmMinute, readings[i])
      then Fire(st, notifier) else st
  {
    if readings == [] {
    } else if !st.alarmSet {
      DisarmedTicks(st, readings, notifier);
    } else if Matches(st.alarmHour, st.alarmMinute, readings[0]) {
      DisarmedTicks(Fire(st, notifier), readings[1..], notifier);
    } else {
      OneShot(st, readings[1..], notifier);
      if exists i :: 0 <= i < |readings| && Matches(st.alarmHour, st.alarmMinute, readings[i]) {
        var i :| 0 <= i < |readings| && Matches(st.alarmHour, st.alarmMinute, readings[i]);
        assert readings[1..][i - 1] == readings[i];
      }
    }
  }

  /** Hence the sounds requested over any run of ticks grow by at most one. */
  lemma AtMostOneRing(st: State, readings: seq<Reading>, notifier: bool)
    ensures Rings(RunTicks(st, readings, notifier).events) <= Rings(st.events) + 1
    ensures !st.alarmSet ==> RunTicks(st, readings, notifier).events == st.events
  {
    OneShot(st, readings, notifier);
  }

  /** Cancelling before the match second means no firing ever happens for
      that arm. */
  lemma CancelPreventsFiring(st: State, readings: seq<Reading>, notifier: bool)
    ensures RunTicks(CancelStep(st), readings, notifier) == CancelStep(st)
  {
    DisarmedTicks(CancelStep(st), readings, notifier);
  }

  /** The reading `new Date()` gives `t` seconds after some midnight (local
      wall-clock time, one reading per second as the interval delivers them). */
  function ReadingAt(t: int): (r: Reading)
    ensures 0 <= r.hour < 24 && 0 <= r.minute < 60 && 0 <= r.second < 60
  {
    var d := t % 86400;
    Reading(d / 3600, (d / 60) % 60, d % 60)
  }

  /** The reading one second after `r`: the seconds carry into the minutes,
      the minutes into the hours, and 23:59:59 wraps to 00:00:00. */
  function NextSecond(r: Reading): Reading
  {
    if r.second < 59 then r.(second := r.second + 1)
    else if r.minute < 59 then Reading(r.hour, r.minute + 1, 0)
    else if r.hour < 23 then Reading(r.hour + 1, 0, 0)
    else Reading(0, 0, 0)
  }

  /** The second of the day a reading names. */
  function SecondOfDay(r: Reading): int
  {
    r.hour * 3600 + r.minute * 60 + r.second
  }

  /** A reading in range is what `ReadingAt` gives at its second of the day. */
  lemma ReadingOfSecond(hour: int, minute: int, second: int, t: int)
    requires 0 <= hour < 24 && 0 <= minute < 60 && 0 <= second < 60
    requires t % 86400 == hour * 3600 + minute * 60 + second
    ensures ReadingAt(t) == Reading(hour, minute, second)
  {
    var d := hour * 3600 + minute * 60 + second;
    assert d / 3600 == hour;
    assert d / 60 == hour * 60 + minute;
    assert (hour * 60 + minute) % 60 == minute;
    assert d % 60 == second;
  }

  lemma SecondOfReading(t: int)
    ensures SecondOfDay(ReadingAt(t)) == t % 86400
  {
    var d := t % 86400;
    assert d == (d / 60) * 60 + d % 60;
    assert d / 60 == (d / 60 / 60) * 60 + (d / 60) % 60;
    assert d / 3600 == d / 60 / 60;
  }

  /** Consecutive seconds give consecutive readings. */
  lemma ReadingAtNext(t: int)
    ensures ReadingAt(t + 1) == NextSecond(ReadingAt(t))
  {
    var r := ReadingAt(t);
    var n := NextSecond(r);
    SecondOfReading(t);
    if t % 86400 < 86399 {
      assert (t + 1) % 86400 == t % 86400 + 1;
      assert SecondOfDay(n) == SecondOfDay(r) + 1;
    } else {
      assert (t + 1) % 86400 == 0;
      assert r == Reading(23, 59, 59);
    }
    ReadingOfSecond(n.hour, n.minute, n.second, t + 1);
  }

  lemma ReadingsAdvance()
    ensures forall t {:trigger NextSecond(ReadingAt(t))} :: ReadingAt(t + 1) == NextSecond(ReadingAt(t))
  {
    forall t {
      ReadingAtNext(t);
    }
  }

  /** `n` consecutive readings of the interval, the first at second `start`
      and each one second after the one before. */
  function Clock(start: int, n: nat): (rs: seq<Reading>)
    ensures |rs| == n
    ensures n > 0 ==> rs[0] == ReadingAt(start)
    ensures forall i {:trigger NextSecond(rs[i])} :: 0 <= i < n - 1 ==> rs[i + 1] == NextSecond(rs[i])
  {
    ReadingsAdvance();
    seq(n, i => ReadingAt(start + i))
  }

  lemma ClockAt(start: int, n: nat, i: int)
    requires 0 <= i < n
    ensures Clock(start, n)[i] == ReadingAt(start + i)
  {
  }

  /** Armed for a target in range and polled once a second, the alarm fires
      within any 24 hours, exactly once. */
  lemma FiresOncePerDay(st: State, start: int, notifier: bool)
    requires st.alarmSet
    requires st.alarmHour.Num? && 0 <= st.alarmHour.n < 24
    requires st.alarmMinute.Num? && 0 <= st.alarmMinute.n < 60
    ensures RunTicks(st, Clock(start, 86400), notifier) == Fire(st, notifier)
    ensures Rings(RunTicks(st, Clock(start, 86400), notifier).events) == Rings(st.events) + 1
  {
    var h, m := st.alarmHour.n, st.alarmMinute.n;
    var i := (h * 3600 + m * 60 - start) % 86400;
    assert (start + i) % 86400 == h * 3600 + m * 60;
    ReadingOfSecond(h, m, 0, start + i);
    ClockAt(start, 86400, i);
    FiresAt(st, Clock(start, 86400), i, notifier);
  }

  /** A run with a matching reading fires the armed alarm exactly once. */
  lemma FiresAt(st: State, readings: seq<Reading>, i: int, notifier: bool)
    requires st.alarmSet && 0 <= i < |readings|
    requires Matches(st.alarmHour, st.alarmMinute, readings[i])
    ensures RunTicks(st, readings, notifier) == Fire(st, notifier)
    ensures Rings(RunTicks(st, readings, notifier).events) == Rings(st.events) + 1
  {
    OneShot(st, readings, notifier);
  }

  /** Armed for 10:01 and polled second by second from 10:00:00: nothing
      happens up to 10:00:59, and the tick at 10:01:00 fires. */
  lemma FiresAtTenOhOne(st: State, notifier: bool)
    requires st.alarmSet && st.alarmHour == Num(10) && st.alarmMinute == Num(1)
    ensures RunTicks(st, Clock(36000, 60), notifier) == st
    ensures RunTicks(st, Clock(36000, 61), notifier) == Fire(st, notifier)
  {
    var early := Clock(36000, 60);
    forall i | 0 <= i < 60
      ensures !Matches(st.alarmHour, st.alarmMinute, early[i])
    {
      assert (36000 + i) % 86400 == 36000 + i;
      assert (36000 + i) / 60 == 600;
    }
    OneShot(st, early, notifier);
    ReadingOfSecond(10, 1, 0, 36060);
    assert Matches(st.alarmHour, st.alarmMinute, Clock(36000, 61)[60]);
    OneShot(st, Clock(36000, 61), notifier);
  }

  /** A target that is not a number in range (`undefined`, `NaN`, hour 25,
      minute 75, ...) is never met by the readings `new Date()` gives, so
      polling for it changes nothing. */
  lemma UnmatchableTargetNeverFires(st: State, start: int, n: nat, notifier: bool)
    requires !(st.alarmHour.Num? && 0 <= st.alarmHour.n < 24 &&
               st.alarmMinute.Num? && 0 <= st.alarmMinute.n < 60)
    ensures RunTicks(st, Clock(start, n), notifier) == st
  {
    var rs := Clock(start, n);
    forall i | 0 <= i < n
      ensures !Matches(st.alarmHour, st.alarmMinute, rs[i])
    {
      ClockAt(start, n, i);
    }
    OneShot(st, rs, notifier);
  }
}
