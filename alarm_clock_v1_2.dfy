/** The second carousel version: the target comes from the main carousel
    object's `getHour()` / `getMinute()`, which may return `undefined`. The
    pause carousels are set up and given initial times but neither `setAlarm`
    nor the tick reads them, so they are not part of this state. */
module AlarmClockV12 {
  import opened JsValues
  import opened AlarmCore

  const UnselectedStatus := "Erro: Hora do alarme não selecionada corretamente."

  /** The carousel's values pass the validation: neither is `undefined`. */
  predicate Accepts(hour: JsValue, minute: JsValue)
  {
    hour != Undefined && minute != Undefined
  }

  /** `setAlarm`. An `undefined` value stores the values read and reports,
      leaving the arming and the interval as they were; otherwise the alarm
      arms for the values read. */
  function SetAlarmStep(st: State, hour: JsValue, minute: JsValue, now: Reading): (r: State)
    ensures Inv(st) ==> Inv(r)
    ensures !Accepts(hour, minute) ==>
      && r.alarmSet == st.alarmSet && r.timers == st.timers && r.intervalId == st.intervalId
      && r.events == st.events && r.status == UnselectedStatus
      && r.alarmHour == hour && r.alarmMinute == minute
    ensures Accepts(hour, minute) ==> ArmedOutcome(st, r, hour, minute, now, true, true)
  {
    if hour == Undefined || minute == Undefined then
      st.(alarmHour := hour, alarmMinute := minute, status := UnselectedStatus)
    else
      ArmStep(st, hour, minute, now, true, true)
  }

  /** The button's click handler: cancel while armed, `setAlarm` otherwise.
      A click that does not arm leaves the alarm disarmed and not polling. */
  function ClickStep(st: State, hour: JsValue, minute: JsValue, now: Reading): (r: State)
    ensures Inv(st) ==> Inv(r)
    ensures st.alarmSet ==>
      !r.alarmSet && r.status == CancelledStatus && r.events == st.events && (Inv(st) ==> !Polling(r))
    ensures !st.alarmSet && !Accepts(hour, minute) ==> !r.alarmSet && (Inv(st) ==> !Polling(r))
    ensures !st.alarmSet && Accepts(hour, minute) ==> ArmedOutcome(st, r, hour, minute, now, true, true)
  {
    if st.alarmSet then CancelStep(st) else SetAlarmStep(st, hour, minute, now)
  }

  /** The widget's closure state. */
  class AlarmClock {
    var alarmSet: bool
    var alarmHour: JsValue
    var alarmMinute: JsValue
    var intervalId: Option<nat>
    var timers: Timers
    var status: string
    var events: seq<Event>

    ghost function Model(): State
      reads this
    {
      State(alarmSet, alarmHour, alarmMinute, intervalId, timers, status, events)
    }

    ghost predicate Valid()
      reads this
    {
      Inv(Model())
    }

    /** Page load: the initial state, then one tick, which cannot fire. */
    constructor (now: Reading)
      ensures Valid() && Model() == Initial()
    {
      alarmSet := false;
      alarmHour, alarmMinute := Undefined, Undefined;
      intervalId := None;
      timers := Timers({}, 1);
      status := "";
      events := [];
      new;
      Tick(now);
    }

    /** `triggerAlarm`: one alarm notification and one sound. */
    method TriggerAlarm()
      modifies this`events
      ensures events == old(events) + AlarmEvents(alarmHour, alarmMinute, true)
    {
      events := events + [Notification(AlarmTitle, AlarmBodyPrefix + FormatHHMM(alarmHour, alarmMinute))];
      events := events + [AudioPlay(AudioUrl)];
    }

    /** `updateCurrentTime`, the interval's callback. */
    method Tick(now: Reading)
      requires Valid()
      modifies this
      ensures Valid()
      ensures Model() == TickStep(old(Model()), now, true)
    {
      if alarmSet && StrictEquals(now.hour, alarmHour) && StrictEquals(now.minute, alarmMinute) && now.second == 0 {
        TriggerAlarm();
        timers := ClearInterval(timers, intervalId);
        alarmSet := false;
        status := FiredStatus;
      }
    }

    method SetAlarm(hour: JsValue, minute: JsValue, now: Reading)
      requires Valid()
      modifies this
      ensures Valid()
      ensures Model() == SetAlarmStep(old(Model()), hour, minute, now)
    {
      ghost var before := Model();
      alarmHour, alarmMinute := hour, minute;
      if alarmHour == Undefined || alarmMinute == Undefined {
        status := UnselectedStatus;
        return;
      }
      alarmSet := true;
      var formatted := FormatHHMM(alarmHour, alarmMinute);
      status := ArmedStatusPrefix + formatted;
      if Truthy(intervalId) {
        timers := ClearInterval(timers, intervalId);
      }
      var handle := timers.next;
      timers := StartInterval(timers);
      intervalId := Some(handle);
      assert Model() == Armed(before, hour, minute);
      Tick(now);
      events := events + [Notification(ConfirmTitle, ConfirmBodyPrefix + formatted)];
    }

    method Click(hour: JsValue, minute: JsValue, now: Reading)
      requires Valid()
      modifies this
      ensures Valid()
      ensures Model() == ClickStep(old(Model()), hour, minute, now)
    {
      if alarmSet {
        timers := ClearInterval(timers, intervalId);
        alarmSet := false;
        status := CancelledStatus;
      } else {
        SetAlarm(hour, minute, now);
      }
    }
  }
}
