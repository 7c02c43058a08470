/** The third carousel version: the target comes from the global picker
    functions `getSelectedHour` / `getSelectedMinute`, which may be missing
    or return `null`. */
module AlarmClockV13 {
  import opened JsValues
  import opened AlarmCore

  /** What `setAlarm` finds: the picker functions are not loaded, or they are
      and return these two values. */
  datatype Picker = Missing | Selected(hour: JsValue, minute: JsValue)

  const CarouselErrorStatus := "Erro: Carrosséis não carregados."
  const InvalidTimeStatus := "Por favor, defina uma hora válida para o alarme."

  /** The picker's values pass the validation: neither is `null`. */
  predicate Accepts(picker: Picker)
  {
    picker.Selected? && picker.hour != Null && picker.minute != Null
  }

  /** `setAlarm`. A missing picker only reports an error; a `null` value
      stores the values read and reports, leaving the arming and the
      interval as they were; otherwise the alarm arms for the values read. */
  function SetAlarmStep(st: State, picker: Picker, now: Reading): (r: State)
    ensures Inv(st) ==> Inv(r)
    ensures picker.Missing? ==> r == st.(status := CarouselErrorStatus)
    ensures picker.Selected? && !Accepts(picker) ==>
      && r.alarmSet == st.alarmSet && r.timers == st.timers && r.intervalId == st.intervalId
      && r.events == st.events && r.status == InvalidTimeStatus
      && r.alarmHour == picker.hour && r.alarmMinute == picker.minute
    ensures Accepts(picker) ==> ArmedOutcome(st, r, picker.hour, picker.minute, now, true, true)
  {
    match picker
    case Missing => st.(status := CarouselErrorStatus)
    case Selected(hour, minute) =>
      if hour == Null || minute == Null then
        st.(alarmHour := hour, alarmMinute := minute, status := InvalidTimeStatus)
      else
        ArmStep(st, hour, minute, now, true, true)
  }

  /** The button's click handler: cancel while armed, `setAlarm` otherwise.
      A click that does not arm leaves the alarm disarmed and not polling. */
  function ClickStep(st: State, picker: Picker, now: Reading): (r: State)
    ensures Inv(st) ==> Inv(r)
    ensures st.alarmSet ==>
      !r.alarmSet && r.status == CancelledStatus && r.events == st.events && (Inv(st) ==> !Polling(r))
    ensures !st.alarmSet && !Accepts(picker) ==> !r.alarmSet && (Inv(st) ==> !Polling(r))
    ensures !st.alarmSet && Accepts(picker) ==> ArmedOutcome(st, r, picker.hour, picker.minute, now, true, true)
  {
    if st.alarmSet then CancelStep(st) else SetAlarmStep(st, picker, now)
  }

  /** The widget's closure state. */
  class AlarmClock {
    var alarmSet: bool
    var alarmHour: JsValue
    var alarmMinute: JsValue
    var intervalId: Option<nat>
    var timers: Timers
    var status: string
    var events: seq<Event>

    ghost function Model(): State
      reads this
    {
      State(alarmSet, alarmHour, alarmMinute, intervalId, timers, status, events)
    }

    ghost predicate Valid()
      reads this
    {
      Inv(Model())
    }

    /** Page load: the initial state, then one tick, which cannot fire. */
    constructor (now: Reading)
      ensures Valid() && Model() == Initial()
    {
      alarmSet := false;
      alarmHour, alarmMinute := Undefined, Undefined;
      intervalId := None;
      timers := Timers({}, 1);
      status := "";
      events := [];
      new;
      Tick(now);
    }

    /** `triggerAlarm`: one alarm notification and one sound. */
    method TriggerAlarm()
      modifies this`events
      ensures events == old(events) + AlarmEvents(alarmHour, alarmMinute, true)
    {
      events := events + [Notification(AlarmTitle, AlarmBodyPrefix + FormatHHMM(alarmHour, alarmMinute))];
      events := events + [AudioPlay(AudioUrl)];
    }

    /** `updateCurrentTime`, the interval's callback. */
    method Tick(now: Reading)
      requires Valid()
      modifies this
      ensures Valid()
      ensures Model() == TickStep(old(Model()), now, true)
    {
      if alarmSet && StrictEquals(now.hour, alarmHour) && StrictEquals(now.minute, alarmMinute) && now.second == 0 {
        TriggerAlarm();
        timers := ClearInterval(timers, intervalId);
        alarmSet := false;
        status := FiredStatus;
      }
    }

    method SetAlarm(picker: Picker, now: Reading)
      requires Valid()
      modifies this
      ensures Valid()
      ensures Model() == SetAlarmStep(old(Model()), picker, now)
    {
      ghost var before := Model();
      if !picker.Selected? {
        status := CarouselErrorStatus;
        return;
      }
      alarmHour, alarmMinute := picker.hour, picker.minute;
      if alarmHour == Null || alarmMinute == Null {
        status := InvalidTimeStatus;
        return;
      }
      alarmSet := true;
      var formatted := FormatHHMM(alarmHour, alarmMinute);
      status := ArmedStatusPrefix + formatted;
      if Truthy(intervalId) {
        timers := ClearInterval(timers, intervalId);
      }
      var handle := timers.next;
      timers := StartInterval(timers);
      intervalId := Some(handle);
      assert Model() == Armed(before, picker.hour, picker.minute);
      Tick(now);
      events := events + [Notification(ConfirmTitle, ConfirmBodyPrefix + formatted)];
    }

    method Click(picker: Picker, now: Reading)
      requires Valid()
      modifies this
      ensures Valid()
      ensures Model() == ClickStep(old(Model()), picker, now)
    {
      if alarmSet {
        timers := ClearInterval(timers, intervalId);
        alarmSet := false;
        status := CancelledStatus;
      } else {
        SetAlarm(picker, now);
      }
    }
  }
}
