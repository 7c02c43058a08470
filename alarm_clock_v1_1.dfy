/** The first carousel version: `setAlarm` does not read the carousels yet
    and always arms for 12:30. */
module AlarmClockV11 {
  import opened JsValues
  import opened AlarmCore

  const FixedHour := 12
  const FixedMinute := 30

  /** `setAlarm`: always arms for 12:30, whatever the carousels show. */
  function SetAlarmStep(st: State, now: Reading): (r: State)
    ensures Inv(st) ==> Inv(r)
    ensures ArmedOutcome(st, r, Num(FixedHour), Num(FixedMinute), now, true, true)
    ensures r.alarmSet <==> !(now.hour == FixedHour && now.minute == FixedMinute && now.second == 0)
  {
    ArmStep(st, Num(FixedHour), Num(FixedMinute), now, true, true)
  }

  /** While armed, the status shows the fixed target as `12:30`. */
  lemma FixedTargetStatus()
    ensures ArmedStatus(Num(FixedHour), Num(FixedMinute)) == "Alarme definido para 12:30"
  {
    assert FormatHHMM(Num(12), Num(30)) == "12:30";
  }

  /** The button's click handler: cancel while armed, `setAlarm` otherwise. */
  function ClickStep(st: State, now: Reading): (r: State)
    ensures Inv(st) ==> Inv(r)
    ensures st.alarmSet ==>
      !r.alarmSet && r.status == CancelledStatus && r.events == st.events && (Inv(st) ==> !Polling(r))
    ensures !st.alarmSet ==> ArmedOutcome(st, r, Num(FixedHour), Num(FixedMinute), now, true, true)
  {
    if st.alarmSet then CancelStep(st) else SetAlarmStep(st, now)
  }

  /** The widget's closure state. */
  class AlarmClock {
    var alarmSet: bool
    var alarmHour: JsValue
    var alarmMinute: JsValue
    var intervalId: Option<nat>
    var timers: Timers
    var status: string
    var events: seq<Event>

    ghost function Model(): State
      reads this
    {
      State(alarmSet, alarmHour, alarmMinute, intervalId, timers, status, events)
    }

    ghost predicate Valid()
      reads this
    {
      Inv(Model())
    }

    /** Page load: the initial state, then one tick, which cannot fire. */
    constructor (now: Reading)
      ensures Valid() && Model() == Initial()
    {
      alarmSet := false;
      alarmHour, alarmMinute := Undefined, Undefined;
      intervalId := None;
      timers := Timers({}, 1);
      status := "";
      events := [];
      new;
      Tick(now);
    }

    /** `triggerAlarm`: one alarm notification and one sound. */
    method TriggerAlarm()
      modifies this`events
      ensures events == old(events) + AlarmEvents(alarmHour, alarmMinute, true)
    {
      events := events + [Notification(AlarmTitle, AlarmBodyPrefix + FormatHHMM(alarmHour, alarmMinute))];
      events := events + [AudioPlay(AudioUrl)];
    }

    /** `updateCurrentTime`, the interval's callback. */
    method Tick(now: Reading)
      requires Valid()
      modifies this
      ensures Valid()
      ensures Model() == TickStep(old(Model()), now, true)
    {
      if alarmSet && StrictEquals(now.hour, alarmHour) && StrictEquals(now.minute, alarmMinute) && now.second == 0 {
        TriggerAlarm();
        timers := ClearInterval(timers, intervalId);
        alarmSet := false;
        status := FiredStatus;
      }
    }

    method SetAlarm(now: Reading)
      requires Valid()
      modifies this
      ensures Valid()
      ensures Model() == SetAlarmStep(old(Model()), now)
    {
      ghost var before := Model();
      alarmHour := Num(FixedHour);
      alarmMinute := Num(FixedMinute);
      alarmSet := true;
      var formatted := FormatHHMM(alarmHour, alarmMinute);
      status := ArmedStatusPrefix + formatted;
      if Truthy(intervalId) {
        timers := ClearInterval(timers, intervalId);
      }
      var handle := timers.next;
      timers := StartInterval(timers);
      intervalId := Some(handle);
      assert Model() == Armed(before, Num(FixedHour), Num(FixedMinute));
      Tick(now);
      events := events + [Notification(ConfirmTitle, ConfirmBodyPrefix + formatted)];
    }

    method Click(now: Reading)
      requires Valid()
      modifies this
      ensures Valid()
      ensures Model() == ClickStep(old(Model()), now)
    {
      if alarmSet {
        timers := ClearInterval(timers, intervalId);
        alarmSet := false;
        status := CancelledStatus;
      } else {
        SetAlarm(now);
      }
    }
  }
}
