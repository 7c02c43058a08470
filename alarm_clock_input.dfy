/** The text-input version: the target is read from the `alarmTime` input
    as `HH:MM` text, which the page fills with the current time on load. The
    notification function lives in another script, so whether it is loaded
    is a parameter of the page. */
module AlarmClockInput {
  import opened JsValues
  import opened AlarmCore

  const EmptyInputStatus := "Por favor, defina uma hora para o alarme."

  /** A string with two parts has the separator at the end of the first. */
  lemma JoinHasSeparator(parts: seq<string>, sep: char)
    requires |parts| >= 2
    ensures sep in Join(parts, sep)
  {
    assert Join(parts, sep)[|parts[0]|] == sep;
  }

  /** A digit string holds no `:`. */
  lemma DigitsHaveNoColon(s: string)
    requires AllDigits(s)
    ensures ':' !in s
  {
  }

  /** `const [hour, minute] = timeValue.split(':').map(Number)`: the hour is
      never `undefined`; the minute is `undefined` exactly when the text has
      no `:`. */
  function ParseTime(timeValue: string): (hm: (JsValue, JsValue))
    ensures hm.0 != Undefined && hm.0 != Null && hm.1 != Null
    ensures hm.1 == Undefined <==> ':' !in timeValue
  {
    var parts := Split(timeValue, ':');
    if |parts| >= 2 then JoinHasSeparator(parts, ':'); (ToNumber(parts[0]), ToNumber(parts[1]))
    else (ToNumber(parts[0]), Undefined)
  }

  /** Text with exactly one `:` parses its two sides with `Number`. */
  lemma ParsePair(a: string, b: string)
    requires ':' !in a && ':' !in b
    ensures ParseTime(a + ":" + b) == (ToNumber(a), ToNumber(b))
  {
    SplitPair(a, b, ':');
  }

  /** Text without `:` is all hour: `Number` of the whole text, and the
      minute `undefined`. */
  lemma ParseNoColon(s: string)
    requires ':' !in s
    ensures ParseTime(s) == (ToNumber(s), Undefined)
  {
    SplitNoSeparator(s, ':');
  }

  /** Round trip: the zero-padded `HH:MM` text of any hour and minute parses
      back to that hour and minute. */
  lemma ParseFormatted(hour: nat, minute: nat)
    ensures ParseTime(FormatHHMM(Num(hour), Num(minute))) == (Num(hour), Num(minute))
  {
    Pad2Num(hour);
    Pad2Num(minute);
    DigitsHaveNoColon(Pad2(Num(hour)));
    DigitsHaveNoColon(Pad2(Num(minute)));
    ParsePair(Pad2(Num(hour)), Pad2(Num(minute)));
  }

  /** The value the page puts in the input on load, `${hours}:${minutes}`:
      for a clock reading, five characters that parse back to the hour and
      minute of that moment. */
  function DefaultInput(now: Reading): (text: string)
    ensures 0 <= now.hour < 100 && 0 <= now.minute < 100 ==> |text| == 5
    ensures 0 <= now.hour && 0 <= now.minute ==> ParseTime(text) == (Num(now.hour), Num(now.minute))
  {
    if 0 <= now.hour && 0 <= now.minute then
      ParseFormatted(now.hour, now.minute);
      Pad2Num(now.hour);
      Pad2Num(now.minute);
      FormatHHMM(Num(now.hour), Num(now.minute))
    else
      FormatHHMM(Num(now.hour), Num(now.minute))
  }

  /** `setAlarm`. Empty text only reports; any other text arms for what
      `ParseTime` makes of it, without a confirmation notification. */
  function SetAlarmStep(st: State, timeValue: string, now: Reading, notifier: bool): (r: State)
    ensures Inv(st) ==> Inv(r)
    ensures timeValue == "" ==> r == st.(status := EmptyInputStatus)
    ensures timeValue != "" ==>
      ArmedOutcome(st, r, ParseTime(timeValue).0, ParseTime(timeValue).1, now, notifier, false)
  {
    if timeValue == "" then st.(status := EmptyInputStatus)
    else
      var hm := ParseTime(timeValue);
      ArmStep(st, hm.0, hm.1, now, notifier, false)
  }

  /** The button's click handler: cancel while armed, `setAlarm` otherwise.
      A click on an empty input leaves the alarm disarmed and not polling. */
  function ClickStep(st: State, timeValue: string, now: Reading, notifier: bool): (r: State)
    ensures Inv(st) ==> Inv(r)
    ensures st.alarmSet ==>
      !r.alarmSet && r.status == CancelledStatus && r.events == st.events && (Inv(st) ==> !Polling(r))
    ensures !st.alarmSet && timeValue == "" ==>
      !r.alarmSet && r.status == EmptyInputStatus && (Inv(st) ==> !Polling(r))
    ensures !st.alarmSet && timeValue != "" ==>
      ArmedOutcome(st, r, ParseTime(timeValue).0, ParseTime(timeValue).1, now, notifier, false)
  {
    if st.alarmSet then CancelStep(st) else SetAlarmStep(st, timeValue, now, notifier)
  }

  /** Arming with the text the page put in the input on load arms for the
      hour and minute of that moment. */
  lemma DefaultInputArms(st: State, load: Reading, now: Reading, notifier: bool)
    requires 0 <= load.hour && 0 <= load.minute
    ensures ArmedOutcome(st, SetAlarmStep(st, DefaultInput(load), now, notifier),
                         Num(load.hour), Num(load.minute), now, notifier, false)
  {
    ParseFormatted(load.hour, load.minute);
  }

  /** Text whose hour or minute is not a number (no `:`, or letters) still
      arms the alarm, but no later tick can ever fire it. */
  lemma UnparsableInputNeverFires(st: State, timeValue: string, now: Reading,
                                  readings: seq<Reading>, notifier: bool)
    requires timeValue != ""
    requires !ParseTime(timeValue).0.Num? || !ParseTime(timeValue).1.Num?
    ensures SetAlarmStep(st, timeValue, now, notifier).alarmSet
    ensures RunTicks(SetAlarmStep(st, timeValue, now, notifier), readings, notifier)
         == SetAlarmStep(st, timeValue, now, notifier)
  {
    OneShot(SetAlarmStep(st, timeValue, now, notifier), readings, notifier);
  }

  /** The widget's closure state, with the input's text. */
  class AlarmClock {
    var alarmSet: bool
    var alarmHour: JsValue
    var alarmMinute: JsValue
    var intervalId: Option<nat>
    var timers: Timers
    var status: string
    var events: seq<Event>
    var inputValue: string
    const notifierLoaded: bool

    ghost function Model(): State
      reads this
    {
      State(alarmSet, alarmHour, alarmMinute, intervalId, timers, status, events)
    }

    ghost predicate Valid()
      reads this
    {
      Inv(Model())
    }

    /** Page load: the initial state, the input set to the current `HH:MM`,
        then one tick, which cannot fire. */
    constructor (now: Reading, notifierLoaded: bool)
      ensures Valid() && Model() == Initial()
      ensures inputValue == DefaultInput(now) && this.notifierLoaded == notifierLoaded
    {
      alarmSet := false;
      alarmHour, alarmMinute := Undefined, Undefined;
      intervalId := None;
      timers := Timers({}, 1);
      status := "";
      events := [];
      this.notifierLoaded := notifierLoaded;
      inputValue := FormatHHMM(Num(now.hour), Num(now.minute));
      new;
      Tick(now);
    }

    /** The user edits the input (not code of the page; it stands for the
        browser changing `alarmTimeInput.value`). */
    method EditInput(value: string)
      modifies this`inputValue
      ensures inputValue == value
    {
      inputValue := value;
    }

    /** `triggerAlarm`: the alarm notification when the notification script
        is loaded, and one sound in any case. */
    method TriggerAlarm()
      modifies this`events
      ensures events == old(events) + AlarmEvents(alarmHour, alarmMinute, notifierLoaded)
    {
      if notifierLoaded {
        events := events + [Notification(AlarmTitle, AlarmBodyPrefix + FormatHHMM(alarmHour, alarmMinute))];
      }
      events := events + [AudioPlay(AudioUrl)];
    }

    /** `updateCurrentTime`, the interval's callback. */
    method Tick(now: Reading)
      requires Valid()
      modifies this
      ensures Valid() && inputValue == old(inputValue)
      ensures Model() == TickStep(old(Model()), now, notifierLoaded)
    {
      if alarmSet && StrictEquals(now.hour, alarmHour) && StrictEquals(now.minute, alarmMinute) && now.second == 0 {
        TriggerAlarm();
        timers := ClearInterval(timers, intervalId);
        alarmSet := false;
        status := FiredStatus;
      }
    }

    method SetAlarm(now: Reading)
      requires Valid()
      modifies this
      ensures Valid() && inputValue == old(inputValue)
      ensures Model() == SetAlarmStep(old(Model()), inputValue, now, notifierLoaded)
    {
      ghost var before := Model();
      var timeValue := inputValue;
      if timeValue == "" {
        status := EmptyInputStatus;
        return;
      }
      var hm := ParseTime(timeValue);
      var hour, minute := hm.0, hm.1;
      alarmHour, alarmMinute := hour, minute;
      alarmSet := true;
      status := ArmedStatusPrefix + FormatHHMM(hour, minute);
      if Truthy(intervalId) {
        timers := ClearInterval(timers, intervalId);
      }
      var handle := timers.next;
      timers := StartInterval(timers);
      intervalId := Some(handle);
      assert Model() == Armed(before, hour, minute);
      Tick(now);
    }

    method Click(now: Reading)
      requires Valid()
      modifies this
      ensures Valid() && inputValue == old(inputValue)
      ensures Model() == ClickStep(old(Model()), inputValue, now, notifierLoaded)
    {
      if alarmSet {
        timers := ClearInterval(timers, intervalId);
        alarmSet := false;
        status := CancelledStatus;
      } else {
        SetAlarm(now);
      }
    }
  }
}
