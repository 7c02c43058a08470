# One-shot alarm clock, modelled in Dafny

This project models the alarm clock widget of the `modular` repository in its
four variants:

- `alarm-clock.js`: the target is typed as `HH:MM` text.
- `v1.1_alarm-clock.js`: the target is fixed at 12:30.
- `v1.2_alarm-clock.js`: the target comes from a carousel object.
- `v1.3_alarm-clock.js`: the target comes from global picker functions.

All four share the same closure state (`alarmSet`, `alarmHour`, `alarmMinute`, `intervalId`) and the same three operations:

- `setAlarm` validates the input (v1.1 reads none and always arms for 12:30), stores the target, replaces the polling interval and runs one tick at once.
- `updateCurrentTime` is the tick. It fires when hour and minute match at second 0, then disarms and stops polling.
- The button's click handler toggles between cancelling and arming.

Layout:

- `js_values.dfy` (`JsValues`) holds the JavaScript semantics the widget relies on:
  - the values a closure variable can hold (`undefined`, `null`, a number, `NaN`);
  - `===` against a clock number;
  - `String(n)` and `padStart(2, '0')`;
  - `split(':')` and `Number(text)`.
- `alarm_core.dfy` (`AlarmCore`) is the shared state machine as pure step functions over a `State` value. The browser's intervals are a `Timers` value: the set of live handles and the next handle. Notification and audio requests go into an append-only event log. The invariant `Inv` says the only live interval is the one `intervalId` holds, and that it is live exactly while the alarm is armed. The lemmas about runs of ticks (`OneShot`, `FiresOncePerDay`) state what the alarm does over time.
- `alarm_clock_input.dfy`, `alarm_clock_v1_1.dfy`, `alarm_clock_v1_2.dfy` and `alarm_clock_v1_3.dfy` hold one module per variant. Each has:
  - the variant's `SetAlarmStep` and `ClickStep` specification;
  - a class `AlarmClock` whose fields are the closure variables and whose methods update them the way the JavaScript does. Each method is proved to produce exactly the state its step function gives, and to keep `Inv`.
- `pause_fields.dfy` (`PauseFields`) holds the visibility decision of `togglePauseFields` in the carousel variants.

Inputs from outside the page become parameters:

- the clock reading of each tick (`Reading(hour, minute, second)`);
- the values the carousels or pickers return;
- the text of the input;
- whether the notification script is loaded.

In the three carousel variants `showDesktopNotification` is defined in the same file, so it is always available.

A consequence of the missing validation in `alarm-clock.js` is kept as written:

- Text such as `7` or `ab:cd` arms the alarm and shows `Alarme definido para 07:undefined` or `Alarme definido para NaN:NaN`.
- The alarm then polls indefinitely without ever firing (`AlarmClockInput.UnparsableInputNeverFires`).

## Model

| member | source | states |
|---|---|---|
| JsValues.DigitChar | v1.3_alarm-clock.js:133 | a digit below 10 is spelled as a decimal digit character |
| JsValues.DigitValue | alarm-clock.js:40 | a digit character denotes a value below 10 |
| JsValues.Decimal | v1.3_alarm-clock.js:133 | `String(n)` of a non-negative integer is a non-empty digit string, one digit exactly below 10 and two digits from 10 to 99 |
| JsValues.DecimalRoundTrip | alarm-clock.js:40 | reading the decimal spelling of `n` back as digits gives `n` |
| JsValues.LeadingZero | alarm-clock.js:99-101 | a leading `0` (the padding) keeps a digit string all digits and does not change its value |
| JsValues.JsString | v1.3_alarm-clock.js:133 | `String(v)` is never empty, for every value a closure variable can hold |
| JsValues.PadStart2 | v1.3_alarm-clock.js:133 | `padStart(2, '0')` yields length 2 for a string shorter than 2 and leaves longer ones at their length |
| JsValues.StrictEquals | v1.3_alarm-clock.js:100 | decides `k === v` for a clock number `k`: only the number `k` matches; `NaN`, `null` and `undefined` never do |
| JsValues.Pad2 | v1.3_alarm-clock.js:133 | names `String(v).padStart(2, '0')`; its digits and length for numbers are stated by `Pad2Num` |
| JsValues.Pad2Num | v1.3_alarm-clock.js:133 | the padded text of a non-negative number is all digits, exactly two below 100, and still denotes the number |
| JsValues.FormatHHMM | v1.3_alarm-clock.js:133 | the `HH:MM` text is the two padded fields with one character between them, at least five characters long |
| JsValues.Split | alarm-clock.js:40 | `split(':')` gives at least one part, no part holds the separator, and joining the parts gives back the text |
| JsValues.SplitNoSeparator | alarm-clock.js:40 | text without the separator splits into itself alone |
| JsValues.SplitPair | alarm-clock.js:40 | `a:b` with no separator in `a` or `b` splits into exactly `[a, b]` |
| JsValues.ToNumber | alarm-clock.js:40 | `Number` of the empty text is 0 (so `:30` arms for 00:30), of a digit string its value, of anything else `NaN`; a number from it is never negative |
| AlarmCore.StartInterval | v1.3_alarm-clock.js:141 | `setInterval` makes the returned handle live and no other; with well-issued handles it was not live before, so one more interval is live, and the handles stay well issued |
| AlarmCore.ClearInterval | v1.3_alarm-clock.js:139 | after `clearInterval` the given handle is not live and every other live handle still is; `undefined` or a handle already cleared changes nothing; handles stay well issued |
| AlarmCore.Initial | v1.3_alarm-clock.js:54-57 | the page starts disarmed, with an empty log, no interval and the invariant holding |
| AlarmCore.Inv | v1.3_alarm-clock.js:138-141 | decides the invariant: the handles are well issued, and the interval `intervalId` holds is the only live one while armed and none is live while disarmed |
| AlarmCore.LoadTickIdle | v1.3_alarm-clock.js:204 | the tick on page load changes nothing, because nothing is armed yet |
| AlarmCore.AtMostOneInterval | v1.3_alarm-clock.js:138-141 | under the invariant at most one interval is live, and polling is active exactly while armed |
| AlarmCore.Matches | v1.3_alarm-clock.js:100 | decides the tick's guard without `alarmSet`: hour and minute strictly equal to the target, second 0 |
| AlarmCore.Fires | v1.3_alarm-clock.js:100 | decides the whole guard: armed and `Matches` |
| AlarmCore.RingsAppend | v1.3_alarm-clock.js:166-167 | the sounds requested by two stretches of the log add up |
| AlarmCore.AlarmEvents | v1.3_alarm-clock.js:154-167 | one firing requests exactly one sound, preceded by the alarm notification with the padded `HH:MM` when the notifier is available |
| AlarmCore.Fire | v1.3_alarm-clock.js:100-105 | a firing disarms, sets 'Alarme disparado!', keeps the target, appends one firing's requests (one sound more) and stops all polling |
| AlarmCore.TickStep | v1.3_alarm-clock.js:100-106 | a tick leaves the alarm armed iff it was armed and the reading does not match at second 0; it rings iff it fires; any other tick changes nothing; the invariant is kept |
| AlarmCore.CancelStep | v1.3_alarm-clock.js:181-185 | cancelling disarms, sets 'Alarme cancelado.', requests nothing, keeps the target and stops all polling |
| AlarmCore.Truthy | v1.3_alarm-clock.js:138 | decides `if (intervalId)`: a handle is stored and is not 0 |
| AlarmCore.ArmedStatus | v1.3_alarm-clock.js:133-134 | names the armed status text `Alarme definido para HH:MM` with both fields padded (also v1.2_alarm-clock.js:137-138, v1.1_alarm-clock.js:113-114, alarm-clock.js:45) |
| AlarmCore.Confirmation | v1.3_alarm-clock.js:146-148 | names the confirmation notification: title '⏰ Alarme Definido!', body 'Seu alarme foi configurado para: HH:MM' (also v1.2_alarm-clock.js:149-153, v1.1_alarm-clock.js:125-129) |
| AlarmCore.Armed | v1.3_alarm-clock.js:131-141 | arming stores the target, arms, shows 'Alarme definido para HH:MM', and leaves only the new interval live |
| AlarmCore.ArmStep | v1.3_alarm-clock.js:131-149 | after arming and the immediate tick, the alarm is armed iff the arming reading does not match; status, requests and live intervals are what that outcome dictates |
| AlarmCore.RunTicks | v1.3_alarm-clock.js:141 | a run of the interval's ticks that leaves the alarm armed has changed nothing, and it keeps the invariant |
| AlarmCore.DisarmedTicks | v1.3_alarm-clock.js:100 | ticks change nothing while disarmed |
| AlarmCore.OneShot | v1.3_alarm-clock.js:100-105 | over any run of ticks, an armed alarm ends up fired once exactly when some reading matches, and unchanged otherwise |
| AlarmCore.AtMostOneRing | v1.3_alarm-clock.js:100-105 | any run of ticks requests at most one sound, and none while disarmed |
| AlarmCore.CancelPreventsFiring | v1.3_alarm-clock.js:179-185 | after a cancel no run of ticks fires |
| AlarmCore.ReadingAt | v1.3_alarm-clock.js:92 | a clock reading has hour, minute and second in range |
| AlarmCore.ReadingOfSecond | v1.3_alarm-clock.js:92 | an in-range reading is what the clock gives at its second of the day |
| AlarmCore.SecondOfReading | v1.3_alarm-clock.js:92 | a reading names the second of the day it was taken at |
| AlarmCore.ReadingAtNext | v1.3_alarm-clock.js:92 | one second later the clock gives the next second, carrying into minutes and hours and wrapping from 23:59:59 to 00:00:00 |
| AlarmCore.ReadingsAdvance | v1.3_alarm-clock.js:92 | the same, for every second |
| AlarmCore.Clock | v1.3_alarm-clock.js:141 | the interval's `n` readings start at the reading of second `start`, and each one is the second after the one before |
| AlarmCore.ClockAt | v1.3_alarm-clock.js:141 | reading `i` of a run is the clock's reading `i` seconds after its start |
| AlarmCore.FiresAt | v1.3_alarm-clock.js:100-105 | a run with some matching reading fires the armed alarm exactly once, with one sound |
| AlarmCore.FiresOncePerDay | v1.3_alarm-clock.js:100-105 | armed for an in-range target and polled every second for 24 hours, the alarm fires exactly once |
| AlarmCore.FiresAtTenOhOne | v1.3_alarm-clock.js:100-105 | armed for 10:01 and polled from 10:00:00, nothing happens for 60 ticks and the 61st fires |
| AlarmCore.UnmatchableTargetNeverFires | v1.3_alarm-clock.js:100 | a target that is not a number in range is never met by the clock's readings, so polling for it changes nothing |
| AlarmClockV13.Accepts | v1.3_alarm-clock.js:126 | decides the validation: the pickers are present and neither value is `null` |
| AlarmClockV13.SetAlarmStep | v1.3_alarm-clock.js:112-149 | missing pickers only set 'Erro: Carrosséis não carregados.'; a `null` value stores the values and reports without arming or touching the interval; otherwise it arms as `ArmStep` does, with confirmation |
| AlarmClockV13.ClickStep | v1.3_alarm-clock.js:179-190 | while armed a click cancels and stops polling; while disarmed a rejected input leaves it disarmed and not polling, and an accepted one arms |
| AlarmClockV13.AlarmClock.constructor | v1.3_alarm-clock.js:196-204 | the page loads into the initial state |
| AlarmClockV13.AlarmClock.TriggerAlarm | v1.3_alarm-clock.js:154-174 | appends one firing's requests to the log |
| AlarmClockV13.AlarmClock.Tick | v1.3_alarm-clock.js:91-107 | the fields become `TickStep` of the old state, keeping the invariant |
| AlarmClockV13.AlarmClock.SetAlarm | v1.3_alarm-clock.js:112-149 | the fields become `SetAlarmStep` of the old state, keeping the invariant |
| AlarmClockV13.AlarmClock.Click | v1.3_alarm-clock.js:179-190 | the fields become `ClickStep` of the old state, keeping the invariant |
| AlarmClockV12.Accepts | v1.2_alarm-clock.js:130 | decides the validation: neither carousel value is `undefined` |
| AlarmClockV12.SetAlarmStep | v1.2_alarm-clock.js:124-158 | an `undefined` value stores the values and sets 'Erro: Hora do alarme não selecionada corretamente.' without arming or touching the interval; otherwise it arms as `ArmStep` does, with confirmation |
| AlarmClockV12.ClickStep | v1.2_alarm-clock.js:180-189 | while armed a click cancels and stops polling; while disarmed a rejected input leaves it disarmed and not polling, and an accepted one arms |
| AlarmClockV12.AlarmClock.constructor | v1.2_alarm-clock.js:191-200 | the page loads into the initial state |
| AlarmClockV12.AlarmClock.TriggerAlarm | v1.2_alarm-clock.js:160-178 | appends one firing's requests to the log |
| AlarmClockV12.AlarmClock.Tick | v1.2_alarm-clock.js:108-122 | the fields become `TickStep` of the old state, keeping the invariant |
| AlarmClockV12.AlarmClock.SetAlarm | v1.2_alarm-clock.js:124-158 | the fields become `SetAlarmStep` of the old state, keeping the invariant |
| AlarmClockV12.AlarmClock.Click | v1.2_alarm-clock.js:180-189 | the fields become `ClickStep` of the old state, keeping the invariant |
| AlarmClockV11.SetAlarmStep | v1.1_alarm-clock.js:92-130 | arming is always for 12:30; the alarm stays armed unless the arming reading is 12:30:00 |
| AlarmClockV11.FixedTargetStatus | v1.1_alarm-clock.js:113-114 | the armed status reads 'Alarme definido para 12:30' |
| AlarmClockV11.ClickStep | v1.1_alarm-clock.js:152-161 | while armed a click cancels and stops polling; otherwise it arms for 12:30 |
| AlarmClockV11.AlarmClock.constructor | v1.1_alarm-clock.js:163-168 | the page loads into the initial state |
| AlarmClockV11.AlarmClock.TriggerAlarm | v1.1_alarm-clock.js:132-150 | appends one firing's requests to the log |
| AlarmClockV11.AlarmClock.Tick | v1.1_alarm-clock.js:76-90 | the fields become `TickStep` of the old state, keeping the invariant |
| AlarmClockV11.AlarmClock.SetAlarm | v1.1_alarm-clock.js:92-130 | the fields become `SetAlarmStep` of the old state, keeping the invariant |
| AlarmClockV11.AlarmClock.Click | v1.1_alarm-clock.js:152-161 | the fields become `ClickStep` of the old state, keeping the invariant |
| AlarmClockInput.JoinHasSeparator | alarm-clock.js:40 | text that splits into two or more parts holds the separator |
| AlarmClockInput.DigitsHaveNoColon | alarm-clock.js:40 | a digit string holds no `:` |
| AlarmClockInput.ParseTime | alarm-clock.js:40 | the parsed hour is never `undefined` or `null`; the minute is never `null`, and is `undefined` exactly when the text has no `:` |
| AlarmClockInput.ParsePair | alarm-clock.js:40 | text with exactly one `:` parses to `Number` of each side |
| AlarmClockInput.ParseNoColon | alarm-clock.js:40 | text without `:` parses to `Number` of the whole text and an `undefined` minute |
| AlarmClockInput.ParseFormatted | alarm-clock.js:98-101 | the zero-padded `HH:MM` of any hour and minute parses back to them |
| AlarmClockInput.DefaultInput | alarm-clock.js:98-101 | the load-time text is five characters for a clock reading and parses back to that hour and minute |
| AlarmClockInput.SetAlarmStep | alarm-clock.js:33-57 | empty text only sets 'Por favor, defina uma hora para o alarme.'; any other text arms for its parse as `ArmStep` does, without confirmation |
| AlarmClockInput.ClickStep | alarm-clock.js:85-95 | while armed a click cancels and stops polling; empty text leaves it disarmed and not polling; other text arms |
| AlarmClockInput.DefaultInputArms | alarm-clock.js:97-102 | arming with the text the page put in the input arms for the hour and minute of page load |
| AlarmClockInput.UnparsableInputNeverFires | alarm-clock.js:40-44 | text whose hour or minute is not a number still arms, but no run of ticks ever fires it |
| AlarmClockInput.AlarmClock.constructor | alarm-clock.js:97-102 | the page loads into the initial state with the input set to the current `HH:MM` |
| AlarmClockInput.AlarmClock.EditInput | alarm-clock.js:34 | the input holds what the user typed |
| AlarmClockInput.AlarmClock.TriggerAlarm | alarm-clock.js:60-82 | appends one firing's requests: the notification only if the notification script is loaded, then the sound |
| AlarmClockInput.AlarmClock.Tick | alarm-clock.js:15-30 | the fields become `TickStep` of the old state, keeping the invariant and the input |
| AlarmClockInput.AlarmClock.SetAlarm | alarm-clock.js:33-57 | the fields become `SetAlarmStep` of the old state and the input text, keeping the invariant and the input |
| AlarmClockInput.AlarmClock.Click | alarm-clock.js:85-95 | the fields become `ClickStep` of the old state and the input text, keeping the invariant and the input |
| PauseFields.TwoWay | v1.3_alarm-clock.js:65-73 | the duration group is shown iff its radio is checked, and exactly one group is shown (also v1.1_alarm-clock.js:57-65) |
| PauseFields.ThreeWay | v1.2_alarm-clock.js:86-96 | the duration group is shown iff its radio is checked; the end group iff its radio is checked and the duration one is not; never both |
| PauseFields.ToggleVersionsAgree | v1.1_alarm-clock.js:57-65 | with exactly one radio checked the two toggles agree; with neither checked the two-way one shows the end group and the three-way one shows nothing |

## Left out

- `showDesktopNotification` (permission request, the Notification API, its Promise chain) is modelled only as a `Notification` event in the log. `desktop.js`, which holds nothing else, is not part of this model.
- Audio playback and its 5-second `setTimeout` stop are asynchronous media I/O, so a firing records only an `AudioPlay` event.
- Real timing: `setInterval`/`clearInterval` become the `Timers` value, and `new Date()` becomes a `Reading` per tick. Drift, missed or late intervals, and time zones are out.
- The DOM is out: element lookups, button labels, the current-time display (`currentTimeDisplay`), `style.display` writes and console logging. Only the status text and the visibility decision of `togglePauseFields` are kept. The status text before any operation is modelled as the empty string.
- The carousel and picker script (`getSelectedHour`, `getSelectedMinute`, `setInitialTime`, `setupTimeCarousels`, the carousel objects' `getHour`, `getMinute` and `setTime`) is not part of this model. What those functions return is an input to `SetAlarm`. Their calls on page load set no alarm state, so they are left out.
- The pause carousels of the second carousel version are set up but never read by `setAlarm` or the tick. No pause or snooze suppression of firing exists in the code, so none is modelled.
- No hour or minute range check exists in the code, so none is modelled. Out-of-range or non-number targets are stored as given, and such a target never matches a reading `new Date()` gives (`AlarmCore.UnmatchableTargetNeverFires`).
- JsValues.ToNumber: covers only the texts `split(':')` can yield from typical input. Leading or trailing whitespace, signs, decimals, exponents and hex prefixes all map to `NaN` here, while JavaScript's `Number` accepts them. Negative and fractional targets are therefore out of this model.
- JsValues.Decimal: models `String(n)` as plain decimal digits, which holds below 10^21. JavaScript numbers are doubles, so `String` switches to exponent form at 10^21 and `Number` rounds digit strings above 2^53; typed text that large in `alarm-clock.js` is out of this model.
- JsValues.PadStart2: states only the length of the result; the padded digits are stated for numbers by `Pad2Num`.
- AlarmClockInput.AlarmClock.EditInput: stands for the user editing the input field; it is browser behaviour, not code of the page.
