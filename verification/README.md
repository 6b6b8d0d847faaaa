# UV-Exposure enlarger timer — menu and timer state machine in Dafny

The firmware drives an enlarger lamp through a relay. The only input is a rotary encoder with a
push button, and the only output is a small display. This project models the controller in
`src/main.cpp`:

- the button handler `click`, which is the menu's activation table;
- `checkPosition`, which keeps the encoder position within each screen's range;
- the non-display part of the main `loop`: the whole-second counter that runs while the relay
  is on, the redraw gate and its snapshot, and the countdown test that ends a timed exposure.

Files:

- `timer.dfy` (module `Timer`) describes all the globals of the state machine as one value,
  `Snapshot`. Three functions give the state after one call of each handler: `Clamp` for
  `checkPosition`, `Press` for `click` and `Step` for `loop`. Their contracts state the
  activation table, the per-screen limits and the counter and redraw rules.
- `controller.dfy` (module `Controller`) has the class `EnlargerTimer`. Its fields are the
  firmware's globals. Its methods `Click`, `CheckPosition` and `LoopStep` update those fields
  step by step, as the C code does. Each method is proved to leave exactly the state that the
  matching function of `Timer` describes.
- `properties.dfy` (module `TimerProperties`) holds the properties that span many calls. A run
  is a sequence of events: the encoder moved, the button pressed, or one loop pass. The file
  proves an invariant of every reachable state, the counter and countdown behaviour over runs,
  redraw coalescing, the time-setting bounds, and walks through the menus.

Time (`millis()`) is a natural-number parameter. The encoder position is an integer field that
the caller sets directly before calling `Click` or `LoopStep`; this stands for `r.loop()` and
`b.loop()` at `src/main.cpp:120-121`. The relay pin is a boolean field. `LoopStep` starts by
calling `CheckPosition`, as `loop` does at line 124.

Behaviour of the code worth knowing:

- **Relay in the stop dialog.** Asking to stop Manual or Expose leaves the relay on while the
  stop dialog is shown. So "relay on only in Manual or Expose" does not hold. The invariant that
  does hold is "relay on only in Manual, Expose or Stop" (`ReachableInv`). The lemma
  `RelayOnInStopDialog` shows a run that reaches Stop with the relay on.
- **Declining the stop.** This returns to the remembered state with the relay, the counter and
  its time reference untouched. The position is left at 0, not restored (`DeclineStop`).
- **Click before clamp.** The button is polled before `checkPosition` runs in the same loop
  pass. A click can therefore see an unclamped position. In the time setting, one detent past
  1999 stores 10000 s, which is above `max_time` (`UnclampedSetTimeClick`). `last_time <= max_time`
  holds only when the position was clamped before the click (`SetTimeWithinMax`).
- **Countdown test.** The test that ends an exposure runs only inside a redraw of the exposure
  screen, not on every pass (`CountdownWaitsForRedraw`). The relay can therefore stay on past
  `last_time` until the next redraw.
- **Redraw gate.** A redraw needs more than 300 ms since the previous one AND a change of
  position, of state, or a counted second. The interval alone does not trigger one.
- **Settings screens.** `S_SETTINGS` is entered from the start menu. It and `S_SET_DEFAULT`,
  `S_SET_MIN`, `S_SET_MAX` and `S_PAUSE` have no branch in `click`, so a click there changes
  nothing. The model keeps these dead ends and does not invent a settings editor.
- **Negative position in the time setting.** A negative position is reset to 0 with no further
  check in that pass. With `min_time > 0` it takes a second pass to reach `min_time / sec_inc`
  (`ClampIdempotent`). The compiled-in `min_time` is 0, so this case does not arise with the
  defaults.

## Model

| member | source | states |
|---|---|---|
| `Timer.Code` | src/main.cpp:39-54 | the integer of each state enumerator is in 0..13, and 0 only for S_START, so it never equals the initial -1 of `oldState` |
| `Timer.CodeInjective` | src/main.cpp:39-54 | distinct states have distinct enumerator values, so the redraw gate's `oldState != state` test sees every change of state |
| `Timer.Initial` | src/main.cpp:64-71 | the globals' initial values, with setup's relay LOW and encoder reset to 0 (lines 100 and 104): Start, relay off, counter and reference 0, redraw snapshot -1/-1/0, compiled-in settings |
| `Timer.MenuLimit` | src/main.cpp:324-353 | a fixed upper limit, between 1 and 3, exists exactly for the states other than SetTime, ExposeDone, Pause and the three setting editors; the per-state values (2 for Start, Settings and the exposure menu, 1 for SetTimeDone, Expose, Manual and Stop, 3 for Info) are the function's definition |
| `Timer.TimeLimited` | src/main.cpp:333-338 | in the time setting, a position whose time is below min_time becomes min_time/sec_inc (this test wins), one whose time exceeds max_time and is not below min_time becomes max_time/sec_inc, and one whose time lies in [min_time, max_time] is kept |
| `Timer.Clamp` | src/main.cpp:316-354 | only the position changes and it ends non-negative; a negative position becomes exactly 0 with no per-state check; otherwise a bounded state's position becomes min(position, limit), SetTime's is limited by the settings, and the unbounded states keep it |
| `Timer.Press` | src/main.cpp:187-310 | the activation table: Start goes to exposure menu, settings or Info by index and always resets the position to 0; Info and ExposeDone go back to Start at 0; SetTime stores position*sec_inc (as uint16_t) and opens the confirmation at 1; starting an exposure or manual mode resets the counter, sets oldTime to now, turns the relay on and resets the position; index 0 of Manual/Expose toggles the relay (oldTime = now when turning on, oldPosition = -1 both ways); index 1 enters Stop remembering the state; Stop declines or confirms (relay off, Start); the settings screens and Pause change nothing; no setting but last_time ever changes |
| `Timer.SecondDue` | src/main.cpp:127 | the counting condition of line 127 as written (relay on and the reference at least 1000 ms old); it has no contract of its own, and what a due second does is stated by `Timer.Step` |
| `Timer.RedrawDue` | src/main.cpp:134-139 | a redraw is due only more than 300 ms after the last one, and never when neither the position, the state nor the counter changed |
| `Timer.CountdownOver` | src/main.cpp:163 | the countdown condition of line 163 as written (`last_time - secElapsed <= 0`); it has no contract of its own, and what it triggers is stated by `Timer.Step` and `TimerProperties.CountdownEndsOnce` |
| `Timer.Step` | src/main.cpp:116-180 | a loop pass counts a second exactly when one is due (relay on and a full second passed on the reference), adding one and advancing the reference by exactly 1000 ms, and otherwise leaves both; it never turns the relay on and keeps the relay's level unless it ends an exposure; it draws exactly when more than 300 ms have passed and the position, state or counter changed, and then snapshots time, position and state; a redraw in Expose with no time left ends the exposure with the relay off, and no other state change happens |
| `Controller.EnlargerTimer.constructor` | src/main.cpp:64-71 | the globals start in Start, relay off, counter 0, redraw snapshot -1/-1/0, compiled-in settings |
| `Controller.EnlargerTimer.Click` | src/main.cpp:187-310 | updating the fields in place leaves exactly the state `Press` gives |
| `Controller.EnlargerTimer.CheckPosition` | src/main.cpp:316-354 | updating the position in place leaves exactly the state `Clamp` gives |
| `Controller.EnlargerTimer.LoopStep` | src/main.cpp:116-180 | updating the fields in place leaves exactly the state and the redraw flag that `Step` gives |
| `TimerProperties.Apply` | src/main.cpp:119-124 | one input event keeps the settings valid, and only a loop pass can draw |
| `TimerProperties.Run` | src/main.cpp:116-124 | a run keeps the settings valid and draws at most once per event |
| `TimerProperties.InitialInv` | src/main.cpp:64-71 | the power-on state satisfies the invariant: Start with the relay off |
| `TimerProperties.ApplyKeepsInv` | src/main.cpp:215-301 | every event preserves: relay on only in Manual, Expose or Stop, and Stop remembers Manual or Expose |
| `TimerProperties.RunKeepsInv` | src/main.cpp:215-301 | the invariant is preserved over any run of events |
| `TimerProperties.ReachableInv` | src/main.cpp:215-301 | every state reachable from power-on has the relay on only in Manual, Expose or Stop |
| `TimerProperties.RelayOnInStopDialog` | src/main.cpp:238-242 | start menu, manual mode, then stop: the stop dialog is shown with the relay still on and Manual remembered |
| `TimerProperties.SecondsFollowReference` | src/main.cpp:127-131 | without clicks, a run adds at most one second per event, and the reference advances by exactly 1000 ms per second counted |
| `TimerProperties.IdleWhileRelayOff` | src/main.cpp:127-131 | without clicks, a relay that is off stays off and neither the counter nor its reference moves |
| `TimerProperties.DoneIsFinal` | src/main.cpp:161-167 | without clicks, ExposeDone with the relay off stays so and its elapsed time is frozen |
| `TimerProperties.CountdownEndsOnce` | src/main.cpp:161-167 | a redraw in Expose with last_time - secElapsed <= 0 enters ExposeDone with the relay off, and later passes change neither the state nor the counter |
| `TimerProperties.CountdownWaitsForRedraw` | src/main.cpp:139-167 | a pass in Expose that draws nothing keeps the exposure running and the relay as it was |
| `TimerProperties.QuietWindow` | src/main.cpp:134-142 | encoder moves and loop passes within 300 ms of the last redraw draw nothing and leave the redraw snapshot as it was |
| `TimerProperties.Coalesced` | src/main.cpp:134-142 | a burst of encoder moves within one redraw window, then one pass after it, is drawn exactly once, showing the final clamped position |
| `TimerProperties.SetTimeClampBound` | src/main.cpp:333-338 | after clamping in the time setting (min_time <= max_time), position*sec_inc lies in [0, max_time] |
| `TimerProperties.SetTimeWithinMax` | src/main.cpp:203-207 | a click in the time setting after clamping stores last_time = position*sec_inc <= max_time, opens the confirmation at position 1 |
| `TimerProperties.UnclampedSetTimeClick` | src/main.cpp:203-207 | with the defaults, a click at position 2000 (before clamping) stores 10000 > max_time, while clamping would have given 1999 |
| `TimerProperties.DefaultSetTimeRange` | src/main.cpp:333-335 | with the compiled-in settings, the time setting keeps the position within 0..1999 |
| `TimerProperties.ClampIdempotent` | src/main.cpp:316-338 | clamping twice equals clamping once, except for a negative position in the time setting with min_time > 0, which needs a second pass to reach min_time/sec_inc |
| `TimerProperties.TimedExposureWalk` | src/main.cpp:203-221 | start menu, Auto, time setting opening at 120, position 40 confirmed as 200 s at position 1, then the exposure starts with the counter at 0, oldTime = now and the relay on |
| `TimerProperties.DeclineStop` | src/main.cpp:267-271 | stop then decline returns to the session with everything unchanged except position 0 and the remembered state |
| `TimerProperties.ConfirmStop` | src/main.cpp:272-276 | stop then confirm turns the relay off and returns to Start at position 0 |
| `TimerProperties.ManualToggleWalk` | src/main.cpp:225-237 | manual mode starts with the relay on; index 0 turns it off (forcing a redraw), then on again with oldTime = now, counter unchanged |

## Left out

- Display rendering (`disp_*`, `draw_*`, `drawCentreString`, the `display` calls, the menu
  strings, `sw_version`) is not modelled. A redraw is the boolean that `Step` and `LoopStep`
  return.
- Encoder decoding and button debouncing (ESPRotary, Button2) are not modelled. The position is
  a field the caller writes (the `Turn` event), and a press is a call of `Click`.
- `setup()`, `Serial`, `pinMode` and display initialisation are left out. Their effect on the
  state (position 0, relay low) is in the initial value.
- `millis()` is a natural-number parameter. The 32-bit wrap-around of `unsigned long` is not
  modelled. The model reads the time once per loop pass, while the firmware calls `millis()`
  up to three times.
- `Timer.Press`, `Timer.Clamp`, `Timer.TimeLimited`: `position * sec_inc` is computed on unbounded
  integers. The C `int` overflow for positions beyond about 429 million is not modelled, neither in
  `click` (line 204) nor in `checkPosition` (lines 334 and 336). In `click`, the conversion of the
  product to `uint16_t` is modelled, as the remainder modulo 65536.
- Reading `RELAY_PIN` back with `digitalRead` is modelled as reading the last level written.
