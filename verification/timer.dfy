/**
 The menu and timer state machine of the UV-exposure / darkroom enlarger timer, as values.

 A `Snapshot` holds every global the firmware's `click`, `checkPosition` and `loop` read or
 write: the menu state, the state to return to from the stop dialog, the rotary encoder's
 position, the relay output, the whole-second counter and its time reference, the redraw
 snapshot (`oldState`, `oldPosition`, `oldMilli`) and the settings record.  The three
 functions `Clamp`, `Press` and `Step` give the state after one call of `checkPosition`,
 `click` and `loop`; the class in module Controller is proved to implement them.
 */
module Timer {

  datatype Option<T> = None | Some(value: T)

  /** The firmware's anonymous state enum, in declaration order. */
  datatype State =
    | Start | ExpoMenu | Manual | SetTime | SetTimeDone | Expose | ExposeDone
    | Pause | Stop | SettingsMenu | SetDefault | SetMin | SetMax | Info

  /** The integer value of each enumerator (S_START = 0 ... S_INFO = 13); `oldState` holds one of these, or -1. */
  function Code(st: State): (c: int)
    ensures 0 <= c <= 13
    ensures c == 0 <==> st == Start
  {
    match st
    case Start => 0
    case ExpoMenu => 1
    case Manual => 2
    case SetTime => 3
    case SetTimeDone => 4
    case Expose => 5
    case ExposeDone => 6
    case Pause => 7
    case Stop => 8
    case SettingsMenu => 9
    case SetDefault => 10
    case SetMin => 11
    case SetMax => 12
    case Info => 13
  }

  /** Distinct states have distinct codes, so the redraw gate's "state changed" test sees every change of state. */
  lemma CodeInjective(a: State, b: State)
    ensures Code(a) == Code(b) ==> a == b
  {
  }

  /** The `settings` struct; every field is a `uint16_t` counting seconds. */
  datatype Settings = Settings(defaultTime: nat, minTime: nat, maxTime: nat, lastTime: nat, secInc: nat)

  const U16: int := 0x1_0000

  /** The compiled-in defaults. */
  const DefaultSettings: Settings := Settings(600, 0, 9999, 600, 5)

  /** Every field fits a `uint16_t`, and the increment the code divides by is positive. */
  predicate ValidSettings(c: Settings) {
    c.defaultTime < U16 && c.minTime < U16 && c.maxTime < U16 &&
    c.lastTime < U16 && 0 < c.secInc < U16
  }

  /** All globals of the state machine. */
  datatype Snapshot = Snapshot(
    state: State,
    lastState: State,
    position: int,     // the encoder's position, read with getPosition and written with resetPosition
    relay: bool,       // the level written to RELAY_PIN
    secElapsed: nat,
    oldTime: nat,      // millis() reference of the whole-second counter
    oldState: int,     // Code of the state at the last redraw, -1 before the first one
    oldPosition: int,  // position at the last redraw, -1 to force the next one
    oldMilli: nat,     // millis() at the last redraw
    settings: Settings)

  /** The globals as their initialisers and `setup` leave them (the encoder reset to 0, the relay low). */
  const Initial: Snapshot := Snapshot(Start, Start, 0, false, 0, 0, -1, -1, 0, DefaultSettings)

  // Menu lengths of the three text menus.
  const StartMenuLen: int := 3
  const ExpoMenuLen: int := 3
  const SettingsMenuLen: int := 3

  /**
   The largest position `checkPosition` lets a state keep, for the states whose bound does not
   depend on the settings; None for SetTime (bounded by the settings) and for the states
   `checkPosition` leaves unbounded above.
   */
  function MenuLimit(st: State): (b: Option<int>)
    ensures b.Some? ==> 1 <= b.value <= 3
    ensures b.None? <==> st in {SetTime, ExposeDone, Pause, SetDefault, SetMin, SetMax}
  {
    match st
    case Start => Some(StartMenuLen - 1)
    case SettingsMenu => Some(SettingsMenuLen - 1)
    case ExpoMenu => Some(ExpoMenuLen - 1)
    case SetTimeDone | Expose | Manual | Stop => Some(1)
    case Info => Some(3)
    case _ => None
  }

  function Min(a: int, b: int): (m: int) { if a <= b then a else b }

  /**
   The time-setting part of `checkPosition` for a non-negative position: a position whose time
   (position * sec_inc) exceeds max_time moves to max_time / sec_inc, one whose time is below
   min_time moves to min_time / sec_inc, and one within [min_time, max_time] stays.
   */
  function TimeLimited(pos: nat, c: Settings): (p: nat)
    requires c.secInc > 0
    ensures c.minTime <= pos * c.secInc <= c.maxTime ==> p == pos
    ensures pos * c.secInc < c.minTime ==> p == c.minTime / c.secInc
    ensures c.maxTime < pos * c.secInc && c.minTime <= pos * c.secInc ==> p == c.maxTime / c.secInc
  {
    // both tests use the position read on entry, so the second one wins when both hold
    var p := if pos * c.secInc > c.maxTime then c.maxTime / c.secInc else pos;
    if pos * c.secInc < c.minTime then c.minTime / c.secInc else p
  }

  /**
   One call of `checkPosition`: a negative position is reset to 0 and nothing else is checked;
   otherwise a position above its state's limit is lowered to it, and in SetTime a position whose
   time (position * sec_inc) lies outside [min_time, max_time] is moved to the corresponding
   bound divided by sec_inc.  Nothing but the position changes.
   */
  function Clamp(s: Snapshot): (r: Snapshot)
    requires s.settings.secInc > 0
    ensures r == s.(position := r.position)
    ensures r.position >= 0
    ensures s.position < 0 ==> r.position == 0
    ensures s.position >= 0 && MenuLimit(s.state).Some? ==> r.position == Min(s.position, MenuLimit(s.state).value)
    ensures s.position >= 0 && MenuLimit(s.state).None? && s.state != SetTime ==> r == s
    ensures s.state == SetTime && s.position >= 0 ==> r.position == TimeLimited(s.position, s.settings)
  {
    var pos := s.position;
    var c := s.settings;
    if pos < 0 then s.(position := 0)
    else if s.state == Start && pos >= StartMenuLen then s.(position := StartMenuLen - 1)
    else if s.state == SettingsMenu && pos >= SettingsMenuLen then s.(position := SettingsMenuLen - 1)
    else if s.state == ExpoMenu && pos >= ExpoMenuLen then s.(position := ExpoMenuLen - 1)
    else if s.state == SetTime then s.(position := TimeLimited(pos, c))
    else if s.state == SetTimeDone && pos > 1 then s.(position := 1)
    else if s.state == Expose && pos > 1 then s.(position := 1)
    else if s.state == Manual && pos > 1 then s.(position := 1)
    else if s.state == Stop && pos > 1 then s.(position := 1)
    else if s.state == Info && pos > 3 then s.(position := 3)
    else s
  }

  /** A session (timed exposure or manual mode) has just begun at `now`. */
  predicate SessionStarted(r: Snapshot, now: nat) {
    r.secElapsed == 0 && r.oldTime == now && r.relay && r.position == 0
  }

  /**
   One call of `click`, the button handler, at time `now`: the activation table of the menu.
   The position it reads may lie outside the state's limits, since the button is polled before
   `checkPosition` runs in the same loop iteration.
   */
  function Press(s: Snapshot, now: nat): (r: Snapshot)
    requires s.settings.secInc > 0
    // a click never touches the redraw time or redraw state, nor any setting but last_time
    ensures r.oldMilli == s.oldMilli && r.oldState == s.oldState
    ensures r.settings == s.settings.(lastTime := r.settings.lastTime)
    ensures s.state != SetTime ==> r.settings == s.settings
    ensures ValidSettings(s.settings) ==> ValidSettings(r.settings)
    // states without a branch in the handler
    ensures s.state in {Pause, SettingsMenu, SetDefault, SetMin, SetMax} ==> r == s
    // Start: the menu choice, and the position is always reset to 0
    ensures s.state == Start ==>
      r == s.(state := r.state, position := 0) &&
      r.state == (if s.position == 0 then ExpoMenu else if s.position == 1 then SettingsMenu
                  else if s.position == 2 then Info else Start)
    // Info and ExposeDone: back to Start at position 0
    ensures s.state in {Info, ExposeDone} ==> r == s.(state := Start, position := 0)
    // SetTime: the chosen time is stored (as a uint16_t) and the confirmation opens on its second icon
    ensures s.state == SetTime ==>
      r == s.(state := SetTimeDone, position := 1, settings := r.settings) &&
      r.settings.lastTime == (s.position * s.settings.secInc) % U16 &&
      (0 <= s.position * s.settings.secInc < U16 ==> r.settings.lastTime == s.position * s.settings.secInc)
    // SetTimeDone: back to the exposure menu on its third item, or start the timed exposure
    ensures s.state == SetTimeDone && s.position == 0 ==> r == s.(state := ExpoMenu, position := 2)
    ensures s.state == SetTimeDone && s.position == 1 ==>
      r.state == Expose && SessionStarted(r, now) &&
      r == s.(state := Expose, secElapsed := 0, oldTime := now, relay := true, position := 0)
    // ExposeMenu: set the time (preset to the default), start manual mode, or go back
    ensures s.state == ExpoMenu && s.position == 0 ==>
      r == s.(state := SetTime, position := s.settings.defaultTime / s.settings.secInc)
    ensures s.state == ExpoMenu && s.position == 1 ==>
      r.state == Manual && SessionStarted(r, now) &&
      r == s.(state := Manual, secElapsed := 0, oldTime := now, relay := true, position := 0)
    ensures s.state == ExpoMenu && s.position == 2 ==> r == s.(state := Start, position := 0)
    // Manual and Expose: index 0 toggles the relay and forces a redraw; index 1 asks to stop
    ensures s.state in {Manual, Expose} && s.position == 0 ==>
      r.relay == !s.relay && r.oldPosition == -1 &&
      r.oldTime == (if r.relay then now else s.oldTime) &&
      r == s.(relay := r.relay, oldPosition := -1, oldTime := r.oldTime)
    ensures s.state in {Manual, Expose} && s.position == 1 ==>
      r == s.(lastState := s.state, state := Stop, position := 0)
    // Stop: index 0 declines (back to the remembered state), index 1 confirms (relay off, Start)
    ensures s.state == Stop && s.position == 0 ==> r == s.(state := s.lastState)
    ensures s.state == Stop && s.position == 1 ==> r == s.(relay := false, state := Start, position := 0)
    // positions the table has no entry for change nothing
    ensures s.state in {SetTimeDone, Manual, Expose, Stop} && s.position !in {0, 1} ==> r == s
    ensures s.state == ExpoMenu && s.position !in {0, 1, 2} ==> r == s
  {
    var pos := s.position;
    match s.state
    case Start =>
      var next := if pos == 0 then ExpoMenu else if pos == 1 then SettingsMenu else if pos == 2 then Info else Start;
      s.(state := next, position := 0)
    case SetTime =>
      s.(settings := s.settings.(lastTime := (pos * s.settings.secInc) % U16), position := 1, state := SetTimeDone)
    case SetTimeDone =>
      if pos == 0 then s.(state := ExpoMenu, position := 2)
      else if pos == 1 then s.(secElapsed := 0, oldTime := now, relay := true, position := 0, state := Expose)
      else s
    case Manual | Expose =>
      if pos == 0 then
        if !s.relay then s.(oldTime := now, oldPosition := -1, relay := true)
        else s.(oldPosition := -1, relay := false)
      else if pos == 1 then s.(position := 0, lastState := s.state, state := Stop)
      else s
    case Stop =>
      if pos == 0 then s.(state := s.lastState)
      else if pos == 1 then s.(position := 0, relay := false, state := Start)
      else s
    case Info | ExposeDone =>
      s.(position := 0, state := Start)
    case ExpoMenu =>
      if pos == 0 then s.(position := s.settings.defaultTime / s.settings.secInc, state := SetTime)
      else if pos == 1 then s.(position := 0, secElapsed := 0, oldTime := now, relay := true, state := Manual)
      else if pos == 2 then s.(position := 0, state := Start)
      else s
    case Pause | SettingsMenu | SetDefault | SetMin | SetMax =>
      s
  }

  /** A whole second has passed on the counter's reference while the relay is energised. */
  predicate SecondDue(s: Snapshot, now: nat) {
    s.relay && s.oldTime + 1000 <= now
  }

  /** The redraw gate: more than 300 ms since the last redraw, and the position, the state or the second counter moved. */
  predicate RedrawDue(s: Snapshot, now: nat, tick: bool)
    // the interval alone never triggers a redraw, and nothing is drawn within 300 ms of the last one
    ensures !tick && s.oldPosition == s.position && s.oldState == Code(s.state) ==> !RedrawDue(s, now, tick)
    ensures RedrawDue(s, now, tick) ==> now - s.oldMilli > 300
  {
    s.oldMilli + 300 < now && (s.oldPosition != s.position || s.oldState != Code(s.state) || tick)
  }

  /** The countdown test of the exposure screen: no time is left. */
  predicate CountdownOver(s: Snapshot) {
    s.settings.lastTime - s.secElapsed <= 0
  }

  /**
   One pass of `loop` at time `now`, after the encoder and button have been polled: clamp the
   position, count a second, and when the redraw gate opens take the redraw snapshot and, on the
   exposure screen, end the exposure once no time is left.  The second component says whether a
   screen was drawn.
   */
  function Step(s: Snapshot, now: nat): (out: (Snapshot, bool))
    requires s.settings.secInc > 0
    // the counter moves by at most one second per pass, only while the relay is on, and its
    // reference moves with it by exactly 1000 ms
    ensures var r := out.0;
      (r.secElapsed == s.secElapsed && r.oldTime == s.oldTime) ||
      (SecondDue(s, now) && r.secElapsed == s.secElapsed + 1 && r.oldTime == s.oldTime + 1000)
    // the pass never turns the relay on, and changes the state only by ending an exposure
    ensures out.0.relay ==> s.relay
    ensures out.0.state == s.state ==> out.0.relay == s.relay
    // a due second is always counted
    ensures SecondDue(s, now) ==> out.0.secElapsed == s.secElapsed + 1 && out.0.oldTime == s.oldTime + 1000
    ensures out.0.state != s.state ==>
      s.state == Expose && out.0.state == ExposeDone && !out.0.relay && out.1 && CountdownOver(out.0)
    // a redraw in Expose with no time left ends the exposure
    ensures s.state == Expose && out.1 && CountdownOver(out.0) ==> out.0.state == ExposeDone && !out.0.relay
    // the redraw happens exactly when the gate is open after clamping and counting
    ensures out.1 <==>
      s.oldMilli + 300 < now &&
      (s.oldPosition != Clamp(s).position || s.oldState != Code(s.state) || SecondDue(s, now))
    ensures out.1 ==> out.0.oldMilli == now && out.0.oldPosition == out.0.position && out.0.oldState == Code(s.state)
    ensures !out.1 ==> out.0.oldMilli == s.oldMilli && out.0.oldPosition == s.oldPosition && out.0.oldState == s.oldState
    // nothing else changes: the position is the clamped one, the settings and the remembered state stay
    ensures out.0.position == Clamp(s).position && out.0.settings == s.settings && out.0.lastState == s.lastState
  {
    var c := Clamp(s);
    var tick := SecondDue(c, now);
    var t := if tick then c.(secElapsed := c.secElapsed + 1, oldTime := c.oldTime + 1000) else c;
    if RedrawDue(t, now, tick) then
      var d := t.(oldState := Code(t.state), oldMilli := now, oldPosition := t.position);
      if d.state == Expose && CountdownOver(d) then (d.(state := ExposeDone, relay := false), true)
      else (d, true)
    else (t, false)
  }
}
