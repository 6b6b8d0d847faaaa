/**
 The firmware's globals as one object, and its three handlers as methods that update them in
 place.  `View` reads the fields back as a `Timer.Snapshot`, and each method is proved to leave
 exactly the state the corresponding function of module Timer describes.
 */
module Controller {
  import opened Timer

  class EnlargerTimer {
    var state: State
    var lastState: State
    var position: int       // the rotary encoder's position
    var relay: bool         // RELAY_PIN
    var secElapsed: nat
    var oldTime: nat
    var oldState: int
    var oldPosition: int
    var oldMilli: nat
    var settings: Settings

    function View(): (v: Snapshot)
      reads this
    {
      Snapshot(state, lastState, position, relay, secElapsed, oldTime, oldState, oldPosition, oldMilli, settings)
    }

    /** The settings keep their `uint16_t` ranges and a positive increment. */
    predicate Valid()
      reads this
    {
      ValidSettings(settings)
    }

    /** The globals' initial values, with the encoder reset to 0 and the relay low as `setup` leaves them. */
    constructor ()
      ensures Valid() && View() == Initial
    {
      state, lastState := Start, Start;
      position := 0;
      relay := false;
      secElapsed, oldTime := 0, 0;
      oldState, oldPosition, oldMilli := -1, -1, 0;
      settings := DefaultSettings;
    }

    /** The button handler `click`, called when a press is detected at time `now`. */
    method Click(now: nat)
      requires Valid()
      modifies this
      ensures Valid()
      ensures View() == Press(old(View()), now)
    {
      if state == Start {
        var pos := position;
        if pos == 0 {
          state := ExpoMenu;
        } else if pos == 1 {
          state := SettingsMenu;
        } else if pos == 2 {
          state := Info;
        }
        position := 0;
      } else if state == SetTime {
        settings := settings.(lastTime := (position * settings.secInc) % U16);
        position := 1;
        state := SetTimeDone;
      } else if state == SetTimeDone {
        var pos := position;
        if pos == 0 {
          state := ExpoMenu;
          position := 2;
        } else if pos == 1 {
          secElapsed := 0;
          oldTime := now;
          relay := true;
          position := 0;
          state := Expose;
        }
      } else if state == Manual || state == Expose {
        // the C handler's S_MANUAL and S_EXPOSE branches are identical
        var pos := position;
        if pos == 0 {
          if !relay {
            oldTime := now;
            oldPosition := -1;
            relay := true;
          } else {
            oldPosition := -1;
            relay := false;
          }
        } else if pos == 1 {
          position := 0;
          lastState := state;
          state := Stop;
        }
      } else if state == Stop {
        var pos := position;
        if pos == 0 {
          state := lastState;
        } else if pos == 1 {
          position := 0;
          relay := false;
          state := Start;
        }
      } else if state == Info {
        position := 0;
        state := Start;
      } else if state == ExposeDone {
        position := 0;
        state := Start;
      } else if state == ExpoMenu {
        var pos := position;
        if pos == 0 {
          position := settings.defaultTime / settings.secInc;
          state := SetTime;
        } else if pos == 1 {
          position := 0;
          secElapsed := 0;
          oldTime := now;
          relay := true;
          state := Manual;
        } else if pos == 2 {
          position := 0;
          state := Start;
        }
      }
    }

    /** `checkPosition`: keep the encoder position within the current state's limits. */
    method CheckPosition()
      requires Valid()
      modifies this
      ensures Valid()
      ensures View() == Clamp(old(View()))
    {
      var pos := position;
      if pos < 0 {
        position := 0;
        return;
      }
      if state == Start && pos >= StartMenuLen {
        position := StartMenuLen - 1;
      } else if state == SettingsMenu && pos >= SettingsMenuLen {
        position := SettingsMenuLen - 1;
      } else if state == ExpoMenu && pos >= ExpoMenuLen {
        position := ExpoMenuLen - 1;
      } else if state == SetTime {
        if pos * settings.secInc > settings.maxTime {
          position := settings.maxTime / settings.secInc;
        }
        if pos * settings.secInc < settings.minTime {
          position := settings.minTime / settings.secInc;
        }
      } else if state == SetTimeDone && pos > 1 {
        position := 1;
      } else if state == Expose && pos > 1 {
        position := 1;
      } else if state == Manual && pos > 1 {
        position := 1;
      } else if state == Stop && pos > 1 {
        position := 1;
      } else if state == Info && pos > 3 {
        position := 3;
      }
    }

    /**
     One pass of `loop` at time `now`, after the encoder and the button have been polled (the
     caller sets `position` and calls `Click`).  Returns whether a screen was drawn.
     */
    method LoopStep(now: nat) returns (rendered: bool)
      requires Valid()
      modifies this
      ensures Valid()
      ensures View() == Step(old(View()), now).0
      ensures rendered == Step(old(View()), now).1
    {
      var tick := false;
      CheckPosition();

      // count seconds
      if relay && oldTime + 1000 <= now {
        secElapsed := secElapsed + 1;
        oldTime := oldTime + 1000;
        tick := true;
      }

      // redraw when something changed and the last redraw is old enough
      var timePassed := oldMilli + 300 < now;
      var newPos := oldPosition != position;
      var newState := oldState != Code(state);
      rendered := timePassed && (newPos || newState || tick);
      if rendered {
        oldState := Code(state);
        oldMilli := now;
        oldPosition := position;
        if state == Expose && settings.lastTime - secElapsed <= 0 {
          state := ExposeDone;
          relay := false;
        }
      }
    }
  }
}
