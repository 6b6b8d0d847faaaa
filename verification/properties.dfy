/**
 Properties of the enlarger timer over many calls: the invariant every reachable state keeps,
 the behaviour of the second counter and of the countdown over a run of loop passes, redraw
 coalescing, the time-setting bounds, and the walk-throughs of the menu.

 A run is a sequence of input events applied in order: the encoder moved to a new position, a
 button press, or one pass of the main loop; `Run` also counts the screens drawn.
 */
module TimerProperties {
  import opened Timer

  datatype Event = Turn(pos: int) | Click(at: nat) | Loop(at: nat)

  /** One event; the flag says whether a screen was drawn. */
  function Apply(s: Snapshot, e: Event): (out: (Snapshot, bool))
    requires ValidSettings(s.settings)
    ensures ValidSettings(out.0.settings)
    ensures out.1 ==> e.Loop?
  {
    match e
    case Turn(p) => (s.(position := p), false)
    case Click(t) => (Press(s, t), false)
    case Loop(t) => Step(s, t)
  }

  /** The state after a run of events, and the number of screens drawn on the way. */
  function Run(s: Snapshot, evs: seq<Event>): (out: (Snapshot, nat))
    requires ValidSettings(s.settings)
    ensures ValidSettings(out.0.settings)
    ensures out.1 <= |evs|
    decreases |evs|
  {
    if evs == [] then (s, 0)
    else
      var first := Apply(s, evs[0]);
      var rest := Run(first.0, evs[1..]);
      (rest.0, rest.1 + if first.1 then 1 else 0)
  }

  predicate NoClicks(evs: seq<Event>) {
    forall i :: 0 <= i < |evs| ==> !evs[i].Click?
  }

  /** Running two runs one after the other is running their concatenation. */
  lemma {:induction false} RunAppend(s: Snapshot, a: seq<Event>, b: seq<Event>)
    requires ValidSettings(s.settings)
    ensures Run(s, a + b).0 == Run(Run(s, a).0, b).0
    ensures Run(s, a + b).1 == Run(s, a).1 + Run(Run(s, a).0, b).1
    decreases |a|
  {
    if a == [] {
      assert a + b == b;
    } else {
      assert (a + b)[0] == a[0];
      assert (a + b)[1..] == a[1..] + b;
      RunAppend(Apply(s, a[0]).0, a[1..], b);
    }
  }

  // ---------------------------------------------------------------------------------------------
  // The invariant of the reachable states

  /**
   The relay can be on only in Manual, Expose, or the stop dialog entered from one of them, and
   the stop dialog always remembers Manual or Expose.
   */
  predicate Inv(s: Snapshot) {
    ValidSettings(s.settings) &&
    (s.relay ==> s.state in {Manual, Expose, Stop}) &&
    (s.state == Stop ==> s.lastState in {Manual, Expose})
  }

  lemma InitialInv()
    ensures Inv(Initial)
    ensures Initial.state == Start && !Initial.relay
  {
  }

  lemma ApplyKeepsInv(s: Snapshot, e: Event)
    requires Inv(s)
    ensures Inv(Apply(s, e).0)
  {
  }

  lemma {:induction false} RunKeepsInv(s: Snapshot, evs: seq<Event>)
    requires Inv(s)
    ensures Inv(Run(s, evs).0)
    decreases |evs|
  {
    if evs != [] {
      ApplyKeepsInv(s, evs[0]);
      RunKeepsInv(Apply(s, evs[0]).0, evs[1..]);
    }
  }

  /** Every state reachable from power-on satisfies the invariant. */
  lemma ReachableInv(evs: seq<Event>)
    ensures Inv(Run(Initial, evs).0)
    ensures Run(Initial, evs).0.relay ==> Run(Initial, evs).0.state in {Manual, Expose, Stop}
  {
    InitialInv();
    RunKeepsInv(Initial, evs);
  }

  /**
   The relay is not confined to Manual and Expose: asking to stop manual mode leaves it on while
   the stop dialog is shown.
   */
  lemma RelayOnInStopDialog()
    ensures var r := Run(Initial, [Click(0), Turn(1), Click(10), Turn(1), Click(20)]).0;
      r.state == Stop && r.relay && r.lastState == Manual
  {
  }

  // ---------------------------------------------------------------------------------------------
  // The second counter and the countdown over loop passes

  /**
   Without clicks, each event adds at most one second, and the counter's reference moves by
   exactly 1000 ms for every second counted.
   */
  lemma {:induction false} SecondsFollowReference(s: Snapshot, evs: seq<Event>)
    requires ValidSettings(s.settings) && NoClicks(evs)
    ensures var r := Run(s, evs).0;
      s.secElapsed <= r.secElapsed <= s.secElapsed + |evs| &&
      r.oldTime == s.oldTime + 1000 * (r.secElapsed - s.secElapsed)
    decreases |evs|
  {
    if evs != [] {
      var t := Apply(s, evs[0]).0;
      SecondsFollowReference(t, evs[1..]);
    }
  }

  /** Without clicks, a relay that is off stays off and the counter and its reference stand still. */
  lemma {:induction false} IdleWhileRelayOff(s: Snapshot, evs: seq<Event>)
    requires ValidSettings(s.settings) && NoClicks(evs) && !s.relay
    ensures var r := Run(s, evs).0;
      !r.relay && r.secElapsed == s.secElapsed && r.oldTime == s.oldTime
    decreases |evs|
  {
    if evs != [] {
      IdleWhileRelayOff(Apply(s, evs[0]).0, evs[1..]);
    }
  }

  /** Without clicks, the exposure-done screen is kept and its elapsed time is frozen. */
  lemma {:induction false} DoneIsFinal(s: Snapshot, evs: seq<Event>)
    requires ValidSettings(s.settings) && NoClicks(evs) && s.state == ExposeDone && !s.relay
    ensures var r := Run(s, evs).0;
      r.state == ExposeDone && !r.relay && r.secElapsed == s.secElapsed
    decreases |evs|
  {
    if evs != [] {
      DoneIsFinal(Apply(s, evs[0]).0, evs[1..]);
    }
  }

  /**
   A redraw of the exposure screen with no time left ends the exposure once: the relay goes off,
   and no later loop pass or encoder movement changes the state or the elapsed time.
   */
  lemma CountdownEndsOnce(s: Snapshot, now: nat, evs: seq<Event>)
    requires ValidSettings(s.settings) && NoClicks(evs)
    requires s.state == Expose && Step(s, now).1 && CountdownOver(Step(s, now).0)
    ensures var d := Step(s, now).0;
      d.state == ExposeDone && !d.relay &&
      Run(d, evs).0.state == ExposeDone && !Run(d, evs).0.relay &&
      Run(d, evs).0.secElapsed == d.secElapsed
  {
    DoneIsFinal(Step(s, now).0, evs);
  }

  /**
   The countdown is only checked when the exposure screen is redrawn: a pass that draws nothing
   leaves the exposure running, however little time is left.
   */
  lemma CountdownWaitsForRedraw(s: Snapshot, now: nat)
    requires ValidSettings(s.settings) && s.state == Expose && !Step(s, now).1
    ensures Step(s, now).0.state == Expose && Step(s, now).0.relay == s.relay
  {
  }

  // ---------------------------------------------------------------------------------------------
  // Redraw coalescing

  /** Every loop pass of the run happens within 300 ms of the last redraw at `since`. */
  predicate WithinWindow(evs: seq<Event>, since: nat) {
    forall i :: 0 <= i < |evs| && evs[i].Loop? ==> evs[i].at <= since + 300
  }

  /**
   Encoder movements and loop passes within 300 ms of the last redraw draw nothing and leave the
   redraw snapshot as it was.
   */
  lemma {:induction false} QuietWindow(s: Snapshot, evs: seq<Event>)
    requires ValidSettings(s.settings) && NoClicks(evs) && WithinWindow(evs, s.oldMilli)
    ensures var r := Run(s, evs);
      r.1 == 0 && r.0.oldMilli == s.oldMilli && r.0.oldPosition == s.oldPosition &&
      r.0.oldState == s.oldState && r.0.state == s.state
    decreases |evs|
  {
    if evs != [] {
      assert evs[0].Loop? ==> evs[0].at <= s.oldMilli + 300;
      var t := Apply(s, evs[0]).0;
      assert WithinWindow(evs[1..], t.oldMilli) by {
        forall i | 0 <= i < |evs[1..]| && evs[1..][i].Loop?
          ensures evs[1..][i].at <= t.oldMilli + 300
        {
          assert evs[1..][i] == evs[i + 1];
        }
      }
      QuietWindow(t, evs[1..]);
    }
  }

  /**
   A burst of encoder movements inside one redraw window, followed by a loop pass after the
   window, is drawn exactly once, and the drawn position is the final (clamped) one.
   */
  lemma Coalesced(s: Snapshot, evs: seq<Event>, now: nat)
    requires ValidSettings(s.settings) && NoClicks(evs) && WithinWindow(evs, s.oldMilli)
    requires s.oldMilli + 300 < now
    requires Clamp(Run(s, evs).0).position != s.oldPosition
    ensures Run(s, evs + [Loop(now)]).1 == 1
    ensures Run(s, evs + [Loop(now)]).0.oldPosition == Clamp(Run(s, evs).0).position
  {
    QuietWindow(s, evs);
    RunAppend(s, evs, [Loop(now)]);
    var r := Run(s, evs).0;
    assert Run(r, [Loop(now)]) == (Step(r, now).0, if Step(r, now).1 then 1 else 0);
  }

  // ---------------------------------------------------------------------------------------------
  // Position limits and the time setting

  /** In the time setting, a clamped position stands for a time no larger than max_time. */
  lemma SetTimeClampBound(s: Snapshot)
    requires ValidSettings(s.settings) && s.state == SetTime
    requires s.settings.minTime <= s.settings.maxTime
    ensures 0 <= Clamp(s).position * s.settings.secInc <= s.settings.maxTime
  {
    var c := s.settings;
    if s.position >= 0 {
      if s.position * c.secInc < c.minTime {
        DivMulBound(c.minTime, c.secInc);
      } else if c.maxTime < s.position * c.secInc {
        DivMulBound(c.maxTime, c.secInc);
      }
    }
  }

  lemma DivMulBound(m: nat, k: nat)
    requires k > 0
    ensures (m / k) * k <= m
  {
  }

  /**
   Clicking in the time setting after the position has been clamped stores a time that is a
   multiple of sec_inc and no larger than max_time.
   */
  lemma SetTimeWithinMax(s: Snapshot, now: nat)
    requires ValidSettings(s.settings) && s.state == SetTime
    requires s.settings.minTime <= s.settings.maxTime
    ensures var r := Press(Clamp(s), now);
      r.state == SetTimeDone && r.position == 1 &&
      r.settings.lastTime == Clamp(s).position * s.settings.secInc &&
      r.settings.lastTime <= s.settings.maxTime
  {
    SetTimeClampBound(s);
  }

  /**
   The button is polled before the position is clamped in the same loop pass, so a click can
   store a time above max_time: one detent past 1999 gives 10000 s with the compiled-in settings.
   */
  lemma UnclampedSetTimeClick(s: Snapshot, now: nat)
    requires s.settings == DefaultSettings && s.state == SetTime && s.position == 2000
    ensures Press(s, now).settings.lastTime == 10000 > s.settings.maxTime
    ensures Clamp(s).position == 1999
  {
  }

  /** With the compiled-in settings, the time setting keeps the position within 0..1999. */
  lemma DefaultSetTimeRange(s: Snapshot)
    requires s.settings == DefaultSettings && s.state == SetTime
    ensures 0 <= Clamp(s).position <= 1999
  {
    SetTimeClampBound(s);
  }

  /**
   Clamping twice is clamping once, for settings with min_time <= max_time, except for a negative
   position in the time setting with min_time > 0: the first pass only resets it to 0, and the
   second moves it up to min_time / sec_inc.
   */
  lemma ClampIdempotent(s: Snapshot)
    requires ValidSettings(s.settings) && s.settings.minTime <= s.settings.maxTime
    ensures s.position >= 0 || s.state != SetTime || s.settings.minTime == 0 ==> Clamp(Clamp(s)) == Clamp(s)
    ensures s.position < 0 && s.state == SetTime && s.settings.minTime > 0 ==>
      Clamp(s).position == 0 && Clamp(Clamp(s)).position == s.settings.minTime / s.settings.secInc
  {
    var c := s.settings;
    if s.state == SetTime && s.position >= 0 {
      var p := Clamp(s).position;
      if s.position * c.secInc < c.minTime {
        DivMulBound(c.minTime, c.secInc);
      } else if s.position * c.secInc > c.maxTime {
        DivMulBound(c.maxTime, c.secInc);
        if p * c.secInc < c.minTime {
          SameQuotient(c.minTime, c.maxTime, c.secInc);
        }
      }
    }
  }

  /** A multiple of k that is at most m is at most k times m's quotient. */
  lemma BelowQuotient(q: nat, m: nat, k: nat)
    requires k > 0 && q * k <= m
    ensures q <= m / k
  {
    var d := m / k;
    assert m < (d + 1) * k;
    if q >= d + 1 {
      MulMonotone(d + 1, q, k);
    }
  }

  lemma MulMonotone(a: nat, b: nat, k: nat)
    requires a <= b
    ensures a * k <= b * k
  {
  }

  /** When n's quotient times k already lies below m <= n, m and n have the same quotient. */
  lemma SameQuotient(m: nat, n: nat, k: nat)
    requires k > 0 && m <= n && (n / k) * k < m
    ensures n / k == m / k
  {
    BelowQuotient(n / k, m, k);
    BelowQuotient((m / k), n, k) by {
      DivMulBound(m, k);
    }
  }

  // ---------------------------------------------------------------------------------------------
  // Walks through the menu

  /**
   Setting an exposure of 40 steps (200 s with the default 5 s increment) and starting it: the
   time setting opens at default_time / sec_inc = 120, the confirmation shows 200 s on its second
   icon, and the exposure starts with the counter at 0 and the relay on.
   */
  lemma TimedExposureWalk(t0: nat, t1: nat, t2: nat, t3: nat)
    ensures var s1 := Press(Initial, t0);
      s1.state == ExpoMenu && s1.position == 0
    ensures var s2 := Press(Press(Initial, t0), t1);
      s2.state == SetTime && s2.position == 120
    ensures var s3 := Press(Press(Press(Initial, t0), t1).(position := 40), t2);
      s3.state == SetTimeDone && s3.position == 1 && s3.settings.lastTime == 200
    ensures var s4 := Press(Press(Press(Press(Initial, t0), t1).(position := 40), t2), t3);
      s4.state == Expose && s4.secElapsed == 0 && s4.relay && s4.oldTime == t3
  {
  }

  /**
   Asking to stop and declining returns to the session with the relay, the counter and its
   reference untouched; the position, however, is left at 0.
   */
  lemma DeclineStop(s: Snapshot, t1: nat, t2: nat)
    requires ValidSettings(s.settings) && s.state in {Manual, Expose} && s.position == 1
    ensures Press(s, t1).state == Stop && Press(s, t1).lastState == s.state
    ensures Press(Press(s, t1), t2) == s.(position := 0, lastState := s.state)
  {
  }

  /** Asking to stop and confirming turns the relay off and returns to the start menu. */
  lemma ConfirmStop(s: Snapshot, t1: nat, t2: nat)
    requires ValidSettings(s.settings) && s.state in {Manual, Expose} && s.position == 1
    ensures var r := Press(Press(s, t1).(position := 1), t2);
      r.state == Start && !r.relay && r.position == 0 && r.secElapsed == s.secElapsed
  {
  }

  /** Manual mode: the first click on the play/pause icon after starting turns the relay off, the next one on again. */
  lemma ManualToggleWalk(t0: nat, t1: nat, t2: nat, t3: nat)
    ensures var m := Press(Press(Initial, t0).(position := 1), t1);
      m.state == Manual && m.relay && m.secElapsed == 0
    ensures var off := Press(Press(Press(Initial, t0).(position := 1), t1), t2);
      off.state == Manual && !off.relay && off.oldPosition == -1
    ensures var on := Press(Press(Press(Press(Initial, t0).(position := 1), t1), t2), t3);
      on.state == Manual && on.relay && on.oldTime == t3 && on.secElapsed == 0
  {
  }
}
