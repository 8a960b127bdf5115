/**
 * The firmware's state as a value, and what the loop body and the button
 * callback do to it: the specification the Board class is proved against.
 */
module Control {
  import opened CArith
  import opened Joystick

  // GPIO numbers of the three buttons.
  const JOYSTICK_BTN: u32 := 22
  const BUTTON_A: u32 := 5
  const BUTTON_B: u32 := 6

  /** Edges closer than this to the last accepted one are ignored. */
  const DEBOUNCE_MS: int := 50

  /** Green level while the indicator is on (half of the PWM range). */
  const GREEN_ON: u16 := 2047

  /** Top of the PWM counter the LED outputs are set up with. */
  const PWM_WRAP: int := 4095

  /**
   * Everything the loop and the callback read or write: the cursor, the mode
   * globals, the callback's static indicator state, the three LED levels last
   * written, and whether control has passed to the bootloader.
   */
  datatype State = State(
    cursor: Point,
    pwmEnabled: bool,
    borderStyle: int,
    lastInterruptTime: u32,
    greenLedState: bool,
    red: u16,
    green: u16,
    blue: u16,
    halted: bool)

  /** The state when the loop is first entered: the initialisers and every LED set to 0. */
  const INIT: State := State(START, true, 1, 0, false, 0, 0, 0, false)

  /** The green level for an indicator state. */
  function GreenLevel(on: bool): (level: u16)
    ensures on <==> level == GREEN_ON
    ensures !on <==> level == 0
  {
    if on then GREEN_ON else 0
  }

  /** The other border style. */
  function FlipBorder(style: int): (r: int)
    ensures r == 1 || r == 2
    ensures (style == 1 || style == 2) ==> r != style
  {
    if style == 1 then 2 else 1
  }

  /** What holds of every reachable state. */
  predicate Inv(s: State) {
    && InBounds(s.cursor)
    && (s.borderStyle == 1 || s.borderStyle == 2)
    && s.green == GreenLevel(s.greenLedState)
  }

  /** The debounce gate turns this edge away. */
  predicate Bounced(s: State, now: u32) {
    U32Sub(now, s.lastInterruptTime) < DEBOUNCE_MS
  }

  /**
   * One pass of the foreground loop on samples rawX, rawY: the cursor moves
   * and is clamped, and while PWM is enabled red and blue take the Y and X
   * deflections (as uint16_t); nothing else changes.
   */
  function StepSpec(s: State, rawX: u16, rawY: u16): (t: State)
    requires !s.halted
    ensures InBounds(t.cursor) && OnSurface(ScreenRect(t.cursor))
    ensures t.cursor == NextCursor(s.cursor, rawX, rawY)
    ensures s.pwmEnabled ==> t.red == ToU16(rawY - CENTER_Y) && t.blue == ToU16(rawX - CENTER_X)
    ensures !s.pwmEnabled ==> t.red == s.red && t.blue == s.blue
    ensures t.(cursor := s.cursor, red := s.red, blue := s.blue) == s
  {
    var adjustedX, adjustedY := Deflection(rawX, CENTER_X), Deflection(rawY, CENTER_Y);
    s.(cursor := NextCursor(s.cursor, rawX, rawY),
       red := if s.pwmEnabled then ToU16(adjustedY) else s.red,
       blue := if s.pwmEnabled then ToU16(adjustedX) else s.blue)
  }

  /**
   * A falling edge on gpio at time now: rejected edges change nothing; an
   * accepted one records now and then acts by source.
   */
  function ButtonSpec(s: State, gpio: u32, now: u32): (t: State)
    requires !s.halted
    ensures Bounced(s, now) ==> t == s
    ensures !Bounced(s, now) ==> t.lastInterruptTime == now
    ensures t.cursor == s.cursor && t.red == s.red && t.blue == s.blue
  {
    if Bounced(s, now) then s
    else
      var s1 := s.(lastInterruptTime := now);
      if gpio == JOYSTICK_BTN then
        var on := !s.greenLedState;
        s1.(greenLedState := on, green := GreenLevel(on), borderStyle := FlipBorder(s.borderStyle))
      else if gpio == BUTTON_A then
        s1.(pwmEnabled := !s.pwmEnabled)
      else if gpio == BUTTON_B then
        s1.(halted := true)
      else
        s1
  }

  // What each accepted event does, one source at a time.

  /** The joystick button toggles the indicator, sets its level to match and flips the border style. */
  lemma JoystickButtonEvent(s: State, now: u32)
    requires !s.halted && !Bounced(s, now)
    ensures var t := ButtonSpec(s, JOYSTICK_BTN, now);
      && t.greenLedState == !s.greenLedState
      && t.green == (if t.greenLedState then 2047 else 0)
      && t.borderStyle == (if s.borderStyle == 1 then 2 else 1)
      && t == s.(lastInterruptTime := now, greenLedState := t.greenLedState, green := t.green, borderStyle := t.borderStyle)
  {
  }

  /** Button A toggles only whether the outputs follow the stick. */
  lemma ButtonAEvent(s: State, now: u32)
    requires !s.halted && !Bounced(s, now)
    ensures ButtonSpec(s, BUTTON_A, now) == s.(lastInterruptTime := now, pwmEnabled := !s.pwmEnabled)
  {
  }

  /** Button B hands control to the bootloader. */
  lemma ButtonBEvent(s: State, now: u32)
    requires !s.halted && !Bounced(s, now)
    ensures ButtonSpec(s, BUTTON_B, now) == s.(lastInterruptTime := now, halted := true)
  {
  }

  /** Any other pin passes the gate, stamping the time, and does nothing more. */
  lemma OtherGpioEvent(s: State, gpio: u32, now: u32)
    requires !s.halted && !Bounced(s, now)
    requires gpio != JOYSTICK_BTN && gpio != BUTTON_A && gpio != BUTTON_B
    ensures ButtonSpec(s, gpio, now) == s.(lastInterruptTime := now)
  {
  }

  // The debounce gate.

  /** Two accepted edges in a row are at least DEBOUNCE_MS apart on the wrapping millisecond clock. */
  lemma AcceptedEdgesSpaced(s: State, g1: u32, t1: u32, t2: u32)
    requires !s.halted && !Bounced(s, t1)
    requires !Bounced(ButtonSpec(s, g1, t1), t2)
    ensures U32Sub(t2, t1) >= DEBOUNCE_MS
    ensures t1 <= t2 ==> t2 - t1 >= DEBOUNCE_MS
  {
  }

  /**
   * The gate is shared by all three buttons: after an accepted edge, any edge
   * from any source within the window is dropped.
   */
  lemma SharedGateSuppresses(s: State, g1: u32, t1: u32, g2: u32, t2: u32)
    requires !s.halted && !Bounced(s, t1) && g1 != BUTTON_B
    requires U32Sub(t2, t1) < DEBOUNCE_MS
    ensures ButtonSpec(ButtonSpec(s, g1, t1), g2, t2) == ButtonSpec(s, g1, t1)
  {
  }

  /** Two button-A edges 10 ms apart: only the first toggles, even across the clock's wrap. */
  lemma ButtonABounce(s: State, t: u32)
    requires !s.halted && !Bounced(s, t)
    ensures var t2 := (t + 10) % U32_MOD;
      ButtonSpec(ButtonSpec(s, BUTTON_A, t), BUTTON_A, t2).pwmEnabled == !s.pwmEnabled
  {
    var t2 := (t + 10) % U32_MOD;
    U32SubUnique(t2, t, 10);
  }

  /** The clock starts at 0, so an edge in the first 50 ms after boot is dropped. */
  lemma EarlyEdgesIgnored(gpio: u32, now: u32)
    requires now < DEBOUNCE_MS
    ensures ButtonSpec(INIT, gpio, now) == INIT
  {
  }

  // Toggles.

  /** Two accepted joystick-button presses restore the indicator, its level and the border style. */
  lemma JoystickButtonTwice(s: State, t1: u32, t2: u32)
    requires Inv(s) && !s.halted && !Bounced(s, t1)
    requires !Bounced(ButtonSpec(s, JOYSTICK_BTN, t1), t2)
    ensures ButtonSpec(ButtonSpec(s, JOYSTICK_BTN, t1), JOYSTICK_BTN, t2) == s.(lastInterruptTime := t2)
  {
  }

  /** Two accepted button-A presses restore the enable flag. */
  lemma ButtonATwice(s: State, t1: u32, t2: u32)
    requires !s.halted && !Bounced(s, t1)
    requires !Bounced(ButtonSpec(s, BUTTON_A, t1), t2)
    ensures ButtonSpec(ButtonSpec(s, BUTTON_A, t1), BUTTON_A, t2) == s.(lastInterruptTime := t2)
  {
  }

  // The outputs.

  /**
   * A stick below either centre writes a negative deflection, which reaches
   * the uint16_t level as a value above the counter's top: that output reads
   * as fully on, not off.
   */
  lemma NegativeDeflectionLevel(s: State, rawX: u16, rawY: u16)
    requires !s.halted && s.pwmEnabled
    ensures rawY < CENTER_Y ==> StepSpec(s, rawX, rawY).red > PWM_WRAP
    ensures rawX < CENTER_X ==> StepSpec(s, rawX, rawY).blue > PWM_WRAP
    ensures CENTER_Y <= rawY <= CENTER_Y + PWM_WRAP ==> StepSpec(s, rawX, rawY).red == rawY - CENTER_Y
  {
  }

  // The invariant.

  lemma InitInv()
    ensures Inv(INIT)
  {
  }

  lemma StepPreservesInv(s: State, rawX: u16, rawY: u16)
    requires Inv(s) && !s.halted
    ensures Inv(StepSpec(s, rawX, rawY))
  {
  }

  lemma ButtonPreservesInv(s: State, gpio: u32, now: u32)
    requires Inv(s) && !s.halted
    ensures Inv(ButtonSpec(s, gpio, now))
  {
  }

  // Interleaved runs of the two contexts.

  /** One loop pass on a pair of samples, or one button edge. */
  datatype Event = Sample(rawX: u16, rawY: u16) | Edge(gpio: u32, now: u32)

  function Apply(s: State, e: Event): (t: State)
    requires !s.halted
    ensures Inv(s) ==> Inv(t)
    ensures t.halted ==> e.Edge? && e.gpio == BUTTON_B && !Bounced(s, e.now)
  {
    match e
    case Sample(rawX, rawY) => StepSpec(s, rawX, rawY)
    case Edge(gpio, now) => ButtonSpec(s, gpio, now)
  }

  /** The state after a run of events; once halted, nothing more happens. */
  function Run(s: State, evs: seq<Event>): (t: State)
    ensures Inv(s) ==> Inv(t)
    ensures s.halted ==> t == s
    decreases |evs|
  {
    if evs == [] then s
    else
      var before := Run(s, evs[..|evs| - 1]);
      if before.halted then before else Apply(before, evs[|evs| - 1])
  }

  /**
   * The rectangles the loop hands to the display over a run: one per loop
   * pass applied before the halt, the square at the cursor that pass left.
   */
  function Frames(s: State, evs: seq<Event>): (r: seq<Rect>)
    ensures |r| <= |evs|
    ensures forall k :: 0 <= k < |r| ==> OnSurface(r[k])
    decreases |evs|
  {
    if evs == [] then []
    else
      var prefix := evs[..|evs| - 1];
      var before := Run(s, prefix);
      var e := evs[|evs| - 1];
      if !before.halted && e.Sample? then
        Frames(s, prefix) + [ScreenRect(StepSpec(before, e.rawX, e.rawY).cursor)]
      else
        Frames(s, prefix)
  }

  /** After the halt, a longer run ends where the shorter one did. */
  lemma {:induction false} HaltIsFinal(s: State, evs: seq<Event>, k: nat)
    requires k <= |evs| && Run(s, evs[..k]).halted
    ensures Run(s, evs) == Run(s, evs[..k])
  {
    if k < |evs| {
      var prefix := evs[..|evs| - 1];
      assert prefix[..k] == evs[..k];
      HaltIsFinal(s, prefix, k);
    } else {
      assert evs[..k] == evs;
    }
  }

  /** From boot, every run leaves the cursor on the screen and the drawn square on the display. */
  lemma RunFromInit(evs: seq<Event>)
    ensures Inv(Run(INIT, evs))
    ensures OnSurface(ScreenRect(Run(INIT, evs).cursor))
  {
  }
}
