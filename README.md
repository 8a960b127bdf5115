# Joystick-driven OLED cursor and PWM LEDs — Dafny model

This project models the control logic of a small Raspberry Pi Pico firmware
(`tarefa1-aula-sincrona-10-02-conversor-a-d.c`). The firmware reads a two-axis
analog joystick and moves an 8×8 square on a 128×64 SSD1306 display. While PWM
output is enabled, it drives the red and blue LEDs with the joystick
deflections. Three buttons are handled by one interrupt callback behind a
shared 50 ms software debounce:

- the joystick button toggles the green LED and the border style;
- button A toggles PWM output;
- button B reboots into BOOTSEL.

## Modules

- `c_arith.dfy`, module `CArith`: the C semantics the code relies on,
  written out over unbounded integers. `CDiv` is `/` truncating toward zero.
  `U32Sub` is unsigned 32-bit subtraction with wrap-around. `ToU16` is the
  conversion of an `int` argument to a `uint16_t` parameter.
- `joystick.dfy`, module `Joystick`: the cursor arithmetic of the foreground
  loop:
  - the deflection against the calibrated centres 1929 and 2019;
  - the ±100 deadzone;
  - the step `(d*5)/2048`, with the axes crossed and the X step negated;
  - the clamp to `[0,120]×[0,56]`;
  - the swapped coordinates handed to the rectangle call.
- `control.dfy`, module `Control`: the whole firmware state as a value
  (`State`). `StepSpec` gives one loop pass and `ButtonSpec` one callback
  invocation. `Run` gives an interleaving of both. The lemmas state the
  debounce, toggle, invariant and halting properties.
- `board.dfy`, module `Firmware`: class `Board`. Its fields are the loop's
  `x_pos`/`y_pos`, the globals `pwm_enabled`, `border_style` and
  `last_interrupt_time`, the callback's static `green_led_state`, the three
  LED levels last written, and a `halted` flag. `Step` (with its helper
  `MoveCursor`) and `ButtonCallback` follow the C statement by statement.
  `Step` and `ButtonCallback` are proved to produce exactly the state that
  `StepSpec` and `ButtonSpec` describe. `MoveCursor` is proved against
  `Joystick.ClampToScreen` and `Joystick.AxisMove`. `MainLoop` is not a line
  of the C: it models the two contexts taking turns. It runs one loop pass
  for each sample and one callback for each edge, and stops at the halt. It
  is proved to end in `Run`'s state and to return exactly the rectangles that
  `Frames` lists.

A consequence of the arithmetic proved here (`DeadzoneSubsumedByTruncation`):
the deadzone never changes the cursor's motion. Any deflection of magnitude up
to 409 already truncates to a step of 0, so the `abs(...) > DEADZONE` test
only skips a zero step. The model keeps the test, as the code has it.

Choices where the code leaves something open:

- **LED levels.** `pwm_set_gpio_level` takes a `uint16_t`, so the `int`
  deflection is recorded reduced modulo 2^16. A negative deflection
  therefore becomes a level above the PWM top of 4095 (see
  `NegativeDeflectionLevel`).
- **PWM disabled.** The red and blue levels keep their last value.
- **Coordinate order of the rectangle call.** `Rect(top, left, width, height)`
  follows the SSD1306 library's parameter order, which is top row first and
  then left column. That library is not part of this model. Under this order
  the first argument `inverted_x_pos` is `y_pos` (a row below 64) and the
  second is `x_pos` (a column below 128).
- **Debounce comparison.** The comparison is the code's own: unsigned 32-bit
  subtraction (`U32Sub(now, last) < 50`), not a plain `now - last >= 50`.
  With `last_interrupt_time` starting at 0, edges in the first 50 ms after
  boot are dropped (`EarlyEdgesIgnored`).
- **After BOOTSEL.** `reset_usb_boot` does not return, so neither context
  runs again. Class methods and the step functions require `!halted`, and
  `Run` applies no event once the state is halted.

## Model

| member | source | states |
|---|---|---|
| CArith.Abs | tarefa1-aula-sincrona-10-02-conversor-a-d.c:147-149 | the result is x or -x and at least both, i.e. the magnitude |
| CArith.CDiv | tarefa1-aula-sincrona-10-02-conversor-a-d.c:148-150 | C division: the remainder a - q*b is smaller than abs(b) and is never of the opposite sign of a (truncation toward zero) |
| CArith.CDivUnique | tarefa1-aula-sincrona-10-02-conversor-a-d.c:148-150 | those two remainder conditions determine the quotient: any q meeting them equals CDiv(a, b) |
| CArith.CDivNegate | tarefa1-aula-sincrona-10-02-conversor-a-d.c:148-150 | negating the dividend negates the quotient (symmetry around zero, unlike Euclidean division) |
| CArith.CDivOfNegative | tarefa1-aula-sincrona-10-02-conversor-a-d.c:148-150 | for a negative dividend not divisible by a positive divisor, C's quotient is Dafny's Euclidean quotient plus one |
| CArith.U32Sub | tarefa1-aula-sincrona-10-02-conversor-a-d.c:68 | uint32_t subtraction: b + d equals a modulo 2^32; d is a - b without wrap and a - b + 2^32 with wrap |
| CArith.U32SubUnique | tarefa1-aula-sincrona-10-02-conversor-a-d.c:68 | U32Sub is the only uint32_t d with (b + d) mod 2^32 == a |
| CArith.ToU16 | tarefa1-aula-sincrona-10-02-conversor-a-d.c:169-170 | the uint16_t level is congruent to the int passed modulo 2^16, equal to it when in range, and v + 2^16 for negative v down to -2^16 |
| Joystick.AxisMove | tarefa1-aula-sincrona-10-02-conversor-a-d.c:147-150 | zero inside the deadzone; outside it the move has the sign of the deflection and magnitude floor(abs(d)*5/2048) |
| Joystick.Clamp | tarefa1-aula-sincrona-10-02-conversor-a-d.c:153-156 | the result lies in [0, hi], is v when v is in range, 0 below and hi above |
| Joystick.ClampToScreen | tarefa1-aula-sincrona-10-02-conversor-a-d.c:153-156 | the clamped cursor is on screen, an on-screen cursor is unchanged, and a changed coordinate went to the nearer edge |
| Joystick.Moved | tarefa1-aula-sincrona-10-02-conversor-a-d.c:147-150 | before clamping, an axis inside the deadzone leaves its coordinate alone; x moves only in the direction raw_y leaves its centre, and y only against the direction raw_x leaves its centre |
| Joystick.NextCursor | tarefa1-aula-sincrona-10-02-conversor-a-d.c:143-156 | after a step the cursor is in [0,120]x[0,56] for any samples; an axis inside the deadzone leaves its (in-range) coordinate alone |
| Joystick.ScreenRect | tarefa1-aula-sincrona-10-02-conversor-a-d.c:159-164 | the rectangle is 8x8 with top row y_pos and left column x_pos (the swap), and lies on the 128x64 surface for an on-screen cursor |
| Joystick.DeadzoneSubsumedByTruncation | tarefa1-aula-sincrona-10-02-conversor-a-d.c:143-150 | the deadzone test never changes the move (AxisMove(d) == CDiv(d*5, 2048)), and a coordinate stays put iff abs(d) <= 409 |
| Joystick.ActiveAxisStep | tarefa1-aula-sincrona-10-02-conversor-a-d.c:147-156 | per axis, whatever the other axis does: unless x is clamped it moves by exactly trunc((raw_y-2019)*5/2048), and unless y is clamped it moves by minus trunc((raw_x-1929)*5/2048) |
| Joystick.FollowsStick | tarefa1-aula-sincrona-10-02-conversor-a-d.c:147-156 | the axes are crossed and X is negated: Y above centre never decreases x, X above centre never increases y, and symmetrically |
| Joystick.RestingStickKeepsCursor | tarefa1-aula-sincrona-10-02-conversor-a-d.c:143-156 | with both axes inside the deadzone an on-screen cursor does not move |
| Joystick.RestingStepIdempotent | tarefa1-aula-sincrona-10-02-conversor-a-d.c:143-156 | with both axes inside the deadzone a second step changes nothing, from any start |
| Joystick.SwapIsNeeded | tarefa1-aula-sincrona-10-02-conversor-a-d.c:159-164 | at x_pos = 120 the unswapped square would leave the display while the swapped one fits |
| Joystick.StepFitsInt32 | tarefa1-aula-sincrona-10-02-conversor-a-d.c:143-150 | for 12-bit samples, d*5, x_pos plus the move and y_pos minus the move stay in int32, and a move is between -4 and 5 |
| Joystick.NegativeStepExample | tarefa1-aula-sincrona-10-02-conversor-a-d.c:148-150 | (-1000*5)/2048 is -2 in C, where Dafny's / gives -3 |
| Joystick.PushXExample | tarefa1-aula-sincrona-10-02-conversor-a-d.c:134-156 | from (59,29) with raw_x = 2929 and raw_y = 2019 the cursor goes to (59,27) |
| Joystick.ClampExample | tarefa1-aula-sincrona-10-02-conversor-a-d.c:153-156 | a pre-clamp position (200,70) becomes (120,56) |
| Control.GreenLevel | tarefa1-aula-sincrona-10-02-conversor-a-d.c:74 | the green level is 2047 exactly when the indicator is on, and 0 exactly when it is off |
| Control.FlipBorder | tarefa1-aula-sincrona-10-02-conversor-a-d.c:75 | the new border style is 1 or 2, and differs from a style that was 1 or 2 |
| Control.StepSpec | tarefa1-aula-sincrona-10-02-conversor-a-d.c:143-171 | one loop pass: the cursor is the clamped NextCursor and its square fits; with PWM on, red and blue get the Y and X deflections as uint16_t; with PWM off they keep their levels; nothing else changes |
| Control.ButtonSpec | tarefa1-aula-sincrona-10-02-conversor-a-d.c:66-84 | a bounced edge changes nothing; an accepted one stores now as the last interrupt time; no edge touches the cursor, red or blue |
| Control.JoystickButtonEvent | tarefa1-aula-sincrona-10-02-conversor-a-d.c:71-75 | an accepted joystick-button edge toggles green_led_state, sets green to 2047 or 0 to match, flips border_style 1<->2, and changes nothing else but the time |
| Control.ButtonAEvent | tarefa1-aula-sincrona-10-02-conversor-a-d.c:77-79 | an accepted button-A edge toggles only pwm_enabled (and the time) |
| Control.ButtonBEvent | tarefa1-aula-sincrona-10-02-conversor-a-d.c:80-83 | an accepted button-B edge only records the time and halts |
| Control.OtherGpioEvent | tarefa1-aula-sincrona-10-02-conversor-a-d.c:66-84 | an accepted edge from any other pin changes only last_interrupt_time |
| Control.AcceptedEdgesSpaced | tarefa1-aula-sincrona-10-02-conversor-a-d.c:67-69 | two consecutive accepted edges are at least 50 ms apart on the wrapping clock (and in plain terms when it did not wrap) |
| Control.SharedGateSuppresses | tarefa1-aula-sincrona-10-02-conversor-a-d.c:67-69 | the gate is shared: after an accepted edge, an edge from any source less than 50 ms later has no effect |
| Control.ButtonABounce | tarefa1-aula-sincrona-10-02-conversor-a-d.c:67-78 | two button-A edges 10 ms apart toggle pwm_enabled once, even across the clock's wrap |
| Control.EarlyEdgesIgnored | tarefa1-aula-sincrona-10-02-conversor-a-d.c:54-69 | since the clock starts at 0, every edge in the first 50 ms after boot leaves the initial state unchanged |
| Control.JoystickButtonTwice | tarefa1-aula-sincrona-10-02-conversor-a-d.c:71-75 | two accepted joystick-button presses restore the indicator state, green level and border style |
| Control.ButtonATwice | tarefa1-aula-sincrona-10-02-conversor-a-d.c:77-78 | two accepted button-A presses restore pwm_enabled |
| Control.NegativeDeflectionLevel | tarefa1-aula-sincrona-10-02-conversor-a-d.c:168-171 | with PWM on, a stick below centre writes a level above the PWM top 4095; a deflection from 0 to 4095 is written as is |
| Control.InitInv | tarefa1-aula-sincrona-10-02-conversor-a-d.c:52-54 | the initial state (cursor (59,29), border 1, indicator off with green 0) satisfies the invariant |
| Control.StepPreservesInv | tarefa1-aula-sincrona-10-02-conversor-a-d.c:143-171 | a loop pass keeps the cursor on screen, border_style in {1,2} and the green level matching the indicator |
| Control.ButtonPreservesInv | tarefa1-aula-sincrona-10-02-conversor-a-d.c:66-84 | a callback invocation keeps the same invariant |
| Control.Apply | tarefa1-aula-sincrona-10-02-conversor-a-d.c:66-171 | one event keeps the invariant, and only an accepted button-B edge halts |
| Control.Run | tarefa1-aula-sincrona-10-02-conversor-a-d.c:136-174 | any interleaving of loop passes and edges keeps the invariant; a halted state never changes |
| Control.Frames | tarefa1-aula-sincrona-10-02-conversor-a-d.c:136-165 | the rectangles drawn over a run, one per loop pass before the halt (so at most one per event), each lying on the 128x64 surface |
| Control.HaltIsFinal | tarefa1-aula-sincrona-10-02-conversor-a-d.c:80-83 | once a prefix of the run has halted, no later event changes the state |
| Control.RunFromInit | tarefa1-aula-sincrona-10-02-conversor-a-d.c:134-174 | from boot, after any interleaving, the invariant holds and the drawn square lies on the display |
| Firmware.Board.constructor | tarefa1-aula-sincrona-10-02-conversor-a-d.c:52-54 | the initial object is the initial state: globals as initialised, LEDs at 0, cursor (59,29) |
| Firmware.Board.Step | tarefa1-aula-sincrona-10-02-conversor-a-d.c:143-171 | the new fields are StepSpec of the old ones; the cursor is in bounds, the returned rectangle is the swapped square on the display, and the invariant is kept |
| Firmware.Board.MoveCursor | tarefa1-aula-sincrona-10-02-conversor-a-d.c:147-156 | the two guarded moves and the four clamps leave the cursor at ClampToScreen of the moved position; only x_pos and y_pos change |
| Firmware.Board.ButtonCallback | tarefa1-aula-sincrona-10-02-conversor-a-d.c:66-84 | the new fields are ButtonSpec of the old ones, and the invariant is kept |
| Firmware.Board.MainLoop | tarefa1-aula-sincrona-10-02-conversor-a-d.c:136-174 | over an event sequence the object ends in Run of its start state, returns exactly Frames of the run (one square per loop pass before the halt), and every rectangle drawn lies on the display |
| Firmware.PressTwiceFromBoot | tarefa1-aula-sincrona-10-02-conversor-a-d.c:71-75 | from boot, presses at 100, 120 (bounced) and 200 ms leave everything as at boot except the time |

## Left out

- Peripheral bring-up (lines 57–63, 94–132): GPIO, ADC, PWM, I2C and display initialisation are one-shot hardware calls. Only the level 0 that `setup_pwm` writes to each LED is kept, as the initial LED levels.
- Rendering (lines 163–165): `ssd1306_fill`, `ssd1306_rect` and `ssd1306_send_data` belong to a foreign library. Only the arguments of the rectangle call are modelled. The rectangle is always filled, and `border_style` is never read by the drawing code. The callback reads it to flip it (line 75) and prints it (line 76), so it is kept only as state.
- ADC channel selection and reads (lines 138–141): the samples are inputs of type `uint16_t`. The 12-bit range matters only in `StepFitsInt32`.
- `to_ms_since_boot`: the callback's time is an input.
- `printf` logging and `sleep_ms(20)`: these have no effect on the state.
- `reset_usb_boot`: modelled only as the terminal `halted` flag.
- The `events` argument of `button_callback`: the code never reads it.
- Interrupt registration and preemption (lines 87–91): edges are sequential events between whole loop passes. An edge that arrives in the middle of a pass, such as between the `pwm_enabled` test and the LED writes, is not modelled. Neither are the data races that a multi-core target would bring.
- The PWM hardware: what a level above the counter top does to the LED is not modelled. The model records only the `uint16_t` level written.
- C `int` overflow: it is not modelled. `StepFitsInt32` shows that it cannot happen for converter samples.
