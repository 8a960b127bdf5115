/**
 * The firmware's mutable state as one object: the loop's cursor variables,
 * the globals the button callback writes, its static indicator state and the
 * levels last written to the three LED outputs. The loop body and the
 * callback are methods over it, each proved against the Control functions.
 */
module Firmware {
  import opened CArith
  import opened Joystick
  import opened Control

  class Board {
    var xPos: int
    var yPos: int
    var pwmEnabled: bool
    var borderStyle: int
    var lastInterruptTime: u32
    var greenLedState: bool
    var redLevel: u16
    var greenLevel: u16
    var blueLevel: u16
    /** Control has passed to the bootloader; neither context runs again. */
    var halted: bool

    /** The state as a value. */
    function Snapshot(): State
      reads this
    {
      State(Point(xPos, yPos), pwmEnabled, borderStyle, lastInterruptTime, greenLedState,
            redLevel, greenLevel, blueLevel, halted)
    }

    ghost predicate Valid()
      reads this
    {
      Inv(Snapshot())
    }

    /** The initialisers, the LED set-up that writes level 0, and the cursor's start position. */
    constructor ()
      ensures Snapshot() == INIT
      ensures Valid()
    {
      xPos, yPos := 59, 29;
      pwmEnabled := true;
      borderStyle := 1;
      lastInterruptTime := 0;
      greenLedState := false;
      redLevel, greenLevel, blueLevel := 0, 0, 0;
      halted := false;
    }

    /**
     * One pass of the foreground loop with the two converter samples; returns
     * the rectangle handed to the display.
     */
    method Step(xVal: u16, yVal: u16) returns (rect: Rect)
      requires !halted
      modifies this
      ensures Snapshot() == StepSpec(old(Snapshot()), xVal, yVal)
      ensures 0 <= xPos <= X_MAX && 0 <= yPos <= Y_MAX
      ensures rect == ScreenRect(Point(xPos, yPos)) && OnSurface(rect)
      ensures old(Valid()) ==> Valid()
    {
      var adjustedX := xVal - CENTER_X;
      var adjustedY := yVal - CENTER_Y;

      MoveCursor(adjustedX, adjustedY);

      var invertedXPos := yPos;
      var invertedYPos := xPos;
      rect := Rect(invertedXPos, invertedYPos, 8, 8);

      if pwmEnabled {
        redLevel := ToU16(adjustedY);
        blueLevel := ToU16(adjustedX);
      }
    }

    /** The cursor update of the loop body: the crossed, deadzoned moves, then the four clamps. */
    method MoveCursor(adjustedX: int, adjustedY: int)
      modifies this`xPos, this`yPos
      ensures Point(xPos, yPos) == ClampToScreen(Point(old(xPos) + AxisMove(adjustedY), old(yPos) - AxisMove(adjustedX)))
    {
      if Abs(adjustedY) > DEADZONE {
        xPos := xPos + CDiv(adjustedY * 5, 2048);
      }
      if Abs(adjustedX) > DEADZONE {
        yPos := yPos - CDiv(adjustedX * 5, 2048);
      }

      if xPos < 0 { xPos := 0; }
      if xPos > WIDTH - 8 { xPos := WIDTH - 8; }
      if yPos < 0 { yPos := 0; }
      if yPos > HEIGHT - 8 { yPos := HEIGHT - 8; }
    }

    /** The interrupt callback for a falling edge on gpio, at boot-relative time now (ms). */
    method ButtonCallback(gpio: u32, now: u32)
      requires !halted
      modifies this
      ensures Snapshot() == ButtonSpec(old(Snapshot()), gpio, now)
      ensures old(Valid()) ==> Valid()
    {
      var currentTime := now;
      if U32Sub(currentTime, lastInterruptTime) < 50 {
        return;
      }
      lastInterruptTime := currentTime;

      if gpio == JOYSTICK_BTN {
        greenLedState := !greenLedState;
        greenLevel := if greenLedState then 2047 else 0;
        borderStyle := if borderStyle == 1 then 2 else 1;
      } else if gpio == BUTTON_A {
        pwmEnabled := !pwmEnabled;
      } else if gpio == BUTTON_B {
        halted := true;
      }
    }

    /**
     * The two contexts over one interleaving of loop passes and edges, until
     * the bootloader takes over; returns the rectangle of every frame drawn.
     */
    method MainLoop(evs: seq<Event>) returns (rects: seq<Rect>)
      modifies this
      ensures Snapshot() == Control.Run(old(Snapshot()), evs)
      ensures rects == Frames(old(Snapshot()), evs)
      ensures forall k :: 0 <= k < |rects| ==> OnSurface(rects[k])
      ensures old(Valid()) ==> Valid()
    {
      ghost var start := Snapshot();
      rects := [];
      var i := 0;
      while i < |evs|
        invariant 0 <= i <= |evs|
        invariant Snapshot() == Control.Run(start, evs[..i])
        invariant rects == Frames(start, evs[..i])
      {
        assert evs[..i + 1][..i] == evs[..i];
        if !halted {
          match evs[i]
          case Sample(xVal, yVal) =>
            var rect := Step(xVal, yVal);
            rects := rects + [rect];
          case Edge(gpio, now) =>
            ButtonCallback(gpio, now);
        }
        i := i + 1;
      }
      assert evs[..i] == evs;
    }
  }

  /** Boot, then two joystick-button presses far enough apart: the indicator and border are back. */
  method PressTwiceFromBoot() returns (board: Board)
    ensures board.Snapshot() == INIT.(lastInterruptTime := 200)
  {
    board := new Board();
    board.ButtonCallback(JOYSTICK_BTN, 100);
    assert board.greenLedState && board.borderStyle == 2;
    board.ButtonCallback(JOYSTICK_BTN, 120);
    board.ButtonCallback(JOYSTICK_BTN, 200);
  }
}
