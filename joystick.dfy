/**
 * The cursor arithmetic of the foreground loop: deflection against the fixed
 * calibration centres, the deadzone, the truncating step, the clamp to the
 * display and the swapped coordinates handed to the rectangle primitive.
 */
module Joystick {
  import opened CArith

  // Display geometry and the size of the drawn square.
  const WIDTH: int := 128
  const HEIGHT: int := 64
  const CURSOR_SIZE: int := 8
  const X_MAX: int := WIDTH - CURSOR_SIZE
  const Y_MAX: int := HEIGHT - CURSOR_SIZE

  // Calibrated centres of the two channels and the deadzone around them.
  const CENTER_X: int := 1929
  const CENTER_Y: int := 2019
  const DEADZONE: int := 100

  // A deflection d moves the cursor by d * GAIN / SCALE (C division).
  const GAIN: int := 5
  const SCALE: int := 2048

  /** Largest sample of the 12-bit converter. */
  const ADC_MAX: int := 4095

  /** The cursor (x_pos, y_pos). */
  datatype Point = Point(x: int, y: int)

  /** Start position of the cursor. */
  const START: Point := Point(59, 29)

  /**
   * The arguments of the filled-rectangle call, in the order the display
   * library takes them: top row, left column, width, height.
   */
  datatype Rect = Rect(top: int, left: int, width: int, height: int)

  /** The cursor lies where the whole square fits on the display. */
  predicate InBounds(p: Point) {
    0 <= p.x <= X_MAX && 0 <= p.y <= Y_MAX
  }

  /** Every pixel of r lies on the WIDTH x HEIGHT surface. */
  predicate OnSurface(r: Rect) {
    0 <= r.left && r.left + r.width <= WIDTH && 0 <= r.top && r.top + r.height <= HEIGHT
  }

  /** adjusted_x / adjusted_y: the signed offset of a sample from its centre. */
  function Deflection(raw: u16, center: int): int {
    raw - center
  }

  /** A deflection outside the deadzone asks for the cursor to move. */
  predicate Active(d: int) {
    Abs(d) > DEADZONE
  }

  /**
   * The signed distance a coordinate moves for deflection d: nothing inside
   * the deadzone, otherwise d * GAIN / SCALE with the quotient truncated
   * toward zero, so it goes in the direction of d and its magnitude is
   * floor(|d| * GAIN / SCALE).
   */
  function AxisMove(d: int): (m: int)
    ensures !Active(d) ==> m == 0
    ensures Active(d) ==> Abs(m) * SCALE <= Abs(d) * GAIN < (Abs(m) + 1) * SCALE
    ensures m > 0 ==> d > 0
    ensures m < 0 ==> d < 0
  {
    if Active(d) then
      var m := CDiv(d * GAIN, SCALE);
      assert d >= 0 ==> m >= 0;
      assert d <= 0 ==> m <= 0;
      m
    else
      0
  }

  /** Two of the clamping assignments: v limited to [0, hi]. */
  function Clamp(v: int, hi: int): (r: int)
    requires 0 <= hi
    ensures 0 <= r <= hi
    ensures 0 <= v <= hi ==> r == v
    ensures v < 0 ==> r == 0
    ensures v > hi ==> r == hi
  {
    if v < 0 then 0 else if v > hi then hi else v
  }

  /** The clamp of both coordinates to the display less the square. */
  function ClampToScreen(p: Point): (q: Point)
    ensures InBounds(q)
    ensures InBounds(p) ==> q == p
    ensures p.x != q.x ==> q.x == (if p.x < 0 then 0 else X_MAX)
    ensures p.y != q.y ==> q.y == (if p.y < 0 then 0 else Y_MAX)
  {
    Point(Clamp(p.x, X_MAX), Clamp(p.y, Y_MAX))
  }

  /**
   * The position before clamping: the axes are crossed, the Y deflection
   * moves x and the X deflection moves y with its sign negated.
   */
  function Moved(p: Point, rawX: u16, rawY: u16): (q: Point)
    ensures !Active(Deflection(rawY, CENTER_Y)) ==> q.x == p.x
    ensures !Active(Deflection(rawX, CENTER_X)) ==> q.y == p.y
    ensures (q.x > p.x ==> rawY > CENTER_Y) && (q.x < p.x ==> rawY < CENTER_Y)
    ensures (q.y < p.y ==> rawX > CENTER_X) && (q.y > p.y ==> rawX < CENTER_X)
  {
    Point(p.x + AxisMove(Deflection(rawY, CENTER_Y)), p.y - AxisMove(Deflection(rawX, CENTER_X)))
  }

  /** The cursor after one pass of the loop body. */
  function NextCursor(p: Point, rawX: u16, rawY: u16): (q: Point)
    ensures InBounds(q)
    ensures !Active(Deflection(rawY, CENTER_Y)) && 0 <= p.x <= X_MAX ==> q.x == p.x
    ensures !Active(Deflection(rawX, CENTER_X)) && 0 <= p.y <= Y_MAX ==> q.y == p.y
  {
    ClampToScreen(Moved(p, rawX, rawY))
  }

  /**
   * The square handed to the display: the coordinates are swapped, so its
   * top row is y_pos and its left column is x_pos, and it is 8 x 8.
   */
  function ScreenRect(p: Point): (r: Rect)
    ensures r.width == CURSOR_SIZE && r.height == CURSOR_SIZE
    ensures r.top == p.y && r.left == p.x
    ensures InBounds(p) ==> OnSurface(r)
  {
    var invertedX, invertedY := p.y, p.x;
    Rect(invertedX, invertedY, CURSOR_SIZE, CURSOR_SIZE)
  }

  /**
   * The deadzone never changes the motion: every deflection within it is too
   * small to survive the truncating division anyway. A coordinate stays put
   * exactly when the deflection is at most 409 in magnitude.
   */
  lemma DeadzoneSubsumedByTruncation(d: int)
    ensures AxisMove(d) == CDiv(d * GAIN, SCALE)
    ensures AxisMove(d) == 0 <==> Abs(d) <= 409
  {
    if Abs(d) <= 409 {
      CDivUnique(d * GAIN, SCALE, 0);
    } else {
      assert Active(d);
      var m := AxisMove(d);
      assert Abs(m) * SCALE > Abs(d) * GAIN - SCALE;
      assert m != 0;
    }
    if !Active(d) {
      CDivUnique(d * GAIN, SCALE, 0);
    }
  }

  /**
   * The step of each axis, exactly: unless that coordinate is clamped, it
   * moves by trunc(d * 5 / 2048), whatever happens to the other one.
   */
  lemma ActiveAxisStep(p: Point, rawX: u16, rawY: u16)
    ensures 0 <= p.x + CDiv((rawY - CENTER_Y) * 5, 2048) <= X_MAX ==>
      NextCursor(p, rawX, rawY).x == p.x + CDiv((rawY - CENTER_Y) * 5, 2048)
    ensures 0 <= p.y - CDiv((rawX - CENTER_X) * 5, 2048) <= Y_MAX ==>
      NextCursor(p, rawX, rawY).y == p.y - CDiv((rawX - CENTER_X) * 5, 2048)
  {
    DeadzoneSubsumedByTruncation(rawY - CENTER_Y);
    DeadzoneSubsumedByTruncation(rawX - CENTER_X);
  }

  /**
   * The cursor never moves against the stick: pushing Y up moves x right,
   * pushing X up moves y up the screen (toward 0), and the other way round.
   */
  lemma FollowsStick(p: Point, rawX: u16, rawY: u16)
    requires InBounds(p)
    ensures rawY >= CENTER_Y ==> NextCursor(p, rawX, rawY).x >= p.x
    ensures rawY <= CENTER_Y ==> NextCursor(p, rawX, rawY).x <= p.x
    ensures rawX >= CENTER_X ==> NextCursor(p, rawX, rawY).y <= p.y
    ensures rawX <= CENTER_X ==> NextCursor(p, rawX, rawY).y >= p.y
  {
  }

  /** Inside the deadzone on both axes a cursor on the screen does not move. */
  lemma RestingStickKeepsCursor(p: Point, rawX: u16, rawY: u16)
    requires InBounds(p)
    requires Abs(rawX - CENTER_X) <= DEADZONE && Abs(rawY - CENTER_Y) <= DEADZONE
    ensures NextCursor(p, rawX, rawY) == p
  {
  }

  /** A resting stick is idempotent: a second step changes nothing, wherever the first started. */
  lemma RestingStepIdempotent(p: Point, rawX: u16, rawY: u16)
    requires Abs(rawX - CENTER_X) <= DEADZONE && Abs(rawY - CENTER_Y) <= DEADZONE
    ensures NextCursor(NextCursor(p, rawX, rawY), rawX, rawY) == NextCursor(p, rawX, rawY)
  {
  }

  /** The unswapped rectangle does not fit: at x_pos = X_MAX the square would leave the display. */
  lemma SwapIsNeeded()
    ensures InBounds(Point(X_MAX, 0))
    ensures !OnSurface(Rect(X_MAX, 0, CURSOR_SIZE, CURSOR_SIZE))
    ensures OnSurface(ScreenRect(Point(X_MAX, 0)))
  {
  }

  /** A 12-bit sample moves a coordinate by -4 to 5 and keeps every intermediate within a 32-bit int. */
  lemma StepFitsInt32(p: Point, raw: u16, center: int)
    requires InBounds(p) && raw <= ADC_MAX && (center == CENTER_X || center == CENTER_Y)
    ensures INT32_MIN <= Deflection(raw, center) * GAIN <= INT32_MAX
    ensures -4 <= AxisMove(Deflection(raw, center)) <= 5
    ensures INT32_MIN <= p.x + AxisMove(Deflection(raw, center)) <= INT32_MAX
    ensures INT32_MIN <= p.y - AxisMove(Deflection(raw, center)) <= INT32_MAX
  {
    var d := Deflection(raw, center);
    var m := AxisMove(d);
    assert -CENTER_Y <= d <= ADC_MAX - CENTER_X;
    assert Abs(m) * SCALE <= Abs(d) * GAIN;
  }

  // Worked examples.

  /** Dafny's `/` would give -3 here; C gives -2. */
  lemma NegativeStepExample()
    ensures CDiv(-1000 * GAIN, SCALE) == -2
    ensures (-1000 * GAIN) / SCALE == -3
  {
    CDivUnique(-1000 * GAIN, SCALE, -2);
  }

  /** From (59, 29), X pushed 1000 above its centre and Y at rest: y moves up by 2. */
  lemma PushXExample()
    ensures NextCursor(START, 2929, 2019) == Point(59, 27)
  {
    CDivUnique(1000 * GAIN, SCALE, 2);
  }

  /** A pre-clamp position of (200, 70) ends at the bottom right corner (120, 56). */
  lemma ClampExample()
    ensures ClampToScreen(Point(200, 70)) == Point(120, 56)
  {
  }
}
