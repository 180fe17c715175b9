/** Classification of a horizontal drag into a pending swipe direction, and
    the visual feedback a pointer-move writes to the card (src/main.ts:13-14,
    156-175). */
module Gesture {

  /** SWIPE_THRESHOLD: pixels of horizontal travel that always pick a direction. */
  const SwipeThreshold: real := 100.0

  /** VELOCITY_TRESHOLD: pixels per millisecond above which a drag picks a direction. */
  const VelocityThreshold: real := 0.11

  /** Degrees of card rotation per pixel of horizontal travel. */
  const RotationPerPixel: real := 0.05

  /** The values of the card's `data-action` attribute. */
  datatype Action = NONE | LEFT | RIGHT

  function Abs(x: real): (r: real)
    ensures r >= 0.0
    ensures r == x || r == -x
  {
    if x < 0.0 then -x else x
  }

  /** A JavaScript number as far as division by an integer duration can
      produce one: a finite value, an infinity, or NaN. */
  datatype JsNumber = Finite(v: real) | PosInfinity | NegInfinity | NaN

  /** JavaScript's `a / b`: division by zero gives a signed infinity, or NaN
      when the dividend is zero too. */
  function JsDivide(a: real, b: real): JsNumber
  {
    if b != 0.0 then Finite(a / b)
    else if a > 0.0 then PosInfinity
    else if a < 0.0 then NegInfinity
    else NaN
  }

  /** JavaScript's `n > c` for a finite `c`: every comparison with NaN is false. */
  predicate JsGreater(n: JsNumber, c: real)
  {
    match n
    case Finite(v) => v > c
    case PosInfinity => true
    case NegInfinity => false
    case NaN => false
  }

  /** `Math.abs(dx) / t > VELOCITY_TRESHOLD`, evaluated with JavaScript numbers. */
  predicate JsVelocityExceeds(dx: real, t: int)
  {
    JsGreater(JsDivide(Abs(dx), t as real), VelocityThreshold)
  }

  /** The velocity test without division: for a positive duration, speed above
      the threshold; for a zero duration, any movement at all (the quotient is
      +Infinity); for a negative duration, never (the quotient is not positive). */
  predicate VelocityExceeds(dx: real, t: int)
  {
    if t > 0 then Abs(dx) > VelocityThreshold * (t as real)
    else if t == 0 then dx != 0.0
    else false
  }

  /** The division-free test agrees with the JavaScript expression on every
      displacement and every elapsed time, including zero and negative ones. */
  lemma VelocityTestMatchesJsDivision(dx: real, t: int)
    ensures VelocityExceeds(dx, t) <==> JsVelocityExceeds(dx, t)
  {
    if t > 0 {
      QuotientAbove(Abs(dx), t as real, VelocityThreshold);
    } else if t < 0 {
      QuotientNotPositive(Abs(dx), t as real);
    }
  }

  /** For a positive divisor, `a / d > c` is `a > c * d`. */
  lemma QuotientAbove(a: real, d: real, c: real)
    requires d > 0.0
    ensures a / d > c <==> a > c * d
  {
    var q := a / d;
    assert q * d == a;
    if q > c {
      assert q * d > c * d;
    } else {
      assert q * d <= c * d;
    }
  }

  /** A non-negative dividend over a negative divisor is never positive. */
  lemma QuotientNotPositive(a: real, d: real)
    requires a >= 0.0 && d < 0.0
    ensures a / d <= 0.0
  {
    assert (a / d) * d == a;
  }

  /** The condition under which a move sets a direction: far enough, or fast enough. */
  predicate Triggered(dx: real, t: int)
  {
    Abs(dx) >= SwipeThreshold || VelocityExceeds(dx, t)
  }

  /** The marker a pointer-move writes for displacement `dx` after `t` ms. */
  function Classify(dx: real, t: int): (a: Action)
    ensures a == RIGHT ==> dx > 0.0
    ensures a == LEFT ==> dx < 0.0
    ensures a == NONE <==> !Triggered(dx, t)
    ensures Abs(dx) >= SwipeThreshold ==> a != NONE
    ensures dx == 0.0 ==> a == NONE
  {
    if Triggered(dx, t) then
      if dx > 0.0 then RIGHT else LEFT
    else NONE
  }

  /** The `--rotation-amount` a move writes: same sign as `dx`, zero exactly when `dx` is. */
  function Rotation(dx: real): (r: real)
    ensures r > 0.0 <==> dx > 0.0
    ensures r < 0.0 <==> dx < 0.0
    ensures r == 0.0 <==> dx == 0.0
    ensures Abs(r) <= Abs(dx)
  {
    dx * RotationPerPixel
  }

  /** Above the distance threshold the direction is the sign of `dx`,
      whatever the elapsed time. */
  lemma DistanceAloneDecides(dx: real, t: int)
    requires Abs(dx) >= SwipeThreshold
    ensures Classify(dx, t) == (if dx > 0.0 then RIGHT else LEFT)
  {
  }

  /** Below the distance threshold, a fast flick still picks a direction and a
      slow one does not: the two tests are joined by OR. */
  lemma VelocityAloneDecides()
    ensures Classify(50.0, 100) == RIGHT
    ensures Classify(-50.0, 100) == LEFT
    ensures Classify(5.0, 100) == NONE
  {
  }

  /** With zero elapsed time any nonzero displacement picks its direction
      (+Infinity > 0.11) and no displacement picks none (NaN > 0.11 is false);
      with negative elapsed time only the distance test can fire. */
  lemma DegenerateElapsedTime(dx: real, t: int)
    requires t <= 0
    ensures t == 0 ==> (Classify(dx, t) == NONE <==> dx == 0.0)
    ensures t < 0 ==> (Classify(dx, t) == NONE <==> Abs(dx) < SwipeThreshold)
  {
  }
}
