/**
 * get_joystick_event as a classifier over the two joystick readings after
 * the centre offset has been subtracted.
 */
module Joystick {
  import opened Common
  import opened SnekControl

  /** Readings within [-DEAD_ZONE, DEAD_ZONE] of the centre count as rest. */
  const DEAD_ZONE: int := 500

  /** The axis is pushed past the dead zone on its positive / negative side. */
  predicate Positive(raw: int) { raw > DEAD_ZONE }
  predicate Negative(raw: int) { raw < -DEAD_ZONE }

  /**
   * Threshold classification with fixed priority LEFT > RIGHT > UP > DOWN:
   * a positive x reading is LEFT, a negative one RIGHT; only a resting x
   * axis lets y decide, a positive y being UP and a negative one DOWN.
   */
  function Classify(rawX: int, rawY: int): (e: Option<Direction>)
    ensures e == Some(Left) <==> rawX > 500
    ensures e == Some(Right) <==> rawX < -500
    ensures e == Some(Up) <==> -500 <= rawX <= 500 && rawY > 500
    ensures e == Some(Down) <==> -500 <= rawX <= 500 && rawY < -500
    ensures e.None? <==> -500 <= rawX <= 500 && -500 <= rawY <= 500
  {
    if Positive(rawX) then Some(Left)
    else if Negative(rawX) then Some(Right)
    else if Positive(rawY) then Some(Up)
    else if Negative(rawY) then Some(Down)
    else None
  }

  /** A joystick at rest turns nothing: the control keeps its delta and position. */
  lemma RestIsIdle(c: Control, rawX: int, rawY: int)
    requires -DEAD_ZONE <= rawX <= DEAD_ZONE && -DEAD_ZONE <= rawY <= DEAD_ZONE
    ensures ApplyEvent(c, Classify(rawX, rawY)) == c
  {
  }

  /** Every direction is reachable by some reading, so no turn is lost to the classifier. */
  lemma EveryDirectionReadable(d: Direction)
    ensures exists rawX: int, rawY: int :: Classify(rawX, rawY) == Some(d)
  {
    match d
    case Left => assert Classify(501, 0) == Some(Left);
    case Right => assert Classify(-501, 0) == Some(Right);
    case Up => assert Classify(0, 501) == Some(Up);
    case Down => assert Classify(0, -501) == Some(Down);
  }
}
