/** The rotate buttons: the displayed angle of an image goes a quarter turn
    left or right, kept in [0, 360). Python's `%` floors, so with the positive
    divisor 360 it agrees with Dafny's Euclidean `%`. */
module Rotation {

  /** `rotations.get(p, 0)`: an image with no saved angle is shown unrotated. */
  function CurrentAngle(rotations: map<string, int>, p: string): int {
    if p in rotations then rotations[p] else 0
  }

  /** `(current - 90) % 360`: the angle a quarter turn to the left. */
  function TurnedLeft(current: int): (a: int)
    ensures 0 <= a < 360
    ensures exists k :: a == current - 90 + 360 * k
  {
    var a := (current - 90) % 360;
    assert a == current - 90 + 360 * -((current - 90) / 360);
    a
  }

  /** `(current + 90) % 360`: the angle a quarter turn to the right. */
  function TurnedRight(current: int): (a: int)
    ensures 0 <= a < 360
    ensures exists k :: a == current + 90 + 360 * k
  {
    var a := (current + 90) % 360;
    assert a == current + 90 + 360 * -((current + 90) / 360);
    a
  }

  /** Two angles in [0, 360) that differ by a multiple of 360 are equal. */
  lemma SameTurn(a: int, b: int, k: int)
    requires 0 <= a < 360 && 0 <= b < 360 && a == b + 360 * k
    ensures a == b
  {
  }

  /** A left turn followed by a right turn, or a right turn followed by a left
      turn, gives back any angle already in [0, 360). */
  lemma LeftRightCancel(a: int)
    requires 0 <= a < 360
    ensures TurnedRight(TurnedLeft(a)) == a
    ensures TurnedLeft(TurnedRight(a)) == a
  {
  }

  /** Four right turns, or four left turns, give back any angle already in [0, 360). */
  lemma FourTurnsRestore(a: int)
    requires 0 <= a < 360
    ensures TurnedRight(TurnedRight(TurnedRight(TurnedRight(a)))) == a
    ensures TurnedLeft(TurnedLeft(TurnedLeft(TurnedLeft(a)))) == a
  {
    var r1 := TurnedRight(a);
    var k1 :| r1 == a + 90 + 360 * k1;
    var r2 := TurnedRight(r1);
    var k2 :| r2 == r1 + 90 + 360 * k2;
    var r3 := TurnedRight(r2);
    var k3 :| r3 == r2 + 90 + 360 * k3;
    var r4 := TurnedRight(r3);
    var k4 :| r4 == r3 + 90 + 360 * k4;
    SameTurn(r4, a, k1 + k2 + k3 + k4 + 1);
    var l1 := TurnedLeft(a);
    var j1 :| l1 == a - 90 + 360 * j1;
    var l2 := TurnedLeft(l1);
    var j2 :| l2 == l1 - 90 + 360 * j2;
    var l3 := TurnedLeft(l2);
    var j3 :| l3 == l2 - 90 + 360 * j3;
    var l4 := TurnedLeft(l3);
    var j4 :| l4 == l3 - 90 + 360 * j4;
    SameTurn(l4, a, j1 + j2 + j3 + j4 - 1);
  }

  /** An angle that is a whole number of quarter turns stays one: starting from
      the upload default 0, an image is only ever shown at 0, 90, 180 or 270. */
  lemma QuarterTurnsStayQuarter(a: int)
    requires a in {0, 90, 180, 270}
    ensures TurnedLeft(a) in {0, 90, 180, 270}
    ensures TurnedRight(a) in {0, 90, 180, 270}
  {
  }
}
