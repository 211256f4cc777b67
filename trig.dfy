/**
 * TrigUtil: conversion between degrees and radians. The constant is the
 * double closest to pi, as the source takes it from Math.PI; over the reals
 * the two conversions are exact inverses of each other.
 */
module Trig {

  const Pi: real := 3.141592653589793

  /** radiansToDegrees: (angle * 180) / PI */
  function RadiansToDegrees(angle: real): real {
    (angle * 180.0) / Pi
  }

  /** degreesToRadians: (angle * PI) / 180 */
  function DegreesToRadians(angle: real): real {
    (angle * Pi) / 180.0
  }

  lemma DegreesRoundTrip(angle: real)
    ensures RadiansToDegrees(DegreesToRadians(angle)) == angle
  {
    var r := DegreesToRadians(angle);
    assert r * 180.0 == angle * Pi;
  }

  lemma RadiansRoundTrip(angle: real)
    ensures DegreesToRadians(RadiansToDegrees(angle)) == angle
  {
    var d := RadiansToDegrees(angle);
    assert d * Pi == angle * 180.0;
  }

  /** Both conversions are linear: they preserve sums. */
  lemma DegreesToRadiansAdditive(a: real, b: real)
    ensures DegreesToRadians(a + b) == DegreesToRadians(a) + DegreesToRadians(b)
  {
  }

  /** A half turn is 180 degrees and a full turn 360. */
  lemma HalfTurn()
    ensures DegreesToRadians(180.0) == Pi
    ensures RadiansToDegrees(2.0 * Pi) == 360.0
  {
  }

  /** The conversions are monotone: a larger angle converts to a larger angle. */
  lemma ConversionsMonotone(a: real, b: real)
    requires a < b
    ensures DegreesToRadians(a) < DegreesToRadians(b)
    ensures RadiansToDegrees(a) < RadiansToDegrees(b)
  {
  }
}
