/**
 * The threshold part of `my_incredible_machine_learning_model`
 * (thingy-control/src/main.rs, lines 86-110): a reading of the IMU and the
 * button becomes a full `Control` snapshot.
 *
 * Pitch and roll are taken as inputs: their `atan2f`/`sqrtf` computation is
 * floating point and is not modelled. Every finite `f32` is a real number and
 * `f32` comparison of finite values is exact, so comparing reals against the
 * exact values of the `f32` constants gives the same answers as the firmware.
 */
module Classifier {
  import opened ControlState

  /** The `f32` literal `0.3`, exactly: 10066330 * 2^-25 = 0.300000011920928955078125. */
  const TILT: real := 10066330.0 / 33554432.0

  /** `accel.z` above this means jump (exact in `f32`). */
  const JUMP_ACCEL_Z: real := -6.5

  /** `gyro.z` above this means spin (exact in `f32`). */
  const SPIN_GYRO_Z: real := 3.0

  /**
   * One sensor sample: pitch and roll in radians, `accel.2` and `gyro.2` as the
   * driver delivers them, and whether the button is pressed (`btn.is_low()`,
   * the pin being pulled up).
   */
  datatype Reading = Reading(pitch: real, roll: real, accelZ: real, gyroZ: real, button: bool)

  /** The classifier: a dead zone of +-TILT around level, strict comparisons everywhere. */
  function Classify(r: Reading): (c: Control)
    ensures c.upDown == Up <==> r.pitch < -TILT
    ensures c.upDown == Down <==> r.pitch > TILT
    ensures c.leftRight == Left <==> r.roll > TILT
    ensures c.leftRight == Right <==> r.roll < -TILT
    ensures c.shoot == r.button
    ensures c.jump <==> r.accelZ > JUMP_ACCEL_Z
    ensures c.spin <==> r.gyroZ > SPIN_GYRO_Z
  {
    Control(
      if r.roll > TILT then Left else if r.roll < -TILT then Right else LeftRight.None,
      if r.pitch < -TILT then Up else if r.pitch > TILT then Down else UpDown.None,
      r.button,
      r.accelZ > JUMP_ACCEL_Z,
      r.gyroZ > SPIN_GYRO_Z)
  }

  /** The sign of `x` with a dead zone of +-TILT: what the wire byte of a tilt should be. */
  function DeadZoneSign(x: real): (s: Int8)
    ensures s == 0 <==> -TILT <= x <= TILT
  {
    if x > TILT then 1 else if x < -TILT then -1 else 0
  }

  /**
   * On the wire, both directions carry the dead-zone sign of their angle:
   * positive roll is sent as +1 (Left), positive pitch as +1 (Down).
   */
  lemma TiltBytesAreDeadZoneSigns(r: Reading)
    ensures LeftRightToI8(Classify(r).leftRight) == DeadZoneSign(r.roll)
    ensures UpDownToI8(Classify(r).upDown) == DeadZoneSign(r.pitch)
  {
  }

  /** A steeper pitch never yields a lower wire byte; likewise for roll. */
  lemma {:induction false} ClassifyMonotone(r: Reading, s: Reading)
    requires r.pitch <= s.pitch && r.roll <= s.roll
    ensures UpDownToI8(Classify(r).upDown) <= UpDownToI8(Classify(s).upDown)
    ensures LeftRightToI8(Classify(r).leftRight) <= LeftRightToI8(Classify(s).leftRight)
  {
    TiltBytesAreDeadZoneSigns(r);
    TiltBytesAreDeadZoneSigns(s);
  }

  /** Mirroring an angle mirrors the direction: the dead zone is symmetric. */
  lemma {:induction false} ClassifySymmetric(r: Reading)
    ensures UpDownToI8(Classify(r.(pitch := -r.pitch)).upDown) == -UpDownToI8(Classify(r).upDown)
    ensures LeftRightToI8(Classify(r.(roll := -r.roll)).leftRight) == -LeftRightToI8(Classify(r).leftRight)
  {
    TiltBytesAreDeadZoneSigns(r);
    TiltBytesAreDeadZoneSigns(r.(pitch := -r.pitch));
    TiltBytesAreDeadZoneSigns(r.(roll := -r.roll));
  }

  /** Exactly +-0.3 is still level; just past it is a tilt. */
  lemma ClassifyBoundary(r: Reading)
    ensures r.pitch == TILT || r.pitch == -TILT ==> Classify(r).upDown == UpDown.None
    ensures r.roll == TILT || r.roll == -TILT ==> Classify(r).leftRight == LeftRight.None
    ensures r.pitch == 0.30001 ==> Classify(r).upDown == Down
    ensures r.pitch == -0.30001 ==> Classify(r).upDown == Up
  {
  }

  /** Lying flat and idle (accel = (0, 0, -9.8), no rotation, button up) is the default snapshot. */
  lemma NeutralReadingIsDefault()
    ensures Classify(Reading(0.0, 0.0, -9.8, 0.0, false)) == DefaultControl()
  {
  }
}
