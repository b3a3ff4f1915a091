/**
 * The controller's state: the two tri-state directions, their one-byte wire
 * encodings, the five-field `Control` snapshot with its default, and the view
 * of a snapshot as the five values the GATT characteristics carry.
 * Models thingy-control/src/main.rs, lines 41-84 and 184-200.
 */
module ControlState {
  import Wrappers

  /** A Rust `i8`. */
  newtype Int8 = x: int | -128 <= x < 128

  /** Horizontal direction; `None` is the default. */
  datatype LeftRight = Left | None | Right

  /** Vertical direction; `None` is the default. */
  datatype UpDown = Up | None | Down

  /**
   * `From<LeftRight> for i8`. The code sends Left as +1 and Right as -1
   * (the comment on the characteristic says the opposite; the model follows
   * the code).
   */
  function LeftRightToI8(lr: LeftRight): (b: Int8)
    ensures b == 1 <==> lr == Left
    ensures b == 0 <==> lr == LeftRight.None
    ensures b == -1 <==> lr == Right
  {
    match lr
    case Left => 1
    case None => 0
    case Right => -1
  }

  /** `From<UpDown> for i8`: Up is -1, Down is +1. */
  function UpDownToI8(ud: UpDown): (b: Int8)
    ensures b == -1 <==> ud == Up
    ensures b == 0 <==> ud == UpDown.None
    ensures b == 1 <==> ud == Down
  {
    match ud
    case Up => -1
    case None => 0
    case Down => 1
  }

  /** The inverse of LeftRightToI8: the bytes outside {-1, 0, 1} name no direction. */
  ghost function LeftRightFromI8(b: Int8): (r: Wrappers.Option<LeftRight>)
    ensures r.Some? <==> -1 <= b <= 1
  {
    if b == 1 then Wrappers.Some(Left)
    else if b == 0 then Wrappers.Some(LeftRight.None)
    else if b == -1 then Wrappers.Some(Right)
    else Wrappers.None
  }

  /** The inverse of UpDownToI8. */
  ghost function UpDownFromI8(b: Int8): (r: Wrappers.Option<UpDown>)
    ensures r.Some? <==> -1 <= b <= 1
  {
    if b == -1 then Wrappers.Some(Up)
    else if b == 0 then Wrappers.Some(UpDown.None)
    else if b == 1 then Wrappers.Some(Down)
    else Wrappers.None
  }

  /** Decoding the byte of a direction gives the direction back, and only it. */
  lemma LeftRightRoundTrip(lr: LeftRight, b: Int8)
    ensures LeftRightFromI8(LeftRightToI8(lr)) == Wrappers.Some(lr)
    ensures LeftRightFromI8(b) == Wrappers.Some(lr) ==> LeftRightToI8(lr) == b
  {
  }

  lemma UpDownRoundTrip(ud: UpDown, b: Int8)
    ensures UpDownFromI8(UpDownToI8(ud)) == Wrappers.Some(ud)
    ensures UpDownFromI8(b) == Wrappers.Some(ud) ==> UpDownToI8(ud) == b
  {
  }

  /** Distinct directions never share a byte. */
  lemma {:induction false} EncodingsInjective(a: LeftRight, b: LeftRight, c: UpDown, d: UpDown)
    ensures LeftRightToI8(a) == LeftRightToI8(b) ==> a == b
    ensures UpDownToI8(c) == UpDownToI8(d) ==> c == d
  {
    LeftRightRoundTrip(a, LeftRightToI8(b));
    UpDownRoundTrip(c, UpDownToI8(d));
  }

  /** `struct Control`: one full snapshot of the controller. */
  datatype Control = Control(leftRight: LeftRight, upDown: UpDown, shoot: bool, jump: bool, spin: bool)

  /** The five notifying characteristics of the control service, in declaration order. */
  datatype Field = LeftRightField | UpDownField | ShootField | JumpField | SpinField

  /** What a characteristic carries: an `i8` for the directions, a `bool` otherwise. */
  datatype Value = I8(byte: Int8) | Bool(flag: bool)

  /** Position of a field in the declaration order, which is also the order of notification. */
  function Rank(f: Field): (k: nat)
    ensures k < 5
  {
    match f
    case LeftRightField => 0
    case UpDownField => 1
    case ShootField => 2
    case JumpField => 3
    case SpinField => 4
  }

  /** The name `unwrap_notify` logs for a field. */
  function FieldName(f: Field): string
  {
    match f
    case LeftRightField => "left_right"
    case UpDownField => "up_down"
    case ShootField => "shoot"
    case JumpField => "jump"
    case SpinField => "spin"
  }

  /** The value the characteristic of field `f` carries for snapshot `c`. */
  function Encoded(c: Control, f: Field): (v: Value)
    ensures v.I8? <==> f in {LeftRightField, UpDownField}
    ensures v.I8? ==> -1 <= v.byte <= 1
  {
    match f
    case LeftRightField => I8(LeftRightToI8(c.leftRight))
    case UpDownField => I8(UpDownToI8(c.upDown))
    case ShootField => Bool(c.shoot)
    case JumpField => Bool(c.jump)
    case SpinField => Bool(c.spin)
  }

  /** `prev != cur` on field `f`, compared as the Rust code compares it: on the enum or bool. */
  predicate Differs(prev: Control, cur: Control, f: Field)
  {
    match f
    case LeftRightField => prev.leftRight != cur.leftRight
    case UpDownField => prev.upDown != cur.upDown
    case ShootField => prev.shoot != cur.shoot
    case JumpField => prev.jump != cur.jump
    case SpinField => prev.spin != cur.spin
  }

  /** Comparing the enums is the same as comparing what goes on the wire. */
  lemma {:induction false} DiffersOnWire(prev: Control, cur: Control, f: Field)
    ensures Differs(prev, cur, f) <==> Encoded(prev, f) != Encoded(cur, f)
  {
    EncodingsInjective(prev.leftRight, cur.leftRight, prev.upDown, cur.upDown);
  }

  /** Two snapshots are equal exactly when no field differs. */
  lemma {:induction false} SnapshotExtensional(a: Control, b: Control)
    ensures a == b <==> forall f :: !Differs(a, b, f)
  {
    if forall f :: !Differs(a, b, f) {
      assert !Differs(a, b, LeftRightField) && !Differs(a, b, UpDownField);
      assert !Differs(a, b, ShootField) && !Differs(a, b, JumpField) && !Differs(a, b, SpinField);
    }
  }

  /** A characteristic value at rest: the byte 0 or `false`. */
  predicate AtRest(v: Value)
  {
    v == I8(0) || v == Bool(false)
  }

  /** `Control::default()`: every characteristic at rest. */
  function DefaultControl(): (c: Control)
    ensures forall f :: AtRest(Encoded(c, f))
  {
    Control(LeftRight.None, UpDown.None, false, false, false)
  }

  /** The default is the only snapshot whose characteristics are all at rest. */
  lemma {:induction false} AtRestIsDefault(c: Control)
    ensures (forall f :: AtRest(Encoded(c, f))) <==> c == DefaultControl()
  {
    if forall f :: AtRest(Encoded(c, f)) {
      assert AtRest(Encoded(c, LeftRightField)) && AtRest(Encoded(c, UpDownField));
      assert AtRest(Encoded(c, ShootField)) && AtRest(Encoded(c, JumpField)) && AtRest(Encoded(c, SpinField));
    }
  }
}
