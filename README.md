# Thingy controller firmware: control pipeline and advertising payload

A Dafny model of the game-controller firmware that runs on a Nordic Thingy
(`thingy-control`). Every 100 ms the firmware reads the IMU and the button,
classifies the reading into a `Control` snapshot (two tri-state directions and
three booleans), and sends a GATT notification for each field that changed
since the previous cycle. Before a connection exists it advertises itself with a
payload of three AD structures: Flags, the 16-bit service UUID list and the
complete local name, as laid out in the Bluetooth Core Specification, Vol 3,
Part C, Section 11.

Modules:

- `ControlState` (control_state.dfy): `LeftRight`, `UpDown`, their `i8` wire
  encodings with inverses, the `Control` snapshot, its default, and the view of
  a snapshot as the five characteristic values.
- `Classifier` (classifier.dfy): the threshold logic of
  `my_incredible_machine_learning_model`, on pitch, roll, `accel.z`, `gyro.z`
  and the button level.
- `Notify` (notify.dfy): the edge-triggered diff of `notify_control` as a
  specification function `Diff`, the GATT server as a `Sink` class that records
  what it is asked to notify and what `unwrap_notify` logs, and the method
  `NotifyControl` proved against `Diff`. A ghost subscriber (`Receive`,
  `ReceiveAll`) decodes notifications back into a snapshot; it is the partner
  the diff is proved lossless against.
- `ControlService` (control_service.dfy): the `control_service` loop over a
  finite run of readings, with `previous_control` starting at the default.
- `Advertising` (advertising.dfy): the `adv_data` and `scan_data` buffers of
  `advertise_connectable`, with an AD-structure parser and serializer as the
  reference format.

The model follows the code:

- The comment on the `left_right` characteristic says "-1 left, 1 right", but
  `From<LeftRight> for i8` sends Left as 1 and Right as -1. The model uses 1 for
  Left and -1 for Right.
- A failed notification is only logged by `unwrap_notify`; nothing else is done
  about it.
- Each notification carries only the field's new value.
- The loop waits 100 ms between cycles.

The threshold 0.3 is compared as the `f32` literal `0.3`, which is exactly
10066330 * 2^-25. The thresholds -6.5 and 3.0 are exact in `f32`. Every finite
`f32` is a real number, so the real comparisons match the firmware's for all
finite inputs. `BLE_GAP_ADV_FLAGS_LE_ONLY_GENERAL_DISC_MODE` is 0x06 in the
nRF SoftDevice headers: LE General Discoverable Mode (0x02) together with
BR/EDR Not Supported (0x04). Those headers are not part of this model.

## Model

| member | source | states |
|---|---|---|
| ControlState.LeftRightToI8 | thingy-control/src/main.rs:49-57 | Left is sent as 1, None as 0, Right as -1; each byte names exactly one direction |
| ControlState.UpDownToI8 | thingy-control/src/main.rs:67-75 | Up is sent as -1, None as 0, Down as 1; each byte names exactly one direction |
| ControlState.LeftRightRoundTrip | thingy-control/src/main.rs:49-57 | decoding the byte of a LeftRight gives it back, and no other byte decodes to it |
| ControlState.UpDownRoundTrip | thingy-control/src/main.rs:67-75 | decoding the byte of an UpDown gives it back, and no other byte decodes to it |
| ControlState.EncodingsInjective | thingy-control/src/main.rs:49-75 | two distinct directions never share a wire byte |
| ControlState.Encoded | thingy-control/src/main.rs:184-200 | the direction characteristics carry an i8 in {-1, 0, 1}; the others carry a bool |
| ControlState.DiffersOnWire | thingy-control/src/main.rs:137-175 | a field differs as an enum or bool exactly when its wire value differs |
| ControlState.SnapshotExtensional | thingy-control/src/main.rs:77-84 | two snapshots are equal exactly when none of the five fields differs |
| ControlState.DefaultControl | thingy-control/src/main.rs:77-84 | every characteristic of `Control::default()` is at rest (byte 0 or false) |
| ControlState.AtRestIsDefault | thingy-control/src/main.rs:41-84 | the default is the only snapshot whose characteristics are all at rest: None, None, false, false, false |
| Classifier.Classify | thingy-control/src/main.rs:95-109 | Up iff pitch < -0.3, Down iff pitch > 0.3; Left iff roll > 0.3, Right iff roll < -0.3; shoot is the button; jump iff accel.z > -6.5; spin iff gyro.z > 3.0 |
| Classifier.TiltBytesAreDeadZoneSigns | thingy-control/src/main.rs:96-105 | the wire byte of each direction is the sign of its angle, with a dead zone of +-0.3 |
| Classifier.ClassifyMonotone | thingy-control/src/main.rs:96-105 | a larger pitch or roll never gives a smaller wire byte |
| Classifier.ClassifySymmetric | thingy-control/src/main.rs:96-105 | negating pitch or roll negates the wire byte |
| Classifier.ClassifyBoundary | thingy-control/src/main.rs:96-105 | exactly +-0.3 is None; pitch 0.30001 is Down and -0.30001 is Up |
| Classifier.NeutralReadingIsDefault | thingy-control/src/main.rs:86-110 | a flat, still device with the button up classifies as the default snapshot |
| Notify.DiffSound | thingy-control/src/main.rs:137-181 | every notification is for a changed field and carries the current value, encoded |
| Notify.DiffComplete | thingy-control/src/main.rs:137-181 | a field is notified if and only if it changed |
| Notify.DiffOrdered | thingy-control/src/main.rs:137-181 | notifications come strictly in the order left_right, up_down, shoot, jump, spin, at most one per field |
| Notify.DiffAtMostFive | thingy-control/src/main.rs:137-181 | one call sends at most five notifications, and five exactly when every field changed |
| Notify.DiffSelfSilent | thingy-control/src/main.rs:131-182 | diffing a snapshot against itself sends nothing |
| Notify.DiffSilentIff | thingy-control/src/main.rs:131-182 | nothing is sent exactly when the two snapshots are equal |
| Notify.DiffSingleField | thingy-control/src/main.rs:131-182 | snapshots that differ in one field send exactly one notification, for that field, with its new value |
| Notify.ReceiveDiff | thingy-control/src/main.rs:131-182 | applying one cycle's notifications to the previous snapshot gives the current one |
| Notify.Sink.Notify | thingy-control/src/main.rs:139-142 | a `*_notify` call records its event and returns an outcome the firmware does not control |
| Notify.Sink.UnwrapNotify | thingy-control/src/main.rs:34-39 | the outcome is logged under the field's name and not propagated |
| Notify.NotifyIfChanged | thingy-control/src/main.rs:137-145 | one field's block: the field's edge is sent; the log keeps its earlier lines and gains one line, named after the field, exactly when the field changed |
| Notify.NotifyControl | thingy-control/src/main.rs:131-182 | the sink is sent exactly `Diff(prev, cur)` whatever each notify returns; the log keeps every earlier line and gains one line per event, in order, each named after its event's field |
| ControlService.Run | thingy-control/src/main.rs:112-129 | `previous_control` starts at the default and ends as the last snapshot; the sink is sent the edges between consecutive snapshots; the log keeps its earlier lines and gains one line per notification sent, in order, named after its field |
| ControlService.ReplayReconstructs | thingy-control/src/main.rs:121-127 | a subscriber that applies every notification in order holds the latest snapshot |
| ControlService.SteadyIsSilent | thingy-control/src/main.rs:121-127 | while the snapshot does not change, nothing is sent |
| ControlService.EmittedBound | thingy-control/src/main.rs:121-127 | over n cycles at most 5n notifications are sent |
| ControlService.HoldAfterChange | thingy-control/src/main.rs:121-127 | a change followed by a steady snapshot sends that change's edges once |
| ControlService.SteadyReadingSendsOnce | thingy-control/src/main.rs:122-127 | a steady reading sends its difference from the default in the first cycle and nothing afterwards |
| Advertising.AdvertiseConnectable | thingy-control/src/ble.rs:70-86 | a new N+9 byte buffer holds the prefix followed by the name; the scan data is the constant four bytes |
| Advertising.AdvDataLength | thingy-control/src/ble.rs:70 | the payload is N+9 bytes |
| Advertising.AdvDataLayout | thingy-control/src/ble.rs:72-83 | bytes 0-8 are 02 01 06 03 03 09 18 (N+1 mod 256) 09, and bytes 9 onwards are the name |
| Advertising.NameOnlyInSuffix | thingy-control/src/ble.rs:72-83 | the first nine bytes depend on the name's length only; the name is recovered from bytes 9 onwards |
| Advertising.Parse | thingy-control/src/ble.rs:62-83 | reading AD structures yields data fields of at most 254 bytes |
| Advertising.ParseSerialize | thingy-control/src/ble.rs:72-83 | AD structures whose lengths fit a byte read back as themselves |
| Advertising.AdvDataWellFormed | thingy-control/src/ble.rs:70-83 | for N+1 < 256 the payload reads as Flags(06), UUIDs(0x1809) and the name, and 3 + 4 + (N+2) = N+9 |
| Advertising.LongNameMalformed | thingy-control/src/ble.rs:80 | for N+1 >= 256 the truncated length byte makes the payload not read as the name |
| Advertising.ScanDataWellFormed | thingy-control/src/ble.rs:86 | the scan data reads as the UUID list alone |

## Left out

- Pitch and roll are inputs. Their `atan2f`/`sqrtf` computation (thingy-control/src/main.rs:93-94) is floating-point numerics. NaN inputs are not modelled.
- Classify: inputs are real numbers. The model matches the firmware only for finite `f32` values; NaN is excluded.
- The hardware is not modelled: IMU and I2C access, GPIO, the SX1509 expander, `embassy_nrf::init` and the timers. A failed IMU read panics via `expect` in the firmware; the model assumes every read succeeds.
- The `select` between the GATT server and the control loop, and the advertise-then-serve loop in `main`, are left out. They are async scheduling and foreign calls.
- Run: the firmware loops forever; the model runs the loop over a finite sequence of readings. Cancelling the loop when the connection ends is not modelled.
- Notify.Sink.Notify: the radio stack's answer is left unconstrained, because the firmware cannot control it. The GATT macros and the characteristic storage belong to the BLE stack and are an abstract sink here.
- The `info!("<field>: {:?}")` lines in `notify_control` are not recorded. They are debug output. The lines that `unwrap_notify` writes are recorded as `(name, success)` pairs.
- `softdevice_setup` and `softdevice_task` are radio-stack configuration. The final `peripheral::advertise_connectable` await and its `Connection`/`AdvertiseError` result are async I/O.
- host-adapter/src/main.rs, src/main.rs and the Python message-queue consumers are not part of this model. They only connect, blink or print.
