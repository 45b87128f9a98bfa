# Robot localisation on a Raspberry Pi, modelled in Dafny

The robot estimates its 2-D position and velocity from several sensors. A GPS receiver gets RTCM corrections from an NTRIP caster. An inertial sensor and an optical-flow sensor give dead reckoning. A linear Kalman filter fuses the streams into a track, which a Rauch-Tung-Striebel pass smooths backwards. A decision loop turns joystick input into motor commands for an Adafruit motor board.

The model covers:

- **The Kalman engine, in its three generations.**
  - The self-contained `src/filter`: models, `KalmanTrack`, prediction, update and smoothing.
  - `sensor_fusion::kalman`, whose update returns `Result`.
  - `sensor_fusion::kalman2`, whose update panics on a singular innovation covariance.
  - The `sensor_fusion` track and the blanket estimator.
- **Its matrix inverse.** nalgebra's `try_inverse` is modelled as Gauss-Jordan elimination over the reals.
  - A `Some` is proved to be a two-sided inverse.
  - A `None` is proved to come only from a singular matrix.
- **The sequential cores around the engine:**
  - the consumer side of the background sampler and of the request worker;
  - the NMEA 0183 checksum and framing, and the GGA matcher;
  - the NTRIP request, with the `Basic` credential of section 2 of RFC 7617 over the base64 of section 4 of RFC 4648;
  - the correction rate limiter;
  - the joystick mixer and the motor commands;
  - the sensor combinators and the velocity sensors;
  - the bounding box of a track;
  - the drivers of the motor board, the PAA5100 optical-flow sensor and the BNO055 inertial sensor.

Modelling conventions:

- **Numbers.** Floating-point values are `real`. Vectors and matrices are sequences. Machine integers are subset types of `int`, with their width written out where it matters.
- **Clocks.** Instants are nanosecond counts handed in by the caller.
  - `std::time::Instant` subtraction saturates at zero.
  - `chrono` durations are signed and truncated to whole milliseconds by `num_milliseconds`.
- **Buses and ports.** Each is a class holding:
  - the responses its reads will deliver, where `None` stands for an I/O error;
  - the numbers of the write attempts that fail;
  - a log of what was written.
- **Foreign calls are function parameters.** These are the NMEA parser, the correction service, the geodetic conversion, cosine and sine, and the quaternion inverse.
- **Duplicate copies are modelled once.** These are the copies in `robot/src` (actions and deciders) and `sensors/src/gps.rs` (`extract_gga_sentence`, `create_request`). They match their `src` counterparts line for line.

## Model

| member | source | states |
|---|---|---|
| Time.SaturatingSub | src/filter/track.rs:138 | `Instant` subtraction: the elapsed nanoseconds when the later instant is not earlier, zero otherwise |
| Time.NumMilliseconds | sensor_fusion/src/kalman/model.rs:27 | `num_milliseconds`: the whole milliseconds, rounded toward zero for both signs |
| Time.SubMillisecondDiscarded | sensor_fusion/src/kalman/model.rs:27 | a remainder below one millisecond changes neither the milliseconds nor the step in seconds |
| Time.NumMillisecondsOdd | sensor_fusion/src/kalman/model.rs:27 | negating the duration negates the milliseconds (truncation, not Euclidean division) |
| Time.DtSecondsZero | sensor_fusion/src/kalman/model.rs:27 | a zero duration is a zero step |
| Bytes.I16FromBeBytes | src/devices/paa5100.rs:59 | `i16::from_be_bytes`: negative exactly when the high byte's top bit is set, and congruent to the unsigned reading modulo 65536 |
| Bytes.U16LeRoundTrip | src/devices/adafruit.rs:64 | the `to_le_bytes` pair of a duty cycle, read high byte first, is the duty cycle |
| Bytes.I16BeRoundTrip | src/devices/paa5100.rs:59 | `i16::from_be_bytes` and `to_be_bytes` are inverse in both directions |
| Decimal.DigitChar | src/utils.rs:109 | the character of a digit is a digit character of that value |
| Decimal.NatToString | src/sensor_utils/gps_utils.rs:111 | `Display` of an unsigned number: non-empty, only digits, no leading zero |
| Decimal.NatToStringValue | src/sensor_utils/gps_utils.rs:111 | the printed digits read back as the number |
| Utils.LogErrUnwrap | src/utils.rs:177-182 | the success value of an `Ok`, the default for an `Err` |
| Utils.LogErrUnwrapIsUnwrapOr | src/utils.rs:177-182 | the same as `ok()` followed by `unwrap_or(default)` |
| Utils.Split | src/utils.rs:107-108 | `split(",")`: at least one piece, and no piece holds the separator |
| Utils.JoinSplit | src/utils.rs:107-108 | the pieces joined by the separator give the string back |
| Utils.Join | src/utils.rs:107-108 | the inverse of `split`, joining with the separator; `JoinSplit` and `SplitJoin` state the two are inverse |
| Utils.SplitJoin | src/utils.rs:107-108 | splitting the join of separator-free pieces gives the pieces back |
| Utils.SplitPiece | src/utils.rs:107-108 | a string without the separator is one piece |
| Utils.SplitPrefix | src/utils.rs:107-108 | a separator-free prefix before a separator becomes the first piece |
| Utils.ParseU8 | src/utils.rs:109 | `parse::<u8>`: succeeds exactly on an optional `+` and one or more digits of value below 256, and gives that value |
| Utils.ParseU8Display | src/utils.rs:109 | every printed byte parses back to itself, with or without `+` |
| Utils.ParseU8Rejects | src/utils.rs:109 | the empty string, a lone `+` and a leading `-` are rejected |
| Utils.ParseAll | src/utils.rs:109-110 | `collect` into a `Result`: `Ok` exactly when every piece parses, and then the bytes in order |
| Utils.ParseAllFirstError | src/utils.rs:109-110 | the error is that of the first piece that does not parse |
| Utils.GetCalibration | src/utils.rs:105-113 | a missing variable is an error; otherwise the comma-separated pieces parsed as bytes |
| Utils.CalibrationRoundTrip | src/utils.rs:105-113 | the comma-separated text of a non-empty byte list reads back as that list |
| Utils.CalibrationEmpty | src/utils.rs:105-113 | an empty variable is one empty piece, which is an invalid byte |
| Utils.GameLoop.constructor | robot/src/utils.rs:16-23 | the first frame is number zero |
| Utils.GameLoop.Next | robot/src/utils.rs:34-51 | always `Some` of the current frame number, and the counter moves on by one |
| Utils.FirstFrames | robot/src/utils.rs:34-51 | `count` calls on a new loop yield the frames 0, 1, 2, … in order |
| Utils.LastSomeSpec | src/utils.rs:273-281 | the drained state is the previous one when the batch holds no `Some`, otherwise a `Some` of the batch followed only by `None`s |
| Utils.LastSome | src/utils.rs:273-281 | the state after draining a batch; `LastSomeSpec`, `LastSomeKeepsSome` and `LastSomeConcat` state what it keeps, and `ParSampler.Next` is proved equal to it |
| Utils.LastSomeKeepsSome | src/utils.rs:274-278 | once a sample is held, no batch brings the state back to `None` |
| Utils.LastSomeConcat | src/utils.rs:273-281 | draining two batches in turn is draining their concatenation |
| Utils.ParSampler.constructor | src/utils.rs:261-266 | no state and nothing in the channel |
| Utils.ParSampler.Send | src/utils.rs:256-257 | the worker's sample joins the channel; the state is unchanged |
| Utils.ParSampler.Next | src/utils.rs:273-281 | the channel is drained, the state becomes the last `Some` received (or stays), and the state is returned |
| Utils.StatelessParSampler.constructor | robot/src/utils.rs:86-90 | nothing in the channel |
| Utils.StatelessParSampler.Send | robot/src/utils.rs:81-82 | the worker's sample joins the channel |
| Utils.StatelessParSampler.Next | robot/src/utils.rs:97-106 | the channel is drained and the last `Some` of this call is returned, `None` when there was none |
| Utils.Requester.constructor | src/utils.rs:315-340 | no request, no response, the handler kept |
| Utils.Requester.Request | src/utils.rs:342-344 | the request joins the queue; responses unchanged |
| Utils.Requester.Work | src/utils.rs:325-331 | the oldest request, if any, is answered by the handler and its response queued |
| Utils.Requester.GetResponses | src/utils.rs:346-348 | every uncollected response, oldest first; none left afterwards |
| Utils.RequesterFifo | src/utils.rs:342-348 | the responses collected so far answer the first requests sent, in order |
| Nmea.XorAllAppend | src/utils.rs:41-47 | the XOR over a concatenation is the XOR of the parts' XORs |
| Nmea.XorAll | src/utils.rs:41-47 | the reference XOR the checksum loop is proved against in `Checksum`; `XorAllAppend` states it distributes over concatenation |
| Nmea.Checksum | src/utils.rs:41-47 | the loop's value is the XOR of the low bytes of every character after the first |
| Nmea.HexDigitValue | src/utils.rs:79 | each `{:X}` digit is an upper-case hexadecimal digit of its value |
| Nmea.Hex2 | src/utils.rs:79 | `{:02X}`: two hexadecimal digits whose value is the byte |
| Nmea.FrameSentence | src/utils.rs:77-81 | the sentence is the body, `*`, the checksum of the body in hexadecimal and CR LF |
| Nmea.Framed | src/utils.rs:77-79 | the framed sentence as a function; `FramedValid` and `FramedRoundTrip` state it passes the checksum test and gives its body back |
| Nmea.FramedValid | src/utils.rs:77-81 | a line passes the NMEA checksum test exactly when it is the framing of its own body |
| Nmea.HexPairUnique | src/utils.rs:79 | two digit pairs of the same value are the same pair |
| Nmea.FramedRoundTrip | src/utils.rs:77-81 | every framed sentence passes the checksum test, is five characters longer than its body, and the body is read back off it |
| Nmea.Abs | src/utils.rs:64-68 | `abs`: non-negative and equal to the value or its negation |
| Nmea.DegreeField | src/utils.rs:64 | `abs().trunc() as u32`: the whole degrees of the magnitude |
| Nmea.HemisphereDegrees | src/utils.rs:64-69 | `N`/`E` exactly for non-negative values, `S`/`W` exactly for negative ones, and the degrees plus the fraction are the magnitude |
| Nmea.LatitudeHemisphere | src/utils.rs:66 | `N` or `S`; `HemisphereDegrees` states `N` exactly for non-negative latitudes |
| Nmea.LongitudeHemisphere | src/utils.rs:69 | `E` or `W`; `HemisphereDegrees` states `E` exactly for non-negative longitudes |
| Nmea.FirstNewline | src/sensor_utils/gps_utils.rs:142 | the first newline at or after a position, or none at all |
| Nmea.MatchEndSpec | src/sensor_utils/gps_utils.rs:142 | a match starting at a position is found exactly when there is one, and it is the only one |
| Nmea.FindMatch | src/sensor_utils/gps_utils.rs:142-143 | the leftmost match at or after a position, and none before it |
| Nmea.ExtractGga | src/sensor_utils/gps_utils.rs:141-144 | `extract_gga_sentence`: a sentence exactly when the pattern matches somewhere, and then the leftmost match |
| Nmea.ExtractedShape | src/sensor_utils/gps_utils.rs:142 | the extracted text starts with `$`, has `GGA` after at most two characters, ends in CR LF and has no other newline |
| Nmea.NoGgaNoSentence | src/sensor_utils/gps_utils.rs:161-183 | text without `GGA`, such as an RMC sentence or plain words, yields nothing |
| Nmea.GgaLineFound | src/sensor_utils/gps_utils.rs:161-183 | a GGA line after complete lines without `GGA` is extracted whole, whatever follows it |
| Nmea.ShiftedMatch | src/sensor_utils/gps_utils.rs:142 | a GGA line matches inside any surrounding text |
| Nmea.NoMatchBefore | src/sensor_utils/gps_utils.rs:142 | no match starts inside complete lines without `GGA` |
| Coordinates.FromGga | sensors/src/coordinates.rs:27-36 | a coordinate exactly when the sentence has both longitude and latitude, and then those two |
| Coordinates.KinematicToVector | sensors/src/coordinates.rs:51-60 | the 4-vector is the position's x and y, then the velocity's vx and vy |
| Coordinates.PointToVector | sensors/src/coordinates.rs:90-94 | the 2-vector is the point's x and y |
| Coordinates.KinematicPositionPart | sensors/src/coordinates.rs:51-60 | the first half of a kinematic state's vector is its position's vector |
| Coordinates.VelocityRoundTrip | src/sensor/velocity.rs:17-23 | the velocity-to-vector and vector-to-velocity conversions are inverse in both directions |
| Coordinates.To2D | sensors/src/coordinates.rs:109-115 | the height is dropped, x and y are kept |
| Deciders.Clamp | src/deciders.rs:35-36 | `min(1.0).max(-1.0)`: within [-1, 1], unchanged inside it, the nearer end outside it |
| Deciders.AlwaysIdle | src/deciders.rs:17-21 | always `Idle` |
| Deciders.FollowJoystick | src/deciders.rs:31-43 | `Idle` exactly when no joystick reports; otherwise both motor values in [-1, 1] |
| Deciders.FollowJoystickSymmetry | src/deciders.rs:35-36 | mirroring the stick sideways swaps the motors; a stick with no sideways part drives both alike |
| Deciders.FollowJoystickExact | src/deciders.rs:35-36 | inside the unit range the motors get exactly `jx + jy` and `jy - jx` |
| Deciders.DecidedCommands | src/actions.rs:61-69 | a decided motor value is commanded as its sign and its absolute value, with no further saturation |
| Actions.DirectionOf | src/actions.rs:29-35 | `FORWARD` exactly for values of zero and above, `BACKWARD` exactly below |
| Actions.SpeedOf | src/actions.rs:63 | `abs().min(1.0)`: within [0, 1], the magnitude inside the unit range and 1 outside it |
| Actions.Commands | src/actions.rs:56-71 | speeds within [0, 1]; `Idle` brakes both motors at speed 0; `Drive` never brakes |
| Actions.MockMotorController.constructor | src/actions.rs:101-108 | four motors in the given state, with the given failing motors |
| Actions.MockMotorController.SetSpeed | src/actions.rs:84-89 | succeeds exactly for a motor whose speed command does not fail, and then changes only that motor's speed |
| Actions.MockMotorController.SetDirection | src/actions.rs:91-96 | succeeds exactly for a motor whose direction command does not fail, and then changes only that motor's direction |
| Actions.MockMotorController.Run | src/actions.rs:11-14 | the direction, then the speed unless the direction failed; succeeds exactly when neither fails |
| Actions.PerformAction | src/actions.rs:50-72 | motor 0 gets the left command, motor 2 the right one only if motor 0 succeeded; motors 1 and 3 untouched; success exactly when both runs succeed |
| Actions.PerformActionTest | src/actions.rs:99-125 | the four actions of the test leave motors 0 and 2 in the states the test asserts |
| SensorLogic.Source.constructor | src/sensor/logic.rs:3 | a sensor that will yield the given items, not yet polled |
| SensorLogic.Source.Next | src/sensor/logic.rs:3 | `Iterator::next`: the next item (`None` once exhausted), the rest kept, one more poll |
| SensorLogic.Preprocessor.constructor | src/sensor/logic.rs:21-23 | a preprocessor that has not run yet |
| SensorLogic.Preprocessor.Run | src/sensor/logic.rs:21-23 | `run`: the preprocessor's value, and the input recorded |
| SensorLogic.PreprocessedSensor.constructor | src/sensor/logic.rs:40-46 | keeps the sensor and the preprocessor |
| SensorLogic.PreprocessedSensor.Next | src/sensor/logic.rs:56-58 | the sensor is polled once; a sample is preprocessed and returned, no sample returns `None` without running the preprocessor |
| SensorLogic.CombinedSensor.constructor | src/sensor/logic.rs:75-81 | keeps both sensors |
| SensorLogic.CombinedSensor.Next | src/sensor/logic.rs:87-91 | one step of the pair: the first sensor polled once, the second only after a sample of the first |
| SensorLogic.CombineStepSpec | src/sensor/logic.rs:87-91 | a pair exactly when both sensors give a sample, and then those two; a `None` from the first leaves the second unpolled, a sample of the first consumes one item of the second |
| SensorLogic.LostSample | src/sensor/logic.rs:87-91 | a first sample whose partner is missing is lost: the next step starts after both |
| SensorLogic.Attach | src/sensor/logic.rs:4-10 | a new preprocessed sensor over the sensor and the preprocessor |
| SensorLogic.Combine | src/sensor/logic.rs:12-18 | a new combined sensor over the two sensors |
| Kinematics.TrapezoidConstant | src/sensor/velocity.rs:111-114 | under a constant acceleration the step adds acceleration times time |
| Kinematics.Trapezoid | src/sensor/velocity.rs:111-114 | the trapezoid step; `TrapezoidConstant`, `TrapezoidLinear`, `TrapezoidSymmetric` and `TrapezoidKeeps` state that it is exact for constant and linear acceleration, symmetric and neutral at zero |
| Kinematics.TrapezoidLinear | src/sensor/velocity.rs:111-114 | under a linearly changing acceleration the step is exact: it adds the mean acceleration times time |
| Kinematics.TrapezoidSymmetric | src/sensor/velocity.rs:112 | the step does not depend on the order of the two samples |
| Kinematics.TrapezoidKeeps | src/sensor/velocity.rs:112-114 | a step of no time, or between two zero accelerations, keeps the velocity |
| Kinematics.AccelerationToVelocity.constructor | src/sensor/velocity.rs:89-95 | at rest, with a zero acceleration sample taken now |
| Kinematics.AccelerationToVelocity.Next | src/sensor/velocity.rs:101-119 | the sensor is polled once; a sample moves the velocity one trapezoid step over the elapsed time, becomes the last sample and the new velocity is returned; no sample changes nothing |
| Kinematics.LocalVelocity | src/sensor_utils/velocity.rs:94-97 | the velocity in the local frame is the scaled distance over the elapsed seconds |
| Kinematics.RotateKeepsSpeed | src/sensor_utils/velocity.rs:100-101 | turning into the global frame keeps the speed |
| Kinematics.Rotate | src/sensor_utils/velocity.rs:100-101 | the turn into the global frame; `RotateKeepsSpeed`, `RotateInverse` and `RotateZero` state it keeps the speed, is undone by the opposite angle and is the identity at heading 0 |
| Kinematics.GlobalVelocity | src/sensor_utils/velocity.rs:93-101 | the local velocity turned by the heading; `LocalVelocity` and `RotateKeepsSpeed` give its value and speed, and `UnitFactor` relates the two sensors using it |
| Kinematics.RotateInverse | src/sensor_utils/velocity.rs:100-101 | turning by the opposite angle undoes the turn |
| Kinematics.RotateZero | src/sensor_utils/velocity.rs:100-101 | a heading of zero keeps the local velocity |
| Kinematics.OrientedVelocity.constructor | src/sensor_utils/velocity.rs:70-76 | the clock starts now, with the two sensors |
| Kinematics.OrientedVelocity.Next | src/sensor_utils/velocity.rs:84-107 | both sensors are polled once; a velocity exactly when both give a sample, then the millimetre distance over the time since the last success, turned by the heading, and the time is kept; otherwise nothing changes |
| Kinematics.SimpleVelocitySensor.constructor | sensors/src/lib.rs:59-61 | the clock starts now, with the compass and the distance sensor |
| Kinematics.SimpleVelocitySensor.Next | sensors/src/lib.rs:67-90 | as the oriented velocity, without the millimetre factor |
| Kinematics.UnitFactor | sensors/src/lib.rs:77-80 | the two velocity sensors differ by the factor 1000 only |
| Position.FixOfReadSpec | sensors/src/lib.rs:43 | a read gives a coordinate exactly when the read, the GGA extraction, the parser and both coordinates succeed, and then it is the sentence's longitude and latitude |
| Position.Fixes | sensors/src/lib.rs:28 | the coordinate of each read, in order |
| Position.PositionOf | sensors/src/lib.rs:43-44 | a plane position exactly when there is a coordinate, and then its conversion relative to the base point with the height dropped |
| Position.ReadFix | sensors/src/lib.rs:28 | one read of the receiver reduced to its coordinate; the port advances by one read |
| Position.ReadUntilFix | sensors/src/lib.rs:27-32 | the loop stops at the first read that yields a coordinate, which it returns, having consumed exactly the reads up to it |
| Position.SimplePositionSensor.constructor | sensors/src/lib.rs:26-36 | the base point is the first coordinate read, and the receiver has consumed exactly the reads up to it |
| Position.SimplePositionSensor.Next | sensors/src/lib.rs:42-45 | the plane position of the next read, `None` when it yields no coordinate; one read consumed |
| State2D.FoldMin | src/state.rs:52 | the fold with `min` is a lower bound of the start and every value, and is one of them |
| State2D.FoldMax | src/state.rs:70 | the fold with `max` is an upper bound of the start and every value, and is one of them |
| State2D.Xs | src/state.rs:51 | the x coordinates of the track, in order |
| State2D.Ys | src/state.rs:56 | the y coordinates of the track, in order |
| State2D.MinSpec | src/state.rs:48-57 | the minimum of non-empty values is a lower bound that one of them attains |
| State2D.MaxSpec | src/state.rs:66-75 | the maximum of non-empty values is an upper bound that one of them attains |
| State2D.MinIs | src/state.rs:48-57 | a lower bound that is one of the values is the minimum |
| State2D.MaxIs | src/state.rs:66-75 | an upper bound that is one of the values is the maximum |
| State2D.BoundingBox | src/state.rs:46-80 | the corners exist exactly for a non-empty track; each corner coordinate bounds that coordinate of every point and is the coordinate of some point |
| State2D.Cartesian2DTrack.MinPointTrack | src/state.rs:46-62 | the lower-left corner of the pushed points; `BoundingBox` states it exists exactly for a non-empty track and bounds and is attained per coordinate |
| State2D.Cartesian2DTrack.MaxPointTrack | src/state.rs:64-80 | the upper-right corner of the pushed points; `BoundingBox` states it exists exactly for a non-empty track and bounds and is attained per coordinate |
| State2D.Cartesian2DTrack.constructor | src/state.rs:11-13 | the empty track |
| State2D.Cartesian2DTrack.Push | src/state.rs:15-17 | the point is appended at the end |
| State2D.TestTrackCorners | tests/state.rs:7-22 | the five points of the test give the corners (-1, -3) and (4, 5), and the lower-left corner is none of the points |
| State2D.MinMaxPointOnTrack | tests/state.rs:7-22 | pushing the five points of the test yields the corners the test asserts |
| Ublox.FlattenAppend | sensors/src/gps.rs:219 | flattening a concatenation concatenates the flattened parts |
| Ublox.SerialPort.constructor | src/sensors/ublox.rs:19-22 | a port that will deliver the given reads, with no write attempted |
| Ublox.SerialPort.ReadFromDevice | src/sensors/ublox.rs:26-33 | the text of the next read, or `None` for an I/O error; writes untouched |
| Ublox.SerialPort.WriteAll | src/sensors/ublox.rs:35-37 | one write attempt; it succeeds exactly when its number is not failing, and only then is the data logged |
| Ublox.UbloxSensor.constructor | src/sensors/ublox.rs:19-22 | keeps the port |
| Ublox.UbloxSensor.Next | src/sensors/ublox.rs:46-54 | the text of one read, `None` when the read fails |
| Ublox.UbloxSensor.NextGga | sensors/src/gps.rs:57-69 | the GGA sentence of one read, extracted and parsed; `None` when the read, the extraction or the parser fails |
| Ublox.GgaOfRead | src/sensors/ublox.rs:111-114 | one read reduced to its GGA data; `UbloxSensor.NextGga` and `CorrectedUbloxSensor.Next` are proved to return it |
| Ublox.WriteBatches | src/sensors/ublox.rs:89-93 | every message of every batch, in order, until the first write that fails; success exactly when none fails |
| Ublox.StoppedAt | src/sensors/ublox.rs:89-93 | a failure at message `j` of batch `i` ends the writing there, with the messages before it written |
| Ublox.NtripUbloxSensor.constructor | src/sensors/ublox.rs:68-86 | no request yet, the worker's handler is the correction service with no messages on an error, and `last_time` is two seconds back, so a request is due |
| Ublox.NtripUbloxSensor.ApplyAvailableCorrection | src/sensors/ublox.rs:88-95 | every collected correction message is written, batch by batch, until the first failure; the responses are collected |
| Ublox.NtripUbloxSensor.RequestNewCorrection | src/sensors/ublox.rs:97-104 | when two seconds have passed since `last_time`, the sentence is requested and `last_time` becomes now; otherwise nothing changes |
| Ublox.NtripUbloxSensor.Next | src/sensors/ublox.rs:110-126 | a read without a GGA sentence gives `None` and changes nothing else; otherwise corrections are applied, a request made when due, and the sentence parsed |
| Ublox.DueLater | src/sensors/ublox.rs:99 | a request due at one instant is due at every later one |
| Ublox.NtripUbloxSensor.Due | src/sensors/ublox.rs:99 | two seconds or more since `last_time`, by the saturating `Instant` difference; `DueLater` states it stays true as time passes and `RequestsSpaced` that requests are spaced by it |
| Ublox.CorrectionHandler | src/sensors/ublox.rs:69-79 | the worker's handler: the correction for a sentence, or no messages when fetching fails; `NtripUbloxSensor.constructor` builds the worker with it, and `Requester.Work` answers each request with it |
| Ublox.RequestsSpaced | src/sensors/ublox.rs:97-104 | the requests are at least two seconds apart: the `j`-th is at least `j - i` times two seconds after the `i`-th |
| Ublox.RtcmChannel.constructor | sensors/src/gps.rs:204 | an empty channel |
| Ublox.RtcmChannel.Send | sensors/src/gps.rs:156 | the chunk joins the channel |
| Ublox.RtcmChannel.TryRecv | sensors/src/gps.rs:215 | the oldest chunk, or `None` for an empty channel |
| Ublox.CorrectedUbloxSensor.constructor | sensors/src/gps.rs:207-210 | keeps the receiver and the channel |
| Ublox.CorrectedUbloxSensor.ApplyAvailableCorrection | sensors/src/gps.rs:213-222 | the channel is drained and all chunks' bytes, in arrival order, go out in one write, attempted even when empty |
| Ublox.CorrectedUbloxSensor.Next | sensors/src/gps.rs:228-231 | the corrections are applied, whatever the outcome, then the GGA data of one read is returned |
| Ntrip.Utf8Char | src/sensor_utils/gps_utils.rs:116 | one to four bytes per character, the code itself for ASCII |
| Ntrip.Utf8 | src/sensor_utils/gps_utils.rs:116 | at least one and at most four bytes per character |
| Ntrip.Utf8Append | src/sensor_utils/gps_utils.rs:116 | the encoding of a concatenation is the concatenation of the encodings |
| Ntrip.AlphabetValue | src/sensor_utils/gps_utils.rs:116 | an alphabet character stands for a six-bit value |
| Ntrip.AlphabetInverse | src/sensor_utils/gps_utils.rs:116 | the alphabet maps each six-bit value to a character that stands for it |
| Ntrip.EncodeGroup | src/sensor_utils/gps_utils.rs:116 | three bytes become four characters |
| Ntrip.Base64Encode | src/sensor_utils/gps_utils.rs:116 | `STANDARD.encode`: non-empty input gives at least one group of four characters |
| Ntrip.Base64Length | src/sensor_utils/gps_utils.rs:116 | every started group of three bytes takes four characters |
| Ntrip.Base64Alphabet | src/sensor_utils/gps_utils.rs:116 | the output is alphabet characters, with `=` only as padding in the last two places |
| Ntrip.DecodeGroup | src/sensor_utils/gps_utils.rs:116 | four alphabet characters decode to three bytes |
| Ntrip.Base64RoundTrip | src/sensor_utils/gps_utils.rs:116 | decoding the encoding gives the bytes back |
| Ntrip.DecodeConcat | src/sensor_utils/gps_utils.rs:116 | a complete group followed by more text decodes to the group's bytes and then the rest's |
| Ntrip.Base64One | src/sensor_utils/gps_utils.rs:116 | one byte, padded with two `=`, decodes back |
| Ntrip.Base64Two | src/sensor_utils/gps_utils.rs:116 | two bytes, padded with one `=`, decode back |
| Ntrip.GroupRoundTrip | src/sensor_utils/gps_utils.rs:116 | a complete group decodes back to its three bytes |
| Ntrip.GroupBits | src/sensor_utils/gps_utils.rs:116 | the four six-bit values of a group put back together give its three bytes |
| Ntrip.LastGroup | src/sensor_utils/gps_utils.rs:116 | a complete group also decodes as the last group |
| Ntrip.RemoveChar | src/sensor_utils/gps_utils.rs:130-131 | `replace(c, "")`: no longer, and without the character |
| Ntrip.RemoveCharAppend | src/sensor_utils/gps_utils.rs:130-131 | removing from a concatenation removes from each part |
| Ntrip.RemoveCharAbsent | src/sensor_utils/gps_utils.rs:130-131 | a string without the character is unchanged |
| Ntrip.StripLineBreaks | src/sensor_utils/gps_utils.rs:128-131 | the `Ntrip-GGA` header holds neither CR nor LF |
| Ntrip.RemoveCharKeeps | src/sensor_utils/gps_utils.rs:130-131 | removing one character adds no other |
| Ntrip.StripAppend | src/sensor_utils/gps_utils.rs:128-131 | stripping a concatenation strips each part |
| Ntrip.StripAbsent | src/sensor_utils/gps_utils.rs:128-131 | a sentence without line breaks is unchanged |
| Ntrip.StripFramed | src/sensor_utils/gps_utils.rs:128-131 | a framed GGA sentence loses exactly its final CR LF |
| Ntrip.CreateRequest | src/sensor_utils/gps_utils.rs:109-136 | a GET of `http://addr:port/mountpoint` with the five headers, in the order they are added |
| Ntrip.CredentialsDecode | src/sensor_utils/gps_utils.rs:114-117 | the credential is `Basic ` and a base64 text that decodes to the UTF-8 bytes of `username:password` |
| Ntrip.CredentialsAscii | src/sensor_utils/gps_utils.rs:114-117 | for an ASCII user name those bytes are the name, a colon and the password |
| Ntrip.IndexOf | src/sensor_utils/gps_utils.rs:110-113 | the first position of a character at or after a position, or none at all |
| Ntrip.IndexOfAt | src/sensor_utils/gps_utils.rs:110-113 | a position holding the character with none before it is the first |
| Ntrip.UrlRoundTrip | src/sensor_utils/gps_utils.rs:110-113 | host, port and mountpoint are read back from the URL when the host has no colon |
| Ntrip.Url | src/sensor_utils/gps_utils.rs:110-113 | the request URL; `UrlRoundTrip` states host, port and mountpoint are read back from it when the host has no colon |
| Ntrip.Credentials | src/sensor_utils/gps_utils.rs:114-117 | the `Authorization` value; `CredentialsDecode` and `CredentialsAscii` state it is `Basic ` and base64 that decodes to `username:password` |
| Ntrip.RequestReadsBack | src/sensor_utils/gps_utils.rs:109-136 | the caster reads back the address, port, mountpoint, user name, host, version, the credential and the initial sentence without its CR LF |
| FilterModel.CvMatrix | src/filter/model.rs:39-48 | a 4×4 matrix: the identity with `dt` in the two places that add velocity to position |
| FilterModel.CvBlock | src/filter/model.rs:50-66 | the 4×4 block of `dt^4/4`, `dt^3/2` and `dt^2` entries |
| FilterModel.CvBlockIsNoiseGain | src/filter/model.rs:50-66 | the block is `G Gᵀ` for the gain of an acceleration held over `dt` (position `dt²/2`, velocity `dt`), hence symmetric |
| FilterModel.NoiseGainProduct | src/filter/model.rs:50-66 | each block entry is the product of two rows of that gain |
| FilterModel.CvMoves | src/filter/model.rs:39-48 | the matrix advances the position by `dt` times the velocity and keeps the velocity |
| FilterModel.CvAtZero | src/filter/model.rs:43-66 | a zero step gives the identity and a zero noise block |
| FilterModel.TransitionMatrix | src/filter/model.rs:43-48 | a 4×4 matrix for the step in whole milliseconds |
| FilterModel.TransitionError | src/filter/model.rs:56-67 | a 4×4 matrix, `q` times the block |
| FilterModel.TransitionMatrixEntries | src/filter/model.rs:43-48 | the entries of the matrix, with the step truncated to milliseconds |
| FilterModel.TransitionErrorShape | src/filter/model.rs:56-67 | the noise is `q G Gᵀ` and symmetric |
| FilterModel.TransitionBelowOneMillisecond | src/filter/model.rs:44 | a step shorter than a millisecond gives `F = I` and `Q = 0` |
| FilterModel.NewMeasureAll | src/filter/model.rs:126-133 | `H = I` and `R = diag(diagonal)` |
| FilterModel.MeasurementMatrix | src/filter/model.rs:109-111 | an `md × sd` matrix |
| FilterModel.MeasurementError | src/filter/model.rs:113-115 | an `md × md` matrix |
| FilterModel.XYMeasuresPosition | src/filter/model.rs:109-111 | the position-only model reads off the first two state components |
| FilterModel.XYErrorIsDiagonal | src/filter/model.rs:113-115 | the position-only noise is `diag(error_x, error_y)`, hence symmetric |
| FilterModel.MeasureAllIdentity | src/filter/model.rs:126-143 | a measure-all model measures the state itself, with symmetric noise |
| FilterTrack.Predict | src/filter/track.rs:155-163 | the prediction of a four-component Gaussian state is again a four-component Gaussian state |
| FilterTrack.PredictMovesAtConstantVelocity | src/filter/track.rs:155-163 | the predicted mean is the prior position advanced by `dt` times the prior velocity, with the velocity unchanged |
| FilterTrack.PredictBelowOneMillisecond | src/filter/track.rs:155-163 | a time step below one millisecond (including zero) predicts exactly the prior, mean and covariance |
| FilterTrack.PredictKeepsSymmetry | src/filter/track.rs:155-163 | prediction keeps a symmetric covariance symmetric |
| FilterTrack.InnovationCovarOf | src/filter/track.rs:177-179 | the innovation covariance is a square matrix of the measurement dimension |
| FilterTrack.Filter | src/filter/track.rs:168-188 | the update fails exactly when the innovation covariance has no computed inverse, and then with `InversionFailure`; otherwise it yields a state of the right dimensions |
| FilterTrack.FilterFailsOnlyIfSingular | src/filter/track.rs:180-182 | when the update fails, no matrix of the right size is a right inverse of the innovation covariance |
| FilterTrack.FilterZeroInnovation | src/filter/track.rs:176-185 | a measurement equal to the predicted measurement leaves the mean where the prediction put it |
| FilterTrack.FilterUpdate | src/filter/track.rs:176-187 | a successful update uses a gain solving `K S = P Hᵀ`, adds `K` times the innovation to the mean, subtracts `K S Kᵀ` from the covariance, and keeps the covariance symmetric when the prediction and `R` are |
| FilterTrack.SmoothStep | src/filter/track.rs:201-220 | one smoothing step fails exactly when the successor's predicted covariance cannot be inverted, and otherwise rewrites only the estimate, keeping timestamp, measurement, prediction and dimensions |
| FilterTrack.StepOf | src/filter/track.rs:196-221 | on waypoints of the track's dimensions the step used by the loop is the smoothing step |
| FilterTrack.SmoothStop | src/filter/track.rs:196-210 | the index at which the backward loop stops is never past its starting index |
| FilterTrack.SmoothPassCharacterized | src/filter/track.rs:196-224 | index by index: waypoints below the stopping index and from the start index on are untouched, every one in between is the step from its own old value and its already smoothed successor, and a failure comes with the error of the failing step and no rollback |
| FilterTrack.SmoothPass | src/filter/track.rs:193-224 | the backward pass as a function; `SmoothPassCharacterized`, `SmoothPassFrame` and `SmoothPassFits` state what it rewrites and keeps, and `RunSmoothPass` and `KalmanTrack.Smooth` are proved equal to it |
| FilterTrack.SmoothPassFrame | src/filter/track.rs:193-224 | the whole pass keeps the length, the last waypoint and every timestamp, measurement and prediction, and fails only with `InversionFailure` |
| FilterTrack.SmoothPassFits | src/filter/track.rs:193-224 | every waypoint after the pass still has the track's dimensions |
| FilterTrack.SmoothedFits | src/filter/track.rs:212-220 | waypoints related as in the characterization all keep the dimensions of the track |
| FilterTrack.SmoothPassUnfold | src/filter/track.rs:197-220 | one loop iteration is the step on waypoint `i-1` from waypoint `i`, returning its error at once or continuing at `i-1` |
| FilterTrack.SmoothSingleWaypoint | src/filter/track.rs:196 | on a track of zero or one waypoint the loop range is empty and the pass succeeds without change |
| FilterTrack.CmpF64 | src/filter/track.rs:308-316 | `Less`, `Greater` and `Equal` exactly when `a < b`, `a > b` and `a == b` |
| FilterTrack.MinByIsMinimum | src/filter/track.rs:291-293 | the `min_by` fold yields one of the values and it is at most every value |
| FilterTrack.MaxByIsMaximum | src/filter/track.rs:295-297 | the `max_by` fold yields one of the values and it is at least every value |
| FilterTrack.MinBy | src/filter/track.rs:291-293 | the `min_by` fold under `cmp_f64`; `MinByIsMinimum` states it is one of the values and at most every value |
| FilterTrack.MaxBy | src/filter/track.rs:295-297 | the `max_by` fold under `cmp_f64`; `MaxByIsMaximum` states it is one of the values and at least every value |
| FilterTrack.EstimateComponent | src/filter/track.rs:292 | the list of component `index` of every estimate, in track order |
| FilterTrack.MinMaxWithIndex | src/filter/track.rs:290-306 | none exactly for an empty track; otherwise a pair of estimate components, each attained by some waypoint, bracketing the component of every waypoint |
| FilterTrack.KalmanTrack.constructor | src/filter/track.rs:103-120 | the track starts as one waypoint at the given instant with a zero measurement and the initial state as both prediction and estimate |
| FilterTrack.KalmanTrack.Reset | src/filter/track.rs:125-127 | the track becomes exactly the given waypoint |
| FilterTrack.KalmanTrack.NewMeasurement | src/filter/track.rs:132-150 | the track is never empty (part of `Valid`, which `new` and `reset` establish and every method keeps), so `NotInitialized` is never returned; the last estimate is predicted over the elapsed time and filtered, a failed update leaves the track unchanged with `InversionFailure`, and a successful one appends the waypoint of the instant, the measurement, the prediction and the estimate |
| FilterTrack.KalmanTrack.Smooth | src/filter/track.rs:193-224 | the new track and outcome are those of the backward pass from the last index, so every property of the pass applies; the length and dimensions are kept |
| FilterTrack.RunSmoothPass | src/filter/track.rs:196-223 | the loop from `len - 1` down to 1 computes exactly the pass, stopping at the first failed step |
| FusionModel.TransitionMatrix | sensor_fusion/src/kalman/model.rs:26-31 | the transition matrix of the constant-velocity model is 4×4 |
| FusionModel.TransitionMatrixEntries | sensor_fusion/src/kalman/model.rs:26-31 | every entry: the identity, except `dt` (the signed step truncated to whole milliseconds, in seconds) at (0,2) and (1,3) |
| FusionModel.TransitionError | sensor_fusion/src/kalman/model.rs:39-49 | the process noise of the constant-velocity model is 4×4 |
| FusionModel.TransitionErrorShape | sensor_fusion/src/kalman/model.rs:39-49 | the process noise is `drift` times `G Gᵀ` for the gain of a constant acceleration over `dt`, and so symmetric |
| FusionModel.TransitionBelowOneMillisecond | sensor_fusion/src/kalman/model.rs:27-40 | a step shorter than one millisecond, forwards or backwards, truncates to zero and gives `F = I`, `Q = 0` |
| FusionModel.NewMeasureAll | sensor_fusion/src/kalman/model.rs:90-96 | `MeasureAllModel::new` stores the diagonal matrix of the given vector: the vector on the diagonal, zero elsewhere |
| FusionModel.MeasurementMatrix | sensor_fusion/src/kalman/model.rs:74-101 | a measurement matrix of `MD` rows and `SD` columns |
| FusionModel.MeasurementError | sensor_fusion/src/kalman/model.rs:78-105 | a square measurement noise of the measurement dimension |
| FusionModel.PositionMeasures | sensor_fusion/src/kalman/model.rs:73-81 | the position model reads off the first two state components, with noise `diag(error_x, error_y)`, which is symmetric |
| FusionModel.MeasureAllIdentity | sensor_fusion/src/kalman/model.rs:98-105 | a model built by `new` fits `<D, D>`, measures the state itself and has symmetric noise |
| FusionKalman.PredictState | sensor_fusion/src/kalman/estimator.rs:41-44 | the prediction of a four-component state is a four-component state |
| FusionKalman.Predict | sensor_fusion/src/kalman/estimator.rs:32-45 | a successful prediction has the state's dimensions |
| FusionKalman.PredictNeverFails | sensor_fusion/src/kalman/estimator.rs:37-44 | `predict` always returns `Ok`, with the prediction from the latest waypoint's state |
| FusionKalman.PredictReadsOnlyLatest | sensor_fusion/src/kalman/estimator.rs:37 | two tracks whose latest waypoints hold the same state predict the same |
| FusionKalman.PredictConstantVelocity | sensor_fusion/src/kalman/estimator.rs:42-43 | the predicted mean advances the position by `dt` times the velocity and keeps the velocity; a symmetric covariance stays symmetric |
| FusionKalman.PredictBelowOneMillisecond | sensor_fusion/src/kalman/estimator.rs:38-44 | a step under one millisecond either way predicts exactly the prior |
| FusionKalman.InnovationCovarOf | sensor_fusion/src/kalman/estimator.rs:63-65 | the innovation covariance is square of the measurement dimension |
| FusionKalman.Filter | sensor_fusion/src/kalman/estimator.rs:54-77 | the update fails (with `NumericalError`) exactly when the innovation covariance has no computed inverse; otherwise the state keeps its dimensions |
| FusionKalman.FilterFailsOnlyIfSingular | sensor_fusion/src/kalman/estimator.rs:66-68 | a failed update means no matrix of the right size is a right inverse of the innovation covariance |
| FusionKalman.FilterZeroInnovation | sensor_fusion/src/kalman/estimator.rs:62-73 | a measurement equal to `H x` leaves the mean unchanged |
| FusionKalman.FilterUpdate | sensor_fusion/src/kalman/estimator.rs:62-76 | a successful update uses a gain solving `K S = P Hᵀ`, adds `K` times the innovation to the mean, subtracts `K S Kᵀ` from the covariance, and keeps it symmetric when the prediction and `R` are |
| FusionKalman2.Predict2 | sensor_fusion/src/kalman2/estimator.rs:32-41 | the prediction from the last waypoint's state has the state's dimensions |
| FusionKalman2.Predict2Agrees | sensor_fusion/src/kalman2/estimator.rs:32-41 | it equals the never-failing prediction of the `Result`-returning filter |
| FusionKalman2.Filter2 | sensor_fusion/src/kalman2/estimator.rs:50-71 | on an invertible innovation covariance (a singular one panics in `unwrap`) the update has the state's dimensions |
| FusionKalman2.Filter2Agrees | sensor_fusion/src/kalman2/estimator.rs:56-70 | the update is the `Result`-returning update on the observation's mean at any timestamp, and the observation's covariance is never read |
| FusionKalman2.Filter2ZeroInnovation | sensor_fusion/src/kalman2/estimator.rs:58-67 | an observation whose mean equals `H x` leaves the mean unchanged |
| FusionState.Track.constructor | sensor_fusion/src/track.rs:12-16 | a new track holds exactly the initial waypoint, so it is never empty |
| FusionState.Track.Len | sensor_fusion/src/track.rs:18-20 | the number of waypoints |
| FusionState.Track.AddWaypoint | sensor_fusion/src/track.rs:22-24 | the waypoint is appended: the length grows by one, it becomes the latest, the earlier ones are unchanged |
| FusionState.Track.GetLatestWaypoint | sensor_fusion/src/track.rs:26-28 | defined on every track, since none is empty, and is the waypoint at the last index |
| FusionState.Track.IntoIter | sensor_fusion/src/track.rs:55-57 | all waypoints in insertion order, ending with the latest |
| FusionEstimator.EstimatePredictsThenFilters | sensor_fusion/src/estimator.rs:14-19 | the estimate is the filter applied to the prediction over the signed, unclamped step from the latest waypoint to the measurement, and a failed prediction is passed on unchanged |
| FusionEstimator.Estimate | sensor_fusion/src/estimator.rs:14-19 | the blanket `estimate`; `EstimatePredictsThenFilters` states it filters the prediction over the signed, unclamped step and passes on a failing prediction |
| FusionEstimator.ReplayAppends | sensor_fusion/tests/utils.rs:16-22 | replaying measurements only appends: the old track is a prefix, each new waypoint is the estimate from the waypoints before it under its measurement's timestamp, a full run appends one per measurement, and an error is the first measurement's failed estimate |
| FusionEstimator.TrackMeasurements | sensor_fusion/tests/utils.rs:16-22 | the loop builds a non-empty track equal to the replay from the initial waypoint, and stops with the first error |
| FusionEstimator.KalmanPredictorIsPredict | sensor_fusion/src/kalman/estimator.rs:32-45 | the predictor used by the estimator is `KalmanFilter::predict` on the track |
| FusionEstimator.KalmanUpdateIsFilter | sensor_fusion/src/kalman/estimator.rs:54-77 | the filter used by the estimator is `KalmanFilter::filter` |
| FusionEstimator.KalmanPredictor | sensor_fusion/src/kalman/estimator.rs:32-45 | `Predictor::predict` of the Kalman filter as a function value; `KalmanPredictorIsPredict` and `KalmanPredictorLatest` state it is `predict` on the track and never fails |
| FusionEstimator.KalmanUpdate | sensor_fusion/src/kalman/estimator.rs:54-77 | `Filter::filter` of the Kalman filter as a function value; `KalmanUpdateIsFilter` states it is `filter` |
| FusionEstimator.KalmanPredictorLatest | sensor_fusion/src/kalman/estimator.rs:37-44 | the Kalman predictor never fails and predicts from the latest waypoint's state |
| FusionEstimator.KalmanEstimate | sensor_fusion/src/estimator.rs:14-19 | with the Kalman predictor the estimate reads only the latest waypoint: the filter on the prediction from its state over the step to the measurement |
| KalmanMath.PredictIdentity | src/filter/track.rs:159-162 | with `F = I` and `Q = 0` both the predicted mean and covariance are the prior's |
| KalmanMath.PredictMean | src/filter/track.rs:160 | `F x` of the state dimension; `PredictIdentity` states `F = I` keeps the mean |
| KalmanMath.PredictCovar | src/filter/track.rs:161 | `F P Fᵀ + Q` as a square matrix of the state dimension; `PredictCovarSymmetric` states it is symmetric |
| KalmanMath.Innovation | src/filter/track.rs:176 | `z - H x` of the measurement dimension; `ZeroInnovation` states it is zero for `z = H x` |
| KalmanMath.InnovationCovar | src/filter/track.rs:177-179 | `H P Hᵀ + R` as a square matrix of the measurement dimension; `InnovationCovarSymmetric` states it is symmetric |
| KalmanMath.Gain | src/filter/track.rs:180-182 | `P Hᵀ S⁻¹` of state by measurement dimension; `GainEquation` states it solves `K S = P Hᵀ` |
| KalmanMath.UpdateMean | src/filter/track.rs:185 | `x + K ν` of the state dimension; `ZeroInnovation` states a zero innovation keeps the mean |
| KalmanMath.UpdateCovar | src/filter/track.rs:186 | `P - K S Kᵀ` as a square matrix of the state dimension; `UpdateCovarSymmetric` states it is symmetric |
| KalmanMath.ZeroInnovation | src/filter/track.rs:176-185 | a measurement equal to `H x` has zero innovation and leaves the mean unchanged, whatever the gain |
| KalmanMath.PredictCovarSymmetric | src/filter/track.rs:161 | `F P Fᵀ + Q` is symmetric when `P` and `Q` are |
| KalmanMath.InnovationCovarSymmetric | src/filter/track.rs:177-179 | `H P Hᵀ + R` is symmetric when `P` and `R` are |
| KalmanMath.UpdateCovarSymmetric | src/filter/track.rs:186 | `P - K S Kᵀ` is symmetric when `P` and `S` are |
| KalmanMath.GainEquation | src/filter/track.rs:180-182 | with a left inverse of `S`, the gain `P Hᵀ S⁻¹` solves `K S = P Hᵀ` |
| MatrixInverse.TryInverse | src/filter/track.rs:182 | `try_inverse` of an `n`×`n` matrix yields, when it succeeds, an `n`×`n` matrix |
| MatrixInverse.TryInverseSome | src/filter/track.rs:180-182 | a returned matrix is a two-sided inverse: `s m = I` and `m s = I` |
| MatrixInverse.TryInverseNone | src/filter/track.rs:182-210 | `None` is returned only for a matrix that no matrix is a right inverse of |
| MatrixInverse.GaussJordanSound | sensor_fusion/src/kalman/estimator.rs:66-68 | from any state of the elimination invariant, a completed elimination produces the inverse of `s` on both sides |
| MatrixInverse.GaussJordanSingular | sensor_fusion/src/kalman/estimator.rs:66-68 | an elimination that finds no pivot exhibits a non-zero vector in the kernel of `sᵀ`, a witness that `s` is singular |
| Bus.FirstFailure | src/devices/adafruit.rs:34-36 | the index of the first failing write of a series, with every earlier one going through, or none when all of them do |
| Bus.Delivered | src/devices/adafruit.rs:34-36 | no more messages reach the device than there are |
| Bus.Attempted | src/devices/adafruit.rs:34-36 | no more writes are tried than there are messages |
| Bus.FirstFailureAt | src/devices/adafruit.rs:34-36 | a failure at `k` with none before it is the first failure |
| Bus.AllDelivered | src/devices/adafruit.rs:34-37 | when no write fails, every message is logged, one attempt each |
| Bus.FailedAt | src/devices/adafruit.rs:35 | a failure at message `i` logs exactly the messages before it and counts `i + 1` attempts |
| Bus.FirstFailureSplit | src/devices/adafruit.rs:106-107 | the first failure of two series in a row is that of the first series, or else that of the second shifted by the first's length |
| Bus.FailureAfter | src/devices/adafruit.rs:106-107 | after a series without failures, a failure of the following series is its first failure overall |
| Bus.NoFailure | src/devices/adafruit.rs:106-107 | two series without failures make one without |
| Bus.WroteAppend | src/devices/adafruit.rs:106-107 | writing one series until an error and then, if none occurred, a second, is writing the two joined until an error |
| Bus.CountsSplit | src/devices/adafruit.rs:106-107 | the delivered and attempted counts of joined series are those of the first, followed by those of the second only when the first went through |
| Bus.Fit | src/devices/bno055.rs:46-64 | a read fills a zeroed buffer of the requested length with the bytes received, the rest staying zero |
| Bus.ReadOutcome | src/devices/bno055.rs:124 | a successful read has exactly the requested length |
| Bus.I2CDevice.constructor | src/devices/bno055.rs:18 | an opened bus that has seen no write |
| Bus.I2CDevice.Write | src/devices/adafruit.rs:35 | a write succeeds exactly when its attempt does not fail, is logged only then, and does not touch the reads to come |
| Bus.I2CDevice.Read | src/devices/bno055.rs:124 | a read returns the next response fitted to the buffer and consumes it, writing nothing |
| Bus.SpiDevice.constructor | src/devices/paa5100.rs:36-45 | an opened bus that has sent nothing |
| Bus.SpiDevice.Transfer | src/devices/paa5100.rs:105-108 | a transfer sends its bytes, and receives and consumes the next response fitted to the requested length |
| Bus.WriteNext | src/devices/bno055.rs:21-38 | one `?`-checked write in a fixed series: on success the first `k + 1` messages are written, on failure `k` is the first failure and the writing stops there |
| Adafruit.RegisterBlocksApart | src/devices/adafruit.rs:40-89 | the four-register blocks of the twelve PWM channels of the four motors are pairwise disjoint, and any motor id above 3 drives motor 0 |
| Adafruit.PwmIdToReg | src/devices/adafruit.rs:40-42 | the first register of a PWM channel; `RegisterBlocksApart` shows the channels the motors use get disjoint four-register blocks |
| Adafruit.SpeedPwmId | src/devices/adafruit.rs:55-61 | the speed channel of each motor, motor 0's for unknown ids; `RegisterBlocksApart` states the channels are disjoint and ids above 3 fall back to motor 0 |
| Adafruit.DirectionPwmIds | src/devices/adafruit.rs:83-89 | the AIN1 and AIN2 channels of each motor, motor 0's for unknown ids; `RegisterBlocksApart` states their blocks are disjoint from each other and from every speed block |
| Adafruit.RegWritesSpec | src/devices/adafruit.rs:33-38 | one two-byte write per data byte, register `reg + k` receiving `data[k]` |
| Adafruit.RegWrites | src/devices/adafruit.rs:33-38 | the writes of `i2c_write_to_reg_sequence`; `RegWritesSpec` states one two-byte write per data byte, register `reg + k` receiving `data[k]` |
| Adafruit.Clamp01 | src/devices/adafruit.rs:53 | the speed is clamped into [0, 1], kept when already inside |
| Adafruit.Duty | src/devices/adafruit.rs:53 | the off-time is at most 4095 and within one half of the clamped speed times 4095, that is, rounded |
| Adafruit.DutyEnds | src/devices/adafruit.rs:53 | no or negative speed is duty 0; full speed or more is 4095 |
| Adafruit.DutyMonotone | src/devices/adafruit.rs:53 | a faster command never gets a smaller duty |
| Adafruit.SpeedDataDecodes | src/devices/adafruit.rs:64 | the four speed bytes are an on-time of zero and, low byte first, the duty as the off-time |
| Adafruit.DirectionLevels | src/devices/adafruit.rs:94-104 | a pin set high gets what full speed writes and a pin set low what no speed writes; the two pins are never both high, backward is forward swapped, and only brake sets them equal |
| Adafruit.AdafruitDCStepperHat.constructor | src/devices/adafruit.rs:19 | the driver holds the given bus |
| Adafruit.AdafruitDCStepperHat.WriteToRegSequence | src/devices/adafruit.rs:33-38 | it succeeds exactly when none of the per-register writes fails, and the bus log grows by the writes before the first failure |
| Adafruit.AdafruitDCStepperHat.SetSpeed | src/devices/adafruit.rs:52-67 | the four writes of the motor's speed channel, from its first register, carrying the duty, stopping at the first error |
| Adafruit.AdafruitDCStepperHat.SetDirection | src/devices/adafruit.rs:81-108 | the four writes of AIN1, then, only if they all went through, the four of AIN2, with the levels of the direction |
| Adafruit.AdafruitDCStepperHat.Run | src/actions.rs:11-14 | the direction writes, then, only if they went through, the speed writes: twelve writes until the first error |
| Adafruit.Open | src/devices/adafruit.rs:16-20 | the board is reset by one write of `[0, 0]`, and the driver exists exactly when that write succeeds |
| Paa5100.DropNext | src/devices/paa5100.rs:105-108 | a transfer after `k` transfers leaves the responses after `k + 1` |
| Paa5100.Nth | src/devices/paa5100.rs:105-108 | a received buffer has the requested length |
| Paa5100.NthExact | src/devices/paa5100.rs:105-108 | a response of the requested length is received unchanged |
| Paa5100.QualityGate | src/devices/paa5100.rs:89-93 | `BadData` exactly when both quality reads succeed and the quality is below `0x19` or the shutter's low byte is `0x1F`; then it carries the quality and the deltas are never read |
| Paa5100.DistanceAvailable | src/devices/paa5100.rs:88-103 | a distance comes out exactly when all four transfers succeed and the gate passes; the transfers sent are a prefix of quality, shutter, delta x, delta y |
| Paa5100.DistanceExchange | src/devices/paa5100.rs:88-103 | the transfers and result of `get_distance`; `QualityGate`, `DistanceAvailable`, `GoodReading` and `DistanceRoundTrip` state its outcomes |
| Paa5100.ProbeExchange | src/devices/paa5100.rs:46-53 | the product-id probe of `new`; `ProbeAccepts` states it accepts exactly on `0x49` then `0xB6`, with `||` short-circuiting |
| Paa5100.MmPerPixel | src/devices/paa5100.rs:34 | the height-based scale; `Paa5100.Open` states the driver holds it and `GoodReading` that deltas are multiplied by it |
| Paa5100.GoodReading | src/devices/paa5100.rs:95-101 | the distance of four good transfers is each big-endian delta times the millimetres per pixel |
| Paa5100.DistanceRoundTrip | src/devices/paa5100.rs:56-103 | deltas sent big-endian by the sensor come back as themselves, scaled by the millimetres per pixel |
| Paa5100.DistanceSign | src/devices/paa5100.rs:61-99 | with a positive scale, a distance component is negative exactly when the high byte of its delta has the sign bit |
| Paa5100.ProbeAccepts | src/devices/paa5100.rs:46-115 | the sensor is accepted exactly when the two ids read are `0x49` and `0xB6`; the second is read only after the first was read, and a wrong id is `InvalidData` |
| Paa5100.PAA5100.constructor | src/devices/paa5100.rs:45 | the driver holds the scale and the bus |
| Paa5100.PAA5100.ReadWrite | src/devices/paa5100.rs:105-108 | the `k`-th transfer receives the `k`-th response and sends its bytes |
| Paa5100.PAA5100.GetDistance | src/devices/paa5100.rs:88-103 | the result and the transfers are those of the exchange, with one response consumed per transfer |
| Paa5100.PAA5100.Next | src/devices/paa5100.rs:121-124 | the distance of `get_distance`, or none on any error |
| Paa5100.Open | src/devices/paa5100.rs:33-54 | the scale is the height times 2.13195, and the driver exists exactly when the probe accepts the ids |
| Bno055.HigherPassFilterSpec | src/devices/bno055.rs:111-118 | values up to 0.1, negative ones included, become zero and others are kept; the result is never negative and filtering is idempotent |
| Bno055.HigherPassFilter | src/devices/bno055.rs:111-118 | the drift filter; its meaning (zero up to 0.1, identity above, idempotent) is stated by `HigherPassFilterSpec` |
| Bno055.LinearAccelerationOf | src/devices/bno055.rs:43-58 | the decoding of the four acceleration bytes; `LinearAccelerationRoundTrip` shows it reads back the two axes sent low byte first, filtered, with no vertical part |
| Bno055.QuaternionOf | src/devices/bno055.rs:60-77 | the decoding of the eight orientation bytes in units of 2⁻¹⁴; `QuaternionBounds` bounds every component in [-2, 2), and `DriverIdentityOrientation` uses that `[0, 64, 0, …]` is the identity |
| Bno055.LinearAccelerationRoundTrip | src/devices/bno055.rs:43-58 | two signed values sent low byte first come back as themselves in hundredths, filtered, with no vertical component |
| Bno055.QuaternionBounds | src/devices/bno055.rs:60-77 | every component of a read orientation lies in [-2, 2) |
| Bno055.IdentityOrientation | src/devices/bno055.rs:84-106 | for the identity orientation the global acceleration is the local one |
| Bno055.YawRotation | src/devices/bno055.rs:95-97 | a level sensor turned about the vertical axis turns the acceleration by the double angle of the quaternion, keeping its length and adding no vertical part |
| Bno055.AsWrittenLosesEast | src/devices/bno055.rs:100-103 | as written, the level east-facing sensor reports the local `y` and `z` axes, so 1 m/s² east is read as none |
| Bno055.AsWrittenShiftsComponents | src/devices/bno055.rs:84-106 | the driver's step and the corrected step read the bus alike, leave the same state and fail alike; when they succeed, the east value the driver reports is the north value of the corrected step |
| Bno055.DriverIdentityOrientation | src/devices/bno055.rs:84-106 | on a bus delivering an acceleration and the identity orientation, the driver reports the local `y` as east and zero as north, while the corrected step reports the local `x` and `y` |
| Bno055.DriverLosesEast | src/devices/bno055.rs:100-103 | the bytes of one unit of east acceleration and of the identity orientation: the driver reports (0, 0), the corrected step (1, 0) |
| Bno055.AsWrittenYaw | src/devices/bno055.rs:95-103 | for a level sensor turned about the vertical axis, the driver's north value is always zero and its east value is the true north component |
| Bno055.AccelerationAvailable | src/devices/bno055.rs:84-106 | the driver's step gives an acceleration exactly when both register writes and both reads succeed and the orientation can be inverted; the orientation is read only after the acceleration, and each read writes its register address first |
| Bno055.AccelerationStep | src/devices/bno055.rs:84-106 | `get_acceleration_global_frame` as written, the function the driver methods are proved equal to; `AccelerationAvailable`, `AsWrittenShiftsComponents`, `DriverIdentityOrientation` and `DriverLosesEast` state what it computes |
| Bno055.AccelerationStepIntended | src/devices/bno055.rs:80-106 | the corrected step, reporting the east and north parts the doc comment at lines 80-83 promises; `DriverIdentityOrientation` and `YawRotation` state its meaning |
| Bno055.BNO055.constructor | src/devices/bno055.rs:40 | the driver holds the given bus |
| Bno055.BNO055.Read | src/devices/bno055.rs:122-127 | the register address is written first, and the read happens only when that write succeeds |
| Bno055.BNO055.ReadLinearAcceleration | src/devices/bno055.rs:43-58 | four bytes from register `0x28`, decoded as the filtered acceleration, or an I/O error |
| Bno055.BNO055.ReadOrientationAsQuaternion | src/devices/bno055.rs:60-77 | eight bytes from register `0x20`, decoded in units of 2⁻¹⁴, or an I/O error |
| Bno055.BNO055.GetAccelerationGlobalFrame | src/devices/bno055.rs:84-106 | the result and the bus state are exactly `AccelerationStep`'s: the two reads, the inversion and the rotation in that order, and then indices 1 and 2 of the rotated quaternion as the source reads them |
| Bno055.BNO055.Next | src/devices/bno055.rs:151-153 | the acceleration of `AccelerationStep`, as the source computes it, or none on any error |
| Bno055.Open | src/devices/bno055.rs:17-41 | the six set-up writes (configuration mode, reset, normal power, page 0, start, fusion mode) in order until the first error; the driver exists exactly when none fails |

## Left out

- **Threads, channels and stop signals.** The background sampler's and the request worker's threads, `Drop`/`join`, and the bounded channel capacity of 128 are concurrency.
  - The model keeps the consumer-side queue semantics only.
  - The worker is an explicit sequential step (`Send`, `Work`).
- **Network I/O.** The NTRIP HTTP exchange and its stream are network I/O. So are `do_rtcm_exchange`, `NtripClient::run` and the caster.
  - The request is modelled as the URL and header list `create_request` builds.
  - The correction service is a function parameter.
- **Device opening and configuration.** This covers `LinuxI2CDevice::new`, `Spidev::open` and `configure`, and opening the serial port.
  - The drivers start from an opened bus.
  - The 700 ms pause after the BNO055 reset is not modelled.
- **Bus reads.** An empty response is read as an I/O error.
  - A short read fills the front of the zeroed buffer, and the rest stays zero.
  - `write_all` is one attempt that either succeeds or fails; partial writes are not modelled.
- **Library parsers.** The regex engine and `nmea::parse_str` are foreign code.
  - `extract_gga_sentence` is specified directly as the leftmost-match rule of its pattern.
  - The parsing of a GGA sentence into fields is a function parameter, and so is `parse_to_gga` of `src/utils.rs`.
  - `clone_gga_data` is not modelled.
- **Trigonometry and geodesy.** `GeoToENU`, `GeoToECEF` and the flat-earth converter are parameters, and so is the base point taken by `get_base_point`. Cosine and sine are given reals.
  - The rotation lemmas require `cos² + sin² = 1`.
  - The quaternion inverse is a parameter of the BNO055 driver.
- **Floating point.** The model does not capture:
  - rounding, NaN, infinities and overflow of `f32`/`f64`;
  - the `{:05.2}` minute fields of `gga_data_to_string`.

  Only the hemisphere letters, the degree fields, the checksum and the framing are modelled.
- **Strings.** Lossy UTF-8 decoding of serial reads is not modelled: a read is the text it decodes to. The UTF-8 encoding of the credential is written out.
- **Kinematics.OrientedVelocity.Next and Kinematics.SimpleVelocitySensor.Next** require a positive elapsed time when both sensors deliver. The source divides by the elapsed seconds and would produce an infinity or NaN at zero.
- **Position.SimplePositionSensor.constructor** requires that some read eventually yields a fix. The source loops forever when none does.
- **Ublox.NtripUbloxSensor.constructor** requires that at least two seconds have passed on the clock. The source's `Instant::now() - 2 s` panics before that.
- **Adafruit.PwmIdToReg** requires `6 + led * 4 < 256`. The source's `u8` arithmetic would overflow beyond channel 62, and no caller passes a channel above 13.
- **Adafruit.RegWrites** requires `reg + |data| <= 256`. The source's `reg..` range would overflow past register 255, and no caller comes close.
- **Frame counter.** `GameLoop`'s `u64` frame counter is unbounded here; a wrap after 2⁶⁴ frames is not modelled. Its timing and sleep depend on the wall clock and are not modelled.
- **Casts.** The degree field of `gga_data_to_string` is unbounded here. The source's `as u32` cast cannot truncate it, since geographic degrees stay below 360. The motor duty is proved to stay within 4095, so its `as u16` never truncates.
- **Kalman dimensions.** The `src/filter` track is modelled for the constant-velocity model, whose state dimension is four. The measurement dimension is a parameter.
- **Kalman `Err` branches.** The `Err` branches of `KalmanPredictor` and `KalmanUpdate` stand for ill-sized matrices. They cannot occur in the source, whose dimensions are type parameters.
- **Durations.** `src/filter/model.rs` takes a `chrono::Duration`, while `KalmanTrack` subtracts `std::time::Instant`s. One of the two would need a conversion that the source does not show. The model uses the saturating `std` difference, truncated to whole milliseconds as `num_milliseconds` does.
- **Parse errors.** `ParseIntError` kinds are not distinguished; every error is one `Err`.
- **`Requester::request`** reports `Ok`: sending on a channel whose worker is alive does not fail.
- **Plotting.** `plot_track`, `Cartesian2DTrack::plot`, `create_scatter` and `Track::plot` are rendering and file output.
- **Environment, configuration and logging.** This covers `get_height`, `get_ntrip_client`, `logger_init`, the main files, the calibration phase and joystick input.
- **Sensor register reads.** `read_delta_x`, `read_delta_y`, `read_squal` and `read_shutter` are each one transfer inside `GetDistance`. Their encodings are stated through `DistanceExchange`.
- **Tests as written.**
  - The randomised end-to-end Kalman test has a floating-point bound over sine and cosine ground truth, so it is out of scope.
  - `tests/state.rs` calls the private `min_point_track` and `max_point_track` as free functions; the model states its expectations on the track's functions.
  - `src/sensor/velocity.rs` destructures `Cartesian2D { x, y }` where `src/sensor/gps.rs` declares a tuple struct; the model uses named fields.
- **The `sensor_fusion` estimator signature.** `sensor_fusion/src/estimator.rs` declares `estimate`, `predict` and `filter` without `Result` and calls a `track.last()` that `Track` lacks. The model follows the `Result`-returning signatures the Kalman filter implements and the tests use with `?`, and reads the latest waypoint with `get_latest_waypoint`.
- **Clamping of the time step.** The time step of the `sensor_fusion` estimator is the signed difference of the timestamps, not clamped to be non-negative. A measurement older than the latest waypoint thus predicts backwards in time. The model follows the code; the design intent of a clamped, non-negative step is not what the code does.
- **Bno055.AccelerationStepIntended** is not used by the driver. The driver methods follow the source and report indices 1 and 2 of the rotated quaternion; the corrected step exists only to state the finding below.

## Findings

| source | as written | input that shows it | evidently intended | confidence | as-written member | corrected member |
|---|---|---|---|---|---|---|
| src/devices/bno055.rs:100-103 | the global acceleration is read from indices 1 and 2 of the rotated quaternion; nalgebra stores a quaternion as (i, j, k, w), so these are the `j` and `k` parts | identity orientation and a local acceleration of (1, 0, 0): the result is (0, 0) | the east and north parts `i` and `j`, giving (1, 0) | medium: depends on nalgebra's storage order; not executed | Bno055.DriverLosesEast | Bno055.DriverIdentityOrientation |
