/**
 * The driver of `src/devices/adafruit.rs` for the Adafruit DC & Stepper Motor HAT: every motor
 * pin is a PWM channel of the board, and a channel is set by writing its four registers
 * (on-time low and high byte, off-time low and high byte) one register at a time.
 */
module Adafruit {
  import opened Wrappers
  import opened Bytes
  import opened Bus
  import opened Actions

  /** `pwm_id_to_reg`: the first of the four registers of PWM channel `led`. */
  function PwmIdToReg(led: u8): u8
    requires 6 + led * 4 < 256
  {
    6 + led * 4
  }

  /** The PWM channel that carries the speed of a motor; unknown motors are motor 0. */
  function SpeedPwmId(motorId: u8): u8 {
    match motorId
    case 0 => 8
    case 1 => 13
    case 2 => 2
    case 3 => 7
    case _ => 8
  }

  /** The channels of the AIN1 and AIN2 direction pins of a motor; unknown motors are motor 0. */
  function DirectionPwmIds(motorId: u8): (u8, u8) {
    match motorId
    case 0 => (9, 10)
    case 1 => (11, 12)
    case 2 => (3, 4)
    case 3 => (5, 6)
    case _ => (9, 10)
  }

  /** The first register of each of a motor's three channels: speed, AIN1, AIN2. */
  function MotorRegisters(motorId: u8): (u8, u8, u8) {
    var (ain1, ain2) := DirectionPwmIds(motorId);
    (PwmIdToReg(SpeedPwmId(motorId)), PwmIdToReg(ain1), PwmIdToReg(ain2))
  }

  /** The register blocks of two channels do not overlap. */
  predicate Apart(r1: u8, r2: u8) {
    r1 + 4 <= r2 || r2 + 4 <= r1
  }

  /**
   * The twelve four-register blocks of the four motors are pairwise apart, so no write for one
   * pin touches another pin, and every motor id above 3 drives motor 0.
   */
  lemma RegisterBlocksApart(m1: u8, m2: u8)
    requires m1 <= 3 && m2 <= 3
    ensures var (s, a, b) := MotorRegisters(m1); Apart(s, a) && Apart(s, b) && Apart(a, b)
    ensures m1 != m2 ==> var (s1, a1, b1) := MotorRegisters(m1); var (s2, a2, b2) := MotorRegisters(m2);
      && Apart(s1, s2) && Apart(s1, a2) && Apart(s1, b2)
      && Apart(a1, s2) && Apart(a1, a2) && Apart(a1, b2)
      && Apart(b1, s2) && Apart(b1, a2) && Apart(b1, b2)
    ensures forall m: u8 :: m > 3 ==> MotorRegisters(m) == MotorRegisters(0)
  {
  }

  /** The register writes of `i2c_write_to_reg_sequence`: register `reg + k` gets `data[k]`. */
  function RegWrites(reg: u8, data: seq<u8>): (msgs: seq<seq<u8>>)
    requires reg + |data| <= 256
  {
    seq(|data|, k requires 0 <= k < |data| => [reg + k, data[k]])
  }

  /** The writes address consecutive registers upwards from `reg`, each with its own byte. */
  lemma RegWritesSpec(reg: u8, data: seq<u8>)
    requires reg + |data| <= 256
    ensures |RegWrites(reg, data)| == |data|
    ensures forall k :: 0 <= k < |data| ==> |RegWrites(reg, data)[k]| == 2
    ensures forall k :: 0 <= k < |data| ==> RegWrites(reg, data)[k][0] == reg + k
    ensures forall k :: 0 <= k < |data| ==> RegWrites(reg, data)[k][1] == data[k]
  {
  }

  /** `speed.max(0.0).min(1.0)`. */
  function Clamp01(x: real): (c: real)
    ensures 0.0 <= c <= 1.0
    ensures 0.0 <= x <= 1.0 ==> c == x
    ensures x < 0.0 ==> c == 0.0
    ensures x > 1.0 ==> c == 1.0
  {
    if x < 0.0 then 0.0 else if x > 1.0 then 1.0 else x
  }

  /**
   * The off-time of the speed channel, `(clamped speed * 4095).round() as u16`. Rounding is half
   * away from zero, which on a non-negative value is the floor of the value plus a half.
   */
  function Duty(speed: real): (d: u16)
    ensures d <= 4095
    ensures (d as real) - 0.5 <= Clamp01(speed) * 4095.0 < (d as real) + 0.5
  {
    var x := Clamp01(speed) * 4095.0;
    var d := (x + 0.5).Floor;
    assert d <= 4095 by {
      assert x + 0.5 < 4096.0;
    }
    d
  }

  /** No speed, or a negative one, is off; full speed, or more, is the full 4095. */
  lemma DutyEnds(speed: real)
    ensures speed <= 0.0 ==> Duty(speed) == 0
    ensures speed >= 1.0 ==> Duty(speed) == 4095
  {
  }

  /** A faster command never gives a shorter duty. */
  lemma DutyMonotone(s1: real, s2: real)
    requires s1 <= s2
    ensures Duty(s1) <= Duty(s2)
  {
    assert Clamp01(s1) <= Clamp01(s2);
    assert Clamp01(s1) * 4095.0 <= Clamp01(s2) * 4095.0;
  }

  /** The four register bytes of the speed channel: on at 0, off at the duty, low bytes first. */
  function SpeedData(speed: real): seq<u8> {
    var (lo, hi) := U16ToLeBytes(Duty(speed));
    [0x00, 0x00, lo, hi]
  }

  /** The on-time is zero and the off-time bytes, read back, are the duty. */
  lemma SpeedDataDecodes(speed: real)
    ensures |SpeedData(speed)| == 4 && SpeedData(speed)[0] == 0 && SpeedData(speed)[1] == 0
    ensures U16FromBeBytes(SpeedData(speed)[3], SpeedData(speed)[2]) == Duty(speed)
    ensures SpeedData(speed)[3] <= 0x0F
  {
    U16LeRoundTrip(Duty(speed));
  }

  /** A pin driven always high: on at 0, off at 4095. */
  const HIGH: seq<u8> := [0x00, 0x00, 0xFF, 0x0F]

  /** A pin driven always low. */
  const LOW: seq<u8> := [0x00, 0x00, 0x00, 0x00]

  /** The data for AIN1 and AIN2: forward, backward (swapped) and brake (both low). */
  function DirectionData(direction: Directions): (seq<u8>, seq<u8>) {
    match direction
    case FORWARD => (HIGH, LOW)
    case BACKWARD => (LOW, HIGH)
    case BREAK => (LOW, LOW)
  }

  /**
   * A pin set high gets what full speed writes on a speed channel and a pin set low what no
   * speed writes; at most one of the two pins is ever high, and backward is forward swapped.
   */
  lemma DirectionLevels(direction: Directions)
    ensures HIGH == SpeedData(1.0) && LOW == SpeedData(0.0)
    ensures DirectionData(direction).0 != HIGH || DirectionData(direction).1 != HIGH
    ensures DirectionData(BACKWARD) == (DirectionData(FORWARD).1, DirectionData(FORWARD).0)
    ensures direction == BREAK <==> DirectionData(direction).0 == DirectionData(direction).1
  {
    assert Duty(1.0) == 4095 && Duty(0.0) == 0;
  }

  /** The writes of `set_speed`. */
  function SpeedWrites(motorId: u8, speed: real): seq<seq<u8>> {
    RegWrites(MotorRegisters(motorId).0, SpeedData(speed))
  }

  /** The writes of `set_direction`: AIN1's four registers, then AIN2's. */
  function DirectionWrites(motorId: u8, direction: Directions): seq<seq<u8>> {
    var (_, ain1, ain2) := MotorRegisters(motorId);
    var (data1, data2) := DirectionData(direction);
    RegWrites(ain1, data1) + RegWrites(ain2, data2)
  }

  class AdafruitDCStepperHat {
    const device: I2CDevice

    constructor(device: I2CDevice)
      ensures this.device == device
    {
      this.device := device;
    }

    /** `i2c_write_to_reg_sequence`: one write per byte, stopping at the first error. */
    method WriteToRegSequence(reg: u8, data: seq<u8>) returns (ok: bool)
      requires reg + |data| <= 256
      modifies device
      ensures ok <==> FirstFailure(device.failing, old(device.attempts), |data|).None?
      ensures WroteUntilFailure(device.failing, old(device.attempts), old(device.written),
                                RegWrites(reg, data), device.written, device.attempts)
      ensures device.responses == old(device.responses)
    {
      ghost var start, w0 := device.attempts, device.written;
      ghost var msgs := RegWrites(reg, data);
      var k := 0;
      while k < |data|
        invariant 0 <= k <= |data|
        invariant device.written == w0 + msgs[..k] && device.attempts == start + k
        invariant forall t :: start <= t < device.attempts ==> t !in device.failing
        invariant device.responses == old(device.responses)
      {
        ok := device.Write([reg + k, data[k]]);
        if !ok {
          FailedAt(device.failing, start, w0, msgs, k);
          return;
        }
        assert msgs[..k + 1] == msgs[..k] + [msgs[k]];
        k := k + 1;
      }
      assert msgs[..k] == msgs;
      AllDelivered(device.failing, start, w0, msgs);
      ok := true;
    }

    /** `set_speed`: the speed channel set to the duty of the clamped speed. */
    method SetSpeed(motorId: u8, speed: real) returns (ok: bool)
      modifies device
      ensures ok <==> FirstFailure(device.failing, old(device.attempts), 4).None?
      ensures WroteUntilFailure(device.failing, old(device.attempts), old(device.written),
                                SpeedWrites(motorId, speed), device.written, device.attempts)
      ensures device.responses == old(device.responses)
    {
      ok := WriteToRegSequence(MotorRegisters(motorId).0, SpeedData(speed));
    }

    /** `set_direction`: AIN1 first, and AIN2 only when AIN1 was set. */
    method SetDirection(motorId: u8, direction: Directions) returns (ok: bool)
      modifies device
      ensures ok <==> FirstFailure(device.failing, old(device.attempts), 8).None?
      ensures WroteUntilFailure(device.failing, old(device.attempts), old(device.written),
                                DirectionWrites(motorId, direction), device.written, device.attempts)
      ensures device.responses == old(device.responses)
    {
      var (_, ain1, ain2) := MotorRegisters(motorId);
      var (data1, data2) := DirectionData(direction);
      ghost var start, w0 := device.attempts, device.written;
      ok := WriteToRegSequence(ain1, data1);
      ghost var t1, w1 := device.attempts, device.written;
      if ok {
        ok := WriteToRegSequence(ain2, data2);
      }
      WroteAppend(device.failing, start, w0, RegWrites(ain1, data1), RegWrites(ain2, data2),
                  w1, t1, device.written, device.attempts);
    }

    /** `MotorController::run`: the direction, then, if that went through, the speed. */
    method Run(motorId: u8, direction: Directions, speed: real) returns (ok: bool)
      modifies device
      ensures ok <==> FirstFailure(device.failing, old(device.attempts), 12).None?
      ensures WroteUntilFailure(device.failing, old(device.attempts), old(device.written),
                                DirectionWrites(motorId, direction) + SpeedWrites(motorId, speed),
                                device.written, device.attempts)
      ensures device.responses == old(device.responses)
    {
      ghost var start, w0 := device.attempts, device.written;
      ok := SetDirection(motorId, direction);
      ghost var t1, w1 := device.attempts, device.written;
      if ok {
        ok := SetSpeed(motorId, speed);
      }
      WroteAppend(device.failing, start, w0, DirectionWrites(motorId, direction), SpeedWrites(motorId, speed),
                  w1, t1, device.written, device.attempts);
    }
  }

  /** `AdafruitDCStepperHat::new`: the board is reset by writing `[0, 0]`; a failed write is an error. */
  method Open(device: I2CDevice) returns (r: Option<AdafruitDCStepperHat>)
    modifies device
    ensures r.Some? <==> old(device.attempts) !in device.failing
    ensures r.Some? ==> fresh(r.value) && r.value.device == device
    ensures device.attempts == old(device.attempts) + 1 && device.responses == old(device.responses)
    ensures device.written == old(device.written) + (if r.Some? then [[0x00, 0x00]] else [])
  {
    var ok := device.Write([0x00, 0x00]);
    if ok {
      var hat := new AdafruitDCStepperHat(device);
      r := Some(hat);
    } else {
      r := None;
    }
  }
}
