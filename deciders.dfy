/**
 * The deciders of `src/deciders.rs` and `robot/src/deciders.rs`: the action for the current
 * user input. Both copies are the same.
 */
module Deciders {
  import opened Wrappers
  import opened Actions

  /** The joystick's axes, when a joystick reports; reading the gamepad is not modelled. */
  datatype UserInput = UserInput(joystick: Option<(real, real)>)

  /** `v.min(1.0).max(-1.0)`. */
  function Clamp(v: real): (c: real)
    ensures -1.0 <= c <= 1.0
    ensures -1.0 <= v <= 1.0 ==> c == v
    ensures v > 1.0 ==> c == 1.0
    ensures v < -1.0 ==> c == -1.0
  {
    var upper := if v < 1.0 then v else 1.0;
    if upper > -1.0 then upper else -1.0
  }

  /** `AlwaysIdle::decide`. */
  function AlwaysIdle(userInput: UserInput): (a: Action)
    ensures a == Idle
  {
    Idle
  }

  /** `FollowJoystick::decide`: the left motor follows `jx + jy`, the right one `jy - jx`, each clamped. */
  function FollowJoystick(userInput: UserInput): (a: Action)
    ensures userInput.joystick.None? <==> a.Idle?
    ensures a.Drive? ==> -1.0 <= a.motorLeft <= 1.0 && -1.0 <= a.motorRight <= 1.0
  {
    match userInput.joystick
    case None => Idle
    case Some((jx, jy)) => Drive(Clamp(jx + jy), Clamp(jy - jx))
  }

  /** Mirroring the stick sideways swaps the motors; a centred stick drives both alike. */
  lemma FollowJoystickSymmetry(jx: real, jy: real)
    ensures var a := FollowJoystick(UserInput(Some((jx, jy))));
      var m := FollowJoystick(UserInput(Some((-jx, jy))));
      m.motorLeft == a.motorRight && m.motorRight == a.motorLeft
    ensures var a := FollowJoystick(UserInput(Some((0.0, jy))));
      a.motorLeft == a.motorRight
  {
  }

  /** Inside the unit range the mix is exact: forward and back sum and subtract the axes. */
  lemma FollowJoystickExact(jx: real, jy: real)
    requires -1.0 <= jx + jy <= 1.0 && -1.0 <= jy - jx <= 1.0
    ensures FollowJoystick(UserInput(Some((jx, jy)))) == Drive(jx + jy, jy - jx)
  {
  }

  /**
   * Driving a decision never saturates the speed again: the commanded speed is the absolute
   * value of the decided motor value, and its direction is the value's sign.
   */
  lemma DecidedCommands(userInput: UserInput)
    requires userInput.joystick.Some?
    ensures var a := FollowJoystick(userInput);
      var (l, r) := Commands(a);
      && (a.motorLeft >= 0.0 ==> l == (FORWARD, a.motorLeft))
      && (a.motorLeft < 0.0 ==> l == (BACKWARD, -a.motorLeft))
      && (a.motorRight >= 0.0 ==> r == (FORWARD, a.motorRight))
      && (a.motorRight < 0.0 ==> r == (BACKWARD, -a.motorRight))
  {
  }
}
