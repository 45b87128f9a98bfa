/**
 * The motor commands of `src/actions.rs` and `robot/src/actions.rs`: an action becomes a
 * direction and a speed for the motors 0 and 2. The controller is the mock of the tests, an
 * array of four (direction, speed) pairs, generalised by the motor numbers whose direction or
 * speed command fails, so that the early return on an error can be stated.
 */
module Actions {

  datatype Directions = FORWARD | BACKWARD | BREAK

  datatype Action = Idle | Drive(motorLeft: real, motorRight: real)

  type Motor = (Directions, real)

  /** `Directions::from`: forward for zero and above, backward below. */
  function DirectionOf(value: real): (d: Directions)
    ensures d == FORWARD <==> value >= 0.0
    ensures d == BACKWARD <==> value < 0.0
  {
    if value >= 0.0 then FORWARD else BACKWARD
  }

  /** `value.abs().min(1.0)`. */
  function SpeedOf(value: real): (s: real)
    ensures 0.0 <= s <= 1.0
    ensures -1.0 <= value <= 1.0 ==> s == value || s == -value
    ensures (value > 1.0 || value < -1.0) ==> s == 1.0
  {
    var a := if value < 0.0 then -value else value;
    if a < 1.0 then a else 1.0
  }

  /** A motor's command: direction and speed. */
  function MotorCommand(value: real): Motor {
    (DirectionOf(value), SpeedOf(value))
  }

  /** The commands of an action for the left motor (0) and the right motor (2). */
  function Commands(action: Action): (c: (Motor, Motor))
    ensures 0.0 <= c.0.1 <= 1.0 && 0.0 <= c.1.1 <= 1.0
    ensures action.Idle? ==> c == ((BREAK, 0.0), (BREAK, 0.0))
    ensures action.Drive? ==> c.0.0 != BREAK && c.1.0 != BREAK
  {
    match action
    case Idle => ((BREAK, 0.0), (BREAK, 0.0))
    case Drive(left, right) => (MotorCommand(left), MotorCommand(right))
  }

  class MockMotorController {
    const motors: array<Motor>
    /** Motors whose `set_direction` fails. */
    const failingDirection: set<nat>
    /** Motors whose `set_speed` fails. */
    const failingSpeed: set<nat>

    constructor(initial: Motor, failingDirection: set<nat>, failingSpeed: set<nat>)
      ensures motors.Length == 4 && fresh(motors) && motors[..] == [initial, initial, initial, initial]
      ensures this.failingDirection == failingDirection && this.failingSpeed == failingSpeed
    {
      motors := new Motor[4](_ => initial);
      this.failingDirection := failingDirection;
      this.failingSpeed := failingSpeed;
    }

    /** What `run(id, d, s)` leaves in motor `id`: the direction if it was set, the speed if that was set too. */
    function Applied(old_: Motor, id: nat, command: Motor): Motor
      reads this
    {
      if id in failingDirection then old_
      else if id in failingSpeed then (command.0, old_.1)
      else command
    }

    predicate RunOk(id: nat)
      reads this
    {
      id !in failingDirection && id !in failingSpeed
    }

    method SetSpeed(id: nat, speed: real) returns (ok: bool)
      requires id < motors.Length
      modifies motors
      ensures ok <==> id !in failingSpeed
      ensures motors[..] == if ok then old(motors[..])[id := (old(motors[id]).0, speed)] else old(motors[..])
    {
      ok := id !in failingSpeed;
      if ok {
        motors[id] := (motors[id].0, speed);
      }
    }

    method SetDirection(id: nat, direction: Directions) returns (ok: bool)
      requires id < motors.Length
      modifies motors
      ensures ok <==> id !in failingDirection
      ensures motors[..] == if ok then old(motors[..])[id := (direction, old(motors[id]).1)] else old(motors[..])
    {
      ok := id !in failingDirection;
      if ok {
        motors[id] := (direction, motors[id].1);
      }
    }

    /** `MotorController::run`: the direction, then the speed unless setting the direction failed. */
    method Run(id: nat, direction: Directions, speed: real) returns (ok: bool)
      requires id < motors.Length
      modifies motors
      ensures ok <==> RunOk(id)
      ensures motors[..] == old(motors[..])[id := Applied(old(motors[id]), id, (direction, speed))]
    {
      ok := SetDirection(id, direction);
      if !ok {
        assert motors[..] == old(motors[..])[id := old(motors[id])];
        return;
      }
      ok := SetSpeed(id, speed);
    }
  }

  /**
   * `perform_action`: motor 0 gets the left command, then motor 2 the right one unless motor 0's
   * command failed; motors 1 and 3 are never commanded.
   */
  method PerformAction(action: Action, controller: MockMotorController) returns (ok: bool)
    requires controller.motors.Length == 4
    modifies controller.motors
    ensures var (left, right) := Commands(action);
      && (ok <==> controller.RunOk(0) && controller.RunOk(2))
      && controller.motors[0] == controller.Applied(old(controller.motors[0]), 0, left)
      && controller.motors[2] == (if controller.RunOk(0) then controller.Applied(old(controller.motors[2]), 2, right)
                                  else old(controller.motors[2]))
      && controller.motors[1] == old(controller.motors[1]) && controller.motors[3] == old(controller.motors[3])
  {
    var (left, right) := Commands(action);
    ok := controller.Run(0, left.0, left.1);
    if !ok {
      return;
    }
    ok := controller.Run(2, right.0, right.1);
  }

  /** `test_perform_action`: the motor states the four actions of the test leave on a fault-free mock. */
  method PerformActionTest() returns (observed: seq<(Motor, Motor)>)
    ensures observed == [((FORWARD, 1.0), (FORWARD, 1.0)), ((BREAK, 0.0), (BREAK, 0.0)),
                         ((FORWARD, 1.0), (FORWARD, 1.0)), ((FORWARD, 0.5), (BACKWARD, 0.25))]
  {
    var controller := new MockMotorController((FORWARD, 0.0), {}, {});
    var ok := PerformAction(Drive(1.0, 1.0), controller);
    var first := (controller.motors[0], controller.motors[2]);
    ok := PerformAction(Idle, controller);
    var second := (controller.motors[0], controller.motors[2]);
    ok := PerformAction(Drive(20.0, 20.0), controller);
    var third := (controller.motors[0], controller.motors[2]);
    ok := PerformAction(Drive(0.5, -0.25), controller);
    observed := [first, second, third, (controller.motors[0], controller.motors[2])];
  }
}
