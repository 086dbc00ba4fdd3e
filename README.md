# Ramped motor model

This project models `RampedMotor`, the per-wheel position controller of the
croissant robot. It wraps a `kipr` `Motor`. A background loop reads the wheel
encoder and switches the controller off once the encoder is within tolerance
of the goal. Until then it commands a move to the goal at a speed that is
ramped down near the goal. The public methods set or clear the controller's
flags and forward a call to the base motor.

Layout:

- `kipr.dfy` (module `Kipr`) stands for the external base motor. `Int16` is
  C++ `short`, and `ToShort` is the implicit `int` to `short` conversion.
  `Command` is one call into the base `Motor`. A motor is represented by the
  log of the commands it was sent.
- `ramp.dfy` (module `Ramp`) holds the speed profile as a pure function,
  `RampSpeed`. It uses C++ truncating division (`TDiv`), the deceleration
  zone (`DecelStart`) and the minimum speed 20. The lemmas state the profile's
  bounds, its monotonicity, and its value at the edges of the zone.
- `controller.dfy` (module `Controller`) is the state machine as values. It
  has the fields (`ControllerState`), each operation's effect on the fields
  and the commands it sends (`Apply`), and runs of several operations (`Run`).
  Its lemmas state what holds in every reachable state.
- `ramped_motor.dfy` (module `RampedMotorDriver`) is the class `RampedMotor`.
  Its fields are updated in place. Each method, and `Step` (one pass of the
  control loop), is proved to change the fields and extend the command log
  exactly as `Controller.Apply` prescribes.

Encoder readings (`getPosition`, which reads the external `BackEMF`) are
parameters of the operations that read them. The base motor's own
`isMotorDone` is a parameter of `IsMotorDone`.

## Behaviour of the code as written

The model follows the code, including where it departs from what its names
and comments suggest:

- `moveToPosition` forwards its goal and speed to the base motor but never
  stores them. Its parameter `speed` hides the field of the same name. So the
  fields `goal_pos` and `speed` keep their initial value 0 in every reachable
  state (`Controller.RunKeepsAsWritten`). The control loop therefore measures
  the distance to tick 0 and not to the requested goal.
  `Controller.RequestedGoalIgnored` shows a move to tick 1000, with the encoder
  at 0, frozen by the next control step. Any active step outside tolerance
  commands a move to tick 0 at speed 0 (`Controller.AsWrittenStepTargetsZero`).
- The comment on `pos_target_reached` (croissant/ramped_motor.hpp:34) says it
  is set when the position target has been reached. No code sets it to true,
  so `isMotorDone` is false in every reachable state (`Controller.NeverDone`),
  and `blockMotorDone` never returns.
- At the outer edge of the deceleration zone (distance `decel_start - 1`) the
  commanded speed still equals the set speed (`Ramp.RampFullAtZoneEdge`). The
  scaled term plus the minimum speed of 20 is never below the set speed there,
  so the ramp slows the wheel only further in.

## Model

| member | source | states |
|---|---|---|
| `Kipr.ToShort` | croissant/ramped_motor.cpp:56 | the `int` speed passed for a `short` parameter is congruent to it modulo 2^16 and in range, and equals it when it already fits in 16 bits |
| `Ramp.TDiv` | croissant/ramped_motor.cpp:53-55 | C++ division truncates toward zero: the remainder lies in `[0, b)` for a non-negative dividend and in `(-b, 0]` for a negative one |
| `Ramp.DecelStart` | croissant/ramped_motor.cpp:51-53 | the deceleration zone `(speed + 500) / 10` is at least 50 ticks for every non-negative speed; its growth with the speed is `Ramp.DecelStartMonotone` |
| `Ramp.DecelStartMonotone` | croissant/ramped_motor.cpp:51-53 | the faster the set speed, the earlier deceleration starts: the zone never shrinks as the speed grows |
| `Ramp.DecelStartDocumented` | croissant/ramped_motor.cpp:53 | speed 500 gives a zone of 100 ticks, 1500 gives 200, and 0 gives 50 |
| `Ramp.RampSpeed` | croissant/ramped_motor.cpp:47-55 | the commanded speed never exceeds the set speed, and equals it whenever the distance is outside the deceleration zone |
| `Ramp.RampBounds` | croissant/ramped_motor.cpp:48-55 | for a non-negative set speed the commanded speed lies between `min(speed, 20)` and the set speed: the floor of 20 holds unless the set speed is lower |
| `Ramp.RampMonotone` | croissant/ramped_motor.cpp:51-55 | for a non-negative set speed the commanded speed is non-decreasing in the distance to the goal, so the wheel only slows as it approaches |
| `Ramp.RampFullAtZoneEdge` | croissant/ramped_motor.cpp:53-55 | at distance `decel_start - 1` the commanded speed is still the full set speed |
| `Ramp.RampAtGoal` | croissant/ramped_motor.cpp:48-55 | at distance 0 the commanded speed is `min(speed, 20)` |
| `Controller.Step` | croissant/ramped_motor.cpp:29-57 | a control step changes no field except the active flag, switches the controller off exactly when it is active and the distance is within tolerance, and sends exactly one command when active and none otherwise |
| `Controller.Apply` | croissant/ramped_motor.cpp:63-124 | no operation changes the goal, the speed or the start position, none sets the target-reached flag, and only `setAccuracy` changes the tolerance |
| `Controller.StepInactiveIsNoOp` | croissant/ramped_motor.cpp:29-33 | a step while the controller is off changes no field and sends nothing |
| `Controller.StepCommands` | croissant/ramped_motor.cpp:35-57 | an active step within tolerance sends `Freeze` and switches off; outside tolerance it stays on and sends one move to the goal field at the ramped speed |
| `Controller.StepSpeedInRange` | croissant/ramped_motor.cpp:47-56 | for a set speed that is a non-negative `short`, the speed sent is the ramped speed unchanged by the `short` conversion and lies between `min(speed, 20)` and the set speed |
| `Controller.MoveStartsController` | croissant/ramped_motor.cpp:67-76 | `moveToPosition` and `moveRelativePosition` switch the controller on and clear the target-reached flag, leave every other field alone, and forward `(speed, goal)`, the relative one with goal = encoder + offset |
| `Controller.OtherOperationsEffect` | croissant/ramped_motor.cpp:63-124 | `freeze`, `forward`, `backward`, `motor`, `baasbennaguui`, `motorPower` and `off` leave the controller off and change nothing else; `moveAtVelocity` changes no field; `setAccuracy` changes only the tolerance and sends nothing |
| `Controller.RunKeepsAsWritten` | croissant/ramped_motor.hpp:24-35 | from a state with goal, speed and start position 0 and the target-reached flag clear, every sequence of operations leads to such a state |
| `Controller.NeverDone` | croissant/ramped_motor.cpp:82-85 | after any sequence of operations from a fresh motor, `isMotorDone` is false whatever the base motor reports |
| `Controller.AsWrittenStepTargetsZero` | croissant/ramped_motor.cpp:35-56 | in a reachable state the deceleration zone is 50 ticks, and an active step outside tolerance sends a move to tick 0 at speed 0 |
| `Controller.IdleStepsDoNothing` | croissant/ramped_motor.hpp:33 | while the controller is off, any number of control steps changes no field and sends nothing |
| `Controller.DefaultToleranceKept` | croissant/ramped_motor.hpp:27-29 | without `setAccuracy` calls the tolerance keeps its value |
| `Controller.DefaultsFinishOnlyAtZero` | croissant/ramped_motor.hpp:26-29 | from a fresh motor with the default tolerance 0, an active control step finishes exactly when the encoder reads the goal field's value 0 |
| `Controller.RequestedGoalIgnored` | croissant/ramped_motor.cpp:67-72 | a move to tick 1000 at speed 500 with the encoder at 0 is frozen by the next control step, which leaves every field at its initial value |
| `RampedMotorDriver.RampedMotor.constructor` | croissant/ramped_motor.hpp:24-35 | a new motor has goal, tolerance, speed and start position 0, both flags false, and has sent no command |
| `RampedMotorDriver.RampedMotor.Step` | croissant/ramped_motor.cpp:29-57 | one pass of the control loop updates the fields and the command log as `Controller.Apply` prescribes for a control step |
| `RampedMotorDriver.RampedMotor.MoveAtVelocity` | croissant/ramped_motor.cpp:63-66 | forwards the velocity and changes no field |
| `RampedMotorDriver.RampedMotor.MoveToPosition` | croissant/ramped_motor.cpp:67-72 | forwards speed and goal, clears the target-reached flag, switches the controller on |
| `RampedMotorDriver.RampedMotor.MoveRelativePosition` | croissant/ramped_motor.cpp:73-76 | a move to the encoder reading plus the offset |
| `RampedMotorDriver.RampedMotor.Freeze` | croissant/ramped_motor.cpp:77-81 | switches the controller off and forwards `freeze` |
| `RampedMotorDriver.RampedMotor.IsMotorDone` | croissant/ramped_motor.cpp:82-85 | done exactly when the base motor is done and the target-reached flag is set, so never in a state of the shape every reachable state has |
| `RampedMotorDriver.RampedMotor.Forward` | croissant/ramped_motor.cpp:90-94 | switches the controller off and forwards `forward` |
| `RampedMotorDriver.RampedMotor.Backward` | croissant/ramped_motor.cpp:95-99 | switches the controller off and forwards `backward` |
| `RampedMotorDriver.RampedMotor.Motor` | croissant/ramped_motor.cpp:100-104 | switches the controller off and forwards `motor(percent)` |
| `RampedMotorDriver.RampedMotor.Baasbennaguui` | croissant/ramped_motor.cpp:105-109 | switches the controller off and forwards `baasbennaguui(percent)` |
| `RampedMotorDriver.RampedMotor.MotorPower` | croissant/ramped_motor.cpp:110-114 | switches the controller off and forwards `motorPower(percent)` |
| `RampedMotorDriver.RampedMotor.Off` | croissant/ramped_motor.cpp:115-119 | switches the controller off and forwards `off` |
| `RampedMotorDriver.RampedMotor.SetAccuracy` | croissant/ramped_motor.hpp:70-77 | sets the allowed tick deviation used by the "goal reached" test and changes nothing else |

## Left out

- The controller thread, its exit flag `threxit` and the sleeps between passes
  (croissant/ramped_motor.cpp:18-23, 27, 31, 59). One pass of the loop is the
  sequential `Step`, and interleavings with the caller's thread are not
  modelled.
- `blockMotorDone` (croissant/ramped_motor.cpp:86-89) is a polling loop on
  `isMotorDone`. `Controller.NeverDone` shows it never returns in a reachable
  state, so it has no terminating model.
- `getPosition` and the `BackEMF` encoder (croissant/ramped_motor.cpp:126-129)
  are external reads. Their value is a parameter of the operations that use it.
- The base `Motor` class is external. Its commands are logged and not
  executed. Its `isMotorDone` is a parameter.
- 32-bit `int` overflow is not modelled. This covers `current_pos - goal_pos`,
  `std::abs` of the most negative `int`, `speed * delta`, and
  `getPosition() + deltaPos`. In every reachable state the goal and the speed
  are 0, so `speed * delta` is 0. But the encoder reading can exceed 32 bits,
  and so can the caller's relative offset added to it: with the encoder at 1
  and an offset of 0x7fff_ffff, `moveRelativePosition` overflows in C++. The
  model forwards the unbounded sum as the goal.
- The robot navigation classes (croissant/crnav.cpp, tiramisu/tinav.cpp,
  navigation.cpp) are not part of this model. They do floating-point tick
  conversions and forward to an aggregation engine that is not available.
