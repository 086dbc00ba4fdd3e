/** The ramped motor's state machine as values: its fields, the operations on
    them, the commands each operation sends to the base motor, and what holds
    after any sequence of operations. The class in `RampedMotorDriver` is proved
    to behave exactly like `Apply`. */
module Controller {
  import opened Ramp
  import K = Kipr

  /** The fields a ramped motor keeps besides its thread and its exit flag. */
  datatype ControllerState = ControllerState(
    startPos: int,
    goalPos: int,
    maxPosGoalDelta: int,
    speed: int,
    posCtrlActive: bool,
    posTargetReached: bool)

  /** The field values of a freshly constructed motor. */
  function Initial(): (c: ControllerState)
  {
    ControllerState(0, 0, 0, 0, false, false)
  }

  /** One call on a ramped motor, or one pass of its control loop. Every reading
      of the encoder the call makes is a parameter. */
  datatype Op =
    | ControlStep(encoder: int)
    | MoveAtVelocity(velocity: K.Int16)
    | MoveToPosition(speed: K.Int16, goalPos: int)
    | MoveRelativePosition(speed: K.Int16, deltaPos: int, encoder: int)
    | Freeze
    | Forward
    | Backward
    | Motor(percent: int)
    | Baasbennaguui(percent: int)
    | MotorPower(percent: int)
    | Off
    | SetAccuracy(delta: int)

  /** The fields after an operation, and the commands it sent to the base motor. */
  datatype Transition = Transition(next: ControllerState, issued: seq<K.Command>)

  /** Operations that switch the position controller off before handing the
      motor to the base class. */
  predicate TakesOverMotor(op: Op)
  {
    op.Freeze? || op.Forward? || op.Backward? || op.Motor? ||
    op.Baasbennaguui? || op.MotorPower? || op.Off?
  }

  /** Starts a position move: the base motor is sent the requested move and the
      controller is switched on. The goal and speed fields are left as they are. */
  function MoveTo(c: ControllerState, speed: K.Int16, goal: int): (r: Transition)
  {
    Transition(c.(posTargetReached := false, posCtrlActive := true), [K.MoveToPosition(speed, goal)])
  }

  /** Switches the position controller off and forwards `command`. */
  function Release(c: ControllerState, command: K.Command): (r: Transition)
  {
    Transition(c.(posCtrlActive := false), [command])
  }

  /** One pass of the control loop with the encoder reading `encoder`. */
  function Step(c: ControllerState, encoder: int): (r: Transition)
    ensures r.next.(posCtrlActive := c.posCtrlActive) == c
    ensures r.next.posCtrlActive <==> c.posCtrlActive && Abs(encoder - c.goalPos) > c.maxPosGoalDelta
    ensures |r.issued| == if c.posCtrlActive then 1 else 0
  {
    if !c.posCtrlActive then Transition(c, [])
    else
      var delta := Abs(encoder - c.goalPos);
      if delta <= c.maxPosGoalDelta then
        var finished := Release(c, K.Freeze);
        Transition(finished.next.(posCtrlActive := false), finished.issued)
      else
        Transition(c, [K.MoveToPosition(K.ToShort(RampSpeed(c.speed, delta)), c.goalPos)])
  }

  /** The effect of one operation. */
  function Apply(c: ControllerState, op: Op): (r: Transition)
    ensures r.next.startPos == c.startPos
    ensures r.next.goalPos == c.goalPos
    ensures r.next.speed == c.speed
    ensures r.next.posTargetReached ==> c.posTargetReached
    ensures r.next.maxPosGoalDelta == if op.SetAccuracy? then op.delta else c.maxPosGoalDelta
  {
    match op
    case ControlStep(encoder) => Step(c, encoder)
    case MoveAtVelocity(velocity) => Transition(c, [K.MoveAtVelocity(velocity)])
    case MoveToPosition(speed, goal) => MoveTo(c, speed, goal)
    case MoveRelativePosition(speed, deltaPos, encoder) => MoveTo(c, speed, encoder + deltaPos)
    case Freeze => Release(c, K.Freeze)
    case Forward => Release(c, K.Forward)
    case Backward => Release(c, K.Backward)
    case Motor(percent) => Release(c, K.Motor(percent))
    case Baasbennaguui(percent) => Release(c, K.Baasbennaguui(percent))
    case MotorPower(percent) => Release(c, K.MotorPower(percent))
    case Off => Release(c, K.Off)
    case SetAccuracy(delta) => Transition(c.(maxPosGoalDelta := delta), [])
  }

  /** The effect of a sequence of operations, performed in order. */
  function Run(c: ControllerState, ops: seq<Op>): (r: Transition)
    decreases |ops|
  {
    if ops == [] then Transition(c, [])
    else
      var first := Apply(c, ops[0]);
      var rest := Run(first.next, ops[1..]);
      Transition(rest.next, first.issued + rest.issued)
  }

  /** What `isMotorDone` reports, given what the base motor reports. */
  predicate IsMotorDone(c: ControllerState, baseDone: bool)
  {
    baseDone && c.posTargetReached
  }

  /** The shape of every reachable state of the code as written: no operation
      assigns the goal, the speed or the start position, and none sets the
      target-reached flag. */
  predicate AsWritten(c: ControllerState)
  {
    c.startPos == 0 && c.goalPos == 0 && c.speed == 0 && !c.posTargetReached
  }

  /** A control step does nothing while the controller is off. */
  lemma StepInactiveIsNoOp(c: ControllerState, encoder: int)
    requires !c.posCtrlActive
    ensures Step(c, encoder) == Transition(c, [])
  {
  }

  /** An active control step within tolerance freezes the motor and switches the
      controller off; outside tolerance it keeps the controller on and commands
      exactly one move to the goal at the ramped speed. */
  lemma StepCommands(c: ControllerState, encoder: int)
    requires c.posCtrlActive
    ensures Abs(encoder - c.goalPos) <= c.maxPosGoalDelta ==>
      Step(c, encoder) == Transition(c.(posCtrlActive := false), [K.Freeze])
    ensures Abs(encoder - c.goalPos) > c.maxPosGoalDelta ==>
      Step(c, encoder) == Transition(c, [K.MoveToPosition(K.ToShort(RampSpeed(c.speed, Abs(encoder - c.goalPos))), c.goalPos)])
  {
  }

  /** The speed a control step sends is the ramped speed itself whenever the set
      speed is a valid non-negative `short`, and then lies between
      `Min(speed, MinSpeed)` and the set speed. */
  lemma StepSpeedInRange(c: ControllerState, encoder: int)
    requires c.posCtrlActive && Abs(encoder - c.goalPos) > c.maxPosGoalDelta
    requires 0 <= c.speed < 0x8000
    ensures Step(c, encoder).issued[0].MoveToPosition?
    ensures Step(c, encoder).issued[0].speed as int == RampSpeed(c.speed, Abs(encoder - c.goalPos))
    ensures Min(c.speed, MinSpeed) <= Step(c, encoder).issued[0].speed as int <= c.speed
  {
    RampBounds(c.speed, Abs(encoder - c.goalPos));
  }

  /** `moveToPosition` and `moveRelativePosition` switch the controller on, clear
      the target-reached flag, forward the goal to the base motor and change no
      other field; `moveRelativePosition` aims at the encoder reading plus the
      offset. */
  lemma MoveStartsController(c: ControllerState, op: Op)
    requires op.MoveToPosition? || op.MoveRelativePosition?
    ensures Apply(c, op).next == c.(posCtrlActive := true, posTargetReached := false)
    ensures op.MoveToPosition? ==> Apply(c, op).issued == [K.MoveToPosition(op.speed, op.goalPos)]
    ensures op.MoveRelativePosition? ==>
      Apply(c, op).issued == [K.MoveToPosition(op.speed, op.encoder + op.deltaPos)]
  {
  }

  /** The operations that hand the motor to the base class leave the controller
      off and change nothing else; `moveAtVelocity` changes no field at all, and
      `setAccuracy` changes only the tolerance and sends nothing. */
  lemma OtherOperationsEffect(c: ControllerState, op: Op)
    ensures TakesOverMotor(op) ==> Apply(c, op).next == c.(posCtrlActive := false)
    ensures TakesOverMotor(op) ==> |Apply(c, op).issued| == 1
    ensures op.MoveAtVelocity? ==> Apply(c, op) == Transition(c, [K.MoveAtVelocity(op.velocity)])
    ensures op.SetAccuracy? ==> Apply(c, op) == Transition(c.(maxPosGoalDelta := op.delta), [])
  {
  }

  /** Every operation keeps the shape of the code as written. */
  lemma {:induction false} RunKeepsAsWritten(c: ControllerState, ops: seq<Op>)
    requires AsWritten(c)
    ensures AsWritten(Run(c, ops).next)
    decreases |ops|
  {
    if ops != [] {
      RunKeepsAsWritten(Apply(c, ops[0]).next, ops[1..]);
    }
  }

  /** `isMotorDone` is false in every reachable state, whatever the base motor
      reports: nothing ever sets the target-reached flag. */
  lemma {:induction false} NeverDone(ops: seq<Op>, baseDone: bool)
    ensures !IsMotorDone(Run(Initial(), ops).next, baseDone)
  {
    RunKeepsAsWritten(Initial(), ops);
  }

  /** With the goal and speed left at 0, the ramped speed is 0 at every distance:
      in a reachable state an active control step outside tolerance commands a
      move to tick 0 at speed 0, whatever goal was requested. */
  lemma AsWrittenStepTargetsZero(c: ControllerState, encoder: int)
    requires AsWritten(c) && c.posCtrlActive
    requires Abs(encoder) > c.maxPosGoalDelta
    ensures DecelStart(c.speed) == 50
    ensures Step(c, encoder).issued == [K.MoveToPosition(0, 0)]
  {
    assert RampSpeed(0, Abs(encoder)) == 0;
  }

  /** A fresh motor ignores control steps: until a move is requested the loop
      changes no field and sends nothing. */
  lemma {:induction false} IdleStepsDoNothing(c: ControllerState, ops: seq<Op>)
    requires !c.posCtrlActive
    requires forall i :: 0 <= i < |ops| ==> ops[i].ControlStep?
    ensures Run(c, ops) == Transition(c, [])
  {
    if ops != [] {
      IdleStepsDoNothing(c, ops[1..]);
    }
  }

  /** Without a call to `setAccuracy` the tolerance keeps its default 0. */
  lemma {:induction false} DefaultToleranceKept(c: ControllerState, ops: seq<Op>)
    requires forall i :: 0 <= i < |ops| ==> !ops[i].SetAccuracy?
    ensures Run(c, ops).next.maxPosGoalDelta == c.maxPosGoalDelta
    decreases |ops|
  {
    if ops != [] {
      DefaultToleranceKept(Apply(c, ops[0]).next, ops[1..]);
    }
  }

  /** With the default tolerance a move is finished only when the encoder reads
      the goal exactly, and the goal is the initial 0. */
  lemma DefaultsFinishOnlyAtZero(ops: seq<Op>, encoder: int)
    requires forall i :: 0 <= i < |ops| ==> !ops[i].SetAccuracy?
    requires Run(Initial(), ops).next.posCtrlActive
    ensures !Step(Run(Initial(), ops).next, encoder).next.posCtrlActive <==> encoder == 0
  {
    DefaultToleranceKept(Initial(), ops);
    RunKeepsAsWritten(Initial(), ops);
  }

  /** A requested move to tick 1000 is cut short: with the encoder at 0 the next
      control step compares against the goal field, which is still 0, and
      freezes the motor. */
  lemma RequestedGoalIgnored()
    ensures Run(Initial(), [MoveToPosition(500, 1000), ControlStep(0)]) ==
      Transition(Initial(), [K.MoveToPosition(500, 1000), K.Freeze])
  {
  }
}
