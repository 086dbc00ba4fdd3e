/** The ramped motor as the object it is: its fields are updated in place by its
    methods and by each pass of its control loop, and every call into the base
    motor is appended to `issued`. Each method is proved to do exactly what
    `Controller.Apply` says of the corresponding operation. */
module RampedMotorDriver {
  import opened Ramp
  import K = Kipr
  import C = Controller

  class RampedMotor {
    /** The port of the base motor and of the encoder it reads. */
    const port: int

    /** Start position of the current move (declared, never used). */
    var startPos: int
    /** Current position goal. */
    var goalPos: int
    /** How far the encoder may be from the goal for the goal to count as reached. */
    var maxPosGoalDelta: int
    /** Current set speed. */
    var speed: int
    /** Whether the control loop does anything. */
    var posCtrlActive: bool
    /** Set when the position target has been reached. */
    var posTargetReached: bool
    /** Every command sent to the base motor so far, oldest first. */
    var issued: seq<K.Command>

    /** The fields, as a value. */
    ghost function State(): C.ControllerState
      reads this
    {
      C.ControllerState(startPos, goalPos, maxPosGoalDelta, speed, posCtrlActive, posTargetReached)
    }

    /** The fields moved as `op` prescribes, and the commands it prescribes were
        sent to the base motor after the earlier ones. */
    twostate predicate Performed(op: C.Op)
      reads this
    {
      State() == C.Apply(old(State()), op).next &&
      issued == old(issued) + C.Apply(old(State()), op).issued
    }

    /** A new motor: every field at its initial value, the controller off, no
        command sent yet. */
    constructor (port: int)
      ensures this.port == port
      ensures State() == C.Initial() && issued == []
    {
      this.port := port;
      startPos, goalPos, maxPosGoalDelta, speed := 0, 0, 0, 0;
      posCtrlActive, posTargetReached := false, false;
      issued := [];
    }

    /** One pass of the control loop, with the encoder reading `encoder`. */
    method Step(encoder: int)
      modifies this
      ensures Performed(C.ControlStep(encoder))
    {
      if !posCtrlActive {
        return;
      }
      var delta := Abs(encoder - goalPos);
      if delta <= maxPosGoalDelta {
        Freeze();
        posCtrlActive := false;
      } else {
        var scaledSpeed := RampSpeed(speed, delta);
        issued := issued + [K.MoveToPosition(K.ToShort(scaledSpeed), goalPos)];
      }
    }

    method MoveAtVelocity(velocity: K.Int16)
      modifies this
      ensures Performed(C.MoveAtVelocity(velocity))
    {
      issued := issued + [K.MoveAtVelocity(velocity)];
    }

    /** The parameter `speed` is only forwarded: it hides the field of the same
        name, and neither it nor `goal` is stored. */
    method MoveToPosition(speed: K.Int16, goal: int)
      modifies this
      ensures Performed(C.MoveToPosition(speed, goal))
    {
      issued := issued + [K.MoveToPosition(speed, goal)];
      posTargetReached := false;
      posCtrlActive := true;
    }

    method MoveRelativePosition(speed: K.Int16, deltaPos: int, encoder: int)
      modifies this
      ensures Performed(C.MoveRelativePosition(speed, deltaPos, encoder))
    {
      MoveToPosition(speed, encoder + deltaPos);
    }

    method Freeze()
      modifies this
      ensures Performed(C.Freeze)
    {
      posCtrlActive := false;
      issued := issued + [K.Freeze];
    }

    /** Reports done only when the base motor does and the target-reached flag is
        set, so never in a state the code as written can reach. */
    method IsMotorDone(baseDone: bool) returns (done: bool)
      ensures done == C.IsMotorDone(State(), baseDone)
      ensures C.AsWritten(State()) ==> !done
    {
      done := baseDone && posTargetReached;
    }

    method Forward()
      modifies this
      ensures Performed(C.Forward)
    {
      posCtrlActive := false;
      issued := issued + [K.Forward];
    }

    method Backward()
      modifies this
      ensures Performed(C.Backward)
    {
      posCtrlActive := false;
      issued := issued + [K.Backward];
    }

    method Motor(percent: int)
      modifies this
      ensures Performed(C.Motor(percent))
    {
      posCtrlActive := false;
      issued := issued + [K.Motor(percent)];
    }

    method Baasbennaguui(percent: int)
      modifies this
      ensures Performed(C.Baasbennaguui(percent))
    {
      posCtrlActive := false;
      issued := issued + [K.Baasbennaguui(percent)];
    }

    method MotorPower(percent: int)
      modifies this
      ensures Performed(C.MotorPower(percent))
    {
      posCtrlActive := false;
      issued := issued + [K.MotorPower(percent)];
    }

    method Off()
      modifies this
      ensures Performed(C.Off)
    {
      posCtrlActive := false;
      issued := issued + [K.Off];
    }

    /** Sets how many ticks the encoder may deviate from the goal for the control
        loop to accept it as reached. */
    method SetAccuracy(delta: int)
      modifies this
      ensures Performed(C.SetAccuracy(delta))
    {
      maxPosGoalDelta := delta;
    }
  }
}
