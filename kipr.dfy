/** The parts of the external `kipr` motor library that the ramped motor talks to.
    The library itself is not modelled: a motor is represented by the log of the
    commands it has been sent, and the `short` parameters of its interface by
    `Int16`. */
module Kipr {

  /** C++ `short`: a 16-bit two's complement integer. */
  newtype Int16 = x: int | -0x8000 <= x < 0x8000

  /** The implicit `int` to `short` conversion the compiler applies when an `int`
      argument is passed for a `short` parameter: the value is taken modulo 2^16
      and read back as two's complement. */
  function ToShort(x: int): (r: Int16)
    ensures (x - r as int) % 0x1_0000 == 0
    ensures -0x8000 <= x < 0x8000 ==> r as int == x
  {
    var m := x % 0x1_0000;
    if m < 0x8000 then m as Int16 else (m - 0x1_0000) as Int16
  }

  /** One call into the base `Motor` class, in the order the calls were made. */
  datatype Command =
    | MoveAtVelocity(velocity: Int16)
    | MoveToPosition(speed: Int16, goal: int)
    | Freeze
    | Forward
    | Backward
    | Motor(percent: int)
    | Baasbennaguui(percent: int)
    | MotorPower(percent: int)
    | Off
}
