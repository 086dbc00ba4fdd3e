/** The speed profile of the ramped position controller: the integer expression the
    control loop evaluates to slow the wheel down as it nears its goal. All
    arithmetic is C++ `int` arithmetic, so division truncates toward zero. */
module Ramp {

  /** The speed the controller decelerates to, unless the set speed is lower. */
  const MinSpeed: int := 20

  /** `std::abs` on `int`. */
  function Abs(x: int): (r: nat)
    ensures r == x || r == -x
  {
    if x < 0 then -x else x
  }

  /** `std::min` on `int`. */
  function Min(a: int, b: int): (r: int)
    ensures r <= a && r <= b
    ensures r == a || r == b
  {
    if a <= b then a else b
  }

  /** C++ `a / b` for a positive divisor: the quotient truncated toward zero, so
      the remainder has the sign of the dividend (Dafny's own `/` is Euclidean). */
  function TDiv(a: int, b: int): (q: int)
    requires b > 0
    ensures 0 <= a ==> 0 <= a - q * b < b
    ensures a < 0 ==> -b < a - q * b <= 0
  {
    if a >= 0 then a / b else -((-a) / b)
  }

  /** Distance to the goal, in ticks, below which the controller starts to slow
      down: the faster the set speed, the earlier it decelerates. */
  function DecelStart(speed: int): (r: int)
    ensures speed >= 0 ==> r >= 50
  {
    TDiv(speed + 500, 10)
  }

  /** The speed commanded for a set speed and a distance `delta` to the goal:
      the set speed outside the deceleration zone; inside it, the set speed scaled
      by `delta / DecelStart(speed)` plus `MinSpeed`, never above the set speed. */
  function RampSpeed(speed: int, delta: nat): (r: int)
    ensures r <= speed
    ensures delta >= DecelStart(speed) ==> r == speed
  {
    var decelStart := DecelStart(speed);
    if delta < decelStart then Min(speed, TDiv(speed * delta, decelStart) + MinSpeed)
    else speed
  }

  /** The two data points the source records beside the formula, and the zone
      for a set speed of 0. */
  lemma DecelStartDocumented()
    ensures DecelStart(500) == 100
    ensures DecelStart(1500) == 200
    ensures DecelStart(0) == 50
  {
  }

  /** Euclidean division by a positive number is monotone in the dividend. */
  lemma DivMonotone(a1: int, a2: int, b: int)
    requires b > 0 && a1 <= a2
    ensures a1 / b <= a2 / b
  {
    if a1 / b > a2 / b {
      MulMonotone(a2 / b + 1, a1 / b, b);
      assert false;
    }
  }

  /** If `a >= k * b` then `a / b >= k`, for a positive divisor. */
  lemma DivLowerBound(a: int, b: int, k: int)
    requires b > 0 && a >= k * b
    ensures a / b >= k
  {
    if a / b < k {
      MulMonotone(a / b + 1, k, b);
      assert false;
    }
  }

  /** The faster the set speed, the earlier the controller starts to slow down:
      the deceleration zone never shrinks as the set speed grows. */
  lemma DecelStartMonotone(s1: int, s2: int)
    requires s1 <= s2
    ensures DecelStart(s1) <= DecelStart(s2)
  {
    var a1, a2 := s1 + 500, s2 + 500;
    if 0 <= a1 {
      DivMonotone(a1, a2, 10);
    } else if a2 < 0 {
      DivMonotone(-a2, -a1, 10);
    } else {
      assert TDiv(a1, 10) <= 0 <= TDiv(a2, 10);
    }
  }

  lemma MulMonotone(x: int, y: int, m: int)
    requires x <= y && m >= 0
    ensures x * m <= y * m
  {
  }

  /** For a non-negative set speed the commanded speed lies between
      `Min(speed, MinSpeed)` and the set speed: the controller never goes slower
      than the minimum speed unless the set speed itself is lower. */
  lemma RampBounds(speed: int, delta: nat)
    requires speed >= 0
    ensures Min(speed, MinSpeed) <= RampSpeed(speed, delta) <= speed
  {
    var decelStart := DecelStart(speed);
    if delta < decelStart {
      assert speed * delta >= 0;
      DivLowerBound(speed * delta, decelStart, 0);
    }
  }

  /** For a non-negative set speed the commanded speed never grows as the wheel
      gets closer to the goal. */
  lemma RampMonotone(speed: int, d1: nat, d2: nat)
    requires speed >= 0 && d1 <= d2
    ensures RampSpeed(speed, d1) <= RampSpeed(speed, d2)
  {
    var decelStart := DecelStart(speed);
    if d2 < decelStart {
      var a1, a2 := speed * d1, speed * d2;
      MulMonotone(d1, d2, speed);
      assert 0 <= a1 <= a2;
      DivMonotone(a1, a2, decelStart);
      assert TDiv(a1, decelStart) <= TDiv(a2, decelStart);
    }
  }

  /** At the outer edge of the deceleration zone the commanded speed is still the
      full set speed: the scaled term plus `MinSpeed` never falls below the set
      speed there, so the ramp only slows the wheel further in. */
  lemma RampFullAtZoneEdge(speed: int)
    requires speed >= 0
    ensures DecelStart(speed) >= 1
    ensures RampSpeed(speed, DecelStart(speed) - 1) == speed
  {
    var decelStart := DecelStart(speed);
    var delta := decelStart - 1;
    assert 10 * decelStart > speed + 490;
    assert speed * delta == speed * decelStart - speed;
    assert speed <= MinSpeed * decelStart;
    assert speed * delta >= (speed - MinSpeed) * decelStart;
    DivLowerBound(speed * delta, decelStart, speed - MinSpeed);
  }

  /** Close to the goal the commanded speed is exactly the floor: at distance 0
      it is `Min(speed, MinSpeed)`. */
  lemma RampAtGoal(speed: int)
    requires speed >= 0
    ensures RampSpeed(speed, 0) == Min(speed, MinSpeed)
  {
  }
}
