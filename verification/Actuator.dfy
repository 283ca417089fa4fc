/** Motor and servo outputs: steering-dependent throttle calibration over exact reals. */
module Actuator {
  import opened Reals

  const MOTOR_DEADBAND_THROTTLE := 0.02
  const MOTOR_PWM_MAX_DUTY := 255
  const PWM_FORWARD_MIN := 16.0
  const PWM_FORWARD_DEFAULT := 25.0
  const PWM_TURN_MIN := 34.0
  const PWM_TURN_DEFAULT := 43.0
  const PWM_STRONG_TURN_MIN := 40.0
  const PWM_STRONG_TURN_DEFAULT := 54.0
  const STALL_BOOST_PWM := 54
  const SERVO_LEFT_STRONG := 46.0
  const SERVO_LEFT_WEAK := 66.0
  const SERVO_CENTER := 86.0
  const SERVO_RIGHT_WEAK := 106.0
  const SERVO_RIGHT_STRONG := 126.0

  datatype Direction = Forward | Reverse

  /** What one application of a direct command puts out. */
  datatype Output = Output(throttle: real, steering: real, pwm: nat, direction: Direction, servo: real)

  function Lerp(a: real, b: real, t: real): real {
    a + (b - a) * Clamp(t, 0.0, 1.0)
  }

  /** Rounding to the nearest integer, halves away from zero. */
  function Round(x: real): int {
    if x >= 0.0 then (x + 0.5).Floor else -((-x + 0.5).Floor)
  }

  /** Rounding goes to the nearest integer, and from half-way away from zero. */
  lemma RoundIsNearest(x: real)
    ensures var n := Round(x);
      && n as real - 0.5 <= x <= n as real + 0.5
      && (x > 0.0 ==> x < n as real + 0.5) && (x < 0.0 ==> n as real - 0.5 < x)
  {
  }

  function SteeringToAngle(steering: real): real {
    var s := Clamp(steering, -1.0, 1.0);
    if s <= -0.5 then Lerp(SERVO_LEFT_STRONG, SERVO_LEFT_WEAK, (s + 1.0) / 0.5)
    else if s < 0.0 then Lerp(SERVO_LEFT_WEAK, SERVO_CENTER, (s + 0.5) / 0.5)
    else if s <= 0.5 then Lerp(SERVO_CENTER, SERVO_RIGHT_WEAK, s / 0.5)
    else Lerp(SERVO_RIGHT_WEAK, SERVO_RIGHT_STRONG, (s - 0.5) / 0.5)
  }

  /** The duty at which the wheels just turn, for |steering| = a. */
  function MinDuty(a: real): real {
    if a <= 0.5 then Lerp(PWM_FORWARD_MIN, PWM_TURN_MIN, a / 0.5)
    else Lerp(PWM_TURN_MIN, PWM_STRONG_TURN_MIN, (a - 0.5) / 0.5)
  }

  /** The duty of full throttle, for |steering| = a. */
  function DefaultDuty(a: real): real {
    if a <= 0.5 then Lerp(PWM_FORWARD_DEFAULT, PWM_TURN_DEFAULT, a / 0.5)
    else Lerp(PWM_TURN_DEFAULT, PWM_STRONG_TURN_DEFAULT, (a - 0.5) / 0.5)
  }

  function ThrottleToDuty(throttle: real, steering: real): nat {
    var magnitude := Abs(Clamp(throttle, -1.0, 1.0));
    var a := Abs(Clamp(steering, -1.0, 1.0));
    if magnitude <= MOTOR_DEADBAND_THROTTLE then 0
    else
      var duty := Round(Lerp(MinDuty(a), DefaultDuty(a), magnitude));
      if duty < 0 then 0 else if duty > MOTOR_PWM_MAX_DUTY then MOTOR_PWM_MAX_DUTY else duty
  }

  /** The output for a command; `minPwm` lifts a nonzero duty. */
  function Drive(throttle: real, steering: real, minPwm: nat): Output {
    var t, s := Clamp(throttle, -1.0, 1.0), Clamp(steering, -1.0, 1.0);
    var duty := ThrottleToDuty(t, s);
    var lifted :=
      if duty > 0 && minPwm > duty then (if minPwm > MOTOR_PWM_MAX_DUTY then MOTOR_PWM_MAX_DUTY else minPwm)
      else duty;
    Output(t, s, lifted, if t < 0.0 then Reverse else Forward, SteeringToAngle(s))
  }

  const STOPPED := Output(0.0, 0.0, 0, Forward, SERVO_CENTER)

  // --- calibration properties ---

  /** The four servo pieces are one straight line: 86 degrees plus 40 per unit of steering. */
  lemma ServoMapIsLinear(steering: real)
    ensures SteeringToAngle(steering) == SERVO_CENTER + 40.0 * Clamp(steering, -1.0, 1.0)
  {
    var s := Clamp(steering, -1.0, 1.0);
    assert (s + 1.0) / 0.5 == 2.0 * s + 2.0 && (s + 0.5) / 0.5 == 2.0 * s + 1.0;
    assert s / 0.5 == 2.0 * s && (s - 0.5) / 0.5 == 2.0 * s - 1.0;
  }

  lemma MinDutyFormula(a: real)
    requires 0.0 <= a <= 1.0
    ensures MinDuty(a) == if a <= 0.5 then 16.0 + 36.0 * a else 28.0 + 12.0 * a
  {
    assert a / 0.5 == 2.0 * a && (a - 0.5) / 0.5 == 2.0 * a - 1.0;
  }

  lemma DefaultDutyFormula(a: real)
    requires 0.0 <= a <= 1.0
    ensures DefaultDuty(a) == if a <= 0.5 then 25.0 + 36.0 * a else 32.0 + 22.0 * a
  {
    assert a / 0.5 == 2.0 * a && (a - 0.5) / 0.5 == 2.0 * a - 1.0;
  }

  lemma LerpInside(a: real, b: real, t: real)
    requires 0.0 <= t <= 1.0
    ensures Lerp(a, b, t) == a + Mul(b - a, t)
  {
    assert Clamp(t, 0.0, 1.0) == t;
  }

  /** Interpolation lies between its ends and grows with the weight. */
  lemma LerpInWeight(a: real, b: real, t: real, u: real)
    requires a <= b && 0.0 <= t <= u <= 1.0
    ensures a <= Lerp(a, b, t) <= Lerp(a, b, u) <= b
  {
    hide Lerp, Mul;
    LerpInside(a, b, t);
    LerpInside(a, b, u);
    MulMonotone(b - a, 0.0, t);
    MulMonotone(b - a, t, u);
    MulMonotone(b - a, u, 1.0);
    MulUnits(b - a);
  }

  /** Interpolation grows with both ends. */
  lemma LerpInEnds(a: real, b: real, c: real, d: real, u: real)
    requires a <= c && b <= d && 0.0 <= u <= 1.0
    ensures Lerp(a, b, u) <= Lerp(c, d, u)
  {
    hide Lerp, Mul;
    LerpInside(a, b, u);
    LerpInside(c, d, u);
    MulDistributes(b, a, u);
    MulDistributes(d, c, u);
    MulDistributes(1.0, u, a);
    MulDistributes(1.0, u, c);
    MulUnits(a);
    MulUnits(c);
    MulCommutes(a, u);
    MulCommutes(b, u);
    MulCommutes(c, u);
    MulCommutes(d, u);
    MulMonotone(1.0 - u, a, c);
    MulMonotone(u, b, d);
  }

  lemma RoundMonotone(x: real, y: real)
    requires x <= y
    ensures Round(x) <= Round(y)
  {
  }

  /** The unrounded duty as a function of the two magnitudes. */
  function RawDuty(magnitude: real, a: real): real {
    Lerp(MinDuty(a), DefaultDuty(a), magnitude)
  }

  lemma RawDutyMonotone(m: real, n: real, a: real, b: real)
    requires 0.0 <= m <= n <= 1.0 && 0.0 <= a <= b <= 1.0
    ensures 16.0 <= RawDuty(m, a) <= RawDuty(n, b) <= 54.0
  {
    hide Lerp, MinDuty, DefaultDuty;
    MinDutyFormula(a);
    MinDutyFormula(b);
    DefaultDutyFormula(a);
    DefaultDutyFormula(b);
    LerpInWeight(MinDuty(a), DefaultDuty(a), m, n);
    LerpInWeight(MinDuty(b), DefaultDuty(b), n, n);
    LerpInEnds(MinDuty(a), DefaultDuty(a), MinDuty(b), DefaultDuty(b), n);
  }

  lemma DutyIsRounded(throttle: real, steering: real)
    ensures var m, a := Abs(Clamp(throttle, -1.0, 1.0)), Abs(Clamp(steering, -1.0, 1.0));
      ThrottleToDuty(throttle, steering) == if m <= MOTOR_DEADBAND_THROTTLE then 0 else Round(RawDuty(m, a))
    ensures Abs(throttle) > MOTOR_DEADBAND_THROTTLE ==> 16 <= ThrottleToDuty(throttle, steering) <= 54
  {
    var m, a := Abs(Clamp(throttle, -1.0, 1.0)), Abs(Clamp(steering, -1.0, 1.0));
    RawDutyMonotone(m, m, a, a);
    RoundMonotone(16.0, RawDuty(m, a));
    RoundMonotone(RawDuty(m, a), 54.0);
    assert Round(16.0) == 16 && Round(54.0) == 54;
  }

  /** The motor is off exactly inside the deadband, and otherwise between the straight minimum and the strong-turn default. */
  lemma DutyRange(throttle: real, steering: real)
    ensures ThrottleToDuty(throttle, steering) == 0 <==> Abs(throttle) <= MOTOR_DEADBAND_THROTTLE
    ensures Abs(throttle) > MOTOR_DEADBAND_THROTTLE ==> 16 <= ThrottleToDuty(throttle, steering) <= 54
  {
    DutyIsRounded(throttle, steering);
  }

  /** More throttle or more steering, left or right, never lowers the duty, across the knee and through rounding. */
  lemma DutyMonotone(t1: real, s1: real, t2: real, s2: real)
    requires Abs(t1) <= Abs(t2) && Abs(s1) <= Abs(s2)
    ensures ThrottleToDuty(t1, s1) <= ThrottleToDuty(t2, s2)
  {
    DutyIsRounded(t1, s1);
    DutyIsRounded(t2, s2);
    var m1, a1 := Abs(Clamp(t1, -1.0, 1.0)), Abs(Clamp(s1, -1.0, 1.0));
    var m2, a2 := Abs(Clamp(t2, -1.0, 1.0)), Abs(Clamp(s2, -1.0, 1.0));
    if m1 > MOTOR_DEADBAND_THROTTLE {
      RawDutyMonotone(m1, m2, a1, a2);
      RoundMonotone(RawDuty(m1, a1), RawDuty(m2, a2));
    }
  }

  /** The duty does not depend on the directions of travel and steering. */
  lemma DutySymmetric(throttle: real, steering: real)
    ensures ThrottleToDuty(-throttle, steering) == ThrottleToDuty(throttle, steering)
    ensures ThrottleToDuty(throttle, -steering) == ThrottleToDuty(throttle, steering)
  {
    DutyMonotone(throttle, steering, -throttle, steering);
    DutyMonotone(-throttle, steering, throttle, steering);
    DutyMonotone(throttle, steering, throttle, -steering);
    DutyMonotone(throttle, -steering, throttle, steering);
  }

  lemma DutyOfClamped(throttle: real, steering: real)
    ensures ThrottleToDuty(Clamp(throttle, -1.0, 1.0), Clamp(steering, -1.0, 1.0)) == ThrottleToDuty(throttle, steering)
  {
    ClampTwice(throttle);
    ClampTwice(steering);
    hide Clamp, Lerp, Round, MinDuty, DefaultDuty;
  }

  lemma ClampTwice(x: real)
    ensures Clamp(Clamp(x, -1.0, 1.0), -1.0, 1.0) == Clamp(x, -1.0, 1.0)
  {
  }

  lemma BoostedDuty(throttle: real, steering: real)
    ensures Drive(throttle, steering, STALL_BOOST_PWM).pwm ==
      if Abs(throttle) <= MOTOR_DEADBAND_THROTTLE then 0 else STALL_BOOST_PWM
  {
    hide ThrottleToDuty, SteeringToAngle, Clamp;
    DutyOfClamped(throttle, steering);
    DutyRange(throttle, steering);
  }

  lemma UnboostedDuty(throttle: real, steering: real)
    ensures Drive(throttle, steering, 0).pwm == ThrottleToDuty(throttle, steering)
  {
    hide ThrottleToDuty, SteeringToAngle, Clamp;
    DutyOfClamped(throttle, steering);
  }

  /** A boosted command drives at the boost duty, unless the throttle is in the deadband; no other one is lifted. */
  lemma DriveDuty(throttle: real, steering: real)
    ensures Drive(throttle, steering, STALL_BOOST_PWM).pwm ==
      if Abs(throttle) <= MOTOR_DEADBAND_THROTTLE then 0 else STALL_BOOST_PWM
    ensures Drive(throttle, steering, 0).pwm == ThrottleToDuty(throttle, steering)
  {
    hide Drive, ThrottleToDuty;
    BoostedDuty(throttle, steering);
    UnboostedDuty(throttle, steering);
  }

  /** Any minimum lifts a duty outside the deadband to itself, at most to the greatest duty; zero stays zero. */
  lemma LiftedDuty(throttle: real, steering: real, minPwm: nat)
    ensures var duty, lifted := ThrottleToDuty(throttle, steering), Drive(throttle, steering, minPwm).pwm;
      && (lifted == 0 <==> duty == 0) && duty <= lifted <= MOTOR_PWM_MAX_DUTY
      && (duty > 0 ==> lifted in {duty, minPwm, MOTOR_PWM_MAX_DUTY} && (lifted < MOTOR_PWM_MAX_DUTY ==> minPwm <= lifted))
      && (lifted != duty ==> lifted <= minPwm)
  {
    hide ThrottleToDuty, SteeringToAngle, Clamp;
    DutyOfClamped(throttle, steering);
    DutyRange(throttle, steering);
  }

  /** The hardware outputs as last written. */
  class Outputs {
    var duty: nat
    var direction: Direction
    var servo: real

    constructor ()
      ensures duty == 0 && direction == Forward && servo == SERVO_CENTER
    {
      duty, direction, servo := 0, Forward, SERVO_CENTER;
    }

    method SafeStop()
      modifies this
      ensures duty == STOPPED.pwm && direction == STOPPED.direction && servo == STOPPED.servo
    {
      duty, direction := 0, Forward;
      servo := SERVO_CENTER;
    }

    method ApplyDirect(throttle: real, steering: real, minPwm: nat) returns (out: Output)
      modifies this
      ensures out == Drive(throttle, steering, minPwm)
      ensures duty == out.pwm && direction == out.direction && servo == out.servo
    {
      hide ThrottleToDuty, SteeringToAngle;
      var effective := Clamp(throttle, -1.0, 1.0);
      var turn := Clamp(steering, -1.0, 1.0);
      var way := Forward;
      if effective < 0.0 {
        way := Reverse;
      }
      var pwm := ThrottleToDuty(effective, turn);
      if pwm > 0 && minPwm > pwm {
        pwm := minPwm;
        if pwm > MOTOR_PWM_MAX_DUTY {
          pwm := MOTOR_PWM_MAX_DUTY;
        }
      }
      var angle := SteeringToAngle(turn);
      servo := angle;
      duty, direction := pwm, way;
      out := Output(effective, turn, pwm, way, angle);
    }
  }
}
