/** From a camera pose and a waypoint to a throttle and steering command, with the stops that come first. */
module PoseControl {
  import opened Options
  import opened Reals

  datatype Pose = Pose(x: real, y: real, heading: Option<real>, timestamp: real, valid: bool)

  datatype Waypoint = Waypoint(x: real, y: real, targetHeading: Option<real>, speed: real, tolerance: real,
                               headingTolerance: real, headingRequired: bool, isFinal: bool)

  datatype ControlMode = Holding | Driving | Braking | Aligning | Arrived

  datatype Reason =
    | NoneGiven | PoseInvalid | NoHeading | PoseStale | DriveNotAllowed | HeadingOutOfTolerance | AtTarget
    | NoTarget | NoPose | NoManualInput | ManualDrive | Refused(why: string)

  datatype ControlCommand = ControlCommand(throttle: real, steering: real, mode: ControlMode, arrived: bool,
                                           reason: Reason)

  /** Gains and limits; `normalize` is the heading error, in radians, of full steering. */
  datatype Config = Config(kp: real, kd: real, normalize: real, steeringSign: real, throttlePerSpeed: real,
                           minThrottle: real, maxThrottle: real, turnSlowdown: real, turnFloor: real, slowRadius: real,
                           stopDistance: real, allowReverse: bool, maxPoseAge: real)

  /** Where the waypoint is seen from a pose: distance in cm, heading error in degrees and radians, and final heading error. */
  datatype Sight = Sight(distance: real, errorDeg: real, errorRad: real, alignmentDeg: real)

  /** Heading error and time of the previous drive computation, for the derivative term. */
  datatype Memory = Blank | Seen(error: real, at: real)

  // --- rounding ---

  /** Rounding to the nearest integer, ties to the even one. */
  function RoundEven(x: real): int {
    var f := x.Floor;
    if x - f as real < 0.5 then f
    else if x - f as real > 0.5 then f + 1
    else if f % 2 == 0 then f else f + 1
  }

  /** Rounding to four decimals. */
  function Round4(x: real): real { RoundEven(x * 10000.0) as real / 10000.0 }

  /** A number with at most four decimals. */
  predicate OnGrid(x: real) { x == (x * 10000.0).Floor as real / 10000.0 }

  lemma RoundEvenBounds(x: real, n: int)
    ensures n as real <= x ==> n <= RoundEven(x)
    ensures x <= n as real ==> RoundEven(x) <= n
  {
  }

  /** Rounding goes to the nearest integer, and from half-way to the even one. */
  lemma RoundEvenIsNearest(x: real)
    ensures var n := RoundEven(x);
      && n as real - 0.5 <= x <= n as real + 0.5
      && (x == n as real - 0.5 || x == n as real + 0.5 ==> n % 2 == 0)
  {
  }

  /** Rounding to four decimals gives the nearest such number. */
  lemma Round4IsNearest(x: real)
    ensures OnGrid(Round4(x)) && Round4(x) - 0.00005 <= x <= Round4(x) + 0.00005
  {
    hide RoundEven, OnGrid;
    RoundEvenIsNearest(x * 10000.0);
    WholeOnGrid(RoundEven(x * 10000.0));
  }

  lemma WholeOnGrid(n: int)
    ensures OnGrid(n as real / 10000.0)
  {
    assert n as real / 10000.0 * 10000.0 == n as real;
  }

  /** A number with at most four decimals is its own rounding. */
  lemma Round4OnGrid(x: real)
    requires OnGrid(x)
    ensures Round4(x) == x
  {
    Round4Keeps(x, x);
  }

  /** Rounding never crosses a four-decimal bound. */
  lemma Round4Keeps(x: real, bound: real)
    requires OnGrid(bound)
    ensures bound <= x ==> bound <= Round4(x)
    ensures x <= bound ==> Round4(x) <= bound
  {
    var n := (bound * 10000.0).Floor;
    assert n as real == bound * 10000.0;
    RoundEvenBounds(x * 10000.0, n);
  }

  lemma ZeroAndOneOnGrid()
    ensures OnGrid(0.0) && OnGrid(1.0) && OnGrid(-1.0)
  {
  }

  // --- the computation ---

  function Stop(mode: ControlMode, reason: Reason): ControlCommand {
    ControlCommand(0.0, 0.0, mode, false, reason)
  }

  /** The demand of the control law, in units of full steering, left positive. */
  function Demand(c: Config, error: real, derivative: real): real {
    if c.normalize != 0.0 then (c.kp * error + c.kd * derivative) / c.normalize else 0.0
  }

  /** Positive errors steer left, which is negative on the wire. */
  function WireSteering(c: Config, demand: real): real {
    Clamp(c.steeringSign * Clamp(demand, -1.0, 1.0), -1.0, 1.0)
  }

  function Steering(c: Config, error: real, derivative: real): real {
    Round4(WireSteering(c, Demand(c, error, derivative)))
  }

  function TurnScale(c: Config, errorDeg: real): real {
    Clamp(1.0 - Abs(errorDeg) / Max(c.turnSlowdown, 0.000001), c.turnFloor, 1.0)
  }

  function ApproachScale(c: Config, distance: real): real {
    Clamp(Max(distance - c.stopDistance, 0.0) / Max(c.slowRadius, 0.000001), 0.0, 1.0)
  }

  /** The wanted speed: slower the more there is to turn and the nearer the target. */
  function WantedSpeed(c: Config, w: Waypoint, s: Sight): real {
    Max(w.speed, 0.0) * TurnScale(c, s.errorDeg) * ApproachScale(c, s.distance)
  }

  function ThrottleFor(c: Config, speed: real): real {
    Clamp(Max(speed * c.throttlePerSpeed, c.minThrottle), 0.0, c.maxThrottle)
  }

  function Throttle(c: Config, w: Waypoint, s: Sight): real {
    if WantedSpeed(c, w, s) <= 0.0 then 0.0 else Round4(ThrottleFor(c, WantedSpeed(c, w, s)))
  }

  function Derivative(m: Memory, error: real, now: real): real {
    if m.Blank? || now - m.at <= 0.001 then 0.0 else (error - m.error) / (now - m.at)
  }

  predicate NeedsAlignment(w: Waypoint, s: Sight) {
    w.headingRequired && w.targetHeading.Some? && Abs(s.alignmentDeg) > w.headingTolerance
  }

  predicate Usable(c: Config, pose: Pose, now: real) {
    pose.valid && pose.heading.Some? && now - pose.timestamp <= c.maxPoseAge
  }

  function Compute(c: Config, m: Memory, pose: Pose, w: Waypoint, s: Sight, allowDrive: bool, now: real)
    : (ControlCommand, Memory)
  {
    if !pose.valid then (Stop(Holding, PoseInvalid), Blank)
    else if pose.heading.None? then (Stop(Holding, NoHeading), Blank)
    else if now - pose.timestamp > c.maxPoseAge then (Stop(Holding, PoseStale), Blank)
    else if !allowDrive then (Stop(Holding, DriveNotAllowed), Blank)
    else
      var seen := Seen(s.errorRad, now);
      if s.distance <= w.tolerance + c.stopDistance then
        if NeedsAlignment(w, s) then (Stop(Aligning, HeadingOutOfTolerance), seen)
        else (Stop(Arrived, AtTarget).(arrived := true), Blank)
      else
        var throttle := Throttle(c, w, s);
        (ControlCommand(throttle, Steering(c, s.errorRad, Derivative(m, s.errorRad, now)),
                        if throttle > 0.0 then Driving else Braking, false, NoneGiven), seen)
  }

  // --- what a command can be ---

  /** Limits that make sense: a moving range inside [0, 1], given with at most four decimals. */
  predicate Sensible(c: Config) {
    && 0.0 < c.minThrottle <= c.maxThrottle <= 1.0
    && OnGrid(c.minThrottle) && OnGrid(c.maxThrottle)
    && 0.0 <= c.turnFloor <= 1.0 && c.steeringSign == -1.0
  }

  const DEFAULTS := Config(1.6, 0.25, 0.5235987755982988, -1.0, 0.03, 0.22, 0.4, 60.0, 0.3, 25.0, 3.0, false, 0.5)

  lemma DefaultsAreSensible()
    ensures Sensible(DEFAULTS)
  {
  }

  predicate Nonzero(cmd: ControlCommand) { cmd.throttle != 0.0 || cmd.steering != 0.0 }

  predicate InLimits(c: Config, throttle: real, steering: real) {
    (throttle == 0.0 || c.minThrottle <= throttle <= c.maxThrottle) && -1.0 <= steering <= 1.0
  }

  lemma ThrottleInLimits(c: Config, w: Waypoint, s: Sight)
    requires Sensible(c)
    ensures Throttle(c, w, s) == 0.0 || c.minThrottle <= Throttle(c, w, s) <= c.maxThrottle
  {
    hide Round4, OnGrid, WantedSpeed;
    var raw := ThrottleFor(c, WantedSpeed(c, w, s));
    Round4Keeps(raw, c.minThrottle);
    Round4Keeps(raw, c.maxThrottle);
  }

  lemma SteeringInLimits(c: Config, error: real, derivative: real)
    ensures -1.0 <= Steering(c, error, derivative) <= 1.0
  {
    hide Round4, OnGrid, Demand;
    ZeroAndOneOnGrid();
    var raw := WireSteering(c, Demand(c, error, derivative));
    Round4Keeps(raw, 1.0);
    Round4Keeps(raw, -1.0);
  }

  /**
   A command that moves or steers needs a usable pose, permission to drive and a target out of reach, and stays
   within the limits.
   */
  lemma DriveNeedsUsablePose(c: Config, m: Memory, pose: Pose, w: Waypoint, s: Sight, allowDrive: bool, now: real)
    requires Sensible(c) && Nonzero(Compute(c, m, pose, w, s, allowDrive, now).0)
    ensures Usable(c, pose, now) && allowDrive && s.distance > w.tolerance + c.stopDistance
    ensures var cmd := Compute(c, m, pose, w, s, allowDrive, now).0;
      InLimits(c, cmd.throttle, cmd.steering) && !cmd.arrived && cmd.mode != Aligning
  {
    hide Throttle, Steering;
    ThrottleInLimits(c, w, s);
    SteeringInLimits(c, s.errorRad, Derivative(m, s.errorRad, now));
  }

  lemma Round4Signs(x: real)
    ensures Round4(x) < 0.0 <==> x < -0.00005
    ensures Round4(x) > 0.0 <==> x > 0.00005
  {
    var scaled := x * 10000.0;
    assert x < -0.00005 <==> scaled < -0.5;
    assert x > 0.00005 <==> scaled > 0.5;
    assert RoundEven(scaled) < 0 <==> scaled < -0.5;
    assert RoundEven(scaled) > 0 <==> scaled > 0.5;
  }

  lemma DemandExceeds(c: Config, error: real, derivative: real, bound: real)
    requires c.normalize > 0.0
    ensures var law := c.kp * error + c.kd * derivative;
      && (Demand(c, error, derivative) > bound <==> law > bound * c.normalize)
      && (Demand(c, error, derivative) < bound <==> law < bound * c.normalize)
  {
    var law := c.kp * error + c.kd * derivative;
    assert law / c.normalize == Demand(c, error, derivative);
    QuotientExceeds(law, c.normalize, bound);
  }

  lemma QuotientExceeds(x: real, d: real, bound: real)
    requires d > 0.0
    ensures x / d > bound <==> x > bound * d
    ensures x / d < bound <==> x < bound * d
  {
    var q := x / d;
    assert Mul(q, d) == x && Mul(bound, d) == bound * d;
    hide Mul;
    MulDistributes(q, bound, d);
    if q > bound {
      MulPositive(q - bound, d);
    } else if q < bound {
      MulPositive(bound - q, d);
      MulDistributes(bound, q, d);
    }
  }

  /**
   With the proportional and the derivative term, the wheels turn left, negative on the wire, exactly if the control
   law asks for more than half a rounding unit to the left, and right exactly if it asks for more than that to the right.
   */
  lemma SteersTowardTarget(c: Config, error: real, derivative: real)
    requires Sensible(c) && c.normalize > 0.0
    ensures var law := c.kp * error + c.kd * derivative;
      && (Steering(c, error, derivative) < 0.0 <==> law > 0.00005 * c.normalize)
      && (Steering(c, error, derivative) > 0.0 <==> law < -0.00005 * c.normalize)
  {
    hide Round4, OnGrid, Demand;
    DemandExceeds(c, error, derivative, 0.00005);
    DemandExceeds(c, error, derivative, -0.00005);
    Round4Signs(WireSteering(c, Demand(c, error, derivative)));
  }

  // --- the speed and the cases, piece by piece ---

  /**
   The wanted speed is the waypoint's, times a factor for turning that falls in proportion to the heading error down to
   a floor, times a factor for the approach that falls in proportion to the remaining way and is full from afar.
   */
  lemma WantedSpeedExactly(c: Config, w: Waypoint, s: Sight)
    requires c.turnSlowdown >= 0.000001 && c.slowRadius >= 0.000001 && c.turnFloor <= 1.0 && w.speed >= 0.0
    ensures var error, left := if s.errorDeg < 0.0 then -s.errorDeg else s.errorDeg, s.distance - c.stopDistance;
      var turn := if 1.0 - error / c.turnSlowdown >= c.turnFloor then 1.0 - error / c.turnSlowdown else c.turnFloor;
      var near := if left <= 0.0 then 0.0 else if left >= c.slowRadius then 1.0 else left / c.slowRadius;
      WantedSpeed(c, w, s) == w.speed * turn * near
  {
    var error, left := if s.errorDeg < 0.0 then -s.errorDeg else s.errorDeg, s.distance - c.stopDistance;
    TurnFactor(c, error);
    NearFactor(left, c.slowRadius);
  }

  lemma TurnFactor(c: Config, error: real)
    requires c.turnSlowdown >= 0.000001 && error >= 0.0
    ensures error / c.turnSlowdown >= 0.0
  {
  }

  lemma NearFactor(left: real, radius: real)
    requires radius >= 0.000001
    ensures left <= 0.0 ==> 0.0 / radius == 0.0
    ensures left >= radius ==> left / radius >= 1.0
    ensures 0.0 <= left <= radius ==> 0.0 <= left / radius <= 1.0
  {
    QuotientExceeds(left, radius, 0.0);
    QuotientExceeds(left, radius, 1.0);
    QuotientExceeds(0.0, radius, 0.0);
  }

  /** A waypoint without speed is not driven to, and neither is one within the stopping distance. */
  lemma NoSpeedNoThrottle(c: Config, w: Waypoint, s: Sight)
    requires w.speed <= 0.0 || s.distance <= c.stopDistance
    ensures Throttle(c, w, s) == 0.0
  {
    if w.speed > 0.0 {
      var radius := Max(c.slowRadius, 0.000001);
      NearFactor(0.0, radius);
      assert ApproachScale(c, s.distance) == 0.0;
    }
  }

  /** A wanted speed is turned into throttle in proportion, at least the least and at most the greatest moving one. */
  lemma ThrottleExactly(c: Config, w: Waypoint, s: Sight)
    requires Sensible(c)
    ensures var v := WantedSpeed(c, w, s);
      Throttle(c, w, s) ==
        if v <= 0.0 then 0.0
        else if v * c.throttlePerSpeed <= c.minThrottle then c.minThrottle
        else if v * c.throttlePerSpeed >= c.maxThrottle then c.maxThrottle
        else Round4(v * c.throttlePerSpeed)
  {
    hide WantedSpeed, Round4, OnGrid;
    Round4OnGrid(c.minThrottle);
    Round4OnGrid(c.maxThrottle);
    ThrottleIsBounded(c, WantedSpeed(c, w, s));
    hide ThrottleFor;
  }

  lemma ThrottleIsBounded(c: Config, speed: real)
    requires Sensible(c)
    ensures ThrottleFor(c, speed) ==
      if speed * c.throttlePerSpeed <= c.minThrottle then c.minThrottle
      else if speed * c.throttlePerSpeed >= c.maxThrottle then c.maxThrottle
      else speed * c.throttlePerSpeed
  {
    hide OnGrid;
  }

  /** The steering is the demand of the control law, its sign turned for the wire, cut off at full steering and rounded. */
  lemma SteeringExactly(c: Config, error: real, derivative: real)
    requires Sensible(c) && c.normalize > 0.0
    ensures var law := (c.kp * error + c.kd * derivative) / c.normalize;
      Steering(c, error, derivative) == if law >= 1.0 then -1.0 else if law <= -1.0 then 1.0 else Round4(-law)
  {
    var law := (c.kp * error + c.kd * derivative) / c.normalize;
    assert Demand(c, error, derivative) == law;
    hide WireSteering, Round4, Demand, OnGrid;
    DemandIsBounded(c, law);
  }

  lemma DemandIsBounded(c: Config, demand: real)
    requires c.steeringSign == -1.0
    ensures Round4(WireSteering(c, demand)) == if demand >= 1.0 then -1.0 else if demand <= -1.0 then 1.0 else Round4(-demand)
  {
    ZeroAndOneOnGrid();
    Round4OnGrid(1.0);
    Round4OnGrid(-1.0);
    hide Round4;
    assert c.steeringSign * Clamp(demand, -1.0, 1.0) == -Clamp(demand, -1.0, 1.0);
  }

  /** The rate of the heading error is its change since the last computation, unless there was none or just now. */
  lemma DerivativeExactly(m: Memory, error: real, now: real)
    ensures m == Blank ==> Derivative(m, error, now) == 0.0
    ensures m.Seen? && now - m.at <= 0.001 ==> Derivative(m, error, now) == 0.0
    ensures m.Seen? && now - m.at > 0.001 ==> Derivative(m, error, now) * (now - m.at) == error - m.error
  {
  }

  /**
   A car without permission or without a valid, recent pose with a heading is held. One within reach of the waypoint has
   arrived, unless a demanded heading is missed, and stands. Otherwise it drives and steers, and remembers the error.
   */
  lemma ComputeExactly(c: Config, m: Memory, pose: Pose, w: Waypoint, s: Sight, allowDrive: bool, now: real)
    ensures var (cmd, memory) := Compute(c, m, pose, w, s, allowDrive, now);
      if !Usable(c, pose, now) || !allowDrive then
        && !Nonzero(cmd) && cmd.mode == Holding && !cmd.arrived && memory == Blank
        && cmd.reason == (if !pose.valid then PoseInvalid else if pose.heading.None? then NoHeading
                          else if now - pose.timestamp > c.maxPoseAge then PoseStale else DriveNotAllowed)
      else if s.distance <= w.tolerance + c.stopDistance then
        var missed := w.headingRequired && w.targetHeading.Some?
                      && (s.alignmentDeg > w.headingTolerance || -s.alignmentDeg > w.headingTolerance);
        && !Nonzero(cmd) && cmd.arrived == !missed
        && cmd.mode == (if missed then Aligning else Arrived)
        && cmd.reason == (if missed then HeadingOutOfTolerance else AtTarget)
        && memory == (if missed then Seen(s.errorRad, now) else Blank)
      else
        && cmd.throttle == Throttle(c, w, s) && cmd.steering == Steering(c, s.errorRad, Derivative(m, s.errorRad, now))
        && cmd.mode == (if cmd.throttle > 0.0 then Driving else Braking) && !cmd.arrived && cmd.reason == NoneGiven
        && memory == Seen(s.errorRad, now)
  {
    hide Throttle, Steering, Derivative;
  }

  // --- the controller object ---

  class PoseWaypointController {
    const config: Config
    var memory: Memory

    constructor (config: Config)
      ensures this.config == config && memory == Blank
    {
      this.config, memory := config, Blank;
    }

    method ResetMemory()
      modifies this
      ensures memory == Blank
    {
      memory := Blank;
    }

    method Halt(reason: Reason) returns (cmd: ControlCommand)
      modifies this
      ensures memory == Blank && cmd == Stop(Holding, reason)
    {
      ResetMemory();
      cmd := ControlCommand(0.0, 0.0, Holding, false, reason);
    }

    method UpdateDerivative(error: real, now: real) returns (rate: real)
      modifies this
      ensures rate == Derivative(old(memory), error, now) && memory == Seen(error, now)
    {
      var before := memory;
      memory := Seen(error, now);
      if before.Blank? {
        return 0.0;
      }
      var dt := now - before.at;
      if dt <= 0.001 {
        return 0.0;
      }
      return (error - before.error) / dt;
    }

    method ComputeCommand(pose: Pose, w: Waypoint, s: Sight, allowDrive: bool, now: real) returns (cmd: ControlCommand)
      modifies this
      ensures (cmd, memory) == Compute(config, old(memory), pose, w, s, allowDrive, now)
    {
      hide Throttle, Steering;
      if !pose.valid {
        cmd := Halt(PoseInvalid);
        return;
      }
      if pose.heading.None? {
        cmd := Halt(NoHeading);
        return;
      }
      if now - pose.timestamp > config.maxPoseAge {
        cmd := Halt(PoseStale);
        return;
      }
      var rate := UpdateDerivative(s.errorRad, now);
      if !allowDrive {
        cmd := Halt(DriveNotAllowed);
        return;
      }
      if s.distance <= w.tolerance + config.stopDistance {
        if NeedsAlignment(w, s) {
          return Stop(Aligning, HeadingOutOfTolerance);
        }
        ResetMemory();
        return ControlCommand(0.0, 0.0, Arrived, true, AtTarget);
      }
      var steering := Steering(config, s.errorRad, rate);
      var throttle := Throttle(config, w, s);
      var mode := if throttle > 0.0 then Driving else Braking;
      cmd := ControlCommand(throttle, steering, mode, false, NoneGiven);
    }
  }
}
