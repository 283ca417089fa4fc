/**
 The host's control loop: one authority decides whose command is sent, a fault latches, and a tick sends
 exactly one payload.
 */
module HostControl {
  import opened Options
  import opened PoseControl
  import opened Reals

  datatype Authority = Disarmed | Manual | AutoHost | Faulted

  datatype MissionStatus = Empty | Running | ReplanRequired | Done | Parked

  datatype ManualInput = ManualInput(throttle: real, steering: real)

  datatype Payload = Payload(controlSeq: nat, throttle: real, steering: real)

  datatype Mission = Mission(waypoints: seq<Waypoint>, index: nat, status: MissionStatus)

  /** `sent` is history: every payload handed to the transport. */
  datatype Host = Host(authority: Authority, faultReason: string, pose: Option<Pose>, mission: Mission,
                       memory: Memory, controlSeq: nat, sent: seq<Payload>)

  // --- authority ---

  /** The first fault latches with its reason; later ones do not replace it. */
  function Fault(h: Host, reason: string): Host {
    if h.authority == Faulted then h
    else h.(authority := Faulted, faultReason := if reason != "" then reason else "FAULT")
  }

  function ClearFault(h: Host): Host {
    if h.authority == Faulted then h.(authority := Disarmed, faultReason := "") else h
  }

  function Disarm(h: Host): Host {
    if h.authority == Faulted then h else h.(authority := Disarmed, faultReason := "")
  }

  function Arm(h: Host, a: Authority): Host {
    if h.authority == Disarmed then h.(authority := a) else h
  }

  // --- mission ---

  function Loaded(waypoints: seq<Waypoint>): Mission {
    Mission(waypoints, 0, if |waypoints| > 0 then Running else Empty)
  }

  function Target(m: Mission): Option<Waypoint> {
    if m.status == Running && m.index < |m.waypoints| then Some(m.waypoints[m.index]) else None
  }

  predicate AtFinal(m: Mission)
    requires m.index < |m.waypoints|
  {
    m.waypoints[m.index].isFinal || m.index == |m.waypoints| - 1
  }

  /** Arrival moves on to the next waypoint or finishes; a heading that does not fit asks for a new plan. */
  function Progress(m: Mission, cmd: ControlCommand): Mission {
    if m.status != Running || m.index >= |m.waypoints| then m
    else if cmd.mode == Aligning then m.(status := ReplanRequired)
    else if !cmd.arrived then m
    else if AtFinal(m) then m.(status := Done)
    else m.(index := m.index + 1)
  }

  // --- producers and transport ---

  function ManualCommand(c: Config, input: Option<ManualInput>): ControlCommand {
    if input.None? then Stop(Holding, NoManualInput)
    else
      var floor := if c.allowReverse then -c.maxThrottle else 0.0;
      var wanted := Clamp(input.value.throttle, -1.0, 1.0);
      var forward := if !c.allowReverse && wanted < 0.0 then 0.0 else wanted;
      var throttle := Round4(Clamp(forward, floor, c.maxThrottle));
      var steering := Round4(Clamp(c.steeringSign * Clamp(input.value.steering, -1.0, 1.0), -1.0, 1.0));
      ControlCommand(throttle, steering, if throttle > 0.0 then Driving else Holding, false, ManualDrive)
  }

  function SendOut(h: Host, throttle: real, steering: real): Host {
    h.(controlSeq := h.controlSeq + 1, sent := h.sent + [Payload(h.controlSeq + 1, Round4(throttle), Round4(steering))])
  }

  // --- a tick ---

  predicate CameraLost(r: Reason) { r == PoseStale || r == PoseInvalid || r == NoHeading }

  function ReasonText(r: Reason): string {
    match r
    case PoseStale => "POSE_STALE"
    case PoseInvalid => "POSE_INVALID"
    case _ => "NO_HEADING"
  }

  /** A tick under AUTO_HOST with a target: follow it, unless the camera has lost the car. */
  function AutoTick(h: Host, c: Config, faultOnStale: bool, w: Waypoint, s: Sight, now: real): Host {
    if h.pose.None? then SendOut(h.(mission := Progress(h.mission, Stop(Holding, NoPose))), 0.0, 0.0)
    else
      var (cmd, memory) := Compute(c, h.memory, h.pose.value, w, s, true, now);
      var g := h.(memory := memory);
      if CameraLost(cmd.reason) && faultOnStale then SendOut(Fault(g, ReasonText(cmd.reason)), 0.0, 0.0)
      else SendOut(g.(mission := Progress(g.mission, cmd)), cmd.throttle, cmd.steering)
  }

  function Tick(h: Host, c: Config, faultOnStale: bool, observation: Option<Pose>, input: Option<ManualInput>,
                s: Sight, now: real): Host {
    var g := if observation.Some? then h.(pose := observation) else h;
    match g.authority
    case Disarmed => SendOut(g, 0.0, 0.0)
    case Faulted => SendOut(g, 0.0, 0.0)
    case Manual =>
      var cmd := ManualCommand(c, input);
      SendOut(g, cmd.throttle, cmd.steering)
    case AutoHost =>
      if Target(g.mission).None? then SendOut(g, 0.0, 0.0)
      else AutoTick(g, c, faultOnStale, Target(g.mission).value, s, now)
  }

  // --- runs ---

  datatype Event =
    | Ticks(now: real, observation: Option<Pose>, input: Option<ManualInput>, sight: Sight)
    | Observes(pose: Pose)
    | ForgetsPose
    | ArmsAuto | ArmsManual | Disarms | Faults(reason: string) | ClearsFault | RearmsAuto | RearmsManual
    | LoadsMission(waypoints: seq<Waypoint>) | ResetsMission | ConfirmsParked

  datatype Setup = Setup(config: Config, faultOnStale: bool)

  function Step(h: Host, u: Setup, ev: Event): Host {
    match ev
    case Ticks(now, observation, input, sight) => Tick(h, u.config, u.faultOnStale, observation, input, sight, now)
    case Observes(pose) => h.(pose := Some(pose))
    case ForgetsPose => h.(pose := None)
    case ArmsAuto => Arm(h.(memory := Blank), AutoHost)
    case ArmsManual => Arm(h, Manual)
    case Disarms => Disarm(h)
    case Faults(reason) => Fault(h, reason)
    case ClearsFault => ClearFault(h)
    case RearmsAuto => Arm(ClearFault(h.(memory := Blank)), AutoHost)
    case RearmsManual => Arm(ClearFault(h), Manual)
    case LoadsMission(waypoints) => h.(mission := Loaded(waypoints))
    case ResetsMission => h.(mission := Loaded(h.mission.waypoints))
    case ConfirmsParked => if h.mission.status == Done then h.(mission := h.mission.(status := Parked)) else h
  }

  function Start(waypoints: seq<Waypoint>): Host {
    Host(Disarmed, "", None, Loaded(waypoints), Blank, 0, [])
  }

  function Run(u: Setup, waypoints: seq<Waypoint>, events: seq<Event>): Host
    decreases |events|
  {
    if |events| == 0 then Start(waypoints) else Step(Run(u, waypoints, events[..|events| - 1]), u, events[|events| - 1])
  }

  // --- every payload ---

  ghost predicate ZeroPayload(p: Payload) { p.throttle == 0.0 && p.steering == 0.0 }

  lemma Round4Zero()
    ensures Round4(0.0) == 0.0
  {
  }

  lemma TickSendsOne(h: Host, u: Setup, ev: Event)
    requires ev.Ticks?
    ensures var g := Step(h, u, ev);
      |g.sent| == |h.sent| + 1 && g.sent[..|h.sent|] == h.sent
      && g.controlSeq == h.controlSeq + 1 && g.sent[|h.sent|].controlSeq == g.controlSeq
  {
    hide Compute, ManualCommand, Progress, Round4;
  }

  lemma OtherSendsNothing(h: Host, u: Setup, ev: Event)
    requires !ev.Ticks?
    ensures Step(h, u, ev).sent == h.sent && Step(h, u, ev).controlSeq == h.controlSeq
  {
  }

  /** Control sequence numbers count the payloads, zero ones included. */
  lemma {:induction false} PayloadsAreNumbered(u: Setup, waypoints: seq<Waypoint>, events: seq<Event>)
    ensures var h := Run(u, waypoints, events);
      h.controlSeq == |h.sent| && forall i :: 0 <= i < |h.sent| ==> h.sent[i].controlSeq == i + 1
    decreases |events|
  {
    hide Step;
    if |events| > 0 {
      var h, ev := Run(u, waypoints, events[..|events| - 1]), events[|events| - 1];
      PayloadsAreNumbered(u, waypoints, events[..|events| - 1]);
      if ev.Ticks? {
        TickSendsOne(h, u, ev);
        var sent := Step(h, u, ev).sent;
        assert forall i :: 0 <= i < |h.sent| ==> sent[i] == sent[..|h.sent|][i];
      } else {
        OtherSendsNothing(h, u, ev);
      }
    }
  }

  /** What the camera said last before a tick, the tick's own observation included. */
  function SeenBy(h: Host, ev: Event): Option<Pose>
    requires ev.Ticks?
  {
    if ev.observation.Some? then ev.observation else h.pose
  }

  lemma RoundedInLimits(c: Config, throttle: real, steering: real)
    requires Sensible(c) && InLimits(c, throttle, steering)
    ensures InLimits(c, Round4(throttle), Round4(steering))
    ensures throttle == 0.0 ==> Round4(throttle) == 0.0
    ensures steering == 0.0 ==> Round4(steering) == 0.0
  {
    hide Round4, OnGrid;
    Round4Zero();
    ZeroAndOneOnGrid();
    Round4Keeps(throttle, c.minThrottle);
    Round4Keeps(throttle, c.maxThrottle);
    Round4Keeps(steering, 1.0);
    Round4Keeps(steering, -1.0);
  }

  /**
   Under AUTO_HOST a payload that moves or steers needs a running mission with a target and a last observation that
   is valid, has a heading and is not too old; its throttle is zero or in the moving range, its steering in [-1, 1].
   */
  lemma AutoPayloadIsBacked(h: Host, u: Setup, ev: Event)
    requires Sensible(u.config) && ev.Ticks? && h.authority == AutoHost
    ensures var p := Step(h, u, ev).sent[|h.sent|];
      InLimits(u.config, p.throttle, p.steering)
      && (!ZeroPayload(p) ==>
            && h.mission.status == Running && Target(h.mission).Some?
            && SeenBy(h, ev).Some? && Usable(u.config, SeenBy(h, ev).value, ev.now)
            && Step(h, u, ev).authority == AutoHost)
  {
    hide Compute, Round4, Sensible, Progress;
    Round4Zero();
    ZeroInLimits(u.config);
    var g := if ev.observation.Some? then h.(pose := ev.observation) else h;
    if Target(g.mission).Some? && g.pose.Some? {
      var w := Target(g.mission).value;
      var cmd := Compute(u.config, g.memory, g.pose.value, w, ev.sight, true, ev.now).0;
      AutoCommandInLimits(u.config, g.memory, g.pose.value, w, ev.sight, ev.now);
      RoundedInLimits(u.config, cmd.throttle, cmd.steering);
    }
  }

  lemma ZeroInLimits(c: Config)
    ensures InLimits(c, 0.0, 0.0)
  {
  }

  lemma AutoCommandInLimits(c: Config, m: Memory, pose: Pose, w: Waypoint, s: Sight, now: real)
    requires Sensible(c)
    ensures var cmd := Compute(c, m, pose, w, s, true, now).0;
      InLimits(c, cmd.throttle, cmd.steering) && (Nonzero(cmd) ==> Usable(c, pose, now))
  {
    hide Throttle, Steering;
    if Nonzero(Compute(c, m, pose, w, s, true, now).0) {
      DriveNeedsUsablePose(c, m, pose, w, s, true, now);
    }
  }

  /** A disarmed or faulted host only ever sends zero. */
  lemma UnarmedSendsZero(h: Host, u: Setup, ev: Event)
    requires ev.Ticks? && (h.authority == Disarmed || h.authority == Faulted)
    ensures ZeroPayload(Step(h, u, ev).sent[|h.sent|]) && Step(h, u, ev).authority == h.authority
  {
    hide Round4;
    Round4Zero();
  }

  /** Under AUTO_HOST the manual input does not matter, under MANUAL nothing but the manual input does. */
  lemma OneProducerAtATime(h: Host, g: Host, u: Setup, now: real, observation: Option<Pose>, s: Sight,
                           a: Option<ManualInput>, b: Option<ManualInput>)
    ensures h.authority == AutoHost ==>
      Step(h, u, Ticks(now, observation, a, s)) == Step(h, u, Ticks(now, observation, b, s))
    ensures h.authority == Manual && g == h.(pose := g.pose, mission := g.mission, memory := g.memory) ==>
      Step(h, u, Ticks(now, observation, a, s)).sent == Step(g, u, Ticks(now, None, a, s)).sent
  {
    hide Compute, ManualCommand, Progress, Round4;
  }

  // --- what changes the authority, and what is driven automatically ---

  /** The authority after everything but a tick: arming only from DISARMED, re-arming also out of a fault. */
  lemma AuthorityExactly(h: Host, u: Setup, ev: Event)
    requires !ev.Ticks?
    ensures Step(h, u, ev).authority ==
      match ev
      case ArmsAuto => if h.authority == Disarmed then AutoHost else h.authority
      case ArmsManual => if h.authority == Disarmed then Manual else h.authority
      case RearmsAuto => if h.authority == Disarmed || h.authority == Faulted then AutoHost else h.authority
      case RearmsManual => if h.authority == Disarmed || h.authority == Faulted then Manual else h.authority
      case Disarms => if h.authority == Faulted then Faulted else Disarmed
      case Faults(_) => Faulted
      case ClearsFault => if h.authority == Faulted then Disarmed else h.authority
      case _ => h.authority
    ensures Step(h, u, ev).memory == if ev.ArmsAuto? || ev.RearmsAuto? then Blank else h.memory
    ensures Step(h, u, ev).sent == h.sent
  {
  }

  /** The first fault is the one remembered, and only leaving the fault, or disarming, forgets it. */
  lemma ReasonExactly(h: Host, u: Setup, ev: Event)
    requires !ev.Ticks?
    ensures Step(h, u, ev).faultReason ==
      if ev.Faults? && h.authority != Faulted then (if ev.reason == "" then "FAULT" else ev.reason)
      else if Clears(ev) && h.authority == Faulted then ""
      else if ev.Disarms? && h.authority != Faulted then ""
      else h.faultReason
  {
  }

  /**
   Under AUTO_HOST with a target and a pose, the payload is exactly the throttle and the steering of the controller's
   command, and the mission takes the command; without a target or a pose it is zero.
   */
  lemma AutoPayloadExactly(h: Host, u: Setup, ev: Event)
    requires Sensible(u.config) && ev.Ticks? && h.authority == AutoHost
    ensures var g, p := Step(h, u, ev), Step(h, u, ev).sent[|h.sent|];
      if Target(h.mission).None? then ZeroPayload(p) && g.mission == h.mission && g.memory == h.memory
      else if SeenBy(h, ev).None? then ZeroPayload(p) && g.mission == h.mission && g.authority == AutoHost
      else
        var (cmd, memory) := Compute(u.config, h.memory, SeenBy(h, ev).value, Target(h.mission).value, ev.sight, true, ev.now);
        && p.throttle == cmd.throttle && p.steering == cmd.steering && g.memory == memory
        && (Usable(u.config, SeenBy(h, ev).value, ev.now) || !u.faultOnStale ==>
              g.mission == Progress(h.mission, cmd) && g.authority == AutoHost)
  {
    hide Compute, Round4, Sensible, OnGrid;
    Round4Zero();
    if Target(h.mission).Some? && SeenBy(h, ev).Some? {
      CommandIsRounded(u.config, h.memory, SeenBy(h, ev).value, Target(h.mission).value, ev.sight, ev.now);
    }
  }

  lemma CommandIsRounded(c: Config, m: Memory, pose: Pose, w: Waypoint, s: Sight, now: real)
    ensures var cmd := Compute(c, m, pose, w, s, true, now).0;
      && Round4(cmd.throttle) == cmd.throttle && Round4(cmd.steering) == cmd.steering
      && (CameraLost(cmd.reason) <==> !Usable(c, pose, now))
      && (CameraLost(cmd.reason) ==> cmd.throttle == 0.0 && cmd.steering == 0.0)
  {
    ComputeExactly(c, m, pose, w, s, true, now);
    hide Compute, Round4, WantedSpeed, WireSteering, OnGrid;
    Round4Zero();
    Round4Twice(ThrottleFor(c, WantedSpeed(c, w, s)));
    Round4Twice(WireSteering(c, Demand(c, s.errorRad, Derivative(m, s.errorRad, now))));
  }

  /** A mission starts running at its first waypoint, or empty; a running one aims at the waypoint it has come to. */
  lemma MissionStartsExactly(waypoints: seq<Waypoint>, m: Mission)
    ensures Loaded(waypoints) == Mission(waypoints, 0, if waypoints == [] then Empty else Running)
    ensures m.status == Running && m.index < |m.waypoints| ==> Target(m) == Some(m.waypoints[m.index])
    ensures m.status != Running ==> Target(m) == None
  {
  }

  /** Loading starts the new mission, resetting starts the old one again, and only a finished one is confirmed as parked. */
  lemma MissionEventsExactly(h: Host, u: Setup, ev: Event)
    requires !ev.Ticks?
    ensures Step(h, u, ev).mission ==
      match ev
      case LoadsMission(waypoints) => Mission(waypoints, 0, if waypoints == [] then Empty else Running)
      case ResetsMission => Mission(h.mission.waypoints, 0, if h.mission.waypoints == [] then Empty else Running)
      case ConfirmsParked =>
        Mission(h.mission.waypoints, h.mission.index, if h.mission.status == Done then Parked else h.mission.status)
      case _ => h.mission
  {
  }

  /** A host starts disarmed, without a fault, a pose or anything sent, and its mission at the first waypoint. */
  lemma HostStartsExactly(waypoints: seq<Waypoint>)
    ensures var h := Start(waypoints);
      && h.authority == Disarmed && h.faultReason == "" && h.pose == None && h.memory == Blank
      && h.sent == [] && h.controlSeq == 0 && h.mission.waypoints == waypoints && h.mission.index == 0
      && (waypoints != [] ==> Target(h.mission) == Some(waypoints[0]))
  {
  }

  /** A command that asks for a new heading suspends a running mission, which then has no target. */
  lemma AligningSuspends(m: Mission, cmd: ControlCommand)
    requires m.status == Running && m.index < |m.waypoints| && cmd.mode == Aligning
    ensures var n := Progress(m, cmd); n.status == ReplanRequired && n.index == m.index && Target(n) == None
  {
  }

  // --- what is driven by hand ---

  /**
   By hand, without reverse: the throttle is that of the input, rounded, cut off at zero and at the greatest one; the
   steering is that of the input, rounded, its sign turned for the wire, cut off at full steering. No input is zero.
   */
  lemma ManualPayloadExactly(h: Host, u: Setup, ev: Event)
    requires Sensible(u.config) && !u.config.allowReverse && ev.Ticks? && h.authority == Manual
    ensures var p := Step(h, u, ev).sent[|h.sent|];
      if ev.input.None? then ZeroPayload(p)
      else
        var t, s := ev.input.value.throttle, ev.input.value.steering;
        && p.throttle == (if t <= 0.0 then 0.0 else if t >= u.config.maxThrottle then u.config.maxThrottle else Round4(t))
        && p.steering == (if s >= 1.0 then -1.0 else if s <= -1.0 then 1.0 else Round4(-s))
  {
    hide Compute, Round4, OnGrid;
    Round4Zero();
    if ev.input.Some? {
      var t, s := ev.input.value.throttle, ev.input.value.steering;
      ZeroAndOneOnGrid();
      Round4OnGrid(1.0);
      Round4OnGrid(-1.0);
      Round4OnGrid(u.config.maxThrottle);
      Round4Twice(t);
      Round4Twice(-s);
      assert u.config.steeringSign * Clamp(s, -1.0, 1.0) == -Clamp(s, -1.0, 1.0);
    }
  }

  /** With reverse allowed the throttle is cut off at the greatest one in both directions, the steering as before. */
  lemma ManualReverseExactly(h: Host, u: Setup, ev: Event)
    requires Sensible(u.config) && u.config.allowReverse && ev.Ticks? && h.authority == Manual && ev.input.Some?
    ensures var p, t, s := Step(h, u, ev).sent[|h.sent|], ev.input.value.throttle, ev.input.value.steering;
      && p.throttle == (if t >= u.config.maxThrottle then u.config.maxThrottle
                        else if t <= -u.config.maxThrottle then -u.config.maxThrottle
                        else Round4(t))
      && p.steering == (if s >= 1.0 then -1.0 else if s <= -1.0 then 1.0 else Round4(-s))
  {
    hide Compute, Round4, OnGrid;
    var t, s := ev.input.value.throttle, ev.input.value.steering;
    ZeroAndOneOnGrid();
    Round4OnGrid(1.0);
    Round4OnGrid(-1.0);
    Round4OnGrid(u.config.maxThrottle);
    NegatedOnGrid(u.config.maxThrottle);
    Round4OnGrid(-u.config.maxThrottle);
    Round4Twice(t);
    Round4Twice(-s);
    assert u.config.steeringSign * Clamp(s, -1.0, 1.0) == -Clamp(s, -1.0, 1.0);
  }

  /** A command by hand drives, or holds, and never claims an arrival. */
  lemma ManualCommandDrives(c: Config, input: Option<ManualInput>)
    ensures var cmd := ManualCommand(c, input);
      && !cmd.arrived && cmd.mode == (if cmd.throttle > 0.0 then Driving else Holding)
      && cmd.reason == (if input.None? then NoManualInput else ManualDrive)
  {
    hide Round4;
  }

  lemma NegatedOnGrid(x: real)
    requires OnGrid(x)
    ensures OnGrid(-x)
  {
    var n := (x * 10000.0).Floor;
    assert -x * 10000.0 == (-n) as real;
  }

  lemma Round4Twice(x: real)
    ensures Round4(Round4(x)) == Round4(x)
  {
    hide Round4, OnGrid;
    Round4IsNearest(x);
    Round4OnGrid(Round4(x));
  }

  // --- the fault latch ---

  predicate Clears(ev: Event) { ev.ClearsFault? || ev.RearmsAuto? || ev.RearmsManual? }

  predicate Arms(ev: Event) { ev.ArmsAuto? || ev.ArmsManual? || ev.RearmsAuto? || ev.RearmsManual? }

  lemma FaultLatches(h: Host, u: Setup, ev: Event)
    requires h.authority == Faulted
    ensures Clears(ev) || Step(h, u, ev).authority == Faulted
    ensures Clears(ev) ==> Step(h, u, ev).authority == Disarmed || Arms(ev)
  {
    hide Compute, ManualCommand;
  }

  lemma DisarmedStays(h: Host, u: Setup, ev: Event)
    requires h.authority == Disarmed || h.authority == Faulted
    ensures Arms(ev) || Step(h, u, ev).authority == Disarmed || Step(h, u, ev).authority == Faulted
  {
    hide Compute, ManualCommand;
  }

  lemma OnlyArmingEntersAuto(h: Host, u: Setup, ev: Event)
    requires Step(h, u, ev).authority == AutoHost && h.authority != AutoHost
    ensures (ev.ArmsAuto? && h.authority == Disarmed) || ev.RearmsAuto?
  {
    hide Compute, ManualCommand;
  }

  /** Since the i-th event: 0 while faulted, 1 once cleared, 2 once armed. */
  datatype Latch = Latch(stage: nat, cleared: nat, armed: nat)

  ghost predicate LatchAt(u: Setup, waypoints: seq<Waypoint>, events: seq<Event>, i: nat, l: Latch) {
    var a := Run(u, waypoints, events).authority;
    && (l.stage == 0 ==> a == Faulted)
    && (l.stage == 1 ==> a == Disarmed || a == Faulted)
    && (l.stage >= 1 ==> i < l.cleared < |events| && Clears(events[l.cleared]))
    && (l.stage >= 2 ==> l.cleared <= l.armed < |events| && Arms(events[l.armed]))
  }

  lemma {:induction false} FollowLatch(u: Setup, waypoints: seq<Waypoint>, events: seq<Event>, i: nat) returns (l: Latch)
    requires i < |events| && Run(u, waypoints, events[..i + 1]).authority == Faulted
    ensures LatchAt(u, waypoints, events, i, l)
    decreases |events|
  {
    hide Step;
    if i == |events| - 1 {
      assert events[..i + 1] == events;
      l := Latch(0, 0, 0);
    } else {
      var last, front := |events| - 1, events[..|events| - 1];
      assert front[..i + 1] == events[..i + 1];
      var h := Run(u, waypoints, front);
      l := FollowLatch(u, waypoints, front, i);
      if l.stage == 0 {
        FaultLatches(h, u, events[last]);
        if Clears(events[last]) {
          l := if Arms(events[last]) then Latch(2, last, last) else Latch(1, last, 0);
        }
      } else if l.stage == 1 {
        DisarmedStays(h, u, events[last]);
        if Arms(events[last]) {
          l := Latch(2, l.cleared, last);
        }
      }
    }
  }

  /**
   Once the host has faulted, whatever it observes: a payload that is not zero is only sent after the fault was
   cleared and, at the same time or later, an authority was armed again.
   */
  lemma FaultHoldsUntilRearmed(u: Setup, waypoints: seq<Waypoint>, events: seq<Event>, i: nat, tick: Event)
    returns (cleared: nat, armed: nat)
    requires i < |events| && Run(u, waypoints, events[..i + 1]).authority == Faulted && tick.Ticks?
    requires var h := Run(u, waypoints, events); !ZeroPayload(Step(h, u, tick).sent[|h.sent|])
    ensures i < cleared <= armed < |events| && Clears(events[cleared]) && Arms(events[armed])
  {
    hide Step;
    var l := FollowLatch(u, waypoints, events, i);
    var h := Run(u, waypoints, events);
    if h.authority == Disarmed || h.authority == Faulted {
      UnarmedSendsZero(h, u, tick);
    }
    cleared, armed := l.cleared, l.armed;
  }

  /** Losing the camera under AUTO_HOST with a target latches a fault and sends zero. */
  lemma CameraLossFaults(h: Host, u: Setup, ev: Event)
    requires u.faultOnStale && ev.Ticks? && h.authority == AutoHost && Target(h.mission).Some?
    requires SeenBy(h, ev).Some? && !Usable(u.config, SeenBy(h, ev).value, ev.now)
    ensures Step(h, u, ev).authority == Faulted && ZeroPayload(Step(h, u, ev).sent[|h.sent|])
  {
    hide Round4, Throttle, Steering;
    Round4Zero();
  }

  // --- what the camera said last ---

  function LastObservation(events: seq<Event>): Option<Pose> {
    if |events| == 0 then None
    else match events[|events| - 1]
      case Observes(pose) => Some(pose)
      case ForgetsPose => None
      case Ticks(_, Some(pose), _, _) => Some(pose)
      case _ => LastObservation(events[..|events| - 1])
  }

  lemma PoseOnlyObserved(h: Host, u: Setup, ev: Event)
    ensures Step(h, u, ev).pose ==
      match ev
      case Observes(pose) => Some(pose)
      case ForgetsPose => None
      case Ticks(_, Some(pose), _, _) => Some(pose)
      case _ => h.pose
  {
    hide Compute, ManualCommand, Progress, Round4;
  }

  /** The stored pose is the last one observed, with the time of its observation: ticking never refreshes it. */
  lemma {:induction false} PoseIsLastObserved(u: Setup, waypoints: seq<Waypoint>, events: seq<Event>)
    ensures Run(u, waypoints, events).pose == LastObservation(events)
    decreases |events|
  {
    hide Step;
    if |events| > 0 {
      PoseIsLastObserved(u, waypoints, events[..|events| - 1]);
      PoseOnlyObserved(Run(u, waypoints, events[..|events| - 1]), u, events[|events| - 1]);
    }
  }

  // --- the mission ---

  /** Where the mission ends: at the first waypoint marked final, or the last one. */
  function FinalIndex(waypoints: seq<Waypoint>, from: nat): nat
    requires from < |waypoints|
    decreases |waypoints| - from
  {
    if waypoints[from].isFinal || from == |waypoints| - 1 then from else FinalIndex(waypoints, from + 1)
  }

  function Arrivals(cmds: seq<ControlCommand>): nat {
    if |cmds| == 0 then 0 else Arrivals(cmds[..|cmds| - 1]) + (if cmds[|cmds| - 1].arrived then 1 else 0)
  }

  function Follow(m: Mission, cmds: seq<ControlCommand>): Mission {
    if |cmds| == 0 then m else Progress(Follow(m, cmds[..|cmds| - 1]), cmds[|cmds| - 1])
  }

  lemma {:induction false} FinalIndexIsFirstFinal(waypoints: seq<Waypoint>, from: nat)
    requires from < |waypoints|
    ensures var f := FinalIndex(waypoints, from);
      && from <= f < |waypoints| && (waypoints[f].isFinal || f == |waypoints| - 1)
      && forall i :: from <= i < f ==> !waypoints[i].isFinal
    decreases |waypoints| - from
  {
    if !waypoints[from].isFinal && from < |waypoints| - 1 {
      FinalIndexIsFirstFinal(waypoints, from + 1);
    }
  }

  /**
   Unless a heading asks for a new plan, a loaded mission is done exactly when the vehicle has arrived at every
   waypoint up to the final one, and until then its target is the first it has not arrived at.
   */
  lemma {:induction false} MissionNeedsEveryArrival(waypoints: seq<Waypoint>, cmds: seq<ControlCommand>)
    requires |waypoints| > 0 && forall i :: 0 <= i < |cmds| ==> cmds[i].mode != Aligning
    ensures var m, f, n := Follow(Loaded(waypoints), cmds), FinalIndex(waypoints, 0), Arrivals(cmds);
      && m.waypoints == waypoints
      && m.status == (if n > f then Done else Running)
      && m.index == (if n > f then f else n)
    decreases |cmds|
  {
    FinalIndexIsFirstFinal(waypoints, 0);
    if |cmds| > 0 {
      MissionNeedsEveryArrival(waypoints, cmds[..|cmds| - 1]);
    }
  }
}
