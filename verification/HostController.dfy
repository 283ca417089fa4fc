/** The host's control objects, updated in place and proved against `HostControl`. */
module HostController {
  import opened Options
  import opened PoseControl
  import opened HostControl

  class ControlAuthority {
    var state: Authority
    var faultReason: string

    constructor ()
      ensures state == Disarmed && faultReason == ""
    {
      state, faultReason := Disarmed, "";
    }

    /** Arming is allowed only from DISARMED. */
    method Arm(a: Authority) returns (ok: bool)
      requires a == Manual || a == AutoHost
      modifies this
      ensures ok <==> old(state) == Disarmed
      ensures state == (if ok then a else old(state)) && faultReason == old(faultReason)
    {
      if state != Disarmed {
        return false;
      }
      state := a;
      return true;
    }

    method Disarm() returns (ok: bool)
      modifies this
      ensures ok <==> old(state) != Faulted
      ensures if ok then state == Disarmed && faultReason == "" else state == Faulted && faultReason == old(faultReason)
    {
      if state == Faulted {
        return false;
      }
      state, faultReason := Disarmed, "";
      return true;
    }

    method Fault(reason: string)
      modifies this
      ensures state == Faulted
      ensures faultReason == if old(state) == Faulted then old(faultReason) else if reason != "" then reason else "FAULT"
    {
      if state != Faulted {
        faultReason := if reason != "" then reason else "FAULT";
        state := Faulted;
      }
    }

    method ClearFault() returns (ok: bool)
      modifies this
      ensures ok <==> old(state) == Faulted
      ensures if ok then state == Disarmed && faultReason == "" else state == old(state) && faultReason == old(faultReason)
    {
      if state != Faulted {
        return false;
      }
      state, faultReason := Disarmed, "";
      return true;
    }

    method Rearm(a: Authority) returns (ok: bool)
      requires a == Manual || a == AutoHost
      modifies this
      ensures ok <==> old(state) == Faulted || old(state) == Disarmed
      ensures state == if ok then a else old(state)
      ensures faultReason == if old(state) == Faulted then "" else old(faultReason)
    {
      if state == Faulted {
        var cleared := ClearFault();
      }
      ok := Arm(a);
    }
  }

  class HostWaypointMission {
    var waypoints: seq<Waypoint>
    var index: nat
    var status: MissionStatus

    ghost function Abs(): Mission
      reads this
    {
      Mission(waypoints, index, status)
    }

    constructor (waypoints: seq<Waypoint>)
      ensures Abs() == Loaded(waypoints)
    {
      this.waypoints, index := waypoints, 0;
      status := if |waypoints| > 0 then Running else Empty;
    }

    method Load(waypoints: seq<Waypoint>)
      modifies this
      ensures Abs() == Loaded(waypoints)
    {
      this.waypoints, index := waypoints, 0;
      status := if |waypoints| > 0 then Running else Empty;
    }

    method CurrentTarget() returns (target: Option<Waypoint>)
      ensures target == Target(Abs())
    {
      if status != Running {
        return None;
      }
      if index < |waypoints| {
        return Some(waypoints[index]);
      }
      return None;
    }

    method NotifyResult(cmd: ControlCommand)
      modifies this
      ensures Abs() == Progress(old(Abs()), cmd)
    {
      if status != Running || index >= |waypoints| {
        return;
      }
      if cmd.mode == Aligning {
        status := ReplanRequired;
        return;
      }
      if cmd.arrived {
        if waypoints[index].isFinal || index == |waypoints| - 1 {
          status := Done;
        } else {
          index := index + 1;
        }
      }
    }

    method ConfirmParked()
      modifies this
      ensures Abs() == if old(status) == Done then old(Abs()).(status := Parked) else old(Abs())
    {
      if status == Done {
        status := Parked;
      }
    }
  }

  /** Keeps the last observation with the time it was made. */
  class CameraPoseSource {
    var pose: Option<Pose>
    var hadObservation: bool

    constructor ()
      ensures pose == None && !hadObservation
    {
      pose, hadObservation := None, false;
    }

    method Observe(x: real, y: real, heading: Option<real>, obsTime: real, valid: bool)
      modifies this
      ensures pose == Some(Pose(x, y, heading, obsTime, valid)) && hadObservation
    {
      ObservePose(Pose(x, y, heading, obsTime, valid));
    }

    method ObservePose(p: Pose)
      modifies this
      ensures pose == Some(p) && hadObservation
    {
      pose := Some(p);
      hadObservation := true;
    }

    method Clear()
      modifies this
      ensures pose == None && !hadObservation
    {
      pose, hadObservation := None, false;
    }
  }

  class DirectControlSender {
    var seqNumber: nat
    var sent: seq<Payload>

    constructor ()
      ensures seqNumber == 0 && sent == []
    {
      seqNumber, sent := 0, [];
    }

    method Transmit(throttle: real, steering: real) returns (p: Payload)
      modifies this
      ensures p == Payload(old(seqNumber) + 1, Round4(throttle), Round4(steering))
      ensures seqNumber == old(seqNumber) + 1 && sent == old(sent) + [p]
    {
      seqNumber := seqNumber + 1;
      p := Payload(seqNumber, Round4(throttle), Round4(steering));
      sent := sent + [p];
    }
  }

  class HostController {
    const setup: Setup
    const authority: ControlAuthority
    const poseSource: CameraPoseSource
    const mission: HostWaypointMission
    const controller: PoseWaypointController
    const sender: DirectControlSender

    ghost predicate Valid() {
      controller.config == setup.config
    }

    ghost function Abs(): Host
      reads authority, poseSource, mission, controller, sender
    {
      Host(authority.state, authority.faultReason, poseSource.pose, mission.Abs(), controller.memory,
           sender.seqNumber, sender.sent)
    }

    constructor (setup: Setup, waypoints: seq<Waypoint>)
      ensures Valid() && this.setup == setup && Abs() == Start(waypoints)
      ensures fresh(authority) && fresh(poseSource) && fresh(mission) && fresh(controller) && fresh(sender)
    {
      this.setup := setup;
      authority := new ControlAuthority();
      poseSource := new CameraPoseSource();
      mission := new HostWaypointMission(waypoints);
      controller := new PoseWaypointController(setup.config);
      sender := new DirectControlSender();
    }

    /** One control period: exactly one payload goes out, the authority's own. */
    method TickOnce(now: real, observation: Option<Pose>, input: Option<ManualInput>, sight: Sight) returns (p: Payload)
      requires Valid()
      modifies authority, poseSource, mission, controller, sender
      ensures Abs() == Step(old(Abs()), setup, Ticks(now, observation, input, sight))
      ensures sender.sent == old(sender.sent) + [p]
    {
      hide Compute, ManualCommand, Progress, Round4;
      if observation.Some? {
        poseSource.ObservePose(observation.value);
      }
      var state := authority.state;
      if state == Disarmed || state == Faulted {
        p := sender.Transmit(0.0, 0.0);
        return;
      }
      if state == Manual {
        var cmd := ManualCommand(setup.config, input);
        p := sender.Transmit(cmd.throttle, cmd.steering);
        return;
      }
      var target := mission.CurrentTarget();
      if target.None? {
        p := sender.Transmit(0.0, 0.0);
        return;
      }
      p := FollowTarget(target.value, sight, now);
    }

    method FollowTarget(w: Waypoint, sight: Sight, now: real) returns (p: Payload)
      requires Valid()
      modifies authority, mission, controller, sender
      ensures Abs() == AutoTick(old(Abs()), setup.config, setup.faultOnStale, w, sight, now)
      ensures sender.sent == old(sender.sent) + [p]
    {
      hide Compute, Progress, Round4;
      var pose := poseSource.pose;
      if pose.None? {
        mission.NotifyResult(Stop(Holding, NoPose));
        p := sender.Transmit(0.0, 0.0);
        return;
      }
      var cmd := controller.ComputeCommand(pose.value, w, sight, true, now);
      if CameraLost(cmd.reason) && setup.faultOnStale {
        authority.Fault(ReasonText(cmd.reason));
        p := sender.Transmit(0.0, 0.0);
        return;
      }
      mission.NotifyResult(cmd);
      p := sender.Transmit(cmd.throttle, cmd.steering);
    }

    method ArmAuto() returns (ok: bool)
      modifies authority, controller
      ensures Abs() == Step(old(Abs()), setup, ArmsAuto) && (ok <==> old(authority.state) == Disarmed)
    {
      controller.ResetMemory();
      ok := authority.Arm(AutoHost);
    }

    method RearmAuto() returns (ok: bool)
      modifies authority, controller
      ensures Abs() == Step(old(Abs()), setup, RearmsAuto)
    {
      controller.ResetMemory();
      ok := authority.Rearm(AutoHost);
    }

    method ArmManual() returns (ok: bool)
      modifies authority
      ensures Abs() == Step(old(Abs()), setup, ArmsManual)
    {
      ok := authority.Arm(Manual);
    }

    method Disarm() returns (ok: bool)
      modifies authority
      ensures Abs() == Step(old(Abs()), setup, Disarms)
    {
      ok := authority.Disarm();
    }

    method Fault(reason: string)
      modifies authority
      ensures Abs() == Step(old(Abs()), setup, Faults(reason))
    {
      authority.Fault(reason);
    }

    /** The emergency stop is a fault like any other. */
    method EmergencyStop()
      modifies authority
      ensures Abs() == Step(old(Abs()), setup, Faults("STOP"))
    {
      authority.Fault("STOP");
    }
  }
}
