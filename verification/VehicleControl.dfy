/** The control task itself: its context, slots and queue, updated in place and proved against `VehicleSpec`. */
module VehicleControl {
  import opened Options
  import opened VehicleTypes
  import opened Actuator
  import opened VehicleSpec
  import opened VehicleSafety

  const COMMAND_QUEUE_LENGTH := 12
  const STATUS_PERIOD_MS := 200
  const COMMANDS_PER_PASS := 4

  datatype Notices = Notices(stop: bool, commTimeout: bool, tcpDown: bool, tcpConnected: bool, wait: bool)

  const NO_NOTICE := Notices(false, false, false, false, false)

  function SlotEvent(due: bool, slot: Option<Message>): seq<Event> {
    if due && slot.Some? then [Receive(slot.value)] else []
  }

  function LinkEvents(bits: Notices): seq<Event> {
    (if bits.commTimeout then [HeartbeatTimeout] else [])
    + (if bits.tcpDown then [TcpDown] else [])
    + (if bits.tcpConnected then [TcpConnected] else [])
  }

  /** What a pass reads for its timers: the tick when a value is applied, with the encoder, and that of the check. */
  datatype Readings = Readings(applyTick: nat, encoder: int, checkTick: nat)

  function TimerEvents(r: Readings, statusDue: bool): seq<Event> {
    [UseDirect(r.applyTick, r.encoder), TimeoutCheck(r.checkTick)] + (if statusDue then [StatusDue] else [])
  }

  /** The critical sections of one pass of the control loop, in their order of priority. */
  function PassEvents(bits: Notices, stop: Option<Message>, wait: Option<Message>, queue: seq<Message>,
                      r: Readings, statusDue: bool): seq<Event> {
    SlotEvent(bits.stop, stop) + LinkEvents(bits) + SlotEvent(bits.wait && !bits.stop, wait)
    + Received(queue[..Batch(queue)]) + TimerEvents(r, statusDue)
  }

  function Batch(queue: seq<Message>): nat {
    if |queue| < COMMANDS_PER_PASS then |queue| else COMMANDS_PER_PASS
  }

  function Received(ms: seq<Message>): (events: seq<Event>)
    ensures |events| == |ms| && forall i :: 0 <= i < |ms| ==> events[i] == Receive(ms[i])
  {
    seq(|ms|, i requires 0 <= i < |ms| => Receive(ms[i]))
  }

  /** A pass that finds everything: the STOP, the losses before the connection, up to four commands, then the timers. */
  lemma PassOrder(stop: Message, wait: Message, queue: seq<Message>, r: Readings)
    requires |queue| >= 4
    ensures PassEvents(Notices(true, true, true, true, true), Some(stop), Some(wait), queue, r, true) ==
      [Receive(stop), HeartbeatTimeout, TcpDown, TcpConnected,
       Receive(queue[0]), Receive(queue[1]), Receive(queue[2]), Receive(queue[3]),
       UseDirect(r.applyTick, r.encoder), TimeoutCheck(r.checkTick), StatusDue]
    ensures PassEvents(Notices(false, true, true, true, true), Some(stop), Some(wait), queue, r, false) ==
      [HeartbeatTimeout, TcpDown, TcpConnected, Receive(wait),
       Receive(queue[0]), Receive(queue[1]), Receive(queue[2]), Receive(queue[3]),
       UseDirect(r.applyTick, r.encoder), TimeoutCheck(r.checkTick)]
  {
    assert Received(queue[..4]) == [Receive(queue[0]), Receive(queue[1]), Receive(queue[2]), Receive(queue[3])];
  }

  /** What a pass did not find is left out of it; a shorter queue is emptied. */
  lemma EmptyPass(stop: Option<Message>, wait: Option<Message>, queue: seq<Message>, r: Readings)
    requires |queue| <= 4
    ensures PassEvents(NO_NOTICE, stop, wait, queue, r, false) ==
      Received(queue) + [UseDirect(r.applyTick, r.encoder), TimeoutCheck(r.checkTick)]
  {
    assert queue[..|queue|] == queue;
  }

  predicate IsSafety(m: Message) {
    m.Reliable? && (m.command.Stop? || m.command.Wait?)
  }

  /** What the communication task leaves for the control task: two slots where the newest wins, a queue and notices. */
  class Mailbox {
    var stopSlot: Option<Message>
    var waitSlot: Option<Message>
    var commandQueue: seq<Message>
    var notices: Notices

    constructor ()
      ensures stopSlot == None && waitSlot == None && commandQueue == [] && notices == NO_NOTICE
    {
      stopSlot, waitSlot, commandQueue, notices := None, None, [], NO_NOTICE;
    }

    /** STOP and WAIT take their slots, replacing an older one; other commands queue up and are lost when the queue is full. */
    method Submit(m: Message)
      requires !m.DirectControl?
      modifies this
      ensures stopSlot == if m.Reliable? && m.command.Stop? then Some(m) else old(stopSlot)
      ensures waitSlot == if m.Reliable? && m.command.Wait? then Some(m) else old(waitSlot)
      ensures commandQueue == if !IsSafety(m) && old(|commandQueue|) < COMMAND_QUEUE_LENGTH then old(commandQueue) + [m]
                              else old(commandQueue)
      ensures notices == old(notices).(stop := old(notices).stop || (m.Reliable? && m.command.Stop?),
                                       wait := old(notices).wait || (m.Reliable? && m.command.Wait?))
    {
      if m.Reliable? && m.command.Stop? {
        stopSlot := Some(m);
        notices := notices.(stop := true);
        return;
      }
      if m.Reliable? && m.command.Wait? {
        waitSlot := Some(m);
        notices := notices.(wait := true);
        return;
      }
      if |commandQueue| < COMMAND_QUEUE_LENGTH {
        commandQueue := commandQueue + [m];
      }
    }

    method Notify(bits: Notices)
      modifies this`notices
      ensures notices == Notices(old(notices).stop || bits.stop, old(notices).commTimeout || bits.commTimeout,
                                 old(notices).tcpDown || bits.tcpDown, old(notices).tcpConnected || bits.tcpConnected,
                                 old(notices).wait || bits.wait)
    {
      notices := Notices(notices.stop || bits.stop, notices.commTimeout || bits.commTimeout,
                         notices.tcpDown || bits.tcpDown, notices.tcpConnected || bits.tcpConnected,
                         notices.wait || bits.wait);
    }
  }

  class VehicleController {
    var snapshot: Snapshot
    var preSyncState: State
    var lastCommand: Option<Outcome>
    var directSlot: Option<DirectSlot>
    var appliedControlSeq: nat
    var lastDirectApplyTick: nat
    var directActive: bool
    var stall: Stall
    const outputs: Outputs
    const hz: nat

    ghost var sent: seq<Status>
    ghost var effects: seq<Effect>
    ghost var applied: seq<Applied>
    ghost var since: nat
    ghost var issued: set<string>
    ghost var clock: nat

    ghost function Abs(): Context
      reads this, outputs
    {
      Context(snapshot, preSyncState, lastCommand, directSlot, appliedControlSeq, lastDirectApplyTick, directActive,
              stall, Pins(outputs.duty, outputs.direction, outputs.servo), hz, sent, effects, applied, since, issued, clock)
    }

    constructor (bootId: string, hz: nat)
      ensures Abs() == PowerOn(bootId, hz) && fresh(outputs)
    {
      snapshot := Snapshot(WifiConnecting, Boot, WaypointAuto, false, false, false, false, NO_PLAN, 0, 0, 0, STOPPED,
                           "", "", "", bootId);
      preSyncState, lastCommand, directSlot := Boot, None, None;
      appliedControlSeq, lastDirectApplyTick, directActive, stall := 0, 0, false, NO_STALL;
      outputs := new Outputs();
      this.hz := hz;
      sent, effects, applied, since, issued, clock := [], [], [], 0, {}, 0;
    }

    // --- shared steps ---

    method Halt()
      modifies outputs
      ensures Abs() == SafeStop(old(Abs()))
    {
      outputs.SafeStop();
    }

    method DropTarget()
      modifies this`snapshot
      ensures Abs() == ClearTarget(old(Abs()))
    {
      snapshot := snapshot.(plan := NO_PLAN);
    }

    method DropDirect()
      modifies this
      ensures Abs() == InvalidateDirect(old(Abs()))
    {
      DropStream();
      snapshot := snapshot.(output := STOPPED);
    }

    method DropStream()
      modifies this`directSlot, this`directActive, this`lastDirectApplyTick, this`stall, this`applied, this`since
      ensures Abs() == old(Abs()).(slot := None, directActive := false, lastTick := 0, stall := NO_STALL, applied := [],
                                   since := 0)
    {
      directSlot, directActive, lastDirectApplyTick, stall := None, false, 0, NO_STALL;
      applied, since := [], 0;
    }

    method SetState(next: State)
      modifies this`snapshot
      ensures Abs() == Enter(old(Abs()), next)
    {
      if snapshot.state == next {
        return;
      }
      snapshot := snapshot.(previousState := snapshot.state);
      snapshot := snapshot.(state := next);
    }

    method QueueStatus(result: CommandResult, rejected: nat)
      modifies this`snapshot, this`sent
      ensures Abs() == Queue(old(Abs()), result, rejected)
    {
      snapshot := snapshot.(statusSeq := snapshot.statusSeq + 1);
      sent := sent + [Status(snapshot.session, snapshot.statusSeq, snapshot.lastSeq, rejected, result, snapshot.state,
                             snapshot.mode)];
    }

    /** Back to the waypoint mode, with nothing loaded, nothing streaming and a new control-sequence baseline. */
    method ResetDrive()
      modifies this
      ensures Abs() == Disarm(old(Abs()))
    {
      snapshot := snapshot.(mode := WaypointAuto);
      DropTarget();
      DropDirect();
      appliedControlSeq := 0;
      snapshot := snapshot.(latestControlSeq := 0);
    }

    // --- reliable commands ---

    /** Whether the command is fresh; otherwise it has been answered. */
    method BeginReliable(session: string, number: CommandSeq, command: Command) returns (begun: bool)
      modifies this`snapshot, this`sent
      ensures begun <==> Admit(old(Abs()), session, number, command).Fresh?
      ensures Abs() == match Admit(old(Abs()), session, number, command)
                       case Fresh => old(Abs())
                       case Bounced(result, rejected) => Queue(old(Abs()), result, rejected)
    {
      if !(snapshot.sessionActive && snapshot.session == session) {
        QueueStatus(SessionMismatch, number);
        return false;
      }
      if number == snapshot.lastSeq {
        if lastCommand.Some? && lastCommand.value.command == command {
          QueueStatus(lastCommand.value.result, 0);
        } else {
          QueueStatus(SeqConflict, number);
        }
        return false;
      }
      if number < snapshot.lastSeq {
        QueueStatus(StaleSeq, number);
        return false;
      }
      return true;
    }

    method FinishReliable(session: string, number: CommandSeq, command: Command, result: CommandResult)
      modifies this`snapshot, this`sent, this`lastCommand, this`effects
      ensures Abs() == Finish(old(Abs()), session, number, Outcome(command, result))
    {
      snapshot := snapshot.(lastSeq := number);
      lastCommand := Some(Outcome(command, result));
      effects := effects + [Effect(session, number, command, result)];
      QueueStatus(result, 0);
    }

    method RouteAcceptable(t: Target) returns (failure: CommandResult)
      ensures failure == RouteVerdict(snapshot.plan, t)
    {
      if !snapshot.plan.loaded {
        return Accepted;
      }
      var current := snapshot.plan.target;
      if t.route < current.route {
        return StaleRoute;
      }
      var reason := snapshot.plan.waitReason;
      if (reason == Rerouting || reason == FinalWaypointReached) && t.route == current.route {
        return NewRouteRequired;
      }
      if reason == WaypointReached && (t.route != current.route || t.waypoint <= current.waypoint) {
        return TargetMismatch;
      }
      return Accepted;
    }

    method HandleWaypoint(session: string, number: CommandSeq, t: Target)
      modifies this, outputs
      ensures Abs() == HandleReliable(old(Abs()), session, number, Waypoint(t))
    {
      hide LoadTarget, Queue, Finish;
      var begun := BeginReliable(session, number, Waypoint(t));
      if !begun {
        return;
      }
      if snapshot.mode != WaypointAuto || (snapshot.state != Ready && snapshot.state != Waiting) {
        FinishReliable(session, number, Waypoint(t), InvalidState);
        return;
      }
      var failure := RouteAcceptable(t);
      if failure != Accepted {
        FinishReliable(session, number, Waypoint(t), failure);
        return;
      }
      Load(t);
      FinishReliable(session, number, Waypoint(t), Accepted);
    }

    method Load(t: Target)
      modifies this`snapshot, outputs
      ensures Abs() == LoadTarget(old(Abs()), t)
    {
      snapshot := snapshot.(plan := Plan(true, t, true, AwaitingStart));
      Halt();
      SetState(Waiting);
    }

    method HandleGo(session: string, number: CommandSeq, route: int, waypoint: int)
      modifies this, outputs
      ensures Abs() == HandleReliable(old(Abs()), session, number, Go(route, waypoint))
    {
      var begun := BeginReliable(session, number, Go(route, waypoint));
      if !begun {
        return;
      }
      var result := Accepted;
      if snapshot.state != Waiting {
        result := InvalidState;
      } else if !snapshot.plan.loaded {
        result := TargetNotLoaded;
      } else if !snapshot.plan.resumeAllowed {
        result := InvalidState;
      } else if route != snapshot.plan.target.route || waypoint != snapshot.plan.target.waypoint {
        result := TargetMismatch;
      } else if !(ALLOW_GO_WITHOUT_POSE || snapshot.poseValid) {
        result := PoseRequired;
      } else {
        snapshot := snapshot.(plan := snapshot.plan.(waitReason := NoReason));
        SetState(Moving);
      }
      FinishReliable(session, number, Go(route, waypoint), result);
    }

    method HandleWait(session: string, number: CommandSeq, command: Command)
      requires command.Wait?
      modifies this, outputs
      ensures Abs() == HandleReliable(old(Abs()), session, number, command)
    {
      hide HaltAndWait, Queue, Finish, Verdict;
      var begun := BeginReliable(session, number, command);
      if !begun {
        return;
      }
      var result := StopToWait(command);
      FinishReliable(session, number, command, result);
    }

    /** Stop first; route-completion semantics apply only if the wait is about the loaded waypoint. */
    method StopToWait(command: Command) returns (result: CommandResult)
      requires command.Wait?
      modifies this, outputs
      ensures Abs() == HaltAndWait(old(Abs()), command) && result == Verdict(old(Abs()), command)
    {
      hide InvalidateDirect, WaitsElsewhere, WaitPlan;
      StopKeepsPlan(Abs());
      Halt();
      DropDirect();
      if snapshot.state == Moving || snapshot.state == Waiting {
        result := RecordWait(command);
        SetState(Waiting);
      } else {
        result := if snapshot.state == Ready then AlreadyStopped else InvalidState;
      }
    }

    method RecordWait(command: Command) returns (result: CommandResult)
      requires command.Wait?
      modifies this`snapshot
      ensures snapshot == old(snapshot).(plan := WaitPlan(old(snapshot.plan), command))
      ensures result == if WaitsElsewhere(old(snapshot.plan), command) then TargetMismatch else Accepted
    {
      if WaitsElsewhere(snapshot.plan, command) {
        snapshot := snapshot.(plan := snapshot.plan.(waitReason := RemoteWait, resumeAllowed := false));
        return TargetMismatch;
      }
      snapshot := snapshot.(plan := snapshot.plan.(waitReason := command.reason));
      if NeedsNewWaypoint(command.reason) {
        snapshot := snapshot.(plan := snapshot.plan.(resumeAllowed := false));
      }
      return Accepted;
    }

    method HandleStop(session: string, number: CommandSeq, command: Command)
      requires command.Stop?
      modifies this, outputs
      ensures Abs() == HandleReliable(old(Abs()), session, number, command)
    {
      Halt();
      DropTarget();
      DropDirect();
      SetState(EmergencyStop);
      if !(snapshot.sessionActive && snapshot.session == session) {
        QueueStatus(SessionMismatch, number);
        return;
      }
      var begun := BeginReliable(session, number, command);
      if !begun {
        return;
      }
      FinishReliable(session, number, command, Accepted);
    }

    method HandleReset(session: string, number: CommandSeq)
      modifies this, outputs
      ensures Abs() == HandleReliable(old(Abs()), session, number, Reset)
    {
      hide ClearLock, Queue, Finish;
      var begun := BeginReliable(session, number, Reset);
      if !begun {
        return;
      }
      var holdReset := snapshot.state == Syncing && snapshot.syncHold
                       && (preSyncState == EmergencyStop || preSyncState == Error);
      if !holdReset && snapshot.state != EmergencyStop && snapshot.state != Error {
        FinishReliable(session, number, Reset, InvalidState);
        return;
      }
      Unlock(holdReset);
      FinishReliable(session, number, Reset, Accepted);
      if holdReset {
        EndHold();
      }
    }

    method Unlock(holdReset: bool)
      requires holdReset == HoldReset(Abs())
      modifies this, outputs
      ensures Abs() == ClearLock(old(Abs()))
    {
      hide Disarm;
      Halt();
      ResetDrive();
      snapshot := snapshot.(commTimeout := false, errorCode := "");
      if !holdReset {
        SetState(Ready);
      }
    }

    /** The handshake of a held vehicle starts over. */
    method EndHold()
      modifies this`snapshot, this`preSyncState
      ensures Abs() == CloseHold(old(Abs()))
    {
      snapshot := snapshot.(previousSession := snapshot.session);
      snapshot := snapshot.(session := "", sessionActive := false, syncHold := false, previousState := Ready);
      preSyncState := Ready;
    }

    method HandleSetMode(session: string, number: CommandSeq, mode: Mode)
      modifies this, outputs
      ensures Abs() == HandleReliable(old(Abs()), session, number, SetMode(mode))
    {
      hide ChangeMode, Queue, Finish;
      var begun := BeginReliable(session, number, SetMode(mode));
      if !begun {
        return;
      }
      if snapshot.state != Ready {
        FinishReliable(session, number, SetMode(mode), InvalidState);
        return;
      }
      SwitchMode(mode);
      FinishReliable(session, number, SetMode(mode), Accepted);
    }

    method SwitchMode(mode: Mode)
      modifies this
      ensures Abs() == ChangeMode(old(Abs()), mode)
    {
      hide InvalidateDirect;
      snapshot := snapshot.(mode := mode);
      DropDirect();
      if mode == RemoteDirect {
        appliedControlSeq := 0;
        snapshot := snapshot.(latestControlSeq := 0);
      }
    }

    // --- the link ---

    method HandleTcpConnected()
      modifies this, outputs
      ensures Abs() == Connected(old(Abs()))
    {
      Halt();
      snapshot := snapshot.(previousSession := snapshot.session);
      preSyncState := snapshot.state;
      snapshot := snapshot.(sessionActive := false, syncHold := false, session := "");
      ResetDrive();
      SetState(Syncing);
    }

    method HandleCommTimeout()
      modifies this, outputs
      ensures Abs() == LinkLost(old(Abs()))
    {
      hide InvalidateDirect, ClearTarget, Enter, Queue;
      CloseLink();
      if snapshot.state == Error || snapshot.state == EmergencyStop {
        // Keep the stronger lock.
      } else if snapshot.state == Syncing && (preSyncState == Error || preSyncState == EmergencyStop) {
        SetState(preSyncState);
      } else {
        SetState(CommTimeout);
      }
      QueueStatus(NoResult, 0);
    }

    method CloseLink()
      modifies this, outputs
      ensures Abs() == InvalidateDirect(ClearTarget(SafeStop(old(Abs())).(
                         snap := old(snapshot).(commTimeout := true, sessionActive := false))))
      ensures snapshot.state == old(snapshot.state) && preSyncState == old(preSyncState)
    {
      Halt();
      snapshot := snapshot.(commTimeout := true, sessionActive := false);
      DropTarget();
      DropDirect();
    }

    method HandleHelloAck(m: Message)
      requires m.HelloAck?
      modifies this, outputs
      ensures Abs() == HelloAnswer(old(Abs()), m)
    {
      hide StartSession, HoldSession, RejectSession, BootMismatch, Queue;
      if m.bootId != snapshot.bootId {
        LockOnMismatch();
        QueueStatus(ProtocolError, 0);
        return;
      }
      if snapshot.state != Syncing {
        QueueStatus(InvalidState, 0);
        return;
      }
      if m.verdict == ReadyAllowed {
        if preSyncState == Error || preSyncState == EmergencyStop {
          QueueStatus(LockedState, 0);
          return;
        }
        BeginSession(m.session, m.seqStart);
        QueueStatus(Accepted, 0);
        return;
      }
      if m.verdict == Hold {
        BeginHold(m.session, m.seqStart);
        QueueStatus(OnHold, 0);
        return;
      }
      LockOnRejection(m.why);
      QueueStatus(Refused, 0);
    }

    method LockOnMismatch()
      modifies this`snapshot
      ensures Abs() == BootMismatch(old(Abs()))
    {
      snapshot := snapshot.(errorCode := "BOOT_ID_MISMATCH");
      SetState(Error);
    }

    method LockOnRejection(why: string)
      modifies this`snapshot
      ensures Abs() == RejectSession(old(Abs()), why)
    {
      snapshot := snapshot.(errorCode := if why != "" then why else "HELLO_REJECTED");
      snapshot := snapshot.(sessionActive := false);
      SetState(Error);
    }

    method EnterSession(session: string, seqStart: nat)
      modifies this`snapshot, this`issued
      ensures Abs() == OpenSession(old(Abs()), session, seqStart)
    {
      snapshot := snapshot.(session := session, sessionActive := true);
      snapshot := snapshot.(lastSeq := if seqStart > 0 then seqStart - 1 else 0);
      issued := issued + {session};
    }

    method BeginHold(session: string, seqStart: nat)
      modifies this`snapshot, this`issued
      ensures Abs() == HoldSession(old(Abs()), session, seqStart)
    {
      EnterSession(session, seqStart);
      snapshot := snapshot.(syncHold := true);
    }

    method BeginSession(session: string, seqStart: nat)
      modifies this
      ensures Abs() == StartSession(old(Abs()), session, seqStart)
    {
      hide Disarm, OpenSession;
      EnterSession(session, seqStart);
      lastCommand := None;
      ResetDrive();
      snapshot := snapshot.(syncHold := false, commTimeout := false, errorCode := "");
      SetState(Ready);
    }

    // --- direct control ---

    /** Note one driven sample; the result tells whether it is boosted. */
    method TrackStall(sign: int, now: nat, encoder: int) returns (boost: bool)
      modifies this`stall
      ensures stall == NextStall(old(stall), sign, encoder, now, hz)
      ensures boost == Boosts(old(stall), sign, encoder, now, hz)
    {
      boost := false;
      if sign == 0 {
        stall := stall.(tracking := false, used := false, boostUntil := 0, sign := 0);
      } else if !stall.tracking || sign != stall.sign {
        stall := Stall(true, sign, encoder, now, 0, false);
      } else if encoder != stall.encoder {
        stall := stall.(encoder := encoder, motionTick := now, boostUntil := 0, used := false);
      } else if stall.boostUntil != 0 && now < stall.boostUntil {
        boost := true;
      } else if !stall.used && now - stall.motionTick >= Ticks(DIRECT_STALL_TIMEOUT_MS, hz) {
        stall := stall.(used := true, boostUntil := now + Ticks(DIRECT_STALL_BOOST_MS, hz));
        boost := true;
      }
    }

    method HandleDirect(d: DirectSlot, now: nat, encoder: int)
      modifies this, outputs
      ensures Abs() == ApplyDirect(old(Abs()), d, now, encoder)
    {
      hide Drive, Queue;
      if !(snapshot.sessionActive && snapshot.session == d.session) || snapshot.mode != RemoteDirect {
        return;
      }
      if snapshot.state == Error || snapshot.state == EmergencyStop || snapshot.state == CommTimeout
         || snapshot.state == Syncing || snapshot.state == Boot || snapshot.state == WifiConnecting {
        return;
      }
      if d.controlSeq <= appliedControlSeq {
        return;
      }
      var out := PutOut(d, now, encoder);
      var prev := snapshot.state;
      if out.pwm > 0 {
        SetState(Moving);
      } else if snapshot.state == Moving {
        SetState(Ready);
      }
      if snapshot.state != prev {
        QueueStatus(NoResult, 0);
      }
    }

    /** Drive the outputs and report what was applied; the vehicle's state is not yet touched. */
    method PutOut(d: DirectSlot, now: nat, encoder: int) returns (out: Output)
      requires Drives(Abs(), d)
      modifies this, outputs
      ensures out == AppliedOutput(old(Abs()), d, now, encoder)
      ensures Abs() == Driven(old(Abs()), d, now, encoder)
    {
      hide Drive, Noted, Boosts;
      var boost := NoteDirect(d, now, encoder);
      out := outputs.ApplyDirect(d.throttle, d.steering, if boost then STALL_BOOST_PWM else 0);
      snapshot := snapshot.(latestControlSeq := d.controlSeq, output := out);
      snapshot := snapshot.(plan := snapshot.plan.(waitReason := NoReason));
    }

    method NoteDirect(d: DirectSlot, now: nat, encoder: int) returns (boost: bool)
      modifies this`appliedControlSeq, this`since, this`stall, this`applied, this`lastDirectApplyTick, this`directActive
      ensures boost == Boosts(old(stall), Sign(d.throttle), encoder, now, hz)
      ensures Abs() == Noted(old(Abs()), d, now, encoder)
    {
      hide NextStall, Boosts, StillStalled;
      appliedControlSeq := d.controlSeq;
      var sign := Sign(d.throttle);
      since := if StillStalled(stall, sign, encoder) then since else |applied|;
      boost := TrackStall(sign, now, encoder);
      applied := applied + [Applied(now, encoder, sign, boost)];
      lastDirectApplyTick, directActive := now, true;
    }

    method TakeFromSlot(now: nat, encoder: int)
      modifies this, outputs
      ensures Abs() == TakeDirect(old(Abs()), now, encoder)
    {
      hide ApplyDirect;
      clock := now;
      var slot := directSlot;
      directSlot := None;
      if slot.Some? {
        HandleDirect(slot.value, now, encoder);
      }
    }

    method CheckDirectTimeout(now: nat)
      modifies this, outputs
      ensures Abs() == CheckTimeout(old(Abs()), now)
    {
      hide InvalidateDirect, Queue, Enter, Ticks;
      clock := now;
      if snapshot.mode != RemoteDirect || snapshot.state != Moving {
        return;
      }
      if !directActive || lastDirectApplyTick == 0 {
        return;
      }
      if now - lastDirectApplyTick < Ticks(DIRECT_CONTROL_TIMEOUT_MS, hz) {
        return;
      }
      Halt();
      DropDirect();
      snapshot := snapshot.(plan := snapshot.plan.(waitReason := DirectControlTimeout, resumeAllowed := false));
      SetState(Waiting);
      QueueStatus(NoResult, 0);
    }

    /** The newest direct value wins; it never queues. */
    method StoreDirect(d: DirectSlot)
      modifies this`directSlot
      ensures Abs() == Step(old(Abs()), Receive(DirectControl(d)))
    {
      hide HandleReliable, HelloAnswer;
      directSlot := Some(d);
    }

    // --- the loop ---

    method Process(m: Message)
      modifies this, outputs
      ensures Abs() == Step(old(Abs()), Receive(m))
    {
      hide HandleReliable, HelloAnswer;
      match m
      case HelloAck(_, _, _, _, _) => HandleHelloAck(m);
      case DirectControl(d) => StoreDirect(d);
      case Reliable(session, number, command) =>
        match command {
          case Waypoint(t) => HandleWaypoint(session, number, t);
          case Go(route, waypoint) => HandleGo(session, number, route, waypoint);
          case Wait(_, _, _) => HandleWait(session, number, command);
          case Stop(_) => HandleStop(session, number, command);
          case Reset => HandleReset(session, number);
          case SetMode(mode) => HandleSetMode(session, number, mode);
        }
    }

    method SlotPass(due: bool, slot: Option<Message>)
      modifies this, outputs
      ensures Abs() == Steps(old(Abs()), SlotEvent(due, slot))
    {
      hide Step;
      if due && slot.Some? {
        StepsMore(Abs(), [], Receive(slot.value));
        Process(slot.value);
      }
    }

    method LinkPass(bits: Notices)
      modifies this, outputs
      ensures Abs() == Steps(old(Abs()), LinkEvents(bits))
    {
      hide Step, Steps, LinkLost, Connected;
      LinkChain(Abs(), bits);
      if bits.commTimeout {
        HandleCommTimeout();
      }
      if bits.tcpDown {
        HandleCommTimeout();
      }
      if bits.tcpConnected {
        HandleTcpConnected();
      }
    }

    /** At most four queued commands per pass. */
    method CommandPass(batch: seq<Message>)
      modifies this, outputs
      ensures Abs() == Steps(old(Abs()), Received(batch))
    {
      hide Step;
      for i := 0 to |batch|
        invariant Abs() == Steps(old(Abs()), Received(batch[..i]))
      {
        StepsMore(old(Abs()), Received(batch[..i]), Receive(batch[i]));
        assert Received(batch[..i + 1]) == Received(batch[..i]) + [Receive(batch[i])];
        Process(batch[i]);
      }
      assert batch[..|batch|] == batch;
    }

    method TimerPass(r: Readings, statusDue: bool)
      modifies this, outputs
      ensures Abs() == Steps(old(Abs()), TimerEvents(r, statusDue))
    {
      hide Step, Steps, TakeDirect, CheckTimeout, Queue;
      TimerChain(Abs(), r, statusDue);
      TakeFromSlot(r.applyTick, r.encoder);
      CheckDirectTimeout(r.checkTick);
      if statusDue {
        if snapshot.sessionActive {
          QueueStatus(NoResult, 0);
        }
      }
    }

    /** One pass of the control loop; the periodic status goes by a reading of its own. */
    method ControlPass(inbox: Mailbox, r: Readings, statusTick: nat, lastPeriodic: nat) returns (periodic: nat)
      modifies this, outputs, inbox
      ensures inbox.notices == NO_NOTICE
      ensures inbox.commandQueue == old(inbox.commandQueue)[Batch(old(inbox.commandQueue))..]
      ensures periodic == if statusTick - lastPeriodic >= Ticks(STATUS_PERIOD_MS, hz) then statusTick else lastPeriodic
      ensures Abs() == Steps(old(Abs()), old(PassEvents(inbox.notices, inbox.stopSlot, inbox.waitSlot, inbox.commandQueue,
                                                        r, statusTick - lastPeriodic >= Ticks(STATUS_PERIOD_MS, hz))))
    {
      hide Steps, Ticks, SlotEvent, LinkEvents, TimerEvents, Received;
      var bits, stop, wait := inbox.notices, inbox.stopSlot, inbox.waitSlot;
      inbox.notices := NO_NOTICE;
      if bits.stop {
        inbox.stopSlot := None;
      }
      if bits.wait && !bits.stop {
        inbox.waitSlot := None;
      }
      var batch := inbox.commandQueue[..Batch(inbox.commandQueue)];
      inbox.commandQueue := inbox.commandQueue[Batch(inbox.commandQueue)..];
      var statusDue := statusTick - lastPeriodic >= Ticks(STATUS_PERIOD_MS, hz);
      PassChain(Abs(), bits, stop, wait, batch, r, statusDue);
      SlotPass(bits.stop, stop);
      LinkPass(bits);
      SlotPass(bits.wait && !bits.stop, wait);
      CommandPass(batch);
      TimerPass(r, statusDue);
      periodic := if statusDue then statusTick else lastPeriodic;
    }
  }

  lemma LinkChain(c: Context, bits: Notices)
    ensures var d := if bits.commTimeout then LinkLost(c) else c;
      var e := if bits.tcpDown then LinkLost(d) else d;
      Steps(c, LinkEvents(bits)) == if bits.tcpConnected then Connected(e) else e
  {
    hide Step, LinkLost, Connected;
    var first := if bits.commTimeout then [HeartbeatTimeout] else [];
    var second := first + (if bits.tcpDown then [TcpDown] else []);
    var d := if bits.commTimeout then LinkLost(c) else c;
    LinkSteps(c);
    StepsMore(c, [], HeartbeatTimeout);
    LinkSteps(d);
    StepsMore(c, first, TcpDown);
    LinkSteps(Steps(c, second));
    StepsMore(c, second, TcpConnected);
    assert second + [] == second && first + [] == first;
  }

  lemma TimerChain(c: Context, r: Readings, statusDue: bool)
    ensures var d := CheckTimeout(TakeDirect(c, r.applyTick, r.encoder), r.checkTick);
      Steps(c, TimerEvents(r, statusDue)) == if statusDue && d.snap.sessionActive then Queue(d, NoResult, 0) else d
  {
    hide Step, Queue, TakeDirect, CheckTimeout;
    var use, check := UseDirect(r.applyTick, r.encoder), TimeoutCheck(r.checkTick);
    var used := TakeDirect(c, r.applyTick, r.encoder);
    StepsMore(c, [], use);
    StepsMore(c, [use], check);
    StepsMore(c, [use] + [check], StatusDue);
    TimerSteps(c, r);
    TimerSteps(used, r);
    TimerSteps(CheckTimeout(used, r.checkTick), r);
    assert [use] + [check] + [] == [use] + [check];
    assert TimerEvents(r, statusDue) == [use] + [check] + (if statusDue then [StatusDue] else []);
  }

  lemma PassChain(c: Context, bits: Notices, stop: Option<Message>, wait: Option<Message>, batch: seq<Message>,
                  r: Readings, statusDue: bool)
    ensures var a := Steps(Steps(c, SlotEvent(bits.stop, stop)), LinkEvents(bits));
      var b := Steps(Steps(a, SlotEvent(bits.wait && !bits.stop, wait)), Received(batch));
      Steps(c, SlotEvent(bits.stop, stop) + LinkEvents(bits) + SlotEvent(bits.wait && !bits.stop, wait)
               + Received(batch) + TimerEvents(r, statusDue))
      == Steps(b, TimerEvents(r, statusDue))
  {
    hide Steps, SlotEvent, LinkEvents, Received, TimerEvents;
    var s, l, w := SlotEvent(bits.stop, stop), LinkEvents(bits), SlotEvent(bits.wait && !bits.stop, wait);
    StepsJoin(c, s, l);
    StepsJoin(c, s + l, w);
    StepsJoin(c, s + l + w, Received(batch));
    StepsJoin(c, s + l + w + Received(batch), TimerEvents(r, statusDue));
  }

  lemma StopKeepsPlan(c: Context)
    ensures InvalidateDirect(SafeStop(c)).snap == c.snap.(output := STOPPED)
  {
  }

  lemma LinkSteps(c: Context)
    ensures Step(c, HeartbeatTimeout) == LinkLost(c) == Step(c, TcpDown) && Step(c, TcpConnected) == Connected(c)
  {
  }

  lemma TimerSteps(c: Context, r: Readings)
    ensures Step(c, UseDirect(r.applyTick, r.encoder)) == TakeDirect(c, r.applyTick, r.encoder)
    ensures Step(c, TimeoutCheck(r.checkTick)) == CheckTimeout(c, r.checkTick)
    ensures Step(c, StatusDue) == if c.snap.sessionActive then Queue(c, NoResult, 0) else c
  {
  }

  lemma StepsMore(c: Context, events: seq<Event>, ev: Event)
    ensures Steps(c, events + [ev]) == Step(Steps(c, events), ev)
  {
    hide Step;
    assert (events + [ev])[..|events|] == events;
  }

  lemma {:induction false} StepsJoin(c: Context, a: seq<Event>, b: seq<Event>)
    ensures Steps(c, a + b) == Steps(Steps(c, a), b)
    decreases |b|
  {
    hide Step;
    if |b| == 0 {
      assert a + b == a;
    } else {
      StepsJoin(c, a, b[..|b| - 1]);
      assert (a + b)[..|a + b| - 1] == a + b[..|b| - 1];
    }
  }

  /**
   Whatever a pass of the control loop found in its mailbox and whatever ticks it read, at its end a turning motor is
   backed by a direct command that was younger than the timeout at the check.
   */
  lemma PassEndsFresh(c: Context, bits: Notices, stop: Option<Message>, wait: Option<Message>, queue: seq<Message>,
                      r: Readings, statusDue: bool)
    requires Safe(c) && PassPlausible(c, PassEvents(bits, stop, wait, queue, r, statusDue))
    ensures var d := Steps(c, PassEvents(bits, stop, wait, queue, r, statusDue));
      Safe(d) && (d.pins.duty != 0 ==> r.checkTick - d.lastTick < Ticks(DIRECT_CONTROL_TIMEOUT_MS, d.hz))
  {
    hide Steps, Safe, PassPlausible, SlotEvent, LinkEvents, Received;
    var before := SlotEvent(bits.stop, stop) + LinkEvents(bits) + SlotEvent(bits.wait && !bits.stop, wait)
                  + Received(queue[..Batch(queue)]);
    var all := PassEvents(bits, stop, wait, queue, r, statusDue);
    var used, check := before + [UseDirect(r.applyTick, r.encoder)], TimeoutCheck(r.checkTick);
    assert all == used + [check] + (if statusDue then [StatusDue] else []);
    assert used == all[..|before| + 1];
    StepsSafe(c, all, |used|);
    StepsSafe(c, all, |all|);
    assert all[..|all|] == all;
    StepsMore(c, used, check);
    StepsMore(c, used + [check], StatusDue);
    CheckLeavesFresh(Steps(c, used), r.checkTick);
    assert used + [check] + [] == used + [check];
  }

  ghost predicate PassPlausible(c: Context, events: seq<Event>) {
    forall i :: 0 <= i < |events| ==> Plausible(Steps(c, events[..i]), events[i]) && Echoed(c.snap.bootId, events[i])
  }

  lemma {:induction false} StepsSafe(c: Context, events: seq<Event>, n: nat)
    requires Safe(c) && n <= |events| && PassPlausible(c, events)
    ensures Safe(Steps(c, events[..n])) && Steps(c, events[..n]).snap.bootId == c.snap.bootId
    decreases n
  {
    hide Step, Safe, Plausible, Echoed;
    if n > 0 {
      StepsSafe(c, events, n - 1);
      assert events[..n][..n - 1] == events[..n - 1];
      StepKeepsIdentity(Steps(c, events[..n - 1]), events[n - 1]);
      StepSafe(Steps(c, events[..n - 1]), events[n - 1]);
    }
  }

  lemma CheckLeavesFresh(c: Context, now: nat)
    requires Safe(c)
    ensures var d := Step(c, TimeoutCheck(now));
      && (d.pins.duty != 0 ==> now - d.lastTick < Ticks(DIRECT_CONTROL_TIMEOUT_MS, d.hz))
      && Step(d, StatusDue).pins == d.pins && Step(d, StatusDue).lastTick == d.lastTick && Step(d, StatusDue).hz == d.hz
  {
    hide HandleReliable, HelloAnswer, Connected, LinkLost, TakeDirect;
  }
}
