/** What every run of the vehicle's control task keeps. */
module VehicleSafety {
  import opened Options
  import opened VehicleTypes
  import opened Actuator
  import opened VehicleSpec

  // --- the motor runs only while driving directly ---

  ghost predicate MotorSafe(c: Context) {
    && (c.pins.duty != 0 <==> c.snap.state == Moving)
    && (c.snap.state == Moving ==>
          c.snap.mode == RemoteDirect && c.snap.sessionActive && c.directActive && c.lastTick >= 1)
    && c.snap.output.pwm == c.pins.duty
  }

  ghost predicate PlanSafe(s: Snapshot) {
    && (s.plan.loaded ==> s.mode == WaypointAuto && (s.state == Waiting || s.state == Error))
    && !s.poseValid
  }

  ghost predicate Safe(c: Context) {
    MotorSafe(c) && PlanSafe(c.snap)
  }

  lemma HandleSafe(c: Context, session: string, number: CommandSeq, command: Command)
    requires Safe(c)
    ensures Safe(HandleReliable(c, session, number, command))
  {
    hide EmergencyHalt, Process, Admit, Safe;
    var d := if command.Stop? then EmergencyHalt(c) else c;
    if command.Stop? {
      HaltSafe(c);
    }
    match Admit(d, session, number, command)
    case Bounced(result, rejected) => QueueSafe(d, result, rejected);
    case Fresh => ProcessSafe(d, session, number, command);
  }

  lemma HaltSafe(c: Context)
    requires Safe(c)
    ensures Safe(EmergencyHalt(c))
  {
  }

  lemma QueueSafe(c: Context, result: CommandResult, rejected: nat)
    requires Safe(c)
    ensures Safe(Queue(c, result, rejected))
  {
  }

  lemma ProcessSafe(c: Context, session: string, number: CommandSeq, command: Command)
    requires Safe(c)
    ensures Safe(Process(c, session, number, command))
  {
    hide Perform, Verdict, HoldReset;
    PerformSafe(c, command);
  }

  lemma PerformSafe(c: Context, command: Command)
    requires Safe(c)
    ensures Safe(Perform(c, command))
    ensures command.Reset? && HoldReset(c) ==> Perform(c, command).snap.state == Syncing
    ensures command.Go? ==> Verdict(c, command) != Accepted
  {
    hide LoadTarget, StartMoving, HaltAndWait, ClearLock, ChangeMode, RouteVerdict, WaitsElsewhere, MotorSafe;
    match command
    case Waypoint(t) =>
      if Verdict(c, command) == Accepted {
        LoadSafe(c, t);
      }
    case Wait(_, _, _) => WaitSafe(c, command);
    case Reset => ClearSafe(c);
    case SetMode(mode) =>
      if Verdict(c, command) == Accepted {
        ModeSafe(c, mode);
      }
    case _ =>
  }

  lemma LoadSafe(c: Context, t: Target)
    requires Safe(c) && c.snap.mode == WaypointAuto && (c.snap.state == Ready || c.snap.state == Waiting)
    ensures Safe(LoadTarget(c, t))
  {
  }

  lemma WaitSafe(c: Context, command: Command)
    requires Safe(c) && command.Wait?
    ensures Safe(HaltAndWait(c, command))
  {
  }

  lemma ClearSafe(c: Context)
    requires Safe(c)
    ensures Safe(ClearLock(c)) && (HoldReset(c) ==> ClearLock(c).snap.state == Syncing)
  {
  }

  lemma ModeSafe(c: Context, mode: Mode)
    requires Safe(c) && c.snap.state == Ready
    ensures Safe(ChangeMode(c, mode))
  {
  }

  lemma SessionSafe(c: Context, session: string, seqStart: nat, why: string)
    requires Safe(c) && c.snap.state == Syncing
    ensures Safe(StartSession(c, session, seqStart))
    ensures Safe(HoldSession(c, session, seqStart))
    ensures Safe(RejectSession(c, why))
  {
  }

  lemma HelloSafe(c: Context, m: Message)
    requires Safe(c) && m.HelloAck? && m.bootId == c.snap.bootId
    ensures Safe(HelloAnswer(c, m))
  {
    hide StartSession, HoldSession, RejectSession;
    if c.snap.state == Syncing {
      SessionSafe(c, m.session, m.seqStart, m.why);
    }
  }

  lemma LinkSafe(c: Context)
    requires Safe(c)
    ensures Safe(Connected(c)) && Safe(LinkLost(c))
  {
    hide Connected, LinkLost;
    ConnectionSafe(c);
    LossSafe(c);
  }

  lemma ConnectionSafe(c: Context)
    requires Safe(c)
    ensures Safe(Connected(c))
  {
  }

  lemma LossSafe(c: Context)
    requires Safe(c)
    ensures Safe(LinkLost(c))
  {
  }

  lemma DirectSafe(c: Context, d: DirectSlot, now: nat, encoder: int)
    requires Safe(c) && now >= 1
    ensures Safe(ApplyDirect(c, d, now, encoder))
  {
    hide Drive;
  }

  // --- what the handlers leave alone ---

  ghost predicate SameIdentity(c: Context, d: Context) {
    && d.snap.bootId == c.snap.bootId && d.hz == c.hz && d.effects == c.effects
    && d.snap.poseValid == c.snap.poseValid
  }

  /** Nothing that identifies the session or records its commands changes. */
  ghost predicate SameRecord(c: Context, d: Context) {
    && SameIdentity(c, d)
    && d.issued == c.issued && d.last == c.last
    && d.snap.session == c.snap.session && d.snap.sessionActive == c.snap.sessionActive
    && d.snap.lastSeq == c.snap.lastSeq
  }

  lemma StopStepsKeepRecord(c: Context)
    ensures SameRecord(c, SafeStop(c)) && SameRecord(c, ClearTarget(c)) && SameRecord(c, InvalidateDirect(c))
  {
  }

  lemma EnterKeepsRecord(c: Context, s: State)
    ensures SameRecord(c, Enter(c, s))
  {
    if c.snap.state == s {
      assert Enter(c, s) == c;
    }
  }

  lemma RestartKeepsRecord(c: Context)
    ensures SameRecord(c, RestartControlSeq(c))
  {
  }

  lemma DisarmKeepsRecord(c: Context)
    ensures SameRecord(c, Disarm(c))
  {
    var d := c.(snap := c.snap.(mode := WaypointAuto));
    assert SameRecord(c, d);
    hide SafeStop, ClearTarget, InvalidateDirect, RestartControlSeq;
    StopStepsKeepRecord(d);
    StopStepsKeepRecord(ClearTarget(d));
    RestartKeepsRecord(InvalidateDirect(ClearTarget(d)));
  }

  lemma HaltKeepsRecord(c: Context)
    ensures SameRecord(c, EmergencyHalt(c))
  {
    hide SafeStop, ClearTarget, InvalidateDirect, Enter;
    StopStepsKeepRecord(c);
    StopStepsKeepRecord(SafeStop(c));
    StopStepsKeepRecord(ClearTarget(SafeStop(c)));
    EnterKeepsRecord(InvalidateDirect(ClearTarget(SafeStop(c))), EmergencyStop);
  }

  lemma LoadKeepsRecord(c: Context, t: Target)
    ensures SameRecord(c, LoadTarget(c, t))
  {
    hide Enter;
    EnterKeepsRecord(SafeStop(c.(snap := c.snap.(plan := Plan(true, t, true, AwaitingStart)))), Waiting);
  }

  lemma StartKeepsRecord(c: Context)
    ensures SameRecord(c, StartMoving(c))
  {
    hide Enter;
    EnterKeepsRecord(c.(snap := c.snap.(plan := c.snap.plan.(waitReason := NoReason))), Moving);
  }

  lemma ModeKeepsRecord(c: Context, mode: Mode)
    ensures SameRecord(c, ChangeMode(c, mode))
  {
    var d := c.(snap := c.snap.(mode := mode));
    assert SameRecord(c, d);
    hide InvalidateDirect, RestartControlSeq;
    StopStepsKeepRecord(d);
    RestartKeepsRecord(InvalidateDirect(d));
  }

  lemma WaitKeepsRecord(c: Context, command: Command)
    requires command.Wait?
    ensures SameRecord(c, HaltAndWait(c, command))
  {
    hide WaitPlan;
  }

  lemma ClearLockKeepsRecord(c: Context)
    ensures SameRecord(c, ClearLock(c))
  {
    hide Disarm;
    DisarmKeepsRecord(SafeStop(c));
  }

  lemma PerformKeepsRecord(c: Context, command: Command)
    ensures SameRecord(c, Perform(c, command))
  {
    hide Verdict, LoadTarget, StartMoving, HaltAndWait, ClearLock, ChangeMode;
    match command
    case Waypoint(t) => LoadKeepsRecord(c, t);
    case Go(_, _) => StartKeepsRecord(c);
    case Wait(_, _, _) => WaitKeepsRecord(c, command);
    case Stop(_) =>
    case Reset => ClearLockKeepsRecord(c);
    case SetMode(mode) => ModeKeepsRecord(c, mode);
  }

  lemma DirectKeepsRecord(c: Context, d: DirectSlot, now: nat, encoder: int)
    ensures SameRecord(c, ApplyDirect(c, d, now, encoder))
  {
    hide Driven, Drives;
    DrivenKeepsRecord(c, d, now, encoder);
  }

  lemma DrivenKeepsRecord(c: Context, d: DirectSlot, now: nat, encoder: int)
    ensures SameRecord(c, Driven(c, d, now, encoder))
  {
    hide AppliedOutput, NextStall, Boosts;
  }

  lemma TimeoutKeepsRecord(c: Context, now: nat)
    ensures SameRecord(c, CheckTimeout(c, now))
  {
    var stopped := SafeStop(c.(clock := now));
    assert SameRecord(c, stopped);
    hide InvalidateDirect, DirectExpired, SafeStop, Enter;
    StopStepsKeepRecord(stopped);
    var d := InvalidateDirect(stopped);
    var plan := d.snap.plan.(waitReason := DirectControlTimeout, resumeAllowed := false);
    EnterKeepsRecord(d.(snap := d.snap.(plan := plan)), Waiting);
  }

  lemma LinkEndsSession(c: Context)
    ensures SameIdentity(c, Connected(c)) && SameIdentity(c, LinkLost(c))
    ensures Connected(c).issued == c.issued == LinkLost(c).issued
    ensures !Connected(c).snap.sessionActive && !LinkLost(c).snap.sessionActive
  {
    hide Connected, LinkLost;
    ConnectionEndsSession(c);
    LossEndsSession(c);
  }

  lemma ConnectionEndsSession(c: Context)
    ensures SameIdentity(c, Connected(c)) && Connected(c).issued == c.issued && !Connected(c).snap.sessionActive
  {
    hide Disarm;
    var d := SafeStop(c);
    var snap := d.snap.(previousSession := d.snap.session, sessionActive := false, syncHold := false, session := "");
    DisarmKeepsRecord(d.(preSync := d.snap.state, snap := snap));
  }

  lemma LossEndsSession(c: Context)
    ensures SameIdentity(c, LinkLost(c)) && LinkLost(c).issued == c.issued && !LinkLost(c).snap.sessionActive
  {
    hide InvalidateDirect, ClearTarget;
    var d := SafeStop(c).(snap := c.snap.(commTimeout := true, sessionActive := false));
    StopStepsKeepRecord(d);
    StopStepsKeepRecord(ClearTarget(d));
  }

  lemma SessionKeepsIdentity(c: Context, session: string, seqStart: nat, why: string)
    ensures SameIdentity(c, StartSession(c, session, seqStart))
    ensures SameIdentity(c, HoldSession(c, session, seqStart))
    ensures SameIdentity(c, RejectSession(c, why)) && SameIdentity(c, BootMismatch(c))
  {
  }

  lemma HelloKeepsIdentity(c: Context, m: Message)
    requires m.HelloAck?
    ensures SameIdentity(c, HelloAnswer(c, m))
  {
    hide StartSession, HoldSession, RejectSession, BootMismatch, HelloReply;
    SessionKeepsIdentity(c, m.session, m.seqStart, m.why);
  }

  lemma ProcessRecords(c: Context, session: string, number: CommandSeq, command: Command)
    ensures var e := Process(c, session, number, command);
      && e.snap.bootId == c.snap.bootId && e.hz == c.hz && e.issued == c.issued && e.snap.poseValid == c.snap.poseValid
      && e.effects == c.effects + [Effect(session, number, command, Verdict(c, command))]
      && e.snap.lastSeq == number && e.last == Some(Outcome(command, Verdict(c, command)))
      && (e.snap.sessionActive ==> c.snap.sessionActive && e.snap.session == c.snap.session)
  {
    hide Perform, Verdict, HoldReset;
    PerformKeepsRecord(c, command);
  }

  /** A refused command changes nothing, except that a STOP has stopped the vehicle; it is answered by one status. */
  lemma BouncedRecordsNothing(c: Context, session: string, number: CommandSeq, command: Command)
    requires Admit(c, session, number, command).Bounced?
    ensures var a := Admit(c, session, number, command);
      HandleReliable(c, session, number, command) == Queue(if command.Stop? then EmergencyHalt(c) else c, a.result, a.rejected)
    ensures SameRecord(c, HandleReliable(c, session, number, command))
  {
    hide EmergencyHalt, Process;
    HaltKeepsRecord(c);
  }

  /** A fresh command is recorded under its number with its verdict. */
  lemma FreshIsRecorded(c: Context, session: string, number: CommandSeq, command: Command)
    requires Admit(c, session, number, command).Fresh?
    ensures var d := if command.Stop? then EmergencyHalt(c) else c;
      var e := HandleReliable(c, session, number, command);
      && e.snap.bootId == c.snap.bootId && e.hz == c.hz && e.issued == c.issued && e.snap.poseValid == c.snap.poseValid
      && e.effects == c.effects + [Effect(session, number, command, Verdict(d, command))]
      && e.snap.lastSeq == number && e.last == Some(Outcome(command, Verdict(d, command)))
      && (e.snap.sessionActive ==> e.snap.session == session)
  {
    hide EmergencyHalt, Process, Verdict;
    HaltKeepsRecord(c);
    ProcessRecords(if command.Stop? then EmergencyHalt(c) else c, session, number, command);
  }

  /** No event changes the vehicle's boot id or tick rate, and none makes its pose valid. */
  lemma StepKeepsIdentity(c: Context, ev: Event)
    ensures Step(c, ev).snap.bootId == c.snap.bootId && Step(c, ev).hz == c.hz
    ensures Step(c, ev).snap.poseValid == c.snap.poseValid
  {
    hide HelloAnswer, HandleReliable, Connected, LinkLost, ApplyDirect, CheckTimeout;
    LinkEndsSession(c);
    match ev
    case Receive(m) =>
      match m {
        case HelloAck(_, _, _, _, _) => HelloKeepsIdentity(c, m);
        case Reliable(session, number, command) =>
          if Admit(c, session, number, command).Fresh? {
            FreshIsRecorded(c, session, number, command);
          } else {
            BouncedRecordsNothing(c, session, number, command);
          }
        case DirectControl(_) =>
      }
    case UseDirect(now, encoder) =>
      if c.slot.Some? {
        DirectKeepsRecord(c.(slot := None, clock := now), c.slot.value, now, encoder);
      }
    case TimeoutCheck(now) => TimeoutKeepsRecord(c, now);
    case _ =>
  }

  lemma StepSafe(c: Context, ev: Event)
    requires Safe(c) && Plausible(c, ev) && Echoed(c.snap.bootId, ev)
    ensures Safe(Step(c, ev))
  {
    hide HelloAnswer, HandleReliable, Connected, LinkLost, ApplyDirect;
    match ev
    case Receive(m) =>
      match m {
        case HelloAck(_, _, _, _, _) => HelloSafe(c, m);
        case Reliable(session, number, command) => HandleSafe(c, session, number, command);
        case DirectControl(_) =>
      }
    case UseDirect(now, encoder) =>
      if c.slot.Some? {
        DirectSafe(c.(slot := None, clock := now), c.slot.value, now, encoder);
      }
    case TcpConnected => LinkSafe(c);
    case TcpDown => LinkSafe(c);
    case HeartbeatTimeout => LinkSafe(c);
    case _ =>
  }

  // --- runs ---

  lemma RunSnoc(bootId: string, hz: nat, events: seq<Event>, ev: Event)
    ensures Run(bootId, hz, events + [ev]) == Step(Run(bootId, hz, events), ev)
  {
    assert (events + [ev])[..|events|] == events;
  }

  lemma RunFront(bootId: string, hz: nat, events: seq<Event>)
    requires |events| > 0
    ensures Run(bootId, hz, events) == Step(Run(bootId, hz, events[..|events| - 1]), events[|events| - 1])
    ensures forall i :: 0 <= i < |events| ==> events[..|events| - 1][..i] == events[..i]
    ensures PlausibleRun(bootId, hz, events) ==> PlausibleRun(bootId, hz, events[..|events| - 1])
    ensures PlausibleRun(bootId, hz, events) ==>
      Plausible(Run(bootId, hz, events[..|events| - 1]), events[|events| - 1])
  {
    hide Step, Plausible, PowerOn;
  }

  lemma PlausibleSnoc(bootId: string, hz: nat, events: seq<Event>, ev: Event)
    requires PlausibleRun(bootId, hz, events) && Plausible(Run(bootId, hz, events), ev)
    ensures PlausibleRun(bootId, hz, events + [ev])
  {
    hide Step, Steps, Plausible, PowerOn;
    var all := events + [ev];
    forall i | 0 <= i < |all|
      ensures Plausible(Run(bootId, hz, all[..i]), all[i])
    {
      assert all[..i] == events[..i];
      assert events[..|events|] == events;
    }
  }

  lemma {:induction false} RunSafe(bootId: string, hz: nat, events: seq<Event>)
    requires PlausibleRun(bootId, hz, events) && forall ev :: ev in events ==> Echoed(bootId, ev)
    ensures Safe(Run(bootId, hz, events))
    ensures Run(bootId, hz, events).snap.bootId == bootId && Run(bootId, hz, events).hz == hz
    decreases |events|
  {
    hide Step, Plausible, Echoed;
    if |events| > 0 {
      RunFront(bootId, hz, events);
      RunSafe(bootId, hz, events[..|events| - 1]);
      StepKeepsIdentity(Run(bootId, hz, events[..|events| - 1]), events[|events| - 1]);
      StepSafe(Run(bootId, hz, events[..|events| - 1]), events[|events| - 1]);
    }
  }

  /**
   In every run the motor turns exactly while the vehicle is MOVING, which it only ever is in the direct mode,
   with an active session and a live stream; the reported duty is the real one, and a loaded target implies
   the waypoint mode.
   */
  lemma MotorRunsOnlyWhileDriving(bootId: string, hz: nat, events: seq<Event>)
    requires PlausibleRun(bootId, hz, events) && forall ev :: ev in events ==> Echoed(bootId, ev)
    ensures var c := Run(bootId, hz, events);
      && (c.pins.duty != 0 <==> c.snap.state == Moving)
      && (c.pins.duty != 0 ==> c.snap.mode == RemoteDirect && c.snap.sessionActive && c.directActive)
      && c.snap.output.pwm == c.pins.duty
      && (c.snap.plan.loaded ==> c.snap.mode == WaypointAuto)
  {
    RunSafe(bootId, hz, events);
  }

  /** Right after the timeout check a turning motor is backed by a command younger than the timeout. */
  lemma MotorNeedsFreshCommand(bootId: string, hz: nat, events: seq<Event>, now: nat)
    requires PlausibleRun(bootId, hz, events + [TimeoutCheck(now)])
    requires forall ev :: ev in events ==> Echoed(bootId, ev)
    ensures var c := Run(bootId, hz, events + [TimeoutCheck(now)]);
      c.pins.duty != 0 ==> now - c.lastTick < Ticks(DIRECT_CONTROL_TIMEOUT_MS, hz)
  {
    hide Run, PlausibleRun, HandleReliable, HelloAnswer;
    var all := events + [TimeoutCheck(now)];
    RunFront(bootId, hz, all);
    assert all[..|events|] == events;
    RunSafe(bootId, hz, events);
  }

  lemma {:induction false} PoseStaysInvalid(bootId: string, hz: nat, events: seq<Event>)
    ensures !Run(bootId, hz, events).snap.poseValid
    decreases |events|
  {
    hide Step, PlausibleRun;
    if |events| > 0 {
      RunFront(bootId, hz, events);
      PoseStaysInvalid(bootId, hz, events[..|events| - 1]);
      StepKeepsIdentity(Run(bootId, hz, events[..|events| - 1]), events[|events| - 1]);
    }
  }

  /** No GO is ever accepted, in any run whatever: the pose it asks for is never reported valid. */
  lemma GoIsNeverAccepted(bootId: string, hz: nat, events: seq<Event>, route: int, waypoint: int)
    ensures Verdict(Run(bootId, hz, events), Go(route, waypoint)) != Accepted
  {
    hide Run;
    PoseStaysInvalid(bootId, hz, events);
  }

  /** A handshake answer keeps the vehicle safe exactly when it echoes the boot id or the motor stands still. */
  lemma HelloSafeExactly(c: Context, m: Message)
    requires Safe(c) && m.HelloAck?
    ensures Safe(HelloAnswer(c, m)) <==> m.bootId == c.snap.bootId || c.pins.duty == 0
  {
    hide StartSession, HoldSession, RejectSession;
    if m.bootId == c.snap.bootId {
      HelloSafe(c, m);
    }
  }
}
