/**
 What each message and event does to the vehicle, said of its state, mode, plan, outputs and statuses alone: when it is
 accepted, what changes then, and that nothing else does.
 */
module VehicleEffects {
  import opened Options
  import opened VehicleTypes
  import opened Actuator
  import opened VehicleSpec
  import opened VehicleSafety
  import opened Reals

  // --- the common parts ---

  /** Number and session of a command that is neither answered already nor meant for another session. */
  predicate NewlyNumbered(c: Context, session: string, number: CommandSeq) {
    c.snap.sessionActive && c.snap.session == session && number > c.snap.lastSeq
  }

  predicate LockState(s: State) { s == EmergencyStop || s == Error }

  /** One status is queued: the next number, the given result and the state and mode it ends in. */
  ghost predicate Reports(c: Context, e: Context, session: string, lastSeq: nat, rejected: nat, result: CommandResult) {
    && e.snap.statusSeq == c.snap.statusSeq + 1
    && e.sent == c.sent + [Status(session, c.snap.statusSeq + 1, lastSeq, rejected, result, e.snap.state, e.snap.mode)]
  }

  /** The command is recorded as processed with this result and answered by one status. */
  ghost predicate Answered(c: Context, e: Context, number: CommandSeq, command: Command, result: CommandResult) {
    && e.effects == c.effects + [Effect(c.snap.session, number, command, result)]
    && e.snap.lastSeq == number && e.last == Some(Outcome(command, result))
    && Reports(c, e, c.snap.session, number, 0, result)
  }

  /** Motor off, servo centred, nothing streaming, and no value waiting or timed. */
  ghost predicate AtRest(e: Context) {
    e.pins == IDLE && e.slot == None && !e.directActive && e.lastTick == 0 && e.snap.output.pwm == 0
  }

  /** Control numbers start over: any number from 1 on is newer. */
  ghost predicate Uncounted(e: Context) { e.appliedSeq == 0 && e.snap.latestControlSeq == 0 }

  /** The state before the last change of state is remembered. */
  ghost predicate Remembers(c: Context, e: Context) {
    e.snap.previousState == if e.snap.state != c.snap.state then c.snap.state else c.snap.previousState
  }

  /** What a command that is refused leaves as it was. */
  ghost predicate Undisturbed(c: Context, e: Context) {
    && e.pins == c.pins && e.slot == c.slot && e.directActive == c.directActive && e.appliedSeq == c.appliedSeq
    && e.applied == c.applied && e.preSync == c.preSync
    && e.snap == c.snap.(statusSeq := e.snap.statusSeq, lastSeq := e.snap.lastSeq)
  }

  // --- commands ---

  /** What is recorded of a fresh command that was carried out with this result; everything else is as d left it. */
  ghost predicate Recorded(c: Context, d: Context, e: Context, number: CommandSeq, command: Command, result: CommandResult) {
    && Answered(c, e, number, command, result)
    && e == d.(snap := d.snap.(lastSeq := number, statusSeq := c.snap.statusSeq + 1),
               last := e.last, effects := e.effects, sent := e.sent)
  }

  lemma PerformQueuesNothing(c: Context, command: Command)
    ensures Perform(c, command).sent == c.sent && Perform(c, command).snap.statusSeq == c.snap.statusSeq
  {
    hide Verdict, WaitPlan, HoldReset;
  }

  lemma FreshIsCarriedOut(c: Context, session: string, number: CommandSeq, command: Command)
    requires NewlyNumbered(c, session, number) && !command.Stop? && !command.Reset?
    ensures Recorded(c, Perform(c, command), HandleReliable(c, session, number, command), number, command, Verdict(c, command))
  {
    hide Perform, Verdict, HoldReset;
    assert Admit(c, session, number, command) == Fresh;
    PerformQueuesNothing(c, command);
    PerformKeepsRecord(c, command);
  }

  /**
   A fresh RESET is accepted exactly in a lock, or over a lock while the host holds the handshake. In a lock it leads to
   READY and the waypoint mode, at rest; a held handshake starts over, as from a ready vehicle.
   */
  lemma ResetExactly(c: Context, session: string, number: CommandSeq)
    requires NewlyNumbered(c, session, number)
    ensures var e := HandleReliable(c, session, number, Reset);
      var held := c.snap.state == Syncing && c.snap.syncHold && LockState(c.preSync);
      if LockState(c.snap.state) then
        && Answered(c, e, number, Reset, Accepted) && AtRest(e) && Remembers(c, e)
        && e.snap.state == Ready && e.snap.mode == WaypointAuto && !e.snap.plan.loaded && Uncounted(e)
        && !e.snap.commTimeout && e.snap.errorCode == "" && e.snap.sessionActive && e.snap.session == session
      else if held then
        && e.effects == c.effects + [Effect(session, number, Reset, Accepted)]
        && Reports(c, e, session, number, 0, Accepted) && AtRest(e)
        && e.snap.state == Syncing && e.preSync == Ready && e.snap.previousState == Ready && e.snap.mode == WaypointAuto
        && !e.snap.sessionActive && e.snap.session == "" && e.snap.previousSession == session && !e.snap.syncHold
      else
        Answered(c, e, number, Reset, InvalidState) && Undisturbed(c, e)
  {
    hide HandleReliable, Answered, Reports, AtRest, Undisturbed;
    ResetIsProcessed(c, session, number);
    if LockState(c.snap.state) {
      LockIsCleared(c, session, number);
    } else if HoldReset(c) {
      HoldIsClosed(c, session, number);
    } else {
      ResetIsRefused(c, session, number);
    }
  }

  lemma ResetIsProcessed(c: Context, session: string, number: CommandSeq)
    requires NewlyNumbered(c, session, number)
    ensures HandleReliable(c, session, number, Reset) == Process(c, session, number, Reset)
  {
    hide Process;
  }

  lemma ClearingRests(c: Context)
    ensures var d := ClearLock(c);
      && AtRest(d) && Uncounted(d)
      && d.snap.mode == WaypointAuto && !d.snap.plan.loaded && !d.snap.commTimeout && d.snap.errorCode == ""
      && d.snap.statusSeq == c.snap.statusSeq && d.sent == c.sent && d.preSync == c.preSync
      && d.snap.syncHold == c.snap.syncHold && Remembers(c, d)
      && d.snap.state == if HoldReset(c) then c.snap.state else Ready
  {
  }

  lemma LockIsCleared(c: Context, session: string, number: CommandSeq)
    requires NewlyNumbered(c, session, number) && LockState(c.snap.state)
    ensures var e := Process(c, session, number, Reset);
      && Answered(c, e, number, Reset, Accepted) && AtRest(e) && Remembers(c, e)
      && e.snap.state == Ready && e.snap.mode == WaypointAuto && !e.snap.plan.loaded && Uncounted(e)
      && !e.snap.commTimeout && e.snap.errorCode == "" && e.snap.sessionActive && e.snap.session == session
  {
    hide ClearLock;
    ClearingRests(c);
    ClearLockKeepsRecord(c);
  }

  lemma HoldIsClosed(c: Context, session: string, number: CommandSeq)
    requires NewlyNumbered(c, session, number) && HoldReset(c)
    ensures var e := Process(c, session, number, Reset);
      && e.effects == c.effects + [Effect(session, number, Reset, Accepted)]
      && Reports(c, e, session, number, 0, Accepted) && AtRest(e)
      && e.snap.state == Syncing && e.preSync == Ready && e.snap.previousState == Ready && e.snap.mode == WaypointAuto
      && !e.snap.sessionActive && e.snap.session == "" && e.snap.previousSession == session && !e.snap.syncHold
  {
    hide ClearLock;
    ClearingRests(c);
    ClearLockKeepsRecord(c);
  }

  lemma ResetIsRefused(c: Context, session: string, number: CommandSeq)
    requires NewlyNumbered(c, session, number) && !LockState(c.snap.state) && !HoldReset(c)
    ensures var e := Process(c, session, number, Reset); Answered(c, e, number, Reset, InvalidState) && Undisturbed(c, e)
  {
    hide ClearLock;
  }

  /** A fresh SET_MODE is accepted exactly in READY; it changes the mode and forgets the stream, and moves nothing. */
  lemma SetModeExactly(c: Context, session: string, number: CommandSeq, mode: Mode)
    requires NewlyNumbered(c, session, number)
    ensures var e := HandleReliable(c, session, number, SetMode(mode));
      if c.snap.state == Ready then
        && Answered(c, e, number, SetMode(mode), Accepted)
        && e.snap.state == Ready && e.snap.mode == mode && e.pins == c.pins && e.snap.plan == c.snap.plan
        && e.slot == None && !e.directActive
        && (if mode == RemoteDirect then Uncounted(e) else e.appliedSeq == c.appliedSeq)
        && e.snap.sessionActive && e.snap.session == session
      else
        Answered(c, e, number, SetMode(mode), InvalidState) && Undisturbed(c, e)
  {
    hide HandleReliable;
    FreshIsCarriedOut(c, session, number, SetMode(mode));
  }

  /** A STOP stops and locks the vehicle whether or not it is fresh; a fresh one is recorded as accepted. */
  lemma StopExactly(c: Context, session: string, number: CommandSeq, why: string)
    ensures var e := HandleReliable(c, session, number, Stop(why));
      && AtRest(e) && Remembers(c, e) && e.snap.state == EmergencyStop && !e.snap.plan.loaded && e.snap.mode == c.snap.mode
      && e.snap.sessionActive == c.snap.sessionActive && e.snap.session == c.snap.session
      && (NewlyNumbered(c, session, number) ==> Answered(c, e, number, Stop(why), Accepted))
  {
    hide Verdict;
    var d := EmergencyHalt(c);
    assert Admit(d, session, number, Stop(why)) == Fresh <==> NewlyNumbered(c, session, number);
    assert Verdict(d, Stop(why)) == Accepted by {
      StopIsAccepted(d, why);
    }
  }

  lemma StopIsAccepted(c: Context, why: string)
    ensures Verdict(c, Stop(why)) == Accepted
  {
  }

  predicate NamesLoaded(p: Plan, route: int, waypoint: int) {
    p.loaded && route == p.target.route && waypoint == p.target.waypoint
  }

  /** What a WAIT demands a new waypoint for. */
  predicate AsksNew(reason: WaitReason) { reason == Rerouting || reason == WaypointReached || reason == FinalWaypointReached }

  /** The result of a WAIT, and the state and plan it leaves. */
  function WaitAnswer(s: Snapshot, route: int, waypoint: int, reason: WaitReason): (CommandResult, State, Plan) {
    if s.state != Moving && s.state != Waiting then
      (if s.state == Ready then AlreadyStopped else InvalidState, s.state, s.plan)
    else if AsksNew(reason) && s.plan.loaded && !NamesLoaded(s.plan, route, waypoint) then
      (TargetMismatch, Waiting, s.plan.(waitReason := RemoteWait, resumeAllowed := false))
    else
      (Accepted, Waiting, s.plan.(waitReason := reason, resumeAllowed := s.plan.resumeAllowed && !AsksNew(reason)))
  }

  lemma WaitStops(c: Context, route: int, waypoint: int, reason: WaitReason)
    ensures var d, wait := Perform(c, Wait(route, waypoint, reason)), Wait(route, waypoint, reason);
      && AtRest(d) && Remembers(c, d) && d.snap.mode == c.snap.mode
      && (Verdict(c, wait), d.snap.state, d.snap.plan) == WaitAnswer(c.snap, route, waypoint, reason)
  {
  }

  /**
   A fresh WAIT stops the vehicle in any state. A moving or waiting one then waits: for the given reason, which asks for
   a new waypoint if it is one of the three that do, unless the reason speaks of another waypoint than the loaded one.
   */
  lemma WaitExactly(c: Context, session: string, number: CommandSeq, route: int, waypoint: int, reason: WaitReason)
    requires NewlyNumbered(c, session, number)
    ensures var e, answer := HandleReliable(c, session, number, Wait(route, waypoint, reason)),
                             WaitAnswer(c.snap, route, waypoint, reason);
      && Answered(c, e, number, Wait(route, waypoint, reason), answer.0) && AtRest(e) && Remembers(c, e)
      && e.snap.mode == c.snap.mode && e.snap.state == answer.1 && e.snap.plan == answer.2
  {
    hide HandleReliable, Perform, Verdict, Answered, WaitAnswer;
    FreshIsCarriedOut(c, session, number, Wait(route, waypoint, reason));
    WaitStops(c, route, waypoint, reason);
  }

  /** The answer to a waypoint in the waypoint mode: which routes and waypoints may follow the loaded one. */
  function WaypointAnswer(p: Plan, t: Target): CommandResult {
    if !p.loaded then Accepted
    else if t.route < p.target.route then StaleRoute
    else if t.route == p.target.route && (p.waitReason == Rerouting || p.waitReason == FinalWaypointReached) then
      NewRouteRequired
    else if p.waitReason == WaypointReached && !(t.route == p.target.route && t.waypoint > p.target.waypoint) then
      TargetMismatch
    else Accepted
  }

  /** A fresh WAYPOINT is taken in READY or WAITING of the waypoint mode if the route rules allow it; the vehicle waits. */
  lemma WaypointExactly(c: Context, session: string, number: CommandSeq, t: Target)
    requires NewlyNumbered(c, session, number)
    ensures var e := HandleReliable(c, session, number, Waypoint(t));
      var answer :=
        if c.snap.mode == WaypointAuto && (c.snap.state == Ready || c.snap.state == Waiting) then WaypointAnswer(c.snap.plan, t)
        else InvalidState;
      && Answered(c, e, number, Waypoint(t), answer)
      && if answer == Accepted then
           e.snap.state == Waiting && Remembers(c, e) && e.pins == IDLE && e.snap.mode == WaypointAuto
           && e.snap.plan == Plan(true, t, true, AwaitingStart)
         else Undisturbed(c, e)
  {
    hide HandleReliable;
    FreshIsCarriedOut(c, session, number, Waypoint(t));
  }

  /** A fresh GO that names the loaded waypoint of a waiting vehicle is refused only for want of a pose. */
  lemma GoExactly(c: Context, session: string, number: CommandSeq, route: int, waypoint: int)
    requires NewlyNumbered(c, session, number) && !c.snap.poseValid
    ensures var e := HandleReliable(c, session, number, Go(route, waypoint));
      var answer :=
        if c.snap.state == Waiting && !c.snap.plan.loaded then TargetNotLoaded
        else if c.snap.state != Waiting || !c.snap.plan.resumeAllowed then InvalidState
        else if NamesLoaded(c.snap.plan, route, waypoint) then PoseRequired
        else TargetMismatch;
      Answered(c, e, number, Go(route, waypoint), answer) && Undisturbed(c, e)
  {
    hide HandleReliable;
    FreshIsCarriedOut(c, session, number, Go(route, waypoint));
  }

  /** With a valid pose the same GO would be accepted and the vehicle be MOVING, with no output. */
  lemma GoWithPose(c: Context, session: string, number: CommandSeq, route: int, waypoint: int)
    requires NewlyNumbered(c, session, number) && c.snap.poseValid && c.snap.state == Waiting
    requires c.snap.plan.resumeAllowed && NamesLoaded(c.snap.plan, route, waypoint)
    ensures var e := HandleReliable(c, session, number, Go(route, waypoint));
      && Answered(c, e, number, Go(route, waypoint), Accepted) && e.snap.state == Moving && Remembers(c, e)
      && e.snap.plan == c.snap.plan.(waitReason := NoReason) && e.pins == c.pins
  {
    hide HandleReliable;
    FreshIsCarriedOut(c, session, number, Go(route, waypoint));
  }

  /**
   A command that is not fresh is not processed and answered by one status: for another or no session as a mismatch, for
   the number processed last by the recorded result or, with another payload, as a conflict, and below that as stale.
   */
  lemma OthersAreAnswered(c: Context, session: string, number: CommandSeq, command: Command)
    requires !NewlyNumbered(c, session, number) && !command.Stop?
    ensures var e := HandleReliable(c, session, number, command);
      && Undisturbed(c, e) && e.effects == c.effects && e.last == c.last && e.snap.lastSeq == c.snap.lastSeq
      && if !(c.snap.sessionActive && c.snap.session == session) then
           Reports(c, e, c.snap.session, c.snap.lastSeq, number, SessionMismatch)
         else if number < c.snap.lastSeq then Reports(c, e, session, c.snap.lastSeq, number, StaleSeq)
         else if c.last.Some? && c.last.value.command == command then
           Reports(c, e, session, c.snap.lastSeq, 0, c.last.value.result)
         else Reports(c, e, session, c.snap.lastSeq, number, SeqConflict)
  {
    hide Process;
  }

  // --- start-up ---

  /** A vehicle starts at rest, unattached, and in the waypoint mode; it has heard, done and said nothing. */
  lemma PowerOnExactly(bootId: string, hz: nat)
    ensures var c := PowerOn(bootId, hz);
      && AtRest(c) && Unattached(c) && Uncounted(c) && !c.stall.tracking
      && c.snap.state == WifiConnecting && c.snap.previousState == c.preSync == Boot && c.snap.mode == WaypointAuto
      && !c.snap.syncHold && !c.snap.commTimeout && !c.snap.poseValid
      && c.snap.statusSeq == 0 && c.snap.lastSeq == 0 && c.last == None && c.clock == 0
      && c.snap.session == "" && c.snap.previousSession == "" && c.snap.errorCode == "" && c.snap.bootId == bootId
      && c.sent == [] && c.effects == [] && c.applied == []
  {
  }

  // --- the link ---

  /** No session, nothing loaded. */
  ghost predicate Unattached(e: Context) {
    !e.snap.sessionActive && !e.snap.plan.loaded
  }

  /** A connection stops and disarms, ends the session and opens the handshake; it sends nothing. */
  lemma ConnectionExactly(c: Context)
    ensures var e := Step(c, TcpConnected);
      && AtRest(e) && Unattached(e) && Remembers(c, e)
      && e.snap.state == Syncing && e.preSync == c.snap.state && e.snap.mode == WaypointAuto && !e.snap.syncHold
      && e.snap.session == "" && e.snap.previousSession == c.snap.session && Uncounted(e)
      && e.sent == c.sent && e.effects == c.effects
  {
  }

  /** A lost link stops and ends the session, keeps a lock, even one behind an open handshake, and is reported. */
  lemma LossExactly(c: Context, ev: Event)
    requires ev.TcpDown? || ev.HeartbeatTimeout?
    ensures var e := Step(c, ev);
      && AtRest(e) && Unattached(e) && Remembers(c, e) && e.snap.commTimeout && e.snap.mode == c.snap.mode
      && e.snap.state == (if LockState(c.snap.state) then c.snap.state
                          else if c.snap.state == Syncing && LockState(c.preSync) then c.preSync
                          else CommTimeout)
      && Reports(c, e, c.snap.session, c.snap.lastSeq, 0, NoResult) && e.effects == c.effects
  {
    hide Queue;
    LossRests(c);
    QueueReports(c, Detach(c), NoResult);
  }

  lemma LossRests(c: Context)
    ensures var d := Detach(c);
      && AtRest(d) && Unattached(d) && Remembers(c, d) && d.snap.commTimeout && d.snap.mode == c.snap.mode
      && d.snap.state == (if LockState(c.snap.state) then c.snap.state
                          else if c.snap.state == Syncing && LockState(c.preSync) then c.preSync
                          else CommTimeout)
      && d.effects == c.effects && d.sent == c.sent && d.snap.statusSeq == c.snap.statusSeq
      && d.snap.session == c.snap.session && d.snap.lastSeq == c.snap.lastSeq
  {
  }

  /** Queueing a status changes nothing but the queue and its numbering. */
  lemma QueueReports(c: Context, d: Context, result: CommandResult)
    requires d.sent == c.sent && d.snap.statusSeq == c.snap.statusSeq
    ensures var e := Queue(d, result, 0);
      Reports(c, e, d.snap.session, d.snap.lastSeq, 0, result)
      && e == d.(snap := d.snap.(statusSeq := d.snap.statusSeq + 1), sent := e.sent)
  {
  }

  // --- the handshake ---

  /** The session the host has opened: its number, its first command, and whether the vehicle may move on. */
  ghost predicate InSession(e: Context, session: string, seqStart: nat) {
    e.snap.sessionActive && e.snap.session == session && e.snap.lastSeq == (if seqStart == 0 then 0 else seqStart - 1)
  }

  /**
   The answer to the handshake. For another boot it locks the vehicle in ERROR, with the outputs as they are; outside a
   handshake, and for a lock behind it, it changes nothing. Otherwise it opens a session in READY, disarmed; or opens one
   and holds the vehicle in the handshake; or rejects it.
   */
  lemma AnswerExactly(c: Context, m: Message)
    requires m.HelloAck?
    ensures var e := Step(c, Receive(m));
      && e.effects == c.effects && e.pins == c.pins && Remembers(c, e)
      && if m.bootId != c.snap.bootId then
           Refuses(c, e, ProtocolError) && e.snap.state == Error && e.snap.errorCode == "BOOT_ID_MISMATCH"
           && e.snap.mode == c.snap.mode && e.snap.sessionActive == c.snap.sessionActive
         else if c.snap.state != Syncing then Refuses(c, e, InvalidState) && Undisturbed(c, e)
         else if m.verdict == Rejected then
           Refuses(c, e, Refused) && e.snap.state == Error && !e.snap.sessionActive
           && e.snap.errorCode == (if m.why == "" then "HELLO_REJECTED" else m.why)
         else if m.verdict == Hold then
           Opens(c, e, m, OnHold) && e.snap.state == Syncing && e.snap.syncHold && e.preSync == c.preSync
         else if LockState(c.preSync) then Refuses(c, e, LockedState) && Undisturbed(c, e)
         else
           Opens(c, e, m, Accepted) && e.snap.state == Ready && !e.snap.syncHold && e.snap.mode == WaypointAuto
           && !e.snap.plan.loaded && !e.snap.commTimeout && e.snap.errorCode == "" && e.last == None
           && e.slot == None && !e.directActive && Uncounted(e)
  {
    hide Queue, HelloState, HelloReply;
    AnswerChanges(c, m);
    var d := HelloState(c, m);
    QueueReports(c, d, HelloReply(c, m));
  }

  ghost predicate Refuses(c: Context, e: Context, result: CommandResult) {
    Reports(c, e, c.snap.session, c.snap.lastSeq, 0, result) && e.snap.session == c.snap.session
  }

  ghost predicate Opens(c: Context, e: Context, m: Message, result: CommandResult)
    requires m.HelloAck?
  {
    InSession(e, m.session, m.seqStart) && Reports(c, e, m.session, e.snap.lastSeq, 0, result)
  }

  /** The same before the answer is reported. */
  lemma AnswerChanges(c: Context, m: Message)
    requires m.HelloAck?
    ensures var d := HelloState(c, m);
      && d.effects == c.effects && d.pins == c.pins && Remembers(c, d)
      && d.sent == c.sent && d.snap.statusSeq == c.snap.statusSeq
    ensures var d, reply := HelloState(c, m), HelloReply(c, m);
      if m.bootId != c.snap.bootId then
        reply == ProtocolError && d.snap.state == Error && d.snap.errorCode == "BOOT_ID_MISMATCH" && SameSession(c, d)
        && d.snap.mode == c.snap.mode && d.snap.sessionActive == c.snap.sessionActive
      else if c.snap.state != Syncing then reply == InvalidState && d == c
      else if m.verdict == Rejected then
        reply == Refused && d.snap.state == Error && !d.snap.sessionActive && SameSession(c, d)
        && d.snap.errorCode == (if m.why == "" then "HELLO_REJECTED" else m.why)
      else if m.verdict == Hold then
        reply == OnHold && InSession(d, m.session, m.seqStart)
        && d.snap.state == Syncing && d.snap.syncHold && d.preSync == c.preSync
      else if LockState(c.preSync) then reply == LockedState && d == c
      else
        reply == Accepted && InSession(d, m.session, m.seqStart)
        && d.snap.state == Ready && !d.snap.syncHold && d.snap.mode == WaypointAuto
        && !d.snap.plan.loaded && !d.snap.commTimeout && d.snap.errorCode == "" && d.last == None
        && d.slot == None && !d.directActive && Uncounted(d)
  {
    hide StartSession, HoldSession, RejectSession;
    if c.snap.state == Syncing {
      SessionStarts(c, m.session, m.seqStart);
      SessionIsHeld(c, m.session, m.seqStart, m.why);
    }
  }

  lemma SessionStarts(c: Context, session: string, seqStart: nat)
    requires c.snap.state == Syncing
    ensures var d := StartSession(c, session, seqStart);
      && d.effects == c.effects && d.pins == c.pins && Remembers(c, d)
      && d.sent == c.sent && d.snap.statusSeq == c.snap.statusSeq
      && InSession(d, session, seqStart)
      && d.snap.state == Ready && !d.snap.syncHold && d.snap.mode == WaypointAuto
      && !d.snap.plan.loaded && !d.snap.commTimeout && d.snap.errorCode == "" && d.last == None
      && d.slot == None && !d.directActive && Uncounted(d)
  {
  }

  lemma SessionIsHeld(c: Context, session: string, seqStart: nat, why: string)
    requires c.snap.state == Syncing
    ensures var d := HoldSession(c, session, seqStart);
      && d.effects == c.effects && d.pins == c.pins && Remembers(c, d)
      && d.sent == c.sent && d.snap.statusSeq == c.snap.statusSeq
      && InSession(d, session, seqStart) && d.snap.state == Syncing && d.snap.syncHold && d.preSync == c.preSync
    ensures var d := RejectSession(c, why);
      && d.effects == c.effects && d.pins == c.pins && Remembers(c, d)
      && d.sent == c.sent && d.snap.statusSeq == c.snap.statusSeq && SameSession(c, d)
      && d.snap.state == Error && !d.snap.sessionActive && d.snap.errorCode == (if why == "" then "HELLO_REJECTED" else why)
  {
  }

  ghost predicate SameSession(c: Context, d: Context) {
    d.snap.session == c.snap.session && d.snap.lastSeq == c.snap.lastSeq
  }

  // --- the stream ---

  /** A value of the live session, in the direct mode of an unlocked vehicle, newer than the last one applied. */
  predicate TakesEffect(c: Context, d: DirectSlot) {
    && c.snap.sessionActive && c.snap.session == d.session && c.snap.mode == RemoteDirect
    && (c.snap.state == Ready || c.snap.state == Moving || c.snap.state == Waiting)
    && d.controlSeq > c.appliedSeq
  }

  /** What drives and steers is what was commanded, in its direction, and is what the vehicle reports. */
  ghost predicate PutsOut(e: Context, d: DirectSlot) {
    && e.snap.output.throttle == Clamp(d.throttle, -1.0, 1.0) && e.snap.output.steering == Clamp(d.steering, -1.0, 1.0)
    && e.snap.output.pwm == e.pins.duty && e.snap.output.direction == e.pins.direction && e.snap.output.servo == e.pins.servo
    && (e.pins.direction == Reverse <==> d.throttle < 0.0)
    && e.pins.servo == SERVO_CENTER + 40.0 * Clamp(d.steering, -1.0, 1.0)
    && (e.pins.duty == 0 <==> -MOTOR_DEADBAND_THROTTLE <= d.throttle <= MOTOR_DEADBAND_THROTTLE)
  }

  /** Which way a value drives: forward, backward or not at all. */
  function Way(throttle: real): int {
    if throttle > MOTOR_DEADBAND_THROTTLE then 1 else if -throttle > MOTOR_DEADBAND_THROTTLE then -1 else 0
  }

  ghost predicate Logs(c: Context, e: Context, d: DirectSlot, now: nat, encoder: int) {
    |e.applied| == |c.applied| + 1 &&
    var entry := e.applied[|c.applied|];
    e.applied == c.applied + [entry] && entry.tick == now && entry.encoder == encoder && entry.sign == Way(d.throttle)
  }

  /** Applying the stored value: exactly a value that takes effect is put out; the vehicle moves exactly while it drives. */
  lemma DirectExactly(c: Context, now: nat, encoder: int)
    ensures var e := Step(c, UseDirect(now, encoder));
      if c.slot.None? || !TakesEffect(c, c.slot.value) then e == c.(slot := None, clock := now)
      else
        var d := c.slot.value;
        && PutsOut(e, d) && Remembers(c, e) && Logs(c, e, d, now, encoder)
        && e.appliedSeq == d.controlSeq == e.snap.latestControlSeq && e.lastTick == now && e.directActive && e.slot == None
        && e.snap.plan == c.snap.plan.(waitReason := NoReason) && e.snap.mode == c.snap.mode && e.effects == c.effects
        && e.snap.state == (if e.pins.duty > 0 then Moving else if c.snap.state == Moving then Ready else c.snap.state)
        && if e.snap.state != c.snap.state then Reports(c, e, c.snap.session, c.snap.lastSeq, 0, NoResult)
           else e.sent == c.sent && e.snap.statusSeq == c.snap.statusSeq
  {
    hide Drives, Driven, Queue, HandleReliable, HelloAnswer;
    var b := c.(slot := None, clock := now);
    if c.slot.Some? {
      DrivesExactly(b, c.slot.value);
      if Drives(b, c.slot.value) {
        ValueIsPutOut(b, c.slot.value, now, encoder);
        var driven := Driven(b, c.slot.value, now, encoder);
        QueueReports(c, Enter(driven, Moving), NoResult);
        QueueReports(c, Enter(driven, Ready), NoResult);
      }
    }
  }

  lemma DrivesExactly(c: Context, d: DirectSlot)
    ensures Drives(c, d) <==> TakesEffect(c, d)
  {
  }

  lemma ValueIsPutOut(c: Context, d: DirectSlot, now: nat, encoder: int)
    ensures var e := Driven(c, d, now, encoder);
      && PutsOut(e, d) && Logs(c, e, d, now, encoder)
      && e.appliedSeq == d.controlSeq == e.snap.latestControlSeq && e.lastTick == now && e.directActive && e.slot == c.slot
      && e.snap.plan == c.snap.plan.(waitReason := NoReason) && e.snap.mode == c.snap.mode && e.effects == c.effects
      && e.snap.state == c.snap.state && e.snap.previousState == c.snap.previousState
      && e.sent == c.sent && e.snap.statusSeq == c.snap.statusSeq
      && e.snap.session == c.snap.session && e.snap.lastSeq == c.snap.lastSeq
  {
    hide Drive, NextStall, Boosts;
    OutputExactly(d.throttle, d.steering, 0);
    OutputExactly(d.throttle, d.steering, STALL_BOOST_PWM);
  }

  lemma OutputExactly(throttle: real, steering: real, minPwm: nat)
    requires minPwm == 0 || minPwm == STALL_BOOST_PWM
    ensures var out := Drive(throttle, steering, minPwm);
      && out.throttle == Clamp(throttle, -1.0, 1.0) && out.steering == Clamp(steering, -1.0, 1.0)
      && (out.direction == Reverse <==> throttle < 0.0)
      && out.servo == SERVO_CENTER + 40.0 * Clamp(steering, -1.0, 1.0)
      && (out.pwm == 0 <==> -MOTOR_DEADBAND_THROTTLE <= throttle <= MOTOR_DEADBAND_THROTTLE)
  {
    DriveDuty(throttle, steering);
    DutyRange(throttle, steering);
    ServoMapIsLinear(steering);
    ServoOfClamped(steering);
    hide ThrottleToDuty, SteeringToAngle;
  }

  lemma ServoOfClamped(steering: real)
    ensures SteeringToAngle(Clamp(steering, -1.0, 1.0)) == SERVO_CENTER + 40.0 * Clamp(steering, -1.0, 1.0)
  {
    hide SteeringToAngle;
    ServoMapIsLinear(Clamp(steering, -1.0, 1.0));
  }

  /** The check stops a vehicle exactly if it is moving on a stream whose last value is as old as the timeout. */
  lemma TimeoutExactly(c: Context, now: nat)
    ensures var e := Step(c, TimeoutCheck(now));
      if c.snap.mode == RemoteDirect && c.snap.state == Moving && c.directActive && c.lastTick != 0
         && now - c.lastTick >= DIRECT_CONTROL_TIMEOUT_MS * c.hz / 1000 then
        && AtRest(e) && Remembers(c, e) && e.snap.state == Waiting && e.snap.mode == RemoteDirect && e.clock == now
        && e.snap.plan == c.snap.plan.(waitReason := DirectControlTimeout, resumeAllowed := false)
        && Reports(c, e, c.snap.session, c.snap.lastSeq, 0, NoResult) && e.effects == c.effects
      else e == c.(clock := now)
  {
    hide HandleReliable, HelloAnswer, Connected, LinkLost, TakeDirect;
  }

  /** The periodic status is sent exactly while a session is open. */
  lemma PeriodicExactly(c: Context)
    ensures var e := Step(c, StatusDue);
      if c.snap.sessionActive then
        Reports(c, e, c.snap.session, c.snap.lastSeq, 0, NoResult)
        && e == c.(snap := c.snap.(statusSeq := e.snap.statusSeq), sent := e.sent)
      else e == c
  {
    hide HandleReliable, HelloAnswer, Connected, LinkLost, TakeDirect, CheckTimeout;
  }

  // --- the way the vehicle drives, in every run ---

  /** The motor, if it turns, turns the way of the last value applied. */
  ghost predicate WayAgrees(c: Context) {
    c.pins.duty != 0 ==> |c.applied| > 0 && c.applied[|c.applied| - 1].sign == (if c.pins.direction == Reverse then -1 else 1)
  }

  lemma CommandKeepsWay(c: Context, session: string, number: CommandSeq, command: Command)
    requires Safe(c) && WayAgrees(c)
    ensures WayAgrees(HandleReliable(c, session, number, command))
  {
    hide HandleReliable, Answered, Reports, WaitAnswer, WaypointAnswer;
    if command.Stop? {
      StopExactly(c, session, number, command.why);
    } else if !NewlyNumbered(c, session, number) {
      OthersAreAnswered(c, session, number, command);
    } else {
      match command
      case Waypoint(t) => WaypointExactly(c, session, number, t);
      case Go(route, waypoint) => GoExactly(c, session, number, route, waypoint);
      case Wait(route, waypoint, reason) => WaitExactly(c, session, number, route, waypoint, reason);
      case Reset => ResetExactly(c, session, number);
      case SetMode(mode) => SetModeExactly(c, session, number, mode);
      case Stop(_) =>
    }
  }

  lemma StepKeepsWay(c: Context, ev: Event)
    requires Safe(c) && WayAgrees(c) && Echoed(c.snap.bootId, ev)
    ensures WayAgrees(Step(c, ev))
  {
    hide Reports, TakesEffect, HandleReliable, HelloAnswer, TakeDirect, CheckTimeout, Connected, LinkLost;
    match ev
    case TcpConnected => ConnectionExactly(c);
    case TcpDown => LossExactly(c, ev);
    case HeartbeatTimeout => LossExactly(c, ev);
    case Receive(m) =>
      match m {
        case HelloAck(_, _, _, _, _) => AnswerKeepsWay(c, m);
        case Reliable(session, number, command) => CommandKeepsWay(c, session, number, command);
        case DirectControl(_) =>
      }
    case UseDirect(now, encoder) => DirectExactly(c, now, encoder);
    case TimeoutCheck(now) => TimeoutExactly(c, now);
    case StatusDue => PeriodicExactly(c);
  }

  lemma AnswerKeepsWay(c: Context, m: Message)
    requires Safe(c) && WayAgrees(c) && m.HelloAck? && m.bootId == c.snap.bootId
    ensures WayAgrees(Step(c, Receive(m)))
  {
    hide Step, Reports;
    AnswerExactly(c, m);
  }

  lemma {:induction false} RunKeepsWay(bootId: string, hz: nat, events: seq<Event>)
    requires PlausibleRun(bootId, hz, events) && forall ev :: ev in events ==> Echoed(bootId, ev)
    ensures WayAgrees(Run(bootId, hz, events))
    decreases |events|
  {
    hide Step, Plausible, Echoed, Safe;
    if |events| > 0 {
      var front, ev := events[..|events| - 1], events[|events| - 1];
      RunFront(bootId, hz, events);
      RunKeepsWay(bootId, hz, front);
      RunSafe(bootId, hz, front);
      StepKeepsWay(Run(bootId, hz, front), ev);
    }
  }

  /** In every run a turning motor turns in the direction of the throttle of the last value applied. */
  lemma MotorTurnsTheCommandedWay(bootId: string, hz: nat, events: seq<Event>)
    requires PlausibleRun(bootId, hz, events) && forall ev :: ev in events ==> Echoed(bootId, ev)
    requires Run(bootId, hz, events).pins.duty != 0
    ensures var c := Run(bootId, hz, events);
      |c.applied| > 0 && var way := c.applied[|c.applied| - 1].sign;
      way != 0 && (c.pins.direction == Reverse <==> way == -1) && (c.pins.direction == Forward <==> way == 1)
  {
    hide Run, PlausibleRun, Echoed;
    RunKeepsWay(bootId, hz, events);
  }

  // --- the deliberate steps after a STOP do drive ---

  /** The steps that lead from a STOP back to driving, numbered from n on. */
  function WayBack(session: string, n: CommandSeq, why: string, d: DirectSlot, now: nat, encoder: int): seq<Event> {
    [Receive(Reliable(session, n, Stop(why))), Receive(Reliable(session, n + 1, Reset)),
     Receive(Reliable(session, n + 2, SetMode(RemoteDirect))), Receive(DirectControl(d)), UseDirect(now, encoder)]
  }

  lemma StopThenReset(c: Context, session: string, n: CommandSeq, why: string)
    requires NewlyNumbered(c, session, n)
    ensures var a := Step(c, Receive(Reliable(session, n, Stop(why))));
      var b := Step(a, Receive(Reliable(session, n + 1, Reset)));
      && a.snap.state == EmergencyStop && a.pins == IDLE && NewlyNumbered(a, session, n + 1)
      && b.snap.state == Ready && NewlyNumbered(b, session, n + 2)
  {
    hide HandleReliable, Reports, AtRest, HelloAnswer;
    StopExactly(c, session, n, why);
    assert AtRest(HandleReliable(c, session, n, Stop(why)));
    RestIsIdle(HandleReliable(c, session, n, Stop(why)));
    ResetExactly(HandleReliable(c, session, n, Stop(why)), session, n + 1);
  }

  lemma RestIsIdle(c: Context)
    requires AtRest(c)
    ensures c.pins == IDLE
  {
  }

  lemma ModeThenValue(b: Context, session: string, n: CommandSeq, d: DirectSlot, now: nat, encoder: int)
    requires b.snap.state == Ready && NewlyNumbered(b, session, n) && d.session == session && d.controlSeq >= 1
    requires Way(d.throttle) != 0
    ensures var m := Step(b, Receive(Reliable(session, n, SetMode(RemoteDirect))));
      var e := Step(Step(m, Receive(DirectControl(d))), UseDirect(now, encoder));
      e.pins.duty > 0 && e.snap.state == Moving && (e.pins.direction == Reverse <==> d.throttle < 0.0)
  {
    hide HandleReliable, Reports, HelloAnswer, TakeDirect;
    SetModeExactly(b, session, n, RemoteDirect);
    var m := Step(b, Receive(Reliable(session, n, SetMode(RemoteDirect))));
    DirectExactly(Step(m, Receive(DirectControl(d))), now, encoder);
  }

  /**
   From any state of any run with a live session: a STOP locks the vehicle, and after a RESET, the direct mode and a value
   that drives, in this order, it drives, in the direction of the value. The converse of what a STOP holds against.
   */
  lemma DeliberateStepsDrive(bootId: string, hz: nat, events: seq<Event>, session: string, n: CommandSeq, why: string,
                             d: DirectSlot, now: nat, encoder: int)
    requires PlausibleRun(bootId, hz, events) && session != "" && NewlyNumbered(Run(bootId, hz, events), session, n)
    requires d.session == session && d.controlSeq >= 1 && Way(d.throttle) != 0
    requires now >= 1 && now >= Run(bootId, hz, events).clock
    ensures var all := events + WayBack(session, n, why, d, now, encoder);
      && PlausibleRun(bootId, hz, all)
      && Run(bootId, hz, all[..|events| + 1]).snap.state == EmergencyStop
      && Run(bootId, hz, all[..|events| + 1]).pins.duty == 0
      && Run(bootId, hz, all).pins.duty > 0 && Run(bootId, hz, all).snap.state == Moving
  {
    hide Run, PlausibleRun, Step;
    var back := WayBack(session, n, why, d, now, encoder);
    var stopped := More(bootId, hz, events, back[0]);
    var reset := More(bootId, hz, stopped, back[1]);
    var direct := More(bootId, hz, reset, back[2]);
    var fed := More(bootId, hz, direct, back[3]);
    StopThenReset(Run(bootId, hz, events), session, n, why);
    ModeThenValue(Run(bootId, hz, reset), session, n + 2, d, now, encoder);
    ClockStays(bootId, hz, events, back);
    var used := More(bootId, hz, fed, back[4]);
    assert used == events + back;
    assert (events + back)[..|events| + 1] == stopped;
  }

  lemma ClockStays(bootId: string, hz: nat, events: seq<Event>, back: seq<Event>)
    requires |back| >= 4 && forall i :: 0 <= i < 4 ==> back[i].Receive? && !back[i].message.HelloAck?
    ensures Run(bootId, hz, events + [back[0]] + [back[1]] + [back[2]] + [back[3]]).clock == Run(bootId, hz, events).clock
  {
    hide Run, Step;
    RunSnoc(bootId, hz, events, back[0]);
    RunSnoc(bootId, hz, events + [back[0]], back[1]);
    RunSnoc(bootId, hz, events + [back[0]] + [back[1]], back[2]);
    RunSnoc(bootId, hz, events + [back[0]] + [back[1]] + [back[2]], back[3]);
    ReceivingKeepsClock(Run(bootId, hz, events), back[0].message);
    ReceivingKeepsClock(Run(bootId, hz, events + [back[0]]), back[1].message);
    ReceivingKeepsClock(Run(bootId, hz, events + [back[0]] + [back[1]]), back[2].message);
    ReceivingKeepsClock(Run(bootId, hz, events + [back[0]] + [back[1]] + [back[2]]), back[3].message);
  }

  lemma ReceivingKeepsClock(c: Context, m: Message)
    requires !m.HelloAck?
    ensures Step(c, Receive(m)).clock == c.clock
  {
    hide HelloAnswer, Perform, Verdict, EmergencyHalt, HoldReset;
    if m.Reliable? {
      PerformKeepsClock(c, m.command);
      PerformKeepsClock(EmergencyHalt(c), m.command);
    }
  }

  lemma PerformKeepsClock(c: Context, command: Command)
    ensures Perform(c, command).clock == c.clock && EmergencyHalt(c).clock == c.clock
  {
    hide Verdict, WaitPlan, HoldReset;
  }

  lemma More(bootId: string, hz: nat, events: seq<Event>, ev: Event) returns (more: seq<Event>)
    requires PlausibleRun(bootId, hz, events) && Plausible(Run(bootId, hz, events), ev)
    ensures more == events + [ev] && PlausibleRun(bootId, hz, more)
    ensures Run(bootId, hz, more) == Step(Run(bootId, hz, events), ev)
  {
    more := events + [ev];
    RunSnoc(bootId, hz, events, ev);
    PlausibleSnoc(bootId, hz, events, ev);
  }
}
