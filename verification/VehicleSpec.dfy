/**
 The vehicle's control task as a state machine. Each event is one critical section of the task, or one
 value stored for it by the communication task; a run is any sequence of them.
 */
module VehicleSpec {
  import opened Options
  import opened VehicleTypes
  import opened Actuator

  const DIRECT_CONTROL_TIMEOUT_MS := 500
  const DIRECT_STALL_TIMEOUT_MS := 2000
  const DIRECT_STALL_BOOST_MS := 300
  const ALLOW_GO_WITHOUT_POSE := false

  datatype Plan = Plan(loaded: bool, target: Target, resumeAllowed: bool, waitReason: WaitReason)

  const NO_PLAN := Plan(false, Target(-1, -1, []), false, NoReason)

  /** What the vehicle reports about itself. */
  datatype Snapshot = Snapshot(state: State, previousState: State, mode: Mode, sessionActive: bool, syncHold: bool,
                               commTimeout: bool, poseValid: bool, plan: Plan, statusSeq: nat, lastSeq: nat,
                               latestControlSeq: nat, output: Output, session: string, previousSession: string,
                               errorCode: string, bootId: string)

  /** Encoder-based stall detection: since when the wheels have not turned although driven one way. */
  datatype Stall = Stall(tracking: bool, sign: int, encoder: int, motionTick: nat, boostUntil: nat, used: bool)

  const NO_STALL := Stall(false, 0, 0, 0, 0, false)

  datatype Outcome = Outcome(command: Command, result: CommandResult)

  /** The motor and servo pins as last written. */
  datatype Pins = Pins(duty: nat, direction: Direction, servo: real)

  const IDLE := Pins(0, Forward, SERVO_CENTER)

  /** A reliable command that was processed, in the session and under the number it carried. */
  datatype Effect = Effect(session: string, number: nat, command: Command, result: CommandResult)

  /** A direct command that was applied: when, the encoder reading, the way it drives, and whether boosted. */
  datatype Applied = Applied(tick: nat, encoder: int, sign: int, boosted: bool)

  /**
   `sent`, `effects`, `applied`, `since`, `issued` and `clock` are history: the statuses queued, the commands
   processed, the direct commands applied since streaming was last invalidated, where among these the current
   stall episode starts, the session ids ever opened, and the latest tick read.
   */
  datatype Context = Context(snap: Snapshot, preSync: State, last: Option<Outcome>, slot: Option<DirectSlot>,
                             appliedSeq: nat, lastTick: nat, directActive: bool, stall: Stall, pins: Pins, hz: nat,
                             sent: seq<Status>, effects: seq<Effect>, applied: seq<Applied>, since: nat,
                             issued: set<string>, clock: nat)

  function Ticks(ms: nat, hz: nat): nat { ms * hz / 1000 }

  // --- shared steps ---

  function SafeStop(c: Context): Context { c.(pins := IDLE) }

  function ClearTarget(c: Context): Context { c.(snap := c.snap.(plan := NO_PLAN)) }

  function InvalidateDirect(c: Context): Context {
    c.(slot := None, directActive := false, lastTick := 0, stall := NO_STALL, applied := [], since := 0,
       snap := c.snap.(output := STOPPED))
  }

  function Enter(c: Context, s: State): Context {
    if c.snap.state == s then c
    else c.(snap := c.snap.(previousState := c.snap.state, state := s))
  }

  /** A new control-sequence baseline, as after a reset or a new session. */
  function RestartControlSeq(c: Context): Context {
    c.(appliedSeq := 0, snap := c.snap.(latestControlSeq := 0))
  }

  function Queue(c: Context, result: CommandResult, rejected: nat): Context {
    var s := c.snap;
    var n := s.statusSeq + 1;
    c.(snap := s.(statusSeq := n),
       sent := c.sent + [Status(s.session, n, s.lastSeq, rejected, result, s.state, s.mode)])
  }

  predicate Matches(c: Context, session: string) {
    c.snap.sessionActive && c.snap.session == session
  }

  predicate IsLock(s: State) { s == EmergencyStop || s == Error }

  // --- reliable commands ---

  datatype Admission = Fresh | Bounced(result: CommandResult, rejected: nat)

  function Admit(c: Context, session: string, number: CommandSeq, command: Command): Admission {
    if !Matches(c, session) then Bounced(SessionMismatch, number)
    else if number == c.snap.lastSeq then
      if c.last.Some? && c.last.value.command == command then Bounced(c.last.value.result, 0)
      else Bounced(SeqConflict, number)
    else if number < c.snap.lastSeq then Bounced(StaleSeq, number)
    else Fresh
  }

  function Finish(c: Context, session: string, number: CommandSeq, o: Outcome): Context {
    Queue(c.(snap := c.snap.(lastSeq := number), last := Some(o),
             effects := c.effects + [Effect(session, number, o.command, o.result)]), o.result, 0)
  }

  function RouteVerdict(p: Plan, t: Target): CommandResult {
    if !p.loaded then Accepted
    else if t.route < p.target.route then StaleRoute
    else if (p.waitReason == Rerouting || p.waitReason == FinalWaypointReached) && t.route == p.target.route then
      NewRouteRequired
    else if p.waitReason == WaypointReached && (t.route != p.target.route || t.waypoint <= p.target.waypoint) then
      TargetMismatch
    else Accepted
  }

  predicate NeedsNewWaypoint(r: WaitReason) {
    r == Rerouting || r == WaypointReached || r == FinalWaypointReached
  }

  /** The wait names another waypoint than the loaded one. */
  predicate WaitsElsewhere(p: Plan, command: Command)
    requires command.Wait?
  {
    NeedsNewWaypoint(command.reason) && p.loaded
    && (command.route != p.target.route || command.waypoint != p.target.waypoint)
  }

  /** A reset while the host holds a locked vehicle in the handshake. */
  predicate HoldReset(c: Context) {
    c.snap.state == Syncing && c.snap.syncHold && IsLock(c.preSync)
  }

  function Verdict(c: Context, command: Command): CommandResult {
    var s, p := c.snap, c.snap.plan;
    match command
    case Waypoint(t) =>
      if s.mode != WaypointAuto || (s.state != Ready && s.state != Waiting) then InvalidState else RouteVerdict(p, t)
    case Go(route, waypoint) =>
      if s.state != Waiting then InvalidState
      else if !p.loaded then TargetNotLoaded
      else if !p.resumeAllowed then InvalidState
      else if route != p.target.route || waypoint != p.target.waypoint then TargetMismatch
      else if !(ALLOW_GO_WITHOUT_POSE || s.poseValid) then PoseRequired
      else Accepted
    case Wait(_, _, _) =>
      if s.state == Moving || s.state == Waiting then
        if WaitsElsewhere(p, command) then TargetMismatch else Accepted
      else if s.state == Ready then AlreadyStopped
      else InvalidState
    case Stop(_) => Accepted
    case Reset => if HoldReset(c) || IsLock(s.state) then Accepted else InvalidState
    case SetMode(_) => if s.state == Ready then Accepted else InvalidState
  }

  /** The waiting plan a WAIT leaves behind. */
  function WaitPlan(p: Plan, command: Command): Plan
    requires command.Wait?
  {
    if WaitsElsewhere(p, command) then p.(waitReason := RemoteWait, resumeAllowed := false)
    else p.(waitReason := command.reason, resumeAllowed := p.resumeAllowed && !NeedsNewWaypoint(command.reason))
  }

  /** Back to the waypoint mode with nothing loaded and nothing streaming. */
  function Disarm(c: Context): Context {
    RestartControlSeq(InvalidateDirect(ClearTarget(c.(snap := c.snap.(mode := WaypointAuto)))))
  }

  function LoadTarget(c: Context, t: Target): Context {
    Enter(SafeStop(c.(snap := c.snap.(plan := Plan(true, t, true, AwaitingStart)))), Waiting)
  }

  function StartMoving(c: Context): Context {
    Enter(c.(snap := c.snap.(plan := c.snap.plan.(waitReason := NoReason))), Moving)
  }

  function HaltAndWait(c: Context, command: Command): Context
    requires command.Wait?
  {
    var d := InvalidateDirect(SafeStop(c));
    if c.snap.state == Moving || c.snap.state == Waiting then
      Enter(d.(snap := d.snap.(plan := WaitPlan(d.snap.plan, command))), Waiting)
    else d
  }

  function ClearLock(c: Context): Context {
    var d := Disarm(SafeStop(c));
    var e := d.(snap := d.snap.(commTimeout := false, errorCode := ""));
    if HoldReset(c) then e else Enter(e, Ready)
  }

  function ChangeMode(c: Context, mode: Mode): Context {
    var d := InvalidateDirect(c.(snap := c.snap.(mode := mode)));
    if mode == RemoteDirect then RestartControlSeq(d) else d
  }

  /** What a fresh command does to the vehicle before it is recorded as processed. */
  function Perform(c: Context, command: Command): Context {
    if command.Wait? then HaltAndWait(c, command)
    else if Verdict(c, command) != Accepted then c
    else match command
      case Waypoint(t) => LoadTarget(c, t)
      case Go(_, _) => StartMoving(c)
      case Wait(_, _, _) => c
      case Stop(_) => c
      case Reset => ClearLock(c)
      case SetMode(mode) => ChangeMode(c, mode)
  }

  /** After a held vehicle was reset the handshake starts over, as from a ready vehicle. */
  function CloseHold(c: Context): Context {
    c.(preSync := Ready,
       snap := c.snap.(previousSession := c.snap.session, session := "", sessionActive := false, syncHold := false,
                       previousState := Ready))
  }

  /** A STOP takes effect before anything about it is checked. */
  function EmergencyHalt(c: Context): Context {
    Enter(InvalidateDirect(ClearTarget(SafeStop(c))), EmergencyStop)
  }

  function Process(c: Context, session: string, number: CommandSeq, command: Command): Context {
    var done := Finish(Perform(c, command), session, number, Outcome(command, Verdict(c, command)));
    if command.Reset? && HoldReset(c) then CloseHold(done) else done
  }

  function HandleReliable(c: Context, session: string, number: CommandSeq, command: Command): Context {
    var d := if command.Stop? then EmergencyHalt(c) else c;
    match Admit(d, session, number, command)
    case Bounced(result, rejected) => Queue(d, result, rejected)
    case Fresh => Process(d, session, number, command)
  }

  // --- the link ---

  function Connected(c: Context): Context {
    var d := SafeStop(c);
    var e := d.(preSync := d.snap.state,
                snap := d.snap.(previousSession := d.snap.session, sessionActive := false, syncHold := false, session := ""));
    Enter(Disarm(e), Syncing)
  }

  /** A lost link stops and disarms the vehicle; a lock, even one behind an open handshake, stays. */
  function Detach(c: Context): Context {
    var d := SafeStop(c);
    var e := InvalidateDirect(ClearTarget(d.(snap := d.snap.(commTimeout := true, sessionActive := false))));
    if IsLock(c.snap.state) then e
    else if c.snap.state == Syncing && IsLock(c.preSync) then Enter(e, c.preSync)
    else Enter(e, CommTimeout)
  }

  function LinkLost(c: Context): Context {
    Queue(Detach(c), NoResult, 0)
  }

  function FirstBefore(seqStart: nat): nat { if seqStart > 0 then seqStart - 1 else 0 }

  function OpenSession(c: Context, session: string, seqStart: nat): Context {
    c.(issued := c.issued + {session},
       snap := c.snap.(session := session, sessionActive := true, lastSeq := FirstBefore(seqStart)))
  }

  function StartSession(c: Context, session: string, seqStart: nat): Context {
    var d := Disarm(OpenSession(c, session, seqStart).(last := None));
    Enter(d.(snap := d.snap.(syncHold := false, commTimeout := false, errorCode := "")), Ready)
  }

  function HoldSession(c: Context, session: string, seqStart: nat): Context {
    var d := OpenSession(c, session, seqStart);
    d.(snap := d.snap.(syncHold := true))
  }

  function RejectSession(c: Context, why: string): Context {
    Enter(c.(snap := c.snap.(errorCode := if why != "" then why else "HELLO_REJECTED", sessionActive := false)), Error)
  }

  /** An answer meant for another boot locks the vehicle; it does not stop the motor. */
  function BootMismatch(c: Context): Context {
    Enter(c.(snap := c.snap.(errorCode := "BOOT_ID_MISMATCH")), Error)
  }

  /** The state a handshake answer leads to, and the result reported for it. */
  function HelloState(c: Context, m: Message): Context
    requires m.HelloAck?
  {
    if m.bootId != c.snap.bootId then BootMismatch(c)
    else if c.snap.state != Syncing || (m.verdict == ReadyAllowed && IsLock(c.preSync)) then c
    else match m.verdict
      case ReadyAllowed => StartSession(c, m.session, m.seqStart)
      case Hold => HoldSession(c, m.session, m.seqStart)
      case Rejected => RejectSession(c, m.why)
  }

  function HelloReply(c: Context, m: Message): CommandResult
    requires m.HelloAck?
  {
    if m.bootId != c.snap.bootId then ProtocolError
    else if c.snap.state != Syncing then InvalidState
    else match m.verdict
      case ReadyAllowed => if IsLock(c.preSync) then LockedState else Accepted
      case Hold => OnHold
      case Rejected => Refused
  }

  function HelloAnswer(c: Context, m: Message): Context
    requires m.HelloAck?
  {
    Queue(HelloState(c, m), HelloReply(c, m), 0)
  }

  // --- direct control ---

  predicate Drives(c: Context, d: DirectSlot) {
    && Matches(c, d.session)
    && c.snap.mode == RemoteDirect
    && (c.snap.state == Ready || c.snap.state == Moving || c.snap.state == Waiting)
    && d.controlSeq > c.appliedSeq
  }

  function Sign(throttle: real): int {
    if throttle > MOTOR_DEADBAND_THROTTLE then 1 else if throttle < -MOTOR_DEADBAND_THROTTLE then -1 else 0
  }

  /** The wheels are driven one way and have not turned since the episode started. */
  predicate StillStalled(s: Stall, sign: int, encoder: int) {
    sign != 0 && s.tracking && sign == s.sign && encoder == s.encoder
  }

  predicate Boosts(s: Stall, sign: int, encoder: int, now: nat, hz: nat) {
    && StillStalled(s, sign, encoder)
    && (if s.boostUntil != 0 && now < s.boostUntil then true
        else !s.used && now - s.motionTick >= Ticks(DIRECT_STALL_TIMEOUT_MS, hz))
  }

  function NextStall(s: Stall, sign: int, encoder: int, now: nat, hz: nat): Stall {
    if sign == 0 then s.(tracking := false, used := false, boostUntil := 0, sign := 0)
    else if !StillStalled(s, sign, encoder) then Stall(true, sign, encoder, now, 0, false)
    else if Boosts(s, sign, encoder, now, hz) && !(s.boostUntil != 0 && now < s.boostUntil) then
      s.(used := true, boostUntil := now + Ticks(DIRECT_STALL_BOOST_MS, hz))
    else s
  }

  function AppliedOutput(c: Context, d: DirectSlot, now: nat, encoder: int): Output {
    Drive(d.throttle, d.steering, if Boosts(c.stall, Sign(d.throttle), encoder, now, c.hz) then STALL_BOOST_PWM else 0)
  }

  /** Sequence number, stall episode and time of an applied command are noted. */
  function Noted(c: Context, d: DirectSlot, now: nat, encoder: int): Context {
    var sign := Sign(d.throttle);
    c.(appliedSeq := d.controlSeq,
       stall := NextStall(c.stall, sign, encoder, now, c.hz),
       applied := c.applied + [Applied(now, encoder, sign, Boosts(c.stall, sign, encoder, now, c.hz))],
       since := if StillStalled(c.stall, sign, encoder) then c.since else |c.applied|,
       lastTick := now, directActive := true)
  }

  /** The command is noted and put out; the vehicle's state is not yet touched. */
  function Driven(c: Context, d: DirectSlot, now: nat, encoder: int): Context {
    var n, out := Noted(c, d, now, encoder), AppliedOutput(c, d, now, encoder);
    n.(pins := Pins(out.pwm, out.direction, out.servo),
       snap := n.snap.(latestControlSeq := d.controlSeq, output := out, plan := n.snap.plan.(waitReason := NoReason)))
  }

  function ApplyDirect(c: Context, d: DirectSlot, now: nat, encoder: int): Context {
    if !Drives(c, d) then c
    else
      var driven := Driven(c, d, now, encoder);
      var next := if driven.pins.duty > 0 then Moving else if c.snap.state == Moving then Ready else c.snap.state;
      if next != c.snap.state then Queue(Enter(driven, next), NoResult, 0) else driven
  }

  /** Take the value from the slot, if there is one, and apply it. */
  function TakeDirect(c: Context, now: nat, encoder: int): Context {
    var d := c.(slot := None, clock := now);
    if c.slot.None? then d else ApplyDirect(d, c.slot.value, now, encoder)
  }

  predicate DirectExpired(c: Context, now: nat) {
    && c.snap.mode == RemoteDirect && c.snap.state == Moving && c.directActive && c.lastTick != 0
    && now - c.lastTick >= Ticks(DIRECT_CONTROL_TIMEOUT_MS, c.hz)
  }

  function CheckTimeout(c: Context, now: nat): Context {
    if !DirectExpired(c, now) then c.(clock := now)
    else
      var d := InvalidateDirect(SafeStop(c.(clock := now)));
      var e := d.(snap := d.snap.(plan := d.snap.plan.(waitReason := DirectControlTimeout, resumeAllowed := false)));
      Queue(Enter(e, Waiting), NoResult, 0)
  }

  function Periodic(c: Context): Context {
    if c.snap.sessionActive then Queue(c, NoResult, 0) else c
  }

  // --- runs ---

  datatype Event =
    | TcpConnected
    | TcpDown
    | HeartbeatTimeout
    | Receive(message: Message)
    | UseDirect(now: nat, encoder: int)
    | TimeoutCheck(now: nat)
    | StatusDue

  function Step(c: Context, ev: Event): Context {
    match ev
    case TcpConnected => Connected(c)
    case TcpDown => LinkLost(c)
    case HeartbeatTimeout => LinkLost(c)
    case Receive(m) =>
      (match m
       case HelloAck(_, _, _, _, _) => HelloAnswer(c, m)
       case Reliable(session, number, command) => HandleReliable(c, session, number, command)
       case DirectControl(slot) => c.(slot := Some(slot)))
    case UseDirect(now, encoder) => TakeDirect(c, now, encoder)
    case TimeoutCheck(now) => CheckTimeout(c, now)
    case StatusDue => Periodic(c)
  }

  /** The state after start-up, before Wi-Fi is up. */
  function PowerOn(bootId: string, hz: nat): Context {
    Context(Snapshot(WifiConnecting, Boot, WaypointAuto, false, false, false, false, NO_PLAN, 0, 0, 0,
                     STOPPED, "", "", "", bootId),
            Boot, None, None, 0, 0, false, NO_STALL, IDLE, hz, [], [], [], 0, {}, 0)
  }

  function Steps(c: Context, events: seq<Event>): Context
    decreases |events|
  {
    if |events| == 0 then c else Step(Steps(c, events[..|events| - 1]), events[|events| - 1])
  }

  function Run(bootId: string, hz: nat, events: seq<Event>): Context {
    Steps(PowerOn(bootId, hz), events)
  }

  /**
   Ticks start at 1 and never run backwards. A session-opening answer brings an id not used before, except that a
   hold may leave the id empty; commands name a session.
   */
  predicate Plausible(c: Context, ev: Event) {
    match ev
    case Receive(HelloAck(_, session, _, verdict, _)) =>
      verdict != Rejected ==> (session !in c.issued && session != "") || (verdict == Hold && session == "")
    case Receive(Reliable(session, _, _)) => session != ""
    case UseDirect(now, _) => now >= 1 && now >= c.clock
    case TimeoutCheck(now) => now >= 1 && now >= c.clock
    case _ => true
  }

  predicate PlausibleRun(bootId: string, hz: nat, events: seq<Event>) {
    forall i :: 0 <= i < |events| ==> Plausible(Run(bootId, hz, events[..i]), events[i])
  }

  /** The host echoes the vehicle's own boot id, as it does. */
  predicate Echoed(bootId: string, ev: Event) {
    ev.Receive? && ev.message.HelloAck? ==> ev.message.bootId == bootId
  }
}
