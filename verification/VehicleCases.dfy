/** Two runs that show why the safety results assume what they assume about the host and the link. */
module VehicleCases {
  import opened Options
  import opened VehicleTypes
  import opened Actuator
  import opened VehicleSpec
  import opened VehicleSafety
  import opened VehicleControl

  function AnswerFrom(bootId: string, session: string): Message {
    HelloAck(bootId, session, 1, ReadyAllowed, "")
  }

  const EMERGENCY := Reliable("Z", 1, Stop("EMERGENCY"))
  const ENTER_DIRECT := Reliable("S", 1, SetMode(RemoteDirect))
  const FULL_AHEAD := DirectControl(DirectSlot("S", 1, 1.0, 0.0))

  // --- what single steps do ---

  /** Nothing drives and nothing waits to be applied. */
  ghost predicate Standing(c: Context, tick: nat) {
    && c.snap.state != Moving && c.slot == None && c.clock <= tick
    && c.snap.bootId == "B" && c.hz == 100 && "T" !in c.issued
  }

  /** In a handshake that no session has answered yet; `pre` is the state before the connection. */
  ghost predicate Greeting(c: Context, pre: State, tick: nat) {
    Standing(c, tick) && c.snap.state == Syncing && c.preSync == pre && c.issued == {}
  }

  /** A vehicle that was just told it is ready, in session S. */
  ghost predicate Opened(c: Context, tick: nat) {
    Standing(c, tick) && c.snap.state == Ready && Matches(c, "S") && c.snap.lastSeq == 0
  }

  ghost predicate Armed(c: Context, tick: nat) {
    Standing(c, tick) && c.snap.state == Ready && Matches(c, "S") && c.snap.mode == RemoteDirect && c.appliedSeq == 0
  }

  ghost predicate Driving(c: Context, tick: nat) {
    && c.pins.duty > 0 && c.snap.state == Moving && c.clock == c.lastTick == tick && c.hz == 100
    && c.snap.bootId == "B" && "T" !in c.issued
  }

  lemma ConnectionGreets(c: Context, tick: nat)
    requires c.clock <= tick && c.issued == {} && c.snap.bootId == "B" && c.hz == 100
    ensures Greeting(Connected(c), c.snap.state, tick)
  {
  }

  ghost predicate SameVehicle(c: Context, d: Context) {
    d.clock == c.clock && d.issued == c.issued && d.snap.bootId == c.snap.bootId && d.hz == c.hz
  }

  lemma LossKeepsLock(c: Context)
    requires IsLock(c.snap.state)
    ensures var d := LinkLost(c);
      d.snap.state == c.snap.state && SameVehicle(c, d)
  {
  }

  lemma StopLocksAlways(c: Context, session: string, number: CommandSeq, command: Command)
    requires command.Stop? && !c.snap.sessionActive
    ensures var d := HandleReliable(c, session, number, command);
      d.snap.state == EmergencyStop && SameVehicle(c, d)
  {
    BouncedRecordsNothing(c, session, number, command);
  }

  lemma AnswerOpens(c: Context, pre: State, tick: nat)
    requires Greeting(c, pre, tick) && !IsLock(pre)
    ensures Opened(Step(c, Receive(AnswerFrom("B", "S"))), tick)
  {
    hide HandleReliable, Connected, LinkLost, TakeDirect, CheckTimeout, HoldSession, RejectSession;
  }

  lemma BecomesDirect(c: Context, tick: nat)
    requires Opened(c, tick)
    ensures Armed(Step(c, Receive(ENTER_DIRECT)), tick)
  {
    var d := Perform(c, SetMode(RemoteDirect));
    assert d.snap.mode == RemoteDirect && d.appliedSeq == 0;
  }

  lemma DrivesOff(c: Context, tick: nat)
    requires Armed(c, tick)
    ensures Driving(Step(Step(c, Receive(FULL_AHEAD)), UseDirect(tick, 0)), tick)
  {
    hide Drive, Boosts, NextStall;
    var e := Step(c, Receive(FULL_AHEAD));
    var boost := if Boosts(e.stall, 1, 0, tick, e.hz) then STALL_BOOST_PWM else 0;
    assert Sign(1.0) == 1;
    TurnsTheMotor(boost);
  }

  lemma TurnsTheMotor(minPwm: nat)
    requires minPwm == 0 || minPwm == STALL_BOOST_PWM
    ensures Drive(1.0, 0.0, minPwm).pwm > 0
  {
    hide Drive, ThrottleToDuty;
    DriveDuty(1.0, 0.0);
    DutyRange(1.0, 0.0);
  }

  lemma TimersIdle(c: Context, tick: nat)
    requires Standing(c, tick)
    ensures Step(c, UseDirect(tick, 0)) == Step(c, TimeoutCheck(tick)) == c.(clock := tick)
  {
    hide HandleReliable, HelloAnswer;
  }

  // --- runs ---

  /** Appending one plausible event to a plausible run. */
  lemma Then(events: seq<Event>, ev: Event) returns (more: seq<Event>)
    requires PlausibleRun("B", 100, events) && Plausible(Run("B", 100, events), ev)
    ensures more == events + [ev] && PlausibleRun("B", 100, more)
    ensures Run("B", 100, more) == Step(Run("B", 100, events), ev)
  {
    more := events + [ev];
    RunSnoc("B", 100, events, ev);
    PlausibleSnoc("B", 100, events, ev);
  }

  /** The end of a pass that finds nothing to apply and nothing to stop. */
  lemma ThenTimers(events: seq<Event>, tick: nat) returns (more: seq<Event>)
    requires PlausibleRun("B", 100, events) && Standing(Run("B", 100, events), tick) && tick >= 1
    ensures more == events + [UseDirect(tick, 0), TimeoutCheck(tick)] && PlausibleRun("B", 100, more)
    ensures Run("B", 100, more) == Run("B", 100, events).(clock := tick)
  {
    hide Run, PlausibleRun, Step;
    var c := Run("B", 100, events);
    TimersIdle(c, tick);
    TimersIdle(c.(clock := tick), tick);
    var used := Then(events, UseDirect(tick, 0));
    more := Then(used, TimeoutCheck(tick));
  }

  lemma NothingYet()
    ensures PlausibleRun("B", 100, []) && Run("B", 100, []) == PowerOn("B", 100)
  {
  }

  // --- another boot id in the middle of a drive ---

  lemma DriveOff(armed: seq<Event>, tick: nat) returns (driving: seq<Event>)
    requires PlausibleRun("B", 100, armed) && Armed(Run("B", 100, armed), tick) && tick >= 1
    ensures driving == armed + [Receive(FULL_AHEAD), UseDirect(tick, 0)]
    ensures PlausibleRun("B", 100, driving) && Driving(Run("B", 100, driving), tick)
  {
    hide Run, PlausibleRun, HandleReliable, HelloAnswer, ApplyDirect, Driving;
    DrivesOff(Run("B", 100, armed), tick);
    var fed := Then(armed, Receive(FULL_AHEAD));
    driving := Then(fed, UseDirect(tick, 0));
  }

  lemma OpenAndArm(greeting: seq<Event>, pre: State, tick: nat) returns (armed: seq<Event>)
    requires PlausibleRun("B", 100, greeting) && Greeting(Run("B", 100, greeting), pre, tick) && !IsLock(pre)
    ensures armed == greeting + [Receive(AnswerFrom("B", "S")), Receive(ENTER_DIRECT)]
    ensures PlausibleRun("B", 100, armed) && Armed(Run("B", 100, armed), tick)
  {
    hide Run, PlausibleRun, Step, Opened, Armed;
    AnswerOpens(Run("B", 100, greeting), pre, tick);
    var answered := Then(greeting, Receive(AnswerFrom("B", "S")));
    BecomesDirect(Run("B", 100, answered), tick);
    armed := Then(answered, Receive(ENTER_DIRECT));
  }

  /** The commands and link events that can stop a vehicle locked in ERROR. */
  predicate CanHalt(ev: Event) {
    ev.TcpConnected? || ev.TcpDown? || ev.HeartbeatTimeout?
    || (ev.Receive? && ev.message.Reliable?
        && (ev.message.command.Stop? || ev.message.command.Wait? || ev.message.command.Reset?))
  }

  /**
   A handshake answer for another boot id, in the middle of a drive, locks the vehicle with the motor still turning.
   Whatever follows, other than a STOP, a WAIT, a RESET or a link event, leaves it turning and the vehicle locked.
   */
  lemma MismatchLeavesMotorTurning(later: seq<Event>) returns (events: seq<Event>)
    requires forall i :: 0 <= i < |later| ==> !CanHalt(later[i])
    ensures PlausibleRun("B", 100, events)
    ensures var c := Run("B", 100, events);
      c.snap.state == Error && c.pins.duty > 0 && Steps(c, later).pins == c.pins && Steps(c, later).snap.state == Error
  {
    hide Run, Steps, PlausibleRun, Step, Connected;
    NothingYet();
    ConnectionGreets(PowerOn("B", 100), 1);
    LinkSteps(PowerOn("B", 100));
    var connected := Then([], TcpConnected);
    var armed := OpenAndArm(connected, WifiConnecting, 1);
    var driving := DriveOff(armed, 1);
    MismatchLocks(Run("B", 100, driving), 1, "T");
    events := Then(driving, Receive(AnswerFrom("C", "T")));
    ErrorTurnsOn(Run("B", 100, events), later);
  }

  lemma MismatchLocks(c: Context, tick: nat, session: string)
    requires Driving(c, tick)
    ensures var d := Step(c, Receive(AnswerFrom("C", session))); d.snap.state == Error && d.pins == c.pins
  {
  }

  lemma {:induction false} ErrorTurnsOn(c: Context, later: seq<Event>)
    requires c.snap.state == Error && forall i :: 0 <= i < |later| ==> !CanHalt(later[i])
    ensures Steps(c, later).pins == c.pins && Steps(c, later).snap.state == Error
    decreases |later|
  {
    hide Step, CanHalt;
    if |later| > 0 {
      var front := later[..|later| - 1];
      ErrorTurnsOn(c, front);
      ErrorStepTurnsOn(Steps(c, front), later[|later| - 1]);
    }
  }

  lemma ErrorStepTurnsOn(c: Context, ev: Event)
    requires c.snap.state == Error && !CanHalt(ev)
    ensures Step(c, ev).pins == c.pins && Step(c, ev).snap.state == Error
  {
    hide Drive, HandleReliable, HelloAnswer, LinkLost, Connected;
    if ev.Receive? && ev.message.Reliable? {
      ErrorRefuses(c, ev.message.session, ev.message.number, ev.message.command);
    } else if ev.Receive? && ev.message.HelloAck? {
      ErrorIgnoresAnswer(c, ev.message);
    }
  }

  lemma ErrorRefuses(c: Context, session: string, number: CommandSeq, command: Command)
    requires c.snap.state == Error && !command.Stop? && !command.Wait? && !command.Reset?
    ensures var d := HandleReliable(c, session, number, command); d.pins == c.pins && d.snap.state == Error
  {
    hide Admit, LoadTarget, StartMoving, ChangeMode;
    assert Verdict(c, command) == InvalidState;
  }

  lemma ErrorIgnoresAnswer(c: Context, m: Message)
    requires c.snap.state == Error && m.HelloAck?
    ensures var d := HelloAnswer(c, m); d.pins == c.pins && d.snap.state == Error
  {
    hide StartSession, HoldSession, RejectSession;
  }

  // --- a loss handled before the connection it ended ---

  /** A pass that finds link notices, at tick t, and one that finds queued commands. */
  function LinkPass(stop: Option<Message>, down: bool, tick: nat): seq<Event> {
    PassEvents(Notices(stop.Some?, false, down, true, false), stop, None, [], Readings(tick, 0, tick), false)
  }

  function CommandPass(queue: seq<Message>, tick: nat): seq<Event> {
    PassEvents(NO_NOTICE, None, None, queue, Readings(tick, 0, tick), false)
  }

  lemma PassesAre(tick: nat, m: Message)
    ensures LinkPass(Some(m), true, tick) == [Receive(m), TcpDown, TcpConnected, UseDirect(tick, 0), TimeoutCheck(tick)]
    ensures LinkPass(None, false, tick) == [TcpConnected, UseDirect(tick, 0), TimeoutCheck(tick)]
    ensures CommandPass([m], tick) == [Receive(m), UseDirect(tick, 0), TimeoutCheck(tick)]
    ensures CommandPass([], tick) == [UseDirect(tick, 0), TimeoutCheck(tick)]
  {
    assert Received([m]) == [Receive(m)] && [m][..1] == [m];
  }

  lemma StoppedAndReconnected() returns (events: seq<Event>)
    ensures events == LinkPass(Some(EMERGENCY), true, 1)
    ensures PlausibleRun("B", 100, events) && Greeting(Run("B", 100, events), EmergencyStop, 1)
  {
    hide Run, PlausibleRun, HandleReliable, Connected, LinkLost, LinkPass;
    NothingYet();
    var start := PowerOn("B", 100);
    StopLocksAlways(start, "Z", 1, EMERGENCY.command);
    var stopped := Then([], Receive(EMERGENCY));
    LossKeepsLock(Run("B", 100, stopped));
    LinkSteps(Run("B", 100, stopped));
    var lost := Then(stopped, TcpDown);
    ConnectionGreets(Run("B", 100, lost), 1);
    LinkSteps(Run("B", 100, lost));
    var connected := Then(lost, TcpConnected);
    events := ThenTimers(connected, 1);
    PassesAre(1, EMERGENCY);
  }

  lemma ConnectedAgain(before: seq<Event>) returns (events: seq<Event>)
    requires PlausibleRun("B", 100, before) && Greeting(Run("B", 100, before), EmergencyStop, 1)
    ensures events == before + LinkPass(None, false, 2)
    ensures PlausibleRun("B", 100, events) && Greeting(Run("B", 100, events), Syncing, 2)
  {
    hide Run, PlausibleRun, Connected, LinkPass, Step;
    ConnectionGreets(Run("B", 100, before), 2);
    LinkSteps(Run("B", 100, before));
    var connected := Then(before, TcpConnected);
    events := ThenTimers(connected, 2);
    PassesAre(2, EMERGENCY);
  }

  lemma OpenedAndArmed(before: seq<Event>) returns (events: seq<Event>)
    requires PlausibleRun("B", 100, before) && Greeting(Run("B", 100, before), Syncing, 2)
    ensures events == before + CommandPass([AnswerFrom("B", "S")], 3) + CommandPass([ENTER_DIRECT], 4)
    ensures PlausibleRun("B", 100, events) && Armed(Run("B", 100, events), 4)
  {
    hide Run, PlausibleRun, Step, CommandPass;
    var answer := AnswerFrom("B", "S");
    AnswerOpens(Run("B", 100, before), Syncing, 3);
    var answered := Then(before, Receive(answer));
    var ready := ThenTimers(answered, 3);
    BecomesDirect(Run("B", 100, ready), 4);
    var entered := Then(ready, Receive(ENTER_DIRECT));
    events := ThenTimers(entered, 4);
    PassesAre(3, answer);
    PassesAre(4, ENTER_DIRECT);
  }

  lemma FreshDriveStays(c: Context, tick: nat)
    requires Driving(c, tick)
    ensures Step(c, TimeoutCheck(tick)).pins == c.pins
  {
    assert Ticks(DIRECT_CONTROL_TIMEOUT_MS, 100) == 50;
    hide Ticks, HandleReliable, HelloAnswer;
  }

  lemma CheckedDrive(before: seq<Event>) returns (events: seq<Event>)
    requires PlausibleRun("B", 100, before) && Armed(Run("B", 100, before), 5)
    ensures events == before + [Receive(FULL_AHEAD)] + CommandPass([], 5)
    ensures PlausibleRun("B", 100, events) && Run("B", 100, events).pins.duty > 0
  {
    hide Run, PlausibleRun, CommandPass, Step;
    var driving := DriveOff(before, 5);
    FreshDriveStays(Run("B", 100, driving), 5);
    events := Then(driving, TimeoutCheck(5));
    PassesAre(5, EMERGENCY);
  }

  predicate IsReset(ev: Event) { ev.Receive? && ev.message.Reliable? && ev.message.command.Reset? }

  /**
   A pass that finds a STOP, the loss of a connection and that connection itself handles the loss first. If the next
   pass finds another connection, the emergency stop is forgotten: a host that opens a session, enters the direct mode
   and sends a value then drives the vehicle, although no RESET was ever sent.
   */
  lemma OvertakenLossForgetsStop() returns (events: seq<Event>)
    ensures events == LinkPass(Some(EMERGENCY), true, 1) + LinkPass(None, false, 2)
                      + CommandPass([AnswerFrom("B", "S")], 3) + CommandPass([ENTER_DIRECT], 4)
                      + [Receive(FULL_AHEAD)] + CommandPass([], 5)
    ensures PlausibleRun("B", 100, events) && Run("B", 100, events).pins.duty > 0
    ensures forall i :: 0 <= i < |events| ==> !IsReset(events[i])
  {
    hide Run, PlausibleRun;
    var stopped := StoppedAndReconnected();
    var again := ConnectedAgain(stopped);
    var armed := OpenedAndArmed(again);
    events := CheckedDrive(armed);
    PassesAre(1, EMERGENCY);
    PassesAre(2, EMERGENCY);
    PassesAre(3, AnswerFrom("B", "S"));
    PassesAre(4, ENTER_DIRECT);
    PassesAre(5, EMERGENCY);
  }
}
