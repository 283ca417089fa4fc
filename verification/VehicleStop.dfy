/** How the motor can turn again after a STOP or a lost link: only through a fixed sequence of deliberate steps. */
module VehicleStop {
  import opened Options
  import opened VehicleTypes
  import opened Actuator
  import opened VehicleSpec
  import opened VehicleSafety

  ghost predicate IsStop(ev: Event) {
    ev.Receive? && ev.message.Reliable? && ev.message.command.Stop?
  }

  ghost predicate IsLinkLoss(ev: Event) {
    ev.TcpDown? || ev.HeartbeatTimeout?
  }

  /** The event makes the vehicle process and accept this command. */
  ghost predicate Accepts(c: Context, ev: Event, command: Command) {
    && ev.Receive? && ev.message.Reliable? && ev.message.command == command
    && Step(c, ev).effects == c.effects + [Effect(ev.message.session, ev.message.number, command, Accepted)]
  }

  /** The event applies a direct command. */
  ghost predicate AppliesDirect(c: Context, ev: Event) {
    ev.UseDirect? && c.slot.Some? && Drives(c.(slot := None, clock := ev.now), c.slot.value)
  }

  // --- what each stage keeps ---

  ghost predicate Locked(c: Context) {
    c.pins.duty == 0 && (IsLock(c.snap.state) || (c.snap.state == Syncing && IsLock(c.preSync)))
  }

  ghost predicate Disarmed(c: Context) {
    c.pins.duty == 0 && c.snap.mode != RemoteDirect
  }

  ghost predicate Detached(c: Context) {
    && c.pins.duty == 0 && !c.snap.sessionActive
    && (IsLock(c.snap.state) || c.snap.state == CommTimeout)
  }

  lemma StopLocks(c: Context, ev: Event)
    requires IsStop(ev)
    ensures Locked(Step(c, ev))
  {
    hide Queue, Verdict, InvalidateDirect;
    HaltLocks(c);
    QueueKeepsState(EmergencyHalt(c), NoResult, 0);
    if Admit(EmergencyHalt(c), ev.message.session, ev.message.number, ev.message.command).Fresh? {
      StopProcessed(EmergencyHalt(c), ev.message.session, ev.message.number, ev.message.command);
    } else {
      var a := Admit(EmergencyHalt(c), ev.message.session, ev.message.number, ev.message.command);
      QueueKeepsState(EmergencyHalt(c), a.result, a.rejected);
    }
  }

  lemma HaltLocks(c: Context)
    ensures EmergencyHalt(c).snap.state == EmergencyStop && EmergencyHalt(c).pins.duty == 0
  {
  }

  ghost predicate SameDriving(c: Context, d: Context) {
    d.snap.state == c.snap.state && d.snap.mode == c.snap.mode && d.pins == c.pins && d.preSync == c.preSync
    && d.snap.sessionActive == c.snap.sessionActive
  }

  lemma QueueKeepsState(c: Context, r: CommandResult, rejected: nat)
    ensures SameDriving(c, Queue(c, r, rejected))
  {
  }

  // --- events other than commands and handshake answers ---

  predicate IsPlain(ev: Event) { !(ev.Receive? && (ev.message.Reliable? || ev.message.HelloAck?)) }

  lemma ConnectionStops(c: Context)
    ensures var d := Connected(c);
      d.pins == IDLE && d.snap.state == Syncing && d.preSync == c.snap.state && d.snap.mode == WaypointAuto
  {
  }

  /** The state after a lost link: the lock, even one behind an open handshake, or COMM_TIMEOUT. */
  function StateAfterLoss(c: Context): State {
    if IsLock(c.snap.state) then c.snap.state
    else if c.snap.state == Syncing && IsLock(c.preSync) then c.preSync
    else CommTimeout
  }

  lemma LossStops(c: Context)
    ensures var d := LinkLost(c);
      && d.pins == IDLE && !d.snap.sessionActive && d.snap.state == StateAfterLoss(c)
      && d.preSync == c.preSync && d.snap.mode == c.snap.mode
  {
    hide Queue;
    DetachStops(c);
    QueueKeepsState(Detach(c), NoResult, 0);
  }

  lemma DetachStops(c: Context)
    ensures var d := Detach(c);
      && d.pins == IDLE && !d.snap.sessionActive && d.snap.state == StateAfterLoss(c)
      && d.preSync == c.preSync && d.snap.mode == c.snap.mode
  {
  }

  lemma ApplyingDrives(c: Context, d: DirectSlot, now: nat, encoder: int)
    ensures var e := ApplyDirect(c, d, now, encoder);
      && (Drives(c, d) || e == c)
      && e.snap.mode == c.snap.mode && e.snap.sessionActive == c.snap.sessionActive && e.preSync == c.preSync
      && (e.snap.state == c.snap.state || e.snap.state == Moving || e.snap.state == Ready)
  {
    hide Queue, Drives;
    var driven := Driven(c, d, now, encoder);
    QueueKeepsState(Enter(driven, Moving), NoResult, 0);
    QueueKeepsState(Enter(driven, Ready), NoResult, 0);
    DrivenKeepsState(c, d, now, encoder);
    hide Driven;
  }

  lemma DrivenKeepsState(c: Context, d: DirectSlot, now: nat, encoder: int)
    ensures var e := Driven(c, d, now, encoder);
      e.snap.state == c.snap.state && e.snap.mode == c.snap.mode && e.snap.sessionActive == c.snap.sessionActive
      && e.preSync == c.preSync
  {
    hide AppliedOutput, NextStall, Boosts;
  }

  lemma CheckingStops(c: Context, now: nat)
    ensures var d := CheckTimeout(c, now);
      && d.snap.mode == c.snap.mode && d.snap.sessionActive == c.snap.sessionActive && d.preSync == c.preSync
      && ((d.snap.state == c.snap.state && d.pins == c.pins)
          || (c.snap.state == Moving && d.snap.state == Waiting && d.pins == IDLE))
  {
    hide Queue, Ticks;
    var d := InvalidateDirect(SafeStop(c.(clock := now)));
    var plan := d.snap.plan.(waitReason := DirectControlTimeout, resumeAllowed := false);
    QueueKeepsState(Enter(d.(snap := d.snap.(plan := plan)), Waiting), NoResult, 0);
  }

  /** What an event that is neither a command nor a handshake answer does to outputs, mode and locks. */
  lemma PlainStep(c: Context, ev: Event)
    requires IsPlain(ev)
    ensures var d := Step(c, ev);
      && (ev.TcpConnected? ==>
            d.pins == IDLE && d.snap.state == Syncing && d.preSync == c.snap.state && d.snap.mode == WaypointAuto)
      && (IsLinkLoss(ev) ==>
            d.pins == IDLE && !d.snap.sessionActive && d.snap.state == StateAfterLoss(c) && d.preSync == c.preSync)
      && (!ev.TcpConnected? ==> d.snap.mode == c.snap.mode)
      && (!ev.TcpConnected? && !IsLinkLoss(ev) ==>
            && d.snap.sessionActive == c.snap.sessionActive && d.preSync == c.preSync
            && (AppliesDirect(c, ev) || d.pins == c.pins || d.pins == IDLE)
            && (d.snap.state == c.snap.state || d.snap.state in {Moving, Ready, Waiting})
            && (d.snap.state == c.snap.state || AppliesDirect(c, ev) || c.snap.state == Moving))
  {
    hide HandleReliable, HelloAnswer, Connected, LinkLost, ApplyDirect, CheckTimeout, Queue, Drives, StateAfterLoss;
    match ev
    case TcpConnected => ConnectionStops(c);
    case TcpDown => LossStops(c);
    case HeartbeatTimeout => LossStops(c);
    case Receive(_) =>
    case UseDirect(now, encoder) =>
      if c.slot.Some? {
        ApplyingDrives(c.(slot := None, clock := now), c.slot.value, now, encoder);
      }
    case TimeoutCheck(now) => CheckingStops(c, now);
    case StatusDue => QueueKeepsState(c, NoResult, 0);
  }

  // --- the stages ---

  lemma StopProcessed(c: Context, session: string, number: CommandSeq, command: Command)
    requires command.Stop?
    ensures SameDriving(c, Process(c, session, number, command))
  {
  }

  lemma LockedCommand(c: Context, command: Command)
    requires Locked(c)
    ensures Verdict(c, command) == Accepted ==> command.Stop? || command.Reset?
    ensures !command.Reset? ==> Locked(Perform(c, command))
    ensures Disarmed(ClearLock(c))
  {
    hide HaltAndWait, LoadTarget, StartMoving, ChangeMode, ClearLock, RouteVerdict, HoldReset, Disarmed, WaitsElsewhere;
    ClearLockDisarms(c);
    if command.Wait? {
      LockedWait(c, command);
    }
  }

  lemma ClearLockDisarms(c: Context)
    ensures Disarmed(ClearLock(c))
  {
  }

  lemma LockedWait(c: Context, command: Command)
    requires Locked(c) && command.Wait?
    ensures Locked(HaltAndWait(c, command))
  {
  }

  lemma DisarmedCommand(c: Context, command: Command)
    requires Disarmed(c)
    ensures (Verdict(c, command) == Accepted && command == SetMode(RemoteDirect)) || Disarmed(Perform(c, command))
  {
  }

  lemma IdleCommand(c: Context, command: Command)
    requires c.pins.duty == 0
    ensures Perform(c, command).pins.duty == 0 && EmergencyHalt(c).pins.duty == 0
  {
  }

  /** Processing a command leaves the outputs, the mode and any lock as `Perform` has set them. */
  lemma ProcessDriving(c: Context, session: string, number: CommandSeq, command: Command)
    ensures var p, e := Perform(c, command), Process(c, session, number, command);
      && e.pins == p.pins && e.snap.mode == p.snap.mode
      && (!(command.Reset? && HoldReset(c)) ==> SameDriving(p, e))
      && e.effects == c.effects + [Effect(session, number, command, Verdict(c, command))]
  {
    hide Perform, Verdict, HoldReset;
    PerformKeepsRecord(c, command);
  }

  lemma LockedKept(c: Context, ev: Event)
    requires Locked(c) && (ev.TcpConnected? ==> c.snap.state != Syncing)
    ensures Accepts(c, ev, Reset) || Locked(Step(c, ev))
    ensures Accepts(c, ev, Reset) ==> Disarmed(Step(c, ev))
  {
    if ev.Receive? && ev.message.Reliable? {
      LockedHandle(c, ev.message.session, ev.message.number, ev.message.command);
    } else if ev.Receive? && ev.message.HelloAck? {
      LockedHello(c, ev.message);
    } else {
      LockedOther(c, ev);
    }
  }

  lemma LockedHandle(c: Context, session: string, number: CommandSeq, command: Command)
    requires Locked(c)
    ensures var ev := Receive(Reliable(session, number, command));
      if Accepts(c, ev, Reset) then Disarmed(Step(c, ev)) else Locked(Step(c, ev))
  {
    hide Queue, Perform, Verdict, ClearLock, Disarm, Process, HoldReset;
    var ev := Receive(Reliable(session, number, command));
    if command.Stop? {
      StopLocks(c, ev);
    } else if Admit(c, session, number, command).Bounced? {
      BouncedRecordsNothing(c, session, number, command);
      QueueKeepsState(c, Admit(c, session, number, command).result, Admit(c, session, number, command).rejected);
    } else {
      ProcessDriving(c, session, number, command);
      LockedCommand(c, command);
      assert Step(c, ev).effects[|c.effects|].result == Verdict(c, command);
      if command.Reset? {
        LockedReset(c);
      }
    }
  }

  lemma LockedReset(c: Context)
    requires Locked(c)
    ensures Verdict(c, Reset) == Accepted ==> Perform(c, Reset) == ClearLock(c)
    ensures Verdict(c, Reset) != Accepted ==> Perform(c, Reset) == c && !HoldReset(c)
  {
  }

  lemma LockedHello(c: Context, m: Message)
    requires Locked(c) && m.HelloAck?
    ensures Locked(HelloAnswer(c, m))
  {
    hide Queue, StartSession, HelloReply;
    QueueKeepsState(HelloState(c, m), HelloReply(c, m), 0);
  }

  lemma LockedOther(c: Context, ev: Event)
    requires Locked(c) && (ev.TcpConnected? ==> c.snap.state != Syncing) && IsPlain(ev)
    ensures Locked(Step(c, ev))
  {
    hide Step;
    PlainStep(c, ev);
  }

  lemma DisarmedKept(c: Context, ev: Event)
    requires Disarmed(c)
    ensures Accepts(c, ev, SetMode(RemoteDirect)) || Disarmed(Step(c, ev))
  {
    if ev.Receive? && ev.message.Reliable? {
      DisarmedHandle(c, ev.message.session, ev.message.number, ev.message.command);
    } else if ev.Receive? && ev.message.HelloAck? {
      DisarmedHello(c, ev.message);
    } else {
      DisarmedOther(c, ev);
    }
  }

  lemma DisarmedHandle(c: Context, session: string, number: CommandSeq, command: Command)
    requires Disarmed(c)
    ensures var ev := Receive(Reliable(session, number, command));
      Accepts(c, ev, SetMode(RemoteDirect)) || Disarmed(Step(c, ev))
  {
    hide Queue, Perform, Verdict, Process, EmergencyHalt;
    var d := if command.Stop? then EmergencyHalt(c) else c;
    HaltKeepsRecord(c);
    HaltKeepsMode(c);
    if Admit(d, session, number, command).Bounced? {
      QueueKeepsState(d, Admit(d, session, number, command).result, Admit(d, session, number, command).rejected);
    } else {
      ProcessDriving(d, session, number, command);
      DisarmedCommand(d, command);
    }
  }

  lemma HaltKeepsMode(c: Context)
    ensures EmergencyHalt(c).snap.mode == c.snap.mode && EmergencyHalt(c).pins.duty == 0
  {
  }

  lemma DisarmedSession(c: Context, session: string, seqStart: nat, why: string)
    requires Disarmed(c)
    ensures Disarmed(StartSession(c, session, seqStart)) && Disarmed(HoldSession(c, session, seqStart))
    ensures Disarmed(RejectSession(c, why)) && Disarmed(BootMismatch(c))
  {
  }

  lemma DisarmedHello(c: Context, m: Message)
    requires Disarmed(c) && m.HelloAck?
    ensures Disarmed(HelloAnswer(c, m))
  {
    hide StartSession, HoldSession, RejectSession, BootMismatch, HelloReply;
    DisarmedSession(c, m.session, m.seqStart, m.why);
  }

  lemma DisarmedOther(c: Context, ev: Event)
    requires Disarmed(c) && IsPlain(ev)
    ensures Disarmed(Step(c, ev))
  {
    hide Step;
    PlainStep(c, ev);
  }

  lemma IdleKept(c: Context, ev: Event)
    requires c.pins.duty == 0
    ensures AppliesDirect(c, ev) || Step(c, ev).pins.duty == 0
  {
    if ev.Receive? && ev.message.Reliable? {
      IdleHandle(c, ev.message.session, ev.message.number, ev.message.command);
    } else if ev.Receive? && ev.message.HelloAck? {
      IdleHello(c, ev.message);
    } else {
      IdleOther(c, ev);
    }
  }

  lemma IdleHandle(c: Context, session: string, number: CommandSeq, command: Command)
    requires c.pins.duty == 0
    ensures HandleReliable(c, session, number, command).pins.duty == 0
  {
    hide Queue, Perform, Verdict, Process, EmergencyHalt;
    var d := if command.Stop? then EmergencyHalt(c) else c;
    HaltKeepsMode(c);
    if Admit(d, session, number, command).Bounced? {
      QueueKeepsState(d, Admit(d, session, number, command).result, Admit(d, session, number, command).rejected);
    } else {
      ProcessDriving(d, session, number, command);
      IdleCommand(d, command);
    }
  }

  lemma IdleHello(c: Context, m: Message)
    requires c.pins.duty == 0 && m.HelloAck?
    ensures HelloAnswer(c, m).pins.duty == 0
  {
    hide Queue, HelloReply, HelloState;
    HelloKeepsPins(c, m);
    QueueKeepsState(HelloState(c, m), HelloReply(c, m), 0);
  }

  /** A handshake answer never touches the outputs. */
  lemma HelloKeepsPins(c: Context, m: Message)
    requires m.HelloAck?
    ensures HelloState(c, m).pins == c.pins
  {
    hide InvalidateDirect, ClearTarget;
    var d := OpenSession(c, m.session, m.seqStart).(last := None);
    var e := d.(snap := d.snap.(mode := WaypointAuto));
    assert InvalidateDirect(ClearTarget(e)).pins == e.pins == c.pins by {
      StopStepsKeepPins(e);
      StopStepsKeepPins(ClearTarget(e));
    }
  }

  lemma StopStepsKeepPins(c: Context)
    ensures InvalidateDirect(c).pins == c.pins && ClearTarget(c).pins == c.pins
  {
  }

  lemma IdleOther(c: Context, ev: Event)
    requires c.pins.duty == 0 && IsPlain(ev)
    ensures AppliesDirect(c, ev) || Step(c, ev).pins.duty == 0
  {
    hide Step, AppliesDirect;
    PlainStep(c, ev);
  }

  lemma DetachedKept(c: Context, ev: Event)
    requires Detached(c)
    ensures if ev.TcpConnected? then Disarmed(Step(c, ev)) else Detached(Step(c, ev))
  {
    if ev.Receive? && ev.message.Reliable? {
      DetachedHandle(c, ev.message.session, ev.message.number, ev.message.command);
    } else if ev.Receive? && ev.message.HelloAck? {
      DetachedHello(c, ev.message);
    } else {
      DetachedOther(c, ev);
    }
  }

  lemma DetachedHandle(c: Context, session: string, number: CommandSeq, command: Command)
    requires Detached(c)
    ensures Detached(HandleReliable(c, session, number, command))
  {
    hide Process;
    BouncedRecordsNothing(c, session, number, command);
  }

  lemma DetachedOther(c: Context, ev: Event)
    requires Detached(c) && IsPlain(ev)
    ensures if ev.TcpConnected? then Disarmed(Step(c, ev)) else Detached(Step(c, ev))
  {
    hide Step;
    PlainStep(c, ev);
  }

  lemma DetachedHello(c: Context, m: Message)
    requires Detached(c) && m.HelloAck?
    ensures Detached(HelloAnswer(c, m))
  {
    hide Queue, StartSession, HoldSession, RejectSession, HelloReply;
    QueueKeepsState(HelloState(c, m), HelloReply(c, m), 0);
  }

  lemma LossDetaches(c: Context, ev: Event)
    requires IsLinkLoss(ev)
    ensures Detached(Step(c, ev))
  {
    hide Step;
    PlainStep(c, ev);
  }

  // --- whole runs ---

  /** The latest of the two link events is a connection. */
  ghost predicate LinkUp(events: seq<Event>) {
    |events| > 0 &&
    match events[|events| - 1]
    case TcpConnected => true
    case TcpDown => false
    case _ => LinkUp(events[..|events| - 1])
  }

  /** Between any two connections the loss of the first is handled. */
  ghost predicate LinkAlternates(events: seq<Event>) {
    forall i :: 0 <= i < |events| && events[i].TcpConnected? ==> !LinkUp(events[..i])
  }

  ghost function At(bootId: string, hz: nat, events: seq<Event>, i: nat): Context
    requires i <= |events|
  {
    Run(bootId, hz, events[..i])
  }

  /** After the i-th event no connection is handled while an earlier handshake is still open. */
  ghost predicate NoneWhileSyncing(bootId: string, hz: nat, events: seq<Event>, i: nat) {
    forall k :: i < k < |events| && events[k].TcpConnected? ==> At(bootId, hz, events, k).snap.state != Syncing
  }

  /** Only a connection starts the handshake, and the loss of the link ends it. */
  lemma SyncingOnlyFromConnect(c: Context, ev: Event)
    ensures Step(c, ev).snap.state == Syncing ==> ev.TcpConnected? || (c.snap.state == Syncing && !ev.TcpDown?)
  {
    if ev.Receive? && ev.message.Reliable? {
      SyncingHandle(c, ev.message.session, ev.message.number, ev.message.command);
    } else if ev.Receive? && ev.message.HelloAck? {
      hide HelloState;
      SyncingSession(c, ev.message);
    } else {
      SyncingOther(c, ev);
    }
  }

  lemma SyncingOther(c: Context, ev: Event)
    requires IsPlain(ev)
    ensures Step(c, ev).snap.state == Syncing ==> ev.TcpConnected? || (c.snap.state == Syncing && !ev.TcpDown?)
  {
    hide Step, AppliesDirect;
    PlainStep(c, ev);
  }

  lemma SyncingSession(c: Context, m: Message)
    requires m.HelloAck?
    ensures HelloState(c, m).snap.state == Syncing ==> c.snap.state == Syncing
  {
  }

  lemma SyncingHandle(c: Context, session: string, number: CommandSeq, command: Command)
    ensures HandleReliable(c, session, number, command).snap.state == Syncing ==> c.snap.state == Syncing
  {
    hide Queue, Perform, Verdict, Process;
    var d := if command.Stop? then EmergencyHalt(c) else c;
    if Admit(d, session, number, command).Bounced? {
      QueueKeepsState(d, Admit(d, session, number, command).result, Admit(d, session, number, command).rejected);
    } else {
      ProcessDriving(d, session, number, command);
      SyncingPerform(d, command);
    }
  }

  lemma SyncingPerform(c: Context, command: Command)
    ensures Perform(c, command).snap.state == Syncing ==> c.snap.state == Syncing
    ensures HoldReset(c) ==> c.snap.state == Syncing
  {
    hide Verdict, HaltAndWait, ClearLock;
    if command.Wait? {
      WaitState(c, command);
    } else if command.Reset? {
      ClearState(c);
    }
  }

  lemma WaitState(c: Context, command: Command)
    requires command.Wait?
    ensures HaltAndWait(c, command).snap.state == c.snap.state || HaltAndWait(c, command).snap.state == Waiting
  {
  }

  lemma ClearState(c: Context)
    ensures ClearLock(c).snap.state == if HoldReset(c) then c.snap.state else Ready
  {
  }

  lemma {:induction false} SyncingMeansLinkUp(bootId: string, hz: nat, events: seq<Event>)
    requires Run(bootId, hz, events).snap.state == Syncing
    ensures LinkUp(events)
    decreases |events|
  {
    hide Step;
    if |events| > 0 {
      RunFront(bootId, hz, events);
      var front, ev := events[..|events| - 1], events[|events| - 1];
      SyncingOnlyFromConnect(Run(bootId, hz, front), ev);
      if !ev.TcpConnected? {
        SyncingMeansLinkUp(bootId, hz, front);
      }
    }
  }

  /** How far a run has come since its i-th event, and the events that got it there. */
  datatype Progress = Progress(stage: nat, first: nat, second: nat, third: nat)

  /** Stage 1 is reached through a `gate` event, stage 2 by accepting the direct mode, stage 3 by a direct command. */
  ghost predicate Reached(bootId: string, hz: nat, events: seq<Event>, i: nat, gate: Gate, p: Progress) {
    && (p.stage >= 1 ==> i < p.first < |events| && Opens(gate, At(bootId, hz, events, p.first), events[p.first]))
    && (p.stage >= 2 ==>
          p.first < p.second < |events| && Accepts(At(bootId, hz, events, p.second), events[p.second], SetMode(RemoteDirect)))
    && (p.stage >= 3 ==> p.second < p.third < |events| && AppliesDirect(At(bootId, hz, events, p.third), events[p.third]))
  }

  datatype Gate = AcceptedReset | NewConnection

  ghost predicate Opens(gate: Gate, c: Context, ev: Event) {
    if gate == AcceptedReset then Accepts(c, ev, Reset) else ev.TcpConnected?
  }

  /** What holds in each stage. */
  ghost predicate Confined(gate: Gate, stage: nat, c: Context) {
    if stage == 0 then (if gate == AcceptedReset then Locked(c) else Detached(c))
    else if stage == 1 then Disarmed(c)
    else stage == 2 ==> c.pins.duty == 0
  }

  lemma ReachedMore(bootId: string, hz: nat, events: seq<Event>, i: nat, gate: Gate, p: Progress)
    requires |events| > 0 && Reached(bootId, hz, events[..|events| - 1], i, gate, p)
    ensures Reached(bootId, hz, events, i, gate, p)
  {
    hide Run, Opens, Accepts, AppliesDirect;
    var front := events[..|events| - 1];
    assert forall k :: 0 <= k < |front| ==> front[..k] == events[..k] && front[k] == events[k];
  }

  lemma AcceptanceAppliesNothing(c: Context, ev: Event)
    ensures !(Accepts(c, ev, SetMode(RemoteDirect)) && AppliesDirect(c, ev))
  {
    hide Step;
  }

  /** One event advances the stage at most by one, and otherwise keeps what holds in it. */
  lemma Advance(gate: Gate, stage: nat, c: Context, ev: Event)
    requires Confined(gate, stage, c)
    requires gate == AcceptedReset && ev.TcpConnected? ==> c.snap.state != Syncing
    ensures stage == 0 ==> Confined(gate, if Opens(gate, c, ev) then 1 else 0, Step(c, ev))
    ensures stage == 1 ==> Confined(gate, if Accepts(c, ev, SetMode(RemoteDirect)) then 2 else 1, Step(c, ev))
    ensures stage == 2 ==> Confined(gate, if AppliesDirect(c, ev) then 3 else 2, Step(c, ev))
  {
    hide Step, Accepts, AppliesDirect;
    if stage == 0 {
      if gate == AcceptedReset {
        LockedKept(c, ev);
      } else {
        DetachedKept(c, ev);
      }
    } else if stage == 1 {
      DisarmedKept(c, ev);
      IdleKept(c, ev);
      AcceptanceAppliesNothing(c, ev);
    } else if stage == 2 {
      IdleKept(c, ev);
    }
  }

  lemma {:induction false} Follow(bootId: string, hz: nat, events: seq<Event>, i: nat, gate: Gate) returns (p: Progress)
    requires i < |events|
    requires if gate == AcceptedReset then IsStop(events[i]) && NoneWhileSyncing(bootId, hz, events, i)
             else IsLinkLoss(events[i])
    ensures Reached(bootId, hz, events, i, gate, p) && Confined(gate, p.stage, Run(bootId, hz, events))
    decreases |events|
  {
    hide Step, Reached, Confined, Opens, Accepts, AppliesDirect, IsStop, IsLinkLoss;
    var front, ev := events[..|events| - 1], events[|events| - 1];
    RunFront(bootId, hz, events);
    var c := Run(bootId, hz, front);
    if i == |events| - 1 {
      p := Progress(0, 0, 0, 0);
      FollowStart(bootId, hz, events, i, gate);
    } else {
      assert forall k :: 0 <= k <= |front| ==> front[..k] == events[..k];
      p := Follow(bootId, hz, front, i, gate);
      ReachedMore(bootId, hz, events, i, gate, p);
      Advance(gate, p.stage, c, ev);
      p := FollowNext(bootId, hz, events, i, gate, p);
    }
  }

  lemma FollowStart(bootId: string, hz: nat, events: seq<Event>, i: nat, gate: Gate)
    requires i == |events| - 1
    requires if gate == AcceptedReset then IsStop(events[i]) else IsLinkLoss(events[i])
    ensures Reached(bootId, hz, events, i, gate, Progress(0, 0, 0, 0))
    ensures Confined(gate, 0, Run(bootId, hz, events))
  {
    hide Step;
    RunFront(bootId, hz, events);
    var c := Run(bootId, hz, events[..i]);
    if gate == AcceptedReset {
      StopLocks(c, events[i]);
    } else {
      LossDetaches(c, events[i]);
    }
  }

  /** Record the event that has advanced the stage, if the last one did. */
  lemma FollowNext(bootId: string, hz: nat, events: seq<Event>, i: nat, gate: Gate, p: Progress) returns (q: Progress)
    requires i < |events| - 1 && Reached(bootId, hz, events, i, gate, p)
    requires Reached(bootId, hz, events[..|events| - 1], i, gate, p)
    requires var c, ev := Run(bootId, hz, events[..|events| - 1]), events[|events| - 1];
      && (p.stage == 0 ==> Confined(gate, if Opens(gate, c, ev) then 1 else 0, Step(c, ev)))
      && (p.stage == 1 ==> Confined(gate, if Accepts(c, ev, SetMode(RemoteDirect)) then 2 else 1, Step(c, ev)))
      && (p.stage == 2 ==> Confined(gate, if AppliesDirect(c, ev) then 3 else 2, Step(c, ev)))
    ensures Reached(bootId, hz, events, i, gate, q) && Confined(gate, q.stage, Run(bootId, hz, events))
  {
    hide Step, Opens, Accepts, AppliesDirect;
    RunFront(bootId, hz, events);
    var last := |events| - 1;
    var c, ev := Run(bootId, hz, events[..last]), events[last];
    assert At(bootId, hz, events, last) == c;
    q := p;
    if p.stage == 0 && Opens(gate, c, ev) {
      q := Progress(1, last, 0, 0);
    } else if p.stage == 1 && Accepts(c, ev, SetMode(RemoteDirect)) {
      q := Progress(2, p.first, last, 0);
    } else if p.stage == 2 && AppliesDirect(c, ev) {
      q := Progress(3, p.first, p.second, last);
    }
  }

  /**
   After a STOP the motor can only turn again once, in this order, a RESET was accepted, the direct mode was
   accepted and a direct command was applied, through any reconnects, holds, timeouts and late stream values, as long
   as no connection is handled while an earlier handshake is open.
   */
  lemma StopHolds(bootId: string, hz: nat, events: seq<Event>, i: nat) returns (reset: nat, mode: nat, direct: nat)
    requires i < |events| && IsStop(events[i]) && NoneWhileSyncing(bootId, hz, events, i)
    requires Run(bootId, hz, events).pins.duty != 0
    ensures i < reset < mode < direct < |events|
    ensures Accepts(At(bootId, hz, events, reset), events[reset], Reset)
    ensures Accepts(At(bootId, hz, events, mode), events[mode], SetMode(RemoteDirect))
    ensures AppliesDirect(At(bootId, hz, events, direct), events[direct])
  {
    hide Run, Accepts, AppliesDirect, IsStop, NoneWhileSyncing;
    var p := Follow(bootId, hz, events, i, AcceptedReset);
    reset, mode, direct := p.first, p.second, p.third;
  }

  /** That is so if the loss of the link is handled between any two connections. */
  lemma AlternatingLinkIsEnough(bootId: string, hz: nat, events: seq<Event>, i: nat)
    requires LinkAlternates(events)
    ensures NoneWhileSyncing(bootId, hz, events, i)
  {
    hide Run, LinkUp;
    forall k | i < k < |events| && events[k].TcpConnected?
      ensures At(bootId, hz, events, k).snap.state != Syncing
    {
      if At(bootId, hz, events, k).snap.state == Syncing {
        SyncingMeansLinkUp(bootId, hz, events[..k]);
      }
    }
  }

  /**
   After the link was lost the motor can only turn again after a new connection, an accepted direct mode and a
   direct command.
   */
  lemma LossHolds(bootId: string, hz: nat, events: seq<Event>, i: nat) returns (connect: nat, mode: nat, direct: nat)
    requires i < |events| && IsLinkLoss(events[i])
    requires Run(bootId, hz, events).pins.duty != 0
    ensures i < connect < mode < direct < |events|
    ensures events[connect].TcpConnected?
    ensures Accepts(At(bootId, hz, events, mode), events[mode], SetMode(RemoteDirect))
    ensures AppliesDirect(At(bootId, hz, events, direct), events[direct])
  {
    hide Run, Accepts, AppliesDirect, IsLinkLoss;
    var p := Follow(bootId, hz, events, i, NewConnection);
    connect, mode, direct := p.first, p.second, p.third;
  }

  /** A connection keeps a lock exactly when the handshake of an earlier connection is not still open. */
  lemma ConnectKeepsLockExactly(c: Context)
    requires Locked(c)
    ensures Locked(Connected(c)) <==> c.snap.state != Syncing
  {
  }
}
