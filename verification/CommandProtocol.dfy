/**
 Host, channel and vehicle together. The channel may lose, repeat, delay and reorder: the vehicle may receive any
 command ever transmitted, and the host may hear any status ever queued, at any time and any number of times.
 */
module CommandProtocol {
  import opened Options
  import opened VehicleTypes
  import opened VehicleSpec
  import opened VehicleSafety
  import opened VehicleLog
  import opened Reliability

  datatype Report = Report(session: string, number: nat, command: Command, result: CommandResult)

  /** `senders` holds the sender of every session the host ever opened; `wire` every command it transmitted. */
  datatype World = World(car: Context, senders: map<string, Sender>, wire: set<Message>, reports: seq<Report>)

  datatype WorldEvent =
    | OpenSession(session: string)
    | HostDoes(session: string, op: Op)
    | HostHears(session: string, status: Status)
    | CarDoes(event: Event)

  /** Results after which a command counts as done. */
  predicate Positive(r: CommandResult) { r == Accepted || r == AlreadyStopped }

  // --- the host's judgement of a status ---

  /** What the host of a session reports for its outstanding command on hearing a status. */
  function Judge(session: string, sender: Sender, status: Status): Option<Report> {
    if status.session != "" && status.session != session then None
    else if sender.pending.None? || status.result == NoResult then None
    else
      var p := sender.pending.value;
      if status.lastSeq != p.number && status.rejectedSeq != p.number then None
      else Some(Report(session, p.number, p.command, status.result))
  }

  /** The status gives the final result of the outstanding command: it quotes its number as processed or as rejected. */
  ghost predicate AnswersPending(session: string, sender: Sender, status: Status) {
    && (status.session == "" || status.session == session)
    && sender.pending.Some? && status.result != NoResult
    && (status.lastSeq == sender.pending.value.number || status.rejectedSeq == sender.pending.value.number)
  }

  /** The host judges a status exactly if it answers the outstanding command, and then by its result. */
  lemma JudgedExactly(session: string, sender: Sender, status: Status)
    ensures Judge(session, sender, status) ==
      if AnswersPending(session, sender, status) then
        Some(Report(session, sender.pending.value.number, sender.pending.value.command, status.result))
      else None
  {
  }

  // --- steps of the world ---

  function Transmitted(session: string, sender: Sender): set<Message> {
    set e | e in sender.wire :: Reliable(session, e.number, e.command)
  }

  function WorldStep(w: World, e: WorldEvent): World {
    match e
    case OpenSession(session) => w.(senders := w.senders[session := FRESH_SENDER])
    case HostDoes(session, op) =>
      if session !in w.senders then w
      else
        var sender := Do(w.senders[session], op);
        w.(senders := w.senders[session := sender], wire := w.wire + Transmitted(session, sender))
    case HostHears(session, status) =>
      if session !in w.senders then w
      else
        var report := Judge(session, w.senders[session], status);
        if report.Some? then w.(reports := w.reports + [report.value]) else w
    case CarDoes(event) => w.(car := Step(w.car, event))
  }

  /** What can happen; handshake answers are the host's: commands start at 1, and only a hold leaves the id empty. */
  predicate Possible(w: World, e: WorldEvent) {
    match e
    case OpenSession(session) => session != "" && session !in w.senders
    case HostDoes(_, _) => true
    case HostHears(_, status) => status in w.car.sent
    case CarDoes(event) =>
      Plausible(w.car, event) &&
      match event
      case Receive(HelloAck(_, session, start, verdict, _)) =>
        start == 1 && (verdict == ReadyAllowed ==> session in w.senders)
      case Receive(Reliable(session, number, command)) => Reliable(session, number, command) in w.wire
      case _ => true
  }

  function Start(bootId: string, hz: nat): World {
    World(PowerOn(bootId, hz), map[], {}, [])
  }

  function WorldAfter(bootId: string, hz: nat, events: seq<WorldEvent>): World {
    if |events| == 0 then Start(bootId, hz)
    else WorldStep(WorldAfter(bootId, hz, events[..|events| - 1]), events[|events| - 1])
  }

  predicate PossibleRun(bootId: string, hz: nat, events: seq<WorldEvent>) {
    forall i :: 0 <= i < |events| ==> Possible(WorldAfter(bootId, hz, events[..i]), events[i])
  }

  /** The host of a session adds exactly the answer to its outstanding command, and judging changes nothing else. */
  lemma HearingReportsExactly(w: World, session: string, status: Status)
    requires session in w.senders
    ensures var p, v := w.senders[session].pending, WorldStep(w, HostHears(session, status));
      v == w.(reports :=
        if AnswersPending(session, w.senders[session], status) then
          w.reports + [Report(session, p.value.number, p.value.command, status.result)]
        else w.reports)
  {
    JudgedExactly(session, w.senders[session], status);
  }

  // --- the vehicle's statuses tell the truth ---

  /** A status with a positive result quotes a command that was processed with that result. */
  ghost predicate Truthful(st: Status, effects: seq<Effect>) {
    Positive(st.result) ==>
      && st.rejectedSeq == 0
      && (st.lastSeq >= 1 ==>
            st.session != "" &&
            exists e :: e in effects && e.session == st.session && e.number == st.lastSeq && e.result == st.result)
  }

  /** The outcome kept for repeats belongs to the last processed command of the live session. */
  ghost predicate KeepsOutcome(c: Context) {
    c.snap.sessionActive && c.snap.lastSeq >= 1 ==>
      && c.snap.session != "" && c.last.Some?
      && Effect(c.snap.session, c.snap.lastSeq, c.last.value.command, c.last.value.result) in c.effects
  }

  ghost predicate AllTruthful(c: Context) {
    forall st :: st in c.sent ==> Truthful(st, c.effects)
  }

  /** A step sends at most one status and only adds to the record. */
  ghost predicate SendsOne(c: Context, d: Context) {
    && c.effects <= d.effects
    && (d.sent == c.sent || exists st :: d.sent == c.sent + [st] && Truthful(st, d.effects))
  }

  lemma QueueSends(c: Context, r: CommandResult, rejected: nat)
    ensures var st := Status(c.snap.session, c.snap.statusSeq + 1, c.snap.lastSeq, rejected, r, c.snap.state, c.snap.mode);
      Queue(c, r, rejected).sent == c.sent + [st]
    ensures SameRecord(c, Queue(c, r, rejected))
  {
  }

  lemma QuietSends(c: Context, d: Context, r: CommandResult, rejected: nat)
    requires SameIdentity(c, d) && d.sent == c.sent && !Positive(r)
    ensures SendsOne(c, Queue(d, r, rejected))
  {
    hide Queue;
    QueueSends(d, r, rejected);
    var st := Status(d.snap.session, d.snap.statusSeq + 1, d.snap.lastSeq, rejected, r, d.snap.state, d.snap.mode);
    assert Truthful(st, d.effects);
  }

  lemma BasicStepsSendNothing(c: Context, command: Command, s: State)
    ensures EmergencyHalt(c).sent == c.sent && Perform(c, command).sent == c.sent
    ensures Disarm(c).sent == c.sent && Enter(c, s).sent == c.sent && SafeStop(c).sent == c.sent
    ensures InvalidateDirect(c).sent == c.sent && ClearTarget(c).sent == c.sent
  {
    hide Verdict, WaitPlan, HoldReset;
  }

  lemma FreshSends(c: Context, session: string, number: CommandSeq, command: Command)
    requires Matches(c, session) && session != ""
    ensures var d := Process(c, session, number, command);
      SendsOne(c, d) && KeepsOutcome(d)
  {
    hide Perform, Verdict, HoldReset, Queue;
    PerformKeepsRecord(c, command);
    BasicStepsSendNothing(c, command, Ready);
    ProcessRecords(c, session, number, command);
    var o := Outcome(command, Verdict(c, command));
    var p := Perform(c, command);
    var recorded := p.(snap := p.snap.(lastSeq := number), last := Some(o),
                       effects := p.effects + [Effect(session, number, o.command, o.result)]);
    QueueSends(recorded, o.result, 0);
    var e := Effect(session, number, command, o.result);
    var d := Process(c, session, number, command);
    assert e in d.effects && d.effects == c.effects + [e];
    var st := Status(recorded.snap.session, recorded.snap.statusSeq + 1, number, 0, o.result,
                     recorded.snap.state, recorded.snap.mode);
    assert d.sent == c.sent + [st] && Truthful(st, d.effects);
  }

  lemma BouncedSends(c: Context, session: string, number: CommandSeq, command: Command)
    requires KeepsOutcome(c) && Admit(c, session, number, command).Bounced?
    ensures var d := HandleReliable(c, session, number, command);
      SendsOne(c, d) && KeepsOutcome(d)
  {
    hide EmergencyHalt, Queue, Process;
    HaltKeepsRecord(c);
    BasicStepsSendNothing(c, command, Ready);
    BouncedRecordsNothing(c, session, number, command);
    var a := Admit(c, session, number, command);
    var d := if command.Stop? then EmergencyHalt(c) else c;
    QueueSends(d, a.result, a.rejected);
    var st := Status(d.snap.session, d.snap.statusSeq + 1, d.snap.lastSeq, a.rejected, a.result, d.snap.state, d.snap.mode);
    assert Truthful(st, d.effects);
  }

  lemma HandleSends(c: Context, session: string, number: CommandSeq, command: Command)
    requires KeepsOutcome(c) && session != ""
    ensures var d := HandleReliable(c, session, number, command);
      SendsOne(c, d) && KeepsOutcome(d)
  {
    hide EmergencyHalt, Queue, Process, SendsOne;
    if Admit(c, session, number, command).Bounced? {
      BouncedSends(c, session, number, command);
    } else {
      HaltKeepsRecord(c);
      BasicStepsSendNothing(c, command, Ready);
      var d := if command.Stop? then EmergencyHalt(c) else c;
      FreshSends(d, session, number, command);
      SameStart(c, d, HandleReliable(c, session, number, command));
    }
  }

  lemma SameStart(c: Context, d: Context, e: Context)
    requires d.effects == c.effects && d.sent == c.sent && SendsOne(d, e)
    ensures SendsOne(c, e)
  {
  }

  /** Opening a session starts counting at 0, so nothing is quoted yet. */
  lemma SessionStartsEmpty(c: Context, session: string, why: string)
    ensures var d := StartSession(c, session, 1);
      SameIdentity(c, d) && d.sent == c.sent && d.snap.lastSeq == 0
    ensures var d := HoldSession(c, session, 1);
      SameIdentity(c, d) && d.sent == c.sent && d.snap.lastSeq == 0
    ensures var d := RejectSession(c, why);
      SameIdentity(c, d) && d.sent == c.sent && !d.snap.sessionActive
    ensures var d := BootMismatch(c);
      SameRecord(c, d) && d.sent == c.sent
  {
  }

  lemma HelloSends(c: Context, m: Message)
    requires KeepsOutcome(c) && m.HelloAck? && m.seqStart == 1
    ensures var d := HelloAnswer(c, m);
      SendsOne(c, d) && KeepsOutcome(d)
  {
    hide StartSession, HoldSession, RejectSession, BootMismatch, Queue;
    SessionStartsEmpty(c, m.session, m.why);
    var d, r := HelloState(c, m), HelloReply(c, m);
    QueueSends(d, r, 0);
    var st := Status(d.snap.session, d.snap.statusSeq + 1, d.snap.lastSeq, 0, r, d.snap.state, d.snap.mode);
    assert Truthful(st, d.effects);
  }

  lemma LinkSends(c: Context)
    ensures SendsOne(c, LinkLost(c)) && SendsOne(c, Connected(c))
    ensures KeepsOutcome(LinkLost(c)) && KeepsOutcome(Connected(c))
  {
    LinkEndsSession(c);
    LinkLostSends(c);
  }

  lemma LinkLostSends(c: Context)
    ensures SendsOne(c, LinkLost(c)) && SendsOne(c, Connected(c))
  {
    hide Queue, Detach, Connected;
    DetachSendsNothing(c);
    QuietSends(c, Detach(c), NoResult, 0);
    NothingSent(c, Connected(c));
  }

  lemma DetachSendsNothing(c: Context)
    ensures SameIdentity(c, Detach(c)) && Detach(c).sent == c.sent
    ensures SameIdentity(c, Connected(c)) && Connected(c).sent == c.sent
  {
  }

  lemma DirectSends(c: Context, d: DirectSlot, now: nat, encoder: int)
    ensures SendsOne(c, ApplyDirect(c, d, now, encoder))
  {
    hide Queue, NextStall, Boosts, StillStalled, AppliedOutput;
    if Drives(c, d) {
      var driven := Driven(c, d, now, encoder);
      var next := if driven.pins.duty > 0 then Moving else if c.snap.state == Moving then Ready else c.snap.state;
      QuietSends(c, Enter(driven, next), NoResult, 0);
    }
  }

  lemma TimeoutSends(c: Context, now: nat)
    ensures SendsOne(c, CheckTimeout(c, now))
  {
    hide Queue;
    var d := InvalidateDirect(SafeStop(c.(clock := now)));
    var e := d.(snap := d.snap.(plan := d.snap.plan.(waitReason := DirectControlTimeout, resumeAllowed := false)));
    QuietSends(c, Enter(e, Waiting), NoResult, 0);
  }

  lemma OutcomeKept(c: Context, d: Context)
    requires KeepsOutcome(c) && SameRecord(c, d)
    ensures KeepsOutcome(d)
  {
  }

  /** Every step of the vehicle sends only truthful statuses. */
  lemma CarStepSends(c: Context, ev: Event)
    requires KeepsOutcome(c) && Plausible(c, ev)
    requires ev.Receive? && ev.message.HelloAck? ==> ev.message.seqStart == 1
    ensures SendsOne(c, Step(c, ev)) && KeepsOutcome(Step(c, ev))
  {
    hide HandleReliable, HelloAnswer, Connected, LinkLost, ApplyDirect, CheckTimeout, Queue, SendsOne, KeepsOutcome;
    match ev
    case TcpConnected => LinkSends(c);
    case TcpDown => LinkSends(c);
    case HeartbeatTimeout => LinkSends(c);
    case Receive(m) =>
      match m {
        case HelloAck(_, _, _, _, _) => HelloSends(c, m);
        case Reliable(session, number, command) => HandleSends(c, session, number, command);
        case DirectControl(_) =>
          NothingSent(c, Step(c, ev));
          OutcomeKept(c, Step(c, ev));
      }
    case UseDirect(now, encoder) =>
      var d := c.(slot := None, clock := now);
      if c.slot.Some? {
        DirectSends(d, c.slot.value, now, encoder);
        DirectKeepsRecord(d, c.slot.value, now, encoder);
        SameStart(c, d, Step(c, ev));
      } else {
        NothingSent(c, d);
      }
      OutcomeKept(c, Step(c, ev));
    case TimeoutCheck(now) =>
      TimeoutSends(c, now);
      TimeoutKeepsRecord(c, now);
      OutcomeKept(c, Step(c, ev));
    case StatusDue =>
      QuietSends(c, c, NoResult, 0);
      QueueSends(c, NoResult, 0);
      NothingSent(c, c);
      OutcomeKept(c, Step(c, ev));
  }

  lemma NothingSent(c: Context, d: Context)
    requires d.effects == c.effects && d.sent == c.sent
    ensures SendsOne(c, d)
  {
  }

  lemma MoreEffects(st: Status, effects: seq<Effect>, more: seq<Effect>)
    requires Truthful(st, effects) && effects <= more
    ensures Truthful(st, more)
  {
    if Positive(st.result) && st.lastSeq >= 1 {
      var e :| e in effects && e.session == st.session && e.number == st.lastSeq && e.result == st.result;
      assert e in more;
    }
  }

  lemma StaysTruthful(c: Context, d: Context)
    requires AllTruthful(c) && SendsOne(c, d)
    ensures AllTruthful(d)
  {
    hide Truthful;
    forall st | st in d.sent
      ensures Truthful(st, d.effects)
    {
      if st in c.sent {
        MoreEffects(st, c.effects, d.effects);
      }
    }
  }

  // --- the whole world ---

  /** Only commands of the host's sessions travel, each as its sender numbered it. */
  ghost predicate WireFromSenders(w: World) {
    forall m :: m in w.wire ==>
      m.Reliable? && m.session in w.senders && Sent(m.number, m.command) in w.senders[m.session].wire
  }

  ghost predicate SendersOrderly(w: World) {
    forall s :: s in w.senders ==> Orderly(w.senders[s])
  }

  ghost predicate EffectsFromWire(w: World) {
    forall e :: e in w.car.effects ==> e.number >= 1 && Reliable(e.session, e.number, e.command) in w.wire
  }

  /** The vehicle really processed the reported command in the reported session, with the reported result. */
  ghost predicate Confirmed(r: Report, effects: seq<Effect>) {
    Positive(r.result) ==> Effect(r.session, r.number, r.command, r.result) in effects
  }

  ghost predicate ReportsConfirmed(w: World) {
    forall r :: r in w.reports ==> Confirmed(r, w.car.effects)
  }

  ghost predicate WorldInv(w: World) {
    && AllTruthful(w.car) && KeepsOutcome(w.car)
    && SendersOrderly(w) && WireFromSenders(w) && EffectsFromWire(w)
    && ReportsConfirmed(w)
  }

  lemma SenderOnlyAdds(s: Sender, op: Op)
    ensures s.wire <= Do(s, op).wire
  {
  }

  lemma HostStepKeeps(w: World, session: string, op: Op)
    requires WorldInv(w) && session in w.senders
    ensures WorldInv(WorldStep(w, HostDoes(session, op)))
  {
    hide Do, Orderly, AllTruthful, KeepsOutcome, Confirmed;
    var s := w.senders[session];
    SenderOnlyAdds(s, op);
    DoKeepsOrder(s, op);
    var v := WorldStep(w, HostDoes(session, op));
    forall m | m in v.wire
      ensures m.Reliable? && m.session in v.senders && Sent(m.number, m.command) in v.senders[m.session].wire
    {
    }
  }

  lemma NewReportConfirmed(w: World, session: string, status: Status)
    requires WorldInv(w) && session in w.senders && status in w.car.sent
    requires Judge(session, w.senders[session], status).Some?
    ensures Confirmed(Judge(session, w.senders[session], status).value, w.car.effects)
  {
    hide Limited, KeepsOutcome, Count;
    var sender := w.senders[session];
    var p := sender.pending.value;
    assert Orderly(sender) && Truthful(status, w.car.effects);
    if Positive(status.result) {
      var e :| e in w.car.effects && e.session == status.session && e.number == status.lastSeq && e.result == status.result;
      assert Sent(e.number, e.command) in sender.wire;
      SameNumberSameCommand(sender, Sent(e.number, e.command), Sent(p.number, p.command));
    }
  }

  lemma SameNumberSameCommand(s: Sender, a: Sent, b: Sent)
    requires Numbered(s.wire, s.last) && a in s.wire && b in s.wire && a.number == b.number
    ensures a == b
  {
  }

  ghost predicate RecordsOne(c: Context, d: Context, m: Message)
    requires m.Reliable?
  {
    exists r :: d.effects == c.effects + [Effect(m.session, m.number, m.command, r)]
  }

  lemma CarStepEffects(c: Context, ev: Event)
    ensures Step(c, ev).effects == c.effects
      || (ev.Receive? && ev.message.Reliable? && RecordsOne(c, Step(c, ev), ev.message))
  {
    hide HandleReliable, HelloAnswer, Connected, LinkLost, ApplyDirect, CheckTimeout, Queue;
    match ev
    case Receive(m) =>
      match m {
        case HelloAck(_, _, _, _, _) => HelloKeepsIdentity(c, m);
        case Reliable(session, number, command) =>
          if Admit(c, session, number, command).Fresh? {
            FreshIsRecorded(c, session, number, command);
          } else {
            BouncedRecordsNothing(c, session, number, command);
          }
        case DirectControl(_) =>
      }
    case UseDirect(now, encoder) =>
      if c.slot.Some? {
        DirectKeepsRecord(c.(slot := None, clock := now), c.slot.value, now, encoder);
      }
    case TimeoutCheck(now) => TimeoutKeepsRecord(c, now);
    case StatusDue => QueueSends(c, NoResult, 0);
    case _ => LinkEndsSession(c);
  }

  lemma CarStepKeeps(w: World, ev: Event)
    requires WorldInv(w) && Possible(w, CarDoes(ev))
    ensures WorldInv(WorldStep(w, CarDoes(ev)))
  {
    hide Step, Plausible, Orderly, SendsOne, KeepsOutcome, AllTruthful;
    var d := Step(w.car, ev);
    CarStepSends(w.car, ev);
    StaysTruthful(w.car, d);
    CarStepEffects(w.car, ev);
    forall e | e in d.effects
      ensures e.number >= 1 && Reliable(e.session, e.number, e.command) in w.wire
    {
      if e !in w.car.effects {
        assert e == d.effects[|w.car.effects|];
      }
    }
    forall r | r in w.reports
      ensures Confirmed(r, d.effects)
    {
      assert Confirmed(r, w.car.effects);
    }
  }

  lemma WorldStepKeeps(w: World, e: WorldEvent)
    requires WorldInv(w) && Possible(w, e)
    ensures WorldInv(WorldStep(w, e))
  {
    match e
    case OpenSession(session) => OpenKeeps(w, session);
    case HostDoes(session, op) =>
      if session in w.senders {
        HostStepKeeps(w, session, op);
      }
    case HostHears(session, status) =>
      hide Judge, Orderly, KeepsOutcome, Truthful, Confirmed;
      if session in w.senders && Judge(session, w.senders[session], status).Some? {
        NewReportConfirmed(w, session, status);
      }
    case CarDoes(ev) => CarStepKeeps(w, ev);
  }

  lemma OpenKeeps(w: World, session: string)
    requires WorldInv(w) && session !in w.senders
    ensures WorldInv(WorldStep(w, OpenSession(session)))
  {
    hide Orderly, KeepsOutcome, AllTruthful, Confirmed;
    assert Orderly(FRESH_SENDER) by {
      AfterIsOrderly([]);
    }
  }

  lemma {:induction false} WorldKeeps(bootId: string, hz: nat, events: seq<WorldEvent>)
    requires PossibleRun(bootId, hz, events)
    ensures WorldInv(WorldAfter(bootId, hz, events))
    decreases |events|
  {
    hide WorldStep, Possible;
    if |events| > 0 {
      var front := events[..|events| - 1];
      assert forall i :: 0 <= i <= |front| ==> front[..i] == events[..i];
      assert front[..|front|] == front;
      WorldKeeps(bootId, hz, front);
      WorldStepKeeps(WorldAfter(bootId, hz, front), events[|events| - 1]);
    }
  }

  /**
   Whenever the host reports a command of a session as accepted (or as finding the vehicle already stopped), the
   vehicle really processed that very command, in that session and with that result, whatever the channel did
   and whatever statuses, periodic, repeated, late or without a session id, the host has heard.
   */
  lemma AcceptedMeansAccepted(bootId: string, hz: nat, events: seq<WorldEvent>, r: Report)
    requires PossibleRun(bootId, hz, events)
    requires r in WorldAfter(bootId, hz, events).reports && Positive(r.result)
    ensures Effect(r.session, r.number, r.command, r.result) in WorldAfter(bootId, hz, events).car.effects
  {
    WorldKeeps(bootId, hz, events);
    assert Confirmed(r, WorldAfter(bootId, hz, events).car.effects);
  }

  // --- the vehicle inside the world ---

  function CarEvents(events: seq<WorldEvent>): seq<Event> {
    if |events| == 0 then []
    else
      var before, e := CarEvents(events[..|events| - 1]), events[|events| - 1];
      if e.CarDoes? then before + [e.event] else before
  }

  /** The vehicle in the world makes a plausible run, so all that holds of plausible runs holds of it. */
  lemma {:induction false} CarMakesARun(bootId: string, hz: nat, events: seq<WorldEvent>)
    requires PossibleRun(bootId, hz, events)
    ensures WorldAfter(bootId, hz, events).car == Run(bootId, hz, CarEvents(events))
    ensures PlausibleRun(bootId, hz, CarEvents(events))
    decreases |events|
  {
    hide VehicleSpec.Step, Plausible, PowerOn, Steps;
    if |events| > 0 {
      var front, e := events[..|events| - 1], events[|events| - 1];
      assert forall i :: 0 <= i <= |front| ==> front[..i] == events[..i];
      assert front[..|front|] == front;
      CarMakesARun(bootId, hz, front);
      if e.CarDoes? {
        RunSnoc(bootId, hz, CarEvents(front), e.event);
        PlausibleSnoc(bootId, hz, CarEvents(front), e.event);
      }
    } else {
      EmptyRun(bootId, hz);
    }
  }

  lemma EmptyRun(bootId: string, hz: nat)
    ensures Run(bootId, hz, []) == PowerOn(bootId, hz)
  {
  }

  /** However often a command is transmitted, delivered and repeated, it is processed at most once. */
  lemma CommandsAreProcessedOnce(bootId: string, hz: nat, events: seq<WorldEvent>, i: nat, j: nat)
    requires PossibleRun(bootId, hz, events)
    requires i < j < |WorldAfter(bootId, hz, events).car.effects|
    ensures var log := WorldAfter(bootId, hz, events).car.effects;
      log[i].session != log[j].session || log[i].number < log[j].number
  {
    hide PossibleRun, PlausibleRun, Run, WorldAfter, CarEvents;
    CarMakesARun(bootId, hz, events);
    CommandsTakeEffectInOrder(bootId, hz, CarEvents(events), i, j);
  }
}
