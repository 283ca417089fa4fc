/** Reliable commands take effect at most once and in order, over every run. */
module VehicleLog {
  import opened Options
  import opened VehicleTypes
  import opened VehicleSpec
  import opened VehicleSafety

  /** Within a session the recorded numbers strictly increase. */
  ghost predicate InOrder(log: seq<Effect>) {
    forall i, j :: 0 <= i < j < |log| && log[i].session == log[j].session ==> log[i].number < log[j].number
  }

  ghost predicate FromIssued(log: seq<Effect>, issued: set<string>) {
    forall i :: 0 <= i < |log| ==> log[i].session in issued && log[i].session != ""
  }

  /** The current session's recorded numbers, up to the last processed one. */
  ghost predicate UpTo(log: seq<Effect>, session: string, lastSeq: nat) {
    forall i :: 0 <= i < |log| && log[i].session == session ==> log[i].number <= lastSeq
  }

  /** While a session lasts, its latest recorded command is the one a repeat is compared with. */
  ghost predicate Remembers(c: Context) {
    var log := c.effects;
    c.snap.sessionActive && |log| > 0 && log[|log| - 1].session == c.snap.session ==>
      && c.snap.lastSeq == log[|log| - 1].number
      && c.last == Some(Outcome(log[|log| - 1].command, log[|log| - 1].result))
  }

  ghost predicate LogInv(c: Context) {
    && InOrder(c.effects)
    && FromIssued(c.effects, c.issued)
    && (c.snap.sessionActive ==> c.snap.session in c.issued && UpTo(c.effects, c.snap.session, c.snap.lastSeq))
    && Remembers(c)
  }

  lemma RecordKept(c: Context, d: Context)
    requires LogInv(c) && SameRecord(c, d)
    ensures LogInv(d)
  {
  }

  lemma SessionEnded(c: Context, d: Context)
    requires LogInv(c) && d.effects == c.effects && d.issued == c.issued && !d.snap.sessionActive
    ensures LogInv(d)
  {
  }

  lemma SessionOpened(c: Context, d: Context, session: string)
    requires LogInv(c) && (session !in c.issued || session == "")
    requires d.effects == c.effects && d.issued == c.issued + {session} && d.snap.session == session
    ensures LogInv(d)
  {
  }

  lemma CommandRecorded(c: Context, d: Context, e: Effect)
    requires LogInv(c) && Matches(c, e.session) && e.session != "" && e.number > c.snap.lastSeq
    requires d.effects == c.effects + [e] && d.issued == c.issued
    requires d.snap.lastSeq == e.number && d.last == Some(Outcome(e.command, e.result))
    requires d.snap.sessionActive ==> d.snap.session == e.session
    ensures LogInv(d)
  {
  }

  /** How a handshake answer may change the record. */
  lemma HelloRecord(c: Context, m: Message)
    requires m.HelloAck?
    ensures var d := HelloAnswer(c, m);
      || SameRecord(c, d)
      || (d.effects == c.effects && d.issued == c.issued && !d.snap.sessionActive)
      || (m.verdict != Rejected && d.effects == c.effects && d.issued == c.issued + {m.session} && d.snap.session == m.session)
  {
    hide Queue, Disarm;
    DisarmKeepsRecord(OpenSession(c, m.session, m.seqStart).(last := None));
    QueueKeepsRecord(HelloState(c, m), HelloReply(c, m));
  }

  lemma QueueKeepsRecord(c: Context, r: CommandResult)
    ensures SameRecord(c, Queue(c, r, 0))
  {
  }

  lemma StepKeepsLog(c: Context, ev: Event)
    requires LogInv(c) && Plausible(c, ev)
    ensures LogInv(Step(c, ev))
  {
    hide HelloAnswer, HandleReliable, Connected, LinkLost, ApplyDirect, CheckTimeout, Queue, LogInv;
    var d := Step(c, ev);
    match ev
    case TcpConnected => LinkEndsSession(c); SessionEnded(c, d);
    case TcpDown => LinkEndsSession(c); SessionEnded(c, d);
    case HeartbeatTimeout => LinkEndsSession(c); SessionEnded(c, d);
    case Receive(m) =>
      match m {
        case HelloAck(_, _, _, _, _) =>
          HelloRecord(c, m);
          if SameRecord(c, d) {
            RecordKept(c, d);
          } else if !d.snap.sessionActive && d.issued == c.issued {
            SessionEnded(c, d);
          } else {
            SessionOpened(c, d, m.session);
          }
        case Reliable(session, number, command) =>
          if Admit(c, session, number, command).Fresh? {
            FreshIsRecorded(c, session, number, command);
            CommandRecorded(c, d, d.effects[|c.effects|]);
          } else {
            BouncedRecordsNothing(c, session, number, command);
            RecordKept(c, d);
          }
        case DirectControl(_) => RecordKept(c, d);
      }
    case UseDirect(now, encoder) =>
      if c.slot.Some? {
        DirectKeepsRecord(c.(slot := None, clock := now), c.slot.value, now, encoder);
      }
      RecordKept(c, d);
    case TimeoutCheck(now) =>
      TimeoutKeepsRecord(c, now);
      RecordKept(c, d);
    case StatusDue =>
      QueueKeepsRecord(c, NoResult);
      RecordKept(c, d);
  }

  lemma {:induction false} RunKeepsLog(bootId: string, hz: nat, events: seq<Event>)
    requires PlausibleRun(bootId, hz, events)
    ensures LogInv(Run(bootId, hz, events))
    decreases |events|
  {
    hide Step, Plausible;
    if |events| > 0 {
      RunFront(bootId, hz, events);
      RunKeepsLog(bootId, hz, events[..|events| - 1]);
      StepKeepsLog(Run(bootId, hz, events[..|events| - 1]), events[|events| - 1]);
    }
  }

  /**
   Whatever is lost, repeated or overtaken: within a session commands are processed in increasing number order,
   so each number at most once, and after a STOP or WAIT nothing with a lower number.
   */
  lemma CommandsTakeEffectInOrder(bootId: string, hz: nat, events: seq<Event>, i: nat, j: nat)
    requires PlausibleRun(bootId, hz, events) && i < j < |Run(bootId, hz, events).effects|
    ensures var log := Run(bootId, hz, events).effects;
      log[i].session == log[j].session ==> log[i].number < log[j].number
  {
    RunKeepsLog(bootId, hz, events);
  }

  /**
   A repeat of the last processed command of the live session only replays the recorded result; the same number
   with another payload is reported as a conflict; a lower number is stale. None of them is processed.
   */
  lemma OldNumbersAreOnlyAnswered(bootId: string, hz: nat, events: seq<Event>, number: CommandSeq, command: Command)
    requires PlausibleRun(bootId, hz, events)
    requires var c := Run(bootId, hz, events);
      && c.snap.sessionActive && |c.effects| > 0
      && c.effects[|c.effects| - 1].session == c.snap.session
      && number <= c.effects[|c.effects| - 1].number
    ensures var c := Run(bootId, hz, events);
      var latest := c.effects[|c.effects| - 1];
      var d := if command.Stop? then EmergencyHalt(c) else c;
      HandleReliable(c, c.snap.session, number, command) ==
        if number < latest.number then Queue(d, StaleSeq, number)
        else if command == latest.command then Queue(d, latest.result, 0)
        else Queue(d, SeqConflict, number)
  {
    hide EmergencyHalt, Queue, Process;
    RunKeepsLog(bootId, hz, events);
    BouncedRecordsNothing(Run(bootId, hz, events), Run(bootId, hz, events).snap.session, number, command);
  }
}
