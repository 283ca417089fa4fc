/** The host's side of one vehicle session: judging statuses, keeping the newest snapshot, noticing outages. */
module HostLink {
  import opened Options
  import opened VehicleTypes
  import opened Reliability
  import opened CommandProtocol

  datatype Notice = Failed | Recovered

  /** What a vehicle sends; a command result carries the same fields as a status. */
  datatype Incoming =
    | StatusMsg(status: Status)
    | ResultMsg(status: Status)
    | ArrivedMsg(session: string, eventId: Option<int>)
    | OtherMsg(session: string)

  function SessionOf(m: Incoming): string {
    if m.StatusMsg? || m.ResultMsg? then m.status.session else m.session
  }

  /** `reports` and `notices` are what the layer above has been told, `eventAcks` the events answered. */
  datatype Link = Link(session: string, sender: Sender, last: Option<Status>, failed: bool, reports: seq<Report>,
                       notices: seq<Notice>, eventAcks: seq<int>, controlSeq: nat, control: Option<DirectSlot>)

  /** Hearing from the vehicle ends an outage; only its start and its end are announced. */
  function Recover(l: Link): Link {
    if l.failed then l.(failed := false, notices := l.notices + [Recovered]) else l
  }

  function FailLink(l: Link): Link {
    if l.failed then l else l.(failed := true, sender := Clear(l.sender), notices := l.notices + [Failed])
  }

  /** A final result for the outstanding command is reported and acknowledged, whatever the age of the snapshot. */
  function Settle(l: Link, status: Status): Link {
    var report := Judge(l.session, l.sender, status);
    if report.None? then l
    else l.(sender := Ack(l.sender, report.value.number), reports := l.reports + [report.value])
  }

  predicate Own(session: string, m: Incoming, ownCar: bool) {
    (SessionOf(m) == "" || SessionOf(m) == session) && ownCar
  }

  predicate Newer(last: Option<Status>, status: Status) {
    last.None? || status.statusSeq > last.value.statusSeq
  }

  /** An answer counts whatever carries it; only a newer status becomes the snapshot, and an arrival is only answered. */
  function Hear(l: Link, m: Incoming, ownCar: bool): Link {
    var r := Recover(l);
    if !Own(l.session, m, ownCar) then r
    else
      match m
      case StatusMsg(status) =>
        var s := Settle(r, status);
        if Newer(s.last, status) then s.(last := Some(status)) else s
      case ResultMsg(status) => Settle(r, status)
      case ArrivedMsg(_, Some(id)) => r.(eventAcks := r.eventAcks + [id])
      case _ => r
  }

  function PushControl(l: Link, throttle: real, steering: real): Link {
    l.(controlSeq := l.controlSeq + 1, control := Some(DirectSlot(l.session, l.controlSeq + 1, throttle, steering)))
  }

  datatype LinkOp =
    | Hears(message: Incoming, ownCar: bool)
    | Fails
    | Operates(op: Op)
    | Pushes(throttle: real, steering: real)

  function LinkStep(l: Link, op: LinkOp): Link {
    match op
    case Hears(m, ownCar) => Hear(l, m, ownCar)
    case Fails => FailLink(l)
    case Operates(o) => l.(sender := Do(l.sender, o))
    case Pushes(t, s) => PushControl(l, t, s)
  }

  function Opened(session: string): Link {
    Link(session, FRESH_SENDER, None, false, [], [], [], 0, None)
  }

  function LinkAfter(session: string, ops: seq<LinkOp>): Link {
    if |ops| == 0 then Opened(session) else LinkStep(LinkAfter(session, ops[..|ops| - 1]), ops[|ops| - 1])
  }

  predicate IsOwnStatus(session: string, op: LinkOp) {
    op.Hears? && op.message.StatusMsg? && Own(session, op.message, op.ownCar)
  }

  /** The statuses of this session and car, in the order they were heard. */
  function Heard(session: string, ops: seq<LinkOp>): seq<Status> {
    if |ops| == 0 then []
    else
      var before, op := Heard(session, ops[..|ops| - 1]), ops[|ops| - 1];
      if IsOwnStatus(session, op) then before + [op.message.status] else before
  }

  ghost predicate Greatest(last: Option<Status>, heard: seq<Status>) {
    if last.None? then heard == []
    else last.value in heard && forall s :: s in heard ==> s.statusSeq <= last.value.statusSeq
  }

  lemma StepLast(l: Link, op: LinkOp)
    ensures LinkStep(l, op).session == l.session
    ensures LinkStep(l, op).last ==
      if IsOwnStatus(l.session, op) && Newer(l.last, op.message.status) then Some(op.message.status) else l.last
  {
    hide Judge, Do;
  }

  /** In any order of arrival the snapshot kept is the status with the greatest number: no message rolls it back. */
  lemma {:induction false} SnapshotIsGreatest(session: string, ops: seq<LinkOp>)
    ensures LinkAfter(session, ops).session == session
    ensures Greatest(LinkAfter(session, ops).last, Heard(session, ops))
  {
    hide LinkStep, IsOwnStatus;
    if |ops| > 0 {
      SnapshotIsGreatest(session, ops[..|ops| - 1]);
      StepLast(LinkAfter(session, ops[..|ops| - 1]), ops[|ops| - 1]);
    }
  }

  /** Outages are announced in turn: failed, recovered, failed, and so on, the last one being the present state. */
  ghost predicate Alternating(notices: seq<Notice>, failed: bool) {
    && (forall i :: 0 <= i < |notices| ==> notices[i] == if i % 2 == 0 then Failed else Recovered)
    && (failed <==> |notices| % 2 == 1)
  }

  /** One operation announces at most the start or the end of an outage, and only if it is one. */
  lemma StepAnnounces(l: Link, op: LinkOp)
    ensures var m := LinkStep(l, op);
      if m.failed == l.failed then m.notices == l.notices
      else m.notices == l.notices + [if m.failed then Failed else Recovered]
  {
    hide Judge, Do, Own, Newer;
  }

  lemma {:induction false} OutagesAreAnnouncedOnce(session: string, ops: seq<LinkOp>)
    ensures Alternating(LinkAfter(session, ops).notices, LinkAfter(session, ops).failed)
  {
    hide LinkStep;
    if |ops| > 0 {
      OutagesAreAnnouncedOnce(session, ops[..|ops| - 1]);
      StepAnnounces(LinkAfter(session, ops[..|ops| - 1]), ops[|ops| - 1]);
    }
  }

  /** Hearing an answer, in a status or alone, reports what the protocol's host reports, and acknowledges it at once. */
  lemma HearingRefinesTheHost(l: Link, w: World, m: Incoming) returns (acked: int)
    requires m.StatusMsg? || m.ResultMsg?
    requires l.session in w.senders && w.senders[l.session] == l.sender && w.reports == l.reports
    requires m.status in w.car.sent
    ensures var heard := WorldStep(w, HostHears(l.session, m.status));
      var v := WorldStep(heard, HostDoes(l.session, DoAck(acked)));
      var n := Hear(l, m, true);
      n.reports == v.reports && n.sender == v.senders[l.session] && v.car == w.car
  {
    var report := Judge(l.session, l.sender, m.status);
    acked := if report.Some? then report.value.number else 0;
  }

  // --- what each message does ---

  /**
   A status or a result of this car, for this session or none, that answers the outstanding command is reported with
   its result and ends the command; any other message reports nothing and leaves the sender alone.
   */
  lemma AnswersAreReported(l: Link, m: Incoming, ownCar: bool)
    ensures var n := Hear(l, m, ownCar);
      if ownCar && (m.StatusMsg? || m.ResultMsg?) && AnswersPending(l.session, l.sender, m.status) then
        && n.reports == l.reports + [Report(l.session, l.sender.pending.value.number, l.sender.pending.value.command,
                                            m.status.result)]
        && n.sender == l.sender.(pending := None)
      else n.reports == l.reports && n.sender == l.sender
  {
    hide Judge;
    if m.StatusMsg? || m.ResultMsg? {
      JudgedExactly(l.session, l.sender, m.status);
    }
  }

  /** Only an arrival of this car, for this session or none, that names its event is answered, by that event. */
  lemma ArrivalsAreAnswered(l: Link, m: Incoming, ownCar: bool)
    ensures Hear(l, m, ownCar).eventAcks ==
      if ownCar && m.ArrivedMsg? && m.eventId.Some? && (m.session == "" || m.session == l.session) then
        l.eventAcks + [m.eventId.value]
      else l.eventAcks
  {
    hide Judge;
  }

  /** Anything heard ends an outage, and a failure starts one and drops the outstanding command; each is announced once. */
  lemma OutageExactly(l: Link, m: Incoming, ownCar: bool)
    ensures var n := Hear(l, m, ownCar);
      !n.failed && n.notices == (if l.failed then l.notices + [Recovered] else l.notices)
    ensures var f := LinkStep(l, Fails);
      f.failed && if l.failed then f == l
                  else f.notices == l.notices + [Failed] && f.sender == l.sender.(pending := None) && f.last == l.last
  {
    hide Judge;
  }

  /** The snapshot changes exactly to a status of this car and session, or of none, that is numbered above it. */
  lemma SnapshotExactly(l: Link, m: Incoming, ownCar: bool)
    ensures Hear(l, m, ownCar).last ==
      if ownCar && m.StatusMsg? && (m.status.session == "" || m.status.session == l.session)
         && (l.last == None || m.status.statusSeq > l.last.value.statusSeq) then Some(m.status)
      else l.last
  {
    hide Judge;
  }

  /** The sender's own operations change the sender alone. */
  lemma OperatesExactly(l: Link, op: Op)
    ensures LinkStep(l, Operates(op)) == l.(sender := Do(l.sender, op))
  {
  }

  /** The next value pushed replaces the one before, each axis in its place, under the next number of this session. */
  lemma PushExactly(l: Link, throttle: real, steering: real)
    ensures var n := LinkStep(l, Pushes(throttle, steering));
      && n.control.Some? && n.controlSeq == l.controlSeq + 1
      && n.control.value.session == l.session && n.control.value.controlSeq == n.controlSeq
      && n.control.value.throttle == throttle && n.control.value.steering == steering
      && n.sender == l.sender && n.last == l.last && n.reports == l.reports
  {
  }

  class VehicleSession {
    const session: string
    const sender: ReliableSender
    var last: Option<Status>
    var commFailed: bool
    var controlSeq: nat
    var latestControl: Option<DirectSlot>
    var reports: seq<Report>
    var notices: seq<Notice>
    var eventAcks: seq<int>

    ghost function Abs(): Link
      reads this, sender
    {
      Link(session, sender.Abs(), last, commFailed, reports, notices, eventAcks, controlSeq, latestControl)
    }

    constructor (session: string)
      ensures Abs() == Opened(session) && fresh(sender)
    {
      this.session := session;
      sender := new ReliableSender();
      last, commFailed, controlSeq, latestControl := None, false, 0, None;
      reports, notices, eventAcks := [], [], [];
    }

    method CommRecovered()
      modifies this`commFailed, this`notices
      ensures Abs() == Recover(old(Abs()))
    {
      if !commFailed {
        return;
      }
      commFailed := false;
      notices := notices + [Recovered];
    }

    method CommFail()
      modifies this`commFailed, this`notices, sender
      ensures Abs() == FailLink(old(Abs()))
    {
      if commFailed {
        return;
      }
      commFailed := true;
      sender.ClearPending();
      notices := notices + [Failed];
    }

    method ConsumeCommandResult(status: Status)
      requires status.session == "" || status.session == session
      modifies this`reports, sender
      ensures Abs() == Settle(old(Abs()), status)
      ensures if old(AnswersPending(session, sender.Abs(), status)) then
                sender.pending == None &&
                reports == old(reports) + [Report(session, old(sender.pending).value.number,
                                                  old(sender.pending).value.command, status.result)]
              else sender.pending == old(sender.pending) && reports == old(reports)
    {
      var pending := sender.pending;
      if pending.None? || status.result == NoResult {
        return;
      }
      var number := pending.value.number;
      if status.lastSeq != number && status.rejectedSeq != number {
        return;
      }
      var cleared := sender.OnAck(number);
      reports := reports + [Report(session, number, pending.value.command, status.result)];
    }

    method Dispatch(m: Incoming, ownCar: bool)
      modifies this, sender
      ensures Abs() == Hear(old(Abs()), m, ownCar)
    {
      hide Settle;
      CommRecovered();
      if SessionOf(m) != "" && SessionOf(m) != session {
        return;
      }
      if !ownCar {
        return;
      }
      if m.StatusMsg? || m.ResultMsg? {
        SettleKeepsLast(Abs(), m.status);
        ConsumeCommandResult(m.status);
        if m.ResultMsg? {
          return;
        }
        if last.Some? && m.status.statusSeq <= last.value.statusSeq {
          return;
        }
        last := Some(m.status);
      } else if m.ArrivedMsg? {
        if m.eventId.Some? {
          eventAcks := eventAcks + [m.eventId.value];
        }
      }
    }

    method Push(throttle: real, steering: real)
      modifies this`controlSeq, this`latestControl
      ensures Abs() == PushControl(old(Abs()), throttle, steering)
    {
      controlSeq := controlSeq + 1;
      latestControl := Some(DirectSlot(session, controlSeq, throttle, steering));
    }
  }

  lemma SettleKeepsLast(l: Link, status: Status)
    ensures Settle(l, status).last == l.last
  {
  }
}
