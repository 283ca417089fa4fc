/** The remote-driving bridge as a state machine: session, arming, drive intents and status handling. */
module Bridge {
  import opened Options
  import opened Reals
  import opened VehicleTypes

  const MAX_RESENDS := 5

  datatype Kind = ModeRequest | StopRequest | ResetRequest

  datatype Outstanding = Outstanding(number: nat, kind: Kind, resends: nat)

  /** A status as the vehicle sent it, numbered or not; `encoder` is reported only in the direct mode. */
  datatype Report = Report(session: string, statusSeq: Option<nat>, acked: nat, rejected: nat, result: CommandResult,
                           state: State, mode: Mode, encoder: Option<int>)

  /** A snapshot passed on to the listeners, with the encoder's change since the previous one. */
  datatype Published = Published(report: Report, delta: Option<int>)

  datatype Session = Session(id: string, bootId: string, nextSeq: nat, outstanding: Option<Outstanding>,
                             throttle: real, steering: real, last: Option<Report>, lastStatusSeq: int)

  /** `published` is history since the session was opened. */
  datatype Bridge = Bridge(session: Option<Session>, attached: bool, streaming: bool, pendingMode: Option<nat>,
                           held: bool, lastEncoder: Option<int>, published: seq<Published>)

  // --- helpers ---

  function Unit(x: real): real { Clamp(x, -1.0, 1.0) }

  function Neutral(s: Option<Session>): Option<Session> {
    if s.None? then None else Some(s.value.(throttle := 0.0, steering := 0.0))
  }

  /** No stream, no mode request to wait for, and nothing to drive. */
  function Quiet(b: Bridge): Bridge {
    b.(streaming := false, pendingMode := None, session := Neutral(b.session))
  }

  function Latest(b: Bridge): Option<Report> {
    if b.session.None? then None else b.session.value.last
  }

  predicate InState(b: Bridge, states: set<State>) {
    Latest(b).Some? && Latest(b).value.state in states
  }

  /** The number a reliable command gets, if it may be sent now. */
  function NumberFor(b: Bridge, preempt: bool): Option<nat> {
    if b.session.None? || (b.session.value.outstanding.Some? && !preempt) then None else Some(b.session.value.nextSeq)
  }

  function SendReliable(b: Bridge, kind: Kind, preempt: bool): Bridge {
    var n := NumberFor(b, preempt);
    if n.None? then b
    else
      var s := b.session.value;
      b.(session := Some(s.(nextSeq := s.nextSeq + 1, outstanding := Some(Outstanding(n.value, kind, 0)))))
  }

  // --- intents ---

  function ModeIntent(b: Bridge): Bridge {
    if b.session.None? || b.pendingMode.Some? || !InState(b, {Ready}) then b
    else if Latest(b).value.mode == RemoteDirect then b.(session := Neutral(b.session), streaming := true)
    else if NumberFor(b, false).None? then b
    else
      var c := SendReliable(b, ModeRequest, false);
      c.(session := Neutral(c.session), streaming := false, pendingMode := NumberFor(b, false))
  }

  function StopIntent(b: Bridge): Bridge {
    var q := Quiet(b);
    if InState(b, {EmergencyStop}) && b.session.value.outstanding.None? then q else SendReliable(q, StopRequest, true)
  }

  function ResetIntent(b: Bridge): Bridge {
    if InState(b, {EmergencyStop, Error}) || (InState(b, {Syncing}) && b.held) then
      SendReliable(Quiet(b), ResetRequest, false)
    else b
  }

  function SetThrottle(b: Bridge, value: real): Bridge {
    if b.session.None? then b
    else
      var v := Unit(value);
      b.(session := Some(b.session.value.(throttle := if v != 0.0 && !b.streaming then 0.0 else v)))
  }

  function SetSteering(b: Bridge, value: real): Bridge {
    if b.session.None? then b
    else
      var v := Unit(value);
      b.(session := Some(b.session.value.(steering := if v != 0.0 && !b.streaming then 0.0 else v)))
  }

  function SetDrive(b: Bridge, throttle: real, steering: real): Bridge {
    if b.session.None? then b
    else
      var t, s := Unit(throttle), Unit(steering);
      if !b.streaming && (t != 0.0 || s != 0.0) then b.(session := Neutral(b.session))
      else b.(session := Some(b.session.value.(throttle := t, steering := s)))
  }

  function Pause(b: Bridge): Bridge { b.(streaming := false, session := Neutral(b.session)) }

  function Resume(b: Bridge): Bridge {
    if InState(b, {Ready, Waiting}) && Latest(b).value.mode == RemoteDirect then
      b.(session := Neutral(b.session), streaming := true)
    else b
  }

  // --- statuses ---

  predicate Answers(r: Report, number: nat) {
    r.result != NoResult && (r.acked == number || r.rejected == number)
  }

  predicate Negative(r: CommandResult) { r != NoResult && r != Accepted && r != AlreadyStopped }

  /** An exact final answer completes the outstanding command. */
  function Consume(b: Bridge, r: Report): Bridge
    requires b.session.Some?
  {
    var s := b.session.value;
    if s.outstanding.Some? && Answers(r, s.outstanding.value.number) then b.(session := Some(s.(outstanding := None)))
    else b
  }

  /** An answer to the pending mode request arms the stream or gives the request up. */
  function FinishMode(b: Bridge, r: Report): Bridge {
    if b.pendingMode.None? || !Answers(r, b.pendingMode.value) then b
    else if r.result == Accepted && r.mode == RemoteDirect then b.(streaming := true, pendingMode := None)
    else if Negative(r.result) || r.mode != RemoteDirect then Quiet(b)
    else b
  }

  predicate Stale(s: Session, r: Report) {
    r.statusSeq.Some? && r.statusSeq.value <= s.lastStatusSeq
  }

  /** The greatest status number so far. */
  function NextTop(top: int, r: Report): int {
    if r.statusSeq.Some? && r.statusSeq.value > top then r.statusSeq.value else top
  }

  function Delta(previous: Option<int>, encoder: Option<int>): Option<int> {
    if encoder.None? then None else if previous.None? then Some(0) else Some(encoder.value - previous.value)
  }

  /** A snapshot that is not stale: stop what it forbids, store it and pass it on. */
  function Record(b: Bridge, r: Report): Bridge
    requires b.session.Some?
  {
    var c :=
      if r.state in {EmergencyStop, Error, CommTimeout, Syncing} then Quiet(b)
      else if r.mode != RemoteDirect && b.streaming then Pause(b)
      else b;
    c.(session := Some(c.session.value.(last := Some(r), lastStatusSeq := NextTop(c.session.value.lastStatusSeq, r))),
       lastEncoder := if r.encoder.Some? then r.encoder else c.lastEncoder,
       published := c.published + [Published(r, Delta(b.lastEncoder, r.encoder))])
  }

  function OnStatus(b: Bridge, r: Report): Bridge {
    if b.session.None? || r.session != b.session.value.id then b
    else
      var c := FinishMode(Consume(b, r), r);
      if Stale(b.session.value, r) then c else Record(c, r)
  }

  // --- the link and the loops ---

  function OnHello(b: Bridge, bootId: string, previous: string, hold: bool, freshId: string): Bridge {
    if bootId == "" then b
    else if b.session.Some? && b.session.value.bootId == bootId && previous != b.session.value.id then b
    else
      b.(session := Some(Session(freshId, bootId, 1, None, 0.0, 0.0, None, -1)), streaming := false, pendingMode := None,
         held := hold, lastEncoder := None, published := [])
  }

  function Detach(b: Bridge): Bridge {
    Bridge(None, false, false, None, false, None, [])
  }

  predicate MayStream(b: Bridge) {
    Latest(b).Some? && Latest(b).value.mode == RemoteDirect
    && Latest(b).value.state !in {EmergencyStop, Error, CommTimeout, Syncing, Boot, WifiConnecting}
  }

  /** The stream's period: send the desired drive, or stop streaming if the last snapshot forbids it. */
  function DirectPeriod(b: Bridge): Bridge {
    if b.session.None? || !b.attached || !b.streaming || MayStream(b) then b else Pause(b)
  }

  function GiveUp(b: Bridge): Bridge
    requires b.session.Some? && b.session.value.outstanding.Some?
  {
    var n := b.session.value.outstanding.value.number;
    var c := b.(session := Some(b.session.value.(outstanding := None)));
    if b.pendingMode == Some(n) then Quiet(c) else c
  }

  function ResendPeriod(b: Bridge, expired: bool): Bridge {
    if b.session.None? || !b.attached || b.session.value.outstanding.None? || !expired then b
    else
      var o := b.session.value.outstanding.value;
      if o.resends >= MAX_RESENDS then GiveUp(b)
      else b.(session := Some(b.session.value.(outstanding := Some(o.(resends := o.resends + 1)))))
  }

  // --- runs: every intent runs to its end ---

  datatype Event =
    | Attaches | Detaches
    | Hello(bootId: string, previous: string, hold: bool, freshId: string)
    | StatusArrives(report: Report)
    | AsksMode | AsksStop | AsksReset
    | SetsThrottle(value: real) | SetsSteering(value: real) | SetsDrive(throttle: real, steering: real)
    | NudgesThrottle(delta: real) | NudgesSteering(delta: real) | Centers | Neutralizes
    | Pauses | Resumes
    | DirectTick | ResendTick(expired: bool)

  function Step(b: Bridge, ev: Event): Bridge {
    match ev
    case Attaches => b.(attached := true)
    case Detaches => Detach(b)
    case Hello(bootId, previous, hold, freshId) => OnHello(b, bootId, previous, hold, freshId)
    case StatusArrives(r) => OnStatus(b, r)
    case AsksMode => ModeIntent(b)
    case AsksStop => StopIntent(b)
    case AsksReset => ResetIntent(b)
    case SetsThrottle(v) => SetThrottle(b, v)
    case SetsSteering(v) => SetSteering(b, v)
    case SetsDrive(t, s) => SetDrive(b, t, s)
    case NudgesThrottle(d) => if b.session.None? then b else SetThrottle(b, b.session.value.throttle + d)
    case NudgesSteering(d) => if b.session.None? then b else SetSteering(b, b.session.value.steering + d)
    case Centers => if b.session.None? then b else b.(session := Some(b.session.value.(steering := 0.0)))
    case Neutralizes => if b.session.None? then b else b.(session := Some(b.session.value.(throttle := 0.0)))
    case Pauses => Pause(b)
    case Resumes => Resume(b)
    case DirectTick => DirectPeriod(b)
    case ResendTick(expired) => ResendPeriod(b, expired)
  }

  const START := Bridge(None, false, false, None, false, None, [])

  function Run(events: seq<Event>): Bridge {
    if |events| == 0 then START else Step(Run(events[..|events| - 1]), events[|events| - 1])
  }

  // --- nothing is driven unless streaming is armed ---

  ghost predicate DriveArmed(b: Bridge) {
    b.session.Some? && (b.session.value.throttle != 0.0 || b.session.value.steering != 0.0) ==> b.streaming
  }

  ghost predicate DriveInRange(b: Bridge) {
    b.session.Some? ==> -1.0 <= b.session.value.throttle <= 1.0 && -1.0 <= b.session.value.steering <= 1.0
  }

  lemma StatusKeepsArmed(b: Bridge, r: Report)
    requires DriveArmed(b) && DriveInRange(b)
    ensures DriveArmed(OnStatus(b, r)) && DriveInRange(OnStatus(b, r))
  {
    hide Record, FinishMode, Consume, Stale;
    if b.session.Some? {
      AnswersKeepArmed(b, r);
      AnswersKeepSnapshot(b, r);
      RecordKeepsArmed(FinishMode(Consume(b, r), r), r);
    }
  }

  lemma AnswersKeepArmed(b: Bridge, r: Report)
    requires b.session.Some? && DriveArmed(b) && DriveInRange(b)
    ensures var c := FinishMode(Consume(b, r), r); DriveArmed(c) && DriveInRange(c)
  {
    hide Answers, Negative;
  }

  lemma RecordKeepsArmed(b: Bridge, r: Report)
    requires b.session.Some? && DriveArmed(b) && DriveInRange(b)
    ensures DriveArmed(Record(b, r)) && DriveInRange(Record(b, r))
  {
    hide Delta;
  }

  lemma StepKeepsArmed(b: Bridge, ev: Event)
    requires DriveArmed(b) && DriveInRange(b)
    ensures DriveArmed(Step(b, ev)) && DriveInRange(Step(b, ev))
  {
    hide OnStatus, InState, MayStream;
    if ev.StatusArrives? {
      StatusKeepsArmed(b, ev.report);
    }
  }

  /** In every run a desired drive other than zero means that the stream is armed. */
  lemma {:induction false} DriveImpliesStreaming(events: seq<Event>)
    ensures DriveArmed(Run(events)) && DriveInRange(Run(events))
  {
    hide Step, DriveArmed, DriveInRange;
    if |events| > 0 {
      DriveImpliesStreaming(events[..|events| - 1]);
      StepKeepsArmed(Run(events[..|events| - 1]), events[|events| - 1]);
    } else {
      StartIsQuiet();
    }
  }

  lemma StartIsQuiet()
    ensures DriveArmed(START) && DriveInRange(START)
  {
  }

  // --- whose acceptance arms ---

  /** The mode request numbered n was sent at position m of the run, and nothing has called it off since. */
  ghost predicate RequestedAt(events: seq<Event>, m: nat, n: nat) {
    && m < |events| && events[m].AsksMode?
    && Run(events[..m]).pendingMode == None && Run(events[..m + 1]).pendingMode == Some(n)
    && forall k :: m < k < |events| ==> !events[k].AsksStop? && !events[k].Detaches?
  }

  lemma PendingChanges(b: Bridge, ev: Event)
    ensures Step(b, ev).pendingMode == b.pendingMode || Step(b, ev).pendingMode == None
      || (ev.AsksMode? && b.pendingMode == None)
    ensures ev.AsksStop? || ev.Detaches? ==> Step(b, ev).pendingMode == None
  {
    hide OnStatus, Latest, InState, MayStream, Unit;
    if ev.StatusArrives? {
      StatusOnlyDropsPending(b, ev.report);
    }
  }

  lemma StatusOnlyDropsPending(b: Bridge, r: Report)
    ensures OnStatus(b, r).pendingMode == b.pendingMode || OnStatus(b, r).pendingMode == None
  {
    hide Answers, Delta, Negative;
  }

  lemma {:induction false} PendingWasRequested(events: seq<Event>) returns (m: nat)
    requires Run(events).pendingMode.Some?
    ensures RequestedAt(events, m, Run(events).pendingMode.value)
  {
    hide Step;
    assert |events| > 0;
    var front, ev := events[..|events| - 1], events[|events| - 1];
    PendingChanges(Run(front), ev);
    assert events[..|front| + 1] == events;
    if Run(front).pendingMode.None? {
      m := |front|;
    } else {
      m := PendingWasRequested(front);
      assert front[..m] == events[..m] && front[..m + 1] == events[..m + 1];
    }
  }

  /**
   A status arms the stream only as the acceptance of the mode request that is still pending: one that was sent
   before a STOP can never arm it, however late its acceptance comes.
   */
  lemma ArmedByPendingRequest(events: seq<Event>, r: Report) returns (m: nat)
    requires !Run(events).streaming && Step(Run(events), StatusArrives(r)).streaming
    ensures Run(events).pendingMode.Some? && r.result == Accepted && r.mode == RemoteDirect
    ensures Answers(r, Run(events).pendingMode.value)
    ensures RequestedAt(events, m, Run(events).pendingMode.value)
  {
    StatusArmsOnlyPending(Run(events), r);
    m := PendingWasRequested(events);
  }

  lemma StatusArmsOnlyPending(b: Bridge, r: Report)
    requires !b.streaming && OnStatus(b, r).streaming
    ensures b.pendingMode.Some? && r.result == Accepted && r.mode == RemoteDirect && Answers(r, b.pendingMode.value)
  {
  }

  // --- what each intent and each period does ---

  /** The session wants nothing driven. */
  ghost predicate WantsNothing(b: Bridge) {
    b.session.Some? ==> b.session.value.throttle == 0.0 && b.session.value.steering == 0.0
  }

  /** Only the wanted throttle and steering differ. */
  ghost predicate SameButDrive(b: Bridge, c: Bridge) {
    && c.session.Some? == b.session.Some?
    && (b.session.Some? ==>
          c.session.value == b.session.value.(throttle := c.session.value.throttle, steering := c.session.value.steering))
    && c == b.(session := c.session)
  }

  /** Only the wanted drive and the arming of the stream differ. */
  ghost predicate SameButStream(b: Bridge, c: Bridge) {
    SameButDrive(b.(streaming := c.streaming, pendingMode := c.pendingMode), c)
  }

  /**
   Setting the drive: each axis becomes the wanted value or the nearest bound of [-1, 1]; with the stream not armed,
   anything but zero on either axis makes both zero.
   */
  lemma SetDriveExactly(b: Bridge, throttle: real, steering: real)
    requires b.session.Some?
    ensures var c := Step(b, SetsDrive(throttle, steering));
      && SameButDrive(b, c)
      && if !b.streaming && (throttle != 0.0 || steering != 0.0) then WantsNothing(c)
         else c.session.value.throttle == Clamp(throttle, -1.0, 1.0) && c.session.value.steering == Clamp(steering, -1.0, 1.0)
  {
    hide OnStatus, OnHello;
  }

  /** Setting one axis leaves the other alone; with the stream not armed it can only be set to zero. */
  lemma SetThrottleExactly(b: Bridge, value: real)
    requires b.session.Some?
    ensures var c := Step(b, SetsThrottle(value));
      SameButDrive(b, c) && c.session.value.steering == b.session.value.steering
      && c.session.value.throttle == if b.streaming then Clamp(value, -1.0, 1.0) else 0.0
  {
    hide OnStatus, OnHello;
  }

  lemma SetSteeringExactly(b: Bridge, value: real)
    requires b.session.Some?
    ensures var c := Step(b, SetsSteering(value));
      SameButDrive(b, c) && c.session.value.throttle == b.session.value.throttle
      && c.session.value.steering == if b.streaming then Clamp(value, -1.0, 1.0) else 0.0
  {
    hide OnStatus, OnHello;
  }

  /** Nudging adds to one axis; centring and neutral zero one. */
  lemma NudgeExactly(b: Bridge, value: real)
    requires b.session.Some?
    ensures Step(b, NudgesThrottle(value)) == Step(b, SetsThrottle(b.session.value.throttle + value))
    ensures Step(b, NudgesSteering(value)) == Step(b, SetsSteering(b.session.value.steering + value))
    ensures Step(b, Centers) == b.(session := Some(b.session.value.(steering := 0.0)))
    ensures Step(b, Neutralizes) == b.(session := Some(b.session.value.(throttle := 0.0)))
  {
    hide OnStatus, OnHello, SetThrottle, SetSteering;
  }

  /** The last snapshot is in one of these states. */
  ghost predicate LastIn(b: Bridge, states: set<State>) {
    b.session.Some? && b.session.value.last.Some? && b.session.value.last.value.state in states
  }

  ghost predicate LastDirect(b: Bridge) {
    b.session.Some? && b.session.value.last.Some? && b.session.value.last.value.mode == RemoteDirect
  }

  /** Pausing disarms and zeroes; resuming arms at zero, in READY or WAITING of the direct mode only. */
  lemma PauseExactly(b: Bridge)
    ensures var c := Step(b, Pauses);
      SameButStream(b, c) && !c.streaming && c.pendingMode == b.pendingMode && WantsNothing(c)
    ensures var c := Step(b, Resumes);
      if LastIn(b, {Ready, Waiting}) && LastDirect(b) then
        SameButStream(b, c) && c.streaming && c.pendingMode == b.pendingMode && WantsNothing(c)
      else c == b
  {
    hide OnStatus, OnHello;
  }

  /** A command of this kind goes out under the session's next number and is outstanding; nothing is wanted to drive. */
  ghost predicate Requests(b: Bridge, c: Bridge, kind: Kind) {
    b.session.Some? &&
    c == b.(streaming := false, pendingMode := c.pendingMode,
            session := Some(b.session.value.(throttle := 0.0, steering := 0.0, nextSeq := b.session.value.nextSeq + 1,
                                             outstanding := Some(Outstanding(b.session.value.nextSeq, kind, 0)))))
  }

  /**
   Asking for the direct mode takes a snapshot in READY and no request under way. Already in the direct mode it arms the
   stream at zero; otherwise, unless a command is outstanding, the request goes out and its number is waited for.
   */
  lemma ModeIntentExactly(b: Bridge)
    ensures var c := Step(b, AsksMode);
      if b.pendingMode.Some? || !LastIn(b, {Ready}) then c == b
      else if LastDirect(b) then
        SameButStream(b, c) && c.streaming && c.pendingMode == None && WantsNothing(c)
      else if b.session.value.outstanding.Some? then c == b
      else Requests(b, c, ModeRequest) && c.pendingMode == Some(b.session.value.nextSeq)
  {
    hide OnStatus, OnHello;
  }

  /**
   A STOP disarms, forgets the mode request and, with a session, goes out over any outstanding command; it is not sent
   to a vehicle last seen stopped, unless a command is outstanding.
   */
  lemma StopIntentExactly(b: Bridge)
    ensures var c := Step(b, AsksStop);
      && !c.streaming && c.pendingMode == None && WantsNothing(c)
      && if b.session.Some? && !(LastIn(b, {EmergencyStop}) && b.session.value.outstanding.None?) then
           Requests(b, c, StopRequest)
         else SameButStream(b, c)
  {
    hide OnStatus, OnHello;
  }

  /** A RESET takes a vehicle last seen locked, or held in the handshake; it waits for an outstanding command. */
  lemma ResetIntentExactly(b: Bridge)
    ensures var c := Step(b, AsksReset);
      if LastIn(b, {EmergencyStop, Error}) || (LastIn(b, {Syncing}) && b.held) then
        && !c.streaming && c.pendingMode == None && WantsNothing(c)
        && if b.session.value.outstanding.None? then Requests(b, c, ResetRequest) else SameButStream(b, c)
      else c == b
  {
    hide OnStatus, OnHello;
  }

  /** The stream's period pauses an armed stream that the last snapshot forbids, and otherwise changes nothing. */
  lemma DirectPeriodExactly(b: Bridge)
    ensures var c := Step(b, DirectTick);
      var forbidden := !LastDirect(b)
                       || LastIn(b, {EmergencyStop, Error, CommTimeout, Syncing, Boot, WifiConnecting});
      if b.session.Some? && b.attached && b.streaming && forbidden then c == Step(b, Pauses) else c == b
  {
    hide OnStatus, OnHello;
  }

  /** An expired outstanding command is sent again up to five times; then it and a mode request under its number are dropped. */
  lemma ResendExactly(b: Bridge, expired: bool)
    ensures var c := Step(b, ResendTick(expired));
      if b.session.None? || !b.attached || b.session.value.outstanding.None? || !expired then c == b
      else
        var o := b.session.value.outstanding.value;
        if o.resends < 5 then
          c == b.(session := Some(b.session.value.(outstanding := Some(o.(resends := o.resends + 1)))))
        else
          var gone := b.(session := Some(b.session.value.(outstanding := None)));
          if b.pendingMode == Some(o.number) then
            SameButStream(gone, c) && !c.streaming && c.pendingMode == None && WantsNothing(c)
          else c == gone
  {
    hide OnStatus, OnHello;
  }

  /**
   A greeting without a boot id, or of the boot of the present session that did not lose it, changes nothing. Any other
   opens a session: numbered from 1, nothing outstanding, wanted or known, not armed.
   */
  lemma HelloExactly(b: Bridge, bootId: string, previous: string, hold: bool, freshId: string)
    ensures var c := Step(b, Hello(bootId, previous, hold, freshId));
      if bootId == "" || (b.session.Some? && b.session.value.bootId == bootId && previous != b.session.value.id) then c == b
      else
        && c.session == Some(Session(freshId, bootId, 1, None, 0.0, 0.0, None, -1)) && c.attached == b.attached
        && !c.streaming && c.pendingMode == None && c.held == hold && c.lastEncoder == None && c.published == []
  {
    hide OnStatus;
  }

  /** Attaching a sender arms nothing; detaching it ends everything. */
  lemma AttachExactly(b: Bridge)
    ensures Step(b, Attaches) == b.(attached := true) && Step(b, Detaches) == START
  {
    hide OnStatus, OnHello;
  }

  /** The report carries a final result under this number, as processed or as rejected. */
  ghost predicate Settles(r: Report, n: Option<nat>) {
    n.Some? && r.result != NoResult && (r.acked == n.value || r.rejected == n.value)
  }

  function OutstandingNumber(s: Session): Option<nat> {
    if s.outstanding.Some? then Some(s.outstanding.value.number) else None
  }

  /** An acceptance in the direct mode, under the number of the mode request. */
  ghost predicate Arms(b: Bridge, r: Report) {
    Settles(r, b.pendingMode) && r.result == Accepted && r.mode == RemoteDirect
  }

  /** A refusal of the mode request, or an answer to it from another mode. */
  ghost predicate Declines(b: Bridge, r: Report) {
    Settles(r, b.pendingMode) && (r.mode != RemoteDirect || (r.result != Accepted && r.result != AlreadyStopped))
  }

  /** The wanted drive is kept, or dropped. */
  ghost predicate KeepsDrive(b: Bridge, c: Bridge, keeps: bool) {
    && c.session.Some? && b.session.Some?
    && if keeps then c.session.value.throttle == b.session.value.throttle && c.session.value.steering == b.session.value.steering
       else WantsNothing(c)
  }

  lemma AnswerExactly(b: Bridge, r: Report)
    requires b.session.Some?
    ensures var c, s := FinishMode(Consume(b, r), r), b.session.value;
      && c.session.Some? && c.attached == b.attached && c.held == b.held && c.published == b.published
      && c.lastEncoder == b.lastEncoder
      && c.session.value.last == s.last && c.session.value.lastStatusSeq == s.lastStatusSeq && c.session.value.id == s.id
      && c.session.value.outstanding == (if Settles(r, OutstandingNumber(s)) then None else s.outstanding)
      && c.streaming == ((b.streaming || Arms(b, r)) && !Declines(b, r))
      && c.pendingMode == (if Arms(b, r) || Declines(b, r) then None else b.pendingMode)
      && KeepsDrive(b, c, !Declines(b, r))
  {
    hide FinishMode, Consume, Settles, Arms, Declines;
    ConsumeExactly(b, r);
    FinishExactly(Consume(b, r), r);
    SettlesIgnoresSession(b, Consume(b, r), r);
  }

  lemma ConsumeExactly(b: Bridge, r: Report)
    requires b.session.Some?
    ensures var s := b.session.value;
      Consume(b, r) == b.(session := Some(s.(outstanding := if Settles(r, OutstandingNumber(s)) then None else s.outstanding)))
  {
  }

  lemma SettlesIgnoresSession(b: Bridge, c: Bridge, r: Report)
    requires c.pendingMode == b.pendingMode
    ensures Arms(c, r) == Arms(b, r) && Declines(c, r) == Declines(b, r)
  {
  }

  lemma FinishExactly(b: Bridge, r: Report)
    requires b.session.Some?
    ensures var c := FinishMode(b, r);
      && c.session.Some? && c.session.value == b.session.value.(throttle := c.session.value.throttle,
                                                                steering := c.session.value.steering)
      && c.attached == b.attached && c.held == b.held && c.published == b.published && c.lastEncoder == b.lastEncoder
      && c.streaming == ((b.streaming || Arms(b, r)) && !Declines(b, r))
      && c.pendingMode == (if Arms(b, r) || Declines(b, r) then None else b.pendingMode)
      && KeepsDrive(b, c, !Declines(b, r))
  {
  }

  lemma RecordExactly(b: Bridge, r: Report)
    requires b.session.Some?
    ensures var c, s := Record(b, r), b.session.value;
      var halts := r.state in {EmergencyStop, Error, CommTimeout, Syncing};
      var leaves := r.mode != RemoteDirect && b.streaming;
      && c.session.Some? && c.attached == b.attached && c.held == b.held
      && |c.published| == |b.published| + 1 && c.published[..|b.published|] == b.published
      && c.published[|b.published|].report == r
      && c.session.value.last == Some(r) && c.session.value.outstanding == s.outstanding && c.session.value.id == s.id
      && c.streaming == (b.streaming && !halts && !leaves)
      && c.pendingMode == (if halts then None else b.pendingMode)
      && KeepsDrive(b, c, !halts && !leaves)
  {
    hide Delta, NextTop;
  }

  /**
   A status of this session ends the outstanding command it settles. The mode request it settles is over: with success
   in the direct mode the stream is armed; with a refusal, or in another mode, nothing is. Unless the status is stale it
   then becomes the snapshot and is passed on; a stopped, locked, lost or greeting vehicle, or one that has left the
   direct mode, is no longer streamed to. A status of another session does nothing.
   */
  lemma StatusExactly(b: Bridge, r: Report)
    ensures b.session.None? || r.session != b.session.value.id ==> Step(b, StatusArrives(r)) == b
    ensures b.session.Some? && r.session == b.session.value.id ==>
      var c, s := Step(b, StatusArrives(r)), b.session.value;
      var stale := r.statusSeq.Some? && r.statusSeq.value <= s.lastStatusSeq;
      var armed := (b.streaming || Arms(b, r)) && !Declines(b, r);
      var halts := !stale && r.state in {EmergencyStop, Error, CommTimeout, Syncing};
      var leaves := !stale && r.mode != RemoteDirect && armed;
      && c.streaming == (armed && !halts && !leaves)
      && c.pendingMode == (if Arms(b, r) || Declines(b, r) || halts then None else b.pendingMode)
      && KeepsDrive(b, c, !Declines(b, r) && !halts && !leaves)
      && c.session.value.outstanding == (if Settles(r, OutstandingNumber(s)) then None else s.outstanding)
      && c.session.value.last == (if stale then s.last else Some(r))
      && |c.published| == |b.published| + (if stale then 0 else 1)
      && c.attached == b.attached && c.held == b.held
  {
    hide FinishMode, Consume, Record, Settles, Arms, Declines;
    if b.session.Some? && r.session == b.session.value.id {
      AnswerExactly(b, r);
      RecordExactly(FinishMode(Consume(b, r), r), r);
    }
  }

  // --- snapshots never go back ---

  /** The statuses of the session now open, in the order they arrived. */
  function Arrived(events: seq<Event>): seq<Report> {
    if |events| == 0 then []
    else
      var front, ev := events[..|events| - 1], events[|events| - 1];
      var b, c := Run(front), Run(events);
      if ev.StatusArrives? && b.session.Some? && ev.report.session == b.session.value.id then Arrived(front) + [ev.report]
      else if ev.Detaches? || (ev.Hello? && c != b) then []
      else Arrived(front)
  }

  function Top(b: Bridge): int { if b.session.None? then -1 else b.session.value.lastStatusSeq }

  /** `top` is the greatest number among the statuses; the snapshot is one of them, and if numbered has that number. */
  ghost predicate GreatestOf(last: Option<Report>, top: int, rs: seq<Report>) {
    && (last.None? <==> rs == [])
    && (last.Some? ==> last.value in rs && (last.value.statusSeq.Some? ==> last.value.statusSeq.value == top))
    && (forall r :: r in rs && r.statusSeq.Some? ==> r.statusSeq.value <= top)
    && (top == -1 || exists r :: r in rs && r.statusSeq.Some? && r.statusSeq.value == top)
  }

  /** Session, snapshot and what was published are untouched. */
  ghost predicate SameSnapshot(b: Bridge, c: Bridge) {
    && c.session.Some? == b.session.Some? && Latest(c) == Latest(b) && Top(c) == Top(b)
    && (b.session.Some? ==> c.session.value.id == b.session.value.id)
    && c.published == b.published && c.lastEncoder == b.lastEncoder
  }

  lemma AnswersKeepSnapshot(b: Bridge, r: Report)
    requires b.session.Some?
    ensures SameSnapshot(b, FinishMode(Consume(b, r), r))
  {
    hide Answers, Negative;
  }

  lemma RecordSnapshot(b: Bridge, r: Report)
    requires b.session.Some?
    ensures var c := Record(b, r);
      && c.session.Some? && Latest(c) == Some(r) && c.session.value.id == b.session.value.id
      && Top(c) == NextTop(Top(b), r)
      && c.published == b.published + [Published(r, Delta(b.lastEncoder, r.encoder))]
      && c.lastEncoder == if r.encoder.Some? then r.encoder else b.lastEncoder
  {
    hide Delta;
  }

  /** What a status does to the snapshot: nothing, or it becomes the snapshot and is published. */
  lemma StatusSnapshot(b: Bridge, r: Report)
    ensures var c := OnStatus(b, r);
      if b.session.Some? && r.session == b.session.value.id && !Stale(b.session.value, r) then
        && c.session.Some? && Latest(c) == Some(r) && c.session.value.id == b.session.value.id
      && Top(c) == NextTop(Top(b), r)
        && c.published == b.published + [Published(r, Delta(b.lastEncoder, r.encoder))]
        && c.lastEncoder == (if r.encoder.Some? then r.encoder else b.lastEncoder)
      else SameSnapshot(b, c)
  {
    hide Record, FinishMode, Consume, Stale, Delta;
    if b.session.Some? {
      AnswersKeepSnapshot(b, r);
      RecordSnapshot(FinishMode(Consume(b, r), r), r);
    }
  }

  lemma SendKeepsSnapshot(b: Bridge, kind: Kind, preempt: bool)
    ensures SameSnapshot(b, SendReliable(b, kind, preempt))
  {
  }

  lemma QuietKeepsSnapshot(b: Bridge)
    ensures SameSnapshot(b, Quiet(b)) && SameSnapshot(b, Pause(b))
  {
  }

  lemma IntentsKeepSnapshot(b: Bridge)
    ensures SameSnapshot(b, ModeIntent(b)) && SameSnapshot(b, StopIntent(b))
    ensures SameSnapshot(b, ResetIntent(b)) && SameSnapshot(b, Resume(b))
  {
    hide SendReliable, Quiet, InState;
    QuietKeepsSnapshot(b);
    SendKeepsSnapshot(b, ModeRequest, false);
    SendKeepsSnapshot(Quiet(b), StopRequest, true);
    SendKeepsSnapshot(Quiet(b), ResetRequest, false);
  }

  lemma DrivesKeepSnapshot(b: Bridge, throttle: real, steering: real)
    ensures SameSnapshot(b, SetThrottle(b, throttle)) && SameSnapshot(b, SetSteering(b, steering))
    ensures SameSnapshot(b, SetDrive(b, throttle, steering))
  {
    hide Unit;
  }

  lemma LoopsKeepSnapshot(b: Bridge, expired: bool)
    ensures SameSnapshot(b, DirectPeriod(b)) && SameSnapshot(b, ResendPeriod(b, expired))
  {
    hide MayStream;
  }

  lemma OthersKeepSnapshot(b: Bridge, ev: Event)
    requires !ev.StatusArrives? && !ev.Detaches? && (ev.Hello? ==> Step(b, ev) == b)
    ensures SameSnapshot(b, Step(b, ev))
  {
    hide OnStatus, OnHello, ModeIntent, StopIntent, ResetIntent, Resume, Pause, SetThrottle, SetSteering, SetDrive,
      DirectPeriod, ResendPeriod;
    match ev
    case SetsThrottle(v) => DrivesKeepSnapshot(b, v, v);
    case SetsSteering(v) => DrivesKeepSnapshot(b, v, v);
    case SetsDrive(t, s) => DrivesKeepSnapshot(b, t, s);
    case NudgesThrottle(d) =>
      if b.session.Some? {
        DrivesKeepSnapshot(b, b.session.value.throttle + d, 0.0);
      }
    case NudgesSteering(d) =>
      if b.session.Some? {
        DrivesKeepSnapshot(b, 0.0, b.session.value.steering + d);
      }
    case Pauses => QuietKeepsSnapshot(b);
    case DirectTick => LoopsKeepSnapshot(b, false);
    case ResendTick(expired) => LoopsKeepSnapshot(b, expired);
    case _ => IntentsKeepSnapshot(b);
  }

  lemma SnapshotStep(b: Bridge, ev: Event)
    requires b.session.Some? && !ev.Detaches? && (ev.Hello? ==> Step(b, ev) == b)
    ensures var own := ev.StatusArrives? && ev.report.session == b.session.value.id;
      Step(b, ev).session.Some? && Step(b, ev).session.value.id == b.session.value.id
      && Latest(Step(b, ev)) == (if own && !Stale(b.session.value, ev.report) then Some(ev.report) else Latest(b))
      && Top(Step(b, ev)) == (if own && !Stale(b.session.value, ev.report) then NextTop(Top(b), ev.report) else Top(b))
  {
    hide OnStatus, Stale;
    if ev.StatusArrives? {
      StatusSnapshot(b, ev.report);
    } else {
      OthersKeepSnapshot(b, ev);
    }
  }

  lemma NewSessionIsEmpty(b: Bridge, ev: Event)
    requires b.session.None? || ev.Detaches? || (ev.Hello? && Step(b, ev) != b)
    ensures Latest(Step(b, ev)) == None && Top(Step(b, ev)) == -1
  {
  }

  /**
   For any order of arrival the stored snapshot is the session's status with the greatest sequence number, or one
   without a number, and the session knows that greatest number.
   */
  lemma {:induction false} LastStatusIsGreatest(events: seq<Event>)
    ensures GreatestOf(Latest(Run(events)), Top(Run(events)), Arrived(events))
    decreases |events|
  {
    hide Step, Stale, GreatestOf, NextTop, Latest, Top;
    if |events| == 0 {
      NothingArrived();
    } else {
      var front, ev := events[..|events| - 1], events[|events| - 1];
      var b := Run(front);
      LastStatusIsGreatest(front);
      if b.session.Some? && !ev.Detaches? && (ev.Hello? ==> Step(b, ev) == b) {
        SnapshotStep(b, ev);
        if ev.StatusArrives? && ev.report.session == b.session.value.id {
          OneMoreArrives(b, ev.report, Arrived(front));
        }
      } else {
        NewSessionIsEmpty(b, ev);
        SessionOnlyFromHello(front);
        NothingArrived();
      }
    }
  }

  lemma NothingArrived()
    ensures GreatestOf(None, -1, []) && Latest(START) == None && Top(START) == -1
  {
  }

  lemma OneMoreArrives(b: Bridge, r: Report, rs: seq<Report>)
    requires b.session.Some? && GreatestOf(Latest(b), Top(b), rs)
    ensures if Stale(b.session.value, r) then GreatestOf(Latest(b), Top(b), rs + [r])
            else GreatestOf(Some(r), NextTop(Top(b), r), rs + [r])
  {
    var more := rs + [r];
    assert r in more && forall q :: q in more <==> q in rs || q == r;
    if !Stale(b.session.value, r) && NextTop(Top(b), r) == Top(b) != -1 {
      var q :| q in rs && q.statusSeq.Some? && q.statusSeq.value == Top(b);
      assert q in more;
    } else if Stale(b.session.value, r) {
      var q :| q in rs && q.statusSeq.Some? && q.statusSeq.value == Top(b);
      assert q in more;
    }
  }

  lemma {:induction false} SessionOnlyFromHello(events: seq<Event>)
    ensures Run(events).session.None? ==> Arrived(events) == []
    decreases |events|
  {
    hide Step;
    if |events| > 0 && Run(events).session.None? {
      var front, ev := events[..|events| - 1], events[|events| - 1];
      SessionOnlyFromHello(front);
      SessionEnds(Run(front), ev);
    }
  }

  lemma SessionEnds(b: Bridge, ev: Event)
    requires Step(b, ev).session.None?
    ensures b.session.None? || ev.Detaches?
  {
    if b.session.Some? && ev.StatusArrives? {
      hide OnStatus, Stale;
      StatusSnapshot(b, ev.report);
    } else if b.session.Some? && !ev.Detaches? && !ev.Hello? {
      hide Step;
      OthersKeepSnapshot(b, ev);
    }
  }

  // --- encoder deltas add up ---

  function SumDeltas(ps: seq<Published>): int {
    if |ps| == 0 then 0
    else SumDeltas(ps[..|ps| - 1]) + (if ps[|ps| - 1].delta.Some? then ps[|ps| - 1].delta.value else 0)
  }

  /** The first and the last encoder count passed on. */
  function FirstCount(ps: seq<Published>): Option<int> {
    if |ps| == 0 then None
    else
      var before := FirstCount(ps[..|ps| - 1]);
      if before.Some? then before else ps[|ps| - 1].report.encoder
  }

  function LastCount(ps: seq<Published>): Option<int> {
    if |ps| == 0 then None
    else if ps[|ps| - 1].report.encoder.Some? then ps[|ps| - 1].report.encoder
    else LastCount(ps[..|ps| - 1])
  }

  ghost predicate DeltasAddUp(b: Bridge) {
    && b.lastEncoder == LastCount(b.published)
    && (FirstCount(b.published).Some? <==> LastCount(b.published).Some?)
    && (FirstCount(b.published).Some? ==>
          SumDeltas(b.published) == LastCount(b.published).value - FirstCount(b.published).value)
    && (FirstCount(b.published).None? ==> SumDeltas(b.published) == 0)
    && (forall p :: p in b.published ==> (p.delta.Some? <==> p.report.encoder.Some?))
  }

  lemma PublishMore(ps: seq<Published>, p: Published)
    ensures SumDeltas(ps + [p]) == SumDeltas(ps) + (if p.delta.Some? then p.delta.value else 0)
    ensures FirstCount(ps + [p]) == if FirstCount(ps).Some? then FirstCount(ps) else p.report.encoder
    ensures LastCount(ps + [p]) == if p.report.encoder.Some? then p.report.encoder else LastCount(ps)
  {
    assert (ps + [p])[..|ps|] == ps;
  }

  /** What a step publishes: nothing, one more snapshot with its delta, or a fresh start. */
  ghost predicate Publishes(b: Bridge, c: Bridge, ev: Event) {
    || (c.published == b.published && c.lastEncoder == b.lastEncoder)
    || (c.published == [] && c.lastEncoder == None)
    || (ev.StatusArrives?
        && c.published == b.published + [Published(ev.report, Delta(b.lastEncoder, ev.report.encoder))]
        && c.lastEncoder == if ev.report.encoder.Some? then ev.report.encoder else b.lastEncoder)
  }

  lemma StepPublishes(b: Bridge, ev: Event)
    ensures Publishes(b, Step(b, ev), ev)
  {
    hide OnStatus, Stale, Delta;
    if ev.StatusArrives? {
      StatusSnapshot(b, ev.report);
    } else if !ev.Detaches? && !ev.Hello? {
      OthersKeepSnapshot(b, ev);
    }
  }

  lemma StillAddUp(b: Bridge, c: Bridge, ev: Event)
    requires DeltasAddUp(b) && Publishes(b, c, ev)
    ensures DeltasAddUp(c)
  {
    if ev.StatusArrives? {
      PublishMore(b.published, Published(ev.report, Delta(b.lastEncoder, ev.report.encoder)));
    }
  }

  /**
   Exactly the published snapshots with an encoder count have a delta, and the deltas of a session add up to its last
   count minus its first.
   */
  lemma {:induction false} EncoderDeltasAddUp(events: seq<Event>)
    ensures DeltasAddUp(Run(events))
  {
    hide Step, Publishes;
    if |events| > 0 {
      var b, ev := Run(events[..|events| - 1]), events[|events| - 1];
      EncoderDeltasAddUp(events[..|events| - 1]);
      StepPublishes(b, ev);
      StillAddUp(b, Step(b, ev), ev);
    }
  }
}
