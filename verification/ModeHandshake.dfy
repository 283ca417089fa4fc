/**
 Arming for direct driving: the mode request is answered asynchronously, and callbacks of the link and the host's own
 operations and ticks run between any two steps of the thread that arms.
 */
module ModeHandshake {
  import opened Options
  import P = PoseControl
  import H = HostControl
  import HostController

  datatype Verdict = Accepted | Negative(why: string)

  /** How far the arming thread has come; `Ready` means it has seen no rejection and is about to arm. */
  datatype Phase = Idle | Waiting | Woken | Ready

  datatype Session = Session(car: int, phase: Phase, setModeSeq: Option<int>, accepted: bool, rejected: Option<string>,
                             streaming: bool, host: H.Host)

  datatype Event =
    | Begin(seqNumber: int)                        // the request is sent and its number stored
    | BeginAfterClear(seqNumber: int)              // re-arming clears a latched fault first
    | CommandResult(car: int, seqNumber: int, verdict: Verdict)
    | CommandRejected(car: int, why: string)
    | CommFail(car: int)
    | CommRecovered(car: int)
    | Resync(car: int)
    | Wakes                                        // the wait ends because `accepted` is set
    | TimesOut                                     // the wait ends without it
    | ChecksRejection
    | ArmsAuto
    | HostDoes(ev: H.Event)                        // a tick, an observation, an operator or any other user of the host

  function Fault(s: Session, reason: string): Session { s.(host := H.Fault(s.host, reason)) }

  function StartOver(s: Session, seqNumber: int): Session {
    s.(phase := Waiting, setModeSeq := Some(seqNumber), accepted := false, rejected := None)
  }

  function Refuse(s: Session, why: string): Session {
    Fault(s, "SET_MODE_" + why).(rejected := Some(why), accepted := true)
  }

  function OnResult(s: Session, seqNumber: int, v: Verdict): Session {
    if s.setModeSeq != Some(seqNumber) then s
    else if v == Accepted then s.(accepted := true)
    else Refuse(s, v.why)
  }

  function Step(s: Session, u: H.Setup, ev: Event): Session {
    match ev
    case Begin(n) => if s.phase == Idle then StartOver(s, n) else s
    case BeginAfterClear(n) => if s.phase == Idle then StartOver(s.(host := H.ClearFault(s.host)), n) else s
    case CommandResult(car, n, v) => if car != s.car then s else OnResult(s, n, v)
    case CommandRejected(car, why) => if car != s.car then s else Refuse(s, why)
    case CommFail(car) => if car != s.car then s else Fault(s, "COMM_TIMEOUT")
    case CommRecovered(_) => s
    case Resync(car) => if car != s.car then s else Fault(s, "RESYNC").(accepted := false, setModeSeq := None)
    case Wakes => if s.phase == Waiting && s.accepted then s.(phase := Woken) else s
    case TimesOut => if s.phase == Waiting && !s.accepted then Fault(s, "SET_MODE_TIMEOUT").(phase := Idle) else s
    case ChecksRejection =>
      if s.phase != Woken then s
      else if s.rejected.Some? then Fault(s, "SET_MODE_" + s.rejected.value).(phase := Idle)
      else s.(phase := Ready)
    case ArmsAuto =>
      if s.phase != Ready then s
      else s.(phase := Idle, streaming := true, host := H.Step(s.host, u, H.ArmsAuto))
    case HostDoes(e) => s.(host := H.Step(s.host, u, e))
  }

  /** One car, its host's configuration and the mission the host starts with. */
  datatype Site = Site(car: int, setup: H.Setup, waypoints: seq<P.Waypoint>)

  function Start(site: Site): Session {
    Session(site.car, Idle, None, false, None, false, H.Start(site.waypoints))
  }

  function Run(site: Site, events: seq<Event>): Session {
    if |events| == 0 then Start(site)
    else Step(Run(site, events[..|events| - 1]), site.setup, events[|events| - 1])
  }

  // --- what each step does ---

  /** The host is faulted; the first fault is the one remembered. */
  ghost predicate FaultedFor(s: Session, t: Session, reason: string) {
    && t.host.authority == H.Faulted
    && t.host.faultReason == (if s.host.authority == H.Faulted then s.host.faultReason else reason)
    && t.host == s.host.(authority := t.host.authority, faultReason := t.host.faultReason)
  }

  /**
   A result of this car for the latest request ends the wait: an acceptance without more ado, anything else as a fault
   that is remembered as the rejection. Other results do nothing. A rejection of this car needs no number.
   */
  lemma AnswerExactly(s: Session, u: H.Setup, car: int, n: int, v: Verdict, why: string)
    requires why != ""
    ensures var t := Step(s, u, CommandResult(car, n, v));
      if car != s.car || s.setModeSeq != Some(n) then t == s
      else if v == Accepted then t == s.(accepted := true)
      else FaultedFor(s, t, "SET_MODE_" + v.why) && t == s.(accepted := true, rejected := Some(v.why), host := t.host)
    ensures var t := Step(s, u, CommandRejected(car, why));
      if car != s.car then t == s
      else FaultedFor(s, t, "SET_MODE_" + why) && t == s.(accepted := true, rejected := Some(why), host := t.host)
  {
    hide H.Step;
  }

  /** A session starts idle, with nothing asked, answered or streaming, over a disarmed host. */
  lemma SessionStartsExactly(site: Site)
    ensures var s := Run(site, []);
      && s.car == site.car && s.phase == Idle && s.setModeSeq == None && !s.accepted && s.rejected == None
      && !s.streaming && s.host.authority == H.Disarmed
  {
  }

  /** A failed link of this car faults; a greeting of this car also forgets the request; a recovery does nothing. */
  lemma LinkExactly(s: Session, u: H.Setup, car: int)
    ensures var t := Step(s, u, CommFail(car));
      if car != s.car then t == s else FaultedFor(s, t, "COMM_TIMEOUT") && t == s.(host := t.host)
    ensures var t := Step(s, u, Resync(car));
      if car != s.car then t == s
      else FaultedFor(s, t, "RESYNC") && t == s.(accepted := false, setModeSeq := None, host := t.host)
    ensures Step(s, u, CommRecovered(car)) == s
  {
    hide H.Step;
  }

  /**
   The arming thread: the request is stored and waited for; the wait ends with the answer, or in a fault; a rejection
   ends in a fault as well; and what is left arms a disarmed host and opens the stream.
   */
  lemma ThreadExactly(s: Session, u: H.Setup, n: int)
    ensures s.phase == Idle ==>
      Step(s, u, Begin(n)) == s.(phase := Waiting, setModeSeq := Some(n), accepted := false, rejected := None)
    ensures s.phase == Idle ==>
      var t := Step(s, u, BeginAfterClear(n));
      t == Step(s, u, Begin(n)).(host := t.host) && t.host.authority == (if s.host.authority == H.Faulted then H.Disarmed
                                                                         else s.host.authority)
    ensures s.phase == Waiting ==>
      var t, o := Step(s, u, Wakes), Step(s, u, TimesOut);
      if s.accepted then t == s.(phase := Woken) && o == s
      else t == s && FaultedFor(s, o, "SET_MODE_TIMEOUT") && o == s.(phase := Idle, host := o.host)
    ensures s.phase == Woken ==>
      var t := Step(s, u, ChecksRejection);
      if s.rejected.None? then t == s.(phase := Ready)
      else FaultedFor(s, t, "SET_MODE_" + s.rejected.value) && t == s.(phase := Idle, host := t.host)
    ensures s.phase == Ready ==>
      var t := Step(s, u, ArmsAuto);
      t == s.(phase := Idle, streaming := true, host := t.host)
      && t.host.authority == (if s.host.authority == H.Disarmed then H.AutoHost else s.host.authority)
  {
    hide H.Tick;
  }

  // --- what arming needs ---

  predicate Begins(ev: Event) { ev.Begin? || ev.BeginAfterClear? }

  /** A rejection of request n, or a rejection, communication failure or resync of this car, or a fault or stop. */
  predicate IsFault(car: int, n: int, ev: Event) {
    match ev
    case CommandResult(c, k, v) => c == car && k == n && v != Accepted
    case CommandRejected(c, _) => c == car
    case CommFail(c) => c == car
    case Resync(c) => c == car
    case HostDoes(e) => e.Faults?
    case _ => false
  }

  /** Somebody clears a latched fault of the host. */
  predicate ClearsHost(ev: Event) { ev.HostDoes? && H.Clears(ev.ev) }

  /** The host is armed past the session, as the switch between manual and automatic driving does. */
  predicate ArmsPastSession(ev: Event) { ev.HostDoes? && (ev.ev.ArmsAuto? || ev.ev.RearmsAuto?) }

  ghost predicate AcceptedSince(car: int, events: seq<Event>, b: nat, n: int) {
    exists a :: b < a < |events| && events[a] == CommandResult(car, n, Accepted)
  }

  ghost predicate FaultSince(car: int, events: seq<Event>, b: nat, n: int) {
    exists f :: b < f < |events| && IsFault(car, n, events[f])
  }

  /** A fault since position b, and a clearing after it. */
  ghost predicate ClearedSince(car: int, events: seq<Event>, b: nat, n: int) {
    exists f, k :: b < f < k < |events| && IsFault(car, n, events[f]) && ClearsHost(events[k])
  }

  /** What the answers say of request n, sent at position b. */
  ghost predicate AnswersKnown(car: int, events: seq<Event>, b: nat, n: int, s: Session) {
    && s.car == car
    && (s.setModeSeq.Some? ==> s.setModeSeq == Some(n))
    && (s.accepted || s.phase == Woken ==> AcceptedSince(car, events, b, n) || s.rejected.Some?)
    && (s.phase == Ready ==> AcceptedSince(car, events, b, n))
  }

  ghost predicate FaultsKnown(car: int, events: seq<Event>, b: nat, n: int, s: Session) {
    && (!FaultSince(car, events, b, n) ==> s.setModeSeq == Some(n))
    && (s.host.authority != H.Faulted && !ClearedSince(car, events, b, n) ==> !FaultSince(car, events, b, n))
  }

  /** What is known of a handshake under way that began at position b. */
  ghost predicate UnderWay(car: int, events: seq<Event>, b: nat, s: Session) {
    && b < |events| && Begins(events[b])
    && AnswersKnown(car, events, b, events[b].seqNumber, s)
    && FaultsKnown(car, events, b, events[b].seqNumber, s)
  }

  lemma SinceMore(car: int, events: seq<Event>, ev: Event, b: nat, n: int)
    requires b < |events|
    ensures var more := events + [ev];
      && (AcceptedSince(car, more, b, n) <==> AcceptedSince(car, events, b, n) || ev == CommandResult(car, n, Accepted))
      && (FaultSince(car, more, b, n) <==> FaultSince(car, events, b, n) || IsFault(car, n, ev))
      && (ClearedSince(car, more, b, n) <==>
            ClearedSince(car, events, b, n) || (FaultSince(car, events, b, n) && ClearsHost(ev)))
  {
    hide IsFault, ClearsHost;
    var more := events + [ev];
    assert more[|events|] == ev && forall i :: 0 <= i < |events| ==> more[i] == events[i];
    if ClearedSince(car, more, b, n) {
      var f, k :| b < f < k < |more| && IsFault(car, n, more[f]) && ClearsHost(more[k]);
      assert IsFault(car, n, events[f]);
    }
    if FaultSince(car, events, b, n) && ClearsHost(ev) {
      var f :| b < f < |events| && IsFault(car, n, events[f]);
      assert IsFault(car, n, more[f]) && ClearsHost(more[|events|]);
    }
  }

  lemma RunKeepsCar(site: Site, events: seq<Event>)
    ensures Run(site, events).car == site.car
  {
    hide H.Step;
  }

  /** An event that is not a clearing leaves a faulted host faulted while a handshake is under way. */
  lemma HostStaysFaulted(s: Session, u: H.Setup, ev: Event)
    requires s.host.authority == H.Faulted && s.phase != Idle && !ClearsHost(ev)
    ensures Step(s, u, ev).host.authority == H.Faulted
  {
    hide H.Step;
    if ev.HostDoes? {
      H.FaultLatches(s.host, u, ev.ev);
    }
    H.FaultLatches(s.host, u, H.ArmsAuto);
  }

  lemma FaultEventFaults(s: Session, u: H.Setup, ev: Event)
    requires s.setModeSeq.Some? && IsFault(s.car, s.setModeSeq.value, ev)
    ensures Step(s, u, ev).host.authority == H.Faulted
  {
  }

  lemma AnswersStayKnown(car: int, u: H.Setup, events: seq<Event>, b: nat, n: int, s: Session, ev: Event)
    requires b < |events| && s.phase != Idle && AnswersKnown(car, events, b, n, s)
    ensures AnswersKnown(car, events + [ev], b, n, Step(s, u, ev))
  {
    hide AcceptedSince, FaultSince, ClearedSince, IsFault, H.Step, H.Fault;
    SinceMore(car, events, ev, b, n);
  }

  lemma FaultsStayKnown(car: int, u: H.Setup, events: seq<Event>, b: nat, n: int, s: Session, ev: Event)
    requires b < |events| && s.phase != Idle && AnswersKnown(car, events, b, n, s) && FaultsKnown(car, events, b, n, s)
    ensures FaultsKnown(car, events + [ev], b, n, Step(s, u, ev))
  {
    hide AcceptedSince, FaultSince, ClearedSince, Step, ClearsHost, IsFault;
    SinceMore(car, events, ev, b, n);
    if s.host.authority == H.Faulted && !ClearsHost(ev) {
      HostStaysFaulted(s, u, ev);
    }
    if s.setModeSeq == Some(n) && IsFault(car, n, ev) {
      FaultEventFaults(s, u, ev);
    }
    if !IsFault(car, n, ev) && s.setModeSeq.Some? {
      OnlyResyncForgets(s, u, n, ev);
    }
  }

  lemma OnlyResyncForgets(s: Session, u: H.Setup, n: int, ev: Event)
    requires s.phase != Idle && s.setModeSeq.Some? && !IsFault(s.car, n, ev)
    ensures Step(s, u, ev).setModeSeq == s.setModeSeq
  {
    hide H.Step, H.Fault;
  }

  lemma StepUnderWay(car: int, u: H.Setup, events: seq<Event>, b: nat, s: Session, ev: Event)
    requires UnderWay(car, events, b, s) && s.phase != Idle
    ensures UnderWay(car, events + [ev], b, Step(s, u, ev))
  {
    hide AnswersKnown, FaultsKnown, Step;
    assert (events + [ev])[b] == events[b];
    AnswersStayKnown(car, u, events, b, events[b].seqNumber, s, ev);
    FaultsStayKnown(car, u, events, b, events[b].seqNumber, s, ev);
  }

  lemma BeginUnderWay(car: int, u: H.Setup, events: seq<Event>, s: Session, ev: Event)
    requires s.car == car && s.phase == Idle && Begins(ev)
    ensures UnderWay(car, events + [ev], |events|, Step(s, u, ev))
  {
    hide H.Step;
  }

  lemma {:induction false} HandshakeUnderWay(site: Site, events: seq<Event>) returns (b: nat)
    requires Run(site, events).phase != Idle
    ensures UnderWay(site.car, events, b, Run(site, events))
    decreases |events|
  {
    hide Step, UnderWay;
    var front, ev := events[..|events| - 1], events[|events| - 1];
    var s := Run(site, front);
    assert events == front + [ev];
    RunKeepsCar(site, front);
    if s.phase == Idle {
      OnlyBeginStarts(s, site.setup, ev);
      b := |front|;
      BeginUnderWay(site.car, site.setup, front, s, ev);
    } else {
      b := HandshakeUnderWay(site, front);
      StepUnderWay(site.car, site.setup, front, b, s, ev);
    }
  }

  lemma OnlyBeginStarts(s: Session, u: H.Setup, ev: Event)
    requires s.phase == Idle && Step(s, u, ev).phase != Idle
    ensures Begins(ev)
  {
    hide H.Step;
  }

  predicate UnderAuto(s: Session) { s.host.authority == H.AutoHost }

  /** The last event switches the authority to AUTO_HOST. */
  ghost predicate SwitchesToAuto(site: Site, events: seq<Event>) {
    |events| > 0 && UnderAuto(Run(site, events)) && !UnderAuto(Run(site, events[..|events| - 1]))
  }

  lemma OnlyArmingSwitches(s: Session, u: H.Setup, ev: Event)
    requires UnderAuto(Step(s, u, ev)) && !UnderAuto(s)
    ensures s.host.authority == H.Disarmed || ArmsPastSession(ev)
    ensures ArmsPastSession(ev) || (ev.ArmsAuto? && s.phase == Ready)
  {
    hide H.Step;
    if ev.HostDoes? {
      H.OnlyArmingEntersAuto(s.host, u, ev.ev);
    } else {
      H.OnlyArmingEntersAuto(s.host, u, H.ArmsAuto);
    }
  }

  /**
   The handshake behind an arming by the session as event `last`: it began at b and its own request was accepted at a.
   A fault lies between the beginning and the arming if and only if one lies there that somebody cleared.
   */
  ghost predicate ArmedByHandshake(car: int, events: seq<Event>, last: nat, b: nat, a: nat) {
    && b < a < last < |events| && Begins(events[b])
    && var n := events[b].seqNumber;
    && events[a] == CommandResult(car, n, Accepted)
    && ((exists f :: b < f < last && IsFault(car, n, events[f])) <==>
          (exists f, k :: b < f < k < last && IsFault(car, n, events[f]) && ClearsHost(events[k])))
  }

  lemma SinceIsBefore(car: int, events: seq<Event>, last: nat, b: nat, n: int)
    requires last < |events|
    ensures FaultSince(car, events[..last], b, n) <==> exists f :: b < f < last && IsFault(car, n, events[f])
    ensures ClearedSince(car, events[..last], b, n) <==>
      exists f, k :: b < f < k < last && IsFault(car, n, events[f]) && ClearsHost(events[k])
  {
    hide IsFault, ClearsHost;
    var front := events[..last];
    assert forall i :: 0 <= i < last ==> front[i] == events[i];
    if f :| b < f < last && IsFault(car, n, events[f]) {
      assert IsFault(car, n, front[f]);
    }
    if f, k :| b < f < k < last && IsFault(car, n, events[f]) && ClearsHost(events[k]) {
      assert IsFault(car, n, front[f]) && ClearsHost(front[k]);
    }
  }

  /**
   Unless the host is armed past the session, the authority becomes AUTO_HOST only after the very request that the
   handshake sent was accepted, and with a rejection, communication failure, resync, fault or stop in between exactly
   if a fault in between was cleared again.
   */
  lemma ArmingNeedsAcceptance(site: Site, events: seq<Event>) returns (b: nat, a: nat)
    requires SwitchesToAuto(site, events)
    ensures ArmsPastSession(events[|events| - 1]) || ArmedByHandshake(site.car, events, |events| - 1, b, a)
  {
    hide Step, IsFault, ClearsHost;
    var last := |events| - 1;
    OnlyArmingSwitches(Run(site, events[..last]), site.setup, events[last]);
    b, a := 0, 0;
    if !ArmsPastSession(events[last]) {
      b := HandshakeUnderWay(site, events[..last]);
      var n := events[b].seqNumber;
      var i :| b < i < last && events[..last][i] == CommandResult(site.car, n, Accepted);
      a := i;
      SinceIsBefore(site.car, events, last, b, n);
    }
  }

  /** Under AUTO_HOST, the switch that led there: none followed that left it. */
  lemma {:induction false} AutoSince(site: Site, events: seq<Event>) returns (m: nat)
    requires UnderAuto(Run(site, events))
    ensures m < |events| && SwitchesToAuto(site, events[..m + 1])
    ensures forall k :: m < k <= |events| ==> UnderAuto(Run(site, events[..k]))
    decreases |events|
  {
    hide Step;
    var last := |events| - 1;
    assert events[..|events|] == events;
    if UnderAuto(Run(site, events[..last])) {
      m := AutoSince(site, events[..last]);
      assert forall k :: 0 <= k <= last ==> events[..last][..k] == events[..k];
    } else {
      m := last;
    }
  }

  /**
   End to end: a payload that moves or steers under AUTO_HOST has a running mission and a usable last observation
   behind it, and an arming at m that nothing has ended since: by the handshake whose request was accepted, or past it.
   */
  lemma DrivingNeedsAcceptance(site: Site, events: seq<Event>, tick: H.Event) returns (m: nat, b: nat, a: nat)
    requires P.Sensible(site.setup.config) && tick.Ticks? && UnderAuto(Run(site, events))
    requires var h := Run(site, events).host; !H.ZeroPayload(H.Step(h, site.setup, tick).sent[|h.sent|])
    ensures var h := Run(site, events).host;
      && h.mission.status == H.Running && H.Target(h.mission).Some?
      && H.SeenBy(h, tick).Some? && P.Usable(site.setup.config, H.SeenBy(h, tick).value, tick.now)
    ensures m < |events| && forall k :: m < k <= |events| ==> UnderAuto(Run(site, events[..k]))
    ensures ArmsPastSession(events[m]) || ArmedByHandshake(site.car, events, m, b, a)
  {
    hide Run, H.Step, ArmedByHandshake, SwitchesToAuto, ArmsPastSession;
    H.AutoPayloadIsBacked(Run(site, events).host, site.setup, tick);
    m := AutoSince(site, events);
    b, a := ArmingNeedsAcceptance(site, events[..m + 1]);
    if !ArmsPastSession(events[m]) {
      ArmedBefore(site.car, events, m, b, a);
    }
  }

  lemma ArmedBefore(car: int, events: seq<Event>, m: nat, b: nat, a: nat)
    requires m < |events| && ArmedByHandshake(car, events[..m + 1], m, b, a)
    ensures ArmedByHandshake(car, events, m, b, a)
  {
    var front := events[..m + 1];
    assert forall i :: 0 <= i <= m ==> front[i] == events[i];
    var n := events[b].seqNumber;
    SinceIsBefore(car, events, m, b, n);
    SinceIsBefore(car, front, m, b, n);
    assert front[..m] == events[..m];
  }

  lemma Then(site: Site, events: seq<Event>, ev: Event) returns (more: seq<Event>)
    ensures more == events + [ev] && Run(site, more) == Step(Run(site, events), site.setup, ev)
  {
    more := events + [ev];
    assert more[..|events|] == events;
  }

  /**
   A fault that an operator clears between the acceptance and the arming leaves no trace: the link fails after the
   request was accepted, and the host arms nevertheless.
   */
  lemma ClearedFaultLetsItArm(site: Site) returns (events: seq<Event>)
    ensures SwitchesToAuto(site, events)
    ensures events == [Begin(1), CommandResult(site.car, 1, Accepted), Wakes, ChecksRejection, CommFail(site.car),
                       HostDoes(H.ClearsFault), ArmsAuto]
  {
    hide Run;
    RunOfNothing(site);
    var begun := Then(site, [], Begin(1));
    var answered := Then(site, begun, CommandResult(site.car, 1, Accepted));
    var woken := Then(site, answered, Wakes);
    var ready := Then(site, woken, ChecksRejection);
    var failed := Then(site, ready, CommFail(site.car));
    var cleared := Then(site, failed, HostDoes(H.ClearsFault));
    events := Then(site, cleared, ArmsAuto);
    assert events[..|events| - 1] == cleared;
  }

  lemma RunOfNothing(site: Site)
    ensures Run(site, []) == Start(site)
  {
  }

  // --- the session object ---

  class RemoteDirectSession {
    const host: HostController.HostController
    const car: int
    var phase: Phase
    var setModeSeq: Option<int>
    var accepted: bool
    var rejectedReason: Option<string>
    var streaming: bool

    ghost function Abs(): Session
      reads this, host.authority, host.poseSource, host.mission, host.controller, host.sender
    {
      Session(car, phase, setModeSeq, accepted, rejectedReason, streaming, host.Abs())
    }

    constructor (host: HostController.HostController, car: int)
      ensures this.host == host && this.car == car
      ensures Abs() == Session(car, Idle, None, false, None, false, host.Abs())
    {
      this.host, this.car := host, car;
      phase, setModeSeq, accepted, rejectedReason, streaming := Idle, None, false, None, false;
    }

    /** Send the mode request; `given` is the number the transport gave it. One thread arms, one handshake at a time. */
    method BeginHandshake(given: int)
      requires phase == Idle
      modifies this
      ensures Abs() == Step(old(Abs()), host.setup, Begin(given))
    {
      accepted := false;
      rejectedReason := None;
      setModeSeq := Some(given);
      phase := Waiting;
    }

    method BeginRearm(given: int)
      requires phase == Idle
      modifies this, host.authority
      ensures Abs() == Step(old(Abs()), host.setup, BeginAfterClear(given))
    {
      if host.authority.state == H.Faulted {
        var cleared := host.authority.ClearFault();
      }
      BeginHandshake(given);
    }

    method OnCommandResult(forCar: int, number: int, v: Verdict)
      modifies this, host.authority
      ensures Abs() == Step(old(Abs()), host.setup, CommandResult(forCar, number, v))
    {
      if forCar != car || setModeSeq != Some(number) {
        return;
      }
      if v == Accepted {
        accepted := true;
      } else {
        rejectedReason := Some(v.why);
        host.Fault("SET_MODE_" + v.why);
        accepted := true;
      }
    }

    method OnCommandRejected(forCar: int, why: string)
      modifies this, host.authority
      ensures Abs() == Step(old(Abs()), host.setup, CommandRejected(forCar, why))
    {
      if forCar != car {
        return;
      }
      rejectedReason := Some(why);
      host.Fault("SET_MODE_" + why);
      accepted := true;
    }

    method OnCommFail(forCar: int)
      modifies host.authority
      ensures Abs() == Step(old(Abs()), host.setup, CommFail(forCar))
    {
      if forCar == car {
        host.Fault("COMM_TIMEOUT");
      }
    }

    method OnResync(forCar: int)
      modifies this, host.authority
      ensures Abs() == Step(old(Abs()), host.setup, Resync(forCar))
    {
      if forCar != car {
        return;
      }
      host.Fault("RESYNC");
      accepted := false;
      setModeSeq := None;
    }

    /** The wait is over, because an answer came or because the time ran out. */
    method WaitAccepted() returns (ok: bool)
      requires phase == Waiting
      modifies this, host.authority
      ensures ok == old(accepted)
      ensures Abs() == Step(old(Abs()), host.setup, if ok then Wakes else TimesOut)
    {
      ok := accepted;
      if ok {
        phase := Woken;
      } else {
        host.Fault("SET_MODE_TIMEOUT");
        phase := Idle;
      }
    }

    method CheckRejection() returns (ok: bool)
      requires phase == Woken
      modifies this, host.authority
      ensures ok == old(rejectedReason).None?
      ensures Abs() == Step(old(Abs()), host.setup, ChecksRejection)
    {
      ok := rejectedReason.None?;
      if ok {
        phase := Ready;
      } else {
        host.Fault("SET_MODE_" + rejectedReason.value);
        phase := Idle;
      }
    }

    /** Open the stream and arm; arming is refused unless the authority is disarmed. */
    method Arm() returns (ok: bool)
      requires phase == Ready
      modifies this, host.authority, host.controller
      ensures ok == (old(host.authority.state) == H.Disarmed)
      ensures Abs() == Step(old(Abs()), host.setup, ArmsAuto)
    {
      streaming := true;
      ok := host.ArmAuto();
      phase := Idle;
    }
  }
}
