/** Stall boost: earned by a long enough standstill, and given in one short window per stall episode. */
module VehicleStall {
  import opened Options
  import opened VehicleTypes
  import opened Actuator
  import opened VehicleSpec
  import opened VehicleSafety

  /** From entry i to entry j the vehicle was driven the same way and the encoder read the same. */
  ghost predicate OneEpisode(log: seq<Applied>, i: nat, j: nat)
    requires j < |log|
  {
    i <= j && log[j].sign != 0 && forall k :: i <= k <= j ==> log[k].encoder == log[j].encoder && log[k].sign == log[j].sign
  }

  /** The boost at entry j comes after at least `stall` ticks of one standstill. */
  ghost predicate Earned(log: seq<Applied>, j: nat, stall: nat)
    requires j < |log|
  {
    exists i :: 0 <= i <= j && OneEpisode(log, i, j) && log[j].tick - log[i].tick >= stall
  }

  /** Every earlier boost of the episode of entry j lies less than `boost` ticks back. */
  ghost predicate InWindow(log: seq<Applied>, j: nat, boost: nat)
    requires j < |log|
  {
    forall i :: 0 <= i < j && log[i].boosted && OneEpisode(log, i, j) ==> log[j].tick - log[i].tick < boost
  }

  /**
   Every boost is earned and lies less than `boost` ticks after any earlier one of its episode; and, as the stall
   timeout is not zero, every entry of which that holds is boosted.
   */
  ghost predicate FairBoosts(log: seq<Applied>, stall: nat, boost: nat) {
    && (forall j :: 0 <= j < |log| && log[j].boosted ==> Earned(log, j, stall) && InWindow(log, j, boost))
    && (stall > 0 ==> forall j :: 0 <= j < |log| && Earned(log, j, stall) && InWindow(log, j, boost) ==> log[j].boosted)
  }

  ghost predicate Ordered(log: seq<Applied>, clock: nat) {
    && (forall i, j :: 0 <= i < j < |log| ==> log[i].tick <= log[j].tick)
    && (forall i :: 0 <= i < |log| ==> log[i].tick <= clock)
  }

  /** Entry k was made in the standstill that is being tracked. */
  ghost predicate InStall(log: seq<Applied>, s: Stall, k: nat)
    requires k < |log|
  {
    log[k].encoder == s.encoder && log[k].sign == s.sign
  }

  /** The tracked episode runs from entry `since` to the end of the log, and starts no earlier. */
  ghost predicate Tracks(log: seq<Applied>, since: nat, s: Stall) {
    && since < |log| && s.sign != 0 && log[since].tick == s.motionTick
    && (forall k :: since <= k < |log| ==> InStall(log, s, k))
    && (since > 0 ==> !InStall(log, s, since - 1))
  }

  /** The boost window of the tracked episode. */
  ghost predicate Window(log: seq<Applied>, since: nat, s: Stall, clock: nat, stall: nat, boost: nat) {
    && (!s.used ==> s.boostUntil == 0 && forall k :: since <= k < |log| ==> !log[k].boosted)
    && (s.used ==>
          && s.boostUntil - boost <= clock && s.boostUntil - boost - s.motionTick >= stall
          && (forall k :: since <= k < |log| && log[k].boosted ==> s.boostUntil - boost <= log[k].tick)
          && (exists k :: since <= k < |log| && log[k].boosted && log[k].tick == s.boostUntil - boost))
  }

  ghost predicate StallInv(log: seq<Applied>, since: nat, s: Stall, clock: nat, stall: nat, boost: nat) {
    && FairBoosts(log, stall, boost)
    && Ordered(log, clock)
    && (s.tracking ==> Tracks(log, since, s) && Window(log, since, s, clock, stall, boost))
    && (!s.tracking && |log| > 0 ==> log[|log| - 1].sign == 0)
  }

  ghost predicate Fair(c: Context) {
    StallInv(c.applied, c.since, c.stall, c.clock, Ticks(DIRECT_STALL_TIMEOUT_MS, c.hz), Ticks(DIRECT_STALL_BOOST_MS, c.hz))
  }

  // --- one more applied command ---

  lemma EpisodeInFront(log: seq<Applied>, e: Applied, i: nat, j: nat)
    requires j < |log|
    ensures OneEpisode(log + [e], i, j) <==> OneEpisode(log, i, j)
  {
    var more := log + [e];
    assert forall k :: 0 <= k <= j ==> more[k] == log[k];
  }

  lemma EarnedInFront(log: seq<Applied>, e: Applied, j: nat, stall: nat, boost: nat)
    requires j < |log|
    ensures Earned(log + [e], j, stall) <==> Earned(log, j, stall)
    ensures InWindow(log + [e], j, boost) <==> InWindow(log, j, boost)
  {
    var more := log + [e];
    forall i | 0 <= i <= j
      ensures OneEpisode(more, i, j) <==> OneEpisode(log, i, j)
      ensures more[i] == log[i]
    {
      EpisodeInFront(log, e, i, j);
    }
    hide OneEpisode;
    if Earned(log, j, stall) {
      var i :| 0 <= i <= j && OneEpisode(log, i, j) && log[j].tick - log[i].tick >= stall;
      assert OneEpisode(more, i, j) && more[j].tick - more[i].tick >= stall;
    }
    if Earned(more, j, stall) {
      var i :| 0 <= i <= j && OneEpisode(more, i, j) && more[j].tick - more[i].tick >= stall;
      assert OneEpisode(log, i, j) && log[j].tick - log[i].tick >= stall;
    }
  }

  /** Appending an entry keeps boosts fair if it is boosted exactly when its boost is earned and in the window. */
  lemma FairMore(log: seq<Applied>, e: Applied, stall: nat, boost: nat)
    requires FairBoosts(log, stall, boost)
    requires e.boosted ==> Earned(log + [e], |log|, stall) && InWindow(log + [e], |log|, boost)
    requires stall > 0 && Earned(log + [e], |log|, stall) && InWindow(log + [e], |log|, boost) ==> e.boosted
    ensures FairBoosts(log + [e], stall, boost)
  {
    hide Earned, InWindow;
    var more := log + [e];
    forall j | 0 <= j < |log|
      ensures Earned(more, j, stall) <==> Earned(log, j, stall)
      ensures InWindow(more, j, boost) <==> InWindow(log, j, boost)
      ensures more[j] == log[j]
    {
      EarnedInFront(log, e, j, stall, boost);
    }
  }

  /** An episode that reaches the tracked one's latest entry lies inside it. */
  lemma EpisodeSince(log: seq<Applied>, since: nat, s: Stall, e: Applied, i: nat)
    requires Tracks(log, since, s) && e.encoder == s.encoder && e.sign == s.sign
    requires i < |log| && OneEpisode(log + [e], i, |log|)
    ensures since <= i
  {
    assert since > 0 ==> (log + [e])[since - 1] == log[since - 1];
  }

  lemma StallContinues(log: seq<Applied>, since: nat, s: Stall, clock: nat, hz: nat, e: Applied)
    requires StallInv(log, since, s, clock, Ticks(DIRECT_STALL_TIMEOUT_MS, hz), Ticks(DIRECT_STALL_BOOST_MS, hz))
    requires StillStalled(s, e.sign, e.encoder) && clock <= e.tick && e.boosted == Boosts(s, e.sign, e.encoder, e.tick, hz)
    ensures FairBoosts(log + [e], Ticks(DIRECT_STALL_TIMEOUT_MS, hz), Ticks(DIRECT_STALL_BOOST_MS, hz))
  {
    hide Ticks;
    var more, stall, boost := log + [e], Ticks(DIRECT_STALL_TIMEOUT_MS, hz), Ticks(DIRECT_STALL_BOOST_MS, hz);
    assert forall k :: since <= k < |log| ==> more[k] == log[k] && InStall(log, s, k);
    EveryEntryIsInEpisode(log, since, s, e);
    if e.boosted {
      assert OneEpisode(more, since, |log|);
      assert more[|log|].tick - more[since].tick >= stall;
      forall i | 0 <= i < |log| && log[i].boosted && OneEpisode(more, i, |log|)
        ensures e.tick - log[i].tick < boost
      {
        EpisodeSince(log, since, s, e, i);
      }
    } else if Earned(more, |log|, stall) && InWindow(more, |log|, boost) && stall > 0 {
      BoostIsDue(log, since, s, clock, hz, e);
    }
    FairMore(log, e, stall, boost);
  }

  /** In a tracked standstill a boost that is earned and in the window is given. */
  lemma BoostIsDue(log: seq<Applied>, since: nat, s: Stall, clock: nat, hz: nat, e: Applied)
    requires StallInv(log, since, s, clock, Ticks(DIRECT_STALL_TIMEOUT_MS, hz), Ticks(DIRECT_STALL_BOOST_MS, hz))
    requires StillStalled(s, e.sign, e.encoder) && clock <= e.tick && Ticks(DIRECT_STALL_TIMEOUT_MS, hz) > 0
    requires Earned(log + [e], |log|, Ticks(DIRECT_STALL_TIMEOUT_MS, hz))
    requires InWindow(log + [e], |log|, Ticks(DIRECT_STALL_BOOST_MS, hz))
    ensures Boosts(s, e.sign, e.encoder, e.tick, hz)
  {
    hide Ticks, FairBoosts;
    var more, stall, boost := log + [e], Ticks(DIRECT_STALL_TIMEOUT_MS, hz), Ticks(DIRECT_STALL_BOOST_MS, hz);
    EveryEntryIsInEpisode(log, since, s, e);
    var i :| 0 <= i <= |log| && OneEpisode(more, i, |log|) && more[|log|].tick - more[i].tick >= stall;
    EpisodeSince(log, since, s, e, i);
    assert log[since].tick <= log[i].tick == more[i].tick;
    if s.used {
      var k :| since <= k < |log| && log[k].boosted && log[k].tick == s.boostUntil - boost;
      assert more[k] == log[k] && OneEpisode(more, k, |log|);
      assert more[|log|].tick - more[k].tick < boost;
    }
  }

  lemma EveryEntryIsInEpisode(log: seq<Applied>, since: nat, s: Stall, e: Applied)
    requires Tracks(log, since, s) && e.encoder == s.encoder && e.sign == s.sign
    ensures forall k :: since <= k < |log| ==> OneEpisode(log + [e], k, |log|)
  {
    forall k | since <= k < |log|
      ensures OneEpisode(log + [e], k, |log|)
    {
      assert forall i :: since <= i < |log| ==> (log + [e])[i] == log[i] && InStall(log, s, i);
    }
  }

  lemma StallContinuesTracking(log: seq<Applied>, since: nat, s: Stall, clock: nat, hz: nat, e: Applied)
    requires StallInv(log, since, s, clock, Ticks(DIRECT_STALL_TIMEOUT_MS, hz), Ticks(DIRECT_STALL_BOOST_MS, hz))
    requires StillStalled(s, e.sign, e.encoder) && clock <= e.tick && e.boosted == Boosts(s, e.sign, e.encoder, e.tick, hz)
    ensures var t := NextStall(s, e.sign, e.encoder, e.tick, hz);
      && Tracks(log + [e], since, t)
      && Window(log + [e], since, t, e.tick, Ticks(DIRECT_STALL_TIMEOUT_MS, hz), Ticks(DIRECT_STALL_BOOST_MS, hz))
  {
    hide Ticks, FairBoosts;
    var more := log + [e];
    var t := NextStall(s, e.sign, e.encoder, e.tick, hz);
    forall k | 0 <= k < |log|
      ensures InStall(more, t, k) <==> InStall(log, s, k)
    {
    }
    assert InStall(more, t, |log|);
    if s.used {
      var k :| since <= k < |log| && log[k].boosted && log[k].tick == s.boostUntil - Ticks(DIRECT_STALL_BOOST_MS, hz);
      assert more[k] == log[k];
    } else if t.used {
      assert more[|log|].boosted && more[|log|].tick == t.boostUntil - Ticks(DIRECT_STALL_BOOST_MS, hz);
    }
  }

  lemma AppliedFair(log: seq<Applied>, since: nat, s: Stall, clock: nat, hz: nat, e: Applied)
    requires StallInv(log, since, s, clock, Ticks(DIRECT_STALL_TIMEOUT_MS, hz), Ticks(DIRECT_STALL_BOOST_MS, hz))
    requires clock <= e.tick && e.boosted == Boosts(s, e.sign, e.encoder, e.tick, hz)
    ensures StallInv(log + [e], if StillStalled(s, e.sign, e.encoder) then since else |log|,
                     NextStall(s, e.sign, e.encoder, e.tick, hz), e.tick,
                     Ticks(DIRECT_STALL_TIMEOUT_MS, hz), Ticks(DIRECT_STALL_BOOST_MS, hz))
  {
    hide Ticks, FairBoosts;
    if StillStalled(s, e.sign, e.encoder) {
      StallContinues(log, since, s, clock, hz, e);
      StallContinuesTracking(log, since, s, clock, hz, e);
    } else {
      NothingEarned(log, since, s, e, Ticks(DIRECT_STALL_TIMEOUT_MS, hz));
      FairMore(log, e, Ticks(DIRECT_STALL_TIMEOUT_MS, hz), Ticks(DIRECT_STALL_BOOST_MS, hz));
      NewEpisode(log, since, s, e, hz);
    }
  }

  /** An entry that does not continue the tracked standstill has stood still no time at all. */
  lemma NothingEarned(log: seq<Applied>, since: nat, s: Stall, e: Applied, stall: nat)
    requires s.tracking ==> Tracks(log, since, s)
    requires !s.tracking && |log| > 0 ==> log[|log| - 1].sign == 0
    requires !StillStalled(s, e.sign, e.encoder)
    ensures stall > 0 ==> !Earned(log + [e], |log|, stall)
  {
    var more := log + [e];
    if |log| > 0 {
      var last := |log| - 1;
      assert more[last] == log[last];
      assert s.tracking ==> InStall(log, s, last);
      assert !(more[last].sign == e.sign != 0 && more[last].encoder == e.encoder);
      assert forall i :: 0 <= i <= last ==> !OneEpisode(more, i, |log|);
    }
  }

  /** An entry that does not continue the tracked standstill starts an episode of its own, unless it does not drive. */
  lemma NewEpisode(log: seq<Applied>, since: nat, s: Stall, e: Applied, hz: nat)
    requires s.tracking ==> Tracks(log, since, s)
    requires !s.tracking && |log| > 0 ==> log[|log| - 1].sign == 0
    requires !StillStalled(s, e.sign, e.encoder)
    ensures var t := NextStall(s, e.sign, e.encoder, e.tick, hz);
      if e.sign == 0 then !t.tracking
      else t == Stall(true, e.sign, e.encoder, e.tick, 0, false) && Tracks(log + [e], |log|, t)
  {
    var more := log + [e];
    assert |log| > 0 ==> more[|log| - 1] == log[|log| - 1];
    assert s.tracking ==> InStall(log, s, |log| - 1);
  }

  // --- every run ---

  /** Streaming history is untouched, or forgotten altogether. */
  ghost predicate SameStream(c: Context, d: Context) {
    d.hz == c.hz && d.clock >= c.clock
    && ((d.applied == c.applied && d.since == c.since && d.stall == c.stall) || (d.applied == [] && d.stall == NO_STALL))
  }

  lemma StreamKept(c: Context, d: Context)
    requires Fair(c) && SameStream(c, d)
    ensures Fair(d)
  {
    hide Ticks, FairBoosts;
    if d.applied == [] {
      assert FairBoosts([], Ticks(DIRECT_STALL_TIMEOUT_MS, c.hz), Ticks(DIRECT_STALL_BOOST_MS, c.hz)) by {
        NoBoosts(Ticks(DIRECT_STALL_TIMEOUT_MS, c.hz), Ticks(DIRECT_STALL_BOOST_MS, c.hz));
      }
    }
  }

  lemma NoBoosts(stall: nat, boost: nat)
    ensures FairBoosts([], stall, boost)
  {
  }

  lemma PerformKeepsStream(c: Context, command: Command)
    ensures SameStream(c, Perform(c, command)) && SameStream(c, EmergencyHalt(c))
  {
    hide Verdict, WaitPlan, HoldReset;
  }

  lemma HandleKeepsStream(c: Context, session: string, number: CommandSeq, command: Command)
    ensures SameStream(c, HandleReliable(c, session, number, command))
  {
    hide Perform, EmergencyHalt, Verdict, HoldReset;
    var d := if command.Stop? then EmergencyHalt(c) else c;
    PerformKeepsStream(c, command);
    PerformKeepsStream(d, command);
  }

  lemma SessionKeepsStream(c: Context, m: Message)
    requires m.HelloAck?
    ensures SameStream(c, HelloState(c, m))
  {
  }

  lemma OtherKeepsStream(c: Context, ev: Event)
    requires Plausible(c, ev) && !ev.UseDirect? && !(ev.Receive? && !ev.message.DirectControl?)
    ensures SameStream(c, Step(c, ev))
  {
    hide HandleReliable, HelloAnswer, ApplyDirect;
  }

  lemma StepKeepsFair(c: Context, ev: Event)
    requires Fair(c) && Plausible(c, ev)
    ensures Fair(Step(c, ev))
  {
    hide Fair, StallInv, HandleReliable, HelloState, HelloReply, ApplyDirect, Connected, LinkLost, CheckTimeout, SameStream;
    match ev
    case Receive(m) =>
      match m {
        case HelloAck(_, _, _, _, _) =>
          SessionKeepsStream(c, m);
          StreamKept(c, HelloState(c, m));
          QueueKeepsStream(HelloState(c, m), HelloReply(c, m));
          StreamKept(HelloState(c, m), Step(c, ev));
        case Reliable(session, number, command) =>
          HandleKeepsStream(c, session, number, command);
          StreamKept(c, Step(c, ev));
        case DirectControl(_) =>
          OtherKeepsStream(c, ev);
          StreamKept(c, Step(c, ev));
      }
    case UseDirect(now, encoder) => DirectKeepsFair(c, now, encoder);
    case _ =>
      OtherKeepsStream(c, ev);
      StreamKept(c, Step(c, ev));
  }

  lemma QueueKeepsStream(c: Context, r: CommandResult)
    ensures SameStream(c, Queue(c, r, 0))
  {
  }

  lemma DirectKeepsFair(c: Context, now: nat, encoder: int)
    requires Fair(c) && now >= c.clock
    ensures Fair(TakeDirect(c, now, encoder))
  {
    hide StallInv, Drive, Boosts, NextStall, StillStalled;
    var d := c.(slot := None, clock := now);
    StreamKept(c, d);
    if c.slot.Some? && Drives(d, c.slot.value) {
      var sign := Sign(c.slot.value.throttle);
      var e := Applied(now, encoder, sign, Boosts(c.stall, sign, encoder, now, c.hz));
      AppliedFair(c.applied, c.since, c.stall, c.clock, c.hz, e);
    }
  }

  lemma {:induction false} RunFair(bootId: string, hz: nat, events: seq<Event>)
    requires PlausibleRun(bootId, hz, events)
    ensures Fair(Run(bootId, hz, events)) && Run(bootId, hz, events).hz == hz
    decreases |events|
  {
    hide Step, Plausible;
    if |events| > 0 {
      RunFront(bootId, hz, events);
      RunFair(bootId, hz, events[..|events| - 1]);
      StepKeepsIdentity(Run(bootId, hz, events[..|events| - 1]), events[|events| - 1]);
      StepKeepsFair(Run(bootId, hz, events[..|events| - 1]), events[|events| - 1]);
    }
  }

  /**
   In every run a direct command is boosted exactly if it comes at least the stall timeout after applied commands that
   drove the same way while the encoder did not move, and less than the boost time after any earlier boost of such an
   episode.
   */
  lemma BoostsAreFair(bootId: string, hz: nat, events: seq<Event>)
    requires PlausibleRun(bootId, hz, events)
    ensures FairBoosts(Run(bootId, hz, events).applied, Ticks(DIRECT_STALL_TIMEOUT_MS, hz), Ticks(DIRECT_STALL_BOOST_MS, hz))
  {
    hide Run, FairBoosts, PlausibleRun;
    RunFair(bootId, hz, events);
  }

  /** A boosted command drives at the boost duty: the motor duty is what the log says was applied. */
  lemma BoostDuty(c: Context, now: nat, encoder: int)
    requires c.slot.Some? && Drives(c.(slot := None, clock := now), c.slot.value)
    ensures var d := TakeDirect(c, now, encoder);
      var e := d.applied[|c.applied|];
      && d.applied == c.applied + [e] && e.sign == Sign(c.slot.value.throttle)
      && d.pins.duty ==
           if e.sign == 0 then 0
           else if e.boosted then STALL_BOOST_PWM
           else ThrottleToDuty(c.slot.value.throttle, c.slot.value.steering)
  {
    hide Drive, ThrottleToDuty;
    DriveDuty(c.slot.value.throttle, c.slot.value.steering);
    DutyRange(c.slot.value.throttle, c.slot.value.steering);
  }
}
