/** A run of host, channel and vehicle in which a command goes through and its acceptance is reported. */
module ProtocolCases {
  import opened Options
  import opened VehicleTypes
  import opened Actuator
  import opened VehicleSpec
  import opened VehicleSafety
  import opened VehicleCases
  import opened VehicleEffects
  import opened Reliability
  import opened CommandProtocol

  const ENTERING: Command := SetMode(RemoteDirect)

  lemma ThenWorld(events: seq<WorldEvent>, e: WorldEvent) returns (more: seq<WorldEvent>)
    requires PossibleRun("B", 100, events) && Possible(WorldAfter("B", 100, events), e)
    ensures more == events + [e] && PossibleRun("B", 100, more)
    ensures WorldAfter("B", 100, more) == WorldStep(WorldAfter("B", 100, events), e)
  {
    hide Possible, WorldStep;
    more := events + [e];
    assert more[..|events|] == events;
    forall i | 0 <= i < |more|
      ensures Possible(WorldAfter("B", 100, more[..i]), more[i])
    {
      assert more[..i] == events[..i];
      assert events[..|events|] == events;
    }
  }

  /** The host has sent the mode request as command 1 of session S, and the vehicle is ready in that session. */
  ghost predicate Requested(w: World) {
    && Opened(w.car, 0) && "S" in w.senders && w.reports == []
    && w.senders["S"].pending.Some? && w.senders["S"].pending.value.number == 1
    && w.senders["S"].pending.value.command == ENTERING && Reliable("S", 1, ENTERING) in w.wire
  }

  lemma RequestGoesOut() returns (events: seq<WorldEvent>)
    ensures PossibleRun("B", 100, events) && Requested(WorldAfter("B", 100, events))
  {
    hide PossibleRun, WorldAfter, Connected, HelloAnswer, HandleReliable;
    NothingHappened();
    var start := PowerOn("B", 100);
    ConnectionGreets(start, 0);
    AnswerOpens(Connected(start), WifiConnecting, 0);
    var sessionOpen := ThenWorld([], OpenSession("S"));
    var connected := ThenWorld(sessionOpen, CarDoes(TcpConnected));
    var ready := ThenWorld(connected, CarDoes(Receive(AnswerFrom("B", "S"))));
    events := ThenWorld(ready, HostDoes("S", DoSend(ENTERING, 0.0)));
    SendingTransmits(WorldAfter("B", 100, ready).senders["S"]);
  }

  lemma NothingHappened()
    ensures PossibleRun("B", 100, []) && WorldAfter("B", 100, []) == CommandProtocol.Start("B", 100)
  {
  }

  lemma SendingTransmits(s: Sender)
    requires s == FRESH_SENDER
    ensures var t := Do(s, DoSend(ENTERING, 0.0));
      t.pending.Some? && t.pending.value.number == 1 && t.pending.value.command == ENTERING
      && Reliable("S", 1, ENTERING) in Transmitted("S", t)
  {
    var t := Do(s, DoSend(ENTERING, 0.0));
    assert t.wire[0] == Sent(1, ENTERING) && Sent(1, ENTERING) in t.wire;
  }

  /** The request reaches the vehicle, its answer reaches the host, and the host reports the acceptance. */
  lemma AcceptanceGetsThrough() returns (events: seq<WorldEvent>)
    ensures PossibleRun("B", 100, events)
    ensures WorldAfter("B", 100, events).reports == [Report("S", 1, ENTERING, Accepted)]
  {
    hide PossibleRun, WorldAfter, HandleReliable, Opened;
    var requested := RequestGoesOut();
    var w := WorldAfter("B", 100, requested);
    VehicleAccepts(w.car);
    var processed := ThenWorld(requested, CarDoes(Receive(Reliable("S", 1, ENTERING))));
    var sent := WorldAfter("B", 100, processed).car.sent;
    events := ThenWorld(processed, HostHears("S", sent[|sent| - 1]));
    HearingReportsExactly(WorldAfter("B", 100, processed), "S", sent[|sent| - 1]);
  }

  lemma VehicleAccepts(c: Context)
    requires Opened(c, 0)
    ensures var e := Step(c, Receive(Reliable("S", 1, ENTERING)));
      |e.sent| == |c.sent| + 1 && var st := e.sent[|c.sent|];
      st.session == "S" && st.lastSeq == 1 && st.rejectedSeq == 0 && st.result == Accepted
  {
    hide HandleReliable;
    SetModeExactly(c, "S", 1, RemoteDirect);
  }
}
