/** The bridge's controller and session objects, updated in place and proved against `Bridge`. */
module BridgeController {
  import opened Options
  import opened VehicleTypes
  import B = Bridge

  class VehicleSession {
    const id: string
    const bootId: string
    var nextSeq: nat
    var outstanding: Option<B.Outstanding>
    var throttle: real
    var steering: real
    var last: Option<B.Report>
    var lastStatusSeq: int

    ghost function Abs(): B.Session
      reads this
    {
      B.Session(id, bootId, nextSeq, outstanding, throttle, steering, last, lastStatusSeq)
    }

    constructor (id: string, bootId: string)
      ensures Abs() == B.Session(id, bootId, 1, None, 0.0, 0.0, None, -1)
    {
      this.id, this.bootId := id, bootId;
      nextSeq, outstanding, throttle, steering, last := 1, None, 0.0, 0.0, None;
      lastStatusSeq := -1;
    }

    method Neutralize()
      modifies this`throttle, this`steering
      ensures throttle == 0.0 && steering == 0.0
    {
      throttle, steering := 0.0, 0.0;
    }

    method ConsumeTerminalResult(r: B.Report) returns (done: Option<B.Outstanding>)
      modifies this`outstanding
      ensures var was := old(outstanding);
        if was.Some? && B.Answers(r, was.value.number) then done == was && outstanding == None
        else done == None && outstanding == was
    {
      done := None;
      if outstanding.Some? && r.result != NoResult
         && (r.acked == outstanding.value.number || r.rejected == outstanding.value.number) {
        done := outstanding;
        outstanding := None;
      }
    }

    /** Whether the report's number was passed already; a report without one never is. */
    method IsStaleSnapshot(r: B.Report) returns (stale: bool)
      ensures stale <==> B.Stale(Abs(), r)
    {
      if r.statusSeq.None? {
        return false;
      }
      return r.statusSeq.value <= lastStatusSeq;
    }

    /** Keep the report; its number, if it has one, never lowers the greatest. */
    method RecordSnapshot(r: B.Report)
      modifies this`last, this`lastStatusSeq
      ensures last == Some(r) && lastStatusSeq == B.NextTop(old(lastStatusSeq), r)
      ensures lastStatusSeq >= old(lastStatusSeq) && (r.statusSeq.Some? ==> lastStatusSeq >= r.statusSeq.value)
    {
      last := Some(r);
      if r.statusSeq.Some? && r.statusSeq.value > lastStatusSeq {
        lastStatusSeq := r.statusSeq.value;
      }
    }
  }

  class Controller {
    var session: VehicleSession?
    var attached: bool
    var streaming: bool
    var pendingMode: Option<nat>
    var held: bool
    var lastEncoder: Option<int>
    ghost var published: seq<B.Published>

    ghost function Abs(): B.Bridge
      reads this, session
    {
      B.Bridge(if session == null then None else Some(session.Abs()), attached, streaming, pendingMode, held, lastEncoder,
               published)
    }

    constructor ()
      ensures Abs() == B.START
    {
      session, attached, streaming, pendingMode, held, lastEncoder := null, false, false, None, false, None;
      published := [];
    }

    method AttachSender()
      modifies this`attached
      ensures Abs() == B.Step(old(Abs()), B.Attaches)
    {
      attached := true;
    }

    method Detach()
      modifies this, session
      ensures Abs() == B.Step(old(Abs()), B.Detaches)
    {
      NeutralizeDesired();
      attached, streaming, pendingMode, held, lastEncoder := false, false, None, false, None;
      session := null;
      published := [];
    }

    method NeutralizeDesired()
      modifies session
      ensures Abs() == old(Abs()).(session := B.Neutral(old(Abs()).session))
    {
      if session != null {
        session.Neutralize();
      }
    }

    method CallOff()
      modifies this`streaming, this`pendingMode, session
      ensures Abs() == B.Quiet(old(Abs())) && session == old(session)
    {
      streaming := false;
      pendingMode := None;
      NeutralizeDesired();
    }

    method OnHello(bootId: string, previous: string, hold: bool, freshId: string)
      modifies this
      ensures Abs() == B.OnHello(old(Abs()), bootId, previous, hold, freshId)
    {
      if bootId == "" {
        return;
      }
      if session != null && session.bootId == bootId && previous != session.id {
        return;
      }
      session := new VehicleSession(freshId, bootId);
      streaming, pendingMode, held, lastEncoder := false, None, hold, None;
      published := [];
    }

    /** Give the next number to a reliable command and hold it outstanding. */
    method SendReliable(kind: B.Kind, preempt: bool) returns (number: Option<nat>)
      modifies session
      ensures number == B.NumberFor(old(Abs()), preempt)
      ensures Abs() == B.SendReliable(old(Abs()), kind, preempt)
    {
      if session == null {
        return None;
      }
      if session.outstanding.Some? && !preempt {
        return None;
      }
      var n := session.nextSeq;
      session.nextSeq := n + 1;
      session.outstanding := Some(B.Outstanding(n, kind, 0));
      return Some(n);
    }

    method CmdModeRemote()
      modifies this`streaming, this`pendingMode, session
      ensures Abs() == B.ModeIntent(old(Abs()))
    {
      if session == null || pendingMode.Some? || session.last.None? || session.last.value.state != Ready {
        return;
      }
      if session.last.value.mode == RemoteDirect {
        NeutralizeDesired();
        streaming := true;
        return;
      }
      var number := SendReliable(B.ModeRequest, false);
      if number.None? {
        return;
      }
      NeutralizeDesired();
      streaming := false;
      pendingMode := number;
    }

    method CmdStop()
      modifies this`streaming, this`pendingMode, session
      ensures Abs() == B.StopIntent(old(Abs()))
    {
      var stopped := session != null && session.last.Some? && session.last.value.state == EmergencyStop;
      CallOff();
      if stopped && session.outstanding.None? {
        return;
      }
      var number := SendReliable(B.StopRequest, true);
    }

    method CmdReset()
      modifies this`streaming, this`pendingMode, session
      ensures Abs() == B.ResetIntent(old(Abs()))
    {
      if session == null || session.last.None? {
        return;
      }
      var state := session.last.value.state;
      if state != EmergencyStop && state != Error && !(state == Syncing && held) {
        return;
      }
      CallOff();
      var number := SendReliable(B.ResetRequest, false);
    }

    method CmdSetThrottle(value: real)
      modifies session
      ensures Abs() == B.SetThrottle(old(Abs()), value)
    {
      if session == null {
        return;
      }
      var v := B.Unit(value);
      if v != 0.0 && !streaming {
        session.throttle := 0.0;
        return;
      }
      session.throttle := v;
    }

    method CmdSetDrive(throttle: real, steering: real)
      modifies session
      ensures Abs() == B.SetDrive(old(Abs()), throttle, steering)
    {
      if session == null {
        return;
      }
      var t, s := B.Unit(throttle), B.Unit(steering);
      if !streaming && (t != 0.0 || s != 0.0) {
        NeutralizeDesired();
        return;
      }
      session.throttle, session.steering := t, s;
    }

    method CmdPause()
      modifies this`streaming, session
      ensures Abs() == B.Pause(old(Abs()))
    {
      streaming := false;
      NeutralizeDesired();
    }

    method CmdResume()
      modifies this`streaming, session
      ensures Abs() == B.Resume(old(Abs()))
    {
      if session == null || session.last.None? || session.last.value.mode != RemoteDirect {
        return;
      }
      if session.last.value.state != Ready && session.last.value.state != Waiting {
        return;
      }
      NeutralizeDesired();
      streaming := true;
    }

    /** An answer completes its command first, even if the snapshot it came with is stale. */
    method OnStatus(r: B.Report)
      modifies this`streaming, this`pendingMode, this`lastEncoder, this`published, session
      ensures Abs() == B.OnStatus(old(Abs()), r)
    {
      hide B.FinishMode, B.Record;
      if session == null || r.session != session.id {
        return;
      }
      var stale := session.IsStaleSnapshot(r);
      var done := session.ConsumeTerminalResult(r);
      assert Abs() == B.Consume(old(Abs()), r);
      FinishPendingMode(r);
      if stale {
        return;
      }
      TakeSnapshot(r);
    }

    method FinishPendingMode(r: B.Report)
      modifies this`streaming, this`pendingMode, session
      ensures session == old(session) && Abs() == B.FinishMode(old(Abs()), r)
      ensures session != null ==> session.last == old(if session == null then None else session.last)
      ensures session != null ==> session.lastStatusSeq == old(if session == null then 0 else session.lastStatusSeq)
    {
      if pendingMode.None? || r.result == NoResult || (r.acked != pendingMode.value && r.rejected != pendingMode.value) {
        return;
      }
      if r.result == Accepted && r.mode == RemoteDirect {
        streaming := true;
        pendingMode := None;
        return;
      }
      if B.Negative(r.result) || r.mode != RemoteDirect {
        CallOff();
      }
    }

    method TakeSnapshot(r: B.Report)
      requires session != null
      modifies this`streaming, this`pendingMode, this`lastEncoder, this`published, session
      ensures Abs() == B.Record(old(Abs()), r)
    {
      var delta := B.Delta(lastEncoder, r.encoder);
      if r.encoder.Some? {
        lastEncoder := r.encoder;
      }
      if r.state in {EmergencyStop, Error, CommTimeout, Syncing} {
        CallOff();
      } else if r.mode != RemoteDirect && streaming {
        CmdPause();
      }
      session.RecordSnapshot(r);
      published := published + [B.Published(r, delta)];
    }

    /** One period of the stream; `sent` is the drive put on the wire, if any. */
    method DirectPeriod() returns (sent: Option<(real, real)>)
      modifies this`streaming, session
      ensures Abs() == B.DirectPeriod(old(Abs()))
      ensures sent.Some? ==> streaming && B.MayStream(Abs())
      ensures sent.Some? ==> sent.value == (Abs().session.value.throttle, Abs().session.value.steering)
      ensures sent.Some? <==> old(session != null && attached && streaming && B.MayStream(Abs()))
    {
      sent := None;
      if session == null || !attached || !streaming {
        return;
      }
      if session.last.None? || session.last.value.mode != RemoteDirect
         || session.last.value.state in {EmergencyStop, Error, CommTimeout, Syncing, Boot, WifiConnecting} {
        CmdPause();
        return;
      }
      sent := Some((session.throttle, session.steering));
    }

    method ResendPeriod(expired: bool) returns (resent: bool)
      modifies this`streaming, this`pendingMode, session
      ensures Abs() == B.ResendPeriod(old(Abs()), expired)
    {
      resent := false;
      if session == null || !attached || session.outstanding.None? || !expired {
        return;
      }
      var o := session.outstanding.value;
      if o.resends >= B.MAX_RESENDS {
        session.outstanding := None;
        if pendingMode == Some(o.number) {
          CallOff();
        }
        return;
      }
      session.outstanding := Some(o.(resends := o.resends + 1));
      resent := true;
    }
  }
}
