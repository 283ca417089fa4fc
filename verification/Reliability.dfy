/** The host's sender of reliable commands: one outstanding command, retransmission, preemption by WAIT and STOP. */
module Reliability {
  import opened Options
  import opened VehicleTypes

  const MAX_RETRANSMIT := 5

  function Priority(c: Command): nat {
    if c.Stop? then 2 else if c.Wait? then 1 else 0
  }

  predicate Preemptive(c: Command) { c.Stop? || c.Wait? }

  function TimeoutMs(c: Command): nat {
    match c
    case Waypoint(_) => 300
    case Wait(_, _, _) => 100
    case Stop(_) => 100
    case _ => 300
  }

  datatype Pending = Pending(number: CommandSeq, command: Command, sentAt: real, attempts: nat, timeoutMs: nat)

  datatype Sent = Sent(number: CommandSeq, command: Command)

  /** `wire` and `failed` are history: every transmission decided on, and every command given up. */
  datatype Sender = Sender(last: nat, pending: Option<Pending>, wire: seq<Sent>, failed: seq<Sent>)

  const FRESH_SENDER := Sender(0, None, [], [])

  // --- the operations ---

  /** An outstanding command only gives way to a preemptive one of higher priority. */
  predicate Refuses(s: Sender, c: Command) {
    s.pending.Some? && (!Preemptive(c) || Priority(c) <= Priority(s.pending.value.command))
  }

  function Send(s: Sender, c: Command, now: real): Sender {
    if Refuses(s, c) then s
    else
      var n := s.last + 1;
      s.(last := n, pending := Some(Pending(n, c, now, 1, TimeoutMs(c))), wire := s.wire + [Sent(n, c)])
  }

  function Ack(s: Sender, number: int): Sender {
    if s.pending.Some? && number >= s.pending.value.number then s.(pending := None) else s
  }

  function Clear(s: Sender): Sender { s.(pending := None) }

  predicate Expired(p: Pending, now: real) {
    (now - p.sentAt) * 1000.0 >= p.timeoutMs as real
  }

  function Tick(s: Sender, now: real): Sender {
    if s.pending.None? || !Expired(s.pending.value, now) then s
    else
      var p := s.pending.value;
      var again := Sent(p.number, p.command);
      if p.attempts >= MAX_RETRANSMIT then s.(pending := None, failed := s.failed + [again])
      else s.(pending := Some(p.(attempts := p.attempts + 1, sentAt := now)), wire := s.wire + [again])
  }

  datatype Op = DoSend(command: Command, now: real) | DoAck(number: int) | DoTick(now: real) | DoClear | TakeNumber

  function Do(s: Sender, op: Op): Sender {
    match op
    case DoSend(c, now) => Send(s, c, now)
    case DoAck(number) => Ack(s, number)
    case DoTick(now) => Tick(s, now)
    case DoClear => Clear(s)
    case TakeNumber => s.(last := s.last + 1)
  }

  function After(ops: seq<Op>): Sender
    decreases |ops|
  {
    if |ops| == 0 then FRESH_SENDER else Do(After(ops[..|ops| - 1]), ops[|ops| - 1])
  }

  // --- what each operation does ---

  /**
   A command goes out at once under the next number, unless another is outstanding that it does not outrank: a STOP
   outranks all but a STOP, a WAIT all but these two, and nothing else anything. STOP and WAIT wait 100 ms for an
   answer, the others 300.
   */
  lemma SendExactly(s: Sender, c: Command, now: real)
    ensures var outranks := s.pending.None? || (c.Stop? && !s.pending.value.command.Stop?)
                            || (c.Wait? && !s.pending.value.command.Stop? && !s.pending.value.command.Wait?);
      Send(s, c, now) ==
        if outranks then
          s.(last := s.last + 1, wire := s.wire + [Sent(s.last + 1, c)],
             pending := Some(Pending(s.last + 1, c, now, 1, if c.Stop? || c.Wait? then 100 else 300)))
        else s
  {
  }

  /**
   An outstanding command is transmitted again, under its number, once its time is over since it was sent last; after
   the fifth transmission it is given up instead. Before that nothing happens.
   */
  lemma TickExactly(s: Sender, now: real)
    ensures var t := Tick(s, now);
      if s.pending.None? || now - s.pending.value.sentAt < s.pending.value.timeoutMs as real / 1000.0 then t == s
      else
        var p := s.pending.value;
        if p.attempts < 5 then
          t == s.(wire := s.wire + [Sent(p.number, p.command)], pending := Some(p.(attempts := p.attempts + 1, sentAt := now)))
        else t == s.(failed := s.failed + [Sent(p.number, p.command)], pending := None)
  {
  }

  /** An acknowledgement ends the outstanding command exactly if it reaches its number. */
  lemma AckExactly(s: Sender, number: int)
    ensures Ack(s, number) ==
      if s.pending.Some? && s.pending.value.number <= number then s.(pending := None) else s
  {
  }

  /** The sender after ticks at these times. */
  function Ticked(s: Sender, times: seq<real>): Sender {
    if |times| == 0 then s else Do(Ticked(s, times[..|times| - 1]), DoTick(times[|times| - 1]))
  }

  /** Clearing drops the outstanding command and nothing else; taking a number only counts it. */
  lemma OthersExactly(s: Sender)
    ensures Do(s, DoClear) == s.(pending := None) && Do(s, TakeNumber) == s.(last := s.last + 1)
  {
  }

  /** The time of the tick before the i-th, or `since` if there is none. */
  function Previous(since: real, times: seq<real>, i: nat): real
    requires i <= |times|
  {
    if i == 0 then since else times[i - 1]
  }

  /** Each tick comes at least `wait` seconds after the one before, the first one after `since`. */
  predicate Spaced(since: real, times: seq<real>, wait: real) {
    forall i :: 0 <= i < |times| ==> times[i] - Previous(since, times, i) >= wait
  }

  lemma SpacedBefore(since: real, times: seq<real>, wait: real, k: nat)
    requires Spaced(since, times, wait) && k < |times|
    ensures Spaced(since, times[..k], wait) && times[k] - Previous(since, times, k) >= wait
  {
    forall i | 0 <= i < k
      ensures times[..k][i] - Previous(since, times[..k], i) >= wait
    {
      assert times[..k][i] == times[i] && Previous(since, times[..k], i) == Previous(since, times, i);
    }
  }

  function Copies(e: Sent, n: nat): seq<Sent> { seq(n, _ => e) }

  /** A command that is not answered is transmitted again at each of up to four expired ticks. */
  lemma {:induction false} UnansweredIsRepeated(s: Sender, times: seq<real>)
    requires s.pending.Some? && s.pending.value.attempts == 1 && |times| <= 4
    requires Spaced(s.pending.value.sentAt, times, s.pending.value.timeoutMs as real / 1000.0)
    ensures var p, e := s.pending.value, Ticked(s, times);
      && e.wire == s.wire + Copies(Sent(p.number, p.command), |times|) && e.failed == s.failed
      && e.pending == Some(p.(attempts := |times| + 1, sentAt := if times == [] then p.sentAt else times[|times| - 1]))
    decreases |times|
  {
    hide Tick;
    var p := s.pending.value;
    var again := Sent(p.number, p.command);
    if |times| == 0 {
      assert s.wire + Copies(again, 0) == s.wire;
    } else {
      var n := |times| - 1;
      SpacedBefore(p.sentAt, times, p.timeoutMs as real / 1000.0, n);
      UnansweredIsRepeated(s, times[..n]);
      TickExactly(Ticked(s, times[..n]), times[n]);
      assert (s.wire + Copies(again, n)) + [again] == s.wire + Copies(again, n + 1);
    }
  }

  /** At the fifth it is given up. */
  lemma UnansweredIsGivenUp(s: Sender, times: seq<real>)
    requires s.pending.Some? && s.pending.value.attempts == 1 && |times| == 5
    requires Spaced(s.pending.value.sentAt, times, s.pending.value.timeoutMs as real / 1000.0)
    ensures var p, e := s.pending.value, Ticked(s, times);
      && e.wire == s.wire + Copies(Sent(p.number, p.command), 4) && e.pending == None
      && e.failed == s.failed + [Sent(p.number, p.command)]
  {
    hide Tick, Copies, Spaced;
    SpacedBefore(s.pending.value.sentAt, times, s.pending.value.timeoutMs as real / 1000.0, 4);
    UnansweredIsRepeated(s, times[..4]);
    TickExactly(Ticked(s, times[..4]), times[4]);
  }

  // --- what every interleaving of the operations keeps ---

  function Count(wire: seq<Sent>, number: int): nat {
    if |wire| == 0 then 0
    else Count(wire[..|wire| - 1], number) + (if wire[|wire| - 1].number == number then 1 else 0)
  }

  lemma {:induction false} NeverCounted(wire: seq<Sent>, number: int)
    requires forall e :: e in wire ==> e.number != number
    ensures Count(wire, number) == 0
  {
    if |wire| > 0 {
      NeverCounted(wire[..|wire| - 1], number);
    }
  }

  lemma CountMore(wire: seq<Sent>, e: Sent, number: int)
    ensures Count(wire + [e], number) == Count(wire, number) + if e.number == number then 1 else 0
  {
    assert (wire + [e])[..|wire|] == wire;
  }

  ghost predicate Numbered(wire: seq<Sent>, last: int) {
    && (forall i :: 0 <= i < |wire| ==> wire[i].number <= last)
    && (forall i, j :: 0 <= i < j < |wire| ==> wire[i].number <= wire[j].number)
    && (forall i, j :: 0 <= i < j < |wire| && wire[i].number == wire[j].number ==> wire[i].command == wire[j].command)
  }

  ghost predicate Limited(wire: seq<Sent>) {
    forall number :: Count(wire, number) <= MAX_RETRANSMIT
  }

  /** The outstanding command is the newest one transmitted, as often as it counts its attempts. */
  ghost predicate Tracked(s: Sender) {
    s.pending.Some? ==>
      var p := s.pending.value;
      && p.number <= s.last && 1 <= p.attempts <= MAX_RETRANSMIT
      && |s.wire| > 0 && s.wire[|s.wire| - 1] == Sent(p.number, p.command)
      && Count(s.wire, p.number) == p.attempts
  }

  ghost predicate Orderly(s: Sender) {
    Numbered(s.wire, s.last) && Limited(s.wire) && Tracked(s)
  }

  /** Number n is new, or repeats the last transmission. */
  ghost predicate NewOrRepeated(wire: seq<Sent>, last: int, n: CommandSeq, c: Command) {
    n > last || (|wire| > 0 && wire[|wire| - 1] == Sent(n, c))
  }

  lemma NumberedMore(wire: seq<Sent>, last: int, n: CommandSeq, c: Command)
    requires Numbered(wire, last) && NewOrRepeated(wire, last, n, c)
    ensures Numbered(wire + [Sent(n, c)], if n > last then n else last)
  {
  }

  lemma LimitedMore(wire: seq<Sent>, n: CommandSeq, c: Command)
    requires Limited(wire) && Count(wire, n) < MAX_RETRANSMIT
    ensures Limited(wire + [Sent(n, c)]) && Count(wire + [Sent(n, c)], n) == Count(wire, n) + 1
  {
    hide Count;
    forall k
      ensures Count(wire + [Sent(n, c)], k) <= MAX_RETRANSMIT
    {
      CountMore(wire, Sent(n, c), k);
    }
    CountMore(wire, Sent(n, c), n);
  }

  lemma Transmit(s: Sender, n: CommandSeq, c: Command)
    requires Numbered(s.wire, s.last) && Limited(s.wire)
    requires n > s.last || (|s.wire| > 0 && s.wire[|s.wire| - 1] == Sent(n, c) && Count(s.wire, n) < MAX_RETRANSMIT)
    ensures Numbered(s.wire + [Sent(n, c)], if n > s.last then n else s.last) && Limited(s.wire + [Sent(n, c)])
    ensures Count(s.wire + [Sent(n, c)], n) == if n > s.last then 1 else Count(s.wire, n) + 1
  {
    if n > s.last {
      NeverCounted(s.wire, n);
    }
    hide Numbered, Limited, Count;
    NumberedMore(s.wire, s.last, n, c);
    LimitedMore(s.wire, n, c);
  }

  lemma NumberSkipped(wire: seq<Sent>, last: int)
    requires Numbered(wire, last)
    ensures Numbered(wire, last + 1)
  {
  }

  lemma DoKeepsOrder(s: Sender, op: Op)
    requires Orderly(s)
    ensures Orderly(Do(s, op))
  {
    hide Count, Expired, Numbered, Limited;
    match op
    case DoSend(c, now) =>
      if !Refuses(s, c) {
        Transmit(s, s.last + 1, c);
      }
    case DoTick(now) =>
      if s.pending.Some? && s.pending.value.attempts < MAX_RETRANSMIT {
        Transmit(s, s.pending.value.number, s.pending.value.command);
      }
    case TakeNumber => NumberSkipped(s.wire, s.last);
    case _ =>
  }

  lemma {:induction false} AfterIsOrderly(ops: seq<Op>)
    ensures Orderly(After(ops))
    decreases |ops|
  {
    hide Do;
    if |ops| > 0 {
      AfterIsOrderly(ops[..|ops| - 1]);
      DoKeepsOrder(After(ops[..|ops| - 1]), ops[|ops| - 1]);
    } else {
      assert forall number :: Count(FRESH_SENDER.wire, number) == 0;
    }
  }

  /**
   However sending, acknowledging, ticking and clearing are interleaved: transmitted numbers never go back, a number
   always carries the same command, and no command is transmitted more than MAX_RETRANSMIT times.
   */
  lemma TransmissionsAreOrderly(ops: seq<Op>, i: nat, j: nat)
    requires i < j < |After(ops).wire|
    ensures var wire := After(ops).wire;
      && wire[i].number <= wire[j].number
      && (wire[i].number == wire[j].number ==> wire[i].command == wire[j].command)
      && Count(wire, wire[i].number) <= MAX_RETRANSMIT
  {
    AfterIsOrderly(ops);
  }

  /** A command that is not refused gets a number above every number used before. */
  lemma NewNumbersIncrease(ops: seq<Op>, c: Command, now: real)
    requires !Refuses(After(ops), c)
    ensures var s, t := After(ops), Send(After(ops), c, now);
      t.pending.Some? && t.pending.value.number == t.last > s.last && forall e :: e in s.wire ==> e.number < t.last
  {
    AfterIsOrderly(ops);
  }

  // --- a pending STOP ---

  ghost predicate EndsPending(s: Sender, op: Op) {
    s.pending.Some? &&
    match op
    case DoAck(number) => number >= s.pending.value.number
    case DoTick(now) => Expired(s.pending.value, now) && s.pending.value.attempts >= MAX_RETRANSMIT
    case DoClear => true
    case _ => false
  }

  ghost predicate PendingStop(s: Sender, number: int) {
    s.pending.Some? && s.pending.value.command.Stop? && s.pending.value.number == number
  }

  lemma StopStays(s: Sender, op: Op)
    requires s.pending.Some? && s.pending.value.command.Stop? && !EndsPending(s, op)
    ensures PendingStop(Do(s, op), s.pending.value.number)
  {
    hide Expired;
  }

  /** A pending STOP that is later no longer pending was acknowledged, given up after all attempts, or cleared. */
  lemma {:induction false} StopIsOnlyEndedByItsAck(ops: seq<Op>, i: nat, number: int) returns (k: nat)
    requires i <= |ops| && PendingStop(After(ops[..i]), number) && !PendingStop(After(ops), number)
    ensures i <= k < |ops| && PendingStop(After(ops[..k]), number) && EndsPending(After(ops[..k]), ops[k])
    decreases |ops|
  {
    hide Do, EndsPending;
    assert ops[..|ops|] == ops;
    assert i < |ops|;
    var front := ops[..|ops| - 1];
    assert forall m :: 0 <= m <= |front| ==> front[..m] == ops[..m];
    if PendingStop(After(front), number) {
      k := |ops| - 1;
      if !EndsPending(After(front), ops[k]) {
        StopStays(After(front), ops[k]);
      }
    } else {
      k := StopIsOnlyEndedByItsAck(front, i, number);
      assert front[..k] == ops[..k];
    }
  }

  // --- an acknowledgement decided earlier ---

  ghost predicate SameOrNewer(s: Sender, number: int, last: int) {
    s.last >= last && (s.pending.Some? ==> s.pending.value.number == number || s.pending.value.number > last)
  }

  lemma {:induction false} PendingSameOrNewer(ops: seq<Op>, i: nat)
    requires i <= |ops| && After(ops[..i]).pending.Some?
    ensures SameOrNewer(After(ops), After(ops[..i]).pending.value.number, After(ops[..i]).last)
    decreases |ops|
  {
    hide Expired;
    if i == |ops| {
      assert ops[..i] == ops;
    } else {
      var front := ops[..|ops| - 1];
      assert front[..i] == ops[..i];
      PendingSameOrNewer(front, i);
    }
  }

  /**
   An acknowledgement for the command that was outstanding at some earlier moment, carried out now, never clears
   a command sent since.
   */
  lemma LateAckSparesNewer(ops: seq<Op>, i: nat)
    requires i <= |ops| && After(ops[..i]).pending.Some?
    ensures var number := After(ops[..i]).pending.value.number;
      After(ops).pending.Some? && After(ops).pending.value.number != number ==> Ack(After(ops), number) == After(ops)
  {
    PendingSameOrNewer(ops, i);
    AfterIsOrderly(ops[..i]);
  }

  // --- the sender object ---

  datatype SendResult = Assigned(number: CommandSeq) | OutstandingExists | CannotPreempt

  class ReliableSender {
    var seqNumber: nat
    var pending: Option<Pending>
    ghost var wire: seq<Sent>
    ghost var failed: seq<Sent>

    ghost function Abs(): Sender
      reads this
    {
      Sender(seqNumber, pending, wire, failed)
    }

    constructor ()
      ensures Abs() == FRESH_SENDER
    {
      seqNumber, pending, wire, failed := 0, None, [], [];
    }

    method SetSeqStart(start: int)
      modifies this`seqNumber
      ensures seqNumber == if start > 0 then start - 1 else 0
    {
      seqNumber := if start - 1 > 0 then start - 1 else 0;
    }

    method NextSeq() returns (number: nat)
      modifies this`seqNumber
      ensures Abs() == Do(old(Abs()), TakeNumber) && number == seqNumber
    {
      seqNumber := seqNumber + 1;
      number := seqNumber;
    }

    method SendCommand(c: Command, now: real) returns (r: SendResult)
      modifies this
      ensures Abs() == Send(old(Abs()), c, now)
      ensures r.Assigned? <==> !Refuses(old(Abs()), c)
      ensures r.Assigned? ==> r.number == seqNumber
    {
      if pending.Some? {
        if !Preemptive(c) {
          return OutstandingExists;
        }
        if Priority(c) <= Priority(pending.value.command) {
          return CannotPreempt;
        }
        pending := None;
      }
      seqNumber := seqNumber + 1;
      pending := Some(Pending(seqNumber, c, now, 1, TimeoutMs(c)));
      wire := wire + [Sent(seqNumber, c)];
      r := Assigned(seqNumber);
    }

    method OnAck(acked: int) returns (cleared: bool)
      modifies this`pending
      ensures Abs() == Ack(old(Abs()), acked)
      ensures cleared <==> old(pending).Some? && pending.None?
    {
      if pending.Some? && acked >= pending.value.number {
        pending := None;
        return true;
      }
      return false;
    }

    method ClearPending()
      modifies this`pending
      ensures Abs() == Clear(old(Abs()))
    {
      pending := None;
    }

    method OnTick(now: real) returns (resent: Option<Sent>, gaveUp: Option<Sent>)
      modifies this
      ensures Abs() == Tick(old(Abs()), now)
      ensures wire == old(wire) + (if resent.Some? then [resent.value] else [])
      ensures failed == old(failed) + (if gaveUp.Some? then [gaveUp.value] else [])
    {
      resent, gaveUp := None, None;
      if pending.None? || (now - pending.value.sentAt) * 1000.0 < pending.value.timeoutMs as real {
        return;
      }
      var p := pending.value;
      var again := Sent(p.number, p.command);
      if p.attempts >= MAX_RETRANSMIT {
        pending := None;
        failed := failed + [again];
        gaveUp := Some(again);
      } else {
        pending := Some(p.(attempts := p.attempts + 1, sentAt := now));
        wire := wire + [again];
        resent := Some(again);
      }
    }
  }
}
