/** A run that fills the lot and defers the earliest departure, so that fast-forwarding frees no slot. */
module ParkingCases {
  import opened ParkingLayout
  import opened ParkingSpec
  import opened ParkingTables
  import opened ParkingSafety
  import opened Reals

  const FIRST_DEPARTURE := 9.0

  /** How far along the lane a node is: every way in reaches it that many seconds after the entrance. */
  function Position(n: Node): int {
    match n
    case Entrance => 0
    case Junction => 1
    case LanePoint(column) => 6 - column
    case _ => 6
  }

  lemma EntryPositions(s: Slot)
    ensures var route := EntryTable(s);
      && (forall i :: 0 <= i < |route| - 1 ==> Position(route[i]) == i && !route[i].SlotFront?)
      && route[|route| - 1] == SlotFront(s)
  {
  }

  // --- filling the lot ---

  /** The last admission was at `last`: the lane is booked no later than by that vehicle, fronts only where taken. */
  ghost predicate LaneBooked(e: Env, last: real) {
    && (forall n, r :: r in At(e.table, n) && !n.SlotFront? ==> r.end <= last + Position(n) as real + 1.0)
    && (forall s: Slot, r :: r in At(e.table, SlotFront(s)) ==> Taken(e, s))
  }

  /** Nobody leaves before the vehicle numbered 1, which stands in slot 4. */
  ghost predicate NobodyDue(e: Env) {
    && (forall p :: p in e.parked ==> p.departAt > FIRST_DEPARTURE || p == Stay(1, 4, FIRST_DEPARTURE))
    && (forall v :: v in e.active ==> !v.exiting)
  }

  ghost predicate Filling(e: Env, last: real) {
    e.lot == TheLot() && !e.done && Form(e) && LaneBooked(e, last) && NobodyDue(e)
  }

  lemma RouteIsClear(e: Env, s: Slot, last: real)
    requires Filling(e, last) && !Taken(e, s) && e.now >= last + 1.5
    ensures Shielded(e, s)
  {
    hide Form, NobodyDue;
    TheLotHasTheTables(s);
    EntryPositions(s);
    hide EntryTable;
    var route := EntryRoute(e.lot, s);
    var spans := Spans(|route|, e.now);
    forall i, r | 0 <= i < |route| && route[i] in e.table && r in e.table[route[i]]
      ensures !Overlaps(spans[i], r)
    {
      assert r in At(e.table, route[i]);
    }
  }

  lemma AdmissionFills(e: Env, s: Slot, stay: real, last: real)
    requires Filling(e, last) && e.now >= last && stay >= FIRST_DEPARTURE && e.now >= 0.0
    ensures Filling(Admit(e, s, stay), e.now)
  {
    AdmitTable(e, s, stay, Entrance, Res(0, Parked, 0.0, 0.0));
    AdmissionBooks(e, s, stay, last);
    AdmissionIsNotDue(e, s, stay);
    AdmitFields(e, s, stay);
    hide At, LaneBooked, NobodyDue, Register, RouteBookings, Append, Spans;
  }

  lemma AdmissionIsNotDue(e: Env, s: Slot, stay: real)
    requires Form(e) && NobodyDue(e) && stay >= FIRST_DEPARTURE && e.now >= 0.0
    ensures NobodyDue(Admit(e, s, stay))
  {
    hide Register, RouteBookings, Append, Spans, EntryRoute;
    ParksLater(e, s);
  }

  lemma AdmissionBooks(e: Env, s: Slot, stay: real, last: real)
    requires e.lot == TheLot() && Form(e) && LaneBooked(e, last) && e.now >= last
    ensures LaneBooked(Admit(e, s, stay), e.now)
  {
    hide At, Register, RouteBookings, Append, Spans, EntryRoute;
    var f := Admit(e, s, stay);
    forall n, r | r in At(f.table, n) && !n.SlotFront?
      ensures r.end <= e.now + Position(n) as real + 1.0
    {
      AdmitTable(e, s, stay, n, r);
      if Booking(n, r) in EntryBookings(e, s) {
        EntryBookingEnds(e, s, n, r);
      }
    }
    forall t: Slot, r | r in At(f.table, SlotFront(t))
      ensures Taken(f, t)
    {
      AdmitTable(e, s, stay, SlotFront(t), r);
      if Booking(SlotFront(t), r) in EntryBookings(e, s) {
        EntryBookingEnds(e, s, SlotFront(t), r);
      }
    }
  }

  lemma EntryBookingEnds(e: Env, s: Slot, n: Node, r: Res)
    requires e.lot == TheLot() && Booking(n, r) in EntryBookings(e, s)
    ensures if n.SlotFront? then n == SlotFront(s) else r.end == e.now + Position(n) as real + 1.0
  {
    TheLotHasTheTables(s);
    EntryPositions(s);
    var route := EntryRoute(e.lot, s);
    var spans := Spans(|route|, e.now);
    var i :| 0 <= i < |route| && 
      Booking(n, r) == Booking(route[i], Res(e.lastId + 1, Entering, spans[i].from, spans[i].to));
    hide EntryTable;
  }

  // --- letting time pass ---

  lemma TimePasses(e: Env, dt: real, last: real)
    requires Filling(e, last) && dt >= 0.0
    ensures Filling(Tick(e, dt), last)
    ensures forall n, r :: r in At(Tick(e, dt).table, n) <==> r in At(e.table, n)
  {
    var f := Tick(e, dt);
    TickTable(e, dt, Entrance, Res(0, Parked, 0.0, 0.0));
    TickKeepsSlots(e, dt);
    forall n, r
      ensures r in At(f.table, n) <==> r in At(e.table, n)
    {
      TickTable(e, dt, n, r);
    }
    forall w | w in f.active
      ensures !w.exiting
    {
      var v := StillMovingFrom(e.active, e.now + dt, w);
    }
  }

  lemma {:induction false} NobodyLeaves(e: Env, k: nat)
    requires k <= |e.parked| && forall i :: k <= i < |e.parked| ==> !CanLeave(e, e.parked[i])
    ensures Departures(e, k) == e
    decreases |e.parked| - k
  {
    hide CanLeave;
    if k < |e.parked| {
      NobodyLeaves(e, k + 1);
    }
  }

  lemma EarlyNobodyLeaves(e: Env)
    requires NobodyDue(e) && e.now < FIRST_DEPARTURE
    ensures Departures(e, 0) == e
  {
    forall i | 0 <= i < |e.parked|
      ensures !CanLeave(e, e.parked[i])
    {
      assert e.parked[i] in e.parked;
    }
    NobodyLeaves(e, 0);
  }

  /** What one admission on the way to a full lot leaves behind. */
  ghost predicate OneMore(e: Env, f: Env, s: Slot, stay: real, gap: real) {
    && f.now == e.now + gap && f.steps == e.steps + 1
    && f.taken == SetSlot(e.taken, s, true)
    && f.parked == Admit(e, s, stay).parked && f.lastId == e.lastId + 1
    && (forall n, r :: r in At(f.table, n) <==> r in At(Admit(e, s, stay).table, n))
  }

  lemma StepFills(e: Env, c: Config, s: Slot, stay: real, gap: real, last: real)
    requires Filling(e, last) && !Taken(e, s) && e.now >= last + 1.5 && e.now >= 0.0 && e.steps + 1 < MAX_STEPS
    requires stay >= FIRST_DEPARTURE && 0.0 <= gap && e.now + gap < FIRST_DEPARTURE
    ensures var f := StepEnv(e, c, s, stay, gap); Filling(f, e.now) && OneMore(e, f, s, stay, gap)
  {
    hide Tick, Departures, LaneBooked, Form, Shielded, Admit;
    RouteIsClear(e, s, last);
    var f := e.(waits := 0);
    ShieldIgnoresWaits(e, s);
    AdmitIgnoresWaits(e, s, stay);
    AdmissionFills(e, s, stay, last);
    FillingIgnoresCounters(Admit(e, s, stay), e.now, Admit(f, s, stay));
    AdmitFields(e, s, stay);
    AdmitFields(f, s, stay);
    StepCloses(Admit(f, s, stay), gap, e.now);
    assert StepEnv(e, c, s, stay, gap) == CloseStep(Admit(f, s, stay), gap);
  }

  lemma AdmitFields(e: Env, s: Slot, stay: real)
    ensures var f := Admit(e, s, stay);
      && f.now == e.now && f.steps == e.steps && f.taken == SetSlot(e.taken, s, true) && f.lastId == e.lastId + 1
      && f.done == e.done && f.parked != []
  {
  }

  lemma ShieldIgnoresWaits(e: Env, s: Slot)
    ensures Shielded(e.(waits := 0), s) <==> Shielded(e, s)
  {
  }

  lemma AdmitIgnoresWaits(e: Env, s: Slot, stay: real)
    ensures Admit(e.(waits := 0), s, stay) == Admit(e, s, stay).(waits := 0)
  {
  }

  lemma FillingIgnoresCounters(e: Env, last: real, f: Env)
    requires Filling(e, last) && f == e.(steps := f.steps, waits := f.waits)
    ensures Filling(f, last)
  {
    assert forall s: Slot :: Taken(f, s) <==> Taken(e, s);
  }

  /** The clock moves on and nobody leaves. */
  lemma StepCloses(e: Env, gap: real, last: real)
    requires Filling(e, last) && gap >= 0.0 && e.now + gap < FIRST_DEPARTURE
    requires e.steps + 1 < MAX_STEPS && e.parked != []
    ensures var f := CloseStep(e, gap);
      && Filling(f, last) && f.now == e.now + gap && f.steps == e.steps + 1
      && f.taken == e.taken && f.parked == e.parked && f.lastId == e.lastId
      && (forall n, r :: r in At(f.table, n) <==> r in At(e.table, n))
  {
    var g := e.(steps := e.steps + 1);
    FillingIgnoresCounters(e, last, g);
    TimePasses(g, gap, last);
    EarlyNobodyLeaves(Tick(g, gap));
    hide Filling, PurgeExited, StillMoving;
    assert CloseStep(e, gap) == Tick(g, gap);
  }

  // --- the start of the episode ---

  const GUESTS := [Guest(4, FIRST_DEPARTURE), Guest(5, PARK_MAX), Guest(6, PARK_MAX), Guest(7, PARK_MAX)]

  /** The parked vehicles stand in slots 4, 5, ... in the order of their numbers. */
  ghost predicate Started(e: Env, n: nat) {
    && Filling(e, -2.0) && e.now == 0.0 && e.steps == 0 && e.lastId == n && e.waits == 0
    && (forall s: Slot :: Taken(e, s) <==> 4 <= s < 4 + n)
    && (n > 0 ==> Stay(1, 4, FIRST_DEPARTURE) in e.parked)
  }

  lemma GuestStarts(e: Env, n: nat, departAt: real)
    requires Started(e, n) && n < 4 && (if n == 0 then departAt == FIRST_DEPARTURE else departAt > FIRST_DEPARTURE)
    ensures Started(PrePark(e, 4 + n, departAt), n + 1)
  {
    var f := PrePark(e, 4 + n, departAt);
    PreParkTable(e, Guest(4 + n, departAt), Entrance, Res(0, Parked, 0.0, 0.0));
    assert f.parked[|e.parked|] in f.parked;
    assert forall s: Slot :: Taken(f, s) <==> Taken(e, s) || s == 4 + n;
    GuestBooks(e, n, departAt);
    hide LaneBooked, Append;
  }

  lemma GuestBooks(e: Env, n: nat, departAt: real)
    requires Form(e) && LaneBooked(e, -2.0) && n < 4
    ensures LaneBooked(PrePark(e, 4 + n, departAt), -2.0)
  {
    hide At, Append;
    var f := PrePark(e, 4 + n, departAt);
    forall m, r | r in At(f.table, m) && !m.SlotFront?
      ensures r.end <= -2.0 + Position(m) as real + 1.0
    {
      PreParkTable(e, Guest(4 + n, departAt), m, r);
    }
    forall s: Slot, r | r in At(f.table, SlotFront(s))
      ensures Taken(f, s)
    {
      PreParkTable(e, Guest(4 + n, departAt), SlotFront(s), r);
    }
  }

  lemma NobodyYet()
    ensures Started(Fresh(TheLot()), 0)
  {
    TheLotIsGood();
  }

  lemma GuestsStart()
    ensures Started(PreParkAll(TheLot(), GUESTS), 4) && ValidGuests(GUESTS)
  {
    hide Started, PrePark;
    NobodyYet();
    assert GUESTS[..3] == [Guest(4, FIRST_DEPARTURE), Guest(5, PARK_MAX), Guest(6, PARK_MAX)];
    assert GUESTS[..3][..2] == [Guest(4, FIRST_DEPARTURE), Guest(5, PARK_MAX)];
    assert GUESTS[..3][..2][..1] == [Guest(4, FIRST_DEPARTURE)] && GUESTS[..3][..2][..1][..0] == [];
    var lot := TheLot();
    GuestStarts(PreParkAll(lot, []), 0, FIRST_DEPARTURE);
    GuestStarts(PreParkAll(lot, GUESTS[..3][..2][..1]), 1, PARK_MAX);
    GuestStarts(PreParkAll(lot, GUESTS[..3][..2]), 2, PARK_MAX);
    GuestStarts(PreParkAll(lot, GUESTS[..3]), 3, PARK_MAX);
  }

  // --- the arrivals ---

  /** n vehicles have arrived, every two seconds one, in slots 3, 2, 1, 0; the last at `last`. */
  ghost predicate Arrived(e: Env, n: nat, last: real) {
    && Filling(e, last) && e.steps == n && e.lastId == 4 + n
    && (forall s: Slot :: Taken(e, s) <==> s >= 4 - n)
    && Stay(1, 4, FIRST_DEPARTURE) in e.parked
  }

  lemma OneArrives(e: Env, c: Config, n: nat, last: real, gap: real)
    requires Arrived(e, n, last) && n < 4 && e.now >= 0.0 && e.now >= last + 1.5
    requires 0.0 <= gap && e.now + gap < FIRST_DEPARTURE
    ensures var f := StepEnv(e, c, 3 - n, PARK_MAX, gap);
      Arrived(f, n + 1, e.now) && OneMore(e, f, 3 - n, PARK_MAX, gap)
  {
    hide StepEnv, Admit, LaneBooked, NobodyDue;
    var s := 3 - n;
    StepFills(e, c, s, PARK_MAX, gap, last);
    var f := StepEnv(e, c, s, PARK_MAX, gap);
    AdmitKeepsStays(e, s, PARK_MAX, Stay(1, 4, FIRST_DEPARTURE));
    assert forall t: Slot :: Taken(f, t) <==> Taken(e, t) || t == s;
  }

  lemma AdmitKeepsStays(e: Env, s: Slot, stay: real, p: Stay)
    requires p in e.parked
    ensures p in Admit(e, s, stay).parked
  {
  }

  function Arrival(s: Slot, gap: real): Event { Step(s, PARK_MAX, gap) }

  const FILL := [Reset(GUESTS), Arrival(3, 2.0), Arrival(2, 2.0), Arrival(1, 2.0), Arrival(0, 0.8)]

  lemma Then(c: Config, events: seq<Event>, ev: Event)
    ensures Run(c, events + [ev]) == Apply(Run(c, events), c, ev)
  {
    assert (events + [ev])[..|events|] == events;
  }

  lemma ArrivalFills(c: Config, events: seq<Event>, n: nat, last: real, gap: real) returns (more: seq<Event>)
    requires Arrived(Run(c, events), n, last) && n < 4 && Run(c, events).now >= 0.0 && Run(c, events).now >= last + 1.5
    requires 0.0 <= gap && Run(c, events).now + gap < FIRST_DEPARTURE
    ensures more == events + [Arrival(3 - n, gap)]
    ensures Arrived(Run(c, more), n + 1, Run(c, events).now) && Run(c, more).now == Run(c, events).now + gap
    ensures OneMore(Run(c, events), Run(c, more), 3 - n, PARK_MAX, gap)
  {
    more := events + [Arrival(3 - n, gap)];
    Then(c, events, Arrival(3 - n, gap));
    hide Run, StepEnv, Arrived;
    OneArrives(Run(c, events), c, n, last, gap);
  }

  lemma EpisodeStarts(c: Config)
    requires c.lot == TheLot()
    ensures Arrived(Run(c, [Reset(GUESTS)]), 0, -2.0) && Run(c, [Reset(GUESTS)]).now == 0.0
  {
    hide Run, PreParkAll, Filling;
    GuestsStart();
    FirstEvent(c, GUESTS);
    StartedHasNotFilled(PreParkAll(TheLot(), GUESTS));
  }

  lemma FirstEvent(c: Config, guests: seq<Guest>)
    ensures Run(c, [Reset(guests)]) == PreParkAll(c.lot, guests)
  {
    hide PreParkAll;
    assert [Reset(guests)][..0] == [];
    assert Run(c, []) == Fresh(c.lot);
  }

  lemma StartedHasNotFilled(e: Env)
    requires Started(e, 4)
    ensures Arrived(e, 0, -2.0)
  {
    hide Filling;
  }

  /** The last vehicle, numbered 8, crosses the lane point before slots 0 and 4 from 11.0 to 12.0. */
  lemma LotFills(c: Config)
    requires c.lot == TheLot() && c.waitTime >= 0.0
    ensures var e := Run(c, FILL);
      Arrived(e, 4, 6.0) && e.now == 6.8 && Res(8, Entering, 11.0, 12.0) in At(e.table, LanePoint(1))
  {
    hide Run, OneMore, Arrived, At;
    EpisodeStarts(c);
    var one := ArrivalFills(c, [Reset(GUESTS)], 0, -2.0, 2.0);
    var two := ArrivalFills(c, one, 1, 0.0, 2.0);
    var three := ArrivalFills(c, two, 2, 2.0, 2.0);
    var four := ArrivalFills(c, three, 3, 4.0, 0.8);
    LastOneCrosses(Run(c, three), Run(c, four), 0.8);
    assert four == FILL;
  }

  lemma FillIsValid(c: Config)
    requires c.lot == TheLot() && c.waitTime >= 0.0
    ensures ValidRun(c, FILL)
  {
    TheLotIsGood();
    GuestsStart();
  }

  lemma LastOneCrosses(e: Env, f: Env, gap: real)
    requires Arrived(e, 3, 4.0) && e.now == 6.0 && OneMore(e, f, 0, PARK_MAX, gap)
    ensures Res(8, Entering, 11.0, 12.0) in At(f.table, LanePoint(1))
  {
    hide Form, LaneBooked, NobodyDue;
    var r := Res(8, Entering, 11.0, 12.0);
    TheLotHasTheTables(0);
    var route := EntryRoute(e.lot, 0);
    var spans := Spans(|route|, e.now);
    assert |route| == 7 && route[5] == LanePoint(1) && spans[5] == Span(11.0, 12.0);
    assert Booking(LanePoint(1), r) == Booking(route[5], Res(8, Entering, spans[5].from, spans[5].to));
    assert Booking(LanePoint(1), r) in EntryBookings(e, 0);
    AdmitTable(e, 0, PARK_MAX, LanePoint(1), r);
  }

  // --- the departure is deferred ---

  lemma {:induction false} EarliestIs(ps: seq<Stay>, p: Stay)
    requires |ps| > 0 && p in ps && forall q :: q in ps ==> q.departAt >= p.departAt
    ensures Earliest(ps) == p.departAt
    decreases |ps|
  {
    if |ps| > 1 {
      var front := ps[..|ps| - 1];
      if p in front {
        EarliestIs(front, p);
      } else {
        EarliestAtLeast(front, p.departAt);
      }
    }
  }

  lemma {:induction false} EarliestAtLeast(ps: seq<Stay>, bound: real)
    requires |ps| > 0 && forall q :: q in ps ==> q.departAt >= bound
    ensures Earliest(ps) >= bound
    decreases |ps|
  {
    if |ps| > 1 {
      EarliestAtLeast(ps[..|ps| - 1], bound);
    }
  }

  lemma ExitIsBlocked(e: Env)
    requires e.lot == TheLot() && e.now == FIRST_DEPARTURE
    requires Res(8, Entering, 11.0, 12.0) in At(e.table, LanePoint(1))
    ensures !CanLeave(e, Stay(1, 4, FIRST_DEPARTURE))
  {
    TheLotHasTheTables(4);
    var route := ExitRoute(e.lot, 4);
    var spans := Spans(|route|, e.now);
    assert |route| == 7 && route[1] == LanePoint(1) && spans[1] == Span(10.0, 11.0);
    assert Overlaps(spans[1], Res(8, Entering, 11.0, 12.0));
  }

  lemma NobodyCanLeave(e: Env)
    requires Inv(e) && e.lot == TheLot() && e.now == FIRST_DEPARTURE && NobodyDue(e)
    requires Res(8, Entering, 11.0, 12.0) in At(e.table, LanePoint(1))
    ensures !SomeoneCanLeave(e, 0)
  {
    ExitIsBlocked(e);
    forall i | 0 <= i < |e.parked|
      ensures !DueAndClear(e, e.parked[i])
    {
      assert e.parked[i] in e.parked;
      LeavesExactly(e, e.parked[i]);
    }
  }

  /**
   All eight slots are taken when the earliest departure falls due at 9.0, and the vehicle in slot 4 cannot leave, for
   the last admitted one is still to pass in front of it: fast-forwarding moves the clock and frees no slot. If no
   waiting is allowed, asking for the masks does just that.
   */
  lemma FullLotStaysFull(c: Config)
    requires c.lot == TheLot() && c.waitTime >= 0.0
    ensures ValidRun(c, FILL)
    ensures var e := Run(c, FILL);
      AllTaken(e) && AllTaken(EnsureFreeSlot(e)) && EnsureFreeSlot(e).now == FIRST_DEPARTURE > e.now
    ensures c.maxWaits <= 0 ==> Run(c, FILL + [Masks]) == EnsureFreeSlot(Run(c, FILL))
  {
    hide Run, Tick, Departures, LaneBooked, NobodyDue, SomeoneCanLeave, Inv;
    FillIsValid(c);
    LotFills(c);
    RunKeeps(c, FILL);
    Then(c, FILL, Masks);
    var e := Run(c, FILL);
    FullLotDefers(e);
    if c.maxWaits <= 0 {
      NothingIsSelectable(e, c);
    }
  }

  lemma NothingIsSelectable(e: Env, c: Config)
    requires AllTaken(e) && c.maxWaits <= 0
    ensures NothingSelectable(e, c)
  {
  }

  lemma FullLotDefers(e: Env)
    requires Inv(e) && Arrived(e, 4, 6.0) && e.now == 6.8 && Res(8, Entering, 11.0, 12.0) in At(e.table, LanePoint(1))
    ensures AllTaken(e) && AllTaken(EnsureFreeSlot(e)) && EnsureFreeSlot(e).now == FIRST_DEPARTURE
  {
    hide Inv, Tick, At, LaneBooked, SomeoneCanLeave;
    EarliestIs(e.parked, Stay(1, 4, FIRST_DEPARTURE));
    var dt := Max(0.0, Earliest(e.parked) - e.now);
    TimePasses(e, dt, 6.0);
    ClockMoves(e, dt);
    TickKeeps(e, dt);
    NobodyCanLeave(Tick(e, dt));
    FastForwardFrees(e);
    DeparturesFree(Tick(e, dt), 0);
  }

  lemma ClockMoves(e: Env, dt: real)
    ensures Tick(e, dt).now == e.now + dt && Tick(e, dt).lot == e.lot
  {
  }
}
