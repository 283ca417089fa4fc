/** Who leaves, who is admitted and how the clock moves, said in terms of the table, the clock and the schedule alone. */
module ParkingDecisions {
  import opened ParkingLayout
  import opened ParkingSpec
  import opened ParkingTables
  import opened ParkingSafety
  import opened Reals

  // --- departures ---

  /** The vehicle has just started its way out: it stands on its slot front, the rest of the exit ahead of it. */
  ghost predicate StartsOut(e: Env, p: Stay) {
    exists v :: v in e.active && v.id == p.id && v.slot == p.slot && v.exiting
             && v.route == ExitRoute(e.lot, p.slot) && v.index == 0 && v.current == SlotFront(p.slot)
             && v.spans == Spans(|v.route|, e.now)
  }

  /** Gone from the parked vehicles, its slot free, and on its way out. */
  ghost predicate HasLeft(e: Env, p: Stay) {
    NotParked(p.id, e.parked) && !Taken(e, p.slot) && StartsOut(e, p)
  }

  ghost predicate StillParked(e: Env, p: Stay) {
    p in e.parked && Taken(e, p.slot)
  }

  /** What departures leave alone: those already moving, the clock, and whoever was decided on before position k. */
  lemma {:induction false} DeparturesOnlySendOut(e: Env, k: nat)
    requires Inv(e) && k <= |e.parked|
    ensures var f := Departures(e, k);
      && f.now == e.now && f.lot == e.lot && e.active <= f.active
      && (forall p :: p in f.parked ==> p in e.parked)
      && (forall j :: 0 <= j < k ==> e.parked[j] in f.parked)
    decreases |e.parked| - k
  {
    hide CanLeave, Inv;
    if k < |e.parked| {
      if CanLeave(e, e.parked[k]) {
        LeaveKeeps(e, k);
        LeaveRoll(e, k);
        var g := Leave(e, k);
        DeparturesOnlySendOut(g, k);
        assert forall j :: 0 <= j < k ==> g.parked[j] == e.parked[j];
      } else {
        DeparturesOnlySendOut(e, k + 1);
      }
    }
  }

  lemma ParkedHoldSlots(e: Env, p: Stay)
    requires Inv(e) && p in e.parked
    ensures Taken(e, p.slot)
  {
    assert Holds(RollPart, e) && Occupied(e.parked, p.slot);
  }

  lemma {:induction false} UndueStays(e: Env, k: nat, p: Stay)
    requires Inv(e) && k <= |e.parked| && p in e.parked && p.departAt > e.now
    ensures p in Departures(e, k).parked
    decreases |e.parked| - k
  {
    hide Inv;
    if k < |e.parked| {
      if CanLeave(e, e.parked[k]) {
        LeaveKeeps(e, k);
        LeaveRoll(e, k);
        UndueStays(Leave(e, k), k, p);
      } else {
        UndueStays(e, k + 1, p);
      }
    }
  }

  /** Nobody leaves before the scheduled departure. */
  lemma NobodyLeavesEarly(e: Env, p: Stay)
    requires Inv(e) && p in e.parked && p.departAt > e.now
    ensures StillParked(Departures(e, 0), p)
  {
    hide Inv, Departures;
    UndueStays(e, 0, p);
    DeparturesKeep(e, 0);
    ParkedHoldSlots(Departures(e, 0), p);
  }

  lemma {:induction false} SkipUndue(e: Env, j: nat, k: nat)
    requires j <= k <= |e.parked| && forall i :: j <= i < k ==> e.parked[i].departAt > e.now
    ensures Departures(e, j) == Departures(e, k)
    decreases k - j
  {
    if j < k {
      SkipUndue(e, j + 1, k);
    }
  }

  lemma LeaverStartsOut(e: Env, k: nat)
    requires Leaving(e, k)
    ensures HasLeft(Leave(e, k), e.parked[k])
  {
    hide RouteBookings, Register, RemoveVehicle;
    assert Holds(FormPart, e) && Holds(RollPart, e);
    var p, f := e.parked[k], Leave(e, k);
    LeaveRoll(e, k);
    LeaveFreesItsSlot(e, k);
    assert GoodExit(ExitRoute(e.lot, p.slot), p.slot);
    assert f.active[|e.active|] == Exiter(e, p) && Exiter(e, p) in f.active;
    forall q | q in f.parked
      ensures q.id != p.id
    {
      DifferentStays(e.parked, p, q);
    }
  }

  lemma LeftStaysLeft(e: Env, f: Env, p: Stay)
    requires HasLeft(e, p) && f.now == e.now && f.lot == e.lot && e.active <= f.active
    requires forall q :: q in f.parked ==> q in e.parked
    requires forall s: Slot :: Taken(f, s) ==> Taken(e, s)
    ensures HasLeft(f, p)
  {
    var v :| v in e.active && v.id == p.id && v.slot == p.slot && v.exiting
      && v.route == ExitRoute(e.lot, p.slot) && v.index == 0 && v.current == SlotFront(p.slot)
      && v.spans == Spans(|v.route|, e.now);
    assert v in f.active;
  }

  lemma Decided(e: Env, k: nat)
    requires k < |e.parked|
    ensures Departures(e, k) == if CanLeave(e, e.parked[k]) then Departures(Leave(e, k), k) else Departures(e, k + 1)
    ensures Leave(e, k).now == e.now && Leave(e, k).lot == e.lot && k <= |Leave(e, k).parked|
  {
  }

  /** The first vehicle that is due, in the order of the list, leaves exactly if its exit is clear. */
  lemma FirstDueLeaves(e: Env, k: nat)
    requires Inv(e) && k < |e.parked| && e.parked[k].departAt <= e.now
    requires forall j :: 0 <= j < k ==> e.parked[j].departAt > e.now
    ensures var p, f := e.parked[k], Departures(e, 0);
      if WayClear(e, ExitRoute(e.lot, p.slot), p.id) then HasLeft(f, p) else StillParked(f, p)
  {
    hide Inv, CanLeave, WayClear, HasLeft, Departures, Leave;
    var p := e.parked[k];
    SkipUndue(e, 0, k);
    Decided(e, k);
    LeavesExactly(e, p);
    if CanLeave(e, p) {
      var g := Leave(e, k);
      LeaveKeeps(e, k);
      LeaverStartsOut(e, k);
      DeparturesOnlySendOut(g, k);
      DeparturesFree(g, k);
      LeftStaysLeft(g, Departures(g, k), p);
    } else {
      DeparturesOnlySendOut(e, k + 1);
      DeparturesKeep(e, k + 1);
      ParkedHoldSlots(Departures(e, k + 1), p);
    }
  }

  /** The entries of a vehicle that leaves keep the margin to the exit of anyone else who is due. */
  lemma LeaverBlocksNobody(e: Env, k: nat, p: Stay, i: nat, r: Res)
    requires Leaving(e, k) && p in e.parked && p != e.parked[k] && p.departAt <= e.now
    requires i < |ExitRoute(e.lot, p.slot)| && r in At(e.table, ExitRoute(e.lot, p.slot)[i]) && r.vehicle == e.parked[k].id
    ensures r.end + SAFETY_MARGIN <= e.now + i as real
  {
    assert Holds(FormPart, e) && Holds(RollPart, e) && Holds(FrontsPart, e) && Holds(LedgerPart, e);
    var route := ExitRoute(e.lot, p.slot);
    assert GoodExit(route, p.slot);
    LeaverExpires(e, k, Booking(route[i], r));
    if i == 0 {
      DifferentStays(e.parked, p, e.parked[k]);
      assert Booking(route[i], r) in e.ever;
      assert FrontBound(e, p.slot, r) && EndsWith(p, r);
    }
  }

  /** Somebody else's departure clears nobody's way: what it takes out of the table is long over. */
  lemma BlockedStaysBlocked(e: Env, k: nat, p: Stay)
    requires Leaving(e, k) && p in e.parked && p != e.parked[k] && p.departAt <= e.now && !DueAndClear(e, p)
    ensures !DueAndClear(Leave(e, k), p)
  {
    hide RouteBookings, Register, RemoveVehicle;
    assert Holds(FormPart, e);
    var route := ExitRoute(e.lot, p.slot);
    assert GoodExit(route, p.slot);
    var i, r :| 0 <= i < |route| && r in At(e.table, route[i]) && r.vehicle != p.id
      && !(r.end + SAFETY_MARGIN <= e.now + i as real || e.now + i as real + 1.0 + SAFETY_MARGIN <= r.start);
    if r.vehicle == e.parked[k].id {
      LeaverBlocksNobody(e, k, p, i, r);
    }
    LeaveTable(e, k, route[i], r);
    assert Leave(e, k).lot == e.lot && Leave(e, k).now == e.now;
  }

  lemma {:induction false} DeparturesLeaveNone(e: Env, k: nat)
    requires Inv(e) && k <= |e.parked| && forall j :: 0 <= j < k ==> !DueAndClear(e, e.parked[j])
    ensures forall p :: p in Departures(e, k).parked ==> !DueAndClear(Departures(e, k), p)
    decreases |e.parked| - k
  {
    hide Inv, CanLeave, WayClear;
    if k == |e.parked| {
      forall p | p in e.parked
        ensures !DueAndClear(e, p)
      {
        var j :| 0 <= j < |e.parked| && e.parked[j] == p;
      }
    } else {
      LeavesExactly(e, e.parked[k]);
      if CanLeave(e, e.parked[k]) {
        LeaveKeeps(e, k);
        OthersStayBlocked(e, k);
        DeparturesLeaveNone(Leave(e, k), k);
      } else {
        DeparturesLeaveNone(e, k + 1);
      }
    }
  }

  lemma OthersStayBlocked(e: Env, k: nat)
    requires Leaving(e, k) && forall j :: 0 <= j < k ==> !DueAndClear(e, e.parked[j])
    ensures forall j :: 0 <= j < k ==> !DueAndClear(Leave(e, k), Leave(e, k).parked[j])
  {
    hide WayClear;
    assert Holds(RollPart, e);
    forall j | 0 <= j < k
      ensures !DueAndClear(Leave(e, k), Leave(e, k).parked[j])
    {
      assert Leave(e, k).parked[j] == e.parked[j];
      if e.parked[j].departAt <= e.now {
        BlockedStaysBlocked(e, k, e.parked[j]);
      }
    }
  }

  /** Departures are complete: afterwards nobody who is still parked is due with a clear exit. */
  lemma NobodyClearIsLeft(e: Env, p: Stay)
    requires Inv(e) && p in Departures(e, 0).parked
    ensures var f := Departures(e, 0); p.departAt > f.now || !WayClear(f, ExitRoute(f.lot, p.slot), p.id)
  {
    hide Inv, Departures, WayClear;
    DeparturesLeaveNone(e, 0);
  }

  // --- the clock ---

  /** The same vehicle on the same booked route, wherever on it. */
  ghost predicate SameTrip(v: Vehicle, w: Vehicle) {
    w == v.(index := w.index, current := w.current, next := w.next, eta := w.eta)
  }

  lemma MovesOn(v: Vehicle, t: real)
    ensures SameTrip(v, Moved(v, t))
  {
  }

  /** Letting time pass moves the clock by exactly that much; a vehicle is under way until its trip is over, not longer. */
  lemma TimePassesExactly(e: Env, dt: real)
    requires Inv(e) && dt >= 0.0
    ensures var f := AdvanceTime(e, dt);
      && f.now == e.now + dt && f.lastId == e.lastId
      && (forall v :: v in e.active && f.now < End(v) ==> exists w :: w in f.active && SameTrip(v, w))
      && (forall w :: w in f.active ==> f.now < End(w))
  {
    hide Inv, Departures, SameTrip;
    var g, f := Tick(e, dt), AdvanceTime(e, dt);
    TickKeeps(e, dt);
    DeparturesOnlySendOut(g, 0);
    DeparturesKeep(g, 0);
    forall v | v in e.active && f.now < End(v)
      ensures exists w :: w in f.active && SameTrip(v, w)
    {
      StillMovingHas(e.active, g.now, v);
      MovesOn(v, g.now);
      assert Moved(v, g.now) in f.active;
    }
    forall w | w in f.active
      ensures f.now < End(w)
    {
      UnderWayIsNotOver(f, w);
    }
  }

  lemma UnderWayIsNotOver(e: Env, w: Vehicle)
    requires Inv(e) && w in e.active
    ensures e.now < End(w)
  {
    assert Holds(TrafficPart, e);
    assert OnItsWay(e, w);
  }

  // --- admissions ---

  /** The shield lets a vehicle through exactly to a free slot with a clear way in. */
  lemma ShieldExactly(e: Env, s: Slot)
    requires Inv(e)
    ensures Shielded(e, s) <==> !Taken(e, s) && WayClear(e, EntryRoute(e.lot, s), e.lastId + 1)
  {
    hide WayClear, Conflict;
    assert Holds(LedgerPart, e);
    ConflictExactly(e, EntryRoute(e.lot, s), e.lastId + 1, {});
  }

  /** A new vehicle has the next number, holds slot s from its arrival for `stay` seconds, and drives in since `since`. */
  ghost predicate HasEntered(e: Env, id: nat, s: Slot, since: real, stay: real) {
    && e.lastId == id && Taken(e, s)
    && (exists p :: p in e.parked && p == Stay(id, s, since + |EntryRoute(e.lot, s)| as real + stay))
    && (exists v :: v in e.active && v.id == id && v.slot == s && !v.exiting
                    && v.route == EntryRoute(e.lot, s) && v.spans == Spans(|v.route|, since))
  }

  lemma AdmissionEnters(e: Env, s: Slot, stay: real)
    requires Inv(e)
    ensures HasEntered(Admit(e, s, stay), e.lastId + 1, s, e.now, stay)
    ensures var f := Admit(e, s, stay);
      f.now == e.now && f.steps == e.steps && f.waits == e.waits && f.lot == e.lot && f.lastId == e.lastId + 1
  {
    hide RouteBookings, Register, Append;
    assert Holds(FormPart, e);
    var f := Admit(e, s, stay);
    assert GoodEntry(EntryRoute(e.lot, s), s);
    StartsUnderWay(e.lastId + 1, s, EntryRoute(e.lot, s), e.now, false);
    assert f.active[|e.active|] in f.active && f.parked[|e.parked|] in f.parked;
  }

  lemma StillEntering(e: Env, s: Slot, since: real, stay: real, gap: real)
    requires Inv(e) && HasEntered(e, e.lastId, s, since, stay) && e.now == since && stay >= PARK_MIN && 0.0 <= gap < 4.0
    ensures HasEntered(AdvanceTime(e, gap), e.lastId, s, since, stay)
  {
    hide Departures;
    assert Holds(FormPart, e);
    assert GoodEntry(EntryRoute(e.lot, s), s);
    var p := Stay(e.lastId, s, since + |EntryRoute(e.lot, s)| as real + stay);
    var f := AdvanceTime(e, gap);
    var v :| v in e.active && v.id == e.lastId && v.slot == s && !v.exiting
      && v.route == EntryRoute(e.lot, s) && v.spans == Spans(|v.route|, since);
    TickKeeps(e, gap);
    NobodyLeavesEarly(Tick(e, gap), p);
    DeparturesOnlySendOut(Tick(e, gap), 0);
    TimePassesExactly(e, gap);
  }

  /** One accepted decision: the clock and the counters, and who is let in. */
  lemma StepExactly(e: Env, c: Config, action: int, stay: real, gap: real)
    requires Inv(e) && Clock(e) && c.waitTime >= 0.0 && PARK_MIN <= stay && ARRIVAL_MIN <= gap <= ARRIVAL_MAX
    ensures var f := StepEnv(e, c, action, stay, gap);
      if e.done || !(0 <= action <= WAIT_ACTION) then f == e
      else
        && f.steps == e.steps + 1
        && f.now == e.now + (if action == WAIT_ACTION then c.waitTime else gap)
        && f.waits == (if action == WAIT_ACTION then e.waits + 1 else 0)
        && if action < WAIT_ACTION && !Taken(e, action) && WayClear(e, EntryRoute(e.lot, action), e.lastId + 1)
           then HasEntered(f, e.lastId + 1, action, e.now, stay)
           else f.lastId == e.lastId
  {
    hide WayClear, Shielded, Admit, AdvanceTime, HasEntered, Taken, Inv;
    if !e.done && 0 <= action <= WAIT_ACTION {
      var f := e.(waits := if action == WAIT_ACTION then e.waits + 1 else 0);
      InvIgnoresCounters(e, f);
      if action == WAIT_ACTION {
        ClosesExactly(f, c.waitTime);
      } else {
        ShieldExactly(e, action);
        ShieldIgnoresCounters(e, f, action);
        if Shielded(f, action) {
          AdmissionEnters(f, action, stay);
          AdmitKeeps(f, action, stay);
          ClosesExactly(Admit(f, action, stay), gap);
          EntersAndCloses(Admit(f, action, stay), action, f.now, stay, gap);
        } else {
          ClosesExactly(f, gap);
        }
      }
    }
  }

  lemma ShieldIgnoresCounters(e: Env, f: Env, s: Slot)
    requires f == e.(waits := f.waits)
    ensures Shielded(f, s) <==> Shielded(e, s)
  {
  }

  lemma ClosesExactly(e: Env, dt: real)
    requires Inv(e) && dt >= 0.0
    ensures var f := CloseStep(e, dt);
      && f.now == e.now + dt && f.steps == e.steps + 1 && f.waits == e.waits && f.lastId == e.lastId
  {
    hide Inv, AdvanceTime;
    var g := e.(steps := e.steps + 1);
    InvIgnoresCounters(e, g);
    AdvanceKeeps(g, dt);
    TimePassesExactly(g, dt);
  }

  lemma EntersAndCloses(e: Env, s: Slot, since: real, stay: real, gap: real)
    requires Inv(e) && HasEntered(e, e.lastId, s, since, stay) && e.now == since && stay >= PARK_MIN && 0.0 <= gap < 4.0
    ensures HasEntered(CloseStep(e, gap), e.lastId, s, since, stay)
  {
    hide Inv, AdvanceTime;
    var g := e.(steps := e.steps + 1);
    InvIgnoresCounters(e, g);
    StillEntering(g, s, since, stay, gap);
    AdvanceKeeps(g, gap);
  }

  // --- the start of an episode ---

  /** A fresh episode has exactly the drawn vehicles parked, numbered in the order drawn, on a clock at zero. */
  lemma {:induction false} EpisodeStartsExactly(lot: Lot, guests: seq<Guest>)
    requires GoodLot(lot) && ValidGuests(guests)
    ensures HasGuests(PreParkAll(lot, guests), guests)
    decreases |guests|
  {
    hide PrePark, HasGuests;
    if |guests| == 0 {
      NobodyParked(lot);
    } else {
      var front, g := guests[..|guests| - 1], guests[|guests| - 1];
      FewerGuests(guests);
      EpisodeStartsExactly(lot, front);
      PreParkAllKeeps(lot, front);
      OneMoreGuest(PreParkAll(lot, front), front, g);
    }
  }

  ghost predicate HasGuests(f: Env, guests: seq<Guest>) {
    && f.now == 0.0 && f.steps == 0 && f.waits == 0 && f.lastId == |guests| && f.active == []
    && !f.done && f.departures == 0 && |f.parked| == |guests|
    && (forall i :: 0 <= i < |guests| ==> f.parked[i] == Stay(i + 1, guests[i].slot, guests[i].departAt))
    && (forall s: Slot :: Taken(f, s) <==> Invited(guests, s))
  }

  lemma NobodyParked(lot: Lot)
    ensures HasGuests(PreParkAll(lot, []), [])
  {
  }

  lemma OneMoreGuest(e: Env, guests: seq<Guest>, g: Guest)
    requires Inv(e) && HasGuests(e, guests)
    ensures HasGuests(PrePark(e, g.slot, g.departAt), guests + [g])
  {
    hide Append, Inv;
    TakenAfter(e, g);
    hide Taken;
    var more := guests + [g];
    forall s: Slot
      ensures Invited(more, s) <==> Invited(guests, s) || s == g.slot
    {
      assert g in more;
      if Invited(guests, s) {
        var h :| h in guests && h.slot == s;
        assert h in more;
      }
    }
  }

  lemma TakenAfter(e: Env, g: Guest)
    requires Inv(e)
    ensures forall s: Slot :: Taken(PrePark(e, g.slot, g.departAt), s) <==> Taken(e, s) || s == g.slot
  {
    hide Append;
    assert Holds(FormPart, e);
  }

  // --- asking for the masks ---

  /**
   Asking for the masks moves the clock exactly if the episode goes on, no waiting is left, and every slot is taken;
   then it moves to the earliest departure, or stays if that is overdue, and departures are decided.
   */
  lemma MasksExactly(e: Env, c: Config)
    requires Inv(e)
    ensures (forall s: Slot :: Taken(e, s)) ==> |e.parked| > 0
    ensures var stuck := !e.done && e.waits >= c.maxWaits && forall s: Slot :: Taken(e, s);
      MaskEnv(e, c) == if stuck then AdvanceTime(e, Max(0.0, Earliest(e.parked) - e.now)) else e
  {
    hide AdvanceTime, Earliest;
    NoDeadlock(e);
  }

  lemma {:induction false} EarliestIsEarliest(ps: seq<Stay>)
    requires |ps| > 0
    ensures (exists p :: p in ps && p.departAt == Earliest(ps)) && forall p :: p in ps ==> p.departAt >= Earliest(ps)
  {
    var front, last := ps[..|ps| - 1], ps[|ps| - 1];
    assert last in ps && forall p :: p in ps <==> p in front || p == last;
    if |ps| > 1 {
      EarliestIsEarliest(front);
      var p :| p in front && p.departAt == Earliest(front);
      assert p in ps;
    }
  }

  // --- a departure on time ---

  const ON_TIME := [Reset([Guest(4, 9.0)]), Advance(9.0)]

  /** One vehicle parked from the start in slot 4, due at 9.0: with the lane empty it leaves when the clock gets there. */
  lemma GuestLeavesOnTime(c: Config)
    requires c.lot == TheLot() && c.waitTime >= 0.0
    ensures ValidRun(c, ON_TIME) && HasLeft(Run(c, ON_TIME), Stay(1, 4, 9.0)) && Run(c, ON_TIME).now == 9.0
  {
    hide PreParkAll, AdvanceTime, HasLeft, Inv, Run, TheLot, GoodLot;
    TheLotIsGood();
    assert ValidGuests([Guest(4, 9.0)]);
    OneGuest();
    ResetThenAdvance(c, [Guest(4, 9.0)], 9.0);
    LeavesAnEmptyLane(PreParkAll(TheLot(), [Guest(4, 9.0)]));
  }

  lemma OneGuest()
    ensures var e := PreParkAll(TheLot(), [Guest(4, 9.0)]);
      Inv(e) && e.now == 0.0 && e.parked == [Stay(1, 4, 9.0)] && forall n, r :: r in At(e.table, n) ==> r.vehicle == 1
  {
    hide PreParkAll, Inv, TheLot, GoodLot;
    TheLotIsGood();
    var guests := [Guest(4, 9.0)];
    EpisodeStartsExactly(TheLot(), guests);
    PreParkAllKeeps(TheLot(), guests);
    OnlyItsOwnBooking(TheLot(), Guest(4, 9.0));
  }

  lemma ResetThenAdvance(c: Config, guests: seq<Guest>, dt: real)
    ensures Run(c, [Reset(guests), Advance(dt)]) == AdvanceTime(PreParkAll(c.lot, guests), dt)
  {
    hide PreParkAll, AdvanceTime;
    var run := [Reset(guests), Advance(dt)];
    assert run[..1] == [Reset(guests)] && run[..1][..0] == [];
    assert Run(c, []) == Fresh(c.lot);
    assert Run(c, run[..1]) == PreParkAll(c.lot, guests);
  }

  lemma OnlyItsOwnBooking(lot: Lot, g: Guest)
    requires GoodLot(lot)
    ensures forall n, r :: r in At(PreParkAll(lot, [g]).table, n) ==> r.vehicle == 1
  {
    assert [g][..0] == [];
    FreshKeeps(lot);
    assert Holds(FormPart, Fresh(lot));
    forall n, r | r in At(PreParkAll(lot, [g]).table, n)
      ensures r.vehicle == 1
    {
      assert PreParkAll(lot, [g]) == PrePark(Fresh(lot), g.slot, g.departAt);
      PreParkTable(Fresh(lot), g, n, r);
    }
  }

  lemma LeavesAnEmptyLane(e: Env)
    requires Inv(e) && e.now == 0.0 && e.parked == [Stay(1, 4, 9.0)]
    requires forall n, r :: r in At(e.table, n) ==> r.vehicle == 1
    ensures AdvanceTime(e, 9.0).now == 9.0 && HasLeft(AdvanceTime(e, 9.0), Stay(1, 4, 9.0))
  {
    hide Departures, HasLeft;
    var g := Tick(e, 9.0);
    TickKeeps(e, 9.0);
    forall n, r | r in At(g.table, n)
      ensures r.vehicle == 1
    {
      TickTable(e, 9.0, n, r);
    }
    FirstDueLeaves(g, 0);
    DeparturesOnlySendOut(g, 0);
  }
}
