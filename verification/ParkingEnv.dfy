/** The simulator itself: fields, loops and in-place updates, proved against `ParkingSpec`. */
module ParkingEnv {
  import opened ParkingLayout
  import opened ParkingSpec
  import opened ParkingTables
  import opened Reals

  datatype StepResult =
    | EpisodeIsOver                                  // the episode has ended; reset first
    | ActionOutOfRange
    | Stepped(conflict: bool, admitted: bool, terminated: bool)

  /** A vehicle whose position on its route can be read off. */
  ghost predicate Drivable(v: Vehicle) {
    |v.spans| == |v.route| && v.index < |v.route|
  }

  ghost predicate OverGraph(table: Table) {
    forall n :: n in table <==> OnGraph(n)
  }

  /** What the methods need of their state; `ParkingSafety` proves far more of the states they reach. */
  ghost predicate Ready(e: Env) {
    && GoodLot(e.lot)
    && |e.taken| == NUM_SLOTS
    && OverGraph(e.table)
    && forall v :: v in e.active ==> Drivable(v)
  }

  lemma SameKeys(t: Table, u: Table)
    requires OverGraph(t) && u.Keys == t.Keys
    ensures OverGraph(u)
  {
    assert forall n :: n in u <==> n in u.Keys;
  }

  lemma GraphRoutes(lot: Lot, s: Slot)
    requires GoodLot(lot)
    ensures |EntryRoute(lot, s)| > 0 && forall n :: n in EntryRoute(lot, s) ==> OnGraph(n)
    ensures |ExitRoute(lot, s)| > 0 && forall n :: n in ExitRoute(lot, s) ==> OnGraph(n)
  {
    assert GoodEntry(EntryRoute(lot, s), s) && GoodExit(ExitRoute(lot, s), s);
  }

  lemma RegisterKeys(table: Table, route: seq<Node>, spans: seq<Span>, id: nat, kind: Kind)
    ensures OverGraph(table) ==> OverGraph(Register(table, route, spans, id, kind))
    decreases |route|
  {
    if |route| > 0 && |route| == |spans| {
      RegisterKeys(table, route[..|route| - 1], spans[..|route| - 1], id, kind);
    }
  }

  lemma StillMovingDrivable(vs: seq<Vehicle>, t: real, w: Vehicle)
    requires (forall v :: v in vs ==> Drivable(v)) && w in StillMoving(vs, t)
    ensures Drivable(w)
  {
    var v := StillMovingFrom(vs, t, w);
  }

  lemma TickReady(e: Env, dt: real)
    requires Ready(e)
    ensures Ready(Tick(e, dt))
  {
    hide PurgeExited, StillMoving, GoodLot;
    PurgeExitedMember(e.table, e.active, e.now + dt, Entrance, Res(0, Parked, 0.0, 0.0));
    SameKeys(e.table, Tick(e, dt).table);
    forall w | w in StillMoving(e.active, e.now + dt)
      ensures Drivable(w)
    {
      StillMovingDrivable(e.active, e.now + dt, w);
    }
  }

  lemma SendOutReady(e: Env, s: Stay)
    requires Ready(e)
    ensures Ready(SendOut(e, s))
  {
    GraphRoutes(e.lot, s.slot);
    SameKeys(e.table, RemoveVehicle(e.table, s.id));
    var v := Exiter(e, s);
    RegisterKeys(RemoveVehicle(e.table, s.id), v.route, v.spans, s.id, Exiting);
  }

  lemma AdmitReady(e: Env, s: Slot, stay: real)
    requires Ready(e)
    ensures Ready(Admit(e, s, stay))
  {
    GraphRoutes(e.lot, s);
    var v := Enterer(e, s);
    RegisterKeys(e.table, v.route, v.spans, v.id, Entering);
  }

  /** The fields an admission changes, one by one. */
  lemma AdmitMatches(e: Env, f: Env, s: Slot, stay: real)
    requires f == e.(lastId := f.lastId, taken := f.taken, table := f.table, active := f.active,
                     parked := f.parked, ever := f.ever)
    requires f.lastId == e.lastId + 1 && f.taken == SetSlot(e.taken, s, true)
    requires f.active == e.active + [Enterer(e, s)]
    requires var v, b := Enterer(e, s), StayBooking(e, s, stay);
      && f.table == Append(Register(e.table, v.route, v.spans, v.id, Entering), SlotFront(s), b.res)
      && f.parked == e.parked + [Stay(v.id, s, b.res.end)]
      && f.ever == e.ever + RouteBookings(v.route, v.spans, v.id, Entering) + {b}
    ensures f == Admit(e, s, stay)
  {
  }

  /** The fields a departure changes, one by one. */
  lemma SendOutMatches(e: Env, f: Env, s: Stay)
    requires f == e.(taken := f.taken, table := f.table, active := f.active, departures := f.departures, ever := f.ever)
    requires f.departures == e.departures + 1 && f.taken == SetSlot(e.taken, s.slot, false)
    requires f.active == e.active + [Exiter(e, s)]
    requires var v := Exiter(e, s);
      && f.table == Register(RemoveVehicle(e.table, s.id), v.route, v.spans, s.id, Exiting)
      && f.ever == e.ever + RouteBookings(v.route, v.spans, s.id, Exiting)
    ensures f == SendOut(e, s)
  {
  }

  lemma NobodyLeft(e: Env)
    ensures Departures(e, |e.parked|) == e
  {
  }

  /** Deciding about the first of the vehicles still to be looked at. */
  lemma DecideNext(e: Env, kept: seq<Stay>, rest: seq<Stay>)
    requires |rest| > 0
    ensures Departures(e.(parked := kept + rest), |kept|) ==
      if CanLeave(e, rest[0]) then Departures(SendOut(e, rest[0]).(parked := kept + rest[1..]), |kept|)
      else Departures(e.(parked := (kept + [rest[0]]) + rest[1..]), |kept + [rest[0]]|)
  {
    var f := e.(parked := kept + rest);
    assert f.parked[|kept|] == rest[0];
    assert f.parked[..|kept|] + f.parked[|kept| + 1..] == kept + rest[1..];
    assert (kept + [rest[0]]) + rest[1..] == kept + rest;
    assert CanLeave(f, rest[0]) <==> CanLeave(e, rest[0]);
    assert SendOut(f, rest[0]).(parked := kept + rest[1..]) == SendOut(e, rest[0]).(parked := kept + rest[1..]);
  }

  class ParkingRoutingEnv {
    const lot: Lot
    const waitTime: real
    const maxConsecutiveWaits: int

    var slotStatuses: array<bool>
    var activeVehicles: seq<Vehicle>
    var parkedVehicles: seq<Stay>
    var reservations: Table
    var currentTime: real
    var stepCount: nat
    var terminated: bool
    var vehicleIdCounter: nat
    var departureCount: nat
    var consecutiveWaits: nat
    ghost var everBooked: set<Booking>

    ghost function Abs(): Env
      reads this, slotStatuses
    {
      Env(lot, currentTime, slotStatuses[..], reservations, activeVehicles, parkedVehicles,
          stepCount, terminated, vehicleIdCounter, departureCount, consecutiveWaits, everBooked)
    }

    ghost predicate Valid()
      reads this, slotStatuses
    {
      Ready(Abs())
    }

    ghost function Configuration(): Config {
      Config(lot, waitTime, maxConsecutiveWaits)
    }

    constructor (lot: Lot, waitTime: real, maxConsecutiveWaits: int)
      requires GoodLot(lot)
      ensures Valid() && Abs() == Fresh(lot) && fresh(slotStatuses)
      ensures Configuration() == Config(lot, waitTime, maxConsecutiveWaits)
    {
      this.lot := lot;
      this.waitTime := waitTime;
      this.maxConsecutiveWaits := maxConsecutiveWaits;
      slotStatuses := new bool[NUM_SLOTS](_ => false);
      activeVehicles, parkedVehicles := [], [];
      reservations := EmptyTable();
      currentTime, stepCount, terminated := 0.0, 0, false;
      vehicleIdCounter, departureCount, consecutiveWaits := 0, 0, 0;
      everBooked := {};
    }

    method InitState()
      requires GoodLot(lot)
      modifies this
      ensures Valid() && Abs() == Fresh(lot) && fresh(slotStatuses)
    {
      hide GoodLot, Drivable, OnGraph;
      slotStatuses := new bool[NUM_SLOTS](_ => false);
      activeVehicles, parkedVehicles := [], [];
      reservations := EmptyTable();
      currentTime, stepCount, terminated := 0.0, 0, false;
      vehicleIdCounter, departureCount, consecutiveWaits := 0, 0, 0;
      everBooked := {};
    }

    /** A fresh episode; `guests` are the vehicles drawn to be parked already. */
    method Reset(guests: seq<Guest>)
      requires GoodLot(lot) && ValidGuests(guests)
      modifies this
      ensures Valid() && Abs() == PreParkAll(lot, guests) && fresh(slotStatuses)
    {
      InitState();
      var i := 0;
      while i < |guests|
        invariant 0 <= i <= |guests|
        invariant fresh(slotStatuses)
        invariant Valid() && Abs() == PreParkAll(lot, guests[..i])
      {
        assert guests[..i + 1][..i] == guests[..i];
        ParkGuest(guests[i].slot, guests[i].departAt);
        i := i + 1;
      }
      assert guests[..i] == guests;
    }

    method SetStatus(s: Slot, taken: bool)
      requires slotStatuses.Length == NUM_SLOTS
      modifies slotStatuses
      ensures slotStatuses[..] == SetSlot(old(slotStatuses[..]), s, taken)
    {
      slotStatuses[s] := taken;
    }

    method ParkGuest(s: Slot, departAt: real)
      requires Valid()
      modifies this, slotStatuses
      ensures Valid() && slotStatuses == old(slotStatuses)
      ensures Abs() == PrePark(old(Abs()), s, departAt)
    {
      hide GoodLot, Drivable;
      vehicleIdCounter := vehicleIdCounter + 1;
      SetStatus(s, true);
      var r := Res(vehicleIdCounter, Parked, 0.0, departAt);
      reservations := reservations[SlotFront(s) := reservations[SlotFront(s)] + [r]];
      parkedVehicles := parkedVehicles + [Stay(vehicleIdCounter, s, departAt)];
      everBooked := everBooked + {Booking(SlotFront(s), r)};
    }

    // --- safety shield ---

    static method BuildIntervals(route: seq<Node>, startTime: real) returns (spans: seq<Span>)
      ensures spans == Spans(|route|, startTime)
    {
      spans := [];
      var t := startTime;
      for k := 0 to |route|
        invariant t == startTime + k as real
        invariant |spans| == k && forall i :: 0 <= i < k ==> spans[i] == Spans(|route|, startTime)[i]
      {
        spans := spans + [Span(t, t + 1.0)];
        t := t + 1.0;
      }
    }

    method CheckConflictExcluding(route: seq<Node>, spans: seq<Span>, ignored: set<nat>) returns (conflict: bool)
      requires |route| == |spans|
      ensures conflict <==> Conflict(reservations, route, spans, ignored)
    {
      for i := 0 to |route|
        invariant !Conflict(reservations, route[..i], spans[..i], ignored)
      {
        var rs := if route[i] in reservations then reservations[route[i]] else [];
        for j := 0 to |rs|
          invariant forall k :: 0 <= k < j ==> rs[k].vehicle in ignored || !Overlaps(spans[i], rs[k])
        {
          if rs[j].vehicle !in ignored && Overlaps(spans[i], rs[j]) {
            assert route[i] in reservations && rs[j] in reservations[route[i]];
            return true;
          }
        }
      }
      return false;
    }

    method CheckConflict(route: seq<Node>, spans: seq<Span>) returns (conflict: bool)
      requires |route| == |spans|
      ensures conflict <==> Conflict(reservations, route, spans, {})
    {
      conflict := CheckConflictExcluding(route, spans, {});
    }

    method QuickConflictCheck(s: Slot) returns (conflict: bool)
      ensures conflict <==> Conflict(reservations, EntryRoute(lot, s), Spans(|EntryRoute(lot, s)|, currentTime), {})
    {
      var spans := BuildIntervals(EntryRoute(lot, s), currentTime);
      conflict := CheckConflict(EntryRoute(lot, s), spans);
    }

    method RegisterReservation(route: seq<Node>, spans: seq<Span>, id: nat, kind: Kind)
      requires |route| == |spans| && OverGraph(reservations) && forall n :: n in route ==> OnGraph(n)
      modifies this`reservations, this`everBooked
      ensures OverGraph(reservations)
      ensures reservations == Register(old(reservations), route, spans, id, kind)
      ensures everBooked == old(everBooked) + RouteBookings(route, spans, id, kind)
    {
      for i := 0 to |route|
        invariant reservations == Register(old(reservations), route[..i], spans[..i], id, kind)
        invariant OverGraph(reservations)
        invariant everBooked == old(everBooked)
      {
        assert route[..i + 1][..i] == route[..i] && spans[..i + 1][..i] == spans[..i];
        assert route[i] in route;
        var r := Res(id, kind, spans[i].from, spans[i].to);
        reservations := reservations[route[i] := reservations[route[i]] + [r]];
      }
      assert route[..|route|] == route && spans[..|route|] == spans;
      everBooked := everBooked + RouteBookings(route, spans, id, kind);
    }

    method RemoveReservationsForVehicle(id: nat)
      modifies this`reservations
      ensures reservations == RemoveVehicle(old(reservations), id)
    {
      var nodes := reservations.Keys;
      while nodes != {}
        invariant nodes <= reservations.Keys == old(reservations).Keys
        invariant forall n :: n in reservations ==>
          reservations[n] == if n in nodes then old(reservations)[n] else Without(old(reservations)[n], id)
        decreases nodes
      {
        var n :| n in nodes;
        var kept, j := [], 0;
        while j < |reservations[n]|
          invariant 0 <= j <= |reservations[n]|
          invariant kept == Without(reservations[n][..j], id)
        {
          assert reservations[n][..j + 1][..j] == reservations[n][..j];
          if reservations[n][j].vehicle != id {
            kept := kept + [reservations[n][j]];
          }
          j := j + 1;
        }
        assert reservations[n][..j] == reservations[n];
        reservations := reservations[n := kept];
        nodes := nodes - {n};
      }
    }

    // --- traffic ---

    static method MoveVehicle(v: Vehicle, t: real) returns (w: Vehicle)
      requires Drivable(v)
      ensures w == Moved(v, t)
    {
      var ri := v.index;
      while ri < |v.spans| - 1 && t >= v.spans[ri].to
        invariant v.index <= ri < |v.spans|
        invariant Seek(v.spans, ri, t) == Seek(v.spans, v.index, t)
      {
        ri := ri + 1;
      }
      var eta := Max(0.0, v.spans[|v.spans| - 1].to - t);
      w := v.(index := ri, current := v.route[ri], next := Next(v.route, ri), eta := eta);
    }

    method AdvanceTime(dt: real)
      requires Valid()
      modifies this, slotStatuses
      ensures Valid() && slotStatuses == old(slotStatuses)
      ensures Abs() == ParkingSpec.AdvanceTime(old(Abs()), dt)
    {
      MoveVehicles(dt);
      TickReady(old(Abs()), dt);
      var departed := ProcessDepartures();
    }

    /** Advance the clock, move every vehicle, drop the arrived and purge the exited. */
    method MoveVehicles(dt: real)
      requires Valid()
      modifies this`currentTime, this`activeVehicles, this`reservations
      ensures Abs() == Tick(old(Abs()), dt)
    {
      hide GoodLot, OverGraph, RemoveVehicle, Moved;
      currentTime := currentTime + dt;
      var vehicles, stillMoving := activeVehicles, [];
      for i := 0 to |vehicles|
        invariant currentTime == old(currentTime) + dt
        invariant stillMoving == StillMoving(vehicles[..i], currentTime)
        invariant reservations == PurgeExited(old(reservations), vehicles[..i], currentTime)
      {
        assert vehicles[..i + 1][..i] == vehicles[..i];
        var v := vehicles[i];
        assert v in vehicles;
        var w := MoveVehicle(v, currentTime);
        if currentTime < v.spans[|v.spans| - 1].to {
          stillMoving := stillMoving + [w];
        } else if v.exiting {
          RemoveReservationsForVehicle(v.id);
        }
      }
      assert vehicles[..|vehicles|] == vehicles;
      activeVehicles := stillMoving;
    }

    method ProcessDepartures() returns (departed: nat)
      requires Valid()
      modifies this, slotStatuses
      ensures Valid() && slotStatuses == old(slotStatuses)
      ensures Abs() == Departures(old(Abs()), 0)
      ensures departureCount == old(departureCount) + departed
    {
      hide SendOut, CanLeave, GoodLot, OverGraph, Drivable, Departures;
      departed := 0;
      var todo, stillParked := parkedVehicles, [];
      var i := 0;
      assert stillParked + todo[0..] == todo;
      while i < |todo|
        invariant 0 <= i <= |todo|
        invariant Valid() && slotStatuses == old(slotStatuses)
        invariant departureCount == old(departureCount) + departed
        invariant Departures(Abs().(parked := stillParked + todo[i..]), |stillParked|) == Departures(old(Abs()), 0)
      {
        DecideNext(Abs(), stillParked, todo[i..]);
        assert todo[i..][1..] == todo[i + 1..];
        var leaves := TryDepart(todo[i]);
        if leaves {
          departed := departed + 1;
        } else {
          stillParked := stillParked + [todo[i]];
        }
        i := i + 1;
      }
      assert stillParked + todo[i..] == stillParked;
      NobodyLeft(Abs().(parked := stillParked));
      parkedVehicles := stillParked;
    }

    method TryDepart(pv: Stay) returns (leaves: bool)
      requires Valid()
      modifies this`reservations, this`everBooked, this`activeVehicles, this`departureCount, slotStatuses
      ensures Valid()
      ensures leaves <==> old(CanLeave(Abs(), pv))
      ensures Abs() == if leaves then SendOut(old(Abs()), pv) else old(Abs())
      ensures departureCount == old(departureCount) + if leaves then 1 else 0
    {
      leaves := MayLeave(pv);
      if leaves {
        SendOutReady(Abs(), pv);
        Depart(pv);
      }
    }

    /** Whether the vehicle is due to leave and its exit route is clear of everybody else. */
    method MayLeave(pv: Stay) returns (leaves: bool)
      ensures leaves <==> CanLeave(Abs(), pv)
    {
      if currentTime < pv.departAt {
        return false;
      }
      var spans := BuildIntervals(ExitRoute(lot, pv.slot), currentTime);
      var conflict := CheckConflictExcluding(ExitRoute(lot, pv.slot), spans, {pv.id});
      leaves := !conflict;
    }

    /** Free the slot, drop the vehicle's reservations and send it out. */
    method Depart(pv: Stay)
      requires Valid()
      modifies this`reservations, this`everBooked, this`activeVehicles, this`departureCount, slotStatuses
      ensures Abs() == SendOut(old(Abs()), pv)
    {
      hide Register, RouteBookings, Without, Starting;
      SetStatus(pv.slot, false);
      RemoveReservationsForVehicle(pv.id);
      SameKeys(old(reservations), reservations);
      SpawnExitingVehicle(pv);
      departureCount := departureCount + 1;
      SendOutMatches(old(Abs()), Abs(), pv);
    }

    method SpawnExitingVehicle(pv: Stay)
      requires GoodLot(lot) && OverGraph(reservations)
      modifies this`reservations, this`everBooked, this`activeVehicles
      ensures var v := Starting(pv.id, pv.slot, ExitRoute(lot, pv.slot), currentTime, true);
        && activeVehicles == old(activeVehicles) + [v]
        && reservations == Register(old(reservations), v.route, v.spans, pv.id, Exiting)
        && everBooked == old(everBooked) + RouteBookings(v.route, v.spans, pv.id, Exiting)
    {
      hide Register, RouteBookings;
      var route := ExitRoute(lot, pv.slot);
      GraphRoutes(lot, pv.slot);
      hide GoodLot, OverGraph;
      var spans := BuildIntervals(route, currentTime);
      RegisterReservation(route, spans, pv.id, Exiting);
      var eta := spans[|spans| - 1].to - currentTime;
      var vehicle := Vehicle(pv.id, pv.slot, route, spans, 0, route[0], Next(route, 0), eta, true);
      activeVehicles := activeVehicles + [vehicle];
    }

    method EnsureFreeSlot()
      requires Valid()
      modifies this, slotStatuses
      ensures Valid() && slotStatuses == old(slotStatuses)
      ensures Abs() == ParkingSpec.EnsureFreeSlot(old(Abs()))
    {
      var full := AllSlotsTaken();
      if !full || parkedVehicles == [] {
        return;
      }
      var earliest, i := parkedVehicles[0].departAt, 1;
      while i < |parkedVehicles|
        invariant 1 <= i <= |parkedVehicles| && earliest == Earliest(parkedVehicles[..i])
      {
        assert parkedVehicles[..i + 1][..i] == parkedVehicles[..i];
        earliest := Min(earliest, parkedVehicles[i].departAt);
        i := i + 1;
      }
      assert parkedVehicles[..i] == parkedVehicles;
      AdvanceTime(Max(0.0, earliest - currentTime));
    }

    method AllSlotsTaken() returns (full: bool)
      requires Valid()
      ensures full <==> AllTaken(Abs())
    {
      for i := 0 to slotStatuses.Length
        invariant forall k :: 0 <= k < i ==> slotStatuses[k]
      {
        if !slotStatuses[i] {
          assert !Taken(Abs(), i);
          return false;
        }
      }
      return true;
    }

    method CheckDone() returns (over: bool)
      requires Valid()
      ensures over <==> EpisodeOver(Abs())
    {
      if stepCount >= MAX_STEPS {
        return true;
      }
      var full := AllSlotsTaken();
      return full && parkedVehicles == [];
    }

    // --- decisions ---

    /** `stay` and `gap` are the parking duration and the inter-arrival time drawn in this step. */
    method Step(action: int, stay: real, gap: real) returns (r: StepResult)
      requires Valid()
      requires PARK_MIN <= stay <= PARK_MAX && ARRIVAL_MIN <= gap <= ARRIVAL_MAX
      modifies this, slotStatuses
      ensures Valid() && slotStatuses == old(slotStatuses)
      ensures Abs() == StepEnv(old(Abs()), Configuration(), action, stay, gap)
      ensures r.EpisodeIsOver? <==> old(terminated)
      ensures r.ActionOutOfRange? <==> !old(terminated) && !(0 <= action <= WAIT_ACTION)
      ensures r.Stepped? ==>
        && r.terminated == terminated
        && (r.admitted <==> action != WAIT_ACTION && old(Shielded(Abs(), action)))
        && (r.conflict <==> action != WAIT_ACTION && !old(slotStatuses[action]) && !r.admitted)
    {
      if terminated {
        return EpisodeIsOver;
      }
      if !(0 <= action < NUM_SLOTS + 1) {
        return ActionOutOfRange;
      }
      if action == WAIT_ACTION {
        consecutiveWaits := consecutiveWaits + 1;
        CloseStep(waitTime);
        return Stepped(false, false, terminated);
      }
      consecutiveWaits := 0;
      var conflict, admitted := AssignSlot(action, stay);
      CloseStep(gap);
      return Stepped(conflict, admitted, terminated);
    }

    method CloseStep(dt: real)
      requires Valid()
      modifies this, slotStatuses
      ensures Valid() && slotStatuses == old(slotStatuses)
      ensures Abs() == ParkingSpec.CloseStep(old(Abs()), dt)
    {
      hide ParkingSpec.AdvanceTime, GoodLot, OverGraph, Drivable;
      stepCount := stepCount + 1;
      AdvanceTime(dt);
      terminated := CheckDone();
    }

    /** Assign the pending vehicle to slot s unless the slot is taken or the Safety Shield objects. */
    method AssignSlot(s: Slot, stay: real) returns (conflict: bool, admitted: bool)
      requires Valid()
      modifies this, slotStatuses
      ensures Valid() && slotStatuses == old(slotStatuses)
      ensures admitted <==> old(Shielded(Abs(), s))
      ensures conflict <==> !old(slotStatuses[s]) && !admitted
      ensures Abs() == if admitted then Admit(old(Abs()), s, stay) else old(Abs())
    {
      if slotStatuses[s] {
        return false, false;
      }
      var spans := BuildIntervals(EntryRoute(lot, s), currentTime);
      conflict := CheckConflict(EntryRoute(lot, s), spans);
      admitted := !conflict;
      if admitted {
        AdmitReady(Abs(), s, stay);
        AdmitVehicle(s, EntryRoute(lot, s), spans, stay);
      }
    }

    method AdmitVehicle(s: Slot, route: seq<Node>, spans: seq<Span>, stay: real)
      requires Valid() && route == EntryRoute(lot, s) && spans == Spans(|route|, currentTime)
      modifies this`vehicleIdCounter, this`reservations, this`everBooked, this`parkedVehicles, this`activeVehicles
      modifies slotStatuses
      ensures Abs() == Admit(old(Abs()), s, stay)
    {
      hide Register, RouteBookings, GoodLot, OverGraph, Drivable;
      ghost var e := Abs();
      ghost var v := Enterer(e, s);
      BookEntry(s, route, spans);
      var parkingComplete := spans[|spans| - 1].to;
      assert parkingComplete == End(v);
      ScheduleDeparture(s, parkingComplete, parkingComplete + stay);
      SpawnVehicle(s, route, spans);
      AdmitMatches(e, Abs(), s, stay);
    }

    method BookEntry(s: Slot, route: seq<Node>, spans: seq<Span>)
      requires Valid() && route == EntryRoute(lot, s) && |spans| == |route|
      modifies this`vehicleIdCounter, this`reservations, this`everBooked, slotStatuses
      ensures |spans| > 0 && OverGraph(reservations)
      ensures vehicleIdCounter == old(vehicleIdCounter) + 1
      ensures reservations == Register(old(reservations), route, spans, vehicleIdCounter, Entering)
      ensures everBooked == old(everBooked) + RouteBookings(route, spans, vehicleIdCounter, Entering)
      ensures slotStatuses[..] == SetSlot(old(slotStatuses[..]), s, true)
    {
      GraphRoutes(lot, s);
      vehicleIdCounter := vehicleIdCounter + 1;
      RegisterReservation(route, spans, vehicleIdCounter, Entering);
      SetStatus(s, true);
    }

    method ScheduleDeparture(s: Slot, parkingComplete: real, departAt: real)
      requires OverGraph(reservations)
      modifies this`reservations, this`everBooked, this`parkedVehicles
      ensures var r := Res(vehicleIdCounter, Parked, parkingComplete, departAt);
        && reservations == Append(old(reservations), SlotFront(s), r)
        && everBooked == old(everBooked) + {Booking(SlotFront(s), r)}
        && parkedVehicles == old(parkedVehicles) + [Stay(vehicleIdCounter, s, departAt)]
    {
      var r := Res(vehicleIdCounter, Parked, parkingComplete, departAt);
      reservations := reservations[SlotFront(s) := reservations[SlotFront(s)] + [r]];
      everBooked := everBooked + {Booking(SlotFront(s), r)};
      parkedVehicles := parkedVehicles + [Stay(vehicleIdCounter, s, departAt)];
    }

    method SpawnVehicle(s: Slot, route: seq<Node>, spans: seq<Span>)
      requires GoodLot(lot) && route == EntryRoute(lot, s) && spans == Spans(|route|, currentTime)
      modifies this`activeVehicles
      ensures activeVehicles == old(activeVehicles) + [Starting(vehicleIdCounter, s, EntryRoute(lot, s), currentTime, false)]
    {
      var eta := spans[|spans| - 1].to - currentTime;
      var vehicle := Vehicle(vehicleIdCounter, s, route, spans, 0, route[0], Next(route, 0), eta, false);
      activeVehicles := activeVehicles + [vehicle];
    }

    // --- action masks ---

    method SlotMasks() returns (masks: seq<bool>)
      requires Valid()
      ensures |masks| == NUM_SLOTS && forall s: Slot :: masks[s] <==> Shielded(Abs(), s)
    {
      masks := [];
      for i := 0 to NUM_SLOTS
        invariant |masks| == i && forall s: Slot :: s < i ==> (masks[s] <==> Shielded(Abs(), s))
      {
        var conflict := QuickConflictCheck(i);
        masks := masks + [!slotStatuses[i] && !conflict];
      }
    }

    /** The free slot nearest to the junction, the first of equals; -1 if every slot is taken. */
    method NearestFreeSlot() returns (best: int)
      requires Valid()
      ensures best == -1 ==> AllTaken(Abs())
      ensures best != -1 ==> 0 <= best < NUM_SLOTS && !Taken(Abs(), best)
      ensures best != -1 ==> forall s: Slot :: !Taken(Abs(), s) ==> NoFarther(best, s)
    {
      best := -1;
      for i := 0 to NUM_SLOTS
        invariant best == -1 ==> forall s: Slot :: s < i ==> Taken(Abs(), s)
        invariant best != -1 ==> 0 <= best < i && !Taken(Abs(), best)
        invariant best != -1 ==> forall s: Slot :: s < i && !Taken(Abs(), s) ==> NoFarther(best, s)
      {
        assert Taken(Abs(), i) <==> slotStatuses[i];
        if !slotStatuses[i] && (best == -1 || JunctionDistance(i) < JunctionDistance(best)) {
          best := i;
        }
      }
    }

    /**
     Which actions the policy may pick: exactly the slots the next step would admit to. Only if there are none,
     even after fast-forwarding, and no waiting is left, the nearest free slot is offered, if any.
     */
    method ActionMasks() returns (masks: seq<bool>, fallback: bool)
      requires Valid()
      modifies this, slotStatuses
      ensures Valid() && slotStatuses == old(slotStatuses)
      ensures Abs() == MaskEnv(old(Abs()), Configuration())
      ensures |masks| == NUM_SLOTS + 1
      ensures masks[WAIT_ACTION] <==> !old(terminated) && old(consecutiveWaits) < maxConsecutiveWaits
      ensures fallback <==>
        !old(terminated) && old(NothingSelectable(Abs(), Configuration())) && forall s: Slot :: !Shielded(Abs(), s)
      ensures if fallback then Fallback(Abs(), masks) else Offers(Abs(), masks)
    {
      var slots := SlotMasks();
      fallback := false;
      var wait := !terminated && consecutiveWaits < maxConsecutiveWaits;
      if (forall s: Slot :: !slots[s]) && !wait && !terminated {
        assert NothingSelectable(Abs(), Configuration());
        EnsureFreeSlot();
        slots := SlotMasks();
        fallback := forall s: Slot :: !slots[s];
        if fallback {
          slots := ForceFallback(slots);
        }
      }
      masks := slots + [wait];
    }

    method ForceFallback(slots: seq<bool>) returns (forced: seq<bool>)
      requires Valid() && |slots| == NUM_SLOTS && (forall s: Slot :: !slots[s]) && Offers(Abs(), slots)
      ensures |forced| == NUM_SLOTS && Fallback(Abs(), forced)
    {
      forced := slots;
      var best := NearestFreeSlot();
      if best != -1 {
        forced := forced[best := true];
      }
    }
  }

  /** Slot s is not nearer to the junction than `best`, and of equally near slots `best` comes first. */
  predicate NoFarther(best: Slot, s: Slot) {
    JunctionDistance(best) < JunctionDistance(s) || (JunctionDistance(best) == JunctionDistance(s) && best <= s)
  }

  /** Exactly the slots the Safety Shield lets through are offered. */
  ghost predicate Offers(e: Env, masks: seq<bool>)
    requires |masks| >= NUM_SLOTS
  {
    forall s: Slot :: masks[s] <==> Shielded(e, s)
  }

  /** Nothing passes the Safety Shield, and the nearest free slot alone is offered. */
  ghost predicate Fallback(e: Env, masks: seq<bool>)
    requires |masks| >= NUM_SLOTS
  {
    && (forall s: Slot :: !Shielded(e, s))
    && (forall s: Slot :: masks[s] <==> !Taken(e, s) && forall t: Slot :: !Taken(e, t) ==> NoFarther(s, t))
  }
}
