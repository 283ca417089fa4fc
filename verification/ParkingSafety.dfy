/**
 What every run of the parking simulator keeps: bookings of different vehicles stay apart,
 slots mirror the parked vehicles, and no two vehicles are ever on the same node.
 */
module ParkingSafety {
  import opened ParkingLayout
  import opened ParkingSpec
  import opened ParkingTables
  import opened Reals

  // --- the invariant, part by part ---

  ghost predicate Form(e: Env) {
    && GoodLot(e.lot)
    && |e.taken| == NUM_SLOTS
    && (forall n :: n in e.table <==> OnGraph(n))
  }

  /** The safety margin between two vehicles' bookings of one node, moving or parked. */
  ghost predicate Apart(a: Res, b: Res) {
    a.end + SAFETY_MARGIN <= b.start || b.end + SAFETY_MARGIN <= a.start
  }

  ghost predicate Separated(ever: set<Booking>) {
    forall a, b :: a in ever && b in ever && a.node == b.node && a.res.vehicle != b.res.vehicle ==>
      Apart(a.res, b.res)
  }

  /** Far enough in the past that no later booking can come near it. */
  ghost predicate Expired(b: Booking, now: real) {
    && b.res.end <= now
    && (b.res.kind != Parked && b.node != ExitGate ==> b.res.end <= now - 1.0)
  }

  /** A booking once made is still in the table, or expired. */
  ghost predicate Sound(e: Env, b: Booking) {
    && OnGraph(b.node)
    && (b.res.kind == Parked ==> b.node.SlotFront?)
    && b.res.start < b.res.end
    && 1 <= b.res.vehicle <= e.lastId
    && (b.res in At(e.table, b.node) || Expired(b, e.now))
  }

  ghost predicate Ledger(e: Env) {
    && (forall n, r :: r in At(e.table, n) ==> Booking(n, r) in e.ever)
    && (forall b :: b in e.ever ==> Sound(e, b))
  }

  ghost predicate DistinctStays(ps: seq<Stay>) {
    forall i, j :: 0 <= i < j < |ps| ==> ps[i].id != ps[j].id && ps[i].slot != ps[j].slot
  }

  ghost predicate Occupied(ps: seq<Stay>, s: Slot) {
    exists p :: p in ps && p.slot == s
  }

  /** Slots, parked records and the two counters agree. */
  ghost predicate Roll(e: Env) {
    && DistinctStays(e.parked)
    && (forall p :: p in e.parked ==> 1 <= p.id <= e.lastId)
    && (forall s: Slot :: Taken(e, s) <==> Occupied(e.parked, s))
    && |e.parked| + e.departures == e.lastId
  }

  /**
   How long a slot front can still be booked: one second ahead while free, and otherwise until the departure is due,
   by other vehicles a safety margin less.
   */
  ghost predicate Fronts(e: Env) {
    forall b, s: Slot :: b in e.ever && b.node == SlotFront(s) ==> FrontBound(e, s, b.res)
  }

  ghost predicate EndsWith(p: Stay, r: Res) {
    r.end <= p.departAt && (r.vehicle != p.id ==> r.end + SAFETY_MARGIN <= p.departAt)
  }

  ghost predicate FrontBound(e: Env, s: Slot, r: Res) {
    && (!Taken(e, s) ==> r.end <= e.now + 1.0)
    && (forall p :: p in e.parked && p.slot == s ==> EndsWith(p, r))
  }

  ghost predicate UnderWay(v: Vehicle, now: real) {
    && |v.route| > 0
    && |v.spans| == |v.route|
    && v.spans == Spans(|v.route|, v.spans[0].from)
    && v.index < |v.spans|
    && v.spans[v.index].from <= now < v.spans[v.index].to
    && v.current == v.route[v.index]
    && v.next == Next(v.route, v.index)
    && v.eta == End(v) - now
  }

  ghost predicate Booked(v: Vehicle, ever: set<Booking>) {
    RouteBookings(v.route, v.spans, v.id, if v.exiting then Exiting else Entering) <= ever
  }

  ghost predicate Arriving(v: Vehicle, ps: seq<Stay>) {
    exists p :: p in ps && p.id == v.id && p.departAt >= End(v) + PARK_MIN
  }

  ghost predicate NotParked(id: nat, ps: seq<Stay>) {
    forall p :: p in ps ==> p.id != id
  }

  ghost predicate OnItsWay(e: Env, v: Vehicle) {
    && UnderWay(v, e.now)
    && Booked(v, e.ever)
    && 1 <= v.id <= e.lastId
    && (if v.exiting then NotParked(v.id, e.parked) else Arriving(v, e.parked))
  }

  ghost predicate Traffic(e: Env) {
    DistinctVehicles(e.active) && forall v :: v in e.active ==> OnItsWay(e, v)
  }

  /** A table entry of a parked vehicle is over once that vehicle is due to leave. */
  ghost predicate HeldByParked(ps: seq<Stay>, r: Res) {
    exists p :: p in ps && p.id == r.vehicle
             && r.end <= p.departAt && (r.kind != Parked ==> r.end <= p.departAt - 1.0)
  }

  /** A table entry of an exiting vehicle is over once that vehicle has left. */
  ghost predicate HeldByExiting(vs: seq<Vehicle>, n: Node, r: Res) {
    exists v :: v in vs && v.id == r.vehicle && v.exiting && r.kind == Exiting
             && r.end <= End(v) && (n != ExitGate ==> r.end <= End(v) - 1.0)
  }

  ghost predicate Holders(e: Env) {
    forall n, r :: r in At(e.table, n) ==> HeldByParked(e.parked, r) || HeldByExiting(e.active, n, r)
  }

  /** A parked record holds its slot front until its departure; before it gets there it is still driving in. */
  ghost predicate Settled(e: Env, p: Stay) {
    exists arrival ::
      && Booking(SlotFront(p.slot), Res(p.id, Parked, arrival, p.departAt)) in e.ever
      && (arrival <= e.now || DrivingIn(e.active, p.id, arrival))
  }

  ghost predicate DrivingIn(vs: seq<Vehicle>, id: nat, arrival: real) {
    exists v :: v in vs && v.id == id && End(v) == arrival
  }

  ghost predicate Standing(e: Env) {
    forall p :: p in e.parked ==> Settled(e, p)
  }

  datatype Part = FormPart | SeparationPart | LedgerPart | RollPart | FrontsPart | TrafficPart | HoldersPart | StandingPart

  ghost predicate Holds(part: Part, e: Env) {
    match part
    case FormPart => Form(e)
    case SeparationPart => Separated(e.ever)
    case LedgerPart => Ledger(e)
    case RollPart => Roll(e)
    case FrontsPart => Fronts(e)
    case TrafficPart => Traffic(e)
    case HoldersPart => Holders(e)
    case StandingPart => Standing(e)
  }

  /** Each lemma below recalls only the parts it needs. */
  ghost predicate Inv(e: Env) {
    forall part :: Holds(part, e)
  }

  ghost predicate Clock(e: Env) {
    e.steps <= MAX_STEPS && (e.done <==> e.steps == MAX_STEPS)
  }

  // --- small facts ---

  /** Keeping the margin is what the conflict check tests. */
  lemma NoOverlapApart(s: Span, r: Res)
    requires s.from < s.to && r.start < r.end && !Overlaps(s, r)
    ensures r.end + SAFETY_MARGIN <= s.from || s.to + SAFETY_MARGIN <= r.start
  {
  }

  /** The conflict check fires exactly when the margin is not kept. */
  lemma OverlapsExactly(s: Span, r: Res)
    requires s.from < s.to && r.start < r.end
    ensures Overlaps(s, r) <==> !(r.end + SAFETY_MARGIN <= s.from || s.to + SAFETY_MARGIN <= r.start)
  {
  }

  lemma OneStayPerId(ps: seq<Stay>, p: Stay, q: Stay)
    requires DistinctStays(ps) && p in ps && q in ps && (p.id == q.id || p.slot == q.slot)
    ensures p == q
  {
  }

  lemma DifferentStays(ps: seq<Stay>, p: Stay, q: Stay)
    requires DistinctStays(ps) && p in ps && q in ps && p != q
    ensures p.id != q.id && p.slot != q.slot
  {
  }

  lemma StartsUnderWay(id: nat, s: Slot, route: seq<Node>, now: real, exiting: bool)
    requires |route| > 0
    ensures var v := Starting(id, s, route, now, exiting); UnderWay(v, now) && End(v) == now + |route| as real
  {
  }

  // --- the clock tick ---

  lemma TickTable(e: Env, dt: real, n: Node, r: Res)
    ensures r in At(Tick(e, dt).table, n) <==> r in At(e.table, n) && NoneFinished(e.active, r.vehicle, e.now + dt)
    ensures Tick(e, dt).table.Keys == e.table.Keys
  {
    PurgeExitedMember(e.table, e.active, e.now + dt, n, r);
  }

  /** What the purge of a finished exit drops is expired. */
  lemma FinishedExpires(e: Env, t: real, b: Booking)
    requires Traffic(e) && Holders(e) && b.res in At(e.table, b.node)
    requires !NoneFinished(e.active, b.res.vehicle, t)
    ensures Expired(b, t)
  {
    var v :| v in e.active && v.id == b.res.vehicle && Finished(v, t);
    assert OnItsWay(e, v);
    assert HeldByExiting(e.active, b.node, b.res);
    var w :| w in e.active && w.id == b.res.vehicle && w.exiting
      && b.res.end <= End(w) && (b.node != ExitGate ==> b.res.end <= End(w) - 1.0);
    OneVehiclePerId(e.active, v, w);
  }

  lemma TickSound(e: Env, dt: real, b: Booking)
    requires Traffic(e) && Holders(e) && Sound(e, b) && dt >= 0.0
    ensures Sound(Tick(e, dt), b)
  {
    TickTable(e, dt, b.node, b.res);
    if b.res in At(e.table, b.node) && !NoneFinished(e.active, b.res.vehicle, e.now + dt) {
      FinishedExpires(e, e.now + dt, b);
    }
  }

  lemma TickLedger(e: Env, dt: real)
    requires Inv(e) && dt >= 0.0
    ensures Ledger(Tick(e, dt))
  {
    assert Holds(LedgerPart, e) && Holds(TrafficPart, e) && Holds(HoldersPart, e);
    forall n, r | r in At(Tick(e, dt).table, n)
      ensures Booking(n, r) in e.ever
    {
      TickTable(e, dt, n, r);
    }
    forall b | b in e.ever
      ensures Sound(Tick(e, dt), b)
    {
      TickSound(e, dt, b);
    }
  }

  lemma TickVehicle(e: Env, dt: real, v: Vehicle)
    requires OnItsWay(e, v) && dt >= 0.0 && e.now + dt < End(v)
    ensures OnItsWay(Tick(e, dt), Moved(v, e.now + dt))
  {
    SeekFinds(|v.route|, v.spans[0].from, v.index, e.now + dt);
  }

  lemma TickMover(e: Env, dt: real, w: Vehicle)
    requires Traffic(e) && dt >= 0.0 && w in StillMoving(e.active, e.now + dt)
    ensures OnItsWay(Tick(e, dt), w)
  {
    hide OnItsWay, Moved, Tick;
    var v := StillMovingFrom(e.active, e.now + dt, w);
    assert OnItsWay(e, v);
    TickVehicle(e, dt, v);
  }

  lemma TickTraffic(e: Env, dt: real)
    requires Inv(e) && dt >= 0.0
    ensures Traffic(Tick(e, dt))
  {
    assert Holds(TrafficPart, e);
    StillMovingDistinct(e.active, e.now + dt);
    forall w | w in Tick(e, dt).active
      ensures OnItsWay(Tick(e, dt), w)
    {
      TickMover(e, dt, w);
    }
  }

  lemma TickHeldByExiting(vs: seq<Vehicle>, t: real, n: Node, r: Res)
    requires HeldByExiting(vs, n, r) && NoneFinished(vs, r.vehicle, t)
    ensures HeldByExiting(StillMoving(vs, t), n, r)
  {
    var v :| v in vs && v.id == r.vehicle && v.exiting && r.kind == Exiting
      && r.end <= End(v) && (n != ExitGate ==> r.end <= End(v) - 1.0);
    StillMovingHas(vs, t, v);
    assert End(Moved(v, t)) == End(v);
  }

  lemma TickHolder(e: Env, dt: real, n: Node, r: Res)
    requires Holders(e) && r in At(Tick(e, dt).table, n)
    ensures HeldByParked(e.parked, r) || HeldByExiting(StillMoving(e.active, e.now + dt), n, r)
  {
    TickTable(e, dt, n, r);
    if !HeldByParked(e.parked, r) {
      TickHeldByExiting(e.active, e.now + dt, n, r);
    }
  }

  lemma TickHolders(e: Env, dt: real)
    requires Inv(e)
    ensures Holders(Tick(e, dt))
  {
    assert Holds(HoldersPart, e);
    forall n, r | r in At(Tick(e, dt).table, n)
      ensures HeldByParked(e.parked, r) || HeldByExiting(Tick(e, dt).active, n, r)
    {
      TickHolder(e, dt, n, r);
    }
  }

  /** A vehicle driving in keeps its arrival time until it has arrived. */
  lemma TickDrivingIn(vs: seq<Vehicle>, t: real, id: nat, arrival: real)
    requires DrivingIn(vs, id, arrival) && t < arrival
    ensures DrivingIn(StillMoving(vs, t), id, arrival)
  {
    var v :| v in vs && v.id == id && End(v) == arrival;
    StillMovingHas(vs, t, v);
    assert End(Moved(v, t)) == arrival;
  }

  lemma TickSettled(e: Env, dt: real, p: Stay)
    requires dt >= 0.0 && Settled(e, p)
    ensures Settled(Tick(e, dt), p)
  {
    var arrival :| Booking(SlotFront(p.slot), Res(p.id, Parked, arrival, p.departAt)) in e.ever
      && (arrival <= e.now || DrivingIn(e.active, p.id, arrival));
    if e.now + dt < arrival {
      TickDrivingIn(e.active, e.now + dt, p.id, arrival);
    }
  }

  lemma TickRest(e: Env, dt: real)
    requires Inv(e) && dt >= 0.0
    ensures Form(Tick(e, dt)) && Roll(Tick(e, dt)) && Fronts(Tick(e, dt)) && Standing(Tick(e, dt))
  {
    assert Holds(FormPart, e) && Holds(RollPart, e) && Holds(FrontsPart, e) && Holds(StandingPart, e);
    TickTable(e, dt, Entrance, Res(0, Parked, 0.0, 0.0));
    forall s: Slot
      ensures Taken(Tick(e, dt), s) <==> Taken(e, s)
    {
    }
    forall b, s: Slot | b in e.ever && b.node == SlotFront(s)
      ensures FrontBound(Tick(e, dt), s, b.res)
    {
      assert FrontBound(e, s, b.res);
    }
    forall p | p in e.parked
      ensures Settled(Tick(e, dt), p)
    {
      TickSettled(e, dt, p);
    }
  }

  lemma TickKeeps(e: Env, dt: real)
    requires Inv(e) && dt >= 0.0
    ensures Inv(Tick(e, dt))
  {
    forall part
      ensures Holds(part, Tick(e, dt))
    {
      match part
      case FormPart => TickRest(e, dt);
      case SeparationPart => assert Holds(SeparationPart, e);
      case LedgerPart => TickLedger(e, dt);
      case RollPart => TickRest(e, dt);
      case FrontsPart => TickRest(e, dt);
      case TrafficPart => TickTraffic(e, dt);
      case HoldersPart => TickHolders(e, dt);
      case StandingPart => TickRest(e, dt);
    }
  }

  // --- booking a route ---

  /** A route the conflict check lets through keeps the margin to every other vehicle's booking, purged ones included. */
  lemma RouteApart(e: Env, route: seq<Node>, ignored: set<nat>, a: Booking, b: Booking, id: nat, kind: Kind)
    requires Form(e) && Sound(e, a) && a.res.vehicle !in ignored
    requires !Conflict(e.table, route, Spans(|route|, e.now), ignored)
    requires kind != Parked && b in RouteBookings(route, Spans(|route|, e.now), id, kind) && a.node == b.node
    requires |route| > 0 && route[0] != ExitGate
    requires a.res.kind == Parked && a.node == route[0] ==> a.res.end + SAFETY_MARGIN <= e.now
    ensures Apart(a.res, b.res)
  {
    var spans := Spans(|route|, e.now);
    var i :| 0 <= i < |route| && b == Booking(route[i], Res(id, kind, spans[i].from, spans[i].to));
    if a.res in At(e.table, a.node) {
      assert !Overlaps(spans[i], a.res);
      NoOverlapApart(spans[i], a.res);
    }
  }

  lemma ExtendSeparated(ever: set<Booking>, more: set<Booking>, id: nat)
    requires Separated(ever)
    requires forall b :: b in more ==> b.res.vehicle == id
    requires forall a, b :: a in ever && b in more && a.node == b.node && a.res.vehicle != id ==> Apart(a.res, b.res)
    ensures Separated(ever + more)
  {
  }

  // --- a departure ---

  ghost predicate Leaving(e: Env, k: nat) {
    Inv(e) && k < |e.parked| && CanLeave(e, e.parked[k])
  }

  function ExitBookings(e: Env, s: Stay): set<Booking> {
    RouteBookings(ExitRoute(e.lot, s.slot), Spans(|ExitRoute(e.lot, s.slot)|, e.now), s.id, Exiting)
  }

  /** What an exit books: one second per node from now on, its own slot front first, the exit gate last. */
  lemma ExitBookingFacts(e: Env, s: Stay, b: Booking)
    requires Form(e) && b in ExitBookings(e, s)
    ensures b.res.vehicle == s.id && b.res.kind == Exiting && OnGraph(b.node)
    ensures e.now <= b.res.start < b.res.end
    ensures b.node.SlotFront? ==> b.node == SlotFront(s.slot) && b.res.end == e.now + 1.0
    ensures b.res.end <= End(Exiter(e, s)) && (b.node != ExitGate ==> b.res.end <= End(Exiter(e, s)) - 1.0)
  {
    var route := ExitRoute(e.lot, s.slot);
    assert GoodExit(route, s.slot);
    var spans := Spans(|route|, e.now);
    var i :| 0 <= i < |route| && b == Booking(route[i], Res(s.id, Exiting, spans[i].from, spans[i].to));
    StartsUnderWay(s.id, s.slot, route, e.now, true);
    assert i < |route| - 1 || b.node == ExitGate;
  }

  lemma LeaveTable(e: Env, k: nat, n: Node, r: Res)
    requires Form(e) && k < |e.parked|
    ensures var s := e.parked[k];
      r in At(Leave(e, k).table, n) <==> (r in At(e.table, n) && r.vehicle != s.id) || Booking(n, r) in ExitBookings(e, s)
    ensures Leave(e, k).table.Keys == e.table.Keys
  {
    var s := e.parked[k];
    var route := ExitRoute(e.lot, s.slot);
    assert GoodExit(route, s.slot);
    RemoveVehicleMember(e.table, s.id, n, r);
    RegisterMember(RemoveVehicle(e.table, s.id), route, Spans(|route|, e.now), s.id, Exiting, n, r);
  }

  lemma LeaveSeparated(e: Env, k: nat)
    requires Leaving(e, k)
    ensures Separated(Leave(e, k).ever)
  {
    assert Holds(FormPart, e) && Holds(SeparationPart, e) && Holds(LedgerPart, e) && Holds(FrontsPart, e);
    var s := e.parked[k];
    var route := ExitRoute(e.lot, s.slot);
    assert GoodExit(route, s.slot);
    forall b | b in ExitBookings(e, s)
      ensures b.res.vehicle == s.id
    {
      ExitBookingFacts(e, s, b);
    }
    forall a, b | a in e.ever && b in ExitBookings(e, s) && a.node == b.node && a.res.vehicle != s.id
      ensures Apart(a.res, b.res)
    {
      if a.node == SlotFront(s.slot) {
        assert FrontBound(e, s.slot, a.res) && EndsWith(s, a.res);
      }
      RouteApart(e, route, {s.id}, a, b, s.id, Exiting);
    }
    ExtendSeparated(e.ever, ExitBookings(e, s), s.id);
  }

  /** A vehicle still driving in is not due to leave. */
  lemma ArrivalPrecedesDeparture(v: Vehicle, ps: seq<Stay>, now: real) returns (p: Stay)
    requires UnderWay(v, now) && Arriving(v, ps)
    ensures p in ps && p.id == v.id && now < p.departAt
  {
    p :| p in ps && p.id == v.id && p.departAt >= End(v) + PARK_MIN;
    assert v.spans[v.index].to <= End(v);
  }

  /** A departing vehicle is not still on its way in, nor already on its way out. */
  lemma LeaverNotActive(e: Env, k: nat, v: Vehicle)
    requires Leaving(e, k) && v in e.active
    ensures v.id != e.parked[k].id
  {
    assert Holds(RollPart, e) && Holds(TrafficPart, e);
    assert OnItsWay(e, v);
    if !v.exiting {
      var p := ArrivalPrecedesDeparture(v, e.parked, e.now);
      DifferentStays(e.parked, p, e.parked[k]);
    }
  }

  /** Everything a departing vehicle had booked before is expired. */
  lemma LeaverExpires(e: Env, k: nat, b: Booking)
    requires Leaving(e, k) && b.res in At(e.table, b.node) && b.res.vehicle == e.parked[k].id
    ensures Expired(b, e.now)
  {
    assert Holds(RollPart, e) && Holds(HoldersPart, e);
    forall v | v in e.active
      ensures v.id != b.res.vehicle
    {
      LeaverNotActive(e, k, v);
    }
    assert HeldByParked(e.parked, b.res);
    var p :| p in e.parked && p.id == b.res.vehicle
      && b.res.end <= p.departAt && (b.res.kind != Parked ==> b.res.end <= p.departAt - 1.0);
    OneStayPerId(e.parked, p, e.parked[k]);
  }

  lemma LeaveSound(e: Env, k: nat, b: Booking)
    requires Leaving(e, k) && b in Leave(e, k).ever
    ensures Sound(Leave(e, k), b)
  {
    assert Holds(FormPart, e) && Holds(LedgerPart, e) && Holds(RollPart, e);
    var s := e.parked[k];
    LeaveTable(e, k, b.node, b.res);
    if b in ExitBookings(e, s) {
      ExitBookingFacts(e, s, b);
    } else {
      assert Sound(e, b);
      if b.res in At(e.table, b.node) && b.res.vehicle == s.id {
        LeaverExpires(e, k, b);
      }
    }
  }

  lemma LeaveLedger(e: Env, k: nat)
    requires Leaving(e, k)
    ensures Ledger(Leave(e, k))
  {
    assert Holds(FormPart, e) && Holds(LedgerPart, e);
    forall n, r | r in At(Leave(e, k).table, n)
      ensures Booking(n, r) in Leave(e, k).ever
    {
      LeaveTable(e, k, n, r);
    }
    forall b | b in Leave(e, k).ever
      ensures Sound(Leave(e, k), b)
    {
      LeaveSound(e, k, b);
    }
  }

  lemma DropStay(ps: seq<Stay>, k: nat)
    requires k < |ps| && DistinctStays(ps)
    ensures DistinctStays(ps[..k] + ps[k + 1..])
    ensures forall p :: p in ps[..k] + ps[k + 1..] <==> p in ps && p != ps[k]
  {
    var front, back := ps[..k], ps[k + 1..];
    assert ps == front + [ps[k]] + back;
    forall p: Stay | p in front + back
      ensures p.id != ps[k].id
    {
      if p in front {
        var i :| 0 <= i < k && ps[i] == p;
      } else {
        var i :| 0 <= i < |back| && back[i] == p;
        assert ps[k + 1 + i] == p;
      }
    }
    forall i, j | 0 <= i < j < |front + back|
      ensures (front + back)[i].id != (front + back)[j].id && (front + back)[i].slot != (front + back)[j].slot
    {
      assert (front + back)[i] == ps[if i < k then i else i + 1];
      assert (front + back)[j] == ps[if j < k then j else j + 1];
    }
  }

  lemma LeaveRoll(e: Env, k: nat)
    requires Leaving(e, k)
    ensures Roll(Leave(e, k))
    ensures forall p :: p in Leave(e, k).parked <==> p in e.parked && p != e.parked[k]
  {
    assert Holds(FormPart, e) && Holds(RollPart, e);
    DropStay(e.parked, k);
    forall t: Slot
      ensures Taken(Leave(e, k), t) <==> Occupied(Leave(e, k).parked, t)
    {
      if t == e.parked[k].slot {
        assert forall p :: p in e.parked && p.slot == t ==> p == e.parked[k];
      } else if Occupied(e.parked, t) {
        var p :| p in e.parked && p.slot == t;
        assert p in Leave(e, k).parked;
      }
    }
  }

  lemma LeaveFronts(e: Env, k: nat)
    requires Leaving(e, k)
    ensures Fronts(Leave(e, k))
  {
    hide FrontBound, Leave;
    assert Holds(FrontsPart, e);
    forall b, t: Slot | b in Leave(e, k).ever && b.node == SlotFront(t)
      ensures FrontBound(Leave(e, k), t, b.res)
    {
      LeaveFront(e, k, b, t);
    }
  }

  lemma LeaveBookings(e: Env, k: nat, b: Booking)
    requires k < |e.parked| && b in Leave(e, k).ever
    ensures b in e.ever || b in ExitBookings(e, e.parked[k])
  {
  }

  lemma LeaveFront(e: Env, k: nat, b: Booking, t: Slot)
    requires Leaving(e, k) && b in Leave(e, k).ever && b.node == SlotFront(t)
    ensures FrontBound(Leave(e, k), t, b.res)
  {
    hide RouteBookings, Register, RemoveVehicle, Spans, ExitRoute;
    assert Holds(FormPart, e) && Holds(RollPart, e) && Holds(FrontsPart, e);
    LeaveRoll(e, k);
    LeaveBookings(e, k, b);
    if b in e.ever {
      assert FrontBound(e, t, b.res);
    } else {
      ExitBookingFacts(e, e.parked[k], b);
    }
    if t == e.parked[k].slot {
      LeaverStoodAlone(e, k);
    }
  }

  lemma LeaverStoodAlone(e: Env, k: nat)
    requires Leaving(e, k)
    ensures forall p :: p in Leave(e, k).parked ==> p.slot != e.parked[k].slot
  {
    hide Leave;
    assert Holds(RollPart, e);
    LeaveRoll(e, k);
    forall p | p in Leave(e, k).parked
      ensures p.slot != e.parked[k].slot
    {
      DifferentStays(e.parked, p, e.parked[k]);
    }
  }

  lemma LeaveVehicle(e: Env, k: nat, v: Vehicle)
    requires Leaving(e, k) && v in e.active
    ensures OnItsWay(Leave(e, k), v)
  {
    assert Holds(TrafficPart, e);
    assert OnItsWay(e, v);
    LeaveRoll(e, k);
    LeaverNotActive(e, k, v);
    if !v.exiting {
      var p :| p in e.parked && p.id == v.id && p.departAt >= End(v) + PARK_MIN;
      assert p in Leave(e, k).parked;
    }
  }

  lemma LeaveExiter(e: Env, k: nat)
    requires Leaving(e, k)
    ensures OnItsWay(Leave(e, k), Exiter(e, e.parked[k]))
  {
    assert Holds(FormPart, e) && Holds(RollPart, e);
    var s := e.parked[k];
    assert GoodExit(ExitRoute(e.lot, s.slot), s.slot);
    StartsUnderWay(s.id, s.slot, ExitRoute(e.lot, s.slot), e.now, true);
    LeaveRoll(e, k);
    assert s in e.parked;
    forall p | p in Leave(e, k).parked
      ensures p.id != s.id
    {
      if p.id == s.id {
        OneStayPerId(e.parked, p, s);
      }
    }
  }

  lemma LeaveTraffic(e: Env, k: nat)
    requires Leaving(e, k)
    ensures Traffic(Leave(e, k))
  {
    assert Holds(TrafficPart, e);
    LeaveExiter(e, k);
    forall v | v in e.active
      ensures v.id != e.parked[k].id && OnItsWay(Leave(e, k), v)
    {
      LeaverNotActive(e, k, v);
      LeaveVehicle(e, k, v);
    }
  }

  lemma MoreVehicles(vs: seq<Vehicle>, v: Vehicle, n: Node, r: Res)
    requires HeldByExiting(vs, n, r)
    ensures HeldByExiting(vs + [v], n, r)
  {
    var w :| w in vs && w.id == r.vehicle && w.exiting && r.kind == Exiting
      && r.end <= End(w) && (n != ExitGate ==> r.end <= End(w) - 1.0);
    assert w in vs + [v];
  }

  lemma LeaveHolder(e: Env, k: nat, n: Node, r: Res)
    requires Leaving(e, k) && r in At(Leave(e, k).table, n)
    ensures HeldByParked(Leave(e, k).parked, r) || HeldByExiting(Leave(e, k).active, n, r)
  {
    assert Holds(FormPart, e) && Holds(HoldersPart, e);
    var s := e.parked[k];
    LeaveTable(e, k, n, r);
    if Booking(n, r) in ExitBookings(e, s) {
      ExitBookingFacts(e, s, Booking(n, r));
      assert Exiter(e, s) in Leave(e, k).active;
    } else if HeldByParked(e.parked, r) {
      LeaveRoll(e, k);
      var p :| p in e.parked && p.id == r.vehicle
        && r.end <= p.departAt && (r.kind != Parked ==> r.end <= p.departAt - 1.0);
      assert p in Leave(e, k).parked;
    } else {
      MoreVehicles(e.active, Exiter(e, s), n, r);
    }
  }

  /** Adding bookings and vehicles disturbs no parked vehicle. */
  lemma StaysSettled(e: Env, f: Env, p: Stay)
    requires Settled(e, p) && e.ever <= f.ever && f.now == e.now
    requires e.active <= f.active
    ensures Settled(f, p)
  {
    var arrival :| Booking(SlotFront(p.slot), Res(p.id, Parked, arrival, p.departAt)) in e.ever
      && (arrival <= e.now || DrivingIn(e.active, p.id, arrival));
    if arrival > e.now {
      var v :| v in e.active && v.id == p.id && End(v) == arrival;
      assert v in f.active;
    }
  }

  lemma LeaveStanding(e: Env, k: nat)
    requires Leaving(e, k)
    ensures Standing(Leave(e, k))
  {
    assert Holds(StandingPart, e);
    LeaveRoll(e, k);
    forall p | p in Leave(e, k).parked
      ensures Settled(Leave(e, k), p)
    {
      StaysSettled(e, Leave(e, k), p);
    }
  }

  lemma LeaveForm(e: Env, k: nat)
    requires Leaving(e, k)
    ensures Form(Leave(e, k))
  {
    assert Holds(FormPart, e);
    LeaveTable(e, k, Entrance, Res(0, Parked, 0.0, 0.0));
  }

  lemma LeaveKeeps(e: Env, k: nat)
    requires Leaving(e, k)
    ensures Inv(Leave(e, k))
  {
    forall part
      ensures Holds(part, Leave(e, k))
    {
      match part
      case FormPart => LeaveForm(e, k);
      case SeparationPart => LeaveSeparated(e, k);
      case LedgerPart => LeaveLedger(e, k);
      case RollPart => LeaveRoll(e, k);
      case FrontsPart => LeaveFronts(e, k);
      case TrafficPart => LeaveTraffic(e, k);
      case HoldersPart =>
        forall n, r | r in At(Leave(e, k).table, n)
          ensures HeldByParked(Leave(e, k).parked, r) || HeldByExiting(Leave(e, k).active, n, r)
        {
          LeaveHolder(e, k, n, r);
        }
      case StandingPart => LeaveStanding(e, k);
    }
  }

  // --- an admission ---

  ghost predicate Admitting(e: Env, s: Slot, stay: real) {
    Inv(e) && Shielded(e, s) && stay >= PARK_MIN
  }

  function EntryBookings(e: Env, s: Slot): set<Booking> {
    RouteBookings(EntryRoute(e.lot, s), Spans(|EntryRoute(e.lot, s)|, e.now), e.lastId + 1, Entering)
  }

  /** What an entry books: one second per node from now on, never the exit gate, its own slot front last. */
  lemma EntryBookingFacts(e: Env, s: Slot, b: Booking)
    requires Form(e) && b in EntryBookings(e, s)
    ensures b.res.vehicle == e.lastId + 1 && b.res.kind == Entering && OnGraph(b.node)
    ensures e.now <= b.res.start < b.res.end <= End(Enterer(e, s))
    ensures b.node.SlotFront? ==> b.node == SlotFront(s)
  {
    var route := EntryRoute(e.lot, s);
    assert GoodEntry(route, s);
    var spans := Spans(|route|, e.now);
    var i :| 0 <= i < |route| && b == Booking(route[i], Res(e.lastId + 1, Entering, spans[i].from, spans[i].to));
    StartsUnderWay(e.lastId + 1, s, route, e.now, false);
  }

  lemma ParksLater(e: Env, s: Slot)
    requires Form(e)
    ensures End(Enterer(e, s)) >= e.now + 4.0
  {
    assert GoodEntry(EntryRoute(e.lot, s), s);
    StartsUnderWay(e.lastId + 1, s, EntryRoute(e.lot, s), e.now, false);
  }

  lemma AdmitTable(e: Env, s: Slot, stay: real, n: Node, r: Res)
    requires Form(e)
    ensures r in At(Admit(e, s, stay).table, n) <==>
      r in At(e.table, n) || Booking(n, r) in EntryBookings(e, s) || Booking(n, r) == StayBooking(e, s, stay)
    ensures Admit(e, s, stay).table.Keys == e.table.Keys
  {
    var v := Enterer(e, s);
    assert GoodEntry(v.route, s);
    RegisterMember(e.table, v.route, v.spans, v.id, Entering, n, r);
    AppendMember(Register(e.table, v.route, v.spans, v.id, Entering), SlotFront(s), StayBooking(e, s, stay).res, n, r);
  }

  lemma AdmitApart(e: Env, s: Slot, stay: real, a: Booking, b: Booking)
    requires Admitting(e, s, stay) && a in e.ever && a.node == b.node
    requires b in EntryBookings(e, s) || b == StayBooking(e, s, stay)
    ensures Apart(a.res, b.res)
  {
    assert Holds(FormPart, e) && Holds(LedgerPart, e) && Holds(FrontsPart, e);
    assert Sound(e, a);
    if b in EntryBookings(e, s) {
      var route := EntryRoute(e.lot, s);
      assert GoodEntry(route, s);
      RouteApart(e, route, {}, a, b, e.lastId + 1, Entering);
    } else {
      assert FrontBound(e, s, a.res);
      ParksLater(e, s);
    }
  }

  lemma AdmitSeparated(e: Env, s: Slot, stay: real)
    requires Admitting(e, s, stay)
    ensures Separated(Admit(e, s, stay).ever)
  {
    hide RouteBookings, Register, Append, Spans, Separated, Apart;
    assert Holds(FormPart, e) && Holds(SeparationPart, e);
    var more := EntryBookings(e, s) + {StayBooking(e, s, stay)};
    forall b | b in more
      ensures b.res.vehicle == e.lastId + 1
    {
      if b in EntryBookings(e, s) {
        EntryBookingFacts(e, s, b);
      }
    }
    forall a, b | a in e.ever && b in more && a.node == b.node
      ensures Apart(a.res, b.res)
    {
      AdmitApart(e, s, stay, a, b);
    }
    ExtendSeparated(e.ever, more, e.lastId + 1);
    assert Admit(e, s, stay).ever == e.ever + more;
  }

  lemma AdmitSound(e: Env, s: Slot, stay: real, b: Booking)
    requires Admitting(e, s, stay) && b in Admit(e, s, stay).ever
    ensures Sound(Admit(e, s, stay), b)
  {
    hide RouteBookings, Register, Append, Spans, At, Expired;
    assert Holds(FormPart, e) && Holds(LedgerPart, e);
    AdmitTable(e, s, stay, b.node, b.res);
    AdmitBookings(e, s, stay, b);
    if b in EntryBookings(e, s) {
      EntryBookingFacts(e, s, b);
    } else if b in e.ever {
      assert Sound(e, b);
    } else {
      assert b == StayBooking(e, s, stay);
    }
  }

  lemma AdmitLedger(e: Env, s: Slot, stay: real)
    requires Admitting(e, s, stay)
    ensures Ledger(Admit(e, s, stay))
  {
    assert Holds(FormPart, e) && Holds(LedgerPart, e);
    forall n, r | r in At(Admit(e, s, stay).table, n)
      ensures Booking(n, r) in Admit(e, s, stay).ever
    {
      AdmitTable(e, s, stay, n, r);
    }
    forall b | b in Admit(e, s, stay).ever
      ensures Sound(Admit(e, s, stay), b)
    {
      AdmitSound(e, s, stay, b);
    }
  }

  lemma MoreStays(ps: seq<Stay>, q: Stay, lastId: nat)
    requires DistinctStays(ps) && !Occupied(ps, q.slot) && q.id == lastId + 1
    requires forall p :: p in ps ==> p.id <= lastId
    ensures DistinctStays(ps + [q])
    ensures forall s: Slot :: Occupied(ps + [q], s) <==> Occupied(ps, s) || s == q.slot
  {
    var all := ps + [q];
    assert all[|ps|] == q;
    forall s: Slot
      ensures Occupied(all, s) <==> Occupied(ps, s) || s == q.slot
    {
      if Occupied(ps, s) {
        var p :| p in ps && p.slot == s;
        assert p in all;
      }
    }
  }

  lemma AdmitRoll(e: Env, s: Slot, stay: real)
    requires Admitting(e, s, stay)
    ensures Roll(Admit(e, s, stay))
  {
    assert Holds(FormPart, e) && Holds(RollPart, e);
    MoreStays(e.parked, Admit(e, s, stay).parked[|e.parked|], e.lastId);
  }

  /** Bookings of other slot fronts keep their bound; the admitted slot's front is bound by the new stay. */
  lemma AdmitFront(e: Env, f: Env, s: Slot, q: Stay, t: Slot, r: Res)
    requires f.parked == e.parked + [q] && f.now == e.now && q.slot == s && !Occupied(e.parked, s) && Taken(f, s)
    requires Taken(f, t) <== Taken(e, t)
    requires if t == s then EndsWith(q, r) else FrontBound(e, t, r)
    ensures FrontBound(f, t, r)
  {
  }

  function NewStay(e: Env, s: Slot, stay: real): Stay {
    Stay(e.lastId + 1, s, StayBooking(e, s, stay).res.end)
  }

  /** No booking of the admitted slot's front outlasts the new stay. */
  lemma AdmitStayIsLast(e: Env, s: Slot, stay: real, b: Booking)
    requires Form(e) && stay >= PARK_MIN && b.node == SlotFront(s)
    requires b == StayBooking(e, s, stay) || b in EntryBookings(e, s) || b.res.end <= e.now + 1.0
    ensures EndsWith(NewStay(e, s, stay), b.res)
  {
    ParksLater(e, s);
    if b in EntryBookings(e, s) {
      EntryBookingFacts(e, s, b);
    }
  }

  lemma AdmitFrontBooking(e: Env, s: Slot, stay: real, b: Booking, t: Slot)
    requires Form(e) && Fronts(e) && stay >= PARK_MIN && b.node == SlotFront(t) && !Taken(e, s)
    requires b in e.ever || b == StayBooking(e, s, stay) || b in EntryBookings(e, s)
    ensures if t == s then EndsWith(NewStay(e, s, stay), b.res) else FrontBound(e, t, b.res)
  {
    if b in e.ever {
      assert FrontBound(e, t, b.res);
    } else if b in EntryBookings(e, s) {
      EntryBookingFacts(e, s, b);
    }
    if t == s {
      AdmitStayIsLast(e, s, stay, b);
    }
  }

  lemma FreeSlotUnoccupied(e: Env, s: Slot)
    requires Roll(e) && !Taken(e, s)
    ensures !Occupied(e.parked, s)
  {
  }

  lemma AdmitBookings(e: Env, s: Slot, stay: real, b: Booking)
    requires b in Admit(e, s, stay).ever
    ensures b in e.ever || b == StayBooking(e, s, stay) || b in EntryBookings(e, s)
  {
  }

  lemma AdmitFrontBound(e: Env, s: Slot, stay: real, b: Booking, t: Slot)
    requires Form(e) && Fronts(e) && stay >= PARK_MIN && !Taken(e, s) && !Occupied(e.parked, s)
    requires b in Admit(e, s, stay).ever && b.node == SlotFront(t)
    ensures FrontBound(Admit(e, s, stay), t, b.res)
  {
    AdmitBookings(e, s, stay, b);
    AdmitFrontBooking(e, s, stay, b, t);
    AdmitFront(e, Admit(e, s, stay), s, NewStay(e, s, stay), t, b.res);
  }

  lemma AdmitFronts(e: Env, s: Slot, stay: real)
    requires Admitting(e, s, stay)
    ensures Fronts(Admit(e, s, stay))
  {
    assert Holds(FormPart, e) && Holds(RollPart, e) && Holds(FrontsPart, e);
    FreeSlotUnoccupied(e, s);
    forall b, t: Slot | b in Admit(e, s, stay).ever && b.node == SlotFront(t)
      ensures FrontBound(Admit(e, s, stay), t, b.res)
    {
      AdmitFrontBound(e, s, stay, b, t);
    }
  }

  lemma AdmitVehicle(e: Env, s: Slot, stay: real, v: Vehicle)
    requires Admitting(e, s, stay) && v in e.active
    ensures OnItsWay(Admit(e, s, stay), v) && v.id != e.lastId + 1
  {
    assert Holds(TrafficPart, e);
    assert OnItsWay(e, v);
    if !v.exiting {
      var p :| p in e.parked && p.id == v.id && p.departAt >= End(v) + PARK_MIN;
      assert p in Admit(e, s, stay).parked;
    }
  }

  lemma AdmitEnterer(e: Env, s: Slot, stay: real)
    requires Admitting(e, s, stay)
    ensures OnItsWay(Admit(e, s, stay), Enterer(e, s))
  {
    assert Holds(FormPart, e);
    var f := Admit(e, s, stay);
    assert GoodEntry(EntryRoute(e.lot, s), s);
    StartsUnderWay(e.lastId + 1, s, EntryRoute(e.lot, s), e.now, false);
    assert f.parked[|e.parked|] in f.parked;
  }

  lemma AdmitTraffic(e: Env, s: Slot, stay: real)
    requires Admitting(e, s, stay)
    ensures Traffic(Admit(e, s, stay))
  {
    assert Holds(TrafficPart, e);
    AdmitEnterer(e, s, stay);
    forall v | v in e.active
      ensures OnItsWay(Admit(e, s, stay), v) && v.id != e.lastId + 1
    {
      AdmitVehicle(e, s, stay, v);
    }
  }

  lemma AdmitHolder(e: Env, s: Slot, stay: real, n: Node, r: Res)
    requires Admitting(e, s, stay) && r in At(Admit(e, s, stay).table, n)
    ensures HeldByParked(Admit(e, s, stay).parked, r) || HeldByExiting(Admit(e, s, stay).active, n, r)
  {
    assert Holds(FormPart, e) && Holds(HoldersPart, e);
    var f := Admit(e, s, stay);
    AdmitTable(e, s, stay, n, r);
    if r in At(e.table, n) {
      if HeldByParked(e.parked, r) {
        var p :| p in e.parked && p.id == r.vehicle
          && r.end <= p.departAt && (r.kind != Parked ==> r.end <= p.departAt - 1.0);
        assert p in f.parked;
      } else {
        MoreVehicles(e.active, Enterer(e, s), n, r);
      }
    } else {
      if Booking(n, r) in EntryBookings(e, s) {
        EntryBookingFacts(e, s, Booking(n, r));
      }
      assert f.parked[|e.parked|] in f.parked;
    }
  }

  lemma AdmitStanding(e: Env, s: Slot, stay: real)
    requires Admitting(e, s, stay)
    ensures Standing(Admit(e, s, stay))
  {
    assert Holds(StandingPart, e);
    var f := Admit(e, s, stay);
    forall p | p in f.parked
      ensures Settled(f, p)
    {
      if p in e.parked {
        StaysSettled(e, f, p);
      } else {
        var v := Enterer(e, s);
        assert v in f.active && v.id == p.id;
        assert DrivingIn(f.active, p.id, End(v));
        assert StayBooking(e, s, stay) == Booking(SlotFront(p.slot), Res(p.id, Parked, End(v), p.departAt));
      }
    }
  }

  lemma AdmitForm(e: Env, s: Slot, stay: real)
    requires Admitting(e, s, stay)
    ensures Form(Admit(e, s, stay))
  {
    assert Holds(FormPart, e);
    AdmitTable(e, s, stay, Entrance, Res(0, Parked, 0.0, 0.0));
  }

  lemma AdmitKeeps(e: Env, s: Slot, stay: real)
    requires Admitting(e, s, stay)
    ensures Inv(Admit(e, s, stay))
  {
    forall part
      ensures Holds(part, Admit(e, s, stay))
    {
      match part
      case FormPart => AdmitForm(e, s, stay);
      case SeparationPart => AdmitSeparated(e, s, stay);
      case LedgerPart => AdmitLedger(e, s, stay);
      case RollPart => AdmitRoll(e, s, stay);
      case FrontsPart => AdmitFronts(e, s, stay);
      case TrafficPart => AdmitTraffic(e, s, stay);
      case HoldersPart =>
        forall n, r | r in At(Admit(e, s, stay).table, n)
          ensures HeldByParked(Admit(e, s, stay).parked, r) || HeldByExiting(Admit(e, s, stay).active, n, r)
        {
          AdmitHolder(e, s, stay, n, r);
        }
      case StandingPart => AdmitStanding(e, s, stay);
    }
  }

  // --- whole events ---

  /** Letting time pass touches neither the decision counters nor the episode flag, and issues no vehicle id. */
  ghost predicate SameCounters(f: Env, e: Env) {
    f.steps == e.steps && f.done == e.done && f.lastId == e.lastId && f.waits == e.waits && f.lot == e.lot
  }

  lemma {:induction false} DeparturesKeep(e: Env, k: nat)
    requires Inv(e) && k <= |e.parked|
    ensures Inv(Departures(e, k)) && SameCounters(Departures(e, k), e)
    decreases |e.parked| - k
  {
    if k < |e.parked| {
      if CanLeave(e, e.parked[k]) {
        LeaveKeeps(e, k);
        DeparturesKeep(Leave(e, k), k);
      } else {
        DeparturesKeep(e, k + 1);
      }
    }
  }

  lemma AdvanceKeeps(e: Env, dt: real)
    requires Inv(e) && dt >= 0.0
    ensures Inv(AdvanceTime(e, dt)) && SameCounters(AdvanceTime(e, dt), e)
  {
    TickKeeps(e, dt);
    DeparturesKeep(Tick(e, dt), 0);
  }

  /** With all slots taken some vehicle is parked, so the deadlock exit of the episode check never fires. */
  lemma NoDeadlock(e: Env)
    requires Inv(e)
    ensures AllTaken(e) ==> e.parked != []
    ensures EpisodeOver(e) <==> e.steps >= MAX_STEPS
  {
    assert Holds(RollPart, e);
    assert Taken(e, 0) <==> Occupied(e.parked, 0);
  }

  /** The invariant does not depend on the decision counters. */
  lemma InvIgnoresCounters(e: Env, f: Env)
    requires Inv(e) && f == e.(steps := f.steps, waits := f.waits, done := f.done)
    ensures Inv(f)
  {
    forall part
      ensures Holds(part, f)
    {
      assert Holds(part, e);
      match part
      case LedgerPart => assert forall b :: Sound(e, b) ==> Sound(f, b);
      case RollPart => assert forall s: Slot :: Taken(f, s) <==> Taken(e, s);
      case FrontsPart => assert forall s: Slot, r :: FrontBound(e, s, r) ==> FrontBound(f, s, r);
      case TrafficPart => assert forall v :: OnItsWay(e, v) ==> OnItsWay(f, v);
      case StandingPart => assert forall p :: Settled(e, p) ==> Settled(f, p);
      case _ =>
    }
  }

  lemma CloseStepKeeps(e: Env, dt: real)
    requires Inv(e) && Clock(e) && !e.done && dt >= 0.0
    ensures Inv(CloseStep(e, dt)) && Clock(CloseStep(e, dt))
    ensures CloseStep(e, dt).steps == e.steps + 1 && CloseStep(e, dt).lot == e.lot
  {
    var f := e.(steps := e.steps + 1);
    InvIgnoresCounters(e, f);
    AdvanceKeeps(f, dt);
    var g := AdvanceTime(f, dt);
    NoDeadlock(g);
    InvIgnoresCounters(g, g.(done := EpisodeOver(g)));
  }

  lemma StepKeeps(e: Env, c: Config, action: int, stay: real, gap: real)
    requires Inv(e) && Clock(e) && c.waitTime >= 0.0 && PARK_MIN <= stay && ARRIVAL_MIN <= gap
    ensures Inv(StepEnv(e, c, action, stay, gap)) && Clock(StepEnv(e, c, action, stay, gap))
    ensures StepEnv(e, c, action, stay, gap).steps ==
      if e.done || !(0 <= action <= WAIT_ACTION) then e.steps else e.steps + 1
    ensures StepEnv(e, c, action, stay, gap).lot == e.lot
  {
    if !e.done && 0 <= action <= WAIT_ACTION {
      var f := e.(waits := if action == WAIT_ACTION then e.waits + 1 else 0);
      InvIgnoresCounters(e, f);
      if action == WAIT_ACTION {
        CloseStepKeeps(f, c.waitTime);
      } else if Shielded(e, action) {
        assert Shielded(f, action);
        AdmitKeeps(f, action, stay);
        CloseStepKeeps(Admit(f, action, stay), gap);
      } else {
        CloseStepKeeps(f, gap);
      }
    }
  }

  lemma MaskKeeps(e: Env, c: Config)
    requires Inv(e) && Clock(e)
    ensures Inv(MaskEnv(e, c)) && Clock(MaskEnv(e, c))
    ensures MaskEnv(e, c).steps == e.steps && MaskEnv(e, c).lot == e.lot
  {
    if e.parked != [] {
      AdvanceKeeps(e, Max(0.0, Earliest(e.parked) - e.now));
    }
  }

  // --- the start of an episode ---

  ghost predicate Opening(e: Env, guests: seq<Guest>) {
    && Inv(e) && Clock(e) && e.steps == 0 && e.now == 0.0 && e.active == []
    && (forall b :: b in e.ever ==> b.node.SlotFront? && Invited(guests, b.node.slot))
    && (forall p :: p in e.parked ==> Invited(guests, p.slot))
  }

  ghost predicate Invited(guests: seq<Guest>, s: int) {
    exists g :: g in guests && g.slot == s
  }

  ghost predicate NextGuest(e: Env, g: Guest) {
    && Inv(e) && e.now == 0.0 && e.active == [] && g.departAt >= PARK_MIN
    && !Occupied(e.parked, g.slot)
    && (forall b :: b in e.ever ==> b.node != SlotFront(g.slot))
  }

  lemma PreParkTable(e: Env, g: Guest, n: Node, r: Res)
    requires Form(e)
    ensures r in At(PrePark(e, g.slot, g.departAt).table, n) <==>
      r in At(e.table, n) || (n == SlotFront(g.slot) && r == Res(e.lastId + 1, Parked, 0.0, g.departAt))
    ensures PrePark(e, g.slot, g.departAt).table.Keys == e.table.Keys
  {
    AppendMember(e.table, SlotFront(g.slot), Res(e.lastId + 1, Parked, 0.0, g.departAt), n, r);
  }

  lemma PreParkSeparated(e: Env, g: Guest)
    requires NextGuest(e, g)
    ensures Separated(PrePark(e, g.slot, g.departAt).ever)
  {
    assert Holds(SeparationPart, e);
    ExtendSeparated(e.ever, {Booking(SlotFront(g.slot), Res(e.lastId + 1, Parked, 0.0, g.departAt))}, e.lastId + 1);
  }

  lemma PreParkLedger(e: Env, g: Guest)
    requires NextGuest(e, g)
    ensures Ledger(PrePark(e, g.slot, g.departAt))
  {
    assert Holds(FormPart, e) && Holds(LedgerPart, e);
    var f := PrePark(e, g.slot, g.departAt);
    forall n, r | r in At(f.table, n)
      ensures Booking(n, r) in f.ever
    {
      PreParkTable(e, g, n, r);
    }
    forall b | b in f.ever
      ensures Sound(f, b)
    {
      PreParkTable(e, g, b.node, b.res);
      if b in e.ever {
        assert Sound(e, b);
      }
    }
  }

  lemma PreParkHolders(e: Env, g: Guest)
    requires NextGuest(e, g)
    ensures Holders(PrePark(e, g.slot, g.departAt))
  {
    assert Holds(FormPart, e) && Holds(HoldersPart, e);
    var f := PrePark(e, g.slot, g.departAt);
    forall n, r | r in At(f.table, n)
      ensures HeldByParked(f.parked, r)
    {
      PreParkTable(e, g, n, r);
      if r in At(e.table, n) {
        assert !HeldByExiting(e.active, n, r);
        var p :| p in e.parked && p.id == r.vehicle
          && r.end <= p.departAt && (r.kind != Parked ==> r.end <= p.departAt - 1.0);
        assert p in f.parked;
      } else {
        assert f.parked[|e.parked|] in f.parked;
      }
    }
  }

  lemma PreParkRest(e: Env, g: Guest)
    requires NextGuest(e, g)
    ensures var f := PrePark(e, g.slot, g.departAt); Form(f) && Roll(f) && Traffic(f)
  {
    assert Holds(FormPart, e) && Holds(RollPart, e);
    var f := PrePark(e, g.slot, g.departAt);
    PreParkTable(e, g, Entrance, Res(0, Parked, 0.0, 0.0));
    MoreStays(e.parked, f.parked[|e.parked|], e.lastId);
  }

  lemma PreParkFronts(e: Env, g: Guest)
    requires NextGuest(e, g)
    ensures Fronts(PrePark(e, g.slot, g.departAt))
  {
    assert Holds(FormPart, e) && Holds(FrontsPart, e);
    var f := PrePark(e, g.slot, g.departAt);
    forall b, s: Slot | b in f.ever && b.node == SlotFront(s)
      ensures FrontBound(f, s, b.res)
    {
      if b in e.ever {
        assert FrontBound(e, s, b.res);
      }
    }
  }

  lemma PreParkStanding(e: Env, g: Guest)
    requires NextGuest(e, g)
    ensures Standing(PrePark(e, g.slot, g.departAt))
  {
    assert Holds(StandingPart, e);
    var f := PrePark(e, g.slot, g.departAt);
    forall p | p in f.parked
      ensures Settled(f, p)
    {
      if p in e.parked {
        StaysSettled(e, f, p);
      } else {
        assert Booking(SlotFront(p.slot), Res(p.id, Parked, 0.0, p.departAt)) in f.ever;
      }
    }
  }

  lemma PreParkKeeps(e: Env, g: Guest)
    requires NextGuest(e, g)
    ensures Inv(PrePark(e, g.slot, g.departAt))
  {
    forall part
      ensures Holds(part, PrePark(e, g.slot, g.departAt))
    {
      match part
      case FormPart => PreParkRest(e, g);
      case SeparationPart => PreParkSeparated(e, g);
      case LedgerPart => PreParkLedger(e, g);
      case RollPart => PreParkRest(e, g);
      case FrontsPart => PreParkFronts(e, g);
      case TrafficPart => PreParkRest(e, g);
      case HoldersPart => PreParkHolders(e, g);
      case StandingPart => PreParkStanding(e, g);
    }
  }

  lemma FreshKeeps(lot: Lot)
    requires GoodLot(lot)
    ensures Opening(Fresh(lot), [])
  {
    forall part
      ensures Holds(part, Fresh(lot))
    {
      match part
      case RollPart => assert forall s: Slot :: !Taken(Fresh(lot), s);
      case _ =>
    }
  }

  lemma OpeningNext(e: Env, guests: seq<Guest>, g: Guest)
    requires Opening(e, guests) && g.departAt >= PARK_MIN && !Invited(guests, g.slot)
    ensures NextGuest(e, g) && Opening(PrePark(e, g.slot, g.departAt), guests + [g])
  {
    assert NextGuest(e, g);
    PreParkKeeps(e, g);
    assert (guests + [g])[|guests|] == g;
    forall s: int | Invited(guests, s)
      ensures Invited(guests + [g], s)
    {
      var h :| h in guests && h.slot == s;
      assert h in guests + [g];
    }
  }

  lemma FewerGuests(guests: seq<Guest>)
    requires ValidGuests(guests) && |guests| > 0
    ensures var front, g := guests[..|guests| - 1], guests[|guests| - 1];
      ValidGuests(front) && !Invited(front, g.slot) && g.departAt >= PARK_MIN && guests == front + [g]
  {
  }

  lemma {:induction false} PreParkAllKeeps(lot: Lot, guests: seq<Guest>)
    requires GoodLot(lot) && ValidGuests(guests)
    ensures Opening(PreParkAll(lot, guests), guests) && PreParkAll(lot, guests).lot == lot
    decreases |guests|
  {
    if |guests| == 0 {
      FreshKeeps(lot);
    } else {
      var front, g := guests[..|guests| - 1], guests[|guests| - 1];
      FewerGuests(guests);
      PreParkAllKeeps(lot, front);
      OpeningNext(PreParkAll(lot, front), front, g);
    }
  }

  // --- every run ---

  lemma {:induction false} RunKeeps(c: Config, events: seq<Event>)
    requires ValidRun(c, events)
    ensures Inv(Run(c, events)) && Clock(Run(c, events)) && Run(c, events).lot == c.lot
    decreases |events|
  {
    if |events| == 0 {
      FreshKeeps(c.lot);
    } else {
      var before := events[..|events| - 1];
      var e := Run(c, before);
      RunKeeps(c, before);
      match events[|events| - 1]
      case Reset(guests) => PreParkAllKeeps(c.lot, guests);
      case Step(action, stay, gap) => StepKeeps(e, c, action, stay, gap);
      case Masks => MaskKeeps(e, c);
      case Advance(dt) => AdvanceKeeps(e, dt);
    }
  }

  /**
   Whatever the policy does, bookings ever made on one node by two different vehicles of an episode keep the safety
   margin, moving or parked, purged ones included.
   */
  lemma BookingsStayApart(c: Config, events: seq<Event>, a: Booking, b: Booking)
    requires ValidRun(c, events)
    requires a in Run(c, events).ever && b in Run(c, events).ever
    requires a.node == b.node && a.res.vehicle != b.res.vehicle
    ensures Apart(a.res, b.res)
  {
    RunKeeps(c, events);
    assert Holds(SeparationPart, Run(c, events));
  }

  /**
   A moving vehicle's route index is the one segment whose interval contains the clock; it is on that node, heads for the
   one after it, if any, and arrives when its last interval ends.
   */
  lemma RouteIndexIsCurrent(c: Config, events: seq<Event>, v: Vehicle, i: nat)
    requires ValidRun(c, events) && v in Run(c, events).active && i < |v.spans|
    ensures v.spans[i].from <= Run(c, events).now < v.spans[i].to <==> i == v.index
    ensures |v.spans| == |v.route| && v.index < |v.route| && v.current == v.route[v.index]
    ensures v.next == v.route[if v.index == |v.route| - 1 then v.index else v.index + 1]
    ensures v.eta == v.spans[|v.route| - 1].to - Run(c, events).now > 0.0
  {
    RunKeeps(c, events);
    assert Holds(TrafficPart, Run(c, events)) && OnItsWay(Run(c, events), v);
  }

  lemma VehicleBooksCurrentNode(e: Env, v: Vehicle) returns (b: Booking)
    requires OnItsWay(e, v)
    ensures b in e.ever && b.node == v.current && b.res.vehicle == v.id && b.res.kind != Parked
    ensures b.res.start <= e.now < b.res.end
  {
    var kind := if v.exiting then Exiting else Entering;
    b := Booking(v.route[v.index], Res(v.id, kind, v.spans[v.index].from, v.spans[v.index].to));
    assert b in RouteBookings(v.route, v.spans, v.id, kind);
  }

  /** No two moving vehicles are ever on the same node, nor share an id. */
  lemma NoSharedNode(c: Config, events: seq<Event>, i: nat, j: nat)
    requires ValidRun(c, events)
    requires i < |Run(c, events).active| && j < |Run(c, events).active| && i != j
    ensures Run(c, events).active[i].id != Run(c, events).active[j].id
    ensures Run(c, events).active[i].current != Run(c, events).active[j].current
  {
    RunKeeps(c, events);
    var e := Run(c, events);
    assert Holds(TrafficPart, e) && Holds(SeparationPart, e);
    assert OnItsWay(e, e.active[i]) && OnItsWay(e, e.active[j]);
    var a := VehicleBooksCurrentNode(e, e.active[i]);
    var b := VehicleBooksCurrentNode(e, e.active[j]);
  }

  /**
   No moving vehicle is ever on the slot front of another vehicle that stands there, not even of one whose
   departure is overdue because it was deferred.
   */
  lemma StandingVehiclesUndisturbed(c: Config, events: seq<Event>, p: Stay, v: Vehicle)
    requires ValidRun(c, events)
    requires p in Run(c, events).parked && (forall w :: w in Run(c, events).active ==> w.id != p.id)
    requires v in Run(c, events).active
    ensures v.current != SlotFront(p.slot)
  {
    hide Run, ValidRun;
    RunKeeps(c, events);
    StandsUndisturbed(Run(c, events), p, v);
  }

  lemma StandsUndisturbed(e: Env, p: Stay, v: Vehicle)
    requires Inv(e) && p in e.parked && v in e.active && forall w :: w in e.active ==> w.id != p.id
    ensures v.current != SlotFront(p.slot)
  {
    hide OnItsWay, Taken;
    assert Holds(TrafficPart, e) && Holds(SeparationPart, e) && Holds(FrontsPart, e) && Holds(StandingPart, e);
    assert Settled(e, p) && OnItsWay(e, v);
    var arrival :| Booking(SlotFront(p.slot), Res(p.id, Parked, arrival, p.departAt)) in e.ever && arrival <= e.now;
    var standing := Booking(SlotFront(p.slot), Res(p.id, Parked, arrival, p.departAt));
    var b := VehicleBooksCurrentNode(e, v);
    assert b.node == standing.node ==> Apart(b.res, standing.res) && FrontBound(e, p.slot, b.res);
  }

  /** Taken slots are exactly the parked vehicles' slots, one each, and no vehicle is lost from the count. */
  lemma SlotsMirrorParked(c: Config, events: seq<Event>)
    requires ValidRun(c, events)
    ensures var e := Run(c, events);
      && (forall s: Slot :: Taken(e, s) <==> Occupied(e.parked, s))
      && (forall i, j :: 0 <= i < j < |e.parked| ==> e.parked[i].slot != e.parked[j].slot)
      && e.lastId == |e.parked| + e.departures
  {
    RunKeeps(c, events);
    assert Holds(RollPart, Run(c, events));
  }

  /**
   On a route started now, one second per node, every entry of another vehicle ends a safety margin before the node is
   reached or starts a safety margin after it is left.
   */
  ghost predicate WayClear(e: Env, route: seq<Node>, id: nat) {
    forall i, r :: 0 <= i < |route| && r in At(e.table, route[i]) && r.vehicle != id ==>
      || r.end + SAFETY_MARGIN <= e.now + i as real
      || e.now + i as real + 1.0 + SAFETY_MARGIN <= r.start
  }

  /** The vehicle's departure is due and its exit clear. */
  ghost predicate DueAndClear(e: Env, s: Stay) {
    s.departAt <= e.now && WayClear(e, ExitRoute(e.lot, s.slot), s.id)
  }

  lemma EntriesAreIntervals(e: Env, n: Node, r: Res)
    requires Ledger(e) && r in At(e.table, n)
    ensures r.start < r.end && 1 <= r.vehicle <= e.lastId
  {
    assert Sound(e, Booking(n, r));
  }

  /** No entry of a vehicle other than `id` conflicts with the route exactly if the way is clear. */
  lemma ConflictExactly(e: Env, route: seq<Node>, id: nat, ignored: set<nat>)
    requires Ledger(e) && (ignored == {id} || (ignored == {} && id > e.lastId))
    ensures Conflict(e.table, route, Spans(|route|, e.now), ignored) <==> !WayClear(e, route, id)
  {
    var spans := Spans(|route|, e.now);
    forall i, r | 0 <= i < |route| && r in At(e.table, route[i])
      ensures Overlaps(spans[i], r) <==>
        !(r.end + SAFETY_MARGIN <= e.now + i as real || e.now + i as real + 1.0 + SAFETY_MARGIN <= r.start)
      ensures r.vehicle in ignored <==> r.vehicle == id
    {
      EntriesAreIntervals(e, route[i], r);
      OverlapsExactly(spans[i], r);
    }
    if !WayClear(e, route, id) {
      var i, r :| 0 <= i < |route| && r in At(e.table, route[i]) && r.vehicle != id
        && !(r.end + SAFETY_MARGIN <= e.now + i as real || e.now + i as real + 1.0 + SAFETY_MARGIN <= r.start);
      assert route[i] in e.table && r in e.table[route[i]];
    }
    if Conflict(e.table, route, spans, ignored) {
      var i, r :| 0 <= i < |route| && i < |spans| && route[i] in e.table && r in e.table[route[i]]
        && r.vehicle !in ignored && Overlaps(spans[i], r);
      assert r in At(e.table, route[i]);
    }
  }

  /** A vehicle may leave exactly when it is due and its exit is clear. */
  lemma LeavesExactly(e: Env, s: Stay)
    requires Inv(e)
    ensures CanLeave(e, s) <==> DueAndClear(e, s)
  {
    hide WayClear, Conflict;
    assert Holds(LedgerPart, e);
    ConflictExactly(e, ExitRoute(e.lot, s.slot), s.id, {s.id});
  }

  ghost predicate SomeoneCanLeave(e: Env, k: nat) {
    exists j :: k <= j < |e.parked| && DueAndClear(e, e.parked[j])
  }

  lemma LeaveFreesItsSlot(e: Env, k: nat)
    requires Inv(e) && k < |e.parked|
    ensures forall s: Slot :: Taken(Leave(e, k), s) <==> Taken(e, s) && s != e.parked[k].slot
  {
    assert Holds(FormPart, e);
  }

  /** Departures only ever free slots, and free none exactly when nobody is both due and clear to go. */
  lemma {:induction false} DeparturesFree(e: Env, k: nat)
    requires Inv(e) && k <= |e.parked|
    ensures forall s: Slot :: Taken(Departures(e, k), s) ==> Taken(e, s)
    ensures !SomeoneCanLeave(e, k) ==> Departures(e, k) == e
    ensures SomeoneCanLeave(e, k) ==> exists s: Slot :: Taken(e, s) && !Taken(Departures(e, k), s)
    decreases |e.parked| - k
  {
    hide CanLeave, SendOut, DueAndClear;
    if k < |e.parked| {
      LeavesExactly(e, e.parked[k]);
      if CanLeave(e, e.parked[k]) {
        var s := e.parked[k].slot;
        LeaveKeeps(e, k);
        DeparturesFree(Leave(e, k), k);
        LeaveFreesItsSlot(e, k);
        assert Holds(RollPart, e) && Occupied(e.parked, s);
      } else {
        DeparturesFree(e, k + 1);
      }
    }
  }

  /**
   Fast-forwarding frees a slot of a full lot exactly when, once the clock stands at the earliest scheduled
   departure, some vehicle is due and its exit route is clear; a deferred departure frees nothing.
   */
  lemma FastForwardFrees(e: Env)
    requires Inv(e) && AllTaken(e) && e.parked != []
    ensures !AllTaken(EnsureFreeSlot(e)) <==>
      SomeoneCanLeave(Tick(e, Max(0.0, Earliest(e.parked) - e.now)), 0)
  {
    hide SomeoneCanLeave, Departures, Inv;
    var dt := Max(0.0, Earliest(e.parked) - e.now);
    TickKeeps(e, dt);
    DeparturesFree(Tick(e, dt), 0);
    TickKeepsSlots(e, dt);
    hide Tick, Taken;
  }

  lemma TickKeepsSlots(e: Env, dt: real)
    ensures forall s: Slot :: Taken(Tick(e, dt), s) <==> Taken(e, s)
  {
  }

  /** How many decisions an episode has accepted since its last reset. */
  ghost function Decisions(c: Config, events: seq<Event>): nat {
    if |events| == 0 then 0
    else
      var before := Decisions(c, events[..|events| - 1]);
      match events[|events| - 1]
      case Reset(_) => 0
      case Step(action, _, _) => if before < MAX_STEPS && 0 <= action <= WAIT_ACTION then before + 1 else before
      case Masks => before
      case Advance(_) => before
  }

  /** An episode is over exactly when its MAX_STEPS-th decision has been taken, never earlier. */
  lemma {:induction false} EpisodeEndsAtMaxSteps(c: Config, events: seq<Event>)
    requires ValidRun(c, events)
    ensures Run(c, events).steps == Decisions(c, events)
    ensures Run(c, events).done <==> Decisions(c, events) == MAX_STEPS
    decreases |events|
  {
    RunKeeps(c, events);
    if |events| > 0 {
      var before := events[..|events| - 1];
      var e := Run(c, before);
      RunKeeps(c, before);
      EpisodeEndsAtMaxSteps(c, before);
      match events[|events| - 1]
      case Reset(guests) => PreParkAllKeeps(c.lot, guests);
      case Step(action, stay, gap) => StepKeeps(e, c, action, stay, gap);
      case Masks => MaskKeeps(e, c);
      case Advance(dt) => AdvanceKeeps(e, dt);
    }
  }
}
