/**
 The parking simulator as a state machine: reservation table, moving vehicles, parked
 vehicles and the events that change them. `ParkingEnv` proves its methods against these
 functions and `ParkingSafety` proves what every run of them keeps.
 */
module ParkingSpec {
  import opened ParkingLayout
  import opened Reals

  const SAFETY_MARGIN := 0.5
  const MAX_STEPS := 64
  const WAIT_ACTION := NUM_SLOTS
  const PARK_MIN := 8.0
  const PARK_MAX := 20.0
  const ARRIVAL_MIN := 0.8
  const ARRIVAL_MAX := 2.2
  const INITIAL_OCCUPANCY_MAX := 4

  datatype Kind = Entering | Parked | Exiting

  /** One entry of the reservation table. */
  datatype Res = Res(vehicle: nat, kind: Kind, start: real, end: real)

  /** A table entry together with the node it was registered on. */
  datatype Booking = Booking(node: Node, res: Res)

  datatype Span = Span(from: real, to: real)

  datatype Vehicle = Vehicle(id: nat, slot: Slot, route: seq<Node>, spans: seq<Span>,
                             index: nat, current: Node, next: Node, eta: real, exiting: bool)

  datatype Stay = Stay(id: nat, slot: Slot, departAt: real)

  type Table = map<Node, seq<Res>>

  /** `ever` records every booking made since the last reset, purged or not. */
  datatype Env = Env(lot: Lot, now: real, taken: seq<bool>, table: Table, active: seq<Vehicle>, parked: seq<Stay>,
                     steps: nat, done: bool, lastId: nat, departures: nat, waits: nat,
                     ever: set<Booking>)

  datatype Config = Config(lot: Lot, waitTime: real, maxWaits: int)

  // --- routes, intervals, conflicts ---

  function Spans(n: nat, start: real): (spans: seq<Span>)
    ensures |spans| == n
  {
    seq(n, i requires 0 <= i < n => Span(start + i as real, start + i as real + 1.0))
  }

  predicate Overlaps(s: Span, r: Res) {
    Max(s.from - SAFETY_MARGIN, r.start) < Min(s.to + SAFETY_MARGIN, r.end)
  }

  /** Some reservation of a vehicle outside `ignored` comes within the margin of the route. */
  ghost predicate Conflict(table: Table, route: seq<Node>, spans: seq<Span>, ignored: set<nat>) {
    exists i, r ::
      && 0 <= i < |route| && i < |spans| && route[i] in table && r in table[route[i]]
      && r.vehicle !in ignored && Overlaps(spans[i], r)
  }

  // The functions below are total; in every state of a run the guards hold (`Shape` in ParkingSafety).

  function Append(table: Table, n: Node, r: Res): Table {
    if n in table then table[n := table[n] + [r]] else table
  }

  function Register(table: Table, route: seq<Node>, spans: seq<Span>, id: nat, kind: Kind): Table
    decreases |route|
  {
    if |route| == 0 || |route| != |spans| then table
    else
      var k := |route| - 1;
      Append(Register(table, route[..k], spans[..k], id, kind), route[k], Res(id, kind, spans[k].from, spans[k].to))
  }

  function Without(rs: seq<Res>, id: nat): seq<Res> {
    if |rs| == 0 then []
    else Without(rs[..|rs| - 1], id) + (if rs[|rs| - 1].vehicle != id then [rs[|rs| - 1]] else [])
  }

  function RemoveVehicle(table: Table, id: nat): Table {
    map n | n in table :: Without(table[n], id)
  }

  /** The bookings one pass along a route registers. */
  function RouteBookings(route: seq<Node>, spans: seq<Span>, id: nat, kind: Kind): set<Booking> {
    set i | 0 <= i < |route| && i < |spans| :: Booking(route[i], Res(id, kind, spans[i].from, spans[i].to))
  }

  function SetSlot(taken: seq<bool>, s: Slot, b: bool): seq<bool> {
    if s < |taken| then taken[s := b] else taken
  }

  predicate Taken(e: Env, s: Slot) {
    s < |e.taken| && e.taken[s]
  }

  function NodeAt(route: seq<Node>, i: nat): Node {
    if i < |route| then route[i] else Entrance
  }

  function Next(route: seq<Node>, i: nat): Node {
    if i + 1 < |route| then route[i + 1] else NodeAt(route, i)
  }

  /** When the last interval ends. */
  function Ends(spans: seq<Span>): real {
    if |spans| == 0 then 0.0 else spans[|spans| - 1].to
  }

  function End(v: Vehicle): real {
    Ends(v.spans)
  }

  // --- the clock ---

  function Seek(spans: seq<Span>, i: nat, t: real): (j: nat)
    ensures i < |spans| ==> i <= j < |spans|
    decreases |spans| - i
  {
    if i + 1 < |spans| && t >= spans[i].to then Seek(spans, i + 1, t) else i
  }

  function Moved(v: Vehicle, t: real): Vehicle {
    var i := Seek(v.spans, v.index, t);
    v.(index := i, current := NodeAt(v.route, i), next := Next(v.route, i), eta := Max(0.0, End(v) - t))
  }

  /** The vehicles still under way at t, in list order. */
  function StillMoving(vs: seq<Vehicle>, t: real): seq<Vehicle> {
    if |vs| == 0 then []
    else
      var v := vs[|vs| - 1];
      StillMoving(vs[..|vs| - 1], t) + (if t < End(v) then [Moved(v, t)] else [])
  }

  /** Vehicles that have completed their exit lose their reservations. */
  function PurgeExited(table: Table, vs: seq<Vehicle>, t: real): Table {
    if |vs| == 0 then table
    else
      var rest := PurgeExited(table, vs[..|vs| - 1], t);
      var v := vs[|vs| - 1];
      if t >= End(v) && v.exiting then RemoveVehicle(rest, v.id) else rest
  }

  function Tick(e: Env, dt: real): Env {
    var t := e.now + dt;
    e.(now := t, active := StillMoving(e.active, t), table := PurgeExited(e.table, e.active, t))
  }

  // --- departures ---

  ghost predicate CanLeave(e: Env, s: Stay) {
    var route := ExitRoute(e.lot, s.slot);
    s.departAt <= e.now && !Conflict(e.table, route, Spans(|route|, e.now), {s.id})
  }

  /** A vehicle at the start of its route. */
  function Starting(id: nat, s: Slot, route: seq<Node>, now: real, exiting: bool): Vehicle {
    var spans := Spans(|route|, now);
    Vehicle(id, s, route, spans, 0, NodeAt(route, 0), Next(route, 0), Ends(spans) - now, exiting)
  }

  function Exiter(e: Env, s: Stay): Vehicle {
    Starting(s.id, s.slot, ExitRoute(e.lot, s.slot), e.now, true)
  }

  /** A parked vehicle starts its way out; its parked record is not yet dropped. */
  function SendOut(e: Env, s: Stay): Env {
    var v := Exiter(e, s);
    e.(taken := SetSlot(e.taken, s.slot, false),
       table := Register(RemoveVehicle(e.table, s.id), v.route, v.spans, s.id, Exiting),
       active := e.active + [v],
       departures := e.departures + 1,
       ever := e.ever + RouteBookings(v.route, v.spans, s.id, Exiting))
  }

  function Leave(e: Env, k: nat): Env
    requires k < |e.parked|
  {
    SendOut(e, e.parked[k]).(parked := e.parked[..k] + e.parked[k + 1..])
  }

  /** Let every parked vehicle from position k on leave if it is due and its way is clear. */
  ghost function Departures(e: Env, k: nat): Env
    requires k <= |e.parked|
    decreases |e.parked| - k
  {
    if k == |e.parked| then e
    else if CanLeave(e, e.parked[k]) then Departures(Leave(e, k), k)
    else Departures(e, k + 1)
  }

  ghost function AdvanceTime(e: Env, dt: real): Env {
    Departures(Tick(e, dt), 0)
  }

  // --- decisions ---

  predicate AllTaken(e: Env) { forall s: Slot :: Taken(e, s) }

  predicate EpisodeOver(e: Env) {
    e.steps >= MAX_STEPS || (AllTaken(e) && e.parked == [])
  }

  ghost predicate Shielded(e: Env, s: Slot) {
    var route := EntryRoute(e.lot, s);
    !Taken(e, s) && !Conflict(e.table, route, Spans(|route|, e.now), {})
  }

  function Enterer(e: Env, s: Slot): Vehicle {
    Starting(e.lastId + 1, s, EntryRoute(e.lot, s), e.now, false)
  }

  /** The reservation of the slot front for the time between parking and the scheduled departure. */
  function StayBooking(e: Env, s: Slot, stay: real): Booking {
    var parks := End(Enterer(e, s));
    Booking(SlotFront(s), Res(e.lastId + 1, Parked, parks, parks + stay))
  }

  /** Admit the pending vehicle to slot s, to stay for `stay` seconds once parked. */
  function Admit(e: Env, s: Slot, stay: real): Env {
    var v := Enterer(e, s);
    var b := StayBooking(e, s, stay);
    e.(lastId := v.id,
       taken := SetSlot(e.taken, s, true),
       table := Append(Register(e.table, v.route, v.spans, v.id, Entering), b.node, b.res),
       active := e.active + [v],
       parked := e.parked + [Stay(v.id, s, b.res.end)],
       ever := e.ever + RouteBookings(v.route, v.spans, v.id, Entering) + {b})
  }

  ghost function CloseStep(e: Env, dt: real): Env {
    var f := AdvanceTime(e.(steps := e.steps + 1), dt);
    f.(done := EpisodeOver(f))
  }

  /** `stay` and `gap` are the draws for the parking duration and the next arrival. */
  ghost function StepEnv(e: Env, c: Config, action: int, stay: real, gap: real): Env {
    if e.done || !(0 <= action <= WAIT_ACTION) then e
    else if action == WAIT_ACTION then CloseStep(e.(waits := e.waits + 1), c.waitTime)
    else if Shielded(e, action) then CloseStep(Admit(e.(waits := 0), action, stay), gap)
    else CloseStep(e.(waits := 0), gap)
  }

  // --- masks ---

  function Earliest(ps: seq<Stay>): real
    requires |ps| > 0
  {
    if |ps| == 1 then ps[0].departAt else Min(Earliest(ps[..|ps| - 1]), ps[|ps| - 1].departAt)
  }

  /** When every slot is taken, run the clock to the earliest scheduled departure. */
  ghost function EnsureFreeSlot(e: Env): Env {
    if !AllTaken(e) || e.parked == [] then e
    else AdvanceTime(e, Max(0.0, Earliest(e.parked) - e.now))
  }

  ghost predicate NothingSelectable(e: Env, c: Config) {
    (forall s: Slot :: !Shielded(e, s)) && e.waits >= c.maxWaits
  }

  ghost function MaskEnv(e: Env, c: Config): Env {
    if !e.done && NothingSelectable(e, c) then EnsureFreeSlot(e) else e
  }

  // --- episodes and runs ---

  function EmptyTable(): (t: Table)
    ensures forall n :: n in t <==> OnGraph(n)
  {
    AllNodesOnGraph();
    map n | n in ALL_NODES :: []
  }

  function Fresh(lot: Lot): Env {
    Env(lot, 0.0, seq(NUM_SLOTS, _ => false), EmptyTable(), [], [], 0, false, 0, 0, 0, {})
  }

  /** Place one vehicle that is parked from the start of the episode. */
  function PrePark(e: Env, s: Slot, departAt: real): Env {
    var id := e.lastId + 1;
    var r := Res(id, Parked, 0.0, departAt);
    e.(lastId := id,
       taken := SetSlot(e.taken, s, true),
       table := Append(e.table, SlotFront(s), r),
       parked := e.parked + [Stay(id, s, departAt)],
       ever := e.ever + {Booking(SlotFront(s), r)})
  }

  datatype Guest = Guest(slot: Slot, departAt: real)

  function PreParkAll(lot: Lot, guests: seq<Guest>): Env
    decreases |guests|
  {
    if |guests| == 0 then Fresh(lot)
    else
      var g := guests[|guests| - 1];
      PrePark(PreParkAll(lot, guests[..|guests| - 1]), g.slot, g.departAt)
  }

  predicate ValidGuests(guests: seq<Guest>) {
    && |guests| <= INITIAL_OCCUPANCY_MAX
    && (forall i, j :: 0 <= i < j < |guests| ==> guests[i].slot != guests[j].slot)
    && (forall i :: 0 <= i < |guests| ==> PARK_MIN <= guests[i].departAt <= PARK_MAX)
  }

  datatype Event =
    | Reset(guests: seq<Guest>)
    | Step(action: int, stay: real, gap: real)
    | Masks
    | Advance(dt: real)

  predicate Allowed(ev: Event) {
    match ev
    case Reset(guests) => ValidGuests(guests)
    case Step(_, stay, gap) => PARK_MIN <= stay <= PARK_MAX && ARRIVAL_MIN <= gap <= ARRIVAL_MAX
    case Masks => true
    case Advance(dt) => dt >= 0.0
  }

  ghost function Apply(e: Env, c: Config, ev: Event): Env {
    match ev
    case Reset(guests) => PreParkAll(e.lot, guests)
    case Step(action, stay, gap) => StepEnv(e, c, action, stay, gap)
    case Masks => MaskEnv(e, c)
    case Advance(dt) => AdvanceTime(e, dt)
  }

  ghost function Run(c: Config, events: seq<Event>): Env
    decreases |events|
  {
    if |events| == 0 then Fresh(c.lot)
    else Apply(Run(c, events[..|events| - 1]), c, events[|events| - 1])
  }

  /** Every draw lies in its stated range and the clock never runs backwards. */
  ghost predicate ValidRun(c: Config, events: seq<Event>) {
    GoodLot(c.lot) && c.waitTime >= 0.0 && forall i :: 0 <= i < |events| ==> Allowed(events[i])
  }
}
