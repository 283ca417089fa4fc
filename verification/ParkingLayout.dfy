/** The waypoint graph of the parking lot: slots, nodes, entry and exit routes. */
module ParkingLayout {
  const NUM_SLOTS := 8

  type Slot = s: int | 0 <= s < NUM_SLOTS

  datatype Node = Entrance | Junction | ExitGate | LanePoint(column: nat) | SlotFront(slot: int)

  predicate OnGraph(n: Node) {
    && (n.LanePoint? ==> 1 <= n.column <= 4)
    && (n.SlotFront? ==> 0 <= n.slot < NUM_SLOTS)
  }

  const ALL_NODES: set<Node> := {
    Entrance, Junction, ExitGate,
    LanePoint(1), LanePoint(2), LanePoint(3), LanePoint(4),
    SlotFront(0), SlotFront(1), SlotFront(2), SlotFront(3),
    SlotFront(4), SlotFront(5), SlotFront(6), SlotFront(7)
  }

  /** The routes of a lot, one per slot: the way in and the way out. */
  datatype Lot = Lot(enter: seq<seq<Node>>, leave: seq<seq<Node>>)

  function EntryRoute(lot: Lot, s: Slot): seq<Node> {
    if s < |lot.enter| then lot.enter[s] else []
  }

  function ExitRoute(lot: Lot, s: Slot): seq<Node> {
    if s < |lot.leave| then lot.leave[s] else []
  }

  ghost predicate GoodEntry(route: seq<Node>, s: Slot) {
    && |route| >= 4
    && route[|route| - 1] == SlotFront(s)
    && (forall i :: 0 <= i < |route| ==> OnGraph(route[i]) && route[i] != ExitGate)
    && (forall i :: 0 <= i < |route| - 1 ==> !route[i].SlotFront?)
  }

  ghost predicate GoodExit(route: seq<Node>, s: Slot) {
    && |route| >= 4
    && route[0] == SlotFront(s)
    && route[|route| - 1] == ExitGate
    && (forall i :: 0 <= i < |route| ==> OnGraph(route[i]))
    && (forall i :: 0 < i < |route| ==> !route[i].SlotFront?)
    && (forall i :: 0 <= i < |route| - 1 ==> route[i] != ExitGate)
  }

  /** All that the safety argument needs to know about the routes. */
  ghost predicate GoodLot(lot: Lot) {
    forall s: Slot :: GoodEntry(EntryRoute(lot, s), s) && GoodExit(ExitRoute(lot, s), s)
  }

  // Slots are numbered by action index: B4, B3, B2, B1, A4, A3, A2, A1.
  function EntryTable(s: Slot): seq<Node> {
    if s == 0 || s == 4 then
      [Entrance, Junction, LanePoint(4), LanePoint(3), LanePoint(2), LanePoint(1), SlotFront(s)]
    else if s == 1 || s == 5 then
      [Entrance, Junction, LanePoint(4), LanePoint(3), LanePoint(2), SlotFront(s)]
    else if s == 2 || s == 6 then
      [Entrance, Junction, LanePoint(4), LanePoint(3), SlotFront(s)]
    else
      [Entrance, Junction, LanePoint(4), SlotFront(s)]
  }

  function ExitTable(s: Slot): seq<Node> {
    if s == 0 || s == 4 then
      [SlotFront(s), LanePoint(1), LanePoint(2), LanePoint(3), LanePoint(4), Junction, ExitGate]
    else if s == 1 || s == 5 then
      [SlotFront(s), LanePoint(2), LanePoint(3), LanePoint(4), Junction, ExitGate]
    else if s == 2 || s == 6 then
      [SlotFront(s), LanePoint(3), LanePoint(4), Junction, ExitGate]
    else
      [SlotFront(s), LanePoint(4), Junction, ExitGate]
  }

  function TheLot(): Lot {
    Lot([EntryTable(0), EntryTable(1), EntryTable(2), EntryTable(3),
         EntryTable(4), EntryTable(5), EntryTable(6), EntryTable(7)],
        [ExitTable(0), ExitTable(1), ExitTable(2), ExitTable(3),
         ExitTable(4), ExitTable(5), ExitTable(6), ExitTable(7)])
  }

  /** Squared distance (mm^2) from the lane junction to a slot front. */
  function JunctionDistance(s: Slot): int {
    var x := if s % 4 == 0 then 1100 else if s % 4 == 1 then 875 else if s % 4 == 2 then 650 else 425;
    var y := if s < 4 then 1050 else 150;
    (x - 150) * (x - 150) + (y - 600) * (y - 600)
  }

  /** Of two slots the one in the nearer column is nearer to the junction, on either side of the lane alike. */
  lemma NearerColumnIsNearer(s: Slot, t: Slot)
    ensures JunctionDistance(s) <= JunctionDistance(t) <==> s % 4 >= t % 4
  {
  }

  lemma AllNodesOnGraph()
    ensures forall n :: n in ALL_NODES <==> OnGraph(n)
  {
  }

  lemma TheTablesAreGood(s: Slot)
    ensures GoodEntry(EntryTable(s), s) && GoodExit(ExitTable(s), s)
  {
  }

  lemma TheLotHasTheTables(s: Slot)
    ensures EntryRoute(TheLot(), s) == EntryTable(s) && ExitRoute(TheLot(), s) == ExitTable(s)
  {
  }

  lemma TheLotIsGood()
    ensures GoodLot(TheLot())
  {
    forall s: Slot
      ensures GoodEntry(EntryRoute(TheLot(), s), s) && GoodExit(ExitRoute(TheLot(), s), s)
    {
      TheLotHasTheTables(s);
      TheTablesAreGood(s);
    }
  }

  /** Leaving retraces the way in node by node, except that it ends at the exit, not at the entrance. */
  lemma ExitRetracesEntry(s: Slot)
    ensures |ExitTable(s)| == |EntryTable(s)|
    ensures forall i :: 0 <= i < |ExitTable(s)| - 1 ==>
      ExitTable(s)[i] == EntryTable(s)[|EntryTable(s)| - 1 - i]
    ensures EntryTable(s)[0] == Entrance && ExitTable(s)[|ExitTable(s)| - 1] == ExitGate
  {
  }
}
